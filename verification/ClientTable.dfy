/** The WebSocket server's fixed table of clients: eight slots, each with a socket and the
    millisecond counter at its last activity. */
module ClientTable {
  import opened MdnsTypes
  import opened Milliseconds

  const MAX_CLIENTS := 8
  const TIMEOUT_MS := 30000

  datatype Client = Client(fd: int, active: bool, last: nat)

  const FREE := Client(-1, false, 0)

  // A slot given up keeps its last activity.
  function Freed(c: Client): Client
  {
    c.(fd := -1, active := false)
  }

  // ---- What the slots stand for: the last activity of every connected socket ----

  function TableOf(slots: seq<Client>): map<int, nat>
  {
    if slots == [] then map[]
    else
      var c := slots[|slots| - 1];
      var front := TableOf(slots[..|slots| - 1]);
      if c.active then front[c.fd := c.last] else front
  }

  predicate OnePerSocket(slots: seq<Client>)
  {
    forall i, j :: 0 <= i < j < |slots| && slots[i].active && slots[j].active ==> slots[i].fd != slots[j].fd
  }

  predicate Holds(slots: seq<Client>, fd: int)
  {
    exists i :: 0 <= i < |slots| && slots[i].active && slots[i].fd == fd
  }

  function ActiveCount(slots: seq<Client>): (n: nat)
    ensures n <= |slots|
  {
    if slots == [] then 0
    else ActiveCount(slots[..|slots| - 1]) + if slots[|slots| - 1].active then 1 else 0
  }

  lemma {:induction false} TableKeys(slots: seq<Client>, fd: int)
    ensures fd in TableOf(slots) <==> Holds(slots, fd)
  {
    if slots != [] {
      var n := |slots| - 1;
      TableKeys(slots[..n], fd);
      if Holds(slots[..n], fd) {
        var i :| 0 <= i < n && slots[..n][i].active && slots[..n][i].fd == fd;
        assert slots[i].active && slots[i].fd == fd;
      }
      if Holds(slots, fd) {
        var i :| 0 <= i < |slots| && slots[i].active && slots[i].fd == fd;
        if i < n {
          assert slots[..n][i] == slots[i];
        }
      }
    }
  }

  lemma FrontDistinct(slots: seq<Client>)
    requires slots != [] && OnePerSocket(slots)
    ensures OnePerSocket(slots[..|slots| - 1])
    ensures slots[|slots| - 1].active ==> !Holds(slots[..|slots| - 1], slots[|slots| - 1].fd)
  {
  }

  lemma {:induction false} TableAt(slots: seq<Client>, i: nat)
    requires OnePerSocket(slots) && i < |slots| && slots[i].active
    ensures slots[i].fd in TableOf(slots) && TableOf(slots)[slots[i].fd] == slots[i].last
  {
    var n := |slots| - 1;
    FrontDistinct(slots);
    if i < n {
      TableAt(slots[..n], i);
    }
  }

  lemma {:induction false} TableSize(slots: seq<Client>)
    requires OnePerSocket(slots)
    ensures |TableOf(slots)| == ActiveCount(slots)
  {
    if slots != [] {
      var n := |slots| - 1;
      FrontDistinct(slots);
      TableSize(slots[..n]);
      TableKeys(slots[..n], slots[n].fd);
    }
  }

  // A table is determined by which sockets it holds and when they were active.
  lemma TableIs(slots: seq<Client>, m: map<int, nat>)
    requires OnePerSocket(slots)
    requires forall fd :: fd in m <==> Holds(slots, fd)
    requires forall i :: 0 <= i < |slots| && slots[i].active ==> slots[i].fd in m && m[slots[i].fd] == slots[i].last
    ensures TableOf(slots) == m
  {
    var t := TableOf(slots);
    forall fd ensures fd in t <==> fd in m {
      TableKeys(slots, fd);
    }
    forall fd | fd in m ensures t[fd] == m[fd] {
      var i :| 0 <= i < |slots| && slots[i].active && slots[i].fd == fd;
      TableAt(slots, i);
    }
    assert t.Keys == m.Keys;
  }

  // Freeing one slot deletes its socket from the table.
  lemma FreedTable(slots: seq<Client>, i: nat)
    requires OnePerSocket(slots) && i < |slots| && slots[i].active
    ensures OnePerSocket(slots[i := Freed(slots[i])])
      && TableOf(slots[i := Freed(slots[i])]) == TableOf(slots) - {slots[i].fd}
  {
    var after := slots[i := Freed(slots[i])];
    var m := TableOf(slots) - {slots[i].fd};
    forall fd ensures fd in m <==> Holds(after, fd) {
      TableKeys(slots, fd);
      if fd in m {
        var j :| 0 <= j < |slots| && slots[j].active && slots[j].fd == fd;
        assert after[j].active && after[j].fd == fd;
      }
      if Holds(after, fd) {
        var j :| 0 <= j < |after| && after[j].active && after[j].fd == fd;
        assert slots[j].active && slots[j].fd == fd && j != i;
      }
    }
    forall j | 0 <= j < |after| && after[j].active ensures after[j].fd in m && m[after[j].fd] == after[j].last {
      TableAt(slots, j);
    }
    TableIs(after, m);
  }

  // Filling a free slot, or updating the socket's own, sets its entry.
  lemma FilledTable(slots: seq<Client>, i: nat, fd: int, last: nat)
    requires OnePerSocket(slots) && i < |slots|
    requires if slots[i].active then slots[i].fd == fd else !Holds(slots, fd)
    ensures var after := slots[i := Client(fd, true, last)];
      OnePerSocket(after) && TableOf(after) == TableOf(slots)[fd := last]
  {
    var after := slots[i := Client(fd, true, last)];
    var m := TableOf(slots)[fd := last];
    forall x ensures x in m <==> Holds(after, x) {
      TableKeys(slots, x);
      if x == fd {
        assert after[i].active && after[i].fd == x;
      } else {
        if x in m {
          var j :| 0 <= j < |slots| && slots[j].active && slots[j].fd == x;
          assert after[j].active && after[j].fd == x;
        }
        if Holds(after, x) {
          var j :| 0 <= j < |after| && after[j].active && after[j].fd == x;
          assert slots[j].active && slots[j].fd == x;
        }
      }
    }
    assert forall j :: 0 <= j < |slots| && j != i && slots[j].active ==> slots[j].fd != fd;
    forall j | 0 <= j < |after| && after[j].active ensures after[j].fd in m && m[after[j].fd] == after[j].last {
      if j != i {
        TableAt(slots, j);
      }
    }
    TableIs(after, m);
  }

  lemma {:induction false} FullWithout(slots: seq<Client>)
    requires forall i :: 0 <= i < |slots| ==> slots[i].active
    ensures ActiveCount(slots) == |slots|
  {
    if slots != [] {
      FullWithout(slots[..|slots| - 1]);
    }
  }

  lemma {:induction false} NotFull(slots: seq<Client>, i: nat)
    requires i < |slots| && !slots[i].active
    ensures ActiveCount(slots) < |slots|
  {
    if i < |slots| - 1 {
      NotFull(slots[..|slots| - 1], i);
    }
  }

  // ---- Which clients are stale ----

  // The idle time as computed with wrap-around.
  function Idle(now: nat, last: nat): nat
  {
    Ms(Ms(now) - last)
  }

  predicate Stale(now: nat, last: nat)
  {
    Idle(now, last) > TIMEOUT_MS
  }

  // What cleaning up leaves.
  function Cleaned(t: map<int, nat>, now: nat, dead: set<int>): map<int, nat>
  {
    map fd | fd in t && !Stale(now, t[fd]) && fd !in dead :: t[fd]
  }

  /** A client that was last active at a true time is found stale exactly when its true idle time
      modulo 2^32 exceeds the timeout; below 2^32 that is when the idle time itself does, whether
      or not the counter has wrapped in between. */
  lemma StaleIff(now: nat, at: nat)
    requires at <= now
    ensures Stale(now, Ms(at)) <==> (now - at) % WRAP > TIMEOUT_MS
    ensures now - at < WRAP ==> (Stale(now, Ms(at)) <==> now - at > TIMEOUT_MS)
    ensures (Stale(now, Ms(at)) <==> now - at > TIMEOUT_MS) <==> now - at < WRAP || (now - at) % WRAP > TIMEOUT_MS
  {
    SubMod(now, at);
  }

  lemma SubMod(a: nat, b: nat)
    requires b <= a
    ensures Ms(Ms(a) - Ms(b)) == (a - b) % WRAP
  {
    assert a == a / WRAP * WRAP + a % WRAP && b == b / WRAP * WRAP + b % WRAP;
    var k := a / WRAP - b / WRAP;
    assert a - b == k * WRAP + (a % WRAP - b % WRAP);
    ModPlus(a % WRAP - b % WRAP, k);
  }

  lemma ModPlus(x: int, k: int)
    ensures (k * WRAP + x) % WRAP == x % WRAP
  {
    var q, r := x / WRAP, x % WRAP;
    assert k * WRAP + x == (k + q) * WRAP + r;
    assert (k * WRAP + x) / WRAP == k + q;
  }

  // ---- The table in place ----

  class Clients {
    const slots: array<Client>

    ghost predicate Valid()
      reads slots
    {
      slots.Length == MAX_CLIENTS && OnePerSocket(slots[..])
    }

    ghost function Table(): map<int, nat>
      reads slots
    {
      TableOf(slots[..])
    }

    constructor ()
      ensures Valid() && fresh(slots) && Table() == map[]
    {
      slots := new Client[MAX_CLIENTS](_ => FREE);
      new;
      TableIs(slots[..], map[]);
    }

    method FindSlot() returns (slot: Option<nat>)
      requires Valid()
      ensures slot.Some? ==> slot.value < MAX_CLIENTS && !slots[slot.value].active
      ensures slot.Some? <==> |Table()| < MAX_CLIENTS
    {
      TableSize(slots[..]);
      var i := 0;
      while i < MAX_CLIENTS
        invariant 0 <= i <= MAX_CLIENTS && forall j :: 0 <= j < i ==> slots[j].active
      {
        if !slots[i].active {
          NotFull(slots[..], i);
          return Some(i);
        }
        i := i + 1;
      }
      FullWithout(slots[..]);
      return None;
    }

    method FindByFd(fd: int) returns (slot: Option<nat>)
      requires Valid()
      ensures slot.Some? ==> slot.value < MAX_CLIENTS && slots[slot.value].active && slots[slot.value].fd == fd
      ensures slot.Some? <==> fd in Table()
    {
      TableKeys(slots[..], fd);
      var i := 0;
      while i < MAX_CLIENTS
        invariant 0 <= i <= MAX_CLIENTS && forall j :: 0 <= j < i ==> !(slots[j].active && slots[j].fd == fd)
      {
        if slots[i].active && slots[i].fd == fd {
          assert slots[..][i].active;
          return Some(i);
        }
        i := i + 1;
      }
      return None;
    }

    method FreeSlot(i: nat)
      requires Valid() && i < MAX_CLIENTS && slots[i].active
      modifies slots
      ensures Valid() && Table() == old(Table()) - {old(slots[i].fd)}
        && slots[..] == old(slots[..])[i := Freed(old(slots[i]))]
    {
      FreedTable(slots[..], i);
      slots[i] := slots[i].(active := false);
      slots[i] := slots[i].(fd := -1);
      assert slots[..] == old(slots[..])[i := Freed(old(slots[i]))];
    }

    method FillSlot(i: nat, fd: int, now: nat)
      requires Valid() && i < MAX_CLIENTS
      requires if slots[i].active then slots[i].fd == fd else fd !in Table()
      modifies slots
      ensures Valid() && Table() == old(Table())[fd := Ms(now)]
    {
      TableKeys(slots[..], fd);
      FilledTable(slots[..], i, fd, Ms(now));
      slots[i] := Client(fd, true, Ms(now));
      assert slots[..] == old(slots[..])[i := Client(fd, true, Ms(now))];
    }

    // A connection is entered, in place of an earlier one of the same socket. Nothing happens
    // only when the table is full of other sockets.
    method AddClient(fd: int, now: nat) returns (added: bool)
      requires Valid()
      modifies slots
      ensures Valid() && (added <==> fd in old(Table()) || |old(Table())| < MAX_CLIENTS)
      ensures Table() == if added then old(Table())[fd := Ms(now)] else old(Table())
    {
      var known := FindByFd(fd);
      ghost var before := Table();
      if known.Some? {
        FreeSlot(known.value);
        assert |before - {fd}| == |before| - 1;
        TableSize(old(slots[..]));
      }
      var slot := FindSlot();
      if slot.None? {
        return false;
      }
      FillSlot(slot.value, fd, now);
      assert (before - {fd})[fd := Ms(now)] == before[fd := Ms(now)];
      return true;
    }

    method RemoveClient(fd: int) returns (found: bool)
      requires Valid()
      modifies slots
      ensures Valid() && (found <==> fd in old(Table())) && Table() == old(Table()) - {fd}
    {
      var slot := FindByFd(fd);
      if slot.Some? {
        FreeSlot(slot.value);
        return true;
      }
      assert Table() - {fd} == Table();
      return false;
    }

    // Activity of a connected socket.
    method UpdateActivity(fd: int, now: nat)
      requires Valid()
      modifies slots
      ensures Valid() && Table() == if fd in old(Table()) then old(Table())[fd := Ms(now)] else old(Table())
    {
      var slot := FindByFd(fd);
      if slot.Some? {
        FillSlot(slot.value, fd, now);
      }
    }

    method ClientCount() returns (n: nat)
      requires Valid()
      ensures n == |Table()| <= MAX_CLIENTS
    {
      TableSize(slots[..]);
      n := 0;
      var i := 0;
      while i < MAX_CLIENTS
        invariant 0 <= i <= MAX_CLIENTS && n == ActiveCount(slots[..i])
      {
        assert slots[..i + 1][..i] == slots[..i];
        if slots[i].active {
          n := n + 1;
        }
        i := i + 1;
      }
      assert slots[..MAX_CLIENTS] == slots[..];
    }

    // The sockets to broadcast to: each connected one exactly once.
    method Snapshot() returns (fds: array<int>, n: nat)
      requires Valid()
      ensures fresh(fds) && n == |Table()| <= fds.Length == MAX_CLIENTS
      ensures forall fd :: fd in fds[..n] <==> fd in Table()
      ensures forall i, j :: 0 <= i < j < n ==> fds[i] != fds[j]
    {
      fds := new int[MAX_CLIENTS];
      n := 0;
      var i := 0;
      while i < MAX_CLIENTS
        invariant 0 <= n <= i <= MAX_CLIENTS && n == ActiveCount(slots[..i])
        invariant fds[..n] == Sockets(slots[..i])
      {
        assert slots[..i + 1][..i] == slots[..i];
        if slots[i].active {
          fds[n] := slots[i].fd;
          n := n + 1;
        }
        i := i + 1;
      }
      assert slots[..MAX_CLIENTS] == slots[..];
      TableSize(slots[..]);
      SocketsOnce(slots[..]);
      forall fd ensures fd in fds[..n] <==> fd in Table() {
        TableKeys(slots[..], fd);
      }
      assert forall k :: 0 <= k < n ==> fds[..n][k] == fds[k];
    }

    // Drops every client that is stale or whose socket has failed.
    method CleanupStale(now: nat, dead: set<int>) returns (removed: nat)
      requires Valid()
      modifies slots
      ensures Valid() && Table() == Cleaned(old(Table()), now, dead)
      ensures removed == |old(Table())| - |Table()|
    {
      removed := 0;
      var i := 0;
      while i < MAX_CLIENTS
        invariant 0 <= i <= MAX_CLIENTS && Valid()
        invariant removed + |Table()| == |old(Table())|
        invariant Cleaned(Table(), now, dead) == Cleaned(old(Table()), now, dead)
        invariant forall j :: 0 <= j < i && slots[j].active ==> !Stale(now, slots[j].last) && slots[j].fd !in dead
      {
        var gone := CheckSlot(i, now, dead);
        removed := removed + gone;
        i := i + 1;
      }
      NothingToClean(slots[..], now, dead);
    }

    // One slot: freed when its client is stale or its socket has failed.
    method CheckSlot(i: nat, now: nat, dead: set<int>) returns (gone: nat)
      requires Valid() && i < MAX_CLIENTS
      modifies slots
      ensures Valid() && gone + |Table()| == |old(Table())|
      ensures Cleaned(Table(), now, dead) == Cleaned(old(Table()), now, dead)
      ensures slots[i].active ==> !Stale(now, slots[i].last) && slots[i].fd !in dead
      ensures forall j :: 0 <= j < MAX_CLIENTS && j != i ==> slots[j] == old(slots[j])
    {
      gone := 0;
      if slots[i].active && (Ms(Ms(now) - slots[i].last) > TIMEOUT_MS || slots[i].fd in dead) {
        TableAt(slots[..], i);
        DroppedOne(Table(), slots[i].fd, now, dead);
        FreeSlot(i);
        gone := 1;
      }
    }

    // The same in two passes: the stale sockets are collected, then removed one by one.
    method CleanupStaleOptimized(now: nat)
      requires Valid()
      modifies slots
      ensures Valid() && Table() == Cleaned(old(Table()), now, {})
    {
      var fds, n := CollectStale(now);
      ghost var before := Table();
      ghost var stale := fds[..n];
      var i := 0;
      assert before - Firsts(fds[..0]) == before;
      while i < n
        invariant 0 <= i <= n && Valid() && fds[..n] == stale && Table() == before - Firsts(fds[..i])
      {
        var found := RemoveClient(fds[i]);
        assert fds[..i + 1][..i] == fds[..i];
        assert before - Firsts(fds[..i]) - {fds[i]} == before - Firsts(fds[..i + 1]);
        i := i + 1;
      }
      CollectedAll(before, stale, now);
    }

    method CollectStale(now: nat) returns (fds: array<int>, n: nat)
      requires Valid()
      ensures fresh(fds) && n <= fds.Length
      ensures forall fd :: fd in fds[..n] <==> fd in Table() && Stale(now, Table()[fd])
    {
      fds := new int[MAX_CLIENTS];
      n := 0;
      var i := 0;
      while i < MAX_CLIENTS
        invariant 0 <= n <= i <= MAX_CLIENTS
        invariant forall k :: 0 <= k < n ==> StaleAt(slots[..], i, now, fds[k])
        invariant forall j :: 0 <= j < i && slots[j].active && Stale(now, slots[j].last) ==> slots[j].fd in fds[..n]
      {
        if slots[i].active && Ms(Ms(now) - slots[i].last) > TIMEOUT_MS {
          ghost var had := fds[..n];
          fds[n] := slots[i].fd;
          n := n + 1;
          assert fds[..n] == had + [slots[i].fd];
          assert slots[..][i].active && slots[..][i].fd == fds[n - 1];
        }
        i := i + 1;
      }
      forall fd ensures fd in fds[..n] <==> fd in Table() && Stale(now, Table()[fd]) {
        if fd in fds[..n] {
          var k :| 0 <= k < n && fds[k] == fd;
          var j :| 0 <= j < |slots[..]| && slots[..][j].active && slots[..][j].fd == fd
            && Stale(now, slots[..][j].last);
          TableAt(slots[..], j);
        }
        TableKeys(slots[..], fd);
        if fd in Table() && Stale(now, Table()[fd]) {
          var j :| 0 <= j < |slots[..]| && slots[..][j].active && slots[..][j].fd == fd;
          TableAt(slots[..], j);
          assert slots[j].fd in fds[..n];
        }
      }
    }
  }

  lemma DroppedOne(t: map<int, nat>, fd: int, now: nat, dead: set<int>)
    requires fd in t && (Stale(now, t[fd]) || fd in dead)
    ensures |t - {fd}| == |t| - 1 && Cleaned(t - {fd}, now, dead) == Cleaned(t, now, dead)
  {
    assert (t - {fd}).Keys == t.Keys - {fd};
    assert Cleaned(t - {fd}, now, dead).Keys == Cleaned(t, now, dead).Keys;
  }

  // Some slot below n holds the socket and is stale.
  ghost predicate StaleAt(slots: seq<Client>, n: nat, now: nat, fd: int)
  {
    exists j :: 0 <= j < n && j < |slots| && slots[j].active && slots[j].fd == fd && Stale(now, slots[j].last)
  }

  function Firsts(fds: seq<int>): set<int>
  {
    if fds == [] then {} else Firsts(fds[..|fds| - 1]) + {fds[|fds| - 1]}
  }

  lemma {:induction false} FirstsAre(fds: seq<int>)
    ensures forall fd :: fd in Firsts(fds) <==> fd in fds
  {
    if fds != [] {
      FirstsAre(fds[..|fds| - 1]);
      assert fds == fds[..|fds| - 1] + [fds[|fds| - 1]];
    }
  }

  lemma CollectedAll(t: map<int, nat>, stale: seq<int>, now: nat)
    requires forall fd :: fd in stale <==> fd in t && Stale(now, t[fd])
    ensures t - Firsts(stale) == Cleaned(t, now, {})
  {
    FirstsAre(stale);
    var a, b := t - Firsts(stale), Cleaned(t, now, {});
    assert forall fd :: fd in a <==> fd in b;
    assert a.Keys == b.Keys;
  }

  function Sockets(slots: seq<Client>): seq<int>
  {
    if slots == [] then []
    else Sockets(slots[..|slots| - 1]) + if slots[|slots| - 1].active then [slots[|slots| - 1].fd] else []
  }

  lemma {:induction false} SocketsOnce(slots: seq<Client>)
    requires OnePerSocket(slots)
    ensures |Sockets(slots)| == ActiveCount(slots)
    ensures forall fd :: fd in Sockets(slots) <==> Holds(slots, fd)
    ensures forall i, j :: 0 <= i < j < |Sockets(slots)| ==> Sockets(slots)[i] != Sockets(slots)[j]
  {
    if slots != [] {
      var n := |slots| - 1;
      FrontDistinct(slots);
      SocketsOnce(slots[..n]);
      forall fd ensures Holds(slots, fd) <==> Holds(slots[..n], fd) || (slots[n].active && slots[n].fd == fd) {
        TableKeys(slots, fd);
        TableKeys(slots[..n], fd);
      }
    }
  }

  lemma NothingToClean(slots: seq<Client>, now: nat, dead: set<int>)
    requires OnePerSocket(slots)
    requires forall j :: 0 <= j < |slots| && slots[j].active ==> !Stale(now, slots[j].last) && slots[j].fd !in dead
    ensures Cleaned(TableOf(slots), now, dead) == TableOf(slots)
  {
    forall fd | fd in TableOf(slots) ensures !Stale(now, TableOf(slots)[fd]) && fd !in dead {
      TableKeys(slots, fd);
      var j :| 0 <= j < |slots| && slots[j].active && slots[j].fd == fd;
      TableAt(slots, j);
    }
  }

  // ---- Runs ----

  datatype Op =
    | Add(fd: int, at: nat) | Remove(fd: int) | Touch(fd: int, at: nat) | Cleanup(at: nat, dead: set<int>)

  // One operation on the table of 32-bit counters, as the methods above carry it out.
  function Step(t: map<int, nat>, op: Op): map<int, nat>
  {
    match op
    case Add(fd, at) => if fd in t || |t| < MAX_CLIENTS then t[fd := Ms(at)] else t
    case Remove(fd) => t - {fd}
    case Touch(fd, at) => if fd in t then t[fd := Ms(at)] else t
    case Cleanup(at, dead) => Cleaned(t, at, dead)
  }

  // The same with true times: a client goes when it has been idle for more than the timeout.
  function TrueStep(t: map<int, nat>, op: Op): map<int, nat>
  {
    match op
    case Add(fd, at) => if fd in t || |t| < MAX_CLIENTS then t[fd := at] else t
    case Remove(fd) => t - {fd}
    case Touch(fd, at) => if fd in t then t[fd := at] else t
    case Cleanup(at, dead) => map fd | fd in t && at - t[fd] <= TIMEOUT_MS && fd !in dead :: t[fd]
  }

  function Counters(t: map<int, nat>): (r: map<int, nat>)
    ensures r.Keys == t.Keys && forall fd :: fd in t ==> r[fd] == Ms(t[fd])
  {
    map fd | fd in t :: Ms(t[fd])
  }

  // No cleanup meets a client whose last activity lies 2^32 ms back, or in the future.
  predicate CleanedInTime(t: map<int, nat>, ops: seq<Op>)
    decreases |ops|
  {
    ops == [] ||
    ((ops[0].Cleanup? ==> forall fd :: fd in t ==> t[fd] <= ops[0].at < t[fd] + WRAP)
     && CleanedInTime(TrueStep(t, ops[0]), ops[1..]))
  }

  function Run(t: map<int, nat>, ops: seq<Op>): map<int, nat>
    decreases |ops|
  {
    if ops == [] then t else Run(Step(t, ops[0]), ops[1..])
  }

  function TrueRun(t: map<int, nat>, ops: seq<Op>): map<int, nat>
    decreases |ops|
  {
    if ops == [] then t else TrueRun(TrueStep(t, ops[0]), ops[1..])
  }

  lemma SameSize(t: map<int, nat>)
    ensures |Counters(t)| == |t|
  {
    assert |Counters(t).Keys| == |t.Keys|;
  }

  lemma CleanedSame(t: map<int, nat>, at: nat, dead: set<int>)
    requires forall fd :: fd in t ==> t[fd] <= at < t[fd] + WRAP
    ensures Cleaned(Counters(t), at, dead) == Counters(TrueStep(t, Cleanup(at, dead)))
  {
    forall fd | fd in t ensures Stale(at, Ms(t[fd])) <==> at - t[fd] > TIMEOUT_MS {
      StaleIff(at, t[fd]);
    }
    assert Cleaned(Counters(t), at, dead).Keys == Counters(TrueStep(t, Cleanup(at, dead))).Keys;
  }

  lemma StepSame(t: map<int, nat>, op: Op)
    requires op.Cleanup? ==> forall fd :: fd in t ==> t[fd] <= op.at < t[fd] + WRAP
    ensures Step(Counters(t), op) == Counters(TrueStep(t, op))
  {
    SameSize(t);
    match op {
      case Cleanup(at, dead) => CleanedSame(t, at, dead);
      case Add(fd, at) => assert Counters(t)[fd := Ms(at)] == Counters(t[fd := at]);
      case Touch(fd, at) => assert Counters(t)[fd := Ms(at)] == Counters(t[fd := at]);
      case Remove(fd) => assert Counters(t) - {fd} == Counters(t - {fd});
    }
  }

  /** Over any run, wrapping counters keep the same clients as true times would, as long as no
      cleanup comes 2^32 ms late. */
  lemma {:induction false} CountersSuffice(t: map<int, nat>, ops: seq<Op>)
    requires CleanedInTime(t, ops)
    ensures Run(Counters(t), ops) == Counters(TrueRun(t, ops))
    decreases |ops|
  {
    if ops != [] {
      StepSame(t, ops[0]);
      CountersSuffice(TrueStep(t, ops[0]), ops[1..]);
    }
  }

  // The stale sockets of a table.
  function StaleSockets(t: map<int, nat>, now: nat): set<int>
  {
    set fd | fd in t && Stale(now, t[fd])
  }

  // ---- Operations between the two passes of the collecting cleanup ----

  // Clients heard from within the timeout before now, or since.
  function Recent(u: map<int, nat>, now: nat): map<int, nat>
  {
    map fd | fd in u && now - u[fd] <= TIMEOUT_MS :: u[fd]
  }

  predicate Names(op: Op, fd: int)
  {
    (op.Add? || op.Touch?) && op.fd == fd
  }

  predicate NamedIn(ops: seq<Op>, fd: int)
  {
    exists k :: 0 <= k < |ops| && Names(ops[k], fd)
  }

  predicate Since(now: nat, ops: seq<Op>)
  {
    forall k :: 0 <= k < |ops| && (ops[k].Add? || ops[k].Touch?) ==> now <= ops[k].at
  }

  // A client in the table at the end has been heard from since exactly when it was named.
  lemma {:induction false} LastHeard(t: map<int, nat>, ops: seq<Op>, fd: int, now: nat)
    requires Since(now, ops) && fd in TrueRun(t, ops)
    ensures if NamedIn(ops, fd) then now <= TrueRun(t, ops)[fd] else fd in t && TrueRun(t, ops)[fd] == t[fd]
    decreases |ops|
  {
    if ops != [] {
      var rest := ops[1..];
      LastHeard(TrueStep(t, ops[0]), rest, fd, now);
      assert NamedIn(ops, fd) <==> Names(ops[0], fd) || NamedIn(rest, fd) by {
        assert forall k :: 0 <= k < |rest| ==> rest[k] == ops[k + 1];
        assert forall k :: 0 < k < |ops| ==> ops[k] == rest[k - 1];
      }
    }
  }

  // The socket is collected as stale, active again before it is removed, and still there.
  predicate Revived(t: map<int, nat>, ops: seq<Op>, now: nat, fd: int)
  {
    fd in StaleSockets(Counters(t), now) && NamedIn(ops, fd) && fd in TrueRun(t, ops)
  }

  lemma CollectedIffOld(t: map<int, nat>, ops: seq<Op>, now: nat, fd: int)
    requires (forall f :: f in t ==> t[f] <= now < t[f] + WRAP) && Since(now, ops) && fd in TrueRun(t, ops)
    ensures !Revived(t, ops, now, fd) ==>
      (fd in StaleSockets(Counters(t), now) <==> now - TrueRun(t, ops)[fd] > TIMEOUT_MS)
    ensures Revived(t, ops, now, fd) ==> now - TrueRun(t, ops)[fd] <= TIMEOUT_MS
  {
    LastHeard(t, ops, fd, now);
    if fd in t {
      StaleIff(now, t[fd]);
    }
  }

  lemma KeptIsRecent(u: map<int, nat>, stale: set<int>, now: nat)
    ensures Counters(u) - stale == Counters(Recent(u, now))
       <==> forall fd :: fd in u ==> (fd in stale <==> now - u[fd] > TIMEOUT_MS)
  {
    var kept, right := Counters(u) - stale, Counters(Recent(u, now));
    if forall fd :: fd in u ==> (fd in stale <==> now - u[fd] > TIMEOUT_MS) {
      assert kept.Keys == right.Keys;
    } else {
      var fd :| fd in u && !(fd in stale <==> now - u[fd] > TIMEOUT_MS);
      assert fd in kept <==> fd !in right;
    }
  }

  /** The two passes of the collecting cleanup, with any operations in between, leave exactly the
      clients heard from within the timeout, or since, if and only if no socket collected by the
      first pass is added again or active in between and still in the table at the end. */
  lemma TwoPassesIff(t: map<int, nat>, ops: seq<Op>, now: nat)
    requires forall fd :: fd in t ==> t[fd] <= now < t[fd] + WRAP
    requires Since(now, ops) && CleanedInTime(t, ops)
    ensures Run(Counters(t), ops) - StaleSockets(Counters(t), now) == Counters(Recent(TrueRun(t, ops), now))
       <==> !exists fd :: Revived(t, ops, now, fd)
  {
    CountersSuffice(t, ops);
    var u, stale := TrueRun(t, ops), StaleSockets(Counters(t), now);
    KeptIsRecent(u, stale, now);
    forall fd | fd in u ensures (fd in stale <==> now - u[fd] > TIMEOUT_MS) <==> !Revived(t, ops, now, fd) {
      CollectedIffOld(t, ops, now, fd);
    }
  }

  // A client heard from between the passes is dropped all the same.
  lemma HeardTooLate(t: map<int, nat>, fd: int, now: nat)
    requires fd in t && Stale(now, t[fd])
    ensures var u := Step(t, Touch(fd, now));
      fd !in u - StaleSockets(t, now) && fd in Cleaned(u, now, {})
  {
    assert Idle(now, Ms(now)) == 0;
  }

  // The table never holds more than eight clients.
  lemma {:induction false} NeverMoreThanEight(t: map<int, nat>, ops: seq<Op>)
    requires |t| <= MAX_CLIENTS
    ensures |Run(t, ops)| <= MAX_CLIENTS
    decreases |ops|
  {
    if ops != [] {
      StepSize(t, ops[0]);
      NeverMoreThanEight(Step(t, ops[0]), ops[1..]);
    }
  }

  lemma StepSize(t: map<int, nat>, op: Op)
    requires |t| <= MAX_CLIENTS
    ensures |Step(t, op)| <= MAX_CLIENTS
  {
    match op {
      case Cleanup(at, dead) => KeysSize(Cleaned(t, at, dead).Keys, t.Keys);
      case Remove(fd) => KeysSize((t - {fd}).Keys, t.Keys);
      case Touch(fd, at) =>
        if fd in t {
          assert t[fd := Ms(at)].Keys == t.Keys;
        }
      case Add(fd, at) =>
        if fd in t {
          assert t[fd := Ms(at)].Keys == t.Keys;
        }
    }
  }

  lemma KeysSize(a: set<int>, b: set<int>)
    requires a <= b
    ensures |a| <= |b|
  {
    assert b == a + (b - a);
  }
}
