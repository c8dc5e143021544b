/** The list of packets waiting to be sent, ordered by due time, and the operations that
    schedule, clear and mark them. The first module gives each operation as a function on
    sequences; TxLists implements them on a singly linked list relinked in place. */
module TxQueue {
  import opened MdnsTypes
  import opened Sequences

  predicate Sorted(q: seq<Packet>)
  {
    forall i, j :: 0 <= i < j < |q| ==> q[i].sendAt <= q[j].sendAt
  }

  // No unqueued packet stands before a queued one.
  predicate QueuedFirst(q: seq<Packet>)
  {
    forall i, j :: 0 <= i < j < |q| && q[j].queued ==> q[i].queued
  }

  predicate DistinctIds(q: seq<Packet>)
  {
    forall i, j :: 0 <= i < j < |q| ==> q[i].id != q[j].id
  }

  function IdSet(q: seq<Packet>): set<nat>
  {
    set i | 0 <= i < |q| :: q[i].id
  }

  // Index at which a packet due at t is linked in: before the first packet due later.
  function InsertPos(q: seq<Packet>, t: nat): (k: nat)
    ensures k <= |q|
  {
    if q == [] || q[0].sendAt > t then 0 else 1 + InsertPos(q[1..], t)
  }

  // Everything before it is due no later, and what stands there is due later.
  lemma {:induction false} InsertPlace(q: seq<Packet>, t: nat)
    ensures forall i :: 0 <= i < InsertPos(q, t) ==> q[i].sendAt <= t
    ensures InsertPos(q, t) < |q| ==> t < q[InsertPos(q, t)].sendAt
  {
    if q != [] && q[0].sendAt <= t {
      InsertPlace(q[1..], t);
      assert forall i :: 0 < i < |q| ==> q[i] == q[1..][i - 1];
    }
  }

  function Insert(q: seq<Packet>, p: Packet): seq<Packet>
  {
    var k := InsertPos(q, p.sendAt);
    q[..k] + [p] + q[k..]
  }

  // The list without the packets of one interface.
  function ClearPcb(q: seq<Packet>, pcb: nat): seq<Packet>
  {
    if q == [] then []
    else (if q[0].pcb == pcb then [] else [q[0]]) + ClearPcb(q[1..], pcb)
  }

  // Packets of one interface, in order, with their "queued" mark dropped.
  function Of(q: seq<Packet>, pcb: nat): seq<Packet>
  {
    if q == [] then []
    else (if q[0].pcb == pcb then [q[0].(queued := false)] else []) + Of(q[1..], pcb)
  }

  // Identities of the packets marked queued, in order.
  function QueuedIds(q: seq<Packet>): seq<nat>
  {
    if q == [] then []
    else (if q[0].queued then [q[0].id] else []) + QueuedIds(q[1..])
  }

  // Length of the leading stretch of packets marked queued.
  function QueuedLen(q: seq<Packet>): (n: nat)
    ensures n <= |q|
    ensures forall i :: 0 <= i < n ==> q[i].queued
    ensures n < |q| ==> !q[n].queued
  {
    if q == [] || !q[0].queued then 0 else 1 + QueuedLen(q[1..])
  }

  // Number of leading packets due strictly before now.
  function DueLen(q: seq<Packet>, now: nat): (n: nat)
    ensures n <= |q|
    ensures forall i :: 0 <= i < n ==> q[i].sendAt < now
    ensures n < |q| ==> now <= q[n].sendAt
  {
    if q == [] || q[0].sendAt >= now then 0 else 1 + DueLen(q[1..], now)
  }

  function Keep(ids: seq<nat>, live: set<nat>): seq<nat>
  {
    if ids == [] then []
    else (if ids[0] in live then [ids[0]] else []) + Keep(ids[1..], live)
  }

  function TxIds(actions: seq<Action>): seq<nat>
  {
    if actions == [] then []
    else (if actions[0].Tx? then [actions[0].id] else []) + TxIds(actions[1..])
  }

  /** The timer task's pass over the packets from the first unqueued one on. Each due packet is
      marked and its action sent to a FIFO of the given capacity; when the FIFO is full the mark
      is taken back. The service task receives without holding the lock, so it may take the
      oldest action just before the attempt numbered receiveAt (at most once: it then waits for
      the lock). */
  datatype PassResult = PassResult(queue: seq<Packet>, fifo: seq<Action>, taken: Option<Action>)

  function Push(q: seq<Packet>, now: nat, fifo: seq<Action>, cap: nat, receiveAt: Option<nat>): PassResult
    decreases |q|, receiveAt == Some(0)
  {
    if q == [] || q[0].sendAt >= now then PassResult(q, fifo, None)
    else if receiveAt == Some(0) then
      if fifo == [] then Push(q, now, fifo, cap, None)
      else Push(q, now, fifo[1..], cap, None).(taken := Some(fifo[0]))
    else
      var sent := |fifo| < cap;
      var later := if receiveAt.Some? then Some(receiveAt.value - 1) else None;
      var rest := Push(q[1..], now, if sent then fifo + [Tx(q[0].id)] else fifo, cap, later);
      rest.(queue := [q[0].(queued := sent)] + rest.queue)
  }

  function TimerPass(q: seq<Packet>, now: nat, fifo: seq<Action>, cap: nat, receiveAt: Option<nat>): PassResult
  {
    var n := QueuedLen(q);
    var rest := Push(q[n..], now, fifo, cap, receiveAt);
    rest.(queue := q[..n] + rest.queue)
  }

  // ---- Lemmas on the operations ----

  lemma InsertAt(q: seq<Packet>, p: Packet) returns (k: nat)
    ensures k <= |q| && k == InsertPos(q, p.sendAt)
    ensures Insert(q, p) == q[..k] + [p] + q[k..]
    ensures |Insert(q, p)| == |q| + 1 && Insert(q, p)[k] == p
    ensures forall i :: 0 <= i < k ==> Insert(q, p)[i] == q[i] && q[i].sendAt <= p.sendAt
    ensures forall i :: k < i <= |q| ==> Insert(q, p)[i] == q[i - 1]
    ensures Sorted(q) ==> forall i :: k <= i < |q| ==> p.sendAt < q[i].sendAt
  {
    k := InsertPos(q, p.sendAt);
    InsertPlace(q, p.sendAt);
  }

  // Scheduling keeps the list sorted, keeps every other packet in its relative place, and puts
  // the new packet after all packets due at the same time or earlier.
  lemma InsertSorted(q: seq<Packet>, p: Packet)
    requires Sorted(q)
    ensures Sorted(Insert(q, p))
    ensures multiset(Insert(q, p)) == multiset(q) + multiset{p}
  {
    var k := InsertAt(q, p);
    var r := Insert(q, p);
    forall i, j | 0 <= i < j < |r| ensures r[i].sendAt <= r[j].sendAt {
      assert i != k ==> r[i] == q[if i < k then i else i - 1];
      assert j != k ==> r[j] == q[if j < k then j else j - 1];
    }
    MultisetInsert(q[..k], p, q[k..]);
    assert q == q[..k] + q[k..];
  }

  lemma InsertIds(q: seq<Packet>, p: Packet)
    ensures IdSet(Insert(q, p)) == IdSet(q) + {p.id}
  {
    var k := InsertAt(q, p);
    var r := Insert(q, p);
    forall x | x in IdSet(q) + {p.id} ensures x in IdSet(r) {
      if x == p.id {
        assert r[k].id == x;
      } else {
        var i :| 0 <= i < |q| && q[i].id == x;
        assert r[if i < k then i else i + 1].id == x;
      }
    }
    forall x | x in IdSet(r) ensures x in IdSet(q) + {p.id} {
      var i :| 0 <= i < |r| && r[i].id == x;
      assert i == k || (if i < k then q[i] == r[i] else q[i - 1] == r[i]);
    }
  }

  lemma {:induction false} OfConcat(a: seq<Packet>, b: seq<Packet>, pcb: nat)
    ensures Of(a + b, pcb) == Of(a, pcb) + Of(b, pcb)
  {
    if a == [] {
      assert a + b == b;
    } else {
      assert (a + b)[1..] == a[1..] + b;
      OfConcat(a[1..], b, pcb);
      Regroup(if a[0].pcb == pcb then [a[0].(queued := false)] else [], Of(a[1..], pcb), Of(b, pcb));
    }
  }

  lemma {:induction false} QueuedIdsConcat(a: seq<Packet>, b: seq<Packet>)
    ensures QueuedIds(a + b) == QueuedIds(a) + QueuedIds(b)
  {
    if a == [] {
      assert a + b == b;
    } else {
      assert (a + b)[1..] == a[1..] + b;
      QueuedIdsConcat(a[1..], b);
      Regroup(if a[0].queued then [a[0].id] else [], QueuedIds(a[1..]), QueuedIds(b));
    }
  }

  lemma {:induction false} KeepConcat(a: seq<nat>, b: seq<nat>, live: set<nat>)
    ensures Keep(a + b, live) == Keep(a, live) + Keep(b, live)
  {
    if a == [] {
      assert a + b == b;
    } else {
      assert (a + b)[1..] == a[1..] + b;
      KeepConcat(a[1..], b, live);
      Regroup(if a[0] in live then [a[0]] else [], Keep(a[1..], live), Keep(b, live));
    }
  }

  lemma {:induction false} TxIdsConcat(a: seq<Action>, b: seq<Action>)
    ensures TxIds(a + b) == TxIds(a) + TxIds(b)
  {
    if a == [] {
      assert a + b == b;
    } else {
      assert (a + b)[1..] == a[1..] + b;
      TxIdsConcat(a[1..], b);
      Regroup(if a[0].Tx? then [a[0].id] else [], TxIds(a[1..]), TxIds(b));
    }
  }

  lemma {:induction false} KeepIs(ids: seq<nat>, live: set<nat>)
    ensures forall x :: x in Keep(ids, live) <==> x in ids && x in live
  {
    if ids != [] {
      KeepIs(ids[1..], live);
    }
  }

  lemma {:induction false} KeepNothing(ids: seq<nat>)
    ensures Keep(ids, {}) == []
  {
    if ids != [] {
      KeepNothing(ids[1..]);
    }
  }

  // Identities that are not pending do not change what is kept.
  lemma {:induction false} KeepIrrelevant(ids: seq<nat>, live: set<nat>, x: nat)
    requires x !in ids
    ensures Keep(ids, live + {x}) == Keep(ids, live) == Keep(ids, live - {x})
  {
    if ids != [] {
      KeepIrrelevant(ids[1..], live, x);
    }
  }

  lemma {:induction false} KeepTwice(ids: seq<nat>, live: set<nat>, fewer: set<nat>)
    requires fewer <= live
    ensures Keep(Keep(ids, live), fewer) == Keep(ids, fewer)
  {
    if ids != [] {
      KeepTwice(ids[1..], live, fewer);
      KeepConcat(if ids[0] in live then [ids[0]] else [], Keep(ids[1..], live), fewer);
    }
  }

  lemma InsertOf(q: seq<Packet>, p: Packet, pcb: nat)
    ensures pcb != p.pcb ==> Of(Insert(q, p), pcb) == Of(q, pcb)
    ensures pcb == p.pcb && Of(q, pcb) == [] ==> Of(Insert(q, p), pcb) == [p.(queued := false)]
    ensures pcb == p.pcb ==> |Of(Insert(q, p), pcb)| == |Of(q, pcb)| + 1
    ensures pcb == p.pcb ==> forall x :: x in Of(Insert(q, p), pcb) <==> x in Of(q, pcb) || x == p.(queued := false)
  {
    var k := InsertPos(q, p.sendAt);
    var a, b := q[..k], q[k..];
    OfConcat(a, [p], pcb);
    OfConcat(a + [p], b, pcb);
    OfConcat(a, b, pcb);
    assert a + b == q;
    OfSingle(p, pcb);
    PutBetween(Of(a, pcb), if pcb == p.pcb then [p.(queued := false)] else [], Of(b, pcb));
  }

  lemma OfSingle(p: Packet, pcb: nat)
    ensures Of([p], pcb) == if pcb == p.pcb then [p.(queued := false)] else []
  {
  }

  lemma PutBetween(a: seq<Packet>, m: seq<Packet>, b: seq<Packet>)
    requires |m| <= 1
    ensures m == [] ==> a + m + b == a + b
    ensures |a + m + b| == |a + b| + |m|
    ensures |m| == 1 ==> forall x :: x in a + m + b <==> x in a + b || x == m[0]
    ensures a + b == [] ==> a + m + b == m
  {
  }

  lemma InsertQueuedIds(q: seq<Packet>, p: Packet)
    requires !p.queued
    ensures QueuedIds(Insert(q, p)) == QueuedIds(q)
  {
    var k := InsertAt(q, p);
    QueuedIdsConcat(q[..k], [p]);
    QueuedIdsConcat(q[..k] + [p], q[k..]);
    QueuedIdsConcat(q[..k], q[k..]);
    assert q == q[..k] + q[k..];
  }

  // Two packets that differ at most in their records.
  predicate SameSlot(x: Packet, y: Packet)
  {
    x.id == y.id && x.sendAt == y.sendAt && x.queued == y.queued && x.pcb == y.pcb
  }

  // a is what is left of b after dropping packets and changing the records of others.
  predicate Subsequence(a: seq<Packet>, b: seq<Packet>)
  {
    if a == [] then true
    else if b == [] then false
    else if SameSlot(a[0], b[0]) then Subsequence(a[1..], b[1..])
    else Subsequence(a, b[1..])
  }

  ghost predicate HasSlot(b: seq<Packet>, x: Packet)
  {
    exists j :: 0 <= j < |b| && SameSlot(x, b[j])
  }

  lemma {:induction false} SubsequenceMembers(a: seq<Packet>, b: seq<Packet>, i: nat)
    requires Subsequence(a, b) && i < |a|
    ensures HasSlot(b, a[i])
  {
    if SameSlot(a[0], b[0]) {
      if i > 0 {
        SubsequenceMembers(a[1..], b[1..], i - 1);
        var j :| 0 <= j < |b[1..]| && SameSlot(a[1..][i - 1], b[1..][j]);
        assert SameSlot(a[i], b[j + 1]);
      }
    } else {
      SubsequenceMembers(a, b[1..], i);
      var j :| 0 <= j < |b[1..]| && SameSlot(a[i], b[1..][j]);
      assert SameSlot(a[i], b[j + 1]);
    }
  }

  // Sortedness, distinct identities and the queued prefix all survive.
  lemma {:induction false} SubsequencePairs(a: seq<Packet>, b: seq<Packet>, i: nat, j: nat)
    requires Subsequence(a, b) && i < j < |a|
    ensures Sorted(b) ==> a[i].sendAt <= a[j].sendAt
    ensures DistinctIds(b) ==> a[i].id != a[j].id
    ensures QueuedFirst(b) ==> a[j].queued ==> a[i].queued
  {
    if SameSlot(a[0], b[0]) {
      if i > 0 {
        PairsOfTail(b);
        SubsequencePairs(a[1..], b[1..], i - 1, j - 1);
      } else {
        SubsequenceMembers(a[1..], b[1..], j - 1);
        var k :| 0 <= k < |b[1..]| && SameSlot(a[1..][j - 1], b[1..][k]);
        assert b[1..][k] == b[k + 1];
      }
    } else {
      PairsOfTail(b);
      SubsequencePairs(a, b[1..], i, j);
    }
  }

  lemma PairsOfTail(b: seq<Packet>)
    requires b != []
    ensures Sorted(b) ==> Sorted(b[1..])
    ensures DistinctIds(b) ==> DistinctIds(b[1..])
    ensures QueuedFirst(b) ==> QueuedFirst(b[1..])
  {
    assert forall i :: 0 <= i < |b[1..]| ==> b[1..][i] == b[i + 1];
  }

  lemma SubsequenceKeepsOrder(a: seq<Packet>, b: seq<Packet>)
    requires Subsequence(a, b)
    ensures Sorted(b) ==> Sorted(a)
    ensures DistinctIds(b) ==> DistinctIds(a)
    ensures QueuedFirst(b) ==> QueuedFirst(a)
    ensures IdSet(a) <= IdSet(b)
  {
    forall i, j | 0 <= i < j < |a|
      ensures Sorted(b) ==> a[i].sendAt <= a[j].sendAt
      ensures DistinctIds(b) ==> a[i].id != a[j].id
      ensures QueuedFirst(b) ==> a[j].queued ==> a[i].queued
    {
      SubsequencePairs(a, b, i, j);
    }
    forall x | x in IdSet(a) ensures x in IdSet(b) {
      var i :| 0 <= i < |a| && a[i].id == x;
      SubsequenceMembers(a, b, i);
    }
  }

  // The pending transmissions that are still live are exactly the queued packets that are left.
  lemma {:induction false} SubsequenceQueuedIds(a: seq<Packet>, b: seq<Packet>)
    requires Subsequence(a, b) && DistinctIds(b)
    ensures Keep(QueuedIds(b), IdSet(a)) == QueuedIds(a)
  {
    if b == [] {
    } else if a == [] {
      KeepNothing(QueuedIds(b));
      assert IdSet(a) == {};
    } else {
      PairsOfTail(b);
      var head := if b[0].queued then [b[0].id] else [];
      KeepConcat(head, QueuedIds(b[1..]), IdSet(a));
      QueuedIdsAreIds(b[1..]);
      assert b[0].id !in IdSet(b[1..]);
      if SameSlot(a[0], b[0]) {
        SubsequenceKeepsOrder(a[1..], b[1..]);
        SubsequenceQueuedIds(a[1..], b[1..]);
        IdSetOfTail(a);
        KeepIrrelevant(QueuedIds(b[1..]), IdSet(a[1..]), a[0].id);
      } else {
        SubsequenceKeepsOrder(a, b[1..]);
        SubsequenceQueuedIds(a, b[1..]);
      }
    }
  }

  lemma IdSetOfTail(q: seq<Packet>)
    requires q != []
    ensures IdSet(q) == IdSet(q[1..]) + {q[0].id}
  {
    assert forall i :: 0 < i < |q| ==> q[i] == q[1..][i - 1];
    forall x | x in IdSet(q[1..]) ensures x in IdSet(q) {
      var i :| 0 <= i < |q[1..]| && q[1..][i].id == x;
      assert q[i + 1].id == x;
    }
  }

  lemma {:induction false} QueuedIdsAreIds(q: seq<Packet>)
    ensures forall x :: x in QueuedIds(q) ==> x in IdSet(q)
  {
    if q != [] {
      QueuedIdsAreIds(q[1..]);
      IdSetOfTail(q);
    }
  }

  lemma {:induction false} SubsequenceSelf(q: seq<Packet>)
    ensures Subsequence(q, q)
  {
    if q != [] {
      SubsequenceSelf(q[1..]);
    }
  }

  // Clearing an interface drops exactly its packets and keeps the others in order.
  lemma {:induction false} ClearPcbDropsExactly(q: seq<Packet>, pcb: nat)
    ensures forall x :: x in ClearPcb(q, pcb) <==> x in q && x.pcb != pcb
    ensures Of(ClearPcb(q, pcb), pcb) == []
  {
    if q != [] {
      ClearPcbDropsExactly(q[1..], pcb);
      assert q == [q[0]] + q[1..];
      assert forall x :: x in q <==> x == q[0] || x in q[1..];
      OfConcat(if q[0].pcb == pcb then [] else [q[0]], ClearPcb(q[1..], pcb), pcb);
    }
  }

  lemma {:induction false} ClearPcbKeepsOthers(q: seq<Packet>, pcb: nat, other: nat)
    requires other != pcb
    ensures Of(ClearPcb(q, pcb), other) == Of(q, other)
  {
    if q != [] {
      ClearPcbKeepsOthers(q[1..], pcb, other);
      OfConcat(if q[0].pcb == pcb then [] else [q[0]], ClearPcb(q[1..], pcb), other);
    }
  }

  lemma {:induction false} ClearPcbSubsequence(q: seq<Packet>, pcb: nat)
    ensures Subsequence(ClearPcb(q, pcb), q)
  {
    if q != [] {
      var rest := ClearPcb(q[1..], pcb);
      ClearPcbSubsequence(q[1..], pcb);
      if q[0].pcb != pcb {
        assert ([q[0]] + rest)[1..] == rest;
      } else {
        assert ClearPcb(q, pcb) == rest;
        if rest != [] {
          ClearPcbDropsExactly(q[1..], pcb);
          assert rest[0] in rest;
        }
      }
    }
  }

  // ---- Lemmas on the timer pass ----

  predicate NoneQueued(q: seq<Packet>)
  {
    forall i :: 0 <= i < |q| ==> !q[i].queued
  }

  predicate SameButMarks(a: seq<Packet>, b: seq<Packet>)
  {
    |a| == |b| && forall i :: 0 <= i < |a| ==> a[i] == b[i].(queued := a[i].queued)
  }

  lemma {:induction false} PushOnlyMarks(q: seq<Packet>, now: nat, fifo: seq<Action>, cap: nat, receiveAt: Option<nat>)
    ensures SameButMarks(Push(q, now, fifo, cap, receiveAt).queue, q)
    decreases |q|, receiveAt == Some(0)
  {
    if q == [] || q[0].sendAt >= now {
    } else if receiveAt == Some(0) {
      PushOnlyMarks(q, now, if fifo == [] then fifo else fifo[1..], cap, None);
    } else {
      var sent := |fifo| < cap;
      PushOnlyMarks(q[1..], now, if sent then fifo + [Tx(q[0].id)] else fifo, cap,
        if receiveAt.Some? then Some(receiveAt.value - 1) else None);
    }
  }

  // A timer pass changes nothing but marks.
  lemma TimerPassOnlyMarks(q: seq<Packet>, now: nat, fifo: seq<Action>, cap: nat, receiveAt: Option<nat>)
    ensures SameButMarks(TimerPass(q, now, fifo, cap, receiveAt).queue, q)
  {
    var n := QueuedLen(q);
    PushOnlyMarks(q[n..], now, fifo, cap, receiveAt);
    assert q == q[..n] + q[n..];
  }

  lemma {:induction false} MarksKeepOf(a: seq<Packet>, b: seq<Packet>, pcb: nat)
    requires SameButMarks(a, b)
    ensures Of(a, pcb) == Of(b, pcb)
  {
    if a != [] {
      MarksKeepOf(a[1..], b[1..], pcb);
    }
  }

  lemma MarksKeepOrder(a: seq<Packet>, b: seq<Packet>)
    requires SameButMarks(a, b)
    ensures Sorted(b) ==> Sorted(a)
    ensures DistinctIds(b) ==> DistinctIds(a)
    ensures IdSet(a) == IdSet(b)
  {
    assert forall i :: 0 <= i < |a| ==> a[i].id == b[i].id && a[i].sendAt == b[i].sendAt;
  }

  function Taken(r: PassResult): seq<Action>
  {
    if r.taken.Some? then [r.taken.value] else []
  }

  lemma {:induction false} NoneQueuedIds(q: seq<Packet>)
    requires NoneQueued(q)
    ensures QueuedIds(q) == []
  {
    if q != [] {
      NoneQueuedIds(q[1..]);
    }
  }

  // No action is lost or invented: what was taken and what is now in the FIFO are what was there
  // before, followed by one transmission for each packet now marked, in list order.
  lemma {:induction false} PushConserves(q: seq<Packet>, now: nat, fifo: seq<Action>, cap: nat, receiveAt: Option<nat>)
    requires NoneQueued(q)
    ensures var r := Push(q, now, fifo, cap, receiveAt);
      TxIds(Taken(r) + r.fifo) == TxIds(fifo) + QueuedIds(r.queue)
    decreases |q|, receiveAt == Some(0)
  {
    var r := Push(q, now, fifo, cap, receiveAt);
    if q == [] || q[0].sendAt >= now {
      NoneQueuedIds(q);
      assert Taken(r) + r.fifo == fifo;
    } else if receiveAt == Some(0) {
      if fifo == [] {
        PushConserves(q, now, fifo, cap, None);
      } else {
        PushConserves(q, now, fifo[1..], cap, None);
        PushTakesNothing(q, now, fifo[1..], cap);
        TakeOne(fifo, Push(q, now, fifo[1..], cap, None));
      }
    } else {
      var sent := |fifo| < cap;
      var next := if sent then fifo + [Tx(q[0].id)] else fifo;
      var later := if receiveAt.Some? then Some(receiveAt.value - 1) else None;
      PushConserves(q[1..], now, next, cap, later);
      MarkOne(q[0], sent, fifo, Push(q[1..], now, next, cap, later).queue);
    }
  }

  // One action is taken before what follows.
  lemma TakeOne(fifo: seq<Action>, later: PassResult)
    requires fifo != [] && later.taken.None?
    requires TxIds(Taken(later) + later.fifo) == TxIds(fifo[1..]) + QueuedIds(later.queue)
    ensures TxIds([fifo[0]] + later.fifo) == TxIds(fifo) + QueuedIds(later.queue)
  {
    assert Taken(later) + later.fifo == later.fifo;
    TxIdsConcat([fifo[0]], later.fifo);
    TxIdsConcat([fifo[0]], fifo[1..]);
    assert [fifo[0]] + fifo[1..] == fifo;
    Regroup(TxIds([fifo[0]]), TxIds(fifo[1..]), QueuedIds(later.queue));
  }

  lemma MarkOne(p: Packet, sent: bool, fifo: seq<Action>, rest: seq<Packet>)
    ensures TxIds(if sent then fifo + [Tx(p.id)] else fifo) + QueuedIds(rest)
         == TxIds(fifo) + QueuedIds([p.(queued := sent)] + rest)
  {
    TxIdsConcat(fifo, [Tx(p.id)]);
    QueuedIdsConcat([p.(queued := sent)], rest);
    assert TxIds([Tx(p.id)]) == [p.id];
  }

  lemma {:induction false} PushTakesNothing(q: seq<Packet>, now: nat, fifo: seq<Action>, cap: nat)
    ensures Push(q, now, fifo, cap, None).taken.None?
  {
    if q != [] && q[0].sendAt < now {
      PushTakesNothing(q[1..], now, if |fifo| < cap then fifo + [Tx(q[0].id)] else fifo, cap);
    }
  }

  // The FIFO never exceeds its capacity.
  lemma {:induction false} PushFits(q: seq<Packet>, now: nat, fifo: seq<Action>, cap: nat, receiveAt: Option<nat>)
    requires |fifo| <= cap
    ensures |Push(q, now, fifo, cap, receiveAt).fifo| <= cap
    decreases |q|, receiveAt == Some(0)
  {
    if q == [] || q[0].sendAt >= now {
    } else if receiveAt == Some(0) {
      PushFits(q, now, if fifo == [] then fifo else fifo[1..], cap, None);
    } else {
      PushFits(q[1..], now, if |fifo| < cap then fifo + [Tx(q[0].id)] else fifo, cap,
        if receiveAt.Some? then Some(receiveAt.value - 1) else None);
    }
  }

  // Only packets that are due get marked.
  lemma {:induction false} PushMarksDue(q: seq<Packet>, now: nat, fifo: seq<Action>, cap: nat, receiveAt: Option<nat>,
      i: nat)
    requires NoneQueued(q) && i < |q|
    requires SameButMarks(Push(q, now, fifo, cap, receiveAt).queue, q)
    ensures Push(q, now, fifo, cap, receiveAt).queue[i].queued ==> q[i].sendAt < now
    decreases |q|, receiveAt == Some(0)
  {
    if q == [] || q[0].sendAt >= now {
    } else if receiveAt == Some(0) {
      PushMarksDue(q, now, if fifo == [] then fifo else fifo[1..], cap, None, i);
    } else if i > 0 {
      var next := if |fifo| < cap then fifo + [Tx(q[0].id)] else fifo;
      var later := if receiveAt.Some? then Some(receiveAt.value - 1) else None;
      PushOnlyMarks(q[1..], now, next, cap, later);
      PushMarksDue(q[1..], now, next, cap, later, i - 1);
    }
  }

  predicate AnyQueued(q: seq<Packet>)
  {
    exists i :: 0 <= i < |q| && q[i].queued
  }

  // When the service task receives in the middle of a pass, the marked packets still form a
  // prefix unless the receive falls strictly after a failed attempt and before the last one.
  lemma {:induction false} PushPrefixIff(q: seq<Packet>, now: nat, fifo: seq<Action>, cap: nat, receiveAt: Option<nat>)
    requires NoneQueued(q) && |fifo| <= cap && cap > 0
    ensures var r := Push(q, now, fifo, cap, receiveAt).queue;
      && (QueuedFirst(r) <==> !(receiveAt.Some? && cap - |fifo| < receiveAt.value < DueLen(q, now)))
      && (|fifo| == cap ==> (AnyQueued(r) <==> receiveAt.Some? && receiveAt.value < DueLen(q, now)))
    decreases |q|, receiveAt == Some(0)
  {
    var r := Push(q, now, fifo, cap, receiveAt).queue;
    if q == [] || q[0].sendAt >= now {
    } else if receiveAt == Some(0) {
      if fifo == [] {
        PushPrefixIff(q, now, fifo, cap, None);
      } else {
        PushPrefixIff(q, now, fifo[1..], cap, None);
        assert r == Push(q, now, fifo[1..], cap, None).queue;
        if |fifo| == cap {
          assert r[0].queued;
        }
      }
    } else {
      var sent := |fifo| < cap;
      var next := if sent then fifo + [Tx(q[0].id)] else fifo;
      var later := if receiveAt.Some? then Some(receiveAt.value - 1) else None;
      PushPrefixIff(q[1..], now, next, cap, later);
      var inner := Push(q[1..], now, next, cap, later).queue;
      assert r == [q[0].(queued := sent)] + inner;
      PrefixCons(q[0].(queued := sent), inner);
    }
  }

  lemma PrefixCons(p: Packet, q: seq<Packet>)
    ensures p.queued ==> (QueuedFirst([p] + q) <==> QueuedFirst(q))
    ensures !p.queued ==> (QueuedFirst([p] + q) <==> !AnyQueued(q)) && (AnyQueued([p] + q) <==> AnyQueued(q))
  {
    assert ([p] + q)[1..] == q;
    PairsOfTail([p] + q);
    if p.queued {
      if QueuedFirst(q) {
        PrefixConsQueued(p, q);
      }
    } else {
      PrefixConsUnqueued(p, q);
    }
  }

  lemma PrefixConsQueued(p: Packet, q: seq<Packet>)
    requires p.queued && QueuedFirst(q)
    ensures QueuedFirst([p] + q)
  {
    var r := [p] + q;
    forall i, j | 0 <= i < j < |r| && r[j].queued ensures r[i].queued {
      assert r[j] == q[j - 1];
      assert i > 0 ==> r[i] == q[i - 1];
    }
  }

  lemma PrefixConsUnqueued(p: Packet, q: seq<Packet>)
    requires !p.queued
    ensures QueuedFirst([p] + q) <==> !AnyQueued(q)
    ensures AnyQueued([p] + q) <==> AnyQueued(q)
  {
    var r := [p] + q;
    assert forall i :: 0 < i < |r| ==> r[i] == q[i - 1];
    if AnyQueued(q) {
      var i :| 0 <= i < |q| && q[i].queued;
      assert r[i + 1].queued && !r[0].queued;
    }
  }

  // ---- A post by another task in the middle of a pass ----

  // A pass during which another task posts an action right before attempt k, if it fits.
  function PushPosted(q: seq<Packet>, now: nat, fifo: seq<Action>, cap: nat, k: nat): PassResult
    decreases |q|
  {
    if q == [] || q[0].sendAt >= now || k == 0 then
      Push(q, now, if |fifo| < cap then fifo + [OtherAction] else fifo, cap, None)
    else
      var sent := |fifo| < cap;
      var rest := PushPosted(q[1..], now, if sent then fifo + [Tx(q[0].id)] else fifo, cap, k - 1);
      rest.(queue := [q[0].(queued := sent)] + rest.queue)
  }

  // The same packets are marked, the same transmissions pending in the same order, and as many
  // actions.
  predicate SameTransmissions(a: PassResult, b: PassResult)
  {
    a.queue == b.queue && TxIds(a.fifo) == TxIds(b.fifo) && |a.fifo| == |b.fifo|
  }

  lemma {:induction false} PushByLength(q: seq<Packet>, now: nat, a: seq<Action>, b: seq<Action>, cap: nat)
    requires |a| == |b| && TxIds(a) == TxIds(b)
    ensures SameTransmissions(Push(q, now, a, cap, None), Push(q, now, b, cap, None))
    decreases |q|
  {
    if q != [] && q[0].sendAt < now {
      if |a| < cap {
        TxIdsConcat(a, [Tx(q[0].id)]);
        TxIdsConcat(b, [Tx(q[0].id)]);
        PushByLength(q[1..], now, a + [Tx(q[0].id)], b + [Tx(q[0].id)], cap);
      } else {
        PushByLength(q[1..], now, a, b, cap);
      }
    }
  }

  lemma {:induction false} PushFull(q: seq<Packet>, now: nat, fifo: seq<Action>, cap: nat, k: nat)
    requires |fifo| >= cap
    ensures PushPosted(q, now, fifo, cap, k) == Push(q, now, fifo, cap, None)
    decreases |q|
  {
    if q != [] && q[0].sendAt < now && k > 0 {
      PushFull(q[1..], now, fifo, cap, k - 1);
    }
  }

  /** A post that falls into a pass amounts to one before it, or to none when it did not fit. */
  lemma {:induction false} PostCommutes(q: seq<Packet>, now: nat, fifo: seq<Action>, cap: nat, k: nat)
    ensures var r := PushPosted(q, now, fifo, cap, k);
      SameTransmissions(r, Push(q, now, fifo, cap, None))
      || (|fifo| < cap && SameTransmissions(r, Push(q, now, fifo + [OtherAction], cap, None)))
    decreases |q|
  {
    if |fifo| >= cap {
      PushFull(q, now, fifo, cap, k);
    } else if q != [] && q[0].sendAt < now && k > 0 {
      var sent := fifo + [Tx(q[0].id)];
      PostCommutes(q[1..], now, sent, cap, k - 1);
      if |sent| < cap {
        var first := fifo + [OtherAction] + [Tx(q[0].id)];
        TxIdsConcat(fifo, [Tx(q[0].id)]);
        TxIdsConcat(sent, [OtherAction]);
        TxIdsConcat(fifo, [OtherAction]);
        TxIdsConcat(fifo + [OtherAction], [Tx(q[0].id)]);
        PushByLength(q[1..], now, sent + [OtherAction], first, cap);
      }
    }
  }
}
