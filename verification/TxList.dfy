/** The transmit queue as the source keeps it: a singly linked list of packets, relinked in
    place. Every operation is proved against the function of the same name on sequences. */
module TxLists {
  import opened MdnsTypes
  import opened TxQueue
  import opened Responder
  import opened LinkedLists

  lemma PosIs(q: seq<Packet>, t: nat, k: nat)
    requires k <= |q| && (forall i :: 0 <= i < k ==> q[i].sendAt <= t) && (k < |q| ==> t < q[k].sendAt)
    ensures InsertPos(q, t) == k
  {
    InsertPlace(q, t);
  }

  lemma InsertIs(q: seq<Packet>, p: Packet, k: nat)
    requires k <= |q| && InsertPos(q, p.sendAt) == k
    ensures Insert(q, p) == q[..k] + [p] + q[k..]
  {
  }

  lemma QueuedLenIs(q: seq<Packet>, k: nat)
    requires k <= |q| && (forall i :: 0 <= i < k ==> q[i].queued) && (k < |q| ==> !q[k].queued)
    ensures QueuedLen(q) == k
  {
  }

  lemma {:induction false} ClearPcbConcat(a: seq<Packet>, b: seq<Packet>, pcb: nat)
    ensures ClearPcb(a + b, pcb) == ClearPcb(a, pcb) + ClearPcb(b, pcb)
  {
    if a == [] {
      assert a + b == b;
    } else {
      assert (a + b)[1..] == a[1..] + b;
      ClearPcbConcat(a[1..], b, pcb);
    }
  }

  lemma {:induction false} ClearPcbNothing(a: seq<Packet>, pcb: nat)
    requires forall i :: 0 <= i < |a| ==> a[i].pcb != pcb
    ensures ClearPcb(a, pcb) == a
  {
    if a != [] {
      ClearPcbNothing(a[1..], pcb);
    }
  }

  // Removing one of the interface's packets does not change what clearing leaves.
  lemma ClearPcbSkip(q: seq<Packet>, k: nat, pcb: nat)
    requires k < |q| && q[k].pcb == pcb
    ensures ClearPcb(q[..k] + q[k + 1..], pcb) == ClearPcb(q, pcb)
  {
    assert q == q[..k] + q[k..];
    ClearPcbConcat(q[..k], q[k..], pcb);
    ClearPcbConcat(q[..k], q[k + 1..], pcb);
    assert q[k..][1..] == q[k + 1..];
  }

  // One attempt of the timer task, preceded by the service task's receive if it falls there.
  datatype AttemptResult = AttemptResult(packet: Packet, fifo: seq<Action>, wait: Option<nat>, taken: Option<Action>)

  ghost function Attempt(p: Packet, fifo: seq<Action>, cap: nat, wait: Option<nat>): AttemptResult
  {
    var receives := wait == Some(0) && fifo != [];
    var left := if receives then fifo[1..] else fifo;
    AttemptResult(
      p.(queued := |left| < cap),
      if |left| < cap then left + [Tx(p.id)] else left,
      if wait.Some? && wait.value > 0 then Some(wait.value - 1) else None,
      if receives then Some(fifo[0]) else None)
  }

  function PassFrom(marked: seq<Packet>, rest: PassResult, taken: Option<Action>): PassResult
  {
    PassResult(marked + rest.queue, rest.fifo, if taken.Some? then taken else rest.taken)
  }

  lemma PushAttempt(q: seq<Packet>, now: nat, fifo: seq<Action>, cap: nat, wait: Option<nat>)
    requires q != [] && q[0].sendAt < now
    ensures var a := Attempt(q[0], fifo, cap, wait);
      Push(q, now, fifo, cap, wait) == PassFrom([a.packet], Push(q[1..], now, a.fifo, cap, a.wait), a.taken)
  {
    if wait == Some(0) && fifo != [] {
      PushTakesNothing(q, now, fifo[1..], cap);
    }
  }

  lemma PassFromStep(marked: seq<Packet>, p: Packet, rest: PassResult, taken: Option<Action>, more: Option<Action>)
    ensures PassFrom(marked, PassFrom([p], rest, more), taken)
         == PassFrom(marked + [p], rest, if taken.Some? then taken else more)
  {
    assert marked + ([p] + rest.queue) == marked + [p] + rest.queue;
  }

  // The timer task's loop has marked the packets before k as given: what is left to do from k on
  // completes the whole pass.
  ghost predicate Progress(q: seq<Packet>, k: nat, marked: seq<Packet>, now: nat, fifo: seq<Action>,
                           cap: nat, wait: Option<nat>, taken: Option<Action>, goal: PassResult)
  {
    k <= |q| && PassFrom(marked, Push(q[k..], now, fifo, cap, wait), taken) == goal
  }

  lemma LoopStart(q: seq<Packet>, n: nat, now: nat, before: seq<Action>, cap: nat, receiveAt: Option<nat>)
    requires n <= |q|
    ensures Progress(q, n, [], now, before, cap, receiveAt, None, Push(q[n..], now, before, cap, receiveAt))
    ensures q[n..n] == []
  {
    assert [] + Push(q[n..], now, before, cap, receiveAt).queue == Push(q[n..], now, before, cap, receiveAt).queue;
  }

  lemma LoopStep(q: seq<Packet>, k: nat, marked: seq<Packet>, now: nat, fifo: seq<Action>,
                 cap: nat, wait: Option<nat>, taken: Option<Action>, goal: PassResult)
    requires k < |q| && q[k].sendAt < now && Progress(q, k, marked, now, fifo, cap, wait, taken, goal)
    ensures var a := Attempt(q[k], fifo, cap, wait);
      Progress(q, k + 1, marked + [a.packet], now, a.fifo, cap, a.wait, if taken.Some? then taken else a.taken, goal)
  {
    var a := Attempt(q[k], fifo, cap, wait);
    assert q[k..][0] == q[k] && q[k..][1..] == q[k + 1..];
    PushAttempt(q[k..], now, fifo, cap, wait);
    PassFromStep(marked, a.packet, Push(q[k + 1..], now, a.fifo, cap, a.wait), taken, a.taken);
  }

  // Makes x due in the given number of milliseconds and links it in before the first packet due later.
  method Schedule(l: LinkedList<Packet>, x: Node<Packet>, now: nat, after: nat)
    requires l.Valid() && x !in l.spine
    modifies l, l.nodes, x
    ensures l.Valid() && l.nodes == old(l.nodes) + {x}
    ensures x.item == old(x.item).(sendAt := now + after)
    ensures l.contents == Insert(old(l.contents), old(x.item).(sendAt := now + after))
  {
    x.item := x.item.(sendAt := now + after);
    ghost var q0 := l.contents;
    assert q0 == old(l.contents);
    if l.head == null || l.head.item.sendAt > x.item.sendAt {
      PosIs(q0, x.item.sendAt, 0);
      InsertIs(q0, x.item, 0);
      l.LinkFirst(x);
    } else {
      var q, k := FindSlot(l, x.item.sendAt);
      InsertIs(q0, x.item, k + 1);
      l.InsertAfter(q, x, k);
    }
  }

  // The last node due at t or earlier, when the first one is.
  method FindSlot(l: LinkedList<Packet>, t: nat) returns (q: Node<Packet>, ghost k: nat)
    requires l.Valid() && l.head != null && l.head.item.sendAt <= t
    ensures k < |l.spine| && q == l.spine[k] && k + 1 == InsertPos(l.contents, t)
  {
    q := l.head;
    k := 0;
    while q.next != null && q.next.item.sendAt <= t
      invariant k < |l.spine| && q == l.spine[k]
      invariant forall i :: 0 <= i <= k ==> l.spine[i].item.sendAt <= t
      decreases |l.spine| - k
    {
      q := q.next;
      k := k + 1;
    }
    PosIs(l.contents, t, k + 1);
  }

  // Drops the packets of one interface.
  method ClearInterface(l: LinkedList<Packet>, pcb: nat)
    requires l.Valid()
    modifies l`head, l`spine, l`contents, l.nodes
    ensures l.Valid()
    ensures l.contents == ClearPcb(old(l.contents), pcb)
  {
    while l.head != null && l.head.item.pcb == pcb
      invariant l.Valid()
      invariant ClearPcb(l.contents, pcb) == ClearPcb(old(l.contents), pcb)
      decreases |l.spine|
    {
      l.UnlinkFirst();
    }
    if l.head != null {
      ClearBehindHead(l, pcb);
      ClearPcbNothing(l.contents, pcb);
    }
  }

  method ClearBehindHead(l: LinkedList<Packet>, pcb: nat)
    requires l.Valid() && l.head != null && l.head.item.pcb != pcb
    modifies l`head, l`spine, l`contents, l.nodes
    ensures l.Valid()
    ensures forall i :: 0 <= i < |l.spine| ==> l.spine[i].item.pcb != pcb
    ensures ClearPcb(l.contents, pcb) == ClearPcb(old(l.contents), pcb)
  {
    var q := l.head;
    ghost var k: nat := 0;
    while q.next != null
      invariant l.Valid()
      invariant k < |l.spine| && q == l.spine[k]
      invariant forall i :: 0 <= i <= k ==> l.spine[i].item.pcb != pcb
      invariant ClearPcb(l.contents, pcb) == ClearPcb(old(l.contents), pcb)
      decreases |l.spine| - k
    {
      q, k := ClearNext(l, q, k, pcb);
    }
  }

  // Unlinks the packet behind q if it is one of the interface's, and otherwise moves on to it.
  method ClearNext(l: LinkedList<Packet>, q: Node<Packet>, ghost k: nat, pcb: nat)
    returns (q': Node<Packet>, ghost k': nat)
    requires l.Valid() && k + 1 < |l.spine| && q == l.spine[k]
    requires forall i :: 0 <= i <= k ==> l.spine[i].item.pcb != pcb
    modifies l`spine, l`contents, q`next
    ensures l.Valid() && k' < |l.spine| && q' == l.spine[k'] && |l.spine| - k' < |old(l.spine)| - k
    ensures forall i :: 0 <= i <= k' ==> l.spine[i].item.pcb != pcb
    ensures ClearPcb(l.contents, pcb) == ClearPcb(old(l.contents), pcb)
  {
    if q.next.item.pcb == pcb {
      ClearOne(l, q, k, pcb);
      q', k' := q, k;
    } else {
      q', k' := q.next, k + 1;
    }
  }

  // Changes the k-th packet, or unlinks it when nothing is left of it; the node to look at next.
  method ReplaceOrDetach(l: LinkedList<Packet>, x: Node<Packet>, packet: Packet, ghost k: nat)
    returns (next: Node?<Packet>)
    requires l.Valid() && k < |l.spine| && x == l.spine[k]
    modifies l`head, l`spine, l`contents, l.nodes
    ensures l.Valid()
    ensures next == At(l.spine, if packet.Empty() then k else k + 1)
    ensures var q := old(l.contents);
      l.contents == if packet.Empty() then q[..k] + q[k + 1..] else q[k := packet]
  {
    ghost var q := l.contents;
    SpliceOut(l.spine, k);
    l.SetItem(x, packet, k);
    next := x.next;
    if x.item.Empty() {
      l.Detach(x, k);
      assert l.contents == q[..k] + q[k + 1..];
    }
  }

  // Unlinks the packet behind q, one of the interface being cleared.
  method ClearOne(l: LinkedList<Packet>, q: Node<Packet>, ghost k: nat, ghost pcb: nat)
    requires l.Valid() && k + 1 < |l.spine| && q == l.spine[k] && l.spine[k + 1].item.pcb == pcb
    modifies l`spine, l`contents, q`next
    ensures l.Valid() && l.spine == old(l.spine)[..k + 1] + old(l.spine)[k + 2..]
    ensures ClearPcb(l.contents, pcb) == ClearPcb(old(l.contents), pcb)
  {
    ghost var was := l.contents;
    l.RemoveAfter(q, k);
    ClearPcbSkip(was, k + 1, pcb);
  }

  // The first packet of an interface.
  method First(l: LinkedList<Packet>, pcb: nat) returns (x: Node?<Packet>, ghost k: nat)
    requires l.Valid()
    ensures k == FirstOf(l.contents, pcb) && x == At(l.spine, k)
  {
    x := l.head;
    k := 0;
    ghost var q := l.contents;
    assert q[0..] == q;
    while x != null && x.item.pcb != pcb
      invariant k <= |l.spine| && x == At(l.spine, k)
      invariant FirstOf(q, pcb) == k + FirstOf(q[k..], pcb)
      decreases |l.spine| - k
    {
      assert q[k..][1..] == q[k + 1..];
      x := x.next;
      k := k + 1;
    }
  }

  // The first packet not marked.
  method FirstUnqueued(l: LinkedList<Packet>) returns (p: Node?<Packet>, ghost n: nat)
    requires l.Valid()
    ensures n == QueuedLen(l.contents) && p == At(l.spine, n)
  {
    p := l.head;
    n := 0;
    while p != null && p.item.queued
      invariant n <= |l.spine| && p == At(l.spine, n)
      invariant forall i :: 0 <= i < n ==> l.spine[i].item.queued
      decreases |l.spine| - n
    {
      p := p.next;
      n := n + 1;
    }
    QueuedLenIs(l.contents, n);
  }

  /** The timer task's pass. Just before the attempt numbered receiveAt the service task may
      take the oldest action from the FIFO. */
  method MarkDue(l: LinkedList<Packet>, now: nat, before: seq<Action>, cap: nat, receiveAt: Option<nat>)
    returns (fifo: seq<Action>, taken: Option<Action>)
    requires l.Valid()
    modifies l`contents, l.nodes`item
    ensures l.Valid() && PassResult(l.contents, fifo, taken) == TimerPass(old(l.contents), now, before, cap, receiveAt)
  {
    var p, n := FirstUnqueued(l);
    fifo, taken := MarkDueFrom(l, p, n, now, before, cap, receiveAt);
  }

  // Where the pass stands: the packets from n up to k are dealt with, p is the next one, and what
  // is left to do from here completes the pass.
  ghost predicate Passing(l: LinkedList<Packet>, q: seq<Packet>, n: nat, p: Node?<Packet>, k: nat, now: nat,
                          fifo: seq<Action>, cap: nat, wait: Option<nat>, taken: Option<Action>, goal: PassResult)
    reads l, l.nodes
  {
    && l.Valid() && n <= k <= |l.spine| == |q| && p == At(l.spine, k)
    && |l.contents| == |q| && l.contents[..n] == q[..n] && l.contents[k..] == q[k..]
    && Progress(q, k, l.contents[n..k], now, fifo, cap, wait, taken, goal)
  }

  method MarkDueFrom(l: LinkedList<Packet>, first: Node?<Packet>, ghost n: nat, now: nat, before: seq<Action>,
      cap: nat, receiveAt: Option<nat>)
    returns (fifo: seq<Action>, taken: Option<Action>)
    requires l.Valid() && first == At(l.spine, n) && n == QueuedLen(l.contents)
    modifies l`contents, l.nodes`item
    ensures l.Valid() && PassResult(l.contents, fifo, taken) == TimerPass(old(l.contents), now, before, cap, receiveAt)
  {
    ghost var q := l.contents;
    ghost var goal := Push(q[n..], now, before, cap, receiveAt);
    var p, wait := first, receiveAt;
    ghost var k: nat := n;
    fifo, taken := before, None;
    LoopStart(q, n, now, before, cap, receiveAt);
    while p != null && p.item.sendAt < now
      invariant Passing(l, q, n, p, k, now, fifo, cap, wait, taken, goal)
      decreases |q| - k
    {
      p, fifo, wait, taken := Turn(l, q, n, p, k, now, fifo, cap, wait, taken, goal);
      k := k + 1;
    }
    PassEnds(l, q, n, p, k, now, fifo, cap, wait, taken, goal);
  }

  lemma PassEnds(l: LinkedList<Packet>, q: seq<Packet>, n: nat, p: Node?<Packet>, k: nat, now: nat,
                 fifo: seq<Action>, cap: nat, wait: Option<nat>, taken: Option<Action>, goal: PassResult)
    requires Passing(l, q, n, p, k, now, fifo, cap, wait, taken, goal) && (p != null ==> p.item.sendAt >= now)
    ensures l.Valid() && l.contents == q[..n] + goal.queue && goal.fifo == fifo && goal.taken == taken
  {
    var c := l.contents;
    if k < |q| {
      assert q[k] == q[k..][0] == c[k..][0] == p.item;
    }
    assert Push(q[k..], now, fifo, cap, wait) == PassResult(q[k..], fifo, None);
    assert c == c[..n] + (c[n..k] + c[k..]);
  }

  // One turn of the loop.
  method Turn(l: LinkedList<Packet>, ghost q: seq<Packet>, ghost n: nat, p: Node<Packet>, ghost k: nat, now: nat,
              fifo: seq<Action>, cap: nat, wait: Option<nat>, taken: Option<Action>, ghost goal: PassResult)
    returns (next: Node?<Packet>, fifo': seq<Action>, wait': Option<nat>, taken': Option<Action>)
    requires Passing(l, q, n, p, k, now, fifo, cap, wait, taken, goal) && p.item.sendAt < now
    modifies l`contents, p`item
    ensures Passing(l, q, n, next, k + 1, now, fifo', cap, wait', taken', goal) && k < |q|
  {
    ghost var c := l.contents;
    assert p.item == c[k] == c[k..][0] == q[k..][0] == q[k];
    LoopStep(q, k, c[n..k], now, fifo, cap, wait, taken, goal);
    fifo', wait', taken' := MakeAttempt(l, p, k, fifo, cap, wait, taken);
    OneMarked(c, q, n, k, p.item);
    next := p.next;
  }

  lemma OneMarked(c: seq<Packet>, q: seq<Packet>, n: nat, k: nat, p: Packet)
    requires n <= k < |c| == |q| && c[..n] == q[..n] && c[k..] == q[k..]
    ensures var r := c[k := p];
      r[..n] == q[..n] && r[n..k + 1] == c[n..k] + [p] && r[k + 1..] == q[k + 1..]
  {
    assert c[k + 1..] == c[k..][1..] && q[k + 1..] == q[k..][1..];
  }

  method MakeAttempt(l: LinkedList<Packet>, p: Node<Packet>, ghost k: nat, before: seq<Action>, cap: nat,
      receiveAt: Option<nat>, takenBefore: Option<Action>)
    returns (fifo: seq<Action>, wait: Option<nat>, taken: Option<Action>)
    requires l.Valid() && k < |l.spine| && p == l.spine[k]
    modifies l`contents, p`item
    ensures l.Valid() && l.contents == old(l.contents)[k := p.item]
    ensures var a := Attempt(old(p.item), before, cap, receiveAt);
      p.item == a.packet && fifo == a.fifo && wait == a.wait
      && taken == if takenBefore.Some? then takenBefore else a.taken
  {
    fifo, wait, taken := before, receiveAt, takenBefore;
    if wait == Some(0) {
      wait := None;
      if fifo != [] {
        if taken.None? {
          taken := Some(fifo[0]);
        }
        fifo := fifo[1..];
      }
    }
    fifo := SendOrUnmark(l, p, k, fifo, cap);
    wait := if wait.Some? then Some(wait.value - 1) else None;
  }

  // Marks the packet and sends its action; takes the mark back when the FIFO is full.
  method SendOrUnmark(l: LinkedList<Packet>, p: Node<Packet>, ghost k: nat, before: seq<Action>, cap: nat)
    returns (fifo: seq<Action>)
    requires l.Valid() && k < |l.spine| && p == l.spine[k]
    modifies l`contents, p`item
    ensures l.Valid() && p.item == old(p.item).(queued := |before| < cap)
    ensures l.contents == old(l.contents)[k := p.item]
    ensures fifo == if |before| < cap then before + [Tx(old(p.item).id)] else before
  {
    l.SetItem(p, p.item.(queued := true), k);
    if |before| < cap {
      fifo := before + [Tx(p.item.id)];
    } else {
      fifo := before;
      l.SetItem(p, p.item.(queued := false), k);
    }
  }
}
