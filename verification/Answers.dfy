/** The answer lists of a packet: allocation without repetition, and removal of a service. */
module Answers {
  import opened MdnsTypes
  import opened LinkedLists

  datatype Answer = Answer(kind: nat, service: Option<Service>, host: Option<nat>, flush: bool, bye: bool)
  {
    // Two answers about the same thing.
    predicate Alike(other: Answer)
    {
      kind == other.kind && service == other.service && host == other.host
    }
  }

  predicate Has(list: seq<Answer>, a: Answer)
  {
    exists i :: 0 <= i < |list| && list[i].Alike(a)
  }

  function Allocated(list: seq<Answer>, a: Answer): seq<Answer>
  {
    if Has(list, a) then list else list + [a]
  }

  // The answers that are not about the service, in order.
  function Removed(list: seq<Answer>, service: Service): seq<Answer>
  {
    if list == [] then []
    else (if list[0].service == Some(service) then [] else [list[0]]) + Removed(list[1..], service)
  }

  // ---- On the linked list ----

  method AllocAnswer(l: LinkedList<Answer>, a: Answer)
    requires l.Valid()
    modifies l, l.nodes
    ensures l.Valid() && l.contents == Allocated(old(l.contents), a)
    ensures fresh(l.nodes - old(l.nodes))
  {
    var d := l.head;
    ghost var k := 0;
    while d != null
      invariant k <= |l.spine| && d == At(l.spine, k)
      invariant forall i :: 0 <= i < k ==> !l.spine[i].item.Alike(a)
      decreases |l.spine| - k
    {
      if d.item.Alike(a) {
        assert l.contents[k].Alike(a);
        return;
      }
      d := d.next;
      k := k + 1;
    }
    assert forall i :: 0 <= i < |l.spine| ==> l.contents[i] == l.spine[i].item;
    var x := new Node<Answer>(a);
    l.Append(x);
  }

  method RemoveService(l: LinkedList<Answer>, service: Service)
    requires l.Valid()
    modifies l`head, l`spine, l`contents, l.nodes
    ensures l.Valid() && l.contents == Removed(old(l.contents), service)
  {
    while l.head != null && l.head.item.service == Some(service)
      invariant l.Valid()
      invariant Removed(l.contents, service) == Removed(old(l.contents), service)
      decreases |l.spine|
    {
      l.UnlinkFirst();
    }
    if l.head != null {
      RemoveBehindHead(l, service);
      RemovedNothing(l.contents, service);
    }
  }

  method RemoveBehindHead(l: LinkedList<Answer>, service: Service)
    requires l.Valid() && l.head != null && l.head.item.service != Some(service)
    modifies l`head, l`spine, l`contents, l.nodes
    ensures l.Valid() && forall i :: 0 <= i < |l.spine| ==> l.spine[i].item.service != Some(service)
    ensures Removed(l.contents, service) == Removed(old(l.contents), service)
  {
    var d := l.head;
    ghost var k: nat := 0;
    while d.next != null
      invariant l.Valid() && k < |l.spine| && d == l.spine[k]
      invariant forall i :: 0 <= i <= k ==> l.spine[i].item.service != Some(service)
      invariant Removed(l.contents, service) == Removed(old(l.contents), service)
      decreases |l.spine| - k
    {
      d, k := RemoveNext(l, d, k, service);
    }
  }

  // Unlinks the answer behind d if it is about the service, and otherwise moves on to it.
  method RemoveNext(l: LinkedList<Answer>, d: Node<Answer>, ghost k: nat, service: Service)
    returns (d': Node<Answer>, ghost k': nat)
    requires l.Valid() && k + 1 < |l.spine| && d == l.spine[k]
    requires forall i :: 0 <= i <= k ==> l.spine[i].item.service != Some(service)
    modifies l`spine, l`contents, d`next
    ensures l.Valid() && k' < |l.spine| && d' == l.spine[k'] && |l.spine| - k' < |old(l.spine)| - k
    ensures forall i :: 0 <= i <= k' ==> l.spine[i].item.service != Some(service)
    ensures Removed(l.contents, service) == Removed(old(l.contents), service)
  {
    if d.next.item.service == Some(service) {
      RemoveOne(l, d, k, service);
      d', k' := d, k;
    } else {
      d', k' := d.next, k + 1;
    }
  }

  // Unlinks the answer behind d, which is about the service.
  method RemoveOne(l: LinkedList<Answer>, d: Node<Answer>, ghost k: nat, ghost service: Service)
    requires l.Valid() && k + 1 < |l.spine| && d == l.spine[k] && l.spine[k + 1].item.service == Some(service)
    modifies l`spine, l`contents, d`next
    ensures l.Valid() && l.spine == old(l.spine)[..k + 1] + old(l.spine)[k + 2..]
    ensures Removed(l.contents, service) == Removed(old(l.contents), service)
  {
    ghost var was := l.contents;
    l.RemoveAfter(d, k);
    RemovedSkip(was, k + 1, service);
  }

  lemma {:induction false} RemovedConcat(a: seq<Answer>, b: seq<Answer>, service: Service)
    ensures Removed(a + b, service) == Removed(a, service) + Removed(b, service)
  {
    if a == [] {
      assert a + b == b;
    } else {
      assert (a + b)[1..] == a[1..] + b;
      RemovedConcat(a[1..], b, service);
    }
  }

  lemma {:induction false} RemovedNothing(a: seq<Answer>, service: Service)
    requires forall i :: 0 <= i < |a| ==> a[i].service != Some(service)
    ensures Removed(a, service) == a
  {
    if a != [] {
      RemovedNothing(a[1..], service);
    }
  }

  lemma RemovedSkip(list: seq<Answer>, k: nat, service: Service)
    requires k < |list| && list[k].service == Some(service)
    ensures Removed(list[..k] + list[k + 1..], service) == Removed(list, service)
  {
    assert list == list[..k] + list[k..];
    RemovedConcat(list[..k], list[k..], service);
    RemovedConcat(list[..k], list[k + 1..], service);
    assert list[k..][1..] == list[k + 1..];
  }

  // ---- Any sequence of operations ----

  datatype Op = Alloc(answer: Answer) | Remove(service: Service)

  function Run(ops: seq<Op>): seq<Answer>
  {
    if ops == [] then []
    else
      var before := Run(ops[..|ops| - 1]);
      match ops[|ops| - 1]
      case Alloc(a) => Allocated(before, a)
      case Remove(s) => Removed(before, s)
  }

  // The service of answer a is removed by an operation after i.
  predicate RemovedAfter(ops: seq<Op>, i: nat, a: Answer)
  {
    exists k :: i < k < |ops| && ops[k].Remove? && a.service == Some(ops[k].service)
  }

  // At operation i, an answer alike is still there from an earlier allocation.
  predicate AlreadyThere(ops: seq<Op>, i: nat, a: Answer)
    requires i <= |ops|
  {
    exists j :: 0 <= j < i && ops[j].Alloc? && ops[j].answer.Alike(a) && !RemovedAfter(ops[..i], j, a)
  }

  // Operation i allocated an answer that is still in the list at the end.
  predicate Stays(ops: seq<Op>, i: nat)
    requires i < |ops|
  {
    ops[i].Alloc? && !AlreadyThere(ops, i, ops[i].answer) && !RemovedAfter(ops, i, ops[i].answer)
  }

  // The answers allocated by the first n operations that stay, oldest first.
  function Staying(ops: seq<Op>, n: nat): seq<Answer>
    requires n <= |ops|
  {
    if n == 0 then []
    else Staying(ops, n - 1) + if Stays(ops, n - 1) then [ops[n - 1].answer] else []
  }

  lemma RemovedAfterSnoc(ops: seq<Op>, op: Op, i: nat, a: Answer)
    requires i < |ops|
    ensures RemovedAfter(ops + [op], i, a) <==> RemovedAfter(ops, i, a) || (op.Remove? && a.service == Some(op.service))
  {
    var all := ops + [op];
    if RemovedAfter(ops, i, a) {
      var k :| i < k < |ops| && ops[k].Remove? && a.service == Some(ops[k].service);
      assert all[k] == ops[k];
    }
    if op.Remove? && a.service == Some(op.service) {
      assert all[|ops|] == op;
    }
  }

  lemma AlreadyThereSnoc(ops: seq<Op>, op: Op, i: nat, a: Answer)
    requires i <= |ops|
    ensures AlreadyThere(ops + [op], i, a) <==> AlreadyThere(ops, i, a)
  {
    assert (ops + [op])[..i] == ops[..i];
    assert forall j :: 0 <= j < i ==> (ops + [op])[j] == ops[j];
  }

  lemma StaysSnoc(ops: seq<Op>, op: Op, i: nat)
    requires i < |ops|
    ensures Stays(ops + [op], i) <==> Stays(ops, i) && !(op.Remove? && ops[i].answer.service == Some(op.service))
  {
    assert (ops + [op])[i] == ops[i];
    if ops[i].Alloc? {
      RemovedAfterSnoc(ops, op, i, ops[i].answer);
      AlreadyThereSnoc(ops, op, i, ops[i].answer);
    }
  }

  lemma {:induction false} StayingAlloc(ops: seq<Op>, op: Op, n: nat)
    requires n <= |ops| && op.Alloc?
    ensures Staying(ops + [op], n) == Staying(ops, n)
  {
    if n > 0 {
      StayingAlloc(ops, op, n - 1);
      StaysSnoc(ops, op, n - 1);
      assert (ops + [op])[n - 1] == ops[n - 1];
    }
  }

  lemma {:induction false} StayingRemove(ops: seq<Op>, op: Op, n: nat)
    requires n <= |ops| && op.Remove?
    ensures Staying(ops + [op], n) == Removed(Staying(ops, n), op.service)
  {
    if n > 0 {
      StayingRemove(ops, op, n - 1);
      StaysSnoc(ops, op, n - 1);
      assert (ops + [op])[n - 1] == ops[n - 1];
      RemovedLast(Staying(ops, n - 1), ops[n - 1], Stays(ops, n - 1), Stays(ops + [op], n - 1), op.service);
    }
  }

  lemma RemovedLast(front: seq<Answer>, op: Op, stayed: bool, stays: bool, service: Service)
    requires (stayed ==> op.Alloc?) && (stays <==> stayed && op.answer.service != Some(service))
    ensures Removed(front + (if stayed then [op.answer] else []), service)
         == Removed(front, service) + if stays then [op.answer] else []
  {
    var last := if stayed then [op.answer] else [];
    RemovedConcat(front, last, service);
    assert last != [] ==> last[1..] == [];
  }

  // An answer alike is in the list exactly when some allocation of one has not been undone.
  lemma {:induction false} HasIff(ops: seq<Op>, a: Answer)
    ensures Has(Run(ops), a) <==> AlreadyThere(ops, |ops|, a)
  {
    if ops != [] {
      var front := ops[..|ops| - 1];
      var op := ops[|ops| - 1];
      assert ops == front + [op] && ops[..|ops|] == ops;
      HasIff(front, a);
      assert front[..|front|] == front;
      HasStep(front, op, a);
      if op.Alloc? {
        HasAllocated(Run(front), op.answer, a);
      } else {
        HasRemoved(Run(front), op.service, a);
      }
    }
  }

  lemma HasStep(front: seq<Op>, op: Op, a: Answer)
    ensures AlreadyThere(front + [op], |front| + 1, a) <==>
      if op.Alloc? then AlreadyThere(front, |front|, a) || op.answer.Alike(a)
      else AlreadyThere(front, |front|, a) && a.service != Some(op.service)
  {
    var ops := front + [op];
    assert ops[..|ops|] == ops && front[..|front|] == front;
    if AlreadyThere(front, |front|, a) && !(op.Remove? && a.service == Some(op.service)) {
      var j :| 0 <= j < |front| && front[j].Alloc? && front[j].answer.Alike(a) && !RemovedAfter(front, j, a);
      RemovedAfterSnoc(front, op, j, a);
      assert ops[j] == front[j];
    }
    if op.Alloc? && op.answer.Alike(a) {
      assert ops[|front|] == op && !RemovedAfter(ops, |front|, a);
    }
    if AlreadyThere(ops, |ops|, a) {
      var j :| 0 <= j < |ops| && ops[j].Alloc? && ops[j].answer.Alike(a) && !RemovedAfter(ops, j, a);
      if j < |front| {
        RemovedAfterSnoc(front, op, j, a);
        assert front[j] == ops[j];
      }
    }
  }

  lemma HasAllocated(list: seq<Answer>, b: Answer, a: Answer)
    ensures Has(Allocated(list, b), a) <==> Has(list, a) || b.Alike(a)
  {
    var r := Allocated(list, b);
    if Has(list, a) {
      var i :| 0 <= i < |list| && list[i].Alike(a);
      assert r[i].Alike(a);
    }
    if b.Alike(a) {
      if Has(list, b) {
        var i :| 0 <= i < |list| && list[i].Alike(b);
        assert r[i].Alike(a);
      } else {
        assert r[|list|].Alike(a);
      }
    }
  }

  lemma {:induction false} HasRemoved(list: seq<Answer>, service: Service, a: Answer)
    ensures Has(Removed(list, service), a) <==> Has(list, a) && a.service != Some(service)
  {
    if list != [] {
      HasRemoved(list[1..], service, a);
      var rest := Removed(list[1..], service);
      HasCons(list[0], list[1..], a);
      HasCons(list[0], rest, a);
      assert list == [list[0]] + list[1..];
      assert [] + rest == rest;
    }
  }

  lemma HasCons(x: Answer, list: seq<Answer>, a: Answer)
    ensures Has([x] + list, a) <==> x.Alike(a) || Has(list, a)
  {
    if x.Alike(a) {
      assert ([x] + list)[0].Alike(a);
    }
    if Has(list, a) {
      var i :| 0 <= i < |list| && list[i].Alike(a);
      assert ([x] + list)[i + 1].Alike(a);
    }
  }

  /** After any sequence of allocations and removals the list holds exactly the answers of those
      allocations that found nothing alike and whose service was not removed since, in the order
      in which they were made. */
  lemma {:induction false} ListIs(ops: seq<Op>)
    ensures Run(ops) == Staying(ops, |ops|)
  {
    if ops != [] {
      var n := |ops| - 1;
      var front := ops[..n];
      var op := ops[n];
      assert ops == front + [op];
      ListIs(front);
      if op.Remove? {
        StayingRemove(front, op, n);
      } else {
        StayingAlloc(front, op, n);
        HasIff(front, op.answer);
        AlreadyThereSnoc(front, op, n, op.answer);
        assert front[..n] == front;
        assert !RemovedAfter(ops, n, op.answer);
      }
    }
  }

  predicate NoneAlike(list: seq<Answer>)
  {
    forall i, j :: 0 <= i < j < |list| ==> !list[i].Alike(list[j])
  }

  /** No two answers in the list are ever about the same thing. */
  lemma {:induction false} NeverTwoAlike(ops: seq<Op>)
    ensures NoneAlike(Run(ops))
  {
    if ops != [] {
      var front := Run(ops[..|ops| - 1]);
      NeverTwoAlike(ops[..|ops| - 1]);
      match ops[|ops| - 1] {
        case Alloc(a) =>
        case Remove(s) => RemovedNoneAlike(front, s);
      }
    }
  }

  lemma {:induction false} RemovedNoneAlike(list: seq<Answer>, service: Service)
    requires NoneAlike(list)
    ensures NoneAlike(Removed(list, service))
  {
    if list != [] {
      var rest := Removed(list[1..], service);
      assert forall i :: 0 <= i < |list[1..]| ==> list[1..][i] == list[i + 1];
      RemovedNoneAlike(list[1..], service);
      if list[0].service != Some(service) {
        forall j | 0 <= j < |rest| ensures !list[0].Alike(rest[j]) {
          HasRemoved(list[1..], service, rest[j]);
          assert rest[j].Alike(rest[j]);
          var i :| 0 <= i < |list[1..]| && list[1..][i].Alike(rest[j]);
          assert !list[0].Alike(list[i + 1]);
        }
        assert forall j :: 1 <= j < |[list[0]] + rest| ==> ([list[0]] + rest)[j] == rest[j - 1];
      }
    }
  }
}
