/** Singly linked lists as the source keeps them: nodes relinked in place behind a head pointer. */
module LinkedLists {
  class Node<T(!new)> {
    var item: T
    var next: Node?<T>

    constructor (item: T)
      ensures this.item == item && next == null
    {
      this.item := item;
      next := null;
    }
  }

  function At<T(!new)>(nodes: seq<Node<T>>, i: nat): Node?<T>
  {
    if i < |nodes| then nodes[i] else null
  }

  // The nodes are distinct and linked in this order, starting from first.
  ghost predicate Linked<T(!new)>(first: Node?<T>, nodes: seq<Node<T>>)
    reads nodes
  {
    && first == At(nodes, 0)
    && (forall i :: 0 <= i < |nodes| ==> nodes[i].next == At(nodes, i + 1))
    && Distinct(nodes)
  }

  ghost predicate Distinct<T(!new)>(nodes: seq<Node<T>>)
  {
    forall i, j :: 0 <= i < j < |nodes| ==> nodes[i] != nodes[j]
  }

  ghost predicate Holding<T(!new)>(nodes: seq<Node<T>>, contents: seq<T>)
    reads nodes
  {
    |contents| == |nodes| && forall i :: 0 <= i < |nodes| ==> nodes[i].item == contents[i]
  }

  // A list of nodes with x put in at k, or its k-th taken out, index by index.
  lemma SpliceIn<T(!new)>(s: seq<Node<T>>, x: Node<T>, k: nat)
    requires k <= |s| && Distinct(s) && x !in s
    ensures var r := s[..k] + [x] + s[k..];
      && |r| == |s| + 1 && Distinct(r)
        && (forall i :: 0 <= i < |r| ==> r[i] == if i < k then s[i] else if i == k then x else s[i - 1])
  {
  }

  lemma SpliceOut<T(!new)>(s: seq<Node<T>>, k: nat)
    requires k < |s| && Distinct(s)
    ensures var r := s[..k] + s[k + 1..];
      && |r| == |s| - 1 && Distinct(r) && (forall i :: 0 <= i < |r| ==> r[i] == if i < k then s[i] else s[i + 1])
  {
  }

  lemma HoldingIn<T(!new)>(s: seq<Node<T>>, c: seq<T>, x: Node<T>, k: nat)
    requires k <= |s| && Holding(s, c)
    ensures Holding(s[..k] + [x] + s[k..], c[..k] + [x.item] + c[k..])
  {
  }

  lemma HoldingOut<T(!new)>(s: seq<Node<T>>, c: seq<T>, k: nat)
    requires k < |s| && Holding(s, c)
    ensures Holding(s[..k] + s[k + 1..], c[..k] + c[k + 1..])
  {
  }

  ghost predicate Among<T(!new)>(s: seq<Node<T>>, nodes: set<Node<T>>)
  {
    forall i :: 0 <= i < |s| ==> s[i] in nodes
  }

  lemma AmongIn<T(!new)>(s: seq<Node<T>>, x: Node<T>, k: nat, nodes: set<Node<T>>)
    requires k <= |s| && Among(s, nodes) && x in nodes
    ensures Among(s[..k] + [x] + s[k..], nodes)
  {
  }

  lemma AmongOut<T(!new)>(s: seq<Node<T>>, k: nat, nodes: set<Node<T>>)
    requires k < |s| && Among(s, nodes)
    ensures Among(s[..k] + s[k + 1..], nodes)
  {
  }

  // The links after x is put in behind the k-th node, or the node behind it is left out.
  lemma LinkedIn<T(!new)>(s: seq<Node<T>>, x: Node<T>, k: nat)
    requires Distinct(s) && x !in s && k < |s| && s[k].next == x && x.next == At(s, k + 1)
    requires forall i :: 0 <= i < |s| && i != k ==> s[i].next == At(s, i + 1)
    ensures Linked(s[0], s[..k + 1] + [x] + s[k + 1..])
  {
    SpliceIn(s, x, k + 1);
  }

  lemma LinkedOut<T(!new)>(s: seq<Node<T>>, k: nat)
    requires Distinct(s) && k + 1 < |s| && s[k].next == At(s, k + 2)
    requires forall i :: 0 <= i < |s| && i != k ==> s[i].next == At(s, i + 1)
    ensures Linked(s[0], s[..k + 1] + s[k + 2..])
  {
    SpliceOut(s, k + 1);
  }

  class LinkedList<T(!new)> {
    var head: Node?<T>
    ghost var spine: seq<Node<T>>
    ghost var contents: seq<T>
    ghost var nodes: set<Node<T>>      // every node the list may change

    ghost predicate Valid()
      reads this, nodes
    {
      Among(spine, nodes) && Linked(head, spine) && Holding(spine, contents)
    }

    constructor ()
      ensures Valid() && contents == [] && nodes == {}
    {
      head := null;
      spine, contents := [], [];
      nodes := {};
    }

    // Links x in as the first node.
    method LinkFirst(x: Node<T>)
      requires Valid() && x !in spine
      modifies this, x`next
      ensures Valid() && nodes == old(nodes) + {x}
      ensures contents == [x.item] + old(contents)
    {
      x.next := head;
      head := x;
      spine := [x] + spine;
      contents := [x.item] + contents;
      nodes := nodes + {x};
    }

    // Links x in behind q.
    method InsertAfter(q: Node<T>, x: Node<T>, ghost k: nat)
      requires Valid() && x !in spine && k < |spine| && q == spine[k]
      modifies this`spine, this`contents, this`nodes, q`next, x`next
      ensures Valid() && nodes == old(nodes) + {x}
      ensures spine == old(spine)[..k + 1] + [x] + old(spine)[k + 1..]
      ensures contents == old(contents)[..k + 1] + [x.item] + old(contents)[k + 1..]
    {
      ghost var s, c := spine, contents;
      x.next := q.next;
      q.next := x;
      nodes := nodes + {x};
      spine := s[..k + 1] + [x] + s[k + 1..];
      contents := c[..k + 1] + [x.item] + c[k + 1..];
      LinkedIn(s, x, k);
      HoldingIn(s, c, x, k + 1);
      AmongIn(s, x, k + 1, nodes);
    }

    // Unlinks the node behind q.
    method RemoveAfter(q: Node<T>, ghost k: nat)
      requires Valid() && k + 1 < |spine| && q == spine[k]
      modifies this`spine, this`contents, q`next
      ensures Valid() && spine == old(spine)[..k + 1] + old(spine)[k + 2..]
      ensures contents == old(contents)[..k + 1] + old(contents)[k + 2..]
    {
      ghost var s, c := spine, contents;
      q.next := q.next.next;
      spine := s[..k + 1] + s[k + 2..];
      contents := c[..k + 1] + c[k + 2..];
      LinkedOut(s, k);
      HoldingOut(s, c, k + 1);
      AmongOut(s, k + 1, nodes);
    }

    method UnlinkFirst()
      requires Valid() && head != null
      modifies this`head, this`spine, this`contents
      ensures Valid() && old(head) == old(spine)[0] && spine == old(spine)[1..] && contents == old(contents)[1..]
    {
      head := head.next;
      spine := spine[1..];
      contents := contents[1..];
    }

    method ClearAll()
      requires Valid()
      modifies this`head, this`spine, this`contents
      ensures Valid() && contents == []
    {
      while head != null
        invariant Valid()
        decreases |spine|
      {
        UnlinkFirst();
      }
    }

    // Takes the head off the list.
    method Pop() returns (x: Node<T>)
      requires Valid() && head != null
      modifies this`head, this`spine, this`contents
      ensures Valid() && x == old(head) && x in nodes && x !in spine
      ensures old(contents) == [x.item] + contents
    {
      x := head;
      UnlinkFirst();
    }

    // Unlinks the k-th node, found by walking from the head.
    method Detach(x: Node<T>, ghost k: nat)
      requires Valid() && k < |spine| && x == spine[k]
      modifies this`head, this`spine, this`contents, nodes`next
      ensures Valid() && spine == old(spine)[..k] + old(spine)[k + 1..]
      ensures contents == old(contents)[..k] + old(contents)[k + 1..]
    {
      if head == x {
        UnlinkFirst();
      } else {
        var q := head;
        ghost var j := 0;
        while q.next != null && q.next != x
          invariant j < k && q == spine[j]
          decreases |spine| - j
        {
          q := q.next;
          j := j + 1;
        }
        RemoveAfter(q, j);
      }
    }

    // Changes the k-th item in place.
    method SetItem(x: Node<T>, item: T, ghost k: nat)
      requires Valid() && k < |spine| && x == spine[k]
      modifies x`item, this`contents
      ensures Valid() && x.item == item && contents == old(contents)[k := item]
    {
      x.item := item;
      contents := contents[k := item];
    }

    // Links x in at the end, found by walking from the head.
    method Append(x: Node<T>)
      requires Valid() && x !in spine
      modifies this, nodes`next, x`next
      ensures Valid() && nodes == old(nodes) + {x}
      ensures contents == old(contents) + [x.item]
    {
      x.next := null;
      if head == null {
        LinkFirst(x);
      } else {
        var q := head;
        ghost var k := 0;
        while q.next != null
          invariant k < |spine| && q == spine[k]
          decreases |spine| - k
        {
          q := q.next;
          k := k + 1;
        }
        InsertAfter(q, x, k);
      }
    }
  }
}
