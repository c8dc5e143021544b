/** Facts about sequences that the solver is slow to find by itself. */
module Sequences {

  lemma Regroup<T>(a: seq<T>, b: seq<T>, c: seq<T>)
    ensures a + b + c == a + (b + c)
  {
  }

  lemma MultisetInsert<T>(a: seq<T>, x: T, b: seq<T>)
    ensures multiset(a + [x] + b) == multiset(a + b) + multiset{x}
  {
  }

  lemma JoinSlices<T>(b: seq<T>, x: nat, y: nat, z: nat)
    requires x <= y <= z <= |b|
    ensures b[x..z] == b[x..y] + b[y..z]
  {
  }

  lemma SubSlice<T>(s: seq<T>, at: nat, from: nat, to: nat)
    requires at <= from <= to <= |s|
    ensures s[from..to] == s[at..][from - at..to - at]
  {
    var r := s[at..][from - at..to - at];
    assert forall i :: 0 <= i < to - from ==> r[i] == s[from..to][i];
  }

  lemma TailOfTail<T>(s: seq<T>, a: nat, b: nat)
    requires a + b <= |s|
    ensures s[a..][b..] == s[a + b..]
  {
    assert forall i :: 0 <= i < |s| - a - b ==> s[a..][b..][i] == s[a..][b + i] == s[a + b + i];
  }

  lemma SliceOfSlice<T>(s: seq<T>, a: nat, b: nat, x: nat, y: nat)
    requires x <= y && a + y <= b <= |s|
    ensures s[a..b][x..y] == s[a + x..a + y]
  {
    var t := s[a..b];
    var r := t[x..y];
    assert forall i :: 0 <= i < y - x ==> r[i] == t[x + i] == s[a + x + i];
  }

  lemma SplitEqual<T>(a: seq<T>, x: seq<T>, b: seq<T>, y: seq<T>)
    requires |a| == |b| && a + x == b + y
    ensures a == b && x == y
  {
    assert a == (a + x)[..|a|] && b == (b + y)[..|b|];
    assert x == (a + x)[|a|..] && y == (b + y)[|b|..];
  }
}
