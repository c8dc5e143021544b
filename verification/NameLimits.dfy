/** When a name is written completely, when it can be read at all, and conditions on the packet
    under which every match is clean. */
module NameLimits {
  import opened MdnsTypes
  import opened Bytes
  import opened Sequences
  import opened NameCodec
  import opened NameRoundTrip

  // ---- How far writing goes ----

  // Bytes a name takes when no part of it has a match.
  function EncodedLen(strings: seq<seq<byte>>): nat
  {
    if strings == [] then 1 else 1 + |strings[0]| + EncodedLen(strings[1..])
  }

  predicate Nonempty(strings: seq<seq<byte>>)
  {
    forall i :: 0 <= i < |strings| ==> strings[i] != []
  }

  // No part of the name has a match.
  predicate Unmatched(buf: seq<byte>, index: nat, strings: seq<seq<byte>>)
    requires |buf| == BUFFER && index <= MAX_PACKET && Writable(strings)
    decreases |strings|
  {
    strings == [] ||
    (FindFrom(buf, index, strings, 0).None?
     && (index + |strings[0]| + 1 < MAX_PACKET ==>
           Unmatched(Put(buf, index, LabelBytes(strings[0])), index + |strings[0]| + 1, strings[1..])))
  }

  /** The value returned is how far the index moved, always. */
  lemma {:induction false} MovedIsReported(buf: seq<byte>, index: nat, strings: seq<seq<byte>>)
    requires |buf| == BUFFER && index <= MAX_PACKET && Writable(strings)
    ensures var a := AppendName(buf, index, strings);
      a.index == index + a.moved <= MAX_PACKET
    decreases |strings|
  {
    if strings != [] && FindFrom(buf, index, strings, 0).None? && index + |strings[0]| + 1 < MAX_PACKET {
      var s, rest := strings[0], strings[1..];
      var next := Put(buf, index, LabelBytes(s));
      WritableSplit(strings);
      AppendFirst(buf, index, strings, s, rest, next);
      MovedIsReported(next, index + |s| + 1, rest);
    } else {
      MovedAtOnce(buf, index, strings);
    }
  }

  lemma MovedAtOnce(buf: seq<byte>, index: nat, strings: seq<seq<byte>>)
    requires |buf| == BUFFER && index <= MAX_PACKET && Writable(strings)
    requires strings != [] && FindFrom(buf, index, strings, 0).None? ==> index + |strings[0]| + 1 >= MAX_PACKET
    ensures var a := AppendName(buf, index, strings);
      a.index == index + a.moved <= MAX_PACKET
  {
  }

  // A name never takes more than it does uncompressed.
  lemma {:induction false} MovedAtMost(buf: seq<byte>, index: nat, strings: seq<seq<byte>>)
    requires |buf| == BUFFER && index <= MAX_PACKET && Writable(strings) && Nonempty(strings)
    ensures AppendName(buf, index, strings).moved <= EncodedLen(strings)
    decreases |strings|
  {
    if strings != [] {
      EncodedPositive(strings[1..]);
      if FindFrom(buf, index, strings, 0).None? && index + |strings[0]| + 1 < MAX_PACKET {
        var s, rest := strings[0], strings[1..];
        var next := Put(buf, index, LabelBytes(s));
        NonemptySplit(strings);
        AppendFirst(buf, index, strings, s, rest, next);
        MovedAtMost(next, index + |s| + 1, rest);
      } else {
        MostAtOnce(buf, index, strings);
      }
    }
  }

  lemma NonemptySplit(strings: seq<seq<byte>>)
    requires strings != [] && Writable(strings) && Nonempty(strings)
    ensures 0 < |strings[0]| < 255 && 0 !in strings[0] && Writable(strings[1..]) && Nonempty(strings[1..])
  {
  }

  lemma MostAtOnce(buf: seq<byte>, index: nat, strings: seq<seq<byte>>)
    requires |buf| == BUFFER && index <= MAX_PACKET && Writable(strings) && strings != []
    requires FindFrom(buf, index, strings, 0).None? ==> index + |strings[0]| + 1 >= MAX_PACKET
    ensures AppendName(buf, index, strings).moved <= 2
  {
  }

  // A name that fits uncompressed is written completely, whatever matches there are.
  lemma {:induction false} FitsSuffices(buf: seq<byte>, index: nat, strings: seq<seq<byte>>)
    requires |buf| == BUFFER && Writable(strings) && index + EncodedLen(strings) <= MAX_PACKET
    requires Nonempty(strings)
    ensures AppendName(buf, index, strings).complete
    decreases |strings|
  {
    if strings != [] {
      EncodedPositive(strings[1..]);
      if FindFrom(buf, index, strings, 0).None? {
        FitsSuffices(Put(buf, index, LabelBytes(strings[0])), index + |strings[0]| + 1, strings[1..]);
      }
    }
  }

  lemma EncodedPositive(strings: seq<seq<byte>>)
    ensures EncodedLen(strings) >= 1
  {
  }

  // Bytes the writer needs for a name: its labels up to the first part that has a match, then a
  // pointer to that match or the end.
  function Needed(buf: seq<byte>, index: nat, strings: seq<seq<byte>>): nat
    requires |buf| == BUFFER && index <= MAX_PACKET && Writable(strings)
    decreases |strings|
  {
    if strings == [] then 1
    else if FindFrom(buf, index, strings, 0).Some? then 2
    else
      var after := index + |strings[0]| + 1;
      |strings[0]| + 1 +
      if after < MAX_PACKET then Needed(Put(buf, index, LabelBytes(strings[0])), after, strings[1..]) else 1
  }

  // What is written first: the end, a pointer, or a label with at least the end behind it.
  function FirstPiece(buf: seq<byte>, index: nat, strings: seq<seq<byte>>): nat
    requires |buf| == BUFFER && index <= MAX_PACKET && Writable(strings)
  {
    if strings == [] then 1 else if FindFrom(buf, index, strings, 0).Some? then 2 else |strings[0]| + 2
  }

  lemma NeededFirst(buf: seq<byte>, index: nat, strings: seq<seq<byte>>, s: seq<byte>, rest: seq<seq<byte>>,
      next: seq<byte>)
    requires |buf| == BUFFER && index <= MAX_PACKET && Writable(strings) && strings != []
    requires s == strings[0] && rest == strings[1..] && |s| < 255 && Writable(rest)
    requires FindFrom(buf, index, strings, 0).None?
    requires index + |s| + 1 < MAX_PACKET && next == Put(buf, index, LabelBytes(s))
    ensures Needed(buf, index, strings) == |s| + 1 + Needed(next, index + |s| + 1, rest)
    ensures AppendName(buf, index, strings).complete == AppendName(next, index + |s| + 1, rest).complete
    ensures Unmatched(buf, index, strings) ==> Unmatched(next, index + |s| + 1, rest)
  {
    AppendFirst(buf, index, strings, s, rest, next);
  }

  lemma {:induction false} CompleteIff(buf: seq<byte>, index: nat, strings: seq<seq<byte>>)
    requires |buf| == BUFFER && index <= MAX_PACKET && Writable(strings)
    ensures AppendName(buf, index, strings).complete <==> index + Needed(buf, index, strings) <= MAX_PACKET
    decreases |strings|
  {
    if strings != [] && FindFrom(buf, index, strings, 0).None? && index + |strings[0]| + 1 < MAX_PACKET {
      var s, rest := strings[0], strings[1..];
      var next := Put(buf, index, LabelBytes(s));
      WritableSplit(strings);
      NeededFirst(buf, index, strings, s, rest, next);
      CompleteIff(next, index + |s| + 1, rest);
    } else {
      TruncatedAtOnce(buf, index, strings);
    }
  }

  lemma TruncatedAtOnce(buf: seq<byte>, index: nat, strings: seq<seq<byte>>)
    requires |buf| == BUFFER && index <= MAX_PACKET && Writable(strings)
    requires strings != [] && FindFrom(buf, index, strings, 0).None? ==> index + |strings[0]| + 1 >= MAX_PACKET
    ensures AppendName(buf, index, strings).complete <==> index + Needed(buf, index, strings) <= MAX_PACKET
  {
  }

  lemma {:induction false} NeededUnmatched(buf: seq<byte>, index: nat, strings: seq<seq<byte>>)
    requires |buf| == BUFFER && index <= MAX_PACKET && Writable(strings) && Unmatched(buf, index, strings)
    ensures index + Needed(buf, index, strings) <= MAX_PACKET <==> index + EncodedLen(strings) <= MAX_PACKET
    decreases |strings|
  {
    if strings != [] {
      EncodedPositive(strings[1..]);
      if index + |strings[0]| + 1 < MAX_PACKET {
        var s, rest := strings[0], strings[1..];
        var next := Put(buf, index, LabelBytes(s));
        WritableSplit(strings);
        NeededFirst(buf, index, strings, s, rest, next);
        NeededUnmatched(next, index + |s| + 1, rest);
      }
    }
  }

  /** A name is complete exactly when what it needs fits; and when it does not, the caller is told
      so (by zero) exactly when not even its first piece fits. A name without matches needs all
      its labels. */
  lemma TruncationReportedIff(buf: seq<byte>, index: nat, strings: seq<seq<byte>>)
    requires |buf| == BUFFER && index <= MAX_PACKET && Writable(strings)
    ensures var a := AppendName(buf, index, strings);
      && (a.complete <==> index + Needed(buf, index, strings) <= MAX_PACKET)
      && (a.moved == 0 <==> index + FirstPiece(buf, index, strings) > MAX_PACKET)
    ensures Unmatched(buf, index, strings) ==>
      (AppendName(buf, index, strings).complete <==> index + EncodedLen(strings) <= MAX_PACKET)
  {
    CompleteIff(buf, index, strings);
    if Unmatched(buf, index, strings) {
      NeededUnmatched(buf, index, strings);
    }
  }

  // ---- Labels of 64 characters ----

  predicate ShortLabels(strings: seq<seq<byte>>)
  {
    forall i :: 0 <= i < |strings| ==> |strings[i]| <= MAX_LABEL
  }

  // No label is so long that its length byte would be taken for a pointer.
  predicate BelowPointers(strings: seq<seq<byte>>)
  {
    forall i :: 0 <= i < |strings| ==> |strings[i]| < 0xC0
  }

  /** The API admits names of 64 characters, which no label can hold: written out, a name reads
      back exactly when none of its labels is that long. */
  lemma {:induction false} ReadableIff(buf: seq<byte>, i0: nat, index: nat, strings: seq<seq<byte>>)
    requires |buf| == BUFFER && i0 <= index <= MAX_PACKET && Writable(strings) && Nonempty(strings)
    requires Unmatched(buf, index, strings) && AppendName(buf, index, strings).complete
    requires BelowPointers(strings)
    ensures ScanFrom(AppendName(buf, index, strings).buf, MAX_PACKET, i0, index).ok <==> ShortLabels(strings)
    decreases |strings|
  {
    if strings == [] {
      EndReadable(buf, i0, index);
    } else {
      var s, rest := strings[0], strings[1..];
      var next := Put(buf, index, LabelBytes(s));
      LabelsSplit(strings);
      UnmatchedNext(buf, index, strings, s, rest);
      ReadableIff(next, i0, index + |s| + 1, rest);
      ReadableFirst(buf, i0, index, strings, s, rest, next);
      ShortSplit(strings);
    }
  }

  lemma LabelsSplit(strings: seq<seq<byte>>)
    requires strings != [] && Writable(strings) && Nonempty(strings) && BelowPointers(strings)
    ensures 0 < |strings[0]| < 0xC0 && 0 !in strings[0]
    ensures Writable(strings[1..]) && Nonempty(strings[1..]) && BelowPointers(strings[1..])
  {
  }

  lemma ReadableFirst(buf: seq<byte>, base: nat, index: nat, strings: seq<seq<byte>>, s: seq<byte>,
      rest: seq<seq<byte>>, next: seq<byte>)
    requires |buf| == BUFFER && index <= MAX_PACKET && Writable(strings) && strings != []
    requires s == strings[0] && rest == strings[1..] && 0 < |s| < 0xC0 && 0 !in s && Writable(rest)
    requires FindFrom(buf, index, strings, 0).None?
    requires index + |s| + 1 < MAX_PACKET && next == Put(buf, index, LabelBytes(s))
    ensures ScanFrom(AppendName(buf, index, strings).buf, MAX_PACKET, base, index).ok <==>
      |s| <= MAX_LABEL
      && ScanFrom(AppendName(next, index + |s| + 1, rest).buf, MAX_PACKET, base, index + |s| + 1).ok
  {
    AppendFirst(buf, index, strings, s, rest, next);
    FirstLabelScanned(buf, base, index, s, rest);
  }

  lemma UnmatchedNext(buf: seq<byte>, index: nat, strings: seq<seq<byte>>, s: seq<byte>, rest: seq<seq<byte>>)
    requires |buf| == BUFFER && index <= MAX_PACKET && Writable(strings) && strings != []
    requires s == strings[0] && rest == strings[1..] && |s| < 255 && Writable(rest)
    requires Unmatched(buf, index, strings) && AppendName(buf, index, strings).complete
    ensures FindFrom(buf, index, strings, 0).None?
    ensures var after := index + |s| + 1;
            var next := Put(buf, index, LabelBytes(s));
      after < MAX_PACKET && Unmatched(next, after, rest) && AppendName(next, after, rest).complete
  {
  }

  lemma EndReadable(buf: seq<byte>, i0: nat, index: nat)
    requires |buf| == BUFFER && index < MAX_PACKET
    ensures ScanFrom(AppendName(buf, index, []).buf, MAX_PACKET, i0, index).ok
  {
    assert AppendName(buf, index, []).buf[index] == 0;
  }

  lemma ShortSplit(strings: seq<seq<byte>>)
    requires strings != []
    ensures ShortLabels(strings) <==> |strings[0]| <= MAX_LABEL && ShortLabels(strings[1..])
  {
    assert strings == [strings[0]] + strings[1..];
  }

  lemma FirstLabelScanned(buf: seq<byte>, base: nat, index: nat, s: seq<byte>, rest: seq<seq<byte>>)
    requires |buf| == BUFFER && 0 < |s| < 0xC0 && 0 !in s && index + |s| + 1 < MAX_PACKET && Writable(rest)
    ensures var final := AppendName(Put(buf, index, LabelBytes(s)), index + |s| + 1, rest).buf;
      ScanFrom(final, MAX_PACKET, base, index).ok <==>
        |s| <= MAX_LABEL && ScanFrom(final, MAX_PACKET, base, index + |s| + 1).ok
  {
    LabelInPlace(buf, index, s, rest);
    LabelScanned(AppendName(Put(buf, index, LabelBytes(s)), index + |s| + 1, rest).buf, base, index, |s|);
  }

  lemma LabelScanned(final: seq<byte>, base: nat, index: nat, n: nat)
    requires |final| == BUFFER && index + n + 1 < MAX_PACKET && final[index] == n && 0 < n < 0xC0
    ensures ScanFrom(final, MAX_PACKET, base, index).ok
       <==> n <= MAX_LABEL && ScanFrom(final, MAX_PACKET, base, index + n + 1).ok
  {
  }

  lemma LabelInPlace(buf: seq<byte>, index: nat, s: seq<byte>, rest: seq<seq<byte>>)
    requires |buf| == BUFFER && |s| < 255 && 0 !in s && index + |s| + 1 < MAX_PACKET && Writable(rest)
    ensures AppendName(Put(buf, index, LabelBytes(s)), index + |s| + 1, rest).buf[index] == |s|
  {
    var next := Put(buf, index, LabelBytes(s));
    var after := index + |s| + 1;
    AppendKeeps(next, after, rest);
    assert AppendName(next, after, rest).buf[..after][index] == next[..after][index];
  }

  // ---- Conditions a caller can check ----

  // Below i0, the byte at k could be the length of s, and the text behind it s, as far as it goes.
  predicate CouldStart(buf: seq<byte>, i0: nat, k: nat, s: seq<byte>)
    requires k < i0 < |buf|
  {
    buf[k] == |s| && (k + 1 + |s| <= i0 ==> buf[k + 1..k + 1 + |s|] == s)
  }

  /** Where one of the labels could be found below i0, there is a name that ends there, and is
      ordinary if it is one. */
  predicate Sealed(buf: seq<byte>, i0: nat, strings: seq<seq<byte>>)
    requires i0 < |buf|
  {
    forall k, j :: 0 <= k < i0 && 0 <= j < |strings| && CouldStart(buf, i0, k, strings[j]) ==>
      var r := ScanFrom(buf, i0, k, k);
      r.inside && (r.ok ==> Plain(r.tokens))
  }

  /** No two labels agree, and no character of a label could be taken for the length of one. */
  predicate Distinctive(strings: seq<seq<byte>>)
  {
    && (forall i, j :: 0 <= i < j < |strings| ==> strings[i] != strings[j])
    && (forall i, j, x :: 0 <= i < |strings| && 0 <= j < |strings| && 0 <= x < |strings[i]| ==>
      strings[i][x] != |strings[j]|)
  }

  function Encoded(labels: seq<seq<byte>>): seq<byte>
    requires Writable(labels)
  {
    if labels == [] then [] else LabelBytes(labels[0]) + Encoded(labels[1..])
  }

  lemma ContentByte(labels: seq<seq<byte>>, x: nat)
    requires Writable(labels) && labels != [] && 0 < x <= |labels[0]|
    ensures Encoded(labels)[x] == labels[0][x - 1]
  {
  }

  // A byte of the encoded labels that could be the length of s, and is followed by s, starts a
  // label equal to s.
  lemma {:induction false} FoundInEncoded(labels: seq<seq<byte>>, s: seq<byte>, x: nat)
    requires Writable(labels) && x < |Encoded(labels)| && |s| < 255
    requires Encoded(labels)[x] == |s|
    requires x + 1 + |s| <= |Encoded(labels)| ==> Encoded(labels)[x + 1..x + 1 + |s|] == s
    requires forall i, y :: 0 <= i < |labels| && 0 <= y < |labels[i]| ==> labels[i][y] != |s|
    ensures exists i :: 0 <= i < |labels| && labels[i] == s
  {
    var first := LabelBytes(labels[0]);
    var rest := Encoded(labels[1..]);
    if x == 0 {
      assert Encoded(labels)[0] == |labels[0]|;
      assert Encoded(labels)[1..1 + |s|] == labels[0];
      assert labels[0] == s;
    } else if x < |first| {
      ContentByte(labels, x);
      assert false;
    } else {
      var y := x - |first|;
      assert rest[y] == |s|;
      if y + 1 + |s| <= |rest| {
        assert rest[y + 1..y + 1 + |s|] == Encoded(labels)[x + 1..x + 1 + |s|];
      }
      FoundInEncoded(labels[1..], s, y);
      var i :| 0 <= i < |labels[1..]| && labels[1..][i] == s;
      assert labels[i + 1] == s;
    }
  }

  // The labels written so far lie between i0 and index.
  predicate OwnLabels(buf: seq<byte>, i0: nat, index: nat, done: seq<seq<byte>>)
    requires i0 <= index <= |buf| && Writable(done)
  {
    buf[i0..index] == Encoded(done)
  }

  lemma NotDone(done: seq<seq<byte>>, strings: seq<seq<byte>>, i: nat)
    requires Distinctive(done + strings) && strings != [] && i < |done|
    ensures done[i] != strings[0]
  {
    var all := done + strings;
    assert all[i] != all[|done|];
  }

  lemma Window(buf: seq<byte>, i0: nat, index: nat, k: nat, n: nat)
    requires i0 <= k < index <= |buf|
    ensures buf[i0..index][k - i0] == buf[k]
    ensures k + 1 + n <= index ==> buf[i0..index][k - i0 + 1..k - i0 + 1 + n] == buf[k + 1..k + 1 + n]
  {
    if k + 1 + n <= index {
      var a := buf[i0..index][k - i0 + 1..k - i0 + 1 + n];
      var b := buf[k + 1..k + 1 + n];
      assert forall y :: 0 <= y < n ==> a[y] == b[y];
    }
  }

  lemma NoMatchInside(buf: seq<byte>, i0: nat, index: nat, done: seq<seq<byte>>, strings: seq<seq<byte>>, k: nat)
    requires |buf| == BUFFER && i0 <= k < index <= MAX_PACKET && strings != []
    requires Writable(done) && Writable(strings) && OwnLabels(buf, i0, index, done) && Distinctive(done + strings)
    ensures !Matches(buf, k, strings)
  {
    if Matches(buf, k, strings) {
      var all := done + strings;
      var s := strings[0];
      Window(buf, i0, index, k, |s|);
      assert all[|done|] == s;
      forall i, y | 0 <= i < |done| && 0 <= y < |done[i]| ensures done[i][y] != |s| {
        assert all[i] == done[i];
      }
      FoundInEncoded(done, s, k - i0);
      var i :| 0 <= i < |done| && done[i] == s;
      NotDone(done, strings, i);
      assert false;
    }
  }

  lemma {:induction false} EncodedSnoc(done: seq<seq<byte>>, s: seq<byte>)
    requires Writable(done) && |s| < 255 && 0 !in s
    ensures Encoded(done + [s]) == Encoded(done) + LabelBytes(s)
  {
    if done == [] {
      assert [s][1..] == [];
      assert LabelBytes(s) + [] == LabelBytes(s);
      assert [] + [s] == [s];
    } else {
      assert (done + [s])[1..] == done[1..] + [s];
      EncodedSnoc(done[1..], s);
    }
  }

  lemma CouldMatch(buf: seq<byte>, buf': seq<byte>, i0: nat, k: nat, strings: seq<seq<byte>>)
    requires |buf| == |buf'| == BUFFER && k < i0 <= MAX_PACKET && buf[..i0] == buf'[..i0] && strings != []
    requires Matches(buf', k, strings)
    ensures CouldStart(buf, i0, k, strings[0])
  {
    var n := |strings[0]|;
    SamePrefix(buf, buf', i0, k);
    if k + 1 + n <= i0 {
      SliceOfSlice(buf, 0, i0, k + 1, k + 1 + n);
      SliceOfSlice(buf', 0, i0, k + 1, k + 1 + n);
    }
  }

  lemma SealedMatch(buf: seq<byte>, buf': seq<byte>, i0: nat, k: nat, strings: seq<seq<byte>>)
    requires |buf| == |buf'| == BUFFER && k < i0 <= MAX_PACKET && buf[..i0] == buf'[..i0] && strings != []
    requires Sealed(buf, i0, strings) && Matches(buf', k, strings)
    ensures Clean(buf', i0, k)
  {
    CouldMatch(buf, buf', i0, k, strings);
    ScanStable(buf, i0, buf', i0, k, k);
    ScanStable(buf', i0, buf', MAX_PACKET, k, k);
  }

  lemma SealedTail(buf: seq<byte>, i0: nat, strings: seq<seq<byte>>)
    requires i0 < |buf| && strings != [] && Sealed(buf, i0, strings)
    ensures Sealed(buf, i0, strings[1..])
  {
    assert forall j :: 0 <= j < |strings[1..]| ==> strings[1..][j] == strings[j + 1];
  }

  lemma {:induction false} SealedRun(buf: seq<byte>, buf': seq<byte>, i0: nat, index: nat, done: seq<seq<byte>>,
      strings: seq<seq<byte>>)
    requires |buf| == |buf'| == BUFFER && i0 <= index <= MAX_PACKET && buf[..i0] == buf'[..i0]
    requires Sealed(buf, i0, strings)
    requires Writable(done) && Writable(strings) && OwnLabels(buf', i0, index, done) && Distinctive(done + strings)
    ensures CleanRun(buf', i0, index, strings)
    decreases |strings|
  {
    if strings != [] {
      var found := FindFrom(buf', index, strings, 0);
      if found.Some? {
        MatchFound(buf', index, strings, 0);
        if found.value >= i0 {
          NoMatchInside(buf', i0, index, done, strings, found.value);
        }
        SealedMatch(buf, buf', i0, found.value, strings);
      } else if index + |strings[0]| + 1 < MAX_PACKET {
        SealedStep(buf, buf', i0, index, done, strings);
      }
    }
  }

  lemma {:induction false} SealedStep(buf: seq<byte>, buf': seq<byte>, i0: nat, index: nat, done: seq<seq<byte>>,
      strings: seq<seq<byte>>)
    requires |buf| == |buf'| == BUFFER && i0 <= index <= MAX_PACKET && buf[..i0] == buf'[..i0]
    requires Sealed(buf, i0, strings)
    requires Writable(done) && Writable(strings) && OwnLabels(buf', i0, index, done) && Distinctive(done + strings)
    requires strings != [] && index + |strings[0]| + 1 < MAX_PACKET
    ensures CleanRun(Put(buf', index, LabelBytes(strings[0])), i0, index + |strings[0]| + 1, strings[1..])
    decreases |strings|, 0
  {
    var s := strings[0];
    var next := Put(buf', index, LabelBytes(s));
    assert next[..i0] == buf'[..i0] by {
      assert forall i :: 0 <= i < i0 ==> next[i] == buf'[i];
    }
    EncodedSnoc(done, s);
    assert next[i0..index + |s| + 1] == buf'[i0..index] + LabelBytes(s);
    assert done + strings == (done + [s]) + strings[1..];
    SealedTail(buf, i0, strings);
    SealedRun(buf, next, i0, index + |s| + 1, done + [s], strings[1..]);
  }

  /** Over a packet sealed against its labels, a distinctive name that is complete reads back, and
      it is complete if it fits. */
  lemma DistinctiveSurvives(buf: seq<byte>, i0: nat, strings: seq<seq<byte>>)
    requires |buf| == BUFFER && i0 <= MAX_PACKET && Shape(strings) && Sealed(buf, i0, strings) && Distinctive(strings)
    ensures i0 + EncodedLen(strings) <= MAX_PACKET ==> AppendName(buf, i0, strings).complete
    ensures var a := AppendName(buf, i0, strings);
            var name := ReadName(a.buf, MAX_PACKET, i0);
      a.complete ==>
        && ScanFrom(a.buf, MAX_PACKET, i0, i0).next == a.index
        && ReadsAs(name, strings, WrittenOut(buf, i0, strings))
  {
    if i0 + EncodedLen(strings) <= MAX_PACKET {
      FitsSuffices(buf, i0, strings);
    }
    SealedStart(buf, i0, strings);
    if AppendName(buf, i0, strings).complete {
      NameSurvives(buf, i0, strings);
    }
  }

  lemma SealedStart(buf: seq<byte>, i0: nat, strings: seq<seq<byte>>)
    requires |buf| == BUFFER && i0 <= MAX_PACKET && Writable(strings)
    requires Sealed(buf, i0, strings) && Distinctive(strings)
    ensures CleanRun(buf, i0, i0, strings)
  {
    assert [] + strings == strings;
    assert OwnLabels(buf, i0, i0, []);
    SealedRun(buf, buf, i0, i0, [], strings);
  }

  // ---- Matches in the name itself ----

  // The match found while writing, if any, is clean or lies in the name itself.
  predicate CleanOrOwnRun(buf: seq<byte>, i0: nat, index: nat, strings: seq<seq<byte>>)
    requires |buf| == BUFFER && i0 <= index <= MAX_PACKET && Writable(strings)
    decreases |strings|
  {
    strings == [] ||
    var found := FindFrom(buf, index, strings, 0);
    if found.Some? then Clean(buf, i0, found.value) || found.value >= i0
    else index + |strings[0]| + 1 < MAX_PACKET ==>
      CleanOrOwnRun(Put(buf, index, LabelBytes(strings[0])), i0, index + |strings[0]| + 1, strings[1..])
  }

  // It lies in the name itself.
  predicate OwnMatch(buf: seq<byte>, i0: nat, index: nat, strings: seq<seq<byte>>)
    requires |buf| == BUFFER && i0 <= index <= MAX_PACKET && Writable(strings)
    decreases |strings|
  {
    strings != [] &&
    var found := FindFrom(buf, index, strings, 0);
    if found.Some? then found.value >= i0
    else
      && index + |strings[0]| + 1 < MAX_PACKET
      && OwnMatch(Put(buf, index, LabelBytes(strings[0])), i0, index + |strings[0]| + 1, strings[1..])
  }

  lemma {:induction false} CleanUnlessOwn(buf: seq<byte>, i0: nat, index: nat, strings: seq<seq<byte>>)
    requires |buf| == BUFFER && i0 <= index <= MAX_PACKET && Writable(strings)
    requires CleanOrOwnRun(buf, i0, index, strings) && !OwnMatch(buf, i0, index, strings)
    ensures CleanRun(buf, i0, index, strings)
    decreases |strings|
  {
    if strings != [] && FindFrom(buf, index, strings, 0).None? && index + |strings[0]| + 1 < MAX_PACKET {
      CleanUnlessOwn(Put(buf, index, LabelBytes(strings[0])), i0, index + |strings[0]| + 1, strings[1..]);
    }
  }

  // A pointer into the name that is being read is refused.
  lemma OwnPointerLost(buf: seq<byte>, i0: nat, index: nat, k: nat)
    requires |buf| == BUFFER && i0 <= index && index + 2 <= MAX_PACKET && i0 <= k < MAX_PACKET
    ensures !ScanFrom(Put(buf, index, PointerBytes(k)), MAX_PACKET, i0, index).ok
  {
    var final := Put(buf, index, PointerBytes(k));
    PutKeeps(buf, index, PointerBytes(k));
    assert final[index] == final[index..index + 2][0] && final[index + 1] == final[index..index + 2][1];
    assert Target(final, index) == k;
  }

  lemma {:induction false} OwnMatchLost(buf: seq<byte>, i0: nat, index: nat, strings: seq<seq<byte>>)
    requires |buf| == BUFFER && i0 <= index <= MAX_PACKET && Writable(strings) && Proper(strings)
    requires AppendName(buf, index, strings).complete && OwnMatch(buf, i0, index, strings)
    ensures !ScanFrom(AppendName(buf, index, strings).buf, MAX_PACKET, i0, index).ok
    decreases |strings|
  {
    var found := FindFrom(buf, index, strings, 0);
    if found.Some? {
      AppendPointer(buf, index, strings, found.value);
      OwnPointerLost(buf, i0, index, found.value);
    } else {
      OwnMatchBehind(buf, i0, index, strings, strings[0], strings[1..]);
    }
  }

  lemma {:induction false} OwnMatchBehind(buf: seq<byte>, i0: nat, index: nat, strings: seq<seq<byte>>, s: seq<byte>,
      rest: seq<seq<byte>>)
    requires |buf| == BUFFER && i0 <= index <= MAX_PACKET && Writable(strings) && Proper(strings)
    requires strings != [] && s == strings[0] && rest == strings[1..] && FindFrom(buf, index, strings, 0).None?
    requires AppendName(buf, index, strings).complete && OwnMatch(buf, i0, index, strings)
    ensures !ScanFrom(AppendName(buf, index, strings).buf, MAX_PACKET, i0, index).ok
    decreases |strings|, 0
  {
    WritableSplit(strings);
    var next := Put(buf, index, LabelBytes(s));
    AppendFirst(buf, index, strings, s, rest, next);
    OwnMatchLost(next, i0, index + |s| + 1, rest);
    ReadableFirst(buf, i0, index, strings, s, rest, next);
  }

  /** If every match found is ordinary and lies below the name, or lies in the name itself, then a
      complete name reads back exactly when none lies in the name itself. What stands behind the
      name in the buffer may be anything. */
  lemma SurvivesIff(buf: seq<byte>, i0: nat, strings: seq<seq<byte>>)
    requires |buf| == BUFFER && i0 <= MAX_PACKET && Shape(strings)
    requires AppendName(buf, i0, strings).complete && CleanOrOwnRun(buf, i0, i0, strings)
    ensures ReadsAs(ReadName(AppendName(buf, i0, strings).buf, MAX_PACKET, i0), strings, WrittenOut(buf, i0, strings))
       <==> !OwnMatch(buf, i0, i0, strings)
  {
    if OwnMatch(buf, i0, i0, strings) {
      OwnMatchLost(buf, i0, i0, strings);
    } else {
      CleanUnlessOwn(buf, i0, i0, strings);
      NameSurvives(buf, i0, strings);
    }
  }

  // ---- Host names ----

  // Nothing below i0 is taken for the strings.
  predicate NoneBelow(buf: seq<byte>, i0: nat, strings: seq<seq<byte>>)
    requires |buf| == BUFFER && i0 <= MAX_PACKET && strings != []
  {
    forall k :: 0 <= k < i0 ==> !Matches(buf, k, strings)
  }

  lemma FoundNowhere(buf: seq<byte>, index: nat, strings: seq<seq<byte>>)
    requires |buf| == BUFFER && index <= MAX_PACKET && strings != []
    requires forall k :: 0 <= k < index ==> !Matches(buf, k, strings)
    ensures FindFrom(buf, index, strings, 0).None?
  {
    MatchFound(buf, index, strings, 0);
  }

  predicate HostName(s: seq<byte>)
  {
    0 < |s| <= MAX_LABEL && forall i :: 0 <= i < |s| ==> s[i] >= 32
  }

  // What the buffer holds once the host label is written.
  function AfterHost(buf: seq<byte>, i0: nat, host: seq<byte>): seq<byte>
    requires |buf| == BUFFER && |host| < 255 && i0 + |host| + 1 < MAX_PACKET
  {
    Put(buf, i0, LabelBytes(host))
  }

  // The place of the first name in a packet: nothing before it matches, and what follows is zero.
  predicate FirstName(buf: seq<byte>, i0: nat, host: seq<byte>)
    requires |buf| == BUFFER && |host| < 255 && i0 + |host| + 1 < MAX_PACKET
  {
    && NoneBelow(buf, i0, [host, LOCAL]) && NoneBelow(AfterHost(buf, i0, host), i0, [LOCAL])
    && buf[i0 + |host| + 1] == 0
  }

  // In its own unfinished name, "local" is found exactly when it is the host name.
  lemma LocalInHost(buf: seq<byte>, i0: nat, host: seq<byte>, k: nat)
    requires |buf| == BUFFER && HostName(host) && i0 + |host| + 1 < MAX_PACKET
    requires buf[i0 + |host| + 1] == 0 && i0 <= k < i0 + |host| + 1
    ensures Matches(AfterHost(buf, i0, host), k, [LOCAL]) <==> k == i0 && host == LOCAL
  {
    var out := AfterHost(buf, i0, host);
    PutKeeps(buf, i0, LabelBytes(host));
    assert out[i0] == |host|;
    assert out[i0 + 1..i0 + 1 + |host|] == host;
    if k > i0 {
      assert out[k] == host[k - i0 - 1];
    } else if host == LOCAL {
      OwnLocalMatches(out, i0);
    } else if |host| == 5 {
      assert out[k + 1..k + 1 + 5] == host;
    }
  }

  lemma OwnLocalMatches(out: seq<byte>, i0: nat)
    requires |out| == BUFFER && i0 + 6 < MAX_PACKET
    requires out[i0] == 5 && out[i0 + 1..i0 + 6] == LOCAL && out[i0 + 6] == 0
    ensures Matches(out, i0, [LOCAL])
  {
    var rest := ScanFrom(out, MAX_PACKET, i0, i0 + 6);
    assert rest == Scan(true, true, [], i0 + 7);
    var tokens := ScanFrom(out, MAX_PACKET, i0, i0).tokens;
    assert tokens == [Label(LOCAL)];
    CStringIs(LOCAL);
    assert tokens[1..] == [];
    assert Fold(NoName, tokens) == Fold(TakeToken(NoName, tokens[0]), []);
    assert Fold(NoName, tokens) == NoName.Stored(LOCAL);
  }

  predicate ReadsAsHost(name: Option<Name>, host: seq<byte>)
  {
    name.Some? && name.value.parts == 2 && !name.value.sub && !name.value.invalid
    && name.value.host == host && name.value.service == LOCAL
  }

  // The pointer to the name's own first label leads nowhere.
  lemma SelfPointer(out: seq<byte>, i0: nat)
    requires |out| == BUFFER && i0 + 8 < MAX_PACKET
    requires out[i0] == 5 && out[i0 + 6] == 0xC0 + i0 / 256 && out[i0 + 7] == i0 % 256
    ensures ReadName(out, MAX_PACKET, i0).None?
  {
    assert (out[i0 + 6] as int - 0xC0) * 256 + out[i0 + 7] as int == i0;
    assert !ScanFrom(out, MAX_PACKET, i0, i0 + 6).ok;
  }

  lemma HostLocalLost(buf: seq<byte>, i0: nat)
    requires |buf| == BUFFER && i0 + 8 < MAX_PACKET && FirstName(buf, i0, LOCAL)
    ensures ReadName(AppendName(buf, i0, [LOCAL, LOCAL]).buf, MAX_PACKET, i0).None?
  {
    var out := AfterHost(buf, i0, LOCAL);
    FoundNowhere(buf, i0, [LOCAL, LOCAL]);
    OutLocal(buf, i0);
    FirstMatchIs(out, i0, i0 + 6);
    assert |LOCAL| == 5;
    TwoAlike(buf, i0, LOCAL);
    SelfPointer(Put(out, i0 + 6, PointerBytes(i0)), i0);
  }

  lemma OutLocal(buf: seq<byte>, i0: nat)
    requires |buf| == BUFFER && i0 + 8 < MAX_PACKET && buf[i0 + 6] == 0
    ensures var out := AfterHost(buf, i0, LOCAL);
      out[i0] == 5 && out[i0 + 1..i0 + 6] == LOCAL && out[i0 + 6] == 0
  {
    PutKeeps(buf, i0, LabelBytes(LOCAL));
    var out := AfterHost(buf, i0, LOCAL);
    SliceOfSlice(out, i0, i0 + 6, 1, 6);
    assert LabelBytes(LOCAL)[1..6] == LOCAL;
  }

  // The label is written, and for its repetition a pointer to it.
  lemma TwoAlike(buf: seq<byte>, i0: nat, s: seq<byte>)
    requires |buf| == BUFFER && 0 < |s| < 255 && 0 !in s && i0 + |s| + 3 < MAX_PACKET
    requires FindFrom(buf, i0, [s, s], 0).None?
    requires FindFrom(AfterHost(buf, i0, s), i0 + |s| + 1, [s], 0) == Some(i0)
    ensures AppendName(buf, i0, [s, s]).buf == Put(AfterHost(buf, i0, s), i0 + |s| + 1, PointerBytes(i0))
  {
    AppendPointer(AfterHost(buf, i0, s), i0 + |s| + 1, [s], i0);
    AppendFirst(buf, i0, [s, s], s, [s], AfterHost(buf, i0, s));
  }

  lemma FirstMatchIs(out: seq<byte>, i0: nat, index: nat)
    requires |out| == BUFFER && i0 + 6 <= index < MAX_PACKET && NoneBelow(out, i0, [LOCAL])
    requires out[i0] == 5 && out[i0 + 1..i0 + 6] == LOCAL && out[i0 + 6] == 0
    ensures FindFrom(out, index, [LOCAL], 0) == Some(i0)
  {
    OwnLocalMatches(out, i0);
    FirstFound(out, index, [LOCAL], i0);
  }

  lemma FirstFound(out: seq<byte>, index: nat, strings: seq<seq<byte>>, i0: nat)
    requires |out| == BUFFER && i0 < index <= MAX_PACKET && strings != []
    requires NoneBelow(out, i0, strings) && Matches(out, i0, strings)
    ensures FindFrom(out, index, strings, 0) == Some(i0)
  {
    MatchNotMissed(out, index, strings, 0, i0);
    MatchFound(out, index, strings, 0);
  }

  lemma HostUnmatched(buf: seq<byte>, i0: nat, host: seq<byte>)
    requires |buf| == BUFFER && HostName(host) && i0 + |host| + 8 <= MAX_PACKET
    requires FirstName(buf, i0, host) && host != LOCAL
    ensures FindFrom(buf, i0, [host, LOCAL], 0).None?
    ensures FindFrom(AfterHost(buf, i0, host), i0 + |host| + 1, [LOCAL], 0).None?
  {
    assert [host][0] == host;
    FoundNowhere(buf, i0, [host, LOCAL]);
    var out := AfterHost(buf, i0, host);
    forall k | 0 <= k < i0 + |host| + 1 ensures !Matches(out, k, [LOCAL]) {
      if k >= i0 {
        LocalInHost(buf, i0, host, k);
      }
    }
    FoundNowhere(out, i0 + |host| + 1, [LOCAL]);
  }

  lemma HostWritten(buf: seq<byte>, i0: nat, host: seq<byte>)
    requires |buf| == BUFFER && HostName(host) && i0 + |host| + 8 <= MAX_PACKET
    requires FirstName(buf, i0, host) && host != LOCAL
    ensures CleanRun(buf, i0, i0, [host, LOCAL]) && AppendName(buf, i0, [host, LOCAL]).complete
    ensures WrittenOut(buf, i0, [host, LOCAL]) == 2
  {
    HostUnmatched(buf, i0, host);
    var both := [host, LOCAL];
    assert both[1..] == [LOCAL] && [LOCAL][1..] == [];
    assert EncodedLen([LOCAL]) == 7 && EncodedLen(both) == |host| + 8;
    FitsSuffices(buf, i0, both);
    var out := AfterHost(buf, i0, host);
    assert WrittenOut(out, i0 + |host| + 1, [LOCAL]) == 1;
    assert CleanRun(out, i0, i0 + |host| + 1, [LOCAL]);
  }

  // A host called "_sub" is taken for the subtype marker.
  lemma HostSubLost(buf: seq<byte>, i0: nat, host: seq<byte>)
    requires |buf| == BUFFER && HostName(host) && i0 + |host| + 8 <= MAX_PACKET
    requires FirstName(buf, i0, host) && SameText(host, SUB)
    ensures !ReadsAsHost(ReadName(AppendName(buf, i0, [host, LOCAL]).buf, MAX_PACKET, i0), host)
  {
    HostWritten(buf, i0, host);
    var both := [host, LOCAL];
    var a := AppendName(buf, i0, both);
    AppendKeeps(buf, i0, both);
    WriteReads(buf, i0, i0, i0, both, a.buf);
    ScanStable(a.buf, a.index, a.buf, MAX_PACKET, i0, i0);
    var tokens := ScanFrom(a.buf, MAX_PACKET, i0, i0).tokens;
    SubFirst(tokens, host);
  }

  lemma SubFirst(tokens: seq<Token>, host: seq<byte>)
    requires Spells(tokens, [host, LOCAL], 2) && SameText(host, SUB)
    ensures Fold(NoName, tokens).sub
  {
    SubSticks(NoName, tokens);
  }

  lemma {:induction false} SubSticks(n: Name, tokens: seq<Token>)
    requires n.sub || (n.parts == 0 && Labels(tokens) != [] && SameText(Labels(tokens)[0], SUB))
    ensures Fold(n, tokens).sub
    decreases |tokens|
  {
    if tokens != [] {
      LabelsOfTail(tokens);
      SubSticks(TakeToken(n, tokens[0]), tokens[1..]);
    }
  }

  /** The first host name in a packet survives exactly when it is neither "local" (then the
      domain is replaced by a pointer to the name itself) nor "_sub" in any case. */
  lemma HostSurvivesIff(buf: seq<byte>, i0: nat, host: seq<byte>)
    requires |buf| == BUFFER && HostName(host) && i0 + |host| + 8 <= MAX_PACKET && FirstName(buf, i0, host)
    ensures ReadsAsHost(ReadName(AppendName(buf, i0, [host, LOCAL]).buf, MAX_PACKET, i0), host)
       <==> host != LOCAL && !SameText(host, SUB)
  {
    if host == LOCAL {
      HostLocalLost(buf, i0);
    } else if SameText(host, SUB) {
      HostSubLost(buf, i0, host);
    } else {
      HostWritten(buf, i0, host);
      var both := [host, LOCAL];
      assert both[1] == LOCAL;
      assert Shape(both);
      NameSurvives(buf, i0, both);
      var name := ReadName(AppendName(buf, i0, both).buf, MAX_PACKET, i0).value;
      assert name.Field(0) == both[0] && name.Field(1) == both[1];
    }
  }
}
