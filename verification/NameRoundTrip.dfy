/** Names written with compression read back as they were, when the matches found while writing
    lie below the name; and what happens when they do not. */
module NameRoundTrip {
  import opened MdnsTypes
  import opened Bytes
  import opened Sequences
  import opened NameCodec

  // ---- Matches ----

  // A name at k that is ordinary and lies wholly below i0.
  predicate Clean(buf: seq<byte>, i0: nat, k: nat)
    requires i0 < |buf|
  {
    k < i0 && var r := ScanFrom(buf, i0, k, k); r.ok && r.inside && Plain(r.tokens)
  }

  // Every match found while the name is written from i0 on is clean.
  predicate CleanRun(buf: seq<byte>, i0: nat, index: nat, strings: seq<seq<byte>>)
    requires |buf| == BUFFER && i0 <= index <= MAX_PACKET && Writable(strings)
    decreases |strings|
  {
    strings == [] ||
    var found := FindFrom(buf, index, strings, 0);
    if found.Some? then Clean(buf, i0, found.value)
    else index + |strings[0]| + 1 < MAX_PACKET ==>
      CleanRun(Put(buf, index, LabelBytes(strings[0])), i0, index + |strings[0]| + 1, strings[1..])
  }

  predicate Proper(strings: seq<seq<byte>>)
  {
    forall i :: 0 <= i < |strings| ==> 0 < |strings[i]| <= MAX_LABEL && 0 !in strings[i]
  }

  // A clean match spells the strings.
  lemma MatchSpells(buf: seq<byte>, i0: nat, k: nat, strings: seq<seq<byte>>)
    requires |buf| == BUFFER && i0 <= MAX_PACKET && strings != [] && |strings| <= 4 && Proper(strings)
    requires Clean(buf, i0, k) && Matches(buf, k, strings)
    ensures var r := ScanFrom(buf, i0, k, k);
      SameTexts(Labels(r.tokens), strings) && r.tokens != []
  {
    var tokens := ScanFrom(buf, i0, k, k).tokens;
    ScanStable(buf, i0, buf, MAX_PACKET, k, k);
    FirstToken(buf, i0, k, strings[0]);
    var labels := Labels(tokens);
    LabelsOfTail(tokens);
    var n := NoName.Stored(labels[0]);
    assert !SameText(labels[0], SUB);
    assert Fold(NoName, tokens) == Fold(n, tokens[1..]);
    assert SameText(strings[0], Fold(NoName, tokens).Field(0));
    if |labels| > 1 && JoinsHost(n, labels[1]) {
      JoinGrows(n, tokens[1..]);
      assert false;
    }
    StraightFold(NoName, tokens);
    FilledFields(labels);
    SameFields(Fold(NoName, tokens), labels, strings);
  }

  lemma SameFields(n: Name, labels: seq<seq<byte>>, strings: seq<seq<byte>>)
    requires |labels| == |strings| <= 4
    requires forall i :: 0 <= i < |labels| ==> n.Field(i) == labels[i]
    requires forall i :: 0 <= i < |strings| ==> SameText(strings[i], n.Field(i))
    ensures SameTexts(labels, strings)
  {
    forall i | 0 <= i < |strings| ensures SameText(labels[i], strings[i]) {
      assert SameText(strings[i], n.Field(i));
    }
  }

  lemma FirstToken(buf: seq<byte>, limit: nat, k: nat, s: seq<byte>)
    requires limit < |buf| && k < limit && ScanFrom(buf, limit, k, k).ok && ScanFrom(buf, limit, k, k).inside
    requires 0 < |s| <= MAX_LABEL && 0 !in s && buf[k] == |s| && k + 1 + |s| <= |buf| && buf[k + 1..k + 1 + |s|] == s
    ensures var tokens := ScanFrom(buf, limit, k, k).tokens;
      tokens != [] && tokens[0] == Label(s) && CString(s) == s
  {
    CStringIs(s);
  }

  // ---- What is written reads back ----

  // The tokens spell the strings, the first w of them exactly.
  predicate Spells(tokens: seq<Token>, strings: seq<seq<byte>>, w: nat)
  {
    var labels := Labels(tokens);
    && SameTexts(labels, strings)
    && (forall i :: 0 <= i < w && i < |strings| ==> labels[i] == strings[i])
    && (tokens != [] ==> tokens[|tokens| - 1].Label?)
  }

  lemma SpellsLabel(s: seq<byte>, tokens: seq<Token>, strings: seq<seq<byte>>, w: nat)
    requires strings != [] && strings[0] == s && 0 !in s && Spells(tokens, strings[1..], w)
    ensures Spells([Label(s)] + tokens, strings, w + 1)
  {
    CStringIs(s);
    var all := [Label(s)] + tokens;
    LabelsOfTail(all);
    assert all[1..] == tokens;
    forall i | 0 <= i < |strings| ensures SameText(Labels(all)[i], strings[i]) {
      if i > 0 {
        assert SameText(Labels(tokens)[i - 1], strings[1..][i - 1]);
      }
    }
  }

  // Scanning from index on, in a stretch that began at base, spells the strings and ends at end.
  predicate ReadsBack(buf: seq<byte>, end: nat, base: nat, index: nat, strings: seq<seq<byte>>, w: nat)
  {
    && end < |buf|
    && var r := ScanFrom(buf, end, base, index);
       r.ok && r.inside && r.next == end && Spells(r.tokens, strings, w)
  }

  lemma PointerReads(buf: seq<byte>, i0: nat, base: nat, index: nat, strings: seq<seq<byte>>, k: nat, final: seq<byte>)
    requires |buf| == |final| == BUFFER && i0 <= base <= index && index + 1 < MAX_PACKET
    requires strings != [] && |strings| <= 4 && Proper(strings)
    requires Clean(buf, i0, k) && Matches(buf, k, strings)
    requires final[..i0] == buf[..i0] && final[index..index + 2] == PointerBytes(k)
    ensures ReadsBack(final, index + 2, base, index, strings, 0)
  {
    var target := ScanFrom(buf, i0, k, k);
    MatchSpells(buf, i0, k, strings);
    assert Spells(target.tokens, strings, 0);
    ScanStable(buf, i0, final, index + 2, k, k);
    PointerReadsTo(final, base, index, k, target, strings);
  }

  lemma PointerReadsTo(final: seq<byte>, base: nat, index: nat, k: nat, target: Scan, strings: seq<seq<byte>>)
    requires |final| == BUFFER && k < base && k < MAX_PACKET && index + 1 < MAX_PACKET
    requires final[index..index + 2] == PointerBytes(k)
    requires target == ScanFrom(final, index + 2, k, k) && target.ok && target.inside
    requires target.tokens != [] && Spells(target.tokens, strings, 0)
    ensures ReadsBack(final, index + 2, base, index, strings, 0)
  {
    assert final[index] == final[index..index + 2][0] && final[index + 1] == final[index..index + 2][1];
    PointerScan(final, index + 2, base, index, k);
    SpellsHop(target.tokens, strings);
  }

  lemma PointerScan(buf: seq<byte>, limit: nat, base: nat, pos: nat, k: nat)
    requires pos + 2 == limit < |buf| && k < base && k < MAX_PACKET
    requires buf[pos] == 0xC0 + k / 256 && buf[pos + 1] == k % 256
    ensures var rest := ScanFrom(buf, limit, k, k);
      ScanFrom(buf, limit, base, pos) == Scan(rest.ok, rest.inside, [Hop] + rest.tokens, pos + 2)
  {
    assert (buf[pos] as int - 0xC0) * 256 + buf[pos + 1] as int == k;
  }

  lemma SpellsHop(tokens: seq<Token>, strings: seq<seq<byte>>)
    requires tokens != [] && Spells(tokens, strings, 0)
    ensures Spells([Hop] + tokens, strings, 0)
  {
    LabelsOfTail([Hop] + tokens);
    assert ([Hop] + tokens)[1..] == tokens;
  }

  lemma EndReads(final: seq<byte>, base: nat, index: nat)
    requires |final| == BUFFER && index < MAX_PACKET && final[index] == 0
    ensures ReadsBack(final, index + 1, base, index, [], 0)
  {
  }

  // Writing leaves everything below the index as it was.
  lemma {:induction false} AppendKeeps(buf: seq<byte>, index: nat, strings: seq<seq<byte>>)
    requires |buf| == BUFFER && index <= MAX_PACKET && Writable(strings)
    ensures AppendName(buf, index, strings).buf[..index] == buf[..index]
    decreases |strings|
  {
    var a := AppendName(buf, index, strings);
    if strings == [] {
    } else if FindFrom(buf, index, strings, 0).None? && index + |strings[0]| + 1 < MAX_PACKET {
      var next := Put(buf, index, LabelBytes(strings[0]));
      AppendKeeps(next, index + |strings[0]| + 1, strings[1..]);
      assert a.buf[..index] == a.buf[..index + |strings[0]| + 1][..index] == next[..index] == buf[..index];
    }
  }

  // A label in front of a name that reads back.
  lemma LabelReads(final: seq<byte>, end: nat, base: nat, index: nat, strings: seq<seq<byte>>, w: nat)
    requires strings != [] && Proper(strings)
    requires index + |strings[0]| + 1 <= end < |final|
    requires final[index..index + |strings[0]| + 1] == LabelBytes(strings[0])
    requires ReadsBack(final, end, base, index + |strings[0]| + 1, strings[1..], w)
    ensures ReadsBack(final, end, base, index, strings, w + 1)
  {
    var s := strings[0];
    var after := index + |s| + 1;
    assert final[index] == final[index..after][0] == |s|;
    assert final[index + 1..after] == final[index..after][1..] == s;
    var rest := ScanFrom(final, end, base, after);
    assert ScanFrom(final, end, base, index) == rest.(tokens := [Label(s)] + rest.tokens);
    SpellsLabel(s, rest.tokens, strings, w);
  }

  // What is left of the buffer to the reader: everything below i0, and the name itself.
  predicate Agree(final: seq<byte>, buf: seq<byte>, a: Appended, i0: nat, index: nat)
  {
    && |final| == |buf| == |a.buf| == BUFFER && i0 <= index <= a.index <= MAX_PACKET
    && final[..i0] == buf[..i0] && final[index..a.index] == a.buf[index..a.index]
  }

  /** A complete name whose matches are clean reads back, from a stretch beginning at base, in any
      buffer that holds the name and still agrees below i0. */
  lemma {:induction false} WriteReads(buf: seq<byte>, i0: nat, base: nat, index: nat, strings: seq<seq<byte>>,
      final: seq<byte>)
    requires |buf| == BUFFER && i0 <= base <= index <= MAX_PACKET && |strings| <= 4 && Proper(strings)
    requires AppendName(buf, index, strings).complete && CleanRun(buf, i0, index, strings)
    requires Agree(final, buf, AppendName(buf, index, strings), i0, index)
    ensures ReadsBack(final, AppendName(buf, index, strings).index, base, index, strings,
      WrittenOut(buf, index, strings))
    decreases |strings|, 2
  {
    var a := AppendName(buf, index, strings);
    if strings == [] {
      assert final[index] == final[index..a.index][0] == a.buf[index..a.index][0] == 0;
      EndReads(final, base, index);
    } else {
      var found := FindFrom(buf, index, strings, 0);
      if found.Some? {
        WritePointerReads(buf, i0, base, index, strings, final);
      } else {
        WriteLabelReads(buf, i0, base, index, strings, final);
      }
    }
  }

  lemma WritePointerReads(buf: seq<byte>, i0: nat, base: nat, index: nat, strings: seq<seq<byte>>, final: seq<byte>)
    requires |buf| == BUFFER && i0 <= base <= index <= MAX_PACKET && |strings| <= 4 && Proper(strings)
    requires AppendName(buf, index, strings).complete && CleanRun(buf, i0, index, strings)
    requires Agree(final, buf, AppendName(buf, index, strings), i0, index)
    requires strings != [] && FindFrom(buf, index, strings, 0).Some?
    ensures ReadsBack(final, AppendName(buf, index, strings).index, base, index, strings,
      WrittenOut(buf, index, strings))
  {
    var found := FindFrom(buf, index, strings, 0).value;
    MatchFound(buf, index, strings, 0);
    AppendPointer(buf, index, strings, found);
    PointerReads(buf, i0, base, index, strings, found, final);
  }

  lemma {:induction false} WriteLabelReads(buf: seq<byte>, i0: nat, base: nat, index: nat, strings: seq<seq<byte>>,
      final: seq<byte>)
    requires |buf| == BUFFER && i0 <= base <= index <= MAX_PACKET && |strings| <= 4 && Proper(strings)
    requires AppendName(buf, index, strings).complete && CleanRun(buf, i0, index, strings)
    requires Agree(final, buf, AppendName(buf, index, strings), i0, index)
    requires strings != [] && FindFrom(buf, index, strings, 0).None?
    ensures ReadsBack(final, AppendName(buf, index, strings).index, base, index, strings,
      WrittenOut(buf, index, strings))
    decreases |strings|, 1
  {
    var s, rest := strings[0], strings[1..];
    WritableSplit(strings);
    LabelFits(buf, i0, index, strings, s, rest);
    var next := Put(buf, index, LabelBytes(s));
    var after := index + |s| + 1;
    RestAgrees(buf, i0, index, strings, s, rest, next, final);
    LabelAgrees(buf, i0, index, s, rest, final);
    LabelThenRest(i0, base, index, strings, rest, final, next);
  }

  // A label, and behind it what reads back.
  lemma {:induction false} LabelThenRest(i0: nat, base: nat, index: nat, strings: seq<seq<byte>>,
      rest: seq<seq<byte>>, final: seq<byte>, next: seq<byte>)
    requires |next| == BUFFER && i0 <= base <= index && 0 < |strings| <= 4 && Proper(strings) && rest == strings[1..]
    requires index + |strings[0]| + 1 < MAX_PACKET && Writable(rest)
    requires var after := index + |strings[0]| + 1;
             var a := AppendName(next, after, rest);
      && a.complete && CleanRun(next, i0, after, rest) && Agree(final, next, a, i0, after)
      && final[index..after] == LabelBytes(strings[0])
    ensures var after := index + |strings[0]| + 1;
      ReadsBack(final, AppendName(next, after, rest).index, base, index, strings, WrittenOut(next, after, rest) + 1)
    decreases |strings|, 0
  {
    var after := index + |strings[0]| + 1;
    WriteReads(next, i0, base, after, rest, final);
    LabelReads(final, AppendName(next, after, rest).index, base, index, strings, WrittenOut(next, after, rest));
  }

  lemma WritableSplit(strings: seq<seq<byte>>)
    requires Writable(strings) && strings != []
    ensures |strings[0]| < 255 && 0 !in strings[0] && Writable(strings[1..])
  {
  }

  // What is left to write behind the first label.
  lemma RestAgrees(buf: seq<byte>, i0: nat, index: nat, strings: seq<seq<byte>>, s: seq<byte>, rest: seq<seq<byte>>,
      next: seq<byte>, final: seq<byte>)
    requires |buf| == BUFFER && index <= MAX_PACKET && Writable(strings) && strings != []
    requires s == strings[0] && rest == strings[1..] && |s| < 255 && 0 !in s && Writable(rest)
    requires FindFrom(buf, index, strings, 0).None?
    requires index + |s| + 1 < MAX_PACKET && next == Put(buf, index, LabelBytes(s))
    requires Agree(final, buf, AppendName(buf, index, strings), i0, index)
    ensures var a := AppendName(next, index + |s| + 1, rest);
      && Agree(final, buf, a, i0, index) && a.complete == AppendName(buf, index, strings).complete
      && a.index == AppendName(buf, index, strings).index
    ensures WrittenOut(buf, index, strings) == 1 + WrittenOut(next, index + |s| + 1, rest)
  {
    AppendFirst(buf, index, strings, s, rest, next);
  }

  lemma LabelAgrees(buf: seq<byte>, i0: nat, index: nat, s: seq<byte>, rest: seq<seq<byte>>, final: seq<byte>)
    requires |buf| == BUFFER && index + |s| + 1 < MAX_PACKET && |s| < 255 && 0 !in s && Writable(rest)
    requires Agree(final, buf, AppendName(Put(buf, index, LabelBytes(s)), index + |s| + 1, rest), i0, index)
    ensures final[index..index + |s| + 1] == LabelBytes(s)
    ensures var next := Put(buf, index, LabelBytes(s));
      Agree(final, next, AppendName(next, index + |s| + 1, rest), i0, index + |s| + 1)
  {
    var next := Put(buf, index, LabelBytes(s));
    AppendKeeps(next, index + |s| + 1, rest);
    LabelWindow(buf, index, s, AppendName(next, index + |s| + 1, rest), final, i0);
  }

  lemma LabelFits(buf: seq<byte>, i0: nat, index: nat, strings: seq<seq<byte>>, s: seq<byte>, rest: seq<seq<byte>>)
    requires |buf| == BUFFER && i0 <= index <= MAX_PACKET && Writable(strings) && strings != []
    requires s == strings[0] && rest == strings[1..] && |s| < 255 && 0 !in s && Writable(rest)
    requires AppendName(buf, index, strings).complete && CleanRun(buf, i0, index, strings)
    requires FindFrom(buf, index, strings, 0).None?
    ensures var after := index + |s| + 1;
      after < MAX_PACKET && CleanRun(Put(buf, index, LabelBytes(s)), i0, after, rest)
  {
  }

  lemma LabelWindow(buf: seq<byte>, index: nat, s: seq<byte>, a: Appended, final: seq<byte>, i0: nat)
    requires |s| < 255 && index + |s| + 1 <= a.index && Agree(final, buf, a, i0, index)
    requires var next := Put(buf, index, LabelBytes(s)); a.buf[..index + |s| + 1] == next[..index + |s| + 1]
    ensures final[index..index + |s| + 1] == LabelBytes(s)
    ensures Agree(final, Put(buf, index, LabelBytes(s)), a, i0, index + |s| + 1)
  {
    var next := Put(buf, index, LabelBytes(s));
    var n := |s| + 1;
    var after := index + n;
    PutKeeps(buf, index, LabelBytes(s));
    SliceOfSlice(final, index, a.index, 0, n);
    SliceOfSlice(a.buf, index, a.index, 0, n);
    SliceOfSlice(a.buf, 0, after, index, after);
    SliceOfSlice(next, 0, after, index, after);
    SliceOfSlice(final, index, a.index, n, a.index - index);
    SliceOfSlice(a.buf, index, a.index, n, a.index - index);
    SliceOfSlice(next, 0, index, 0, i0);
    SliceOfSlice(buf, 0, index, 0, i0);
  }

  // The two ways a part of a name can go.
  lemma AppendLabel(buf: seq<byte>, index: nat, strings: seq<seq<byte>>)
    requires |buf| == BUFFER && index <= MAX_PACKET && Writable(strings) && strings != []
    requires FindFrom(buf, index, strings, 0).None? && index + |strings[0]| + 1 < MAX_PACKET
    ensures var rest := AppendName(Put(buf, index, LabelBytes(strings[0])), index + |strings[0]| + 1, strings[1..]);
      AppendName(buf, index, strings) == rest.(moved := |strings[0]| + 1 + rest.moved)
      && AppendName(buf, index, strings).buf == rest.buf && AppendName(buf, index, strings).complete == rest.complete
    ensures WrittenOut(buf, index, strings)
         == 1 + WrittenOut(Put(buf, index, LabelBytes(strings[0])), index + |strings[0]| + 1, strings[1..])
  {
  }

  // The same with label and rest named.
  lemma AppendFirst(buf: seq<byte>, index: nat, strings: seq<seq<byte>>, s: seq<byte>, rest: seq<seq<byte>>,
      next: seq<byte>)
    requires |buf| == BUFFER && index <= MAX_PACKET && Writable(strings) && strings != []
    requires s == strings[0] && rest == strings[1..] && |s| < 255 && 0 !in s && Writable(rest)
    requires FindFrom(buf, index, strings, 0).None?
    requires index + |s| + 1 < MAX_PACKET && next == Put(buf, index, LabelBytes(s))
    ensures AppendName(buf, index, strings) ==
      var a := AppendName(next, index + |s| + 1, rest); a.(moved := |s| + 1 + a.moved)
    ensures WrittenOut(buf, index, strings) == 1 + WrittenOut(next, index + |s| + 1, rest)
  {
  }

  lemma AppendPointer(buf: seq<byte>, index: nat, strings: seq<seq<byte>>, k: nat)
    requires |buf| == BUFFER && index + 1 < MAX_PACKET && Writable(strings) && strings != []
    requires FindFrom(buf, index, strings, 0) == Some(k)
    ensures AppendName(buf, index, strings) == Appended(Put(buf, index, PointerBytes(k)), index + 2, 2, true)
    ensures WrittenOut(buf, index, strings) == 0
  {
  }

  // ---- The names the responder writes ----

  predicate StartsService(s: seq<byte>) { s != [] && s[0] == UNDERSCORE }

  // host.local, service.proto.local or instance.service.proto.local
  predicate Shape(strings: seq<seq<byte>>)
  {
    && Proper(strings) && NoSub(strings) && 2 <= |strings| <= 4
    && SameText(strings[|strings| - 1], LOCAL)
    && (|strings| > 2 ==> StartsService(strings[|strings| - 2]) && StartsService(strings[|strings| - 3]))
  }

  lemma SameTextTrans(a: seq<byte>, b: seq<byte>, c: seq<byte>)
    requires SameText(a, b) && SameText(b, c)
    ensures SameText(a, c) && SameText(b, a)
  {
  }

  lemma ShapeStraight(labels: seq<seq<byte>>, strings: seq<seq<byte>>)
    requires Shape(strings) && SameTexts(labels, strings)
    ensures NoSub(labels) && |labels| >= 2 && !JoinsHost(NoName.Stored(labels[0]), labels[1])
  {
    forall i | 0 <= i < |labels| ensures !SameText(labels[i], SUB) {
      if SameText(labels[i], SUB) {
        assert SameText(labels[i], strings[i]);
        assert SameText(strings[i], labels[i]);
        SameTextTrans(strings[i], labels[i], SUB);
        assert false;
      }
    }
    assert SameText(labels[1], strings[1]);
    if |strings| == 2 {
      SameTextTrans(labels[1], strings[1], LOCAL);
    } else {
      assert Lower(labels[1][0]) == Lower(strings[1][0]);
    }
  }

  // A name read as the strings: all its parts, the first w exactly, the others up to case.
  predicate ReadsAs(name: Option<Name>, strings: seq<seq<byte>>, w: nat)
  {
    && name.Some? && name.value.parts == |strings| && !name.value.sub && !name.value.invalid
    && (forall i :: 0 <= i < |strings| ==> SameText(name.value.Field(i), strings[i]))
    && (forall i :: 0 <= i < w && i < |strings| ==> name.value.Field(i) == strings[i])
  }

  lemma SpelledName(tokens: seq<Token>, strings: seq<seq<byte>>, w: nat)
    requires Shape(strings) && Spells(tokens, strings, w)
    ensures ReadsAs(Some(Fold(NoName, tokens)), strings, w)
  {
    var labels := Labels(tokens);
    ShapeStraight(labels, strings);
    StraightFold(NoName, tokens);
    FilledFields(labels);
    forall i | 0 <= i < |strings| ensures SameText(Fold(NoName, tokens).Field(i), strings[i]) {
      assert SameText(labels[i], strings[i]);
    }
  }

  // The general form of the round trip, for a name that is followed and preceded by other data.
  lemma NameSurvivesIn(buf: seq<byte>, i0: nat, index: nat, strings: seq<seq<byte>>, final: seq<byte>)
    requires |buf| == BUFFER && i0 <= index <= MAX_PACKET && Shape(strings)
    requires AppendName(buf, index, strings).complete && CleanRun(buf, i0, index, strings)
    requires Agree(final, buf, AppendName(buf, index, strings), i0, index)
    ensures ScanFrom(final, MAX_PACKET, index, index).next == AppendName(buf, index, strings).index
    ensures ReadsAs(ReadName(final, MAX_PACKET, index), strings, WrittenOut(buf, index, strings))
  {
    WriteReads(buf, i0, index, index, strings, final);
    ScanStable(final, AppendName(buf, index, strings).index, final, MAX_PACKET, index, index);
    SpelledName(ScanFrom(final, MAX_PACKET, index, index).tokens, strings, WrittenOut(buf, index, strings));
  }

  /** Round trip. A name of one of these shapes, completely written at i0 with every match clean,
      reads back from i0 as ending where writing stopped, with all its parts: the labels written
      out exactly, those behind the pointer up to the case of ASCII letters. */
  lemma NameSurvives(buf: seq<byte>, i0: nat, strings: seq<seq<byte>>)
    requires |buf| == BUFFER && i0 <= MAX_PACKET && Shape(strings)
    requires AppendName(buf, i0, strings).complete && CleanRun(buf, i0, i0, strings)
    ensures var a := AppendName(buf, i0, strings);
      && ScanFrom(a.buf, MAX_PACKET, i0, i0).next == a.index
      && ReadsAs(ReadName(a.buf, MAX_PACKET, i0), strings, WrittenOut(buf, i0, strings))
      && a.buf[..i0] == buf[..i0]
  {
    AppendKeeps(buf, i0, strings);
    NameSurvivesIn(buf, i0, i0, strings, AppendName(buf, i0, strings).buf);
  }

  /** As the packet parser hands it on: the parts in the fields they belong to, and valid. */
  lemma ParsedSurvives(buf: seq<byte>, i0: nat, strings: seq<seq<byte>>)
    requires |buf| == BUFFER && i0 <= MAX_PACKET && Shape(strings)
    requires AppendName(buf, i0, strings).complete && CleanRun(buf, i0, i0, strings)
    ensures var name := ReadName(AppendName(buf, i0, strings).buf, MAX_PACKET, i0);
            var n := |strings|;
      name.Some? && var p := Arranged(name.value);
      && !p.invalid && !p.sub && SameText(p.domain, LOCAL)
      && (n == 2 ==> SameText(p.host, strings[0]) && p.service == [] && p.proto == [])
      && (n > 2 ==> SameText(p.service, strings[n - 3]) && SameText(p.proto, strings[n - 2]))
      && (n == 3 ==> p.host == [])
      && (n == 4 ==> SameText(p.host, strings[0]))
  {
    NameSurvives(buf, i0, strings);
    var name := ReadName(AppendName(buf, i0, strings).buf, MAX_PACKET, i0).value;
    var n := |strings|;
    SameTextTrans(name.Field(n - 1), strings[n - 1], LOCAL);
    assert name.Field(1) == name.service && name.Field(0) == name.host && name.Field(2) == name.proto;
    if n > 2 {
      assert SameText(name.Field(n - 3), strings[n - 3]) && SameText(name.Field(n - 2), strings[n - 2]);
    } else {
      assert SameText(name.Field(0), strings[0]);
    }
  }

  /** A name written as one pointer reads exactly as the name it points to, its subtype marker
      and all: an instance with the name of a subtype reads as that subtype. */
  lemma PointerReadsAlike(buf: seq<byte>, i0: nat, strings: seq<seq<byte>>)
    requires |buf| == BUFFER && i0 <= MAX_PACKET && strings != [] && Writable(strings)
    requires AppendName(buf, i0, strings).complete
    requires var found := FindFrom(buf, i0, strings, 0);
      found.Some? && ScanFrom(buf, i0, found.value, found.value).inside
    ensures ReadName(AppendName(buf, i0, strings).buf, MAX_PACKET, i0)
         == ReadName(buf, MAX_PACKET, FindFrom(buf, i0, strings, 0).value)
  {
    var k := FindFrom(buf, i0, strings, 0).value;
    PointerBelow(buf, i0, k);
    ScanStable(buf, i0, buf, MAX_PACKET, k, k);
    var tokens := ScanFrom(buf, i0, k, k).tokens;
    assert ([Hop] + tokens)[1..] == tokens;
  }

  lemma PointerBelow(buf: seq<byte>, i0: nat, k: nat)
    requires |buf| == BUFFER && k < i0 && i0 + 2 <= MAX_PACKET && ScanFrom(buf, i0, k, k).inside
    ensures var rest := ScanFrom(buf, i0, k, k);
      ScanFrom(Put(buf, i0, PointerBytes(k)), MAX_PACKET, i0, i0) == Scan(rest.ok, true, [Hop] + rest.tokens, i0 + 2)
  {
    var out := Put(buf, i0, PointerBytes(k));
    assert out[..i0] == buf[..i0];
    ScanStable(buf, i0, out, i0 + 2, k, k);
    PointerScan(out, i0 + 2, i0, i0, k);
    ScanStable(out, i0 + 2, out, MAX_PACKET, i0, i0);
  }
}
