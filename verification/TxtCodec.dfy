/** TXT record data (section 6 of RFC 6763): entries "key" or "key=value", each behind a length
    byte, written one after the other and parsed in two passes. */
module TxtCodec {
  import opened MdnsTypes
  import opened Bytes
  import opened Sequences

  const EQUALS: byte := 61

  datatype Entry = Entry(key: seq<byte>, value: Option<seq<byte>>)

  // ---- Writing ----

  function EntryText(e: Entry): seq<byte>
  {
    e.key + if e.value.Some? then [EQUALS] + e.value.value else []
  }

  // The length is stored in one byte.
  function EntryBytes(e: Entry): seq<byte>
  {
    [|EntryText(e)| % 256] + EntryText(e)
  }

  function Entries(es: seq<Entry>): seq<byte>
  {
    if es == [] then [] else EntryBytes(es[0]) + Entries(es[1..])
  }

  // No entries at all are written as a single zero byte.
  function Encode(es: seq<Entry>): seq<byte>
  {
    if es == [] then [0] else Entries(es)
  }

  // ---- Parsing ----

  // The counting pass, from i on; nothing when a part runs over the end.
  function PartCount(data: seq<byte>, i: nat): Option<nat>
    decreases |data| - i
  {
    if i >= |data| || data[i] == 0 then Some(0)
    else if i + 1 + data[i] > |data| then None
    else
      var rest := PartCount(data, i + 1 + data[i]);
      if rest.None? then None else Some(1 + rest.value)
  }

  function Count(data: seq<byte>): Option<nat>
  {
    if |data| == 1 then Some(0) else PartCount(data, 0)
  }

  // Length of the key: everything before the first "=", or all; none at all is an error.
  function KeyLen(part: seq<byte>): (n: nat)
    ensures n <= |part|
  {
    if part == [] || part[0] == EQUALS then 0 else 1 + KeyLen(part[1..])
  }

  // It is where the first "=" stands.
  lemma {:induction false} KeyStopsFirst(part: seq<byte>)
    ensures KeyLen(part) < |part| ==> part[KeyLen(part)] == EQUALS
    ensures forall i :: 0 <= i < KeyLen(part) ==> part[i] != EQUALS
  {
    if part != [] && part[0] != EQUALS {
      KeyStopsFirst(part[1..]);
      assert forall i :: 0 < i < |part| ==> part[i] == part[1..][i - 1];
    }
  }

  // What one part, whose key is not empty, is parsed as. An empty value is no value.
  function Parsed(part: seq<byte>): Entry
  {
    var n := KeyLen(part);
    Entry(part[..n], if |part| > n + 1 then Some(part[n + 1..]) else None)
  }

  function Before(e: Entry, rest: Option<seq<Entry>>): Option<seq<Entry>>
  {
    if rest.None? then None else Some([e] + rest.value)
  }

  // Where the filling pass goes on behind a part with a key: one byte too far when it has no "=".
  function Behind(part: seq<byte>, after: nat): nat
  {
    if KeyLen(part) < |part| then after else after + 1
  }

  // The filling pass, from i on.
  function Fill(data: seq<byte>, i: nat): Option<seq<Entry>>
    decreases |data| - i
  {
    if i >= |data| || data[i] == 0 then Some([])
    else if i + 1 + data[i] > |data| then None
    else
      var after := i + 1 + data[i];
      var part := data[i + 1..after];
      if part[0] == EQUALS then Fill(data, after)
      else
        Before(Parsed(part), Fill(data, Behind(part, after)))
  }

  // What the caller gets; nothing at all on an error.
  function Decode(data: seq<byte>): seq<Entry>
  {
    if Count(data).None? || Count(data).value == 0 || Fill(data, 0).None? then [] else Fill(data, 0).value
  }

  // ---- Round trip ----

  predicate ProperEntry(e: Entry)
  {
    e.key != [] && EQUALS !in e.key && |EntryText(e)| <= 255
  }

  predicate ProperEntries(es: seq<Entry>)
  {
    forall i :: 0 <= i < |es| ==> ProperEntry(es[i])
  }

  // An entry comes back without its value when that is empty.
  function Normal(e: Entry): Entry
  {
    if e.value == Some([]) then e.(value := None) else e
  }

  function Normals(es: seq<Entry>): (r: seq<Entry>)
    ensures |r| == |es| && forall i :: 0 <= i < |es| ==> r[i] == Normal(es[i])
  {
    if es == [] then [] else [Normal(es[0])] + Normals(es[1..])
  }

  lemma {:induction false} KeyLenIs(key: seq<byte>, rest: seq<byte>)
    requires EQUALS !in key && (rest != [] ==> rest[0] == EQUALS)
    ensures KeyLen(key + rest) == |key|
  {
    if key == [] {
      assert key + rest == rest;
    } else {
      assert (key + rest)[1..] == key[1..] + rest;
      KeyLenIs(key[1..], rest);
    }
  }

  lemma ParsedEntry(e: Entry)
    requires ProperEntry(e)
    ensures Parsed(EntryText(e)) == Normal(e)
    ensures KeyLen(EntryText(e)) < |EntryText(e)| <==> e.value.Some?
    ensures EntryText(e) != [] && EntryText(e)[0] != EQUALS
  {
    var rest := if e.value.Some? then [EQUALS] + e.value.value else [];
    KeyLenIs(e.key, rest);
    var text := e.key + rest;
    assert text[..|e.key|] == e.key;
    if e.value.Some? {
      assert text[|e.key| + 1..] == e.value.value;
    }
    assert text[0] == e.key[0] && e.key[0] in e.key;
  }

  // The entries lie in the data from i on, up to its end.
  predicate LiesAt(data: seq<byte>, i: nat, es: seq<Entry>)
  {
    i <= |data| && data[i..] == Entries(es)
  }

  lemma LiesNext(data: seq<byte>, i: nat, es: seq<Entry>)
    requires LiesAt(data, i, es) && es != [] && ProperEntry(es[0])
    ensures var n := |EntryText(es[0])|;
      && i < |data| && data[i] == n > 0 && i + 1 + n <= |data|
      && data[i + 1..i + 1 + n] == EntryText(es[0]) && LiesAt(data, i + 1 + n, es[1..])
  {
    var n := |EntryText(es[0])|;
    var tail := data[i..];
    assert tail == [n] + EntryText(es[0]) + Entries(es[1..]);
    ParsedEntry(es[0]);
    assert tail[0] == n && tail[1..1 + n] == EntryText(es[0]) && tail[1 + n..] == Entries(es[1..]);
    SubSlice(data, i, i + 1, i + 1 + n);
    TailOfTail(data, i, 1 + n);
  }

  lemma {:induction false} CountsEntries(data: seq<byte>, i: nat, es: seq<Entry>)
    requires LiesAt(data, i, es) && ProperEntries(es)
    ensures PartCount(data, i) == Some(|es|)
    decreases |es|
  {
    if es != [] {
      LiesNext(data, i, es);
      CountsEntries(data, i + 1 + data[i], es[1..]);
    }
  }

  // Every entry but possibly the last has a value.
  predicate ValuesButLast(es: seq<Entry>)
  {
    forall i :: 0 <= i < |es| - 1 ==> es[i].value.Some?
  }

  // Where the filling pass goes on behind an entry.
  function NextAt(data: seq<byte>, i: nat, e: Entry): nat
    requires i < |data|
  {
    i + 1 + data[i] + if e.value.Some? then 0 else 1
  }

  // The filling pass over one entry.
  lemma FillOne(data: seq<byte>, i: nat, es: seq<Entry>)
    requires LiesAt(data, i, es) && es != [] && ProperEntry(es[0])
    ensures i < |data| && LiesAt(data, i + 1 + data[i], es[1..])
    ensures Fill(data, i) == Before(Normal(es[0]), Fill(data, NextAt(data, i, es[0])))
  {
    LiesNext(data, i, es);
    FillEntry(data, i, es[0]);
  }

  lemma FillEntry(data: seq<byte>, i: nat, e: Entry)
    requires ProperEntry(e) && i < |data| && data[i] == |EntryText(e)| && i + 1 + data[i] <= |data|
    requires data[i + 1..i + 1 + data[i]] == EntryText(e)
    ensures Fill(data, i) == Before(Normal(e), Fill(data, NextAt(data, i, e)))
  {
    ParsedEntry(e);
    FillPart(data, i, EntryText(e), NextAt(data, i, e));
  }

  // The filling pass over one part.
  lemma FillPart(data: seq<byte>, i: nat, part: seq<byte>, next: nat)
    requires part != [] && part[0] != EQUALS && i < |data| && data[i] == |part| && i + 1 + |part| <= |data|
    requires data[i + 1..i + 1 + |part|] == part
    requires next == Behind(part, i + 1 + |part|)
    ensures Fill(data, i) == Before(Parsed(part), Fill(data, next))
  {
  }

  lemma FillsLast(data: seq<byte>, i: nat, es: seq<Entry>)
    requires LiesAt(data, i, es) && |es| == 1 && ProperEntry(es[0]) && es[0].value.None?
    ensures Fill(data, i) == Some(Normals(es))
  {
    FillOne(data, i, es);
    var after := i + 1 + data[i];
    assert es[1..] == [] && Entries(es[1..]) == [];
    assert |data[after..]| == 0;
    assert Fill(data, after + 1) == Some([]);
    assert Normals(es) == [Normal(es[0])];
  }

  lemma {:induction false} FillsEntries(data: seq<byte>, i: nat, es: seq<Entry>)
    requires LiesAt(data, i, es) && ProperEntries(es) && ValuesButLast(es)
    ensures Fill(data, i) == Some(Normals(es))
    decreases |es|
  {
    if es != [] {
      FillOne(data, i, es);
      if es[0].value.None? {
        FillsLast(data, i, es);
      } else {
        FillsEntries(data, i + 1 + data[i], es[1..]);
        assert Fill(data, i) == Some([Normal(es[0])] + Normals(es[1..]));
      }
    }
  }

  lemma AtStart(data: seq<byte>, es: seq<Entry>)
    requires data == Entries(es) && es != [] && ProperEntries(es)
    ensures LiesAt(data, 0, es) && |data| > 1
  {
    assert data[0..] == data;
    LiesNext(data, 0, es);
  }

  /** Keys, values and their lengths come back in order, and both passes agree on their number,
      when every entry but possibly the last has a value. */
  lemma TxtRoundTrip(es: seq<Entry>)
    requires ProperEntries(es) && ValuesButLast(es)
    ensures Decode(Encode(es)) == Normals(es)
    ensures Count(Encode(es)) == Some(|es|) && (es != [] ==> Fill(Encode(es), 0) == Some(Normals(es)))
  {
    if es != [] {
      var data := Entries(es);
      AtStart(data, es);
      CountsEntries(data, 0, es);
      FillsEntries(data, 0, es);
      DecodedWhole(data, |es|, Normals(es));
    }
  }

  lemma DecodedWhole(data: seq<byte>, n: nat, es: seq<Entry>)
    requires |data| > 1 && n > 0 && PartCount(data, 0) == Some(n) && Fill(data, 0) == Some(es)
    ensures Count(data) == Some(n) && Decode(data) == es
  {
  }

  // ---- Entries without a value ----

  // Bytes an entry uses up when it is decoded: one too many when there is no "=" behind the key.
  function Costs(es: seq<Entry>): nat
  {
    if es == [] then 0
    else |es[0].key| + 2 + (if es[0].value.Some? then |es[0].value.value| else 0) + Costs(es[1..])
  }

  function WithoutValue(es: seq<Entry>): nat
  {
    if es == [] then 0 else (if es[0].value.None? then 1 else 0) + WithoutValue(es[1..])
  }

  // What is decoded has been paid for, with one byte to spare at the end of the data.
  lemma {:induction false} FillCosts(data: seq<byte>, i: nat)
    requires i <= |data| + 1
    ensures Fill(data, i).Some? ==> Costs(Fill(data, i).value) <= |data| + 1 - i
    decreases |data| + 1 - i
  {
    if i < |data| && data[i] != 0 && i + 1 + data[i] <= |data| {
      var after := i + 1 + data[i];
      var part := data[i + 1..after];
      FillCosts(data, after);
      FillCosts(data, after + 1);
      if part[0] != EQUALS && Fill(data, i).Some? {
        var rest := Fill(data, Behind(part, after)).value;
        assert Fill(data, i).value == [Parsed(part)] + rest;
        assert ([Parsed(part)] + rest)[1..] == rest;
      }
    }
  }

  // The filling pass from i on ends with just these entries.
  predicate Filled(data: seq<byte>, i: nat, es: seq<Entry>)
  {
    Fill(data, i) == Some(Normals(es))
  }

  // What was written pays for all of it but one byte for each entry without a value.
  lemma {:induction false} NormalsCost(es: seq<Entry>)
    requires ProperEntries(es)
    ensures Costs(Normals(es)) == |Entries(es)| + WithoutValue(es)
  {
    if es != [] {
      NormalsCost(es[1..]);
      assert Normals(es) == [Normal(es[0])] + Normals(es[1..]);
    }
  }

  lemma TooCostly(data: seq<byte>, i: nat, es: seq<Entry>)
    requires LiesAt(data, i, es) && ProperEntries(es) && WithoutValue(es) >= 2
    ensures !Filled(data, i, es)
  {
    FillCosts(data, i);
    NormalsCost(es);
  }

  lemma KeyInPlace(data: seq<byte>, i: nat, es: seq<Entry>)
    requires es != [] && LiesAt(data, i, es) && ProperEntry(es[0]) && es[0].value.Some?
    ensures var n := |es[0].key|;
      i + 1 + n < |data| && data[i + 1 + n] == EQUALS && forall x :: i + 1 <= x < i + 1 + n ==> data[x] != EQUALS
  {
    LiesNext(data, i, es);
    var text := EntryText(es[0]);
    var j := i + 1;
    var n := |es[0].key|;
    assert forall x :: 0 <= x < |text| ==> data[j + x] == data[j..j + |text|][x] == text[x];
    forall x | j <= x < j + n ensures data[x] != EQUALS {
      assert data[x] == data[j..j + |text|][x - j] == text[x - j] == es[0].key[x - j];
      assert es[0].key[x - j] in es[0].key;
    }
  }

  // Where the part behind an entry without a value is looked for, a shorter key is found.
  lemma ShorterKey(data: seq<byte>, i: nat, es: seq<Entry>)
    requires es != [] && LiesAt(data, i, es) && ProperEntry(es[0]) && es[0].value.Some? && |es[0].key| >= 2
    ensures Fill(data, i + 1).None? || Fill(data, i + 1).value == [] || |Fill(data, i + 1).value[0].key| < |es[0].key|
  {
    var e := es[0];
    var j := i + 1;
    var n := |e.key|;
    KeyInPlace(data, i, es);
    if data[j] != 0 && j + 1 + data[j] <= |data| {
      var part := data[j + 1..j + 1 + data[j]];
      assert part[0] == data[j + 1] != EQUALS;
      if n - 1 < |part| {
        assert part[n - 1] == data[j + n];
        KeyStops(part, n - 1);
      }
    }
  }

  lemma {:induction false} KeyStops(part: seq<byte>, n: nat)
    requires n < |part| && part[n] == EQUALS
    ensures KeyLen(part) <= n
  {
    if n > 0 && part[0] != EQUALS {
      KeyStops(part[1..], n - 1);
    }
  }

  // Where the part behind an entry without a value is looked for, the rest is not found.
  lemma Shifted(data: seq<byte>, i: nat, es: seq<Entry>)
    requires es != [] && LiesAt(data, i, es) && ProperEntries(es) && es[0].value.Some?
    ensures !Filled(data, i + 1, es)
  {
    if |es[0].key| >= 2 {
      ShorterKey(data, i, es);
    } else {
      KeyInPlace(data, i, es);
      if data[i + 1] != 0 && i + 2 + data[i + 1] <= |data| {
        assert data[i + 2..i + 2 + data[i + 1]][0] == EQUALS;
        FillCosts(data, i + 2 + data[i + 1]);
        NormalsCost(es);
      }
    }
  }

  lemma NormalsHead(es: seq<Entry>)
    requires es != []
    ensures Normals(es) == [Normal(es[0])] + Normals(es[1..])
  {
  }

  lemma ConsDiffers(e: Entry, xs: seq<Entry>, ys: seq<Entry>)
    requires xs != ys
    ensures [e] + xs != [e] + ys
  {
    assert ([e] + xs)[1..] == xs && ([e] + ys)[1..] == ys;
  }

  // What goes wrong behind an entry goes wrong with it.
  lemma FillFails(data: seq<byte>, i: nat, es: seq<Entry>)
    requires LiesAt(data, i, es) && es != [] && ProperEntry(es[0]) && i < |data|
    requires !Filled(data, NextAt(data, i, es[0]), es[1..])
    ensures !Filled(data, i, es)
  {
    FillOne(data, i, es);
    NormalsHead(es);
    NotFilled(data, i, NextAt(data, i, es[0]), es, Normal(es[0]), es[1..]);
  }

  lemma NotFilled(data: seq<byte>, i: nat, next: nat, es: seq<Entry>, first: Entry, tail: seq<Entry>)
    requires Fill(data, i) == Before(first, Fill(data, next))
    requires Normals(es) == [first] + Normals(tail) && !Filled(data, next, tail)
    ensures !Filled(data, i, es)
  {
    if Fill(data, next).Some? {
      ConsDiffers(first, Fill(data, next).value, Normals(tail));
    }
  }

  lemma ProperTail(es: seq<Entry>)
    requires ProperEntries(es) && es != []
    ensures ProperEntry(es[0]) && ProperEntries(es[1..])
  {
  }

  lemma NextLies(data: seq<byte>, i: nat, es: seq<Entry>)
    requires LiesAt(data, i, es) && es != [] && ProperEntry(es[0])
    ensures i < |data| && LiesAt(data, i + 1 + data[i], es[1..])
  {
    LiesNext(data, i, es);
  }

  lemma ShiftedBehind(data: seq<byte>, i: nat, es: seq<Entry>)
    requires LiesAt(data, i, es) && ProperEntries(es) && |es| >= 2 && es[1].value.Some?
    ensures i < |data| && !Filled(data, i + 1 + data[i] + 1, es[1..])
  {
    ProperTail(es);
    NextLies(data, i, es);
    Shifted(data, i + 1 + data[i], es[1..]);
  }

  lemma TwoWithoutValue(es: seq<Entry>)
    requires |es| >= 2 && es[0].value.None? && es[1].value.None?
    ensures WithoutValue(es) >= 2
  {
    assert es[1] == es[1..][0];
  }

  // An entry without a value that is not the last.
  lemma LosesHere(data: seq<byte>, i: nat, es: seq<Entry>)
    requires LiesAt(data, i, es) && ProperEntries(es) && |es| >= 2 && es[0].value.None?
    ensures !Filled(data, i, es)
  {
    if es[1].value.Some? {
      ShiftedBehind(data, i, es);
      FillFails(data, i, es);
    } else {
      TwoWithoutValue(es);
      TooCostly(data, i, es);
    }
  }

  lemma {:induction false} FillLoses(data: seq<byte>, i: nat, es: seq<Entry>)
    requires LiesAt(data, i, es) && ProperEntries(es) && !ValuesButLast(es)
    ensures !Filled(data, i, es)
    decreases |es|
  {
    if es[0].value.None? {
      LosesHere(data, i, es);
    } else {
      ProperTail(es);
      NextLies(data, i, es);
      FillLoses(data, i + 1 + data[i], es[1..]);
      FillFails(data, i, es);
    }
  }

  /** A list comes back exactly when every entry but possibly the last has a value. */
  lemma TxtSurvivesIff(es: seq<Entry>)
    requires ProperEntries(es)
    ensures Decode(Encode(es)) == Normals(es) <==> ValuesButLast(es)
  {
    if ValuesButLast(es) {
      TxtRoundTrip(es);
    } else {
      var data := Encode(es);
      AtStart(data, es);
      FillLoses(data, 0, es);
      assert Normals(es) != [];
    }
  }

  // ---- The arrays filled ----

  // Places of the result arrays the filling pass writes from i on, also when it ends in an error.
  function Started(data: seq<byte>, i: nat): nat
    decreases |data| - i
  {
    if i >= |data| || data[i] == 0 || i + 1 + data[i] > |data| then 0
    else
      var after := i + 1 + data[i];
      var part := data[i + 1..after];
      if part[0] == EQUALS then Started(data, after)
      else 1 + Started(data, Behind(part, after))
  }

  lemma {:induction false} StartedFilled(data: seq<byte>, i: nat)
    ensures Fill(data, i).Some? ==> |Fill(data, i).value| == Started(data, i)
    decreases |data| - i
  {
    if i < |data| && data[i] != 0 && i + 1 + data[i] <= |data| {
      StartedFilled(data, i + 1 + data[i]);
      StartedFilled(data, i + 2 + data[i]);
    }
  }

  // The filling pass writes beyond the arrays, which have as many places as the counting pass counts.
  predicate Overruns(data: seq<byte>)
  {
    Count(data).Some? && Started(data, 0) > Count(data).value
  }

  // Every part but one that ends the data has an "=".
  predicate SeparatedFrom(data: seq<byte>, i: nat)
    decreases |data| - i
  {
    i < |data| && 0 < data[i] <= |data| - i - 1 ==>
      (i + 1 + data[i] == |data| || EQUALS in data[i + 1..i + 1 + data[i]]) && SeparatedFrom(data, i + 1 + data[i])
  }

  /** The arrays are long enough when every part but one that ends the data has an "=". */
  lemma {:induction false} SeparatedFits(data: seq<byte>, i: nat)
    requires SeparatedFrom(data, i) && PartCount(data, i).Some?
    ensures Started(data, i) <= PartCount(data, i).value
    decreases |data| - i
  {
    if i < |data| && data[i] != 0 {
      KeyStopsFirst(data[i + 1..i + 1 + data[i]]);
      SeparatedFits(data, i + 1 + data[i]);
    }
  }

  lemma SeparatedNeverOverruns(data: seq<byte>)
    requires SeparatedFrom(data, 0)
    ensures !Overruns(data)
  {
    if Count(data).Some? && |data| != 1 {
      SeparatedFits(data, 0);
    }
  }

  /** On any data it writes at most one place for every three bytes. */
  lemma {:induction false} AtMostOneInThree(data: seq<byte>, i: nat)
    requires i <= |data| + 1
    ensures 3 * Started(data, i) <= |data| + 1 - i
    decreases |data| + 1 - i
  {
    if i < |data| && data[i] != 0 && i + 1 + data[i] <= |data| {
      var after := i + 1 + data[i];
      var part := data[i + 1..after];
      AtMostOneInThree(data, after);
      AtMostOneInThree(data, after + 1);
      if part[0] != EQUALS && data[i] == 1 {
        assert KeyLen(part) == |part|;
      }
    }
  }

  // Parts of one byte, each behind which the filling pass skips one more.
  function Triples(n: nat): (s: seq<byte>)
    ensures |s| == 3 * n
  {
    if n == 0 then [] else [1, 98, 99] + Triples(n - 1)
  }

  // A part without "=", then one part that holds n of them.
  function TwoParts(n: nat): seq<byte>
    requires 3 * n <= 255
  {
    [1, 97, 3 * n] + Triples(n)
  }

  lemma {:induction false} StartsTriples(data: seq<byte>, i: nat, n: nat)
    requires i <= |data| && data[i..] == Triples(n)
    ensures Started(data, i) == n
    decreases n
  {
    if n > 0 {
      var tail := data[i..];
      assert tail == [1, 98, 99] + Triples(n - 1);
      assert data[i] == tail[0] && data[i + 1] == tail[1];
      assert data[i + 1..i + 2] == [98] && KeyLen([98]) == 1;
      assert data[i + 3..] == tail[3..];
      StartsTriples(data, i + 3, n - 1);
    }
  }

  /** Two parts counted, and up to 86 places written. */
  lemma TwoPartsOverrun(n: nat)
    requires 1 <= n && 3 * n <= 255
    ensures Count(TwoParts(n)) == Some(2) && Started(TwoParts(n), 0) == 1 + n
    ensures Fill(TwoParts(n), 0).Some? ==> |Fill(TwoParts(n), 0).value| == 1 + n
    ensures Overruns(TwoParts(n)) <==> n >= 2
  {
    var data := TwoParts(n);
    assert |data| == 3 + 3 * n && data[2] == 3 * n;
    assert data[1..2] == [97] && KeyLen([97]) == 1;
    assert data[3..] == Triples(n);
    StartsTriples(data, 3, n);
    StartedFilled(data, 0);
    assert PartCount(data, 3 + 3 * n) == Some(0);
    assert PartCount(data, 2) == Some(1);
  }
}
