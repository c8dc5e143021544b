/** Domain names in packets: labels and compression pointers (section 4.1.4 of RFC 1035), as
    written by the responder and read back. */
module NameCodec {
  import opened MdnsTypes
  import opened Bytes
  import opened Sequences

  const LOCAL: seq<byte> := [108, 111, 99, 97, 108]
  const ARPA: seq<byte> := [97, 114, 112, 97]
  const IP6: seq<byte> := [105, 112, 54]
  const IN_ADDR: seq<byte> := [105, 110, 45, 97, 100, 100, 114]
  const SUB: seq<byte> := [95, 115, 117, 98]
  const UNDERSCORE: byte := 95
  const DOT: byte := 46

  const MAX_LABEL := 63
  const FIELD := 65     // bytes of a name field, its terminator included

  // ---- Reading ----

  datatype Token = Label(bytes: seq<byte>) | Hop

  /** What reading a name meets: its labels and pointer hops, and where the data after it starts.
      inside says that no byte at or beyond the limit was looked at. */
  datatype Scan = Scan(ok: bool, inside: bool, tokens: seq<Token>, next: nat)

  // Where a pointer leads.
  function Target(buf: seq<byte>, pos: nat): nat
    requires pos + 1 < |buf| && buf[pos] >= 0xC0
  {
    (buf[pos] as int - 0xC0) * 256 + buf[pos + 1] as int
  }

  // base is where the current stretch of labels began; a pointer must lead strictly before it.
  function ScanFrom(buf: seq<byte>, limit: nat, base: nat, pos: nat): (r: Scan)
    requires limit < |buf|
    decreases base, if pos < limit then limit - pos else 0
  {
    if pos >= limit then Scan(true, false, [], pos + 1)
    else if buf[pos] == 0 then Scan(true, true, [], pos + 1)
    else if buf[pos] < 0xC0 then
      var after := pos + 1 + buf[pos];
      if buf[pos] > MAX_LABEL then Scan(false, true, [], 0)
      else if after > limit then Scan(false, false, [], 0)
      else
        var rest := ScanFrom(buf, limit, base, after);
        rest.(tokens := [Label(buf[pos + 1..after])] + rest.tokens)
    else
      var target := Target(buf, pos);
      var inside := pos + 1 < limit;
      if target >= base then Scan(false, inside, [], 0)
      else
        var rest := ScanFrom(buf, limit, target, target);
        Scan(rest.ok, inside && rest.inside, [Hop] + rest.tokens, pos + 2)
  }

  // The reader's result: four fields holding C strings, filled in order of arrival.
  datatype Name = Name(
    host: seq<byte>, service: seq<byte>, proto: seq<byte>, domain: seq<byte>,
    parts: nat, sub: bool, invalid: bool)
  {
    function Field(i: nat): seq<byte>
    {
      if i == 0 then host else if i == 1 then service else if i == 2 then proto else domain
    }

    function Stored(text: seq<byte>): Name
    {
      var more := this.(parts := parts + 1);
      if parts == 0 then more.(host := text)
      else if parts == 1 then more.(service := text)
      else if parts == 2 then more.(proto := text)
      else more.(domain := text)
    }

    predicate Fits()
    {
      parts <= 4 && |host| < FIELD && |service| < FIELD && |proto| < FIELD && |domain| < FIELD
    }
  }

  const NoName := Name([], [], [], [], 0, false, false)

  function Concat(a: seq<byte>, b: seq<byte>): (r: seq<byte>)
    ensures |r| < FIELD
  {
    var r := a + b;
    if |r| < FIELD then r else r[..FIELD - 1]
  }

  // A second label that starts no service and ends no name is part of a dotted host name.
  predicate Continues(text: seq<byte>)
  {
    && (text == [] || text[0] != UNDERSCORE)
    && !SameText(text, LOCAL) && !SameText(text, ARPA) && !SameText(text, IP6) && !SameText(text, IN_ADDR)
  }

  predicate JoinsHost(n: Name, text: seq<byte>)
  {
    n.parts == 1 && Continues(text)
  }

  function CheckFull(n: Name): Name
  {
    if n.parts == 4 then n.(invalid := true) else n
  }

  function TakeText(n: Name, text: seq<byte>): Name
  {
    if JoinsHost(n, text) then n.(host := Concat(Concat(n.host, [DOT]), text))
    else if SameText(text, SUB) then n.(sub := true)
    else if !n.invalid then n.Stored(text)
    else n
  }

  function TakeToken(n: Name, t: Token): Name
  {
    var m := CheckFull(n);
    if t.Hop? then m else TakeText(m, CString(t.bytes))
  }

  function Fold(n: Name, tokens: seq<Token>): Name
    decreases |tokens|
  {
    if tokens == [] then n else Fold(TakeToken(n, tokens[0]), tokens[1..])
  }

  function ReadName(buf: seq<byte>, limit: nat, start: nat): Option<Name>
    requires limit < |buf|
  {
    var r := ScanFrom(buf, limit, start, start);
    if r.ok then Some(Fold(NoName, r.tokens)) else None
  }

  // Where the reader's caller puts the parts of a three- and a two-part name.
  function Arranged(n: Name): Name
  {
    if n.parts == 0 || n.invalid then n
    else
      var m :=
        if n.parts == 3 then n.(host := [], service := n.host, proto := n.service, domain := n.proto)
        else if n.parts == 2 then n.(service := [], proto := [], domain := n.service)
        else n;
      if SameText(m.domain, LOCAL) || SameText(m.domain, ARPA) then m else m.(invalid := true)
  }

  // ---- Writing ----

  // C strings whose length, and length plus one, fit a byte.
  predicate Writable(strings: seq<seq<byte>>)
  {
    forall i :: 0 <= i < |strings| ==> |strings[i]| < 255 && 0 !in strings[i]
  }

  // The name found at k in the packet is taken for the strings. The first label must agree
  // exactly; a comparison that would leave the buffer fails, as would reading that label.
  predicate Matches(buf: seq<byte>, k: nat, strings: seq<seq<byte>>)
    requires |buf| == BUFFER && k < |buf| && strings != []
  {
    var n := |strings[0]|;
    && buf[k] == n && k + 1 + n <= |buf| && buf[k + 1..k + 1 + n] == strings[0]
    && var name := ReadName(buf, MAX_PACKET, k);
      && name.Some? && name.value.parts == |strings|
      && forall i :: 0 <= i < |strings| ==> SameText(strings[i], name.value.Field(i))
  }

  // First match at or after k and before index.
  function FindFrom(buf: seq<byte>, index: nat, strings: seq<seq<byte>>, k: nat): (r: Option<nat>)
    requires |buf| == BUFFER && index <= MAX_PACKET && strings != []
    ensures r.Some? ==> k <= r.value < index
    decreases index - k
  {
    if k >= index then None
    else if Matches(buf, k, strings) then Some(k)
    else FindFrom(buf, index, strings, k + 1)
  }

  lemma {:induction false} MatchFound(buf: seq<byte>, index: nat, strings: seq<seq<byte>>, k: nat)
    requires |buf| == BUFFER && index <= MAX_PACKET && strings != []
    ensures var r := FindFrom(buf, index, strings, k);
      r.Some? ==> Matches(buf, r.value, strings)
    decreases index - k
  {
    if k < index && !Matches(buf, k, strings) {
      MatchFound(buf, index, strings, k + 1);
    }
  }

  lemma {:induction false} MatchNotMissed(buf: seq<byte>, index: nat, strings: seq<seq<byte>>, k: nat, j: nat)
    requires |buf| == BUFFER && index <= MAX_PACKET && strings != [] && k <= j < index && Matches(buf, j, strings)
    ensures var r := FindFrom(buf, index, strings, k);
      r.Some? && r.value <= j
    decreases index - k
  {
    if !Matches(buf, k, strings) {
      MatchNotMissed(buf, index, strings, k + 1, j);
    }
  }

  // What is found matches, and nothing before it does.
  lemma FirstMatch(buf: seq<byte>, index: nat, strings: seq<seq<byte>>)
    requires |buf| == BUFFER && index <= MAX_PACKET && strings != []
    ensures var r := FindFrom(buf, index, strings, 0);
      && (r.Some? ==> Matches(buf, r.value, strings))
      && forall j :: 0 <= j < (if r.Some? then r.value else index) ==> !Matches(buf, j, strings)
  {
    MatchFound(buf, index, strings, 0);
    forall j | 0 <= j < index && Matches(buf, j, strings)
      ensures FindFrom(buf, index, strings, 0).Some? && FindFrom(buf, index, strings, 0).value <= j
    {
      MatchNotMissed(buf, index, strings, 0, j);
    }
  }

  datatype Appended = Appended(buf: seq<byte>, index: nat, moved: nat, complete: bool)

  function LabelBytes(s: seq<byte>): seq<byte>
    requires |s| < 256
  {
    [|s|] + s
  }

  function PointerBytes(k: nat): seq<byte>
    requires k < MAX_PACKET
  {
    [0xC0 + k / 256, k % 256]
  }

  /** Appending a name: as many labels as have no match yet, then a pointer to a match or the
      final zero byte. Where something does not fit, writing stops, and what is already written
      stays and counts. */
  function AppendName(buf: seq<byte>, index: nat, strings: seq<seq<byte>>): (r: Appended)
    requires |buf| == BUFFER && index <= MAX_PACKET && Writable(strings)
    ensures |r.buf| == BUFFER && index <= r.index <= MAX_PACKET
    decreases |strings|
  {
    if strings == [] then
      if index >= MAX_PACKET then Appended(buf, index, 0, false)
      else Appended(Put(buf, index, [0]), index + 1, 1, true)
    else
      var found := FindFrom(buf, index, strings, 0);
      if found.Some? then
        if index + 1 >= MAX_PACKET then Appended(buf, index, 0, false)
        else Appended(Put(buf, index, PointerBytes(found.value)), index + 2, 2, true)
      else
        var n := |strings[0]|;
        if index + n + 1 >= MAX_PACKET then Appended(buf, index, 0, false)
        else
          var rest := AppendName(Put(buf, index, LabelBytes(strings[0])), index + n + 1, strings[1..]);
          rest.(moved := n + 1 + rest.moved)
  }

  // Labels written out before the pointer or the end.
  function WrittenOut(buf: seq<byte>, index: nat, strings: seq<seq<byte>>): (w: nat)
    requires |buf| == BUFFER && index <= MAX_PACKET && Writable(strings)
    ensures w <= |strings|
    decreases |strings|
  {
    if strings == [] || FindFrom(buf, index, strings, 0).Some? || index + |strings[0]| + 1 >= MAX_PACKET then 0
    else 1 + WrittenOut(Put(buf, index, LabelBytes(strings[0])), index + |strings[0]| + 1, strings[1..])
  }

  // ---- The reader ----

  // Every label copied fits the 65 bytes it is copied to, terminator included, and at most four
  // fields are ever filled, whatever the bytes read.
  lemma {:induction false} ScanLabelsFit(buf: seq<byte>, limit: nat, base: nat, pos: nat)
    requires limit < |buf|
    ensures forall i :: 0 <= i < |ScanFrom(buf, limit, base, pos).tokens| ==>
      var t := ScanFrom(buf, limit, base, pos).tokens[i]; t.Label? ==> |t.bytes| + 1 < FIELD
    decreases base, if pos < limit then limit - pos else 0
  {
    if pos >= limit || buf[pos] == 0 {
    } else if buf[pos] < 0xC0 {
      if buf[pos] <= MAX_LABEL && pos + 1 + buf[pos] <= limit {
        ScanLabelsFit(buf, limit, base, pos + 1 + buf[pos]);
      }
    } else {
      var target := Target(buf, pos);
      if target < base {
        ScanLabelsFit(buf, limit, target, target);
      }
    }
  }

  lemma {:induction false} FoldFits(n: Name, tokens: seq<Token>)
    requires n.Fits() && forall i :: 0 <= i < |tokens| && tokens[i].Label? ==> |tokens[i].bytes| < FIELD
    ensures Fold(n, tokens).Fits()
    decreases |tokens|
  {
    if tokens != [] {
      FoldFits(TakeToken(n, tokens[0]), tokens[1..]);
    }
  }

  function Hops(tokens: seq<Token>): nat
  {
    if tokens == [] then 0 else (if tokens[0].Hop? then 1 else 0) + Hops(tokens[1..])
  }

  // Every hop leads strictly before the stretch it is in, so there are no more than base of them.
  lemma {:induction false} HopsBounded(buf: seq<byte>, limit: nat, base: nat, pos: nat)
    requires limit < |buf|
    ensures Hops(ScanFrom(buf, limit, base, pos).tokens) <= base
    decreases base, if pos < limit then limit - pos else 0
  {
    if pos >= limit || buf[pos] == 0 {
    } else if buf[pos] < 0xC0 {
      if buf[pos] <= MAX_LABEL && pos + 1 + buf[pos] <= limit {
        var rest := ScanFrom(buf, limit, base, pos + 1 + buf[pos]).tokens;
        HopsBounded(buf, limit, base, pos + 1 + buf[pos]);
        assert ([Label(buf[pos + 1..pos + 1 + buf[pos]])] + rest)[1..] == rest;
      }
    } else {
      var target := Target(buf, pos);
      if target < base {
        var rest := ScanFrom(buf, limit, target, target).tokens;
        HopsBounded(buf, limit, target, target);
        assert ([Hop] + rest)[1..] == rest;
      }
    }
  }

  /** Reading is safe on every byte string: it takes at most start hops, copies only labels that
      fit, and fills at most four fields of at most 64 characters. */
  lemma ReadIsSafe(buf: seq<byte>, limit: nat, start: nat)
    requires limit < |buf|
    ensures var tokens := ScanFrom(buf, limit, start, start).tokens;
      && Hops(tokens) <= start
      && (forall i :: 0 <= i < |tokens| && tokens[i].Label? ==> |tokens[i].bytes| + 1 < FIELD)
      && (forall k :: 0 <= k <= |tokens| ==> Fold(NoName, tokens[..k]).Fits())
  {
    HopsBounded(buf, limit, start, start);
    ScanLabelsFit(buf, limit, start, start);
    var tokens := ScanFrom(buf, limit, start, start).tokens;
    forall k | 0 <= k <= |tokens| ensures Fold(NoName, tokens[..k]).Fits() {
      FoldFits(NoName, tokens[..k]);
    }
  }

  lemma SamePrefix(buf: seq<byte>, buf': seq<byte>, n: nat, i: nat)
    requires i < n <= |buf| && n <= |buf'| && buf[..n] == buf'[..n]
    ensures buf[i] == buf'[i]
  {
    assert buf[i] == buf[..n][i] == buf'[i];
  }

  lemma SameLabel(buf: seq<byte>, limit: nat, buf': seq<byte>, limit': nat, base: nat, pos: nat)
    requires limit < |buf| && limit' < |buf'| && limit <= limit' && buf[..limit] == buf'[..limit]
    requires pos < limit && 0 < buf[pos] <= MAX_LABEL && pos + 1 + buf[pos] <= limit
    requires ScanFrom(buf', limit', base, pos + 1 + buf[pos]) == ScanFrom(buf, limit, base, pos + 1 + buf[pos])
    ensures ScanFrom(buf', limit', base, pos) == ScanFrom(buf, limit, base, pos)
  {
    SamePrefix(buf, buf', limit, pos);
    var after := pos + 1 + buf[pos];
    SliceOfSlice(buf, 0, limit, pos + 1, after);
    SliceOfSlice(buf', 0, limit, pos + 1, after);
  }

  lemma SameHop(buf: seq<byte>, limit: nat, buf': seq<byte>, limit': nat, base: nat, pos: nat)
    requires limit < |buf| && limit' < |buf'| && limit <= limit' && buf[..limit] == buf'[..limit]
    requires pos + 1 < limit && buf[pos] >= 0xC0
    requires var target := Target(buf, pos);
      target < base ==> ScanFrom(buf', limit', target, target) == ScanFrom(buf, limit, target, target)
    ensures ScanFrom(buf', limit', base, pos) == ScanFrom(buf, limit, base, pos)
  {
    SamePrefix(buf, buf', limit, pos);
    SamePrefix(buf, buf', limit, pos + 1);
  }

  // What was read without reaching the limit does not depend on anything beyond it.
  lemma {:induction false} ScanStable(buf: seq<byte>, limit: nat, buf': seq<byte>, limit': nat, base: nat, pos: nat)
    requires limit < |buf| && limit' < |buf'| && limit <= limit' && buf[..limit] == buf'[..limit]
    requires ScanFrom(buf, limit, base, pos).inside
    ensures ScanFrom(buf', limit', base, pos) == ScanFrom(buf, limit, base, pos)
    decreases base, if pos < limit then limit - pos else 0
  {
    SamePrefix(buf, buf', limit, pos);
    if 0 < buf[pos] <= MAX_LABEL {
      ScanStable(buf, limit, buf', limit', base, pos + 1 + buf[pos]);
      SameLabel(buf, limit, buf', limit', base, pos);
    } else if buf[pos] >= 0xC0 {
      var target := Target(buf, pos);
      if target < base {
        ScanStable(buf, limit, buf', limit', target, target);
      }
      SameHop(buf, limit, buf', limit', base, pos);
    }
  }

  // ---- Labels as text ----

  function Labels(tokens: seq<Token>): seq<seq<byte>>
  {
    if tokens == [] then []
    else (if tokens[0].Label? then [CString(tokens[0].bytes)] else []) + Labels(tokens[1..])
  }

  predicate SameTexts(a: seq<seq<byte>>, b: seq<seq<byte>>)
  {
    |a| == |b| && forall i :: 0 <= i < |a| ==> SameText(a[i], b[i])
  }

  // An ordinary name: at most four labels, none of them the subtype marker, the last token a label.
  predicate Plain(tokens: seq<Token>)
  {
    && |Labels(tokens)| <= 4 && NoSub(Labels(tokens))
    && (tokens != [] ==> tokens[|tokens| - 1].Label?)
  }

  predicate NoSub(labels: seq<seq<byte>>)
  {
    forall i :: 0 <= i < |labels| ==> !SameText(labels[i], SUB)
  }

  // The labels one after the other in the four fields.
  function Filled(n: Name, labels: seq<seq<byte>>): Name
    decreases |labels|
  {
    if labels == [] then n else Filled(n.Stored(labels[0]), labels[1..])
  }

  lemma LabelsOfTail(tokens: seq<Token>)
    requires tokens != []
    ensures tokens[0].Label? ==> Labels(tokens) == [CString(tokens[0].bytes)] + Labels(tokens[1..])
    ensures tokens[0].Hop? ==> Labels(tokens) == Labels(tokens[1..])
  {
  }

  lemma {:induction false} LastLabel(tokens: seq<Token>)
    requires tokens != [] && tokens[|tokens| - 1].Label?
    ensures Labels(tokens) != []
  {
    if |tokens| > 1 {
      LastLabel(tokens[1..]);
    }
  }

  // Unless a label joins the host name, the labels fill the fields one by one.
  lemma {:induction false} StraightFold(n: Name, tokens: seq<Token>)
    requires !n.invalid && n.parts + |Labels(tokens)| <= 4 && NoSub(Labels(tokens))
    requires tokens != [] ==> tokens[|tokens| - 1].Label?
    requires n.parts == 1 && Labels(tokens) != [] ==> !JoinsHost(n, Labels(tokens)[0])
    requires n.parts == 0 && |Labels(tokens)| > 1 ==> !JoinsHost(n.Stored(Labels(tokens)[0]), Labels(tokens)[1])
    ensures Fold(n, tokens) == Filled(n, Labels(tokens))
    decreases |tokens|
  {
    if tokens != [] {
      LastLabel(tokens);
      LabelsOfTail(tokens);
      var labels := Labels(tokens);
      assert CheckFull(n) == n;
      if tokens[0].Label? {
        assert !SameText(labels[0], SUB);
        assert NoSub(labels[1..]);
        assert TakeToken(n, tokens[0]) == n.Stored(labels[0]);
        StraightFold(n.Stored(labels[0]), tokens[1..]);
      } else {
        StraightFold(n, tokens[1..]);
      }
    }
  }

  // Once there, a host name never gets shorter.
  lemma {:induction false} HostKeeps(n: Name, tokens: seq<Token>)
    requires n.parts >= 1 && |n.host| < FIELD
    ensures |Fold(n, tokens).host| >= |n.host|
    decreases |tokens|
  {
    if tokens != [] {
      HostKeeps(TakeToken(n, tokens[0]), tokens[1..]);
    }
  }

  // A label that joins the host name makes it longer.
  lemma {:induction false} JoinGrows(n: Name, tokens: seq<Token>)
    requires n.parts == 1 && |n.host| < FIELD - 1 && !n.invalid
    requires Labels(tokens) != [] && JoinsHost(n, Labels(tokens)[0])
    ensures |Fold(n, tokens).host| > |n.host|
    decreases |tokens|
  {
    LabelsOfTail(tokens);
    var m := TakeToken(n, tokens[0]);
    if tokens[0].Label? {
      HostKeeps(m, tokens[1..]);
    } else {
      JoinGrows(m, tokens[1..]);
    }
  }

  lemma FilledFields(labels: seq<seq<byte>>)
    requires |labels| <= 4
    ensures var n := Filled(NoName, labels);
      && n.parts == |labels| && !n.sub && !n.invalid
      && (forall i :: 0 <= i < |labels| ==> n.Field(i) == labels[i])
      && (forall i :: |labels| <= i < 4 ==> n.Field(i) == [])
  {
    if |labels| >= 1 {
      var n1 := NoName.Stored(labels[0]);
      var l1 := labels[1..];
      assert Filled(NoName, labels) == Filled(n1, l1);
      if |labels| >= 2 {
        var n2 := n1.Stored(l1[0]);
        var l2 := l1[1..];
        assert Filled(n1, l1) == Filled(n2, l2);
        if |labels| >= 3 {
          var n3 := n2.Stored(l2[0]);
          var l3 := l2[1..];
          assert Filled(n2, l2) == Filled(n3, l3);
          if |labels| == 4 {
            assert Filled(n3, l3) == Filled(n3.Stored(l3[0]), l3[1..]);
          }
        }
      }
    }
  }
}
