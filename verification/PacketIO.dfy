/** Reading and writing packets as the source does it: an array filled behind a moving index, and
    names read by a loop that follows pointers recursively. */
module PacketIO {
  import opened MdnsTypes
  import opened Bytes
  import opened NameCodec
  import NameRoundTrip
  import opened TxtCodec
  import opened Records

  // The name being read, filled label by label.
  class ParsedName {
    var host: seq<byte>
    var service: seq<byte>
    var proto: seq<byte>
    var domain: seq<byte>
    var parts: nat
    var sub: bool
    var invalid: bool

    constructor ()
      ensures Value() == NoName
    {
      host, service, proto, domain := [], [], [], [];
      parts, sub, invalid := 0, false, false;
    }

    function Value(): Name
      reads this
    {
      Name(host, service, proto, domain, parts, sub, invalid)
    }

    method CheckParts()
      modifies this`invalid
      ensures Value() == CheckFull(old(Value()))
    {
      if parts == 4 {
        invalid := true;
      }
    }

    // Stores a label in the next field, joins it to the host name, or takes it for the subtype marker.
    method Take(text: seq<byte>)
      requires Value().Fits() && |text| < FIELD && (parts == 4 ==> invalid)
      modifies this
      ensures Value() == TakeText(old(Value()), text) && Value().Fits()
    {
      if parts == 1 && (text == [] || text[0] != UNDERSCORE)
         && !SameText(text, LOCAL) && !SameText(text, ARPA) && !SameText(text, IP6) && !SameText(text, IN_ADDR) {
        host := Concat(host, [DOT]);
        host := Concat(host, text);
      } else if SameText(text, SUB) {
        sub := true;
      } else if !invalid {
        Store(text);
      }
    }

    method Store(text: seq<byte>)
      requires Value().Fits() && |text| < FIELD && parts < 4
      modifies this
      ensures Value() == old(Value()).Stored(text) && Value().Fits()
    {
      if parts == 0 {
        host := text;
      } else if parts == 1 {
        service := text;
      } else if parts == 2 {
        proto := text;
      } else {
        domain := text;
      }
      parts := parts + 1;
    }

    // Puts the parts of a three- or two-part name where they belong.
    method Arrange()
      modifies this
      ensures Value() == Arranged(old(Value()))
    {
      if parts != 0 && !invalid {
        if parts == 3 {
          host, service, proto, domain := [], host, service, proto;
        } else if parts == 2 {
          domain, service, proto := service, [], [];
        }
        if !SameText(domain, LOCAL) && !SameText(domain, ARPA) {
          invalid := true;
        }
      }
    }
  }

  // ---- Reading names ----

  // Copies a label to the scratch buffer, terminates it, and returns it as a C string.
  method CopyLabel(buf: array<byte>, limit: nat, pos: nat, n: nat, scratch: array<byte>)
    returns (text: Option<seq<byte>>)
    requires pos <= limit < buf.Length && n < FIELD - 1 && scratch.Length == FIELD && scratch != buf
    modifies scratch
    ensures text.Some? <==> pos + n <= limit
    ensures text.Some? ==> text.value == CString(buf[pos..pos + n])
  {
    var i := 0;
    while i < n
      invariant 0 <= i <= n && pos + i <= limit
      invariant buf[..] == old(buf[..]) && scratch[..i] == buf[pos..pos + i]
    {
      if pos + i >= limit {
        return None;
      }
      scratch[i] := buf[pos + i];
      i := i + 1;
    }
    scratch[n] := 0;
    assert scratch[..n] == buf[pos..pos + n];
    var s := TextOf(scratch, n);
    text := Some(s);
  }

  // The C string in a buffer terminated at n or before.
  method TextOf(scratch: array<byte>, n: nat) returns (s: seq<byte>)
    requires n < scratch.Length && scratch[n] == 0
    ensures s == CString(scratch[..n])
  {
    var i := 0;
    while scratch[i] != 0
      invariant 0 <= i <= n && forall j :: 0 <= j < i ==> scratch[j] != 0
      decreases n - i
    {
      i := i + 1;
    }
    s := scratch[..i];
    CStringPrefix(scratch[..n], i);
  }

  lemma {:induction false} CStringPrefix(s: seq<byte>, i: nat)
    requires i <= |s| && (forall j :: 0 <= j < i ==> s[j] != 0) && (i < |s| ==> s[i] == 0)
    ensures CString(s) == s[..i]
  {
    if i > 0 {
      CStringPrefix(s[1..], i - 1);
      assert [s[0]] + s[1..][..i - 1] == s[..i];
    }
  }

  /** Reads the name at start into out. Gives the offset of the data behind it, or nothing. */
  method ReadFqdn(buf: array<byte>, limit: nat, start: nat, out: ParsedName, scratch: array<byte>)
    returns (next: Option<nat>)
    requires limit < buf.Length && scratch.Length == FIELD && scratch != buf && out.Value().Fits()
    modifies out, scratch
    ensures out.Value().Fits() && Reads(buf[..], limit, start, old(out.Value()), next, out.Value())
    decreases start, 1
  {
    ghost var b := buf[..];
    ghost var whole := ScanFrom(b, limit, start, start);
    var pos := start;
    while pos < limit && buf[pos] != 0
      invariant buf[..] == b && out.Value().Fits()
      invariant Remains(b, limit, start, pos, old(out.Value()), out.Value(), whole)
      decreases if pos < limit then limit - pos else 0
    {
      if buf[pos] < 0xC0 {
        next := ReadLabel(buf, limit, start, pos, out, scratch, old(out.Value()), whole);
        if next.None? {
          return;
        }
        pos := next.value;
      } else {
        next := FollowPointer(buf, limit, start, pos, out, scratch, old(out.Value()), whole);
        return;
      }
    }
    next := Some(pos + 1);
  }

  // The result of reading: an offset exactly when the scan succeeds, and then the name it spells.
  ghost predicate Reads(b: seq<byte>, limit: nat, start: nat, first: Name, next: Option<nat>, now: Name)
    requires limit < |b|
  {
    var r := ScanFrom(b, limit, start, start);
    (next.Some? <==> r.ok) && (r.ok ==> next.value == r.next && now == Fold(first, r.tokens))
  }

  method ReadLabel(buf: array<byte>, limit: nat, start: nat, pos: nat, out: ParsedName, scratch: array<byte>,
                   ghost first: Name, ghost whole: Scan) returns (after: Option<nat>)
    requires pos < limit < buf.Length && scratch.Length == FIELD && scratch != buf && out.Value().Fits()
    requires 0 < buf[pos] < 0xC0 && Remains(buf[..], limit, start, pos, first, out.Value(), whole)
    modifies out, scratch
    ensures buf[..] == old(buf[..]) && out.Value().Fits()
    ensures after.None? ==> !whole.ok
    ensures after.Some? ==> pos < after.value && Remains(buf[..], limit, start, after.value, first, out.Value(), whole)
  {
    ghost var before := out.Value();
    ghost var b := buf[..];
    out.CheckParts();
    var len := buf[pos];
    if len > MAX_LABEL {
      return None;
    }
    var text := CopyLabel(buf, limit, pos + 1, len, scratch);
    if text.None? {
      return None;
    }
    assert b[pos + 1..pos + 1 + len] == buf[pos + 1..pos + 1 + len];
    out.Take(text.value);
    LabelStep(b, limit, start, pos, first, before, whole);
    after := Some(pos + 1 + len);
  }

  method FollowPointer(buf: array<byte>, limit: nat, start: nat, pos: nat, out: ParsedName, scratch: array<byte>,
                       ghost first: Name, ghost whole: Scan) returns (next: Option<nat>)
    requires pos < limit < buf.Length && scratch.Length == FIELD && scratch != buf && out.Value().Fits()
    requires buf[pos] >= 0xC0 && Remains(buf[..], limit, start, pos, first, out.Value(), whole)
    modifies out, scratch
    ensures out.Value().Fits()
    ensures (next.Some? <==> whole.ok)
      && (whole.ok ==> next.value == whole.next && out.Value() == Fold(first, whole.tokens))
    decreases start, 0
  {
    ghost var before := out.Value();
    ghost var b := buf[..];
    out.CheckParts();
    var target: nat := (buf[pos] as int - 0xC0) * 256 + buf[pos + 1] as int;
    if target >= start {
      return None;
    }
    next := ReadFqdn(buf, limit, target, out, scratch);
    PointerFollowed(b, limit, start, pos, first, before, whole, next, out.Value());
    return if next.Some? then Some(pos + 2) else None;
  }

  // What is left to read from pos on completes the whole, starting from the fields as they are.
  ghost predicate Remains(b: seq<byte>, limit: nat, start: nat, pos: nat, first: Name, now: Name, whole: Scan)
    requires limit < |b|
  {
    var rest := ScanFrom(b, limit, start, pos);
    whole.ok == rest.ok && (rest.ok ==> whole.next == rest.next && Fold(first, whole.tokens) == Fold(now, rest.tokens))
  }

  lemma LabelStep(b: seq<byte>, limit: nat, start: nat, pos: nat, first: Name, now: Name, whole: Scan)
    requires pos < limit < |b| && 0 < b[pos] <= MAX_LABEL && pos + 1 + b[pos] <= limit
    requires Remains(b, limit, start, pos, first, now, whole)
    ensures Remains(b, limit, start, pos + 1 + b[pos], first,
      TakeText(CheckFull(now), CString(b[pos + 1..pos + 1 + b[pos]])), whole)
  {
    var l := Label(b[pos + 1..pos + 1 + b[pos]]);
    var rest := ScanFrom(b, limit, start, pos + 1 + b[pos]);
    assert ([l] + rest.tokens)[1..] == rest.tokens;
  }

  lemma HopStep(b: seq<byte>, limit: nat, start: nat, pos: nat, first: Name, now: Name, whole: Scan)
    requires pos < limit < |b| && b[pos] >= 0xC0
    requires Remains(b, limit, start, pos, first, now, whole)
    requires Target(b, pos) < start
    ensures var target := Target(b, pos);
            var rest := ScanFrom(b, limit, target, target);
      whole.ok == rest.ok && (rest.ok ==>
        whole.next == pos + 2 && Fold(first, whole.tokens) == Fold(CheckFull(now), rest.tokens))
  {
    var target := Target(b, pos);
    var rest := ScanFrom(b, limit, target, target);
    assert ([Hop] + rest.tokens)[1..] == rest.tokens;
  }

  // What was read from where the pointer leads completes the whole.
  lemma PointerFollowed(b: seq<byte>, limit: nat, start: nat, pos: nat, first: Name, before: Name, whole: Scan,
      next: Option<nat>, now: Name)
    requires pos < limit < |b| && b[pos] >= 0xC0 && Target(b, pos) < start
    requires Remains(b, limit, start, pos, first, before, whole)
    requires Reads(b, limit, Target(b, pos), CheckFull(before), next, now)
    ensures (next.Some? <==> whole.ok) && (whole.ok ==> whole.next == pos + 2 && now == Fold(first, whole.tokens))
  {
    HopStep(b, limit, start, pos, first, before, whole);
  }

  /** Reads the name at start as the packet parser does. */
  method ParseFqdn(buf: array<byte>, limit: nat, start: nat) returns (next: Option<nat>, out: ParsedName)
    requires limit < buf.Length
    ensures var r := ScanFrom(buf[..], limit, start, start);
      && (next.Some? <==> r.ok)
      && (r.ok ==> next.value == r.next && out.Value() == Arranged(Fold(NoName, r.tokens)))
  {
    out := new ParsedName();
    var scratch := new byte[FIELD];
    next := ReadFqdn(buf, limit, start, out, scratch);
    if next.Some? {
      out.Arrange();
    }
  }

  // ---- Parsing TXT data ----

  // The counting pass. Nothing when a part runs over the end.
  method CountTxtItems(data: seq<byte>) returns (n: Option<nat>)
    ensures n == Count(data)
  {
    if |data| == 1 {
      return Some(0);
    }
    var i, items := 0, 0;
    while i < |data|
      invariant 0 <= i <= |data|
      invariant PartCount(data, 0) == (var rest := PartCount(data, i); if rest.None? then None
        else Some(items + rest.value))
    {
      var part := data[i];
      if part == 0 {
        break;
      }
      if i + 1 + part > |data| {
        return None;
      }
      i := i + 1 + part;
      items := items + 1;
    }
    n := Some(items);
  }

  // Offset of the first "=", or the length of the part; nothing when the part starts with "=".
  method TxtKeyLen(part: seq<byte>) returns (n: Option<nat>)
    requires part != []
    ensures n == if part[0] == EQUALS then None else Some(KeyLen(part))
  {
    if part[0] == EQUALS {
      return None;
    }
    var i := 0;
    while i < |part|
      invariant 0 <= i <= |part| && KeyLen(part) == i + KeyLen(part[i..])
    {
      if part[i] == EQUALS {
        return Some(i);
      }
      assert part[i..][1..] == part[i + 1..];
      i := i + 1;
    }
    n := Some(|part|);
  }

  function ValueLen(e: Entry): nat
  {
    if e.value.Some? then |e.value.value| else 0
  }

  // Lengths of values stored beside the items.
  ghost predicate LengthsStored(txt: seq<Entry>, lens: seq<nat>)
  {
    |txt| == |lens| && forall k :: 0 <= k < |txt| ==> lens[k] == ValueLen(txt[k])
  }

  // Both passes: the first sizes the two arrays the second fills. The model stops where the
  // second would write beyond their ends.
  method CreateTxtItems(data: seq<byte>)
    returns (txt: array<Entry>, valueLen: array<nat>, n: nat, overrun: bool)
    ensures overrun <==> Overruns(data)
    ensures txt.Length == valueLen.Length == if Count(data).Some? then Count(data).value else 0
    ensures !overrun ==>
      n <= txt.Length && txt[..n] == Decode(data) && LengthsStored(txt[..n], valueLen[..n])
  {
    var items := CountTxtItems(data);
    var size := if items.Some? then items.value else 0;
    txt, valueLen, n, overrun := new Entry[size](_ => Entry([], None)), new nat[size](_ => 0), 0, false;
    if size == 0 {
      NothingCounted(data);
      return;
    }
    var i: nat := 0;
    FillStart(data);
    while i < |data|
      invariant n <= size && FillRest(data, i, txt[..n]) && LengthsStored(txt[..n], valueLen[..n])
      decreases |data| - i
    {
      var len := data[i];
      if len == 0 {
        break;
      }
      if i + 1 + len > |data| {
        FillError(data, i, txt[..n]);
        n := 0;
        return;
      }
      i, n, overrun := FillPart(data, i, txt, valueLen, n);
      if overrun {
        return;
      }
    }
    FillEnd(data, i, txt[..n]);
  }

  // One part: passed over when it has no key, otherwise stored if there is room.
  method FillPart(data: seq<byte>, i: nat, txt: array<Entry>, valueLen: array<nat>, n: nat)
    returns (next: nat, n': nat, overrun: bool)
    requires Count(data) == Some(txt.Length) && n <= txt.Length == valueLen.Length
    requires i < |data| && 0 < data[i] <= |data| - i - 1
    requires FillRest(data, i, txt[..n]) && LengthsStored(txt[..n], valueLen[..n])
    modifies txt, valueLen
    ensures i < next && n' <= txt.Length
    ensures overrun ==> Overruns(data)
    ensures !overrun ==> FillRest(data, next, txt[..n']) && LengthsStored(txt[..n'], valueLen[..n'])
  {
    ghost var items, lens := txt[..n], valueLen[..n];
    next, n', overrun := i + 1 + data[i], n, false;
    var part := data[i + 1..next];
    var key := TxtKeyLen(part);
    if key.None? {
      FillSkip(data, i, items);
    } else if n == txt.Length {
      FillOverrun(data, i, items);
      overrun := true;
    } else {
      FillStep(data, i, items);
      StoredMore(items, lens, Parsed(part));
      var moved := StoreItem(txt, valueLen, n, part, key.value);
      next, n' := i + 1 + moved, n + 1;
    }
  }

  lemma StoredMore(items: seq<Entry>, lens: seq<nat>, e: Entry)
    requires LengthsStored(items, lens)
    ensures LengthsStored(items + [e], lens + [ValueLen(e)])
  {
  }

  // Key and value of one part, and how far the filling pass moves on behind its length byte.
  method StoreItem(txt: array<Entry>, valueLen: array<nat>, n: nat, part: seq<byte>, keyLen: nat) returns (moved: nat)
    requires n < txt.Length == valueLen.Length && keyLen == KeyLen(part)
    modifies txt, valueLen
    ensures txt[..n + 1] == old(txt[..n]) + [Parsed(part)]
    ensures valueLen[..n + 1] == old(valueLen[..n]) + [ValueLen(Parsed(part))]
    ensures moved == if keyLen < |part| then |part| else |part| + 1
  {
    var value := if |part| as int - keyLen - 1 > 0 then Some(part[keyLen + 1..]) else None;
    txt[n] := Entry(part[..keyLen], value);
    valueLen[n] := if value.Some? then |part| - keyLen - 1 else 0;
    moved := keyLen + 1 + if value.Some? then |part| - keyLen - 1 else 0;
  }

  // Where the filling pass stands: the items so far, and what is left from i on.
  ghost predicate FillRest(data: seq<byte>, i: nat, items: seq<Entry>)
  {
    var rest := Fill(data, i);
    && Fill(data, 0) == (if rest.None? then None else Some(items + rest.value))
    && Started(data, 0) == |items| + Started(data, i)
  }

  lemma FillStart(data: seq<byte>)
    ensures FillRest(data, 0, [])
  {
    assert Fill(data, 0).Some? ==> [] + Fill(data, 0).value == Fill(data, 0).value;
  }

  lemma FillEnd(data: seq<byte>, i: nat, items: seq<Entry>)
    requires FillRest(data, i, items) && (i >= |data| || data[i] == 0)
    requires Count(data).Some? && Count(data).value > 0 && |items| <= Count(data).value
    ensures Decode(data) == items && !Overruns(data)
  {
    assert items + [] == items;
  }

  lemma FillError(data: seq<byte>, i: nat, items: seq<Entry>)
    requires FillRest(data, i, items) && i < |data| && i + 1 + data[i] > |data| && data[i] != 0
    requires Count(data).Some? && Count(data).value > 0 && |items| <= Count(data).value
    ensures Decode(data) == [] && !Overruns(data)
  {
  }

  lemma FillOverrun(data: seq<byte>, i: nat, items: seq<Entry>)
    requires FillRest(data, i, items) && i < |data| && 0 < data[i] <= |data| - i - 1 && data[i + 1] != EQUALS
    requires Count(data) == Some(|items|)
    ensures Overruns(data)
  {
    assert data[i + 1..i + 1 + data[i]][0] != EQUALS;
  }

  lemma NothingCounted(data: seq<byte>)
    requires Count(data).None? || Count(data).value == 0
    ensures !Overruns(data) && Decode(data) == []
  {
  }

  lemma FillSkip(data: seq<byte>, i: nat, items: seq<Entry>)
    requires i < |data| && 0 < data[i] <= |data| - i - 1 && data[i + 1] == EQUALS && FillRest(data, i, items)
    ensures FillRest(data, i + 1 + data[i], items)
  {
    assert data[i + 1..i + 1 + data[i]][0] == EQUALS;
  }

  lemma FillStep(data: seq<byte>, i: nat, items: seq<Entry>)
    requires i < |data| && data[i] != 0 && i + 1 + data[i] <= |data|
    requires data[i + 1] != EQUALS && FillRest(data, i, items)
    ensures var part := data[i + 1..i + 1 + data[i]];
      FillRest(data, Behind(part, i + 1 + data[i]), items + [Parsed(part)])
  {
    var part := data[i + 1..i + 1 + data[i]];
    var rest := Fill(data, Behind(part, i + 1 + data[i]));
    if rest.Some? {
      assert items + ([Parsed(part)] + rest.value) == items + [Parsed(part)] + rest.value;
    }
  }

  // ---- Writing ----

  class Packet {
    const buf: array<byte>
    var index: nat

    ghost predicate Valid()
      reads this
    {
      buf.Length == BUFFER && index <= MAX_PACKET
    }

    // What an operation leaves behind and returns.
    ghost function Now(moved: nat): Written
      reads this, buf
    {
      Written(buf[..], index, moved)
    }

    constructor ()
      ensures Valid() && fresh(buf) && index == 0
    {
      buf := new byte[BUFFER](_ => 0);
      index := 0;
    }

    method AppendU8(v: byte) returns (moved: nat)
      requires Valid()
      modifies this`index, buf
      ensures Valid()
      ensures if old(index) >= MAX_PACKET then Now(moved) == old(Now(0))
              else moved == 1 && index == old(index) + 1 && buf[..] == Put(old(buf[..]), old(index), [v])
    {
      if index >= MAX_PACKET {
        return 0;
      }
      buf[index] := v;
      index := index + 1;
      return 1;
    }

    method AppendU16(v: nat) returns (moved: nat)
      requires Valid()
      modifies this`index, buf
      ensures Valid()
      ensures if old(index) + 1 >= MAX_PACKET then Now(moved) == old(Now(0))
              else moved == 2 && index == old(index) + 2 && buf[..] == Put(old(buf[..]), old(index), U16Bytes(v))
    {
      if index + 1 >= MAX_PACKET {
        return 0;
      }
      var first := AppendU8(v / 256 % 256);
      var second := AppendU8(v % 256);
      return 2;
    }

    method AppendU32(v: nat) returns (moved: nat)
      requires Valid()
      modifies this`index, buf
      ensures Valid()
      ensures if old(index) + 3 >= MAX_PACKET then Now(moved) == old(Now(0))
              else moved == 4 && index == old(index) + 4 && buf[..] == Put(old(buf[..]), old(index), U32Bytes(v))
    {
      if index + 3 >= MAX_PACKET {
        return 0;
      }
      ghost var b, i := buf[..], index;
      var high := AppendU16(v / 0x10000);
      var low := AppendU16(v);
      PutTwice(b, i, U16Bytes(v / 0x10000), U16Bytes(v));
      return 4;
    }

    // Writes a sixteen-bit value at an offset, or nothing when it does not fit there.
    method SetU16(at: nat, v: nat)
      requires Valid()
      modifies buf
      ensures if at + 1 >= MAX_PACKET then buf[..] == old(buf[..]) else buf[..] == Put(old(buf[..]), at, U16Bytes(v))
    {
      if at + 1 < MAX_PACKET {
        buf[at] := v / 256 % 256;
        buf[at + 1] := v % 256;
      }
    }

    // Copies bytes behind the index, for which there must be room.
    method CopyIn(bytes: seq<byte>)
      requires Valid() && index + |bytes| <= MAX_PACKET
      modifies this`index, buf
      ensures Valid() && index == old(index) + |bytes| && buf[..] == Put(old(buf[..]), old(index), bytes)
    {
      var i := 0;
      while i < |bytes|
        invariant 0 <= i <= |bytes| && index == old(index)
        invariant forall j :: 0 <= j < BUFFER ==>
          buf[j] == if index <= j < index + i then bytes[j - index] else old(buf[j])
      {
        buf[index + i] := bytes[i];
        i := i + 1;
      }
      index := index + |bytes|;
    }

    // A length byte and the string behind it.
    method AppendString(s: seq<byte>) returns (moved: nat)
      requires Valid() && |s| < 255
      modifies this`index, buf
      ensures Valid()
      ensures if old(index) + |s| + 1 >= MAX_PACKET then Now(moved) == old(Now(0))
              else && moved == |s| + 1 && index == old(index) + |s| + 1
                   && buf[..] == Put(old(buf[..]), old(index), LabelBytes(s))
    {
      if index + |s| + 1 >= MAX_PACKET {
        return 0;
      }
      ghost var b, i := buf[..], index;
      var one := AppendU8(|s|);
      CopyIn(s);
      PutTwice(b, i, [|s|], s);
      return |s| + 1;
    }

    // Whether the name at k is the strings, as far as the packet goes.
    method TryMatch(k: nat, strings: seq<seq<byte>>) returns (same: bool)
      requires Valid() && k < index && strings != [] && Writable(strings)
      ensures same == Matches(buf[..], k, strings)
    {
      var n := |strings[0]|;
      if buf[k] != n || k + 1 + n > buf.Length || buf[k + 1..k + 1 + n] != strings[0] {
        return false;
      }
      var name := new ParsedName();
      var scratch := new byte[FIELD];
      var next := ReadFqdn(buf, MAX_PACKET, k, name, scratch);
      if next.None? || name.parts != |strings| {
        return false;
      }
      same := SameFields(name, strings);
    }

    method SameFields(name: ParsedName, strings: seq<seq<byte>>) returns (same: bool)
      ensures same <==> forall j :: 0 <= j < |strings| ==> SameText(strings[j], name.Value().Field(j))
    {
      var i := 0;
      while i < |strings|
        invariant 0 <= i <= |strings| && forall j :: 0 <= j < i ==> SameText(strings[j], name.Value().Field(j))
      {
        if !SameText(strings[i], name.Value().Field(i)) {
          return false;
        }
        i := i + 1;
      }
      return true;
    }

    // The first place below the index where the strings are found.
    method FindMatch(strings: seq<seq<byte>>) returns (found: Option<nat>)
      requires Valid() && strings != [] && Writable(strings)
      ensures found == FindFrom(buf[..], index, strings, 0)
    {
      var k := 0;
      while k < index
        invariant 0 <= k <= index && FindFrom(buf[..], index, strings, 0) == FindFrom(buf[..], index, strings, k)
      {
        var same := TryMatch(k, strings);
        if same {
          return Some(k);
        }
        k := k + 1;
      }
      return None;
    }

    method AppendFqdn(strings: seq<seq<byte>>) returns (moved: nat)
      requires Valid() && Writable(strings)
      modifies this`index, buf
      ensures Valid()
      ensures var a := AppendName(old(buf[..]), old(index), strings);
        buf[..] == a.buf && index == a.index && moved == a.moved
      decreases |strings|, 1
    {
      if strings == [] {
        moved := AppendU8(0);
        return;
      }
      var found := FindMatch(strings);
      if found.Some? {
        PointerIs(found.value);
        moved := AppendU16(0xC000 + found.value);
      } else {
        moved := AppendRest(strings);
      }
    }

    // The first label, for which there is no match, and what follows it.
    method AppendRest(strings: seq<seq<byte>>) returns (moved: nat)
      requires Valid() && Writable(strings) && strings != [] && FindFrom(buf[..], index, strings, 0).None?
      modifies this`index, buf
      ensures Valid()
      ensures var a := AppendName(old(buf[..]), old(index), strings);
        buf[..] == a.buf && index == a.index && moved == a.moved
      decreases |strings|, 0
    {
      ghost var b, i := buf[..], index;
      var written := AppendString(strings[0]);
      if written == 0 {
        LabelRefused(b, i, strings);
        return 0;
      }
      ghost var next, after := buf[..], index;
      assert next == Put(b, i, LabelBytes(strings[0])) && after == i + |strings[0]| + 1;
      NameRoundTrip.WritableSplit(strings);
      var rest := AppendFqdn(strings[1..]);
      moved := written + rest;
      LabelThen(b, i, strings, next, AppendName(next, after, strings[1..]));
    }

    // ---- Records ----

    method AppendType(kind: Kind, flush: bool, ttl: nat) returns (moved: nat)
      requires Valid()
      modifies this`index, buf
      ensures Valid()
      ensures if old(index) + 10 >= MAX_PACKET then Now(moved) == old(Now(0))
              else && moved == 10 && index == old(index) + 10
                   && buf[..] == Put(old(buf[..]), old(index), HeaderBytes(kind, flush, ttl))
    {
      if index + 10 >= MAX_PACKET {
        return 0;
      }
      ghost var b, i := buf[..], index;
      var class_ := if flush then CLASS_IN_FLUSH else CLASS_IN;
      var m := AppendTwo(kind.Code(), class_);
      var n := AppendTtlAndLength(ttl);
      PutTwice(b, i, U16Bytes(kind.Code()) + U16Bytes(class_), U32Bytes(ttl) + U16Bytes(0));
      assert U16Bytes(kind.Code()) + U16Bytes(class_) + (U32Bytes(ttl) + U16Bytes(0)) == HeaderBytes(kind, flush, ttl);
      return 10;
    }

    method AppendTwo(v: nat, w: nat) returns (moved: nat)
      requires Valid() && index + 4 < MAX_PACKET
      modifies this`index, buf
      ensures Valid() && index == old(index) + 4 && buf[..] == Put(old(buf[..]), old(index), U16Bytes(v) + U16Bytes(w))
    {
      ghost var b, i := buf[..], index;
      var first := AppendU16(v);
      var second := AppendU16(w);
      PutTwice(b, i, U16Bytes(v), U16Bytes(w));
      return 4;
    }

    method AppendTtlAndLength(ttl: nat) returns (moved: nat)
      requires Valid() && index + 6 < MAX_PACKET
      modifies this`index, buf
      ensures Valid() && index == old(index) + 6
        && buf[..] == Put(old(buf[..]), old(index), U32Bytes(ttl) + U16Bytes(0))
    {
      ghost var b, i := buf[..], index;
      var first := AppendU32(ttl);
      var second := AppendU16(0);
      PutTwice(b, i, U32Bytes(ttl), U16Bytes(0));
      return 6;
    }

    // Owner and header of a record.
    method BeginRecord(owner: seq<seq<byte>>, kind: Kind, flush: bool, ttl: nat) returns (moved: nat)
      requires Valid() && Writable(owner)
      modifies this`index, buf
      ensures Valid() && Now(moved) == Headed(old(buf[..]), old(index), owner, kind, flush, ttl)
    {
      var name := AppendFqdn(owner);
      if name % 256 == 0 {
        return 0;
      }
      var header := AppendType(kind, flush, ttl);
      if header == 0 {
        return 0;
      }
      return name % 256 + header;
    }

    // The length field of the record whose header ends at data.
    method FinishRecord(data: nat, length: nat)
      requires Valid() && 2 <= data <= MAX_PACKET
      modifies buf
      ensures buf[..] == Put(old(buf[..]), data - 2, U16Bytes(length))
    {
      SetU16(data - 2, length);
    }

    // Owner, header and data, and then the length of the data.
    method AppendRecord(owner: seq<seq<byte>>, kind: Kind, flush: bool, ttl: nat, d: Data) returns (moved: nat)
      requires Valid() && Writable(owner) && DataWritable(d) && (d.RawData? ==> d.bytes != [])
      modifies this`index, buf
      ensures Valid() && Now(moved) == Record(old(buf[..]), old(index), owner, kind, flush, ttl, d)
    {
      moved := BeginRecord(owner, kind, flush, ttl);
      if moved != 0 {
        moved := CompleteRecord(moved, d);
      }
    }

    // Data behind the header, and then their length.
    method CompleteRecord(start: nat, d: Data) returns (moved: nat)
      requires Valid() && 10 <= index < MAX_PACKET && DataWritable(d) && (d.RawData? ==> d.bytes != [])
      modifies this`index, buf
      ensures Valid() && Now(moved) == Completed(old(Now(start)), d)
    {
      var data := index;
      var length := AppendData(d);
      if length == 0 {
        return 0;
      }
      FinishRecord(data, length);
      return start + length;
    }

    method AppendData(d: Data) returns (length: nat)
      requires Valid() && index < MAX_PACKET && DataWritable(d) && (d.RawData? ==> d.bytes != [])
      modifies this`index, buf
      ensures Valid() && Now(length) == WriteData(old(buf[..]), old(index), d)
    {
      match d {
        case NameData(name) =>
          var part := AppendFqdn(name);
          length := part % 256;
        case ServerData(priority, weight, port, host) => length := AppendSrvData(priority, weight, port, host);
        case TextData(entries) => length := AppendTxtData(entries);
        case RawData(bytes) => length := AppendAddress(bytes);
      }
    }

    method AppendPtrRecord(instance: seq<byte>, service: seq<byte>, proto: seq<byte>, bye: bool) returns (moved: nat)
      requires Valid() && Writable([instance, service, proto, LOCAL]) && Writable([service, proto, LOCAL])
      modifies this`index, buf
      ensures Valid()
      ensures Now(moved) == Record(old(buf[..]), old(index), [service, proto, LOCAL], Ptr, false,
        if bye then 0 else 4500, NameData([instance, service, proto, LOCAL]))
    {
      moved := AppendRecord([service, proto, LOCAL], Ptr, false,
        if bye then 0 else 4500, NameData([instance, service, proto, LOCAL]));
    }

    // One "key=value" or "key" entry.
    method AppendTxtEntry(e: Entry) returns (moved: nat)
      requires Valid()
      modifies this`index, buf
      ensures Valid()
      ensures var n := |EntryBytes(e)|;
        if old(index) + n >= MAX_PACKET then Now(moved) == old(Now(0))
        else moved == n && index == old(index) + n && buf[..] == Put(old(buf[..]), old(index), EntryBytes(e))
    {
      var len := |e.key| + if e.value.Some? then |e.value.value| + 1 else 0;
      if index + len + 1 >= MAX_PACKET {
        return 0;
      }
      ghost var b, i := buf[..], index;
      AppendKey(len % 256, e.key);
      if e.value.Some? {
        ghost var before := [len % 256] + e.key;
        CopyValue(e.value.value);
        PutTwice(b, i, before, [EQUALS] + e.value.value);
        assert before + ([EQUALS] + e.value.value) == EntryBytes(e);
      }
      return len + 1;
    }

    method AppendKey(len: byte, key: seq<byte>)
      requires Valid() && index + |key| + 1 <= MAX_PACKET
      modifies this`index, buf
      ensures Valid() && index == old(index) + |key| + 1 && buf[..] == Put(old(buf[..]), old(index), [len] + key)
    {
      ghost var b, i := buf[..], index;
      var one := AppendU8(len);
      CopyIn(key);
      PutTwice(b, i, [len], key);
    }

    method CopyValue(value: seq<byte>)
      requires Valid() && index + |value| + 1 <= MAX_PACKET
      modifies this`index, buf
      ensures Valid() && index == old(index) + |value| + 1 && buf[..] == Put(old(buf[..]), old(index), [EQUALS] + value)
    {
      ghost var b, i := buf[..], index;
      CopyIn([EQUALS]);
      CopyIn(value);
      PutTwice(b, i, [EQUALS], value);
    }

    // All entries; nothing when one does not fit.
    method AppendTxtEntries(entries: seq<Entry>) returns (total: Option<nat>)
      requires Valid()
      modifies this`index, buf
      ensures Valid()
      ensures var w := WriteEntries(old(buf[..]), old(index), entries);
        buf[..] == w.buf && index == w.index && (total.Some? <==> w.moved != 0)
        && (total.Some? ==> index == old(index) + total.value)
    {
      ghost var goal := WriteEntries(buf[..], index, entries);
      var i, sum := 0, 0;
      assert entries[0..] == entries;
      while i < |entries|
        invariant Valid() && index == old(index) + sum && EntriesLeft(buf[..], index, entries, i, goal)
      {
        var one := AppendNextEntry(entries, i, goal);
        if one == 0 {
          return None;
        }
        sum := sum + one;
        i := i + 1;
      }
      EntriesDone(buf[..], index, entries, goal);
      total := Some(sum);
    }

    method AppendNextEntry(entries: seq<Entry>, i: nat, ghost goal: Written) returns (moved: nat)
      requires Valid() && i < |entries| && EntriesLeft(buf[..], index, entries, i, goal)
      modifies this`index, buf
      ensures Valid()
      ensures if moved == 0 then goal == Written(buf[..], index, 0)
              else index == old(index) + moved && EntriesLeft(buf[..], index, entries, i + 1, goal)
    {
      ghost var b, at := buf[..], index;
      moved := AppendTxtEntry(entries[i]);
      EntryDone(b, at, entries, i, goal, buf[..], index, moved);
    }

    method AppendTxtRecord(instance: Option<seq<byte>>, service: seq<byte>, proto: seq<byte>, entries: seq<Entry>,
        flush: bool, bye: bool)
      returns (moved: nat)
      requires Valid() && (instance.Some? ==> Writable([instance.value, service, proto, LOCAL]))
      modifies this`index, buf
      ensures Valid()
      ensures if instance.None? then Now(moved) == old(Now(0))
              else Now(moved) == Record(old(buf[..]), old(index), [instance.value, service, proto, LOCAL], Txt, flush,
                                        if bye then 0 else 4500, TextData(entries))
    {
      if instance.None? {
        return 0;
      }
      moved := AppendRecord([instance.value, service, proto, LOCAL], Txt, flush,
        if bye then 0 else 4500, TextData(entries));
    }

    method AppendTxtData(entries: seq<Entry>) returns (length: nat)
      requires Valid() && index < MAX_PACKET
      modifies this`index, buf
      ensures Valid() && Now(length) == WriteData(old(buf[..]), old(index), TextData(entries))
    {
      var total := AppendTxtEntries(entries);
      if total.None? {
        return 0;
      }
      length := total.value;
      if length == 0 {
        length := 1;
        buf[index] := 0;
        index := index + 1;
      }
    }

    method AppendSrvRecord(instance: Option<seq<byte>>, service: seq<byte>, proto: seq<byte>,
                           priority: nat, weight: nat, port: nat, host: seq<byte>, flush: bool, bye: bool)
      returns (moved: nat)
      requires Valid() && (instance.Some? ==> Writable([instance.value, service, proto, LOCAL]))
        && Writable([host, LOCAL])
      modifies this`index, buf
      ensures Valid()
      ensures if instance.None? then Now(moved) == old(Now(0))
              else Now(moved) == Record(old(buf[..]), old(index), [instance.value, service, proto, LOCAL], Srv, flush,
                                        if bye then 0 else 120, ServerData(priority, weight, port, host))
    {
      if instance.None? {
        return 0;
      }
      moved := AppendRecord([instance.value, service, proto, LOCAL], Srv, flush, if bye then 0 else 120,
                            ServerData(priority, weight, port, host));
    }

    method AppendSrvData(priority: nat, weight: nat, port: nat, host: seq<byte>) returns (length: nat)
      requires Valid() && index < MAX_PACKET && Writable([host, LOCAL])
      modifies this`index, buf
      ensures Valid() && Now(length) == WriteData(old(buf[..]), old(index), ServerData(priority, weight, port, host))
    {
      var part := AppendU16s([priority, weight, port]);
      if part != 6 || host == [] {
        return 0;
      }
      var name := AppendFqdn([host, LOCAL]);
      if name % 256 == 0 {
        return 0;
      }
      return name % 256 + 6;
    }

    method AppendU16s(values: seq<nat>) returns (moved: nat)
      requires Valid()
      modifies this`index, buf
      ensures Valid() && Now(moved) == WriteU16s(old(buf[..]), old(index), values)
    {
      ghost var goal := WriteU16s(buf[..], index, values);
      moved := 0;
      var i := 0;
      assert values[0..] == values;
      while i < |values|
        invariant Valid() && U16sLeft(buf[..], index, values, i, moved, goal)
      {
        var one := AppendNextU16(values, i, moved, goal);
        moved := moved + one;
        i := i + 1;
      }
      U16sDone(buf[..], index, values, moved, goal);
    }

    method AppendNextU16(values: seq<nat>, i: nat, ghost moved: nat, ghost goal: Written) returns (one: nat)
      requires Valid() && i < |values| && U16sLeft(buf[..], index, values, i, moved, goal)
      modifies this`index, buf
      ensures Valid() && U16sLeft(buf[..], index, values, i + 1, moved + one, goal)
    {
      U16sStep(buf[..], index, values, i, moved, goal);
      one := AppendU16(values[i]);
    }

    // An A or AAAA record: the host's name and the bytes of one address.
    method AppendAddressRecord(kind: Kind, host: seq<byte>, address: seq<byte>, flush: bool, bye: bool)
      returns (moved: nat)
      requires Valid() && Writable([host, LOCAL]) && |address| > 0
      modifies this`index, buf
      ensures Valid()
      ensures if host == [] then Now(moved) == old(Now(0))
              else Now(moved) == Record(old(buf[..]), old(index), [host, LOCAL], kind, flush,
                if bye then 0 else 120, RawData(address))
    {
      if host == [] {
        return 0;
      }
      moved := AppendRecord([host, LOCAL], kind, flush, if bye then 0 else 120, RawData(address));
    }

    method AppendAddress(address: seq<byte>) returns (length: nat)
      requires Valid() && index < MAX_PACKET && |address| > 0
      modifies this`index, buf
      ensures Valid() && Now(length) == WriteData(old(buf[..]), old(index), RawData(address))
    {
      if index + |address| > MAX_PACKET {
        return 0;
      }
      CopyIn(address);
      return |address|;
    }
  }

  lemma LabelRefused(b: seq<byte>, index: nat, strings: seq<seq<byte>>)
    requires |b| == BUFFER && index <= MAX_PACKET && Writable(strings) && strings != []
    requires FindFrom(b, index, strings, 0).None? && index + |strings[0]| + 1 >= MAX_PACKET
    ensures AppendName(b, index, strings) == Appended(b, index, 0, false)
  {
  }

  lemma LabelThen(b: seq<byte>, index: nat, strings: seq<seq<byte>>, next: seq<byte>, rest: Appended)
    requires |b| == BUFFER && Writable(strings) && strings != [] && index + |strings[0]| + 1 < MAX_PACKET
    requires FindFrom(b, index, strings, 0).None? && next == Put(b, index, LabelBytes(strings[0]))
    requires rest == AppendName(next, index + |strings[0]| + 1, strings[1..])
    ensures AppendName(b, index, strings) == rest.(moved := |strings[0]| + 1 + rest.moved)
  {
    NameRoundTrip.AppendLabel(b, index, strings);
  }

  // Writing the entries from i on completes the goal.
  ghost predicate EntriesLeft(b: seq<byte>, index: nat, es: seq<Entry>, i: nat, goal: Written)
    requires |b| == BUFFER && index <= MAX_PACKET
  {
    i <= |es| && WriteEntries(b, index, es[i..]) == goal
  }

  lemma EntriesDone(b: seq<byte>, index: nat, es: seq<Entry>, goal: Written)
    requires |b| == BUFFER && index <= MAX_PACKET && EntriesLeft(b, index, es, |es|, goal)
    ensures goal == Written(b, index, 1)
  {
    assert es[|es|..] == [];
  }

  // One entry is written, or refused.
  lemma EntryDone(b: seq<byte>, index: nat, es: seq<Entry>, i: nat, goal: Written, b': seq<byte>, index': nat,
      moved: nat)
    requires |b| == |b'| == BUFFER && index <= MAX_PACKET && index' <= MAX_PACKET
    requires i < |es| && EntriesLeft(b, index, es, i, goal)
    requires var n := |EntryBytes(es[i])|;
      if index + n >= MAX_PACKET then b' == b && index' == index && moved == 0
      else moved == n && index' == index + n && b' == Put(b, index, EntryBytes(es[i]))
    ensures if moved == 0 then goal == Written(b', index', 0)
            else index' == index + moved && EntriesLeft(b', index', es, i + 1, goal)
  {
    EntriesStep(b, index, es, i, goal);
  }

  lemma EntriesStep(b: seq<byte>, index: nat, es: seq<Entry>, i: nat, goal: Written)
    requires |b| == BUFFER && index <= MAX_PACKET && i < |es| && EntriesLeft(b, index, es, i, goal)
    ensures var n := |EntryBytes(es[i])|;
      if index + n >= MAX_PACKET then goal == Written(b, index, 0)
      else EntriesLeft(Put(b, index, EntryBytes(es[i])), index + n, es, i + 1, goal)
  {
    assert es[i..][0] == es[i] && es[i..][1..] == es[i + 1..];
  }

  ghost predicate U16sLeft(b: seq<byte>, index: nat, values: seq<nat>, i: nat, moved: nat, goal: Written)
    requires |b| == BUFFER && index <= MAX_PACKET
  {
    i <= |values| && var rest := WriteU16s(b, index, values[i..]); goal == rest.(moved := moved + rest.moved)
  }

  lemma U16sDone(b: seq<byte>, index: nat, values: seq<nat>, moved: nat, goal: Written)
    requires |b| == BUFFER && index <= MAX_PACKET && U16sLeft(b, index, values, |values|, moved, goal)
    ensures goal == Written(b, index, moved)
  {
    assert values[|values|..] == [];
  }

  lemma U16sStep(b: seq<byte>, index: nat, values: seq<nat>, i: nat, moved: nat, goal: Written)
    requires |b| == BUFFER && index <= MAX_PACKET && i < |values| && U16sLeft(b, index, values, i, moved, goal)
    ensures if index + 1 >= MAX_PACKET then U16sLeft(b, index, values, i + 1, moved, goal)
            else U16sLeft(Put(b, index, U16Bytes(values[i])), index + 2, values, i + 1, moved + 2, goal)
  {
    assert values[i..][0] == values[i] && values[i..][1..] == values[i + 1..];
  }

  lemma PointerIs(k: nat)
    requires k < MAX_PACKET
    ensures U16Bytes(0xC000 + k) == PointerBytes(k)
  {
  }
}
