/** Resource records as appended to a packet: owner name, ten-byte header, data, and the data
    length filled in afterwards. */
module Records {
  import opened MdnsTypes
  import opened Bytes
  import opened Sequences
  import opened NameCodec
  import opened NameRoundTrip
  import opened NameLimits
  import opened TxtCodec

  datatype Kind = Ptr | Txt | Srv | A | Aaaa
  {
    function Code(): (c: byte)
      ensures c < 0x80
    {
      match this
      case A => 1 case Ptr => 12 case Txt => 16 case Aaaa => 28 case Srv => 33
    }
  }

  // What the data of a record is made of. An empty host stands for one that is not set.
  datatype Data =
    | NameData(name: seq<seq<byte>>)
    | ServerData(priority: nat, weight: nat, port: nat, host: seq<byte>)
    | TextData(entries: seq<Entry>)
    | RawData(bytes: seq<byte>)

  // moved is the value returned: zero stands for a failure, whatever the index did.
  datatype Written = Written(buf: seq<byte>, index: nat, moved: nat)

  function U16Bytes(v: nat): (r: seq<byte>)
    ensures |r| == 2
  {
    [v / 256 % 256, v % 256]
  }

  function U16At(buf: seq<byte>, at: nat): (v: nat)
    requires at + 1 < |buf|
    ensures v < 0x10000
  {
    buf[at] as nat * 256 + buf[at + 1] as nat
  }

  function U32Bytes(v: nat): (r: seq<byte>)
    ensures |r| == 4
  {
    U16Bytes(v / 0x10000) + U16Bytes(v)
  }

  function U32At(buf: seq<byte>, at: nat): (v: nat)
    requires at + 3 < |buf|
  {
    U16At(buf, at) * 0x10000 + U16At(buf, at + 2)
  }

  // Of a number too large for its bytes, the low part reads back.
  lemma U16Wraps(buf: seq<byte>, at: nat, v: nat)
    requires at + 1 < |buf| && buf[at] == U16Bytes(v)[0] && buf[at + 1] == U16Bytes(v)[1]
    ensures U16At(buf, at) == v % 0x10000
  {
  }

  lemma HighAndLow(v: nat)
    ensures v / 0x10000 % 0x10000 * 0x10000 + v % 0x10000 == v % 0x1_0000_0000
  {
  }

  lemma U32Wraps(buf: seq<byte>, at: nat, v: nat)
    requires at + 3 < |buf| && buf[at..at + 4] == U32Bytes(v)
    ensures U32At(buf, at) == v % 0x1_0000_0000
  {
    var hi, lo := U16Bytes(v / 0x10000), U16Bytes(v);
    var b := buf[at..at + 4];
    assert buf[at] == b[0] == hi[0] && buf[at + 1] == b[1] == hi[1];
    assert buf[at + 2] == b[2] == lo[0] && buf[at + 3] == b[3] == lo[1];
    U16Wraps(buf, at, v / 0x10000);
    U16Wraps(buf, at + 2, v);
    HighAndLow(v);
  }

  const CLASS_IN := 0x0001
  const CLASS_IN_FLUSH := 0x8001

  // Type, class, time to live, and a data length of zero.
  function HeaderBytes(kind: Kind, flush: bool, ttl: nat): (r: seq<byte>)
    ensures |r| == 10
  {
    U16Bytes(kind.Code()) + U16Bytes(if flush then CLASS_IN_FLUSH else CLASS_IN) + U32Bytes(ttl) + U16Bytes(0)
  }

  predicate DataWritable(d: Data)
  {
    match d
    case NameData(name) => Writable(name)
    case ServerData(_, _, _, host) => Writable([host, LOCAL])
    case _ => true
  }

  // Sixteen-bit values one after the other, as many as fit.
  function WriteU16s(buf: seq<byte>, index: nat, values: seq<nat>): (r: Written)
    requires |buf| == BUFFER && index <= MAX_PACKET
    ensures |r.buf| == BUFFER && index <= r.index <= MAX_PACKET && r.moved == r.index - index <= 2 * |values|
    ensures r.buf[..index] == buf[..index]
    decreases |values|
  {
    if values == [] || index + 1 >= MAX_PACKET then Written(buf, index, 0)
    else
      PutKeeps(buf, index, U16Bytes(values[0]));
      var rest := WriteU16s(Put(buf, index, U16Bytes(values[0])), index + 2, values[1..]);
      assert rest.buf[..index] == rest.buf[..index + 2][..index];
      rest.(moved := 2 + rest.moved)
  }

  // TXT entries one after the other; an entry that does not fit makes the record fail.
  function WriteEntries(buf: seq<byte>, index: nat, es: seq<Entry>): (r: Written)
    requires |buf| == BUFFER && index <= MAX_PACKET
    ensures |r.buf| == BUFFER && index <= r.index <= MAX_PACKET
    ensures r.buf[..index] == buf[..index]
    decreases |es|
  {
    if es == [] then Written(buf, index, 1)
    else
      var n := |EntryBytes(es[0])|;
      if index + n >= MAX_PACKET then Written(buf, index, 0)
      else
        PutKeeps(buf, index, EntryBytes(es[0]));
        var rest := WriteEntries(Put(buf, index, EntryBytes(es[0])), index + n, es[1..]);
        assert rest.buf[..index] == rest.buf[..index + n][..index];
        rest
  }

  // The length of a name is kept in eight bits.
  function NamePart(a: Appended): nat { a.moved % 256 }

  function WriteData(buf: seq<byte>, index: nat, d: Data): (r: Written)
    requires |buf| == BUFFER && index < MAX_PACKET && DataWritable(d)
    ensures |r.buf| == BUFFER && index <= r.index <= MAX_PACKET
    ensures r.buf[..index] == buf[..index]
  {
    match d
    case NameData(name) =>
      AppendKeeps(buf, index, name);
      var a := AppendName(buf, index, name);
      Written(a.buf, a.index, NamePart(a))
    case ServerData(priority, weight, port, host) =>
      var u := WriteU16s(buf, index, [priority, weight, port]);
      if u.moved != 6 || host == [] then u.(moved := 0)
      else
        AppendKeeps(u.buf, u.index, [host, LOCAL]);
        var a := AppendName(u.buf, u.index, [host, LOCAL]);
        assert a.buf[..index] == a.buf[..u.index][..index];
        Written(a.buf, a.index, if NamePart(a) == 0 then 0 else NamePart(a) + 6)
    case TextData(entries) =>
      var w := WriteEntries(buf, index, entries);
      if w.moved == 0 then w
      else if w.index > index then w.(moved := w.index - index)
      else
        PutKeeps(buf, index, [0]);
        Written(Put(buf, index, [0]), index + 1, 1)
    case RawData(bytes) =>
      if index + |bytes| > MAX_PACKET then Written(buf, index, 0)
      else
        PutKeeps(buf, index, bytes);
        Written(Put(buf, index, bytes), index + |bytes|, |bytes|)
  }

  // Where the header of the record goes, and the buffer with it.
  function Headed(buf: seq<byte>, index: nat, owner: seq<seq<byte>>, kind: Kind, flush: bool, ttl: nat): (r: Written)
    requires |buf| == BUFFER && index <= MAX_PACKET && Writable(owner)
    ensures |r.buf| == BUFFER && index <= r.index <= MAX_PACKET && (r.moved != 0 ==> index + 10 <= r.index < MAX_PACKET)
    ensures r.buf[..index] == buf[..index]
  {
    AppendKeeps(buf, index, owner);
    var o := AppendName(buf, index, owner);
    if NamePart(o) == 0 || o.index + 10 >= MAX_PACKET then Written(o.buf, o.index, 0)
    else
      PutKeeps(o.buf, o.index, HeaderBytes(kind, flush, ttl));
      var out := Put(o.buf, o.index, HeaderBytes(kind, flush, ttl));
      assert out[..index] == out[..o.index][..index];
      Written(out, o.index + 10, NamePart(o) + 10)
  }

  // The data behind a header, and then their length in the last two bytes of the header.
  function Completed(h: Written, d: Data): (r: Written)
    requires |h.buf| == BUFFER && 10 <= h.index < MAX_PACKET && DataWritable(d)
    ensures |r.buf| == BUFFER && h.index <= r.index <= MAX_PACKET
    ensures r.buf[..h.index - 2] == h.buf[..h.index - 2]
  {
    var w := WriteData(h.buf, h.index, d);
    assert w.buf[..h.index - 2] == w.buf[..h.index][..h.index - 2];
    if w.moved == 0 then w
    else
      PutKeeps(w.buf, h.index - 2, U16Bytes(w.moved));
      Written(Put(w.buf, h.index - 2, U16Bytes(w.moved)), w.index, h.moved + w.moved)
  }

  function Record(buf: seq<byte>, index: nat, owner: seq<seq<byte>>, kind: Kind, flush: bool, ttl: nat,
      d: Data): (r: Written)
    requires |buf| == BUFFER && index <= MAX_PACKET && Writable(owner) && DataWritable(d)
    ensures |r.buf| == BUFFER && index <= r.index <= MAX_PACKET
    ensures r.buf[..index] == buf[..index]
  {
    var h := Headed(buf, index, owner, kind, flush, ttl);
    if h.moved == 0 then h
    else
      var r := Completed(h, d);
      assert r.buf[..index] == r.buf[..h.index - 2][..index] == h.buf[..h.index - 2][..index];
      r
  }

  // ---- Lengths ----

  // Names short enough for their lengths to fit eight bits, without empty labels.
  predicate ShortName(name: seq<seq<byte>>)
  {
    Writable(name) && Nonempty(name) && EncodedLen(name) <= 255
  }

  predicate ShortData(d: Data)
  {
    match d
    case NameData(name) => ShortName(name)
    case ServerData(_, _, _, host) => Writable([host, LOCAL]) && (host != [] ==> ShortName([host, LOCAL]))
    case RawData(bytes) => |bytes| < 256
    case TextData(_) => true
  }

  lemma NamePartExact(buf: seq<byte>, index: nat, name: seq<seq<byte>>)
    requires |buf| == BUFFER && index <= MAX_PACKET && ShortName(name)
    ensures var a := AppendName(buf, index, name);
      NamePart(a) == a.index - index
  {
    MovedIsReported(buf, index, name);
    MovedAtMost(buf, index, name);
  }

  lemma {:induction false} EntriesMove(buf: seq<byte>, index: nat, es: seq<Entry>)
    requires |buf| == BUFFER && index <= MAX_PACKET
    ensures var w := WriteEntries(buf, index, es);
      w.moved != 0 ==> w.index == index + |Entries(es)| && w.buf[index..w.index] == Entries(es)
    decreases |es|
  {
    if es != [] {
      var bytes := EntryBytes(es[0]);
      var n := |bytes|;
      if index + n < MAX_PACKET {
        EntriesMoveOne(buf, index, es);
        EntriesMove(Put(buf, index, bytes), index + n, es[1..]);
        var w := WriteEntries(Put(buf, index, bytes), index + n, es[1..]);
        if w.moved != 0 {
          EntriesJoin(w, index, es);
        }
      }
    }
  }

  lemma EntriesJoin(w: Written, index: nat, es: seq<Entry>)
    requires es != [] && w.index <= |w.buf| && w.index == index + |EntryBytes(es[0])| + |Entries(es[1..])|
    requires var after := index + |EntryBytes(es[0])|;
      w.buf[index..after] == EntryBytes(es[0]) && w.buf[after..w.index] == Entries(es[1..])
    ensures w.index == index + |Entries(es)| && w.buf[index..w.index] == Entries(es)
  {
    JoinSlices(w.buf, index, index + |EntryBytes(es[0])|, w.index);
  }

  lemma EntriesMoveOne(buf: seq<byte>, index: nat, es: seq<Entry>)
    requires |buf| == BUFFER && es != [] && index + |EntryBytes(es[0])| < MAX_PACKET
    ensures var n := |EntryBytes(es[0])|;
      WriteEntries(Put(buf, index, EntryBytes(es[0])), index + n, es[1..]).buf[index..index + n] == EntryBytes(es[0])
  {
    var bytes := EntryBytes(es[0]);
    var n := |bytes|;
    PutKeeps(buf, index, bytes);
    var w := WriteEntries(Put(buf, index, bytes), index + n, es[1..]);
    assert w.buf[index..index + n] == w.buf[..index + n][index..];
    assert Put(buf, index, bytes)[..index + n][index..] == bytes;
  }

  // What a completed data section reports is how far the index moved.
  lemma DataMove(buf: seq<byte>, index: nat, d: Data)
    requires |buf| == BUFFER && index < MAX_PACKET && DataWritable(d) && ShortData(d)
    ensures var w := WriteData(buf, index, d);
      w.moved != 0 ==> w.index == index + w.moved && w.moved < 0x10000
  {
    match d {
      case NameData(name) => NamePartExact(buf, index, name);
      case ServerData(priority, weight, port, host) =>
        var u := WriteU16s(buf, index, [priority, weight, port]);
        if u.moved == 6 && host != [] {
          NamePartExact(u.buf, u.index, [host, LOCAL]);
        }
      case _ =>
    }
  }

  // A completed record of the given kind at index, its owner taking n bytes, up to end.
  predicate Layout(buf: seq<byte>, index: nat, n: nat, end: nat, kind: Kind, flush: bool, ttl: nat)
    requires |buf| == BUFFER && index + n + 10 <= end <= MAX_PACKET
  {
    HasHeader(buf, index + n, kind, flush, ttl) && U16At(buf, index + n + 8) == end - (index + n + 10)
  }

  lemma U16RoundTrip(buf: seq<byte>, at: nat, v: nat)
    requires at + 1 < |buf| && v < 0x10000 && buf[at] == U16Bytes(v)[0] && buf[at + 1] == U16Bytes(v)[1]
    ensures U16At(buf, at) == v
  {
  }

  lemma HeaderFields(buf: seq<byte>, at: nat, kind: Kind, flush: bool, ttl: nat)
    requires at + 10 <= |buf| && buf[at..at + 8] == HeaderBytes(kind, flush, ttl)[..8]
    ensures HasHeader(buf, at, kind, flush, ttl)
  {
    var h := HeaderBytes(kind, flush, ttl);
    assert forall i :: 0 <= i < 8 ==> buf[at + i] == buf[at..at + 8][i] == h[i];
    U16RoundTrip(buf, at, kind.Code());
    U16RoundTrip(buf, at + 2, if flush then CLASS_IN_FLUSH else CLASS_IN);
    assert buf[at + 4..at + 8] == buf[at..at + 8][4..] == h[4..8] == U32Bytes(ttl);
    U32Wraps(buf, at + 4, ttl);
  }

  /** In every record that completes, the value returned is how far the index moved, the header
      says what was asked for, and the length field is the number of data bytes behind it. */
  lemma RecordLayout(buf: seq<byte>, index: nat, owner: seq<seq<byte>>, kind: Kind, flush: bool, ttl: nat, d: Data)
    requires |buf| == BUFFER && index <= MAX_PACKET && ShortName(owner) && DataWritable(d) && ShortData(d)
    ensures var r := Record(buf, index, owner, kind, flush, ttl, d);
            var n := AppendName(buf, index, owner).moved;
      r.moved != 0 ==>
        r.index == index + r.moved && n > 0 && index + n + 10 < r.index
          && Layout(r.buf, index, n, r.index, kind, flush, ttl)
  {
    if Record(buf, index, owner, kind, flush, ttl, d).moved != 0 {
      RecordLaidOut(buf, index, owner, kind, flush, ttl, d);
    }
  }

  lemma RecordLaidOut(buf: seq<byte>, index: nat, owner: seq<seq<byte>>, kind: Kind, flush: bool, ttl: nat, d: Data)
    requires |buf| == BUFFER && index <= MAX_PACKET && ShortName(owner) && DataWritable(d) && ShortData(d)
    requires Record(buf, index, owner, kind, flush, ttl, d).moved != 0
    ensures var r := Record(buf, index, owner, kind, flush, ttl, d);
            var n := AppendName(buf, index, owner).moved;
      && r.index == index + r.moved && n > 0 && index + n + 10 < r.index
      && Layout(r.buf, index, n, r.index, kind, flush, ttl)
  {
    RecordParts(buf, index, owner, kind, flush, ttl, d);
    HeadedMove(buf, index, owner, kind, flush, ttl);
    MovedIsReported(buf, index, owner);
    var o, h := AppendName(buf, index, owner), Headed(buf, index, owner, kind, flush, ttl);
    var w := WriteData(h.buf, h.index, d);
    DataMove(h.buf, h.index, d);
    LaidOut(o, h, w, index, o.moved, kind, flush, ttl);
  }

  lemma LaidOut(o: Appended, h: Written, w: Written, index: nat, n: nat, kind: Kind, flush: bool, ttl: nat)
    requires |o.buf| == |w.buf| == BUFFER && o.index == index + n && h.index == o.index + 10 <= w.index <= MAX_PACKET
    requires h.buf == Put(o.buf, o.index, HeaderBytes(kind, flush, ttl)) && w.buf[..h.index] == h.buf[..h.index]
    requires w.index == h.index + w.moved && w.moved < 0x10000
    ensures Layout(Put(w.buf, h.index - 2, U16Bytes(w.moved)), index, n, w.index, kind, flush, ttl)
  {
    LengthField(w, h.index - 2);
    HeaderKept(o.buf, o.index, kind, flush, ttl, w.buf, w.moved);
  }

  // What a completed record is made of.
  lemma RecordParts(buf: seq<byte>, index: nat, owner: seq<seq<byte>>, kind: Kind, flush: bool, ttl: nat, d: Data)
    requires |buf| == BUFFER && index <= MAX_PACKET && Writable(owner) && DataWritable(d)
    ensures var r := Record(buf, index, owner, kind, flush, ttl, d);
            var o := AppendName(buf, index, owner);
            var h := Headed(buf, index, owner, kind, flush, ttl);
      r.moved != 0 ==>
        && h.moved == NamePart(o) + 10 && h.index == o.index + 10 < MAX_PACKET
          && h.buf == Put(o.buf, o.index, HeaderBytes(kind, flush, ttl))
        && var w := WriteData(h.buf, h.index, d);
           w.moved != 0 && r == Written(Put(w.buf, h.index - 2, U16Bytes(w.moved)), w.index, h.moved + w.moved)
  {
  }

  lemma HeadedMove(buf: seq<byte>, index: nat, owner: seq<seq<byte>>, kind: Kind, flush: bool, ttl: nat)
    requires |buf| == BUFFER && index <= MAX_PACKET && ShortName(owner)
    ensures var h := Headed(buf, index, owner, kind, flush, ttl);
            var n := AppendName(buf, index, owner).moved;
      h.moved != 0 ==> n > 0 && h.moved == n + 10 && h.index == index + n + 10
  {
    NamePartExact(buf, index, owner);
    MovedIsReported(buf, index, owner);
  }

  lemma LengthField(w: Written, at: nat)
    requires at + 2 <= |w.buf| && w.moved < 0x10000
    ensures U16At(Put(w.buf, at, U16Bytes(w.moved)), at) == w.moved
  {
    U16RoundTrip(Put(w.buf, at, U16Bytes(w.moved)), at, w.moved);
  }

  // Type, class and time to live.
  predicate HasHeader(buf: seq<byte>, at: nat, kind: Kind, flush: bool, ttl: nat)
    requires at + 10 <= |buf|
  {
    && U16At(buf, at) == kind.Code()
    && U16At(buf, at + 2) == (if flush then CLASS_IN_FLUSH else CLASS_IN)
    && U32At(buf, at + 4) == ttl % 0x1_0000_0000
  }

  // The header is still there when the data are written and the length is filled in.
  lemma HeaderKept(o: seq<byte>, at: nat, kind: Kind, flush: bool, ttl: nat, w: seq<byte>, length: nat)
    requires at + 10 <= |o| == |w| && w[..at + 10] == Put(o, at, HeaderBytes(kind, flush, ttl))[..at + 10]
    ensures HasHeader(Put(w, at + 8, U16Bytes(length)), at, kind, flush, ttl)
  {
    var header := HeaderBytes(kind, flush, ttl);
    var h := Put(o, at, header);
    var final := Put(w, at + 8, U16Bytes(length));
    PutKeeps(o, at, header);
    PutBelow(w, at + 8, U16Bytes(length), at + 8);
    SliceOfSlice(final, 0, at + 8, at, at + 8);
    SliceOfSlice(w, 0, at + 8, at, at + 8);
    SliceOfSlice(w, 0, at + 10, at, at + 8);
    SliceOfSlice(h, 0, at + 10, at, at + 8);
    SliceOfSlice(h, at, at + 10, 0, 8);
    HeaderFields(final, at, kind, flush, ttl);
  }
}
