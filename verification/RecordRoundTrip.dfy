/** Completed records read back: owner, data names, ports and TXT entries, although the length
    field is filled in after the data. */
module RecordRoundTrip {
  import opened MdnsTypes
  import opened Bytes
  import opened Sequences
  import opened NameCodec
  import opened NameRoundTrip
  import opened NameLimits
  import opened TxtCodec
  import opened Records

  // The owner is complete and its matches are clean.
  predicate CleanOwner(buf: seq<byte>, index: nat, owner: seq<seq<byte>>)
  {
    && |buf| == BUFFER && index <= MAX_PACKET && Shape(owner) && ShortName(owner)
    && AppendName(buf, index, owner).complete && CleanRun(buf, index, index, owner)
  }

  // A name in the data, written at index behind the header that starts at i0, likewise: its
  // matches lie below the header, whose length field is still to change.
  predicate CleanDataName(buf: seq<byte>, i0: nat, index: nat, name: seq<seq<byte>>)
  {
    && |buf| == BUFFER && i0 <= index <= MAX_PACKET && Shape(name) && ShortName(name)
    && AppendName(buf, index, name).complete && CleanRun(buf, i0, index, name)
  }

  // The header is put in, the data are written behind it, and then the length is filled in: below
  // the header and behind it nothing changes any more.
  lemma StagesKept(o: seq<byte>, at: nat, header: seq<byte>, w: seq<byte>, length: seq<byte>)
    requires |header| == 10 && |length| == 2 && at + 10 <= |o| == |w| && w[..at + 10] == Put(o, at, header)[..at + 10]
    ensures var final := Put(w, at + 8, length);
      final[..at] == o[..at] && final[at + 10..] == w[at + 10..]
  {
    var h := Put(o, at, header);
    PutBelow(o, at, header, at);
    PutBelow(w, at + 8, length, at);
    PutKeeps(w, at + 8, length);
    SliceOfSlice(w, 0, at + 10, 0, at);
    SliceOfSlice(h, 0, at + 10, 0, at);
  }

  lemma RecordKept(buf: seq<byte>, index: nat, owner: seq<seq<byte>>, kind: Kind, flush: bool, ttl: nat, d: Data)
    requires |buf| == BUFFER && index <= MAX_PACKET && Writable(owner) && DataWritable(d)
    ensures var r := Record(buf, index, owner, kind, flush, ttl, d);
            var o := AppendName(buf, index, owner);
            var h := Headed(buf, index, owner, kind, flush, ttl);
      r.moved != 0 ==>
        && h.index == o.index + 10 && h.moved != 0
        && var w := WriteData(h.buf, h.index, d);
           && w.moved != 0 && r.index == w.index
           && r.buf[..o.index] == o.buf[..o.index] == h.buf[..o.index] && r.buf[h.index..] == w.buf[h.index..]
  {
    if Record(buf, index, owner, kind, flush, ttl, d).moved != 0 {
      RecordParts(buf, index, owner, kind, flush, ttl, d);
      var o := AppendName(buf, index, owner);
      var h := Headed(buf, index, owner, kind, flush, ttl);
      var w := WriteData(h.buf, h.index, d);
      StagesKept(o.buf, o.index, HeaderBytes(kind, flush, ttl), w.buf, U16Bytes(w.moved));
      PutBelow(o.buf, o.index, HeaderBytes(kind, flush, ttl), o.index);
    }
  }

  /** The owner of a completed record reads back, and ends where the header begins. */
  lemma OwnerSurvives(buf: seq<byte>, index: nat, owner: seq<seq<byte>>, kind: Kind, flush: bool, ttl: nat, d: Data)
    requires CleanOwner(buf, index, owner) && DataWritable(d)
    ensures var r := Record(buf, index, owner, kind, flush, ttl, d);
      r.moved != 0 ==>
        && ReadsAs(ReadName(r.buf, MAX_PACKET, index), owner, WrittenOut(buf, index, owner))
        && ScanFrom(r.buf, MAX_PACKET, index, index).next == AppendName(buf, index, owner).index
  {
    var r := Record(buf, index, owner, kind, flush, ttl, d);
    if r.moved != 0 {
      var o := AppendName(buf, index, owner);
      RecordKept(buf, index, owner, kind, flush, ttl, d);
      AppendKeeps(buf, index, owner);
      SliceOfSlice(r.buf, 0, o.index, 0, index);
      SliceOfSlice(o.buf, 0, o.index, 0, index);
      SliceOfSlice(r.buf, 0, o.index, index, o.index);
      SliceOfSlice(o.buf, 0, o.index, index, o.index);
      NameSurvivesIn(buf, index, index, owner, r.buf);
    }
  }

  lemma DataNameAgrees(w: seq<byte>, final: seq<byte>, at: nat, from: nat, to: nat)
    requires |w| == |final| && at <= from <= to <= |w| && final[at..] == w[at..]
    ensures final[from..to] == w[from..to]
  {
    SubSlice(final, at, from, to);
    SubSlice(w, at, from, to);
  }

  // A name written at from into the buffer u, which agrees with the headed packet h up to the
  // data at at, read from the finished packet.
  lemma DataNameReads(h: seq<byte>, at: nat, u: seq<byte>, from: nat, name: seq<seq<byte>>, w: Written,
      final: seq<byte>)
    requires |h| == |final| == |w.buf| == |u| == BUFFER && 10 <= at <= from <= w.index <= MAX_PACKET && Writable(name)
    requires u[..at] == h[..at] && final[..at - 10] == h[..at - 10] && final[at..] == w.buf[at..]
    requires var a := AppendName(u, from, name);
      w.buf == a.buf && w.index == a.index && CleanDataName(u, at - 10, from, name)
    ensures ReadsAs(ReadName(final, MAX_PACKET, from), name, WrittenOut(u, from, name))
    ensures ScanFrom(final, MAX_PACKET, from, from).next == w.index
  {
    DataAgrees(h, at, u, from, w.buf, w.index, final);
    NameSurvivesIn(u, at - 10, from, name, final);
  }

  lemma DataAgrees(h: seq<byte>, at: nat, u: seq<byte>, from: nat, w: seq<byte>, to: nat, final: seq<byte>)
    requires |h| == |final| == |w| == |u| && 10 <= at <= from <= to <= |h|
    requires u[..at] == h[..at] && final[..at - 10] == h[..at - 10] && final[at..] == w[at..]
    ensures final[..at - 10] == u[..at - 10] && final[from..to] == w[from..to]
  {
    DataNameAgrees(w, final, at, from, to);
    SliceOfSlice(u, 0, at, 0, at - 10);
    SliceOfSlice(h, 0, at, 0, at - 10);
  }

  lemma BelowData(h: Written, at: nat, final: seq<byte>)
    requires h.index == at + 10 && at <= |h.buf| && at <= |final| && final[..at] == h.buf[..at]
    ensures final[..h.index - 10] == h.buf[..h.index - 10]
  {
  }

  lemma PointerDataReads(h: seq<byte>, at: nat, name: seq<seq<byte>>, w: Written, final: seq<byte>)
    requires |h| == |final| == BUFFER && 10 <= at < MAX_PACKET && CleanDataName(h, at - 10, at, name)
    requires w == WriteData(h, at, NameData(name)) && final[..at - 10] == h[..at - 10] && final[at..] == w.buf[at..]
    ensures ReadsAs(ReadName(final, MAX_PACKET, at), name, WrittenOut(h, at, name))
    ensures ScanFrom(final, MAX_PACKET, at, at).next == w.index
  {
    DataNameReads(h, at, h, at, name, w, final);
  }
  /** A PTR record: the name it points to reads back and ends where the record ends. */
  lemma PointerRecordSurvives(buf: seq<byte>, index: nat, owner: seq<seq<byte>>, flush: bool, ttl: nat,
      name: seq<seq<byte>>)
    requires |buf| == BUFFER && index <= MAX_PACKET && Writable(owner) && Writable(name)
    ensures var r := Record(buf, index, owner, Ptr, flush, ttl, NameData(name));
            var h := Headed(buf, index, owner, Ptr, flush, ttl);
      r.moved != 0 && h.index >= 10 && CleanDataName(h.buf, h.index - 10, h.index, name) ==>
        && ReadsAs(ReadName(r.buf, MAX_PACKET, h.index), name, WrittenOut(h.buf, h.index, name))
        && ScanFrom(r.buf, MAX_PACKET, h.index, h.index).next == r.index
  {
    var r := Record(buf, index, owner, Ptr, flush, ttl, NameData(name));
    var h := Headed(buf, index, owner, Ptr, flush, ttl);
    if r.moved != 0 && h.index >= 10 && CleanDataName(h.buf, h.index - 10, h.index, name) {
      RecordKept(buf, index, owner, Ptr, flush, ttl, NameData(name));
      var w := WriteData(h.buf, h.index, NameData(name));
      BelowData(h, AppendName(buf, index, owner).index, r.buf);
      PointerDataReads(h.buf, h.index, name, w, r.buf);
    }
  }

  lemma {:induction false} U16sInPlace(buf: seq<byte>, index: nat, values: seq<nat>, i: nat)
    requires |buf| == BUFFER && index <= MAX_PACKET && i < |values|
    requires forall j :: 0 <= j < |values| ==> values[j] < 0x10000
    requires WriteU16s(buf, index, values).moved == 2 * |values|
    ensures U16At(WriteU16s(buf, index, values).buf, index + 2 * i) == values[i]
    decreases |values|
  {
    var next := Put(buf, index, U16Bytes(values[0]));
    var rest := WriteU16s(next, index + 2, values[1..]);
    if i > 0 {
      U16sInPlace(next, index + 2, values[1..], i - 1);
    } else {
      PutKeeps(buf, index, U16Bytes(values[0]));
      assert rest.buf[index] == rest.buf[..index + 2][index] == next[..index + 2][index] == U16Bytes(values[0])[0];
      assert rest.buf[index + 1] == rest.buf[..index + 2][index + 1] == next[..index + 2][index + 1]
        == U16Bytes(values[0])[1];
      U16RoundTrip(rest.buf, index, values[0]);
    }
  }

  lemma ServerFields(buf: seq<byte>, index: nat, d: Data)
    requires |buf| == BUFFER && index < MAX_PACKET && DataWritable(d) && d.ServerData?
    requires d.priority < 0x10000 && d.weight < 0x10000 && d.port < 0x10000
    ensures var w := WriteData(buf, index, d);
            var u := WriteU16s(buf, index, [d.priority, d.weight, d.port]);
            var a := AppendName(u.buf, u.index, [d.host, LOCAL]);
      w.moved != 0 ==>
        && d.host != [] && u.moved == 6 && u.index == index + 6 <= w.index && w.buf[..index + 6] == u.buf[..index + 6]
        && w.index == a.index && w.buf == a.buf
        && U16At(u.buf, index) == d.priority && U16At(u.buf, index + 2) == d.weight && U16At(u.buf, index + 4) == d.port
  {
    var values := [d.priority, d.weight, d.port];
    var u := WriteU16s(buf, index, values);
    AppendKeeps(u.buf, u.index, [d.host, LOCAL]);
    if u.moved == 6 {
      ThreeU16s(buf, index, d.priority, d.weight, d.port);
    }
  }

  lemma ThreeU16s(buf: seq<byte>, index: nat, x: nat, y: nat, z: nat)
    requires |buf| == BUFFER && index < MAX_PACKET && x < 0x10000 && y < 0x10000 && z < 0x10000
    requires WriteU16s(buf, index, [x, y, z]).moved == 6
    ensures var u := WriteU16s(buf, index, [x, y, z]).buf;
      index + 6 < BUFFER && U16At(u, index) == x && U16At(u, index + 2) == y && U16At(u, index + 4) == z
  {
    var values := [x, y, z];
    U16sInPlace(buf, index, values, 0);
    U16sInPlace(buf, index, values, 1);
    U16sInPlace(buf, index, values, 2);
  }

  // The target's matches lie below the header that ends at index.
  predicate CleanTarget(buf: seq<byte>, index: nat, d: Data)
    requires |buf| == BUFFER && index <= MAX_PACKET && d.ServerData?
  {
    var u := WriteU16s(buf, index, [d.priority, d.weight, d.port]);
    index >= 10 && CleanDataName(u.buf, index - 10, u.index, [d.host, LOCAL])
  }

  predicate ServerReads(buf: seq<byte>, at: nat, end: nat, d: Data)
    requires |buf| == BUFFER && d.ServerData?
  {
    && at + 6 <= end <= MAX_PACKET
    && U16At(buf, at) == d.priority && U16At(buf, at + 2) == d.weight && U16At(buf, at + 4) == d.port
    && ReadsAs(ReadName(buf, MAX_PACKET, at + 6), [d.host, LOCAL], 0)
    && ScanFrom(buf, MAX_PACKET, at + 6, at + 6).next == end
  }

  /** An SRV record: priority, weight and port are in place, and the target reads back and ends
      where the record ends. */
  lemma ServerRecordSurvives(buf: seq<byte>, index: nat, owner: seq<seq<byte>>, flush: bool, ttl: nat, d: Data)
    requires |buf| == BUFFER && index <= MAX_PACKET && Writable(owner) && DataWritable(d) && d.ServerData?
    requires d.priority < 0x10000 && d.weight < 0x10000 && d.port < 0x10000
    ensures var r := Record(buf, index, owner, Srv, flush, ttl, d);
            var h := Headed(buf, index, owner, Srv, flush, ttl);
      r.moved != 0 && CleanTarget(h.buf, h.index, d) ==> ServerReads(r.buf, h.index, r.index, d)
  {
    var r := Record(buf, index, owner, Srv, flush, ttl, d);
    var h := Headed(buf, index, owner, Srv, flush, ttl);
    if r.moved != 0 && CleanTarget(h.buf, h.index, d) {
      RecordKept(buf, index, owner, Srv, flush, ttl, d);
      BelowHeader(buf, index, owner, flush, ttl, h);
      ServerDataReads(h.buf, h.index, d, WriteData(h.buf, h.index, d), r.buf);
    }
  }

  lemma BelowHeader(buf: seq<byte>, index: nat, owner: seq<seq<byte>>, flush: bool, ttl: nat, h: Written)
    requires |buf| == BUFFER && index <= MAX_PACKET && Writable(owner)
      && h == Headed(buf, index, owner, Srv, flush, ttl)
    ensures h.moved != 0 ==> h.index == AppendName(buf, index, owner).index + 10
  {
  }

  lemma ServerDataReads(h: seq<byte>, at: nat, d: Data, w: Written, final: seq<byte>)
    requires |h| == |final| == BUFFER && at < MAX_PACKET && DataWritable(d) && d.ServerData?
    requires d.priority < 0x10000 && d.weight < 0x10000 && d.port < 0x10000
    requires w == WriteData(h, at, d) && at >= 10 && final[..at - 10] == h[..at - 10] && final[at..] == w.buf[at..]
    ensures w.moved != 0 && CleanTarget(h, at, d) ==> ServerReads(final, at, w.index, d)
  {
    if w.moved != 0 && CleanTarget(h, at, d) {
      ServerFields(h, at, d);
      var u := WriteU16s(h, at, [d.priority, d.weight, d.port]);
      DataNameAgrees(w.buf, final, at, at, at + 6);
      FieldsKept(final, w.buf, u.buf, at);
      DataNameReads(h, at, u.buf, u.index, [d.host, LOCAL], w, final);
    }
  }

  lemma FieldsKept(final: seq<byte>, w: seq<byte>, u: seq<byte>, at: nat)
    requires |final| == |w| == |u| && at + 6 <= |w|
    requires final[at..at + 6] == w[at..at + 6] && w[..at + 6] == u[..at + 6]
    ensures U16At(final, at) == U16At(u, at) && U16At(final, at + 2) == U16At(u, at + 2)
      && U16At(final, at + 4) == U16At(u, at + 4)
  {
    forall x | at <= x < at + 6 ensures final[x] == u[x] {
      assert final[x] == final[at..at + 6][x - at] == w[at..at + 6][x - at] == w[..at + 6][x] == u[..at + 6][x];
    }
  }

  lemma TextBytes(buf: seq<byte>, index: nat, es: seq<Entry>)
    requires |buf| == BUFFER && index < MAX_PACKET && ProperEntries(es)
    ensures var w := WriteData(buf, index, TextData(es));
      w.moved != 0 ==> w.buf[index..w.index] == Encode(es)
  {
    EntriesMove(buf, index, es);
    if es == [] {
      PutKeeps(buf, index, [0]);
    } else {
      ParsedEntry(es[0]);
      assert |Entries(es)| > 0;
    }
  }

  /** A TXT record: decoding its data gives the entries back, in order, when every entry but
      possibly the last has a value. */
  lemma TextRecordSurvives(buf: seq<byte>, index: nat, owner: seq<seq<byte>>, flush: bool, ttl: nat, es: seq<Entry>)
    requires |buf| == BUFFER && index <= MAX_PACKET && Writable(owner) && ProperEntries(es) && ValuesButLast(es)
    ensures var r := Record(buf, index, owner, Txt, flush, ttl, TextData(es));
            var at := Headed(buf, index, owner, Txt, flush, ttl).index;
      r.moved != 0 ==> at <= r.index && Decode(r.buf[at..r.index]) == Normals(es)
  {
    var r := Record(buf, index, owner, Txt, flush, ttl, TextData(es));
    if r.moved != 0 {
      var h := Headed(buf, index, owner, Txt, flush, ttl);
      var w := WriteData(h.buf, h.index, TextData(es));
      RecordKept(buf, index, owner, Txt, flush, ttl, TextData(es));
      DataNameAgrees(w.buf, r.buf, h.index, h.index, w.index);
      TextBytes(h.buf, h.index, es);
      TxtRoundTrip(es);
    }
  }

  /** An A or AAAA record: between the header, which follows the owner, and the end of the record
      are the bytes of the address, in order. */
  lemma AddressRecordSurvives(buf: seq<byte>, index: nat, owner: seq<seq<byte>>, kind: Kind, flush: bool, ttl: nat,
      address: seq<byte>)
    requires |buf| == BUFFER && index <= MAX_PACKET && Writable(owner)
    ensures var r := Record(buf, index, owner, kind, flush, ttl, RawData(address));
            var at := AppendName(buf, index, owner).index + 10;
      r.moved != 0 ==>
        && address != [] && r.index == at + |address| && r.buf[at..r.index] == address
        && (CleanOwner(buf, index, owner) ==> at == ScanFrom(r.buf, MAX_PACKET, index, index).next + 10)
  {
    var r := Record(buf, index, owner, kind, flush, ttl, RawData(address));
    if r.moved != 0 {
      var h := Headed(buf, index, owner, kind, flush, ttl);
      var w := WriteData(h.buf, h.index, RawData(address));
      RecordKept(buf, index, owner, kind, flush, ttl, RawData(address));
      DataNameAgrees(w.buf, r.buf, h.index, h.index, w.index);
      AddressInPlace(h.buf, h.index, address);
      if CleanOwner(buf, index, owner) {
        OwnerSurvives(buf, index, owner, kind, flush, ttl, RawData(address));
      }
    }
  }

  lemma AddressInPlace(buf: seq<byte>, index: nat, address: seq<byte>)
    requires |buf| == BUFFER && index < MAX_PACKET
    ensures var w := WriteData(buf, index, RawData(address));
      w.moved != 0 ==> address != [] && w.index == index + |address| && w.buf[index..w.index] == address
  {
    if index + |address| <= MAX_PACKET {
      PutKeeps(buf, index, address);
    }
  }

  // ---- Records that fit ----

  // Bytes the data take when no name in them has a match.
  function DataRoom(d: Data): nat
  {
    match d
    case NameData(name) => EncodedLen(name)
    case ServerData(_, _, _, host) => 6 + EncodedLen([host, LOCAL])
    case TextData(entries) => if entries == [] then 1 else |Entries(entries)|
    case RawData(bytes) => |bytes|
  }

  lemma FittingNameMoves(buf: seq<byte>, index: nat, name: seq<seq<byte>>)
    requires |buf| == BUFFER && ShortName(name) && index + EncodedLen(name) <= MAX_PACKET
    ensures var a := AppendName(buf, index, name);
      0 < NamePart(a) && a.index <= index + EncodedLen(name)
  {
    FitsSuffices(buf, index, name);
    MovedAtMost(buf, index, name);
    NamePartExact(buf, index, name);
    MovedIsReported(buf, index, name);
  }

  lemma {:induction false} FittingEntries(buf: seq<byte>, index: nat, es: seq<Entry>)
    requires |buf| == BUFFER && index + |Entries(es)| < MAX_PACKET
    ensures WriteEntries(buf, index, es).moved != 0
    decreases |es|
  {
    if es != [] {
      FittingEntries(Put(buf, index, EntryBytes(es[0])), index + |EntryBytes(es[0])|, es[1..]);
    }
  }

  lemma FittingServer(buf: seq<byte>, index: nat, d: Data)
    requires |buf| == BUFFER && DataWritable(d) && ShortData(d) && d.ServerData? && d.host != []
    requires index + DataRoom(d) < MAX_PACKET
    ensures WriteData(buf, index, d).moved != 0
  {
    var values := [d.priority, d.weight, d.port];
    assert values[1..] == [d.weight, d.port] && values[1..][1..] == [d.port] && values[1..][1..][1..] == [];
    ThreeFit(buf, index, d.priority, d.weight, d.port);
    var u := WriteU16s(buf, index, values);
    FittingNameMoves(u.buf, u.index, [d.host, LOCAL]);
  }

  lemma ThreeFit(buf: seq<byte>, index: nat, x: nat, y: nat, z: nat)
    requires |buf| == BUFFER && index + 6 < MAX_PACKET
    ensures WriteU16s(buf, index, [x, y, z]).moved == 6
  {
    var b1 := Put(buf, index, U16Bytes(x));
    var b2 := Put(b1, index + 2, U16Bytes(y));
    assert [x, y, z][1..] == [y, z] && [y, z][1..] == [z] && [z][1..] == [];
    assert WriteU16s(b2, index + 4, [z]).moved == 2;
    assert WriteU16s(b1, index + 2, [y, z]).moved == 4;
  }

  lemma FittingData(buf: seq<byte>, index: nat, d: Data)
    requires |buf| == BUFFER && DataWritable(d) && ShortData(d) && index + DataRoom(d) < MAX_PACKET
    requires (d.ServerData? ==> d.host != []) && (d.RawData? ==> d.bytes != [])
    ensures WriteData(buf, index, d).moved != 0
  {
    match d {
      case NameData(name) => FittingNameMoves(buf, index, name);
      case ServerData(_, _, _, _) => FittingServer(buf, index, d);
      case TextData(entries) => FittingEntries(buf, index, entries);
      case RawData(_) =>
    }
  }

  /** A record of any kind is written completely if it fits without compression, its host is set and
      its address is not empty. */
  lemma FittingRecordCompletes(buf: seq<byte>, index: nat, owner: seq<seq<byte>>, kind: Kind, flush: bool, ttl: nat,
      d: Data)
    requires |buf| == BUFFER && ShortName(owner) && DataWritable(d) && ShortData(d)
    requires index + EncodedLen(owner) + 10 + DataRoom(d) < MAX_PACKET
    requires (d.ServerData? ==> d.host != []) && (d.RawData? ==> d.bytes != [])
    ensures Record(buf, index, owner, kind, flush, ttl, d).moved != 0
  {
    FittingNameMoves(buf, index, owner);
    var h := Headed(buf, index, owner, kind, flush, ttl);
    FittingData(h.buf, h.index, d);
  }
}
