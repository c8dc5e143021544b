/** Simultaneous probe tie-breaking (section 8.2 of RFC 6762): whose SRV or TXT record wins. */
module Collision {
  import opened MdnsTypes
  import opened Bytes
  import opened Sequences
  import opened NameCodec
  import opened TxtCodec
  import opened Records

  // ---- The order on record data: longer wins, then the first differing byte decides ----

  function Lexical(a: seq<byte>, b: seq<byte>): (r: int)
    requires |a| == |b|
    ensures -1 <= r <= 1
  {
    if a == [] then 0
    else if a[0] != b[0] then (if a[0] > b[0] then 1 else -1)
    else Lexical(a[1..], b[1..])
  }

  function Order(a: seq<byte>, b: seq<byte>): (r: int)
    ensures -1 <= r <= 1
  {
    if |a| > |b| then 1 else if |a| < |b| then -1 else Lexical(a, b)
  }

  lemma {:induction false} LexicalOpposite(a: seq<byte>, b: seq<byte>)
    requires |a| == |b|
    ensures Lexical(a, b) == -Lexical(b, a) && (Lexical(a, b) == 0 <==> a == b)
  {
    if a != [] && a[0] == b[0] {
      LexicalOpposite(a[1..], b[1..]);
      assert a == [a[0]] + a[1..] && b == [b[0]] + b[1..];
    }
  }

  lemma {:induction false} LexicalTransitive(a: seq<byte>, b: seq<byte>, c: seq<byte>)
    requires |a| == |b| == |c| && Lexical(a, b) >= 0 && Lexical(b, c) >= 0
    ensures Lexical(a, c) >= 0 && (Lexical(a, b) > 0 || Lexical(b, c) > 0 ==> Lexical(a, c) > 0)
  {
    if a != [] && a[0] == b[0] == c[0] {
      LexicalTransitive(a[1..], b[1..], c[1..]);
    }
  }

  // One strict total order.
  lemma OrderIsTotal(a: seq<byte>, b: seq<byte>, c: seq<byte>)
    ensures Order(a, b) == -Order(b, a) && (Order(a, b) == 0 <==> a == b)
    ensures Order(a, b) >= 0 && Order(b, c) >= 0 ==> Order(a, c) >= 0
    ensures Order(a, b) > 0 && Order(b, c) >= 0 ==> Order(a, c) > 0
    ensures Order(a, b) >= 0 && Order(b, c) > 0 ==> Order(a, c) > 0
  {
    if |a| == |b| {
      LexicalOpposite(a, b);
      if |b| == |c| && Order(a, b) >= 0 && Order(b, c) >= 0 {
        LexicalTransitive(a, b, c);
      }
    }
  }

  // Longer data beat shorter ones; of equally long data, those beat the others that have the
  // greater byte at the first place where they differ.
  ghost predicate Beats(a: seq<byte>, b: seq<byte>)
  {
    |a| > |b| || (|a| == |b| && exists i :: 0 <= i < |a| && a[..i] == b[..i] && a[i] > b[i])
  }

  lemma {:induction false} LexicalIff(a: seq<byte>, b: seq<byte>)
    requires |a| == |b|
    ensures Lexical(a, b) > 0 <==> exists i :: 0 <= i < |a| && a[..i] == b[..i] && a[i] > b[i]
  {
    if a != [] {
      if a[0] != b[0] {
        assert a[..0] == b[..0];
        forall i | 0 < i < |a| ensures a[..i] != b[..i] {
          assert a[..i][0] != b[..i][0];
        }
      } else {
        var x, y := a[1..], b[1..];
        LexicalIff(x, y);
        forall i | 0 < i < |a| ensures a[..i] == b[..i] <==> x[..i - 1] == y[..i - 1] {
          assert a[..i] == [a[0]] + x[..i - 1] && b[..i] == [b[0]] + y[..i - 1];
          assert x[..i - 1] == a[..i][1..] && y[..i - 1] == b[..i][1..];
        }
        if i :| 0 <= i < |x| && x[..i] == y[..i] && x[i] > y[i] {
          assert a[..i + 1] == b[..i + 1] && a[i + 1] > b[i + 1];
        }
        if i :| 0 <= i < |a| && a[..i] == b[..i] && a[i] > b[i] {
          assert x[..i - 1] == y[..i - 1] && x[i - 1] > y[i - 1];
        }
      }
    }
  }

  lemma OrderIff(a: seq<byte>, b: seq<byte>)
    ensures Order(a, b) > 0 <==> Beats(a, b)
    ensures Order(a, b) < 0 <==> Beats(b, a)
  {
    OrderIsTotal(a, b, a);
    if |a| == |b| {
      LexicalIff(a, b);
      LexicalIff(b, a);
    }
  }

  /** Of several records one never loses, so somebody keeps the name. */
  lemma {:induction false} SomeoneWins(records: seq<seq<byte>>) returns (w: nat)
    requires records != []
    ensures w < |records| && forall i :: 0 <= i < |records| ==> Order(records[w], records[i]) >= 0
  {
    var last := |records| - 1;
    OrderIsTotal(records[last], records[last], records[last]);
    if last == 0 {
      w := 0;
    } else {
      w := SomeoneWins(records[..last]);
      OrderIsTotal(records[w], records[last], records[w]);
      if Order(records[last], records[w]) > 0 {
        forall i | 0 <= i < last ensures Order(records[last], records[i]) >= 0 {
          assert Order(records[w], records[..last][i]) >= 0;
          OrderIsTotal(records[last], records[w], records[i]);
        }
        w := last;
      } else {
        forall i | 0 <= i < last ensures Order(records[w], records[i]) >= 0 {
          assert records[..last][i] == records[i];
        }
      }
    }
  }

  // memcmp: positive, negative or zero by the first differing byte.
  method CompareBytes(a: array<byte>, b: array<byte>, n: nat) returns (r: int)
    requires n <= a.Length && n <= b.Length
    ensures r == Lexical(a[..n], b[..n])
  {
    var i := 0;
    while i < n
      invariant 0 <= i <= n && Lexical(a[..n], b[..n]) == Lexical(a[i..n], b[i..n])
    {
      if a[i] != b[i] {
        return if a[i] > b[i] then 1 else -1;
      }
      assert a[i..n][1..] == a[i + 1..n] && b[i..n][1..] == b[i + 1..n];
      i := i + 1;
    }
    return 0;
  }

  // ---- SRV ----

  datatype Server = Server(priority: nat, weight: nat, port: nat, host: seq<byte>, domain: seq<byte>)

  predicate ServerOk(s: Server)
  {
    s.priority < 0x10000 && s.weight < 0x10000 && s.port < 0x10000 && |s.host| < 256 && |s.domain| < 256
  }

  // The uncompressed record data.
  function ServerBytes(s: Server): seq<byte>
    requires ServerOk(s)
  {
    U16Bytes(s.priority) + U16Bytes(s.weight) + U16Bytes(s.port)
      + [|s.host|] + s.host + [|s.domain|] + s.domain + [0]
  }

  // Lays out the data at the front of a buffer of the right length.
  method FillServer(s: Server, a: array<byte>)
    requires ServerOk(s) && a.Length == 9 + |s.host| + |s.domain|
    modifies a
    ensures a[..] == ServerBytes(s)
  {
    var i := PutBytes(a, 0, U16Bytes(s.priority), []);
    i := PutBytes(a, i, U16Bytes(s.weight), a[..i]);
    i := PutBytes(a, i, U16Bytes(s.port), a[..i]);
    i := PutBytes(a, i, [|s.host|], a[..i]);
    i := PutBytes(a, i, s.host, a[..i]);
    i := PutBytes(a, i, [|s.domain|], a[..i]);
    i := PutBytes(a, i, s.domain, a[..i]);
    i := PutBytes(a, i, [0], a[..i]);
    assert a[..] == a[..i];
  }

  method PutBytes(a: array<byte>, at: nat, bytes: seq<byte>, ghost before: seq<byte>) returns (after: nat)
    requires at + |bytes| <= a.Length && a[..at] == before
    modifies a
    ensures after == at + |bytes| && a[..after] == before + bytes
  {
    var i := 0;
    while i < |bytes|
      invariant 0 <= i <= |bytes| && a[..at + i] == before + bytes[..i]
    {
      a[at + i] := bytes[i];
      i := i + 1;
    }
    assert bytes[..i] == bytes;
    after := at + |bytes|;
  }

  // Positive when theirs wins, negative when ours does.
  function ServerVerdict(ours: Server, theirs: Server): int
    requires ServerOk(ours) && ServerOk(theirs)
  {
    if ours.host == [] then 0 else Order(ServerBytes(theirs), ServerBytes(ours))
  }

  method CheckSrvCollision(ours: Server, theirs: Server) returns (verdict: int)
    requires ServerOk(ours) && ServerOk(theirs) && ours.domain == LOCAL
    ensures verdict == ServerVerdict(ours, theirs)
  {
    if ours.host == [] {
      return 0;
    }
    var ourLen := 14 + |ours.host|;
    var theirLen := 9 + |theirs.host| + |theirs.domain|;
    if theirLen > ourLen {
      return 1;
    } else if theirLen < ourLen {
      return -1;
    }
    var ourData := new byte[ourLen];
    FillServer(ours, ourData);
    var theirData := new byte[theirLen];
    FillServer(theirs, theirData);
    verdict := CompareVerdict(ourData, theirData, ourLen);
  }

  method CompareVerdict(ours: array<byte>, theirs: array<byte>, n: nat) returns (verdict: int)
    requires n == ours.Length == theirs.Length
    ensures verdict == Lexical(theirs[..], ours[..])
  {
    var r := CompareBytes(ours, theirs, n);
    assert ours[..n] == ours[..] && theirs[..n] == theirs[..];
    LexicalOpposite(ours[..], theirs[..]);
    return if r > 0 then -1 else if r < 0 then 1 else 0;
  }

  lemma ServerBytesInjective(s: Server, t: Server)
    requires ServerOk(s) && ServerOk(t) && ServerBytes(s) == ServerBytes(t)
    ensures s == t
  {
    var p, q := Numbers(s), Numbers(t);
    var x, y := LabelBytes(s.host) + (LabelBytes(s.domain) + [0]), LabelBytes(t.host) + (LabelBytes(t.domain) + [0]);
    ServerParts(s);
    ServerParts(t);
    SplitEqual(p, x, q, y);
    assert p[0] == q[0] && p[1] == q[1] && p[2] == q[2] && p[3] == q[3] && p[4] == q[4] && p[5] == q[5];
    LabelInjective(s.host, LabelBytes(s.domain) + [0], t.host, LabelBytes(t.domain) + [0]);
    LabelInjective(s.domain, [0], t.domain, [0]);
  }

  lemma ServerParts(s: Server)
    requires ServerOk(s)
    ensures ServerBytes(s) == Numbers(s) + (LabelBytes(s.host) + (LabelBytes(s.domain) + [0]))
  {
  }

  function Numbers(s: Server): (r: seq<byte>)
    requires ServerOk(s)
    ensures |r| == 6
  {
    U16Bytes(s.priority) + U16Bytes(s.weight) + U16Bytes(s.port)
  }

  lemma LabelInjective(a: seq<byte>, x: seq<byte>, b: seq<byte>, y: seq<byte>)
    requires |a| < 256 && |b| < 256 && LabelBytes(a) + x == LabelBytes(b) + y
    ensures a == b && x == y
  {
    assert (LabelBytes(a) + x)[0] == |a| && (LabelBytes(b) + y)[0] == |b|;
    SplitEqual(LabelBytes(a), x, LabelBytes(b), y);
    SplitEqual([|a|], a, [|b|], b);
  }

  /** Two hosts comparing each other's SRV record reach opposite verdicts, and "same" exactly when
      the records are the same; and who beats a winner beats those it beats. */
  lemma ServerVerdicts(a: Server, b: Server, c: Server)
    requires ServerOk(a) && ServerOk(b) && ServerOk(c) && a.host != [] && b.host != [] && c.host != []
    ensures ServerVerdict(a, b) == -ServerVerdict(b, a)
    ensures ServerVerdict(a, b) == 0 <==> a == b
    ensures ServerVerdict(a, b) > 0 && ServerVerdict(b, c) > 0 ==> ServerVerdict(a, c) > 0
  {
    OrderIsTotal(ServerBytes(b), ServerBytes(a), ServerBytes(c));
    OrderIsTotal(ServerBytes(c), ServerBytes(b), ServerBytes(a));
    if ServerBytes(a) == ServerBytes(b) {
      ServerBytesInjective(a, b);
    }
  }

  /** Theirs wins exactly when its data beat ours, and ours exactly when ours beat theirs. */
  lemma ServerWinner(ours: Server, theirs: Server)
    requires ServerOk(ours) && ServerOk(theirs) && ours.host != []
    ensures ServerVerdict(ours, theirs) > 0 <==> Beats(ServerBytes(theirs), ServerBytes(ours))
    ensures ServerVerdict(ours, theirs) < 0 <==> Beats(ServerBytes(ours), ServerBytes(theirs))
  {
    OrderIff(ServerBytes(theirs), ServerBytes(ours));
  }

  // The numbers in the order in which they are compared.
  predicate MoreUrgent(s: Server, t: Server)
  {
    || s.priority > t.priority
    || (s.priority == t.priority && s.weight > t.weight)
    || (s.priority == t.priority && s.weight == t.weight && s.port > t.port)
  }

  lemma U16Below(v: nat, w: nat)
    requires v < 0x10000 && w < 0x10000 && v > w
    ensures U16Bytes(v)[0] > U16Bytes(w)[0] || (U16Bytes(v)[0] == U16Bytes(w)[0] && U16Bytes(v)[1] > U16Bytes(w)[1])
  {
  }

  lemma U16Greater(a: seq<byte>, b: seq<byte>, at: nat, v: nat, w: nat)
    requires |a| == |b| && at + 2 <= |a| && a[..at] == b[..at] && v < 0x10000 && w < 0x10000 && v > w
    requires a[at] == U16Bytes(v)[0] && a[at + 1] == U16Bytes(v)[1]
    requires b[at] == U16Bytes(w)[0] && b[at + 1] == U16Bytes(w)[1]
    ensures Beats(a, b)
  {
    U16Below(v, w);
    if a[at] == b[at] {
      assert a[..at + 1] == a[..at] + [a[at]] && b[..at + 1] == b[..at] + [b[at]];
    }
  }

  lemma NumbersAt(s: Server)
    requires ServerOk(s)
    ensures var d := ServerBytes(s);
      && d[..2] == U16Bytes(s.priority) && d[..4] == U16Bytes(s.priority) + U16Bytes(s.weight)
      && d[2] == U16Bytes(s.weight)[0] && d[3] == U16Bytes(s.weight)[1]
      && d[4] == U16Bytes(s.port)[0] && d[5] == U16Bytes(s.port)[1]
  {
    ServerParts(s);
  }

  /** Between records of the same length the larger priority wins, then the larger weight, then
      the larger port, whatever the targets are. */
  lemma LargerNumbersWin(ours: Server, theirs: Server)
    requires ServerOk(ours) && ServerOk(theirs) && ours.host != [] && MoreUrgent(theirs, ours)
    requires |ours.host| + |ours.domain| == |theirs.host| + |theirs.domain|
    ensures ServerVerdict(ours, theirs) > 0
  {
    var x, y := ServerBytes(theirs), ServerBytes(ours);
    NumbersAt(theirs);
    NumbersAt(ours);
    assert x[0] == x[..2][0] && x[1] == x[..2][1] && y[0] == y[..2][0] && y[1] == y[..2][1];
    if theirs.priority > ours.priority {
      U16Greater(x, y, 0, theirs.priority, ours.priority);
    } else if theirs.weight > ours.weight {
      U16Greater(x, y, 2, theirs.weight, ours.weight);
    } else {
      U16Greater(x, y, 4, theirs.port, ours.port);
    }
    ServerWinner(ours, theirs);
  }

  // ---- TXT ----

  // Record data of one byte stands for no entries.
  function TextVerdict(ours: seq<Entry>, data: seq<byte>): int
  {
    if |data| == 1 && ours != [] then -1
    else if |data| > 1 && ours == [] then 1
    else if |data| == 1 && ours == [] then 0
    else Order(data, Entries(ours))
  }

  method CheckTxtCollision(ours: seq<Entry>, data: array<byte>) returns (verdict: int)
    requires data.Length == |Entries(ours)| ==> data.Length < MAX_PACKET
    ensures verdict == TextVerdict(ours, data[..])
  {
    var len := data.Length;
    if len == 1 && ours != [] {
      return -1;
    } else if len > 1 && ours == [] {
      return 1;
    } else if len == 1 && ours == [] {
      return 0;
    }
    var total := EntriesLen(ours);
    if len > total {
      return 1;
    } else if len < total {
      return -1;
    }
    var mine := new byte[len];
    FillEntries(ours, mine);
    verdict := CompareVerdict(mine, data, len);
  }

  method EntriesLen(es: seq<Entry>) returns (total: nat)
    ensures total == |Entries(es)|
  {
    total := 0;
    var i := 0;
    while i < |es|
      invariant 0 <= i <= |es| && total + |Entries(es[i..])| == |Entries(es)|
    {
      assert es[i..][1..] == es[i + 1..];
      total := total + 1 + |es[i].key|
        + (if es[i].value.Some? then |es[i].value.value| else 0) + if es[i].value.Some? then 1 else 0;
      i := i + 1;
    }
  }

  // An entry is skipped when it would end at the packet size or beyond.
  method FillEntries(es: seq<Entry>, a: array<byte>)
    requires a.Length == |Entries(es)| < MAX_PACKET
    modifies a
    ensures a[..] == Entries(es)
  {
    var index: nat, i := 0, 0;
    while i < |es|
      invariant 0 <= i <= |es| && index <= a.Length
      invariant a[..index] + Entries(es[i..]) == Entries(es)
    {
      assert es[i..][1..] == es[i + 1..];
      var bytes := EntryBytes(es[i]);
      ghost var before := a[..index];
      if index + |bytes| < MAX_PACKET {
        index := PutBytes(a, index, bytes, a[..index]);
      }
      assert before + bytes + Entries(es[i + 1..]) == before + (bytes + Entries(es[i + 1..]));
      i := i + 1;
    }
    assert a[..index] + [] == a[..index];
    assert a[..index] == a[..];
  }

  lemma EntriesNotShort(es: seq<Entry>)
    requires es != [] && forall i :: 0 <= i < |es| ==> es[i].key != []
    ensures |Entries(es)| > 1
  {
    assert |EntryBytes(es[0])| >= 2;
  }

  predicate KeysNamed(es: seq<Entry>)
  {
    forall i :: 0 <= i < |es| ==> es[i].key != []
  }

  // Against the data of another list, the verdict is the order on the record data.
  lemma TextVerdictIsOrder(ours: seq<Entry>, theirs: seq<Entry>)
    requires KeysNamed(ours) && KeysNamed(theirs)
    ensures TextVerdict(ours, Encode(theirs)) == Order(Encode(theirs), Encode(ours))
  {
    if ours != [] {
      EntriesNotShort(ours);
    }
    if theirs != [] {
      EntriesNotShort(theirs);
    }
    OrderIsTotal(Encode(theirs), Encode(ours), []);
  }

  /** Two hosts comparing each other's TXT record reach opposite verdicts, and "same" exactly when
      the record data are the same; and who beats a winner beats those it beats. */
  lemma TextVerdicts(a: seq<Entry>, b: seq<Entry>, c: seq<Entry>)
    requires KeysNamed(a) && KeysNamed(b) && KeysNamed(c)
    ensures TextVerdict(a, Encode(b)) == -TextVerdict(b, Encode(a))
    ensures TextVerdict(a, Encode(b)) == 0 <==> Encode(a) == Encode(b)
    ensures TextVerdict(a, Encode(b)) > 0 && TextVerdict(b, Encode(c)) > 0 ==> TextVerdict(a, Encode(c)) > 0
  {
    TextVerdictIsOrder(a, b);
    TextVerdictIsOrder(b, a);
    TextVerdictIsOrder(b, c);
    TextVerdictIsOrder(a, c);
    OrderIsTotal(Encode(b), Encode(a), Encode(c));
    OrderIsTotal(Encode(c), Encode(b), Encode(a));
  }

  /** Whatever data arrive, they win exactly when they beat the encoding of our entries, and ours
      win exactly when it beats the data; but without entries on our side, data of at most one
      byte are taken for none. */
  lemma TextWinner(ours: seq<Entry>, data: seq<byte>)
    requires KeysNamed(ours)
    ensures TextVerdict(ours, data) > 0 <==> Beats(data, Encode(ours)) && (ours != [] || |data| > 1)
    ensures TextVerdict(ours, data) < 0 <==> Beats(Encode(ours), data) && (ours != [] || |data| > 1)
  {
    OrderIff(data, Encode(ours));
    if ours != [] {
      EntriesNotShort(ours);
    }
  }
}
