/** What a name that is read spells, for every sequence of labels: the host name with its dots, the
    parts behind it, the subtype marker, and whether the name is valid. */
module NameSpelling {
  import opened MdnsTypes
  import opened Bytes
  import opened Sequences
  import opened NameCodec

  // The labels without the subtype markers.
  function Unmarked(labels: seq<seq<byte>>): seq<seq<byte>>
  {
    if labels == [] then []
    else
      var last := |labels| - 1;
      Unmarked(labels[..last]) + if SameText(labels[last], SUB) then [] else [labels[last]]
  }

  // The labels with a dot between each and the next.
  function Dotted(labels: seq<seq<byte>>): (r: seq<byte>)
    requires labels != []
  {
    var last := |labels| - 1;
    if last == 0 then labels[0] else Dotted(labels[..last]) + [DOT] + labels[last]
  }

  // As much of a text as a field holds.
  function Cut(text: seq<byte>): (r: seq<byte>)
    ensures r <= text && (|text| < FIELD ==> r == text) && (|text| >= FIELD ==> |r| == FIELD - 1)
  {
    if |text| < FIELD then text else text[..FIELD - 1]
  }

  // The labels of the host name, and those behind it: the first of these starts a service or is
  // one of the known domains, which no label after the first of the host name is.
  predicate Split(labels: seq<seq<byte>>, hosts: seq<seq<byte>>, tail: seq<seq<byte>>)
  {
    && labels == hosts + tail && (hosts == [] ==> tail == [])
    && (forall i :: 1 <= i < |hosts| ==> Continues(hosts[i]))
    && (tail != [] ==> !Continues(tail[0]))
  }

  // Nothing comes after the fourth part.
  predicate EndsInPart(tokens: seq<Token>)
  {
    tokens != [] && tokens[|tokens| - 1].Label? && !SameText(CString(tokens[|tokens| - 1].bytes), SUB)
  }

  predicate Fitting(tokens: seq<Token>)
  {
    forall i :: 0 <= i < |tokens| && tokens[i].Label? ==> |tokens[i].bytes| < FIELD
  }

  predicate Spells(n: Name, tokens: seq<Token>, hosts: seq<seq<byte>>, tail: seq<seq<byte>>)
  {
    && n.host == (if hosts == [] then [] else Cut(Dotted(hosts)))
    && n.parts == (if hosts == [] then 0 else if |tail| <= 3 then 1 + |tail| else 4)
    && n.service == (if |tail| >= 1 then tail[0] else [])
    && n.proto == (if |tail| >= 2 then tail[1] else [])
    && n.domain == (if |tail| >= 3 then tail[2] else [])
    && (n.sub <==> Unmarked(Labels(tokens)) != Labels(tokens))
    && (n.invalid <==> |tail| > 3 || (|tail| == 3 && !EndsInPart(tokens)))
  }

  lemma {:induction false} FoldLast(n: Name, tokens: seq<Token>, t: Token)
    ensures Fold(n, tokens + [t]) == TakeToken(Fold(n, tokens), t)
    decreases |tokens|
  {
    if tokens == [] {
      assert [t][1..] == [];
      assert Fold(TakeToken(n, t), []) == TakeToken(n, t);
      assert tokens + [t] == [t];
    } else {
      FoldLast(TakeToken(n, tokens[0]), tokens[1..], t);
      assert (tokens + [t])[1..] == tokens[1..] + [t];
    }
  }

  lemma {:induction false} LabelsLast(tokens: seq<Token>, t: Token)
    ensures Labels(tokens + [t]) == Labels(tokens) + if t.Label? then [CString(t.bytes)] else []
  {
    if tokens == [] {
      assert tokens + [t] == [t] && [t][1..] == [];
      assert Labels([]) == [];
    } else {
      LabelsLast(tokens[1..], t);
      assert (tokens + [t])[1..] == tokens[1..] + [t];
    }
  }

  lemma {:induction false} UnmarkedIff(labels: seq<seq<byte>>)
    ensures |Unmarked(labels)| <= |labels|
    ensures if NoSub(labels) then Unmarked(labels) == labels else |Unmarked(labels)| < |labels|
  {
    if labels != [] {
      var last := |labels| - 1;
      var front := labels[..last];
      UnmarkedIff(front);
      assert labels == front + [labels[last]];
      assert NoSub(labels) <==> NoSub(front) && !SameText(labels[last], SUB) by {
        assert forall i :: 0 <= i < last ==> labels[i] == front[i];
      }
    }
  }

  lemma UnmarkedLast(labels: seq<seq<byte>>, text: seq<byte>)
    ensures Unmarked(labels + [text]) == Unmarked(labels) + if SameText(text, SUB) then [] else [text]
    ensures Unmarked(labels + [text]) == labels + [text] <==> Unmarked(labels) == labels && !SameText(text, SUB)
  {
    assert (labels + [text])[..|labels|] == labels;
    UnmarkedIff(labels);
  }

  // Cutting in between makes no difference.
  lemma CutTwice(host: seq<byte>, text: seq<byte>)
    ensures Concat(Concat(Cut(host), [DOT]), text) == Cut(host + [DOT] + text)
  {
    if |host| + 1 >= FIELD {
      assert (host + [DOT] + text)[..FIELD - 1] == (host + [DOT])[..FIELD - 1] == host[..FIELD - 1];
      assert (Cut(host) + [DOT])[..FIELD - 1] == Cut(host)[..FIELD - 1];
    }
  }

  lemma DottedLast(hosts: seq<seq<byte>>, text: seq<byte>)
    requires hosts != []
    ensures Dotted(hosts + [text]) == Dotted(hosts) + [DOT] + text
  {
    assert (hosts + [text])[..|hosts|] == hosts;
  }

  // How the parts are split when the last of them is left off.
  lemma SplitFront(labels: seq<seq<byte>>, text: seq<byte>, hosts: seq<seq<byte>>, tail: seq<seq<byte>>)
    requires Split(labels + [text], hosts, tail)
    ensures tail != [] ==> tail[|tail| - 1] == text && Split(labels, hosts, tail[..|tail| - 1])
    ensures tail == [] ==> hosts == labels + [text] && Split(labels, labels, [])
  {
    if tail == [] {
      assert hosts + tail == hosts;
      assert forall i :: 0 <= i < |labels| ==> labels[i] == hosts[i];
      assert labels + [] == labels;
    } else {
      assert hosts + tail == (hosts + tail[..|tail| - 1]) + [tail[|tail| - 1]];
      SplitEqual(labels, [text], hosts + tail[..|tail| - 1], [tail[|tail| - 1]]);
    }
  }

  // One more part: it continues the host name or takes the next field.
  lemma PartSpells(front: seq<Token>, t: Token, hosts: seq<seq<byte>>, tail: seq<seq<byte>>)
    requires t.Label? && !SameText(CString(t.bytes), SUB) && Fitting(front + [t])
    requires Split(Unmarked(Labels(front)) + [CString(t.bytes)], hosts, tail)
    requires Labels(front + [t]) == Labels(front) + [CString(t.bytes)]
    ensures Spells(TakeToken(Fold(NoName, front), t), front + [t], hosts, tail)
    decreases |front| + 1, 0
  {
    var text := CString(t.bytes);
    var labels := Unmarked(Labels(front));
    FittingFront(front, t);
    assert (front + [t])[|front|] == t;
    SplitFront(labels, text, hosts, tail);
    UnmarkedLast(Labels(front), text);
    if tail == [] {
      NameSpells(front, labels, []);
      assert labels != [] ==> Continues(hosts[|labels|]);
      HostGrows(front, t, labels, text);
    } else {
      NameSpells(front, hosts, tail[..|tail| - 1]);
    }
  }

  lemma HostGrows(front: seq<Token>, t: Token, hosts: seq<seq<byte>>, text: seq<byte>)
    requires t.Label? && text == CString(t.bytes) && |text| < FIELD && (hosts != [] ==> Continues(text))
    requires !SameText(text, SUB) && Spells(Fold(NoName, front), front, hosts, [])
    requires Labels(front + [t]) == Labels(front) + [text]
    ensures Spells(TakeToken(Fold(NoName, front), t), front + [t], hosts + [text], [])
  {
    UnmarkedLast(Labels(front), text);
    if hosts != [] {
      DottedLast(hosts, text);
      CutTwice(Dotted(hosts), text);
    }
  }

  // A hop or a marker: no part, but it may come after the fourth.
  lemma NoPartSpells(front: seq<Token>, t: Token, hosts: seq<seq<byte>>, tail: seq<seq<byte>>)
    requires (t.Hop? || SameText(CString(t.bytes), SUB)) && (hosts == [] ==> tail == [])
    requires Spells(Fold(NoName, front), front, hosts, tail)
    requires Labels(front + [t]) == Labels(front) + if t.Label? then [CString(t.bytes)] else []
    ensures Spells(TakeToken(Fold(NoName, front), t), front + [t], hosts, tail)
  {
    var n := Fold(NoName, front);
    assert (front + [t])[|front|] == t;
    if t.Label? {
      var text := CString(t.bytes);
      UnmarkedLast(Labels(front), text);
      assert text[0] == UNDERSCORE by {
        assert Lower(text[0]) == Lower(SUB[0]);
      }
      assert !JoinsHost(CheckFull(n), text);
    } else {
      assert Labels(front) + [] == Labels(front);
    }
  }

  lemma FittingFront(front: seq<Token>, t: Token)
    requires Fitting(front + [t])
    ensures Fitting(front)
  {
    assert forall i :: 0 <= i < |front| ==> front[i] == (front + [t])[i];
  }

  /** Every sequence of tokens spells its labels: the first of them and those that continue it
      make the host name, joined by dots and cut to its field; the next three are the other parts;
      the marker is noted and nothing else; and a name is invalid exactly when anything comes
      after its fourth part. */
  lemma {:induction false} NameSpells(tokens: seq<Token>, hosts: seq<seq<byte>>, tail: seq<seq<byte>>)
    requires Fitting(tokens) && Split(Unmarked(Labels(tokens)), hosts, tail)
    ensures Spells(Fold(NoName, tokens), tokens, hosts, tail)
    decreases |tokens|
  {
    if tokens != [] {
      var front, t := tokens[..|tokens| - 1], tokens[|tokens| - 1];
      assert tokens == front + [t];
      FoldLast(NoName, front, t);
      LabelsLast(front, t);
      FittingFront(front, t);
      if t.Label? && !SameText(CString(t.bytes), SUB) {
        UnmarkedLast(Labels(front), CString(t.bytes));
        PartSpells(front, t, hosts, tail);
      } else {
        LabelsUnmarked(front, t);
        NameSpells(front, hosts, tail);
        NoPartSpells(front, t, hosts, tail);
      }
    }
  }

  lemma LabelsUnmarked(front: seq<Token>, t: Token)
    requires t.Hop? || SameText(CString(t.bytes), SUB)
    ensures Unmarked(Labels(front + [t])) == Unmarked(Labels(front))
  {
    LabelsLast(front, t);
    if t.Label? {
      UnmarkedLast(Labels(front), CString(t.bytes));
    } else {
      assert Labels(front) + [] == Labels(front);
    }
  }

  // ---- What the packet parser makes of it ----

  predicate KnownDomain(text: seq<byte>)
  {
    SameText(text, LOCAL) || SameText(text, ARPA)
  }

  lemma ArrangedFields(n: Name, host: seq<byte>, tail: seq<seq<byte>>)
    requires n.host == host && n.parts == 1 + |tail| && !n.invalid && 1 <= |tail| <= 3 && n.service == tail[0]
    requires n.proto == (if |tail| >= 2 then tail[1] else []) && n.domain == (if |tail| >= 3 then tail[2] else [])
    ensures var m := Arranged(n);
      && m.parts == 1 + |tail| && m.domain == tail[|tail| - 1] && (m.invalid <==> !KnownDomain(m.domain))
      && (|tail| == 1 ==> m.host == host && m.service == [] && m.proto == [])
      && (|tail| == 2 ==> m.host == [] && m.service == host && m.proto == tail[0])
      && (|tail| == 3 ==> m.host == host && m.service == tail[0] && m.proto == tail[1])
  {
  }

  /** A name that ends in its second, third or fourth part: the last part is its domain, and a
      known one is all that a valid name takes; what was spelled first is the host of a two- or
      four-part name and the service of a three-part name. */
  lemma PartsArranged(tokens: seq<Token>, hosts: seq<seq<byte>>, tail: seq<seq<byte>>)
    requires Fitting(tokens) && Split(Unmarked(Labels(tokens)), hosts, tail) && 1 <= |tail| <= 3
    requires |tail| == 3 ==> EndsInPart(tokens)
    ensures var m := Arranged(Fold(NoName, tokens));
      && m.parts == 1 + |tail| && m.domain == tail[|tail| - 1] && (m.invalid <==> !KnownDomain(m.domain))
      && (|tail| == 1 ==> m.host == Cut(Dotted(hosts)) && m.service == [] && m.proto == [])
      && (|tail| == 2 ==> m.host == [] && m.service == Cut(Dotted(hosts)) && m.proto == tail[0])
      && (|tail| == 3 ==> m.host == Cut(Dotted(hosts)) && m.service == tail[0] && m.proto == tail[1])
  {
    NameSpells(tokens, hosts, tail);
    ArrangedFields(Fold(NoName, tokens), Cut(Dotted(hosts)), tail);
  }

  // The labels one after the other, each behind its length.
  function LabelRun(labels: seq<seq<byte>>): seq<byte>
    requires ShortLabels(labels)
  {
    if labels == [] then [] else LabelBytes(labels[0]) + LabelRun(labels[1..])
  }

  predicate ShortLabels(labels: seq<seq<byte>>)
  {
    forall i :: 0 <= i < |labels| ==> 0 < |labels[i]| <= MAX_LABEL && 0 !in labels[i]
  }

  lemma {:induction false} LabelRunReads(buf: seq<byte>, limit: nat, base: nat, pos: nat, labels: seq<seq<byte>>)
    requires limit < |buf| && ShortLabels(labels) && pos + |LabelRun(labels)| < limit
    requires buf[pos..pos + |LabelRun(labels)|] == LabelRun(labels) && buf[pos + |LabelRun(labels)|] == 0
    ensures var r := ScanFrom(buf, limit, base, pos);
      && r.ok && r.inside && r.next == pos + |LabelRun(labels)| + 1
      && Labels(r.tokens) == labels && Fitting(r.tokens)
    decreases |labels|
  {
    if labels != [] {
      RunStarts(buf, pos, labels[0], LabelRun(labels[1..]));
      LabelRunReads(buf, limit, base, pos + 1 + |labels[0]|, labels[1..]);
      OneLabelMore(buf, limit, base, pos, labels);
    }
  }

  lemma RunStarts(buf: seq<byte>, pos: nat, l: seq<byte>, rest: seq<byte>)
    requires 0 < |l| <= MAX_LABEL && pos + 1 + |l| + |rest| <= |buf|
    requires buf[pos..pos + 1 + |l| + |rest|] == LabelBytes(l) + rest
    ensures var after := pos + 1 + |l|;
      buf[pos] == |l| && buf[pos + 1..after] == l && buf[after..after + |rest|] == rest
  {
    var run := buf[pos..pos + 1 + |l| + |rest|];
    assert buf[pos] == run[0];
    SliceOfSlice(buf, pos, pos + |run|, 1, 1 + |l|);
    SliceOfSlice(buf, pos, pos + |run|, 1 + |l|, |run|);
  }

  lemma ScanLabel(buf: seq<byte>, limit: nat, base: nat, pos: nat, l: seq<byte>)
    requires limit < |buf| && 0 < |l| <= MAX_LABEL && pos + 1 + |l| <= limit
    requires buf[pos] == |l| && buf[pos + 1..pos + 1 + |l|] == l
    ensures var rest := ScanFrom(buf, limit, base, pos + 1 + |l|);
      ScanFrom(buf, limit, base, pos) == rest.(tokens := [Label(l)] + rest.tokens)
  {
  }

  // A label in the packet comes before what is read behind it.
  lemma OneLabelMore(buf: seq<byte>, limit: nat, base: nat, pos: nat, labels: seq<seq<byte>>)
    requires limit < |buf| && labels != [] && 0 < |labels[0]| <= MAX_LABEL && 0 !in labels[0]
    requires pos + 1 + |labels[0]| <= limit && buf[pos] == |labels[0]|
      && buf[pos + 1..pos + 1 + |labels[0]|] == labels[0]
    requires var r := ScanFrom(buf, limit, base, pos + 1 + |labels[0]|);
      Labels(r.tokens) == labels[1..] && Fitting(r.tokens)
    ensures var r := ScanFrom(buf, limit, base, pos);
            var rest := ScanFrom(buf, limit, base, pos + 1 + |labels[0]|);
      && Labels(r.tokens) == labels && Fitting(r.tokens)
      && r.ok == rest.ok && r.inside == rest.inside && r.next == rest.next
  {
    ScanLabel(buf, limit, base, pos, labels[0]);
    LabelInFront(labels, ScanFrom(buf, limit, base, pos + 1 + |labels[0]|).tokens);
  }

  lemma LabelInFront(labels: seq<seq<byte>>, rest: seq<Token>)
    requires labels != [] && |labels[0]| <= MAX_LABEL && 0 !in labels[0]
    requires Labels(rest) == labels[1..] && Fitting(rest)
    ensures var tokens := [Label(labels[0])] + rest;
      Labels(tokens) == labels && Fitting(tokens)
  {
    var tokens := [Label(labels[0])] + rest;
    CStringIs(labels[0]);
    assert tokens[1..] == rest;
    LabelsOfTail(tokens);
    assert labels == [labels[0]] + labels[1..];
  }

  lemma {:induction false} NoMarkerUnmarked(labels: seq<seq<byte>>)
    requires NoSub(labels)
    ensures Unmarked(labels) == labels
  {
    UnmarkedIff(labels);
  }

  lemma ContinuesUnmarked(text: seq<byte>)
    requires Continues(text) || SameText(text, LOCAL)
    ensures !SameText(text, SUB)
  {
    if Continues(text) && text != [] {
      assert Lower(text[0]) != Lower(SUB[0]);
    }
  }

  /** A dotted host name in a packet: the labels l0 .. lk and the local domain, where l0 is not the
      marker and l1 .. lk start no service and are no known domain. It is read as a valid two-part
      name, whose host is l0 to lk with dots between them, as far as the field holds them. */
  lemma DottedHostReads(buf: seq<byte>, limit: nat, start: nat, hosts: seq<seq<byte>>, domain: seq<byte>)
    requires limit < |buf| && hosts != [] && SameText(domain, LOCAL) && !SameText(hosts[0], SUB)
    requires forall i :: 1 <= i < |hosts| ==> Continues(hosts[i])
    requires ShortLabels(hosts + [domain]) && start + |LabelRun(hosts + [domain])| < limit
    requires var n := |LabelRun(hosts + [domain])|;
      buf[start..start + n] == LabelRun(hosts + [domain]) && buf[start + n] == 0
    ensures var r := ScanFrom(buf, limit, start, start);
            var n := Fold(NoName, r.tokens);
      && r.ok && n.parts == 2 && n.host == Cut(Dotted(hosts)) && n.service == domain
      && Arranged(n) == Name(Cut(Dotted(hosts)), [], [], domain, 2, false, false)
  {
    var labels := hosts + [domain];
    LabelRunReads(buf, limit, start, start, labels);
    var tokens := ScanFrom(buf, limit, start, start).tokens;
    forall i | 0 <= i < |labels| ensures !SameText(labels[i], SUB) {
      if i > 0 {
        ContinuesUnmarked(labels[i]);
      }
    }
    NoMarkerUnmarked(labels);
    assert !Continues(domain);
    NameSpells(tokens, hosts, [domain]);
    PartsArranged(tokens, hosts, [domain]);
  }

  // Case makes no difference to letters, and to nothing else.
  lemma OnlyLettersFold(a: byte, b: byte)
    ensures SameText([a], [b]) <==>
      a == b || (65 <= a <= 90 && b == a + 32) || (65 <= b <= 90 && a == b + 32)
  {
    assert SameText([a], [b]) <==> Lower([a][0]) == Lower([b][0]);
  }

  // For instance, the labels a, b and local name the host a.b.
  lemma DottedHostExample()
    ensures Cut(Dotted([[97], [98]])) == [97, DOT, 98]
  {
    DottedLast([[97]], [98]);
    assert [[97]] + [[98]] == [[97], [98]];
  }
}
