/** What one operation does to one interface: its control block, its packets in the list, and the
    packets it has sent since probing last began there. */
module ResponderEffects {
  import opened MdnsTypes
  import opened TxQueue
  import opened Responder

  // Queued packets an interface sent since probing last began on it.
  function Trail(log: seq<Event>, p: nat): seq<Event>
  {
    if log == [] then []
    else
      var e := log[|log| - 1];
      var front := log[..|log| - 1];
      if e == Restarted(p) then []
      else if e.Sent? && e.pcb == p then Trail(front, p) + [e]
      else Trail(front, p)
  }

  lemma TrailStep(log: seq<Event>, e: Event, p: nat)
    ensures Trail(log + [e], p) ==
      if e == Restarted(p) then []
      else if e.Sent? && e.pcb == p then Trail(log, p) + [e]
      else Trail(log, p)
  {
    assert (log + [e])[..|log|] == log;
  }

  // What a step on another interface leaves as it was.
  predicate Untouched(s: State, t: State, p: nat)
    requires p < |s.pcbs| == |t.pcbs|
  {
    t.pcbs[p] == s.pcbs[p] && Of(t.queue, p) == Of(s.queue, p) && Trail(t.log, p) == Trail(s.log, p)
  }

  lemma {:induction false} NotInNothing(xs: seq<Service>)
    ensures NotIn(xs, []) == xs
  {
    if xs != [] {
      var front, last := xs[..|xs| - 1], xs[|xs| - 1];
      NotInNothing(front);
      assert NotIn(xs, []) == front + [last];
    }
  }

  lemma WellFormedInsert(q: seq<Packet>, x: Packet, n: nat)
    requires (forall i :: 0 <= i < |q| ==> q[i].pcb < n) && x.pcb < n
    ensures forall i :: 0 <= i < |Insert(q, x)| ==> Insert(q, x)[i].pcb < n
  {
    var k := InsertAt(q, x);
    forall i | 0 <= i < |Insert(q, x)| ensures Insert(q, x)[i].pcb < n {
      assert i == k || Insert(q, x)[i] == q[if i < k then i else i - 1];
    }
  }

  lemma WellFormedClear(q: seq<Packet>, p: nat, n: nat)
    requires forall i :: 0 <= i < |q| ==> q[i].pcb < n
    ensures forall i :: 0 <= i < |ClearPcb(q, p)| ==> ClearPcb(q, p)[i].pcb < n
  {
    ClearPcbDropsExactly(q, p);
    forall i | 0 <= i < |ClearPcb(q, p)| ensures ClearPcb(q, p)[i].pcb < n {
      assert ClearPcb(q, p)[i] in ClearPcb(q, p);
    }
  }

  // ---- Probing ----

  // Whatever happens on one interface leaves the others alone.
  lemma InitProbeOthers(s: State, p: nat, list: seq<Service>, ip: bool, jitter: nat, other: nat)
    requires p < |s.pcbs| && other < |s.pcbs| && other != p
    ensures Untouched(s, InitProbe(s, p, list, ip, jitter), other)
  {
    var cleared := ClearPcb(s.queue, p);
    ClearPcbKeepsOthers(s.queue, p, other);
    if s.hostname {
      InsertOf(cleared, ProbePacket(s, p, list, ip, jitter), other);
      TrailStep(s.log, Restarted(p), other);
    }
  }

  // The interface's one packet is the new probe, or none when there is no host name.
  lemma InitProbeOwn(s: State, p: nat, list: seq<Service>, ip: bool, jitter: nat)
    requires p < |s.pcbs|
    ensures var t := InitProbe(s, p, list, ip, jitter);
      && |t.pcbs| == |s.pcbs|
      && Of(t.queue, p) == (if s.hostname then [ProbePacket(s, p, list, ip, jitter)] else [])
      && Trail(t.log, p) == (if s.hostname then [] else Trail(s.log, p))
  {
    var cleared := ClearPcb(s.queue, p);
    ClearPcbDropsExactly(s.queue, p);
    if s.hostname {
      InsertOf(cleared, ProbePacket(s, p, list, ip, jitter), p);
      TrailStep(s.log, Restarted(p), p);
    }
  }

  // ---- Announcing ----

  lemma FirstOfExists(q: seq<Packet>, p: nat)
    requires Of(q, p) != []
    ensures FirstOf(q, p) < |q|
  {
    if q[0].pcb != p {
      FirstOfExists(q[1..], p);
    }
  }

  // Merging more records into a packet in place.
  lemma {:induction false} EnrichOf(q: seq<Packet>, k: nat, y: Packet, p: nat)
    requires k < |q| && SameSlot(y, q[k]) && y.probe == q[k].probe && !y.Empty()
    ensures |Of(q[k := y], p)| == |Of(q, p)|
    ensures p != y.pcb ==> Of(q[k := y], p) == Of(q, p)
    ensures (forall x :: x in Of(q, p) ==> !x.probe && !x.Empty())
        ==> (forall x :: x in Of(q[k := y], p) ==> !x.probe && !x.Empty())
  {
    if k > 0 {
      assert q[k := y][1..] == q[1..][k - 1 := y];
      EnrichOf(q[1..], k - 1, y, p);
      if forall x :: x in Of(q, p) ==> !x.probe && !x.Empty() {
        assert forall x :: x in Of(q[1..], p) ==> x in Of(q, p);
      }
    } else {
      assert q[k := y][1..] == q[1..];
      assert forall x :: x in Of(q[1..], p) ==> x in Of(q, p);
    }
  }

  lemma {:induction false} EnrichOfOthers(q: seq<Packet>, k: nat, y: Packet, p: nat)
    requires k < |q| && SameSlot(y, q[k]) && p != y.pcb
    ensures Of(q[k := y], p) == Of(q, p)
  {
    if k > 0 {
      assert q[k := y][1..] == q[1..][k - 1 := y];
      EnrichOfOthers(q[1..], k - 1, y, p);
    } else {
      assert q[k := y][1..] == q[1..];
    }
  }

  // A packet of the list shows up among its interface's packets.
  lemma {:induction false} EmptyOf(q: seq<Packet>, k: nat)
    requires k < |q|
    ensures q[k].(queued := false) in Of(q, q[k].pcb)
  {
    if k > 0 {
      EmptyOf(q[1..], k - 1);
    }
  }

  // ---- Removing a service ----

  lemma {:induction false} WithoutAbsent(xs: seq<Service>, x: Service)
    requires x !in xs
    ensures Without(xs, x) == xs
  {
    if xs != [] {
      WithoutAbsent(xs[..|xs| - 1], x);
    }
  }

  lemma {:induction false} StripSubsequence(q: seq<Packet>, pcbs: seq<Pcb>, service: Service)
    requires forall i :: 0 <= i < |q| ==> q[i].pcb < |pcbs|
    requires DistinctIds(q)
    ensures Subsequence(Strip(q, pcbs, service).queue, q)
    ensures forall i :: 0 <= i < |Strip(q, pcbs, service).queue| ==> Strip(q, pcbs, service).queue[i].pcb < |pcbs|
  {
    if q != [] {
      var p := q[0].pcb;
      var pcbs' := pcbs[p := StripPcb(pcbs[p], q[0], service)];
      PairsOfTail(q);
      StripSubsequence(q[1..], pcbs', service);
      var rest := Strip(q[1..], pcbs', service).queue;
      var x := StripPacket(q[0], service);
      var r := Strip(q, pcbs, service).queue;
      if x.Empty() {
        assert r == rest;
        if rest != [] {
          SubsequenceMembers(rest, q[1..], 0);
          assert !SameSlot(rest[0], q[0]) by {
            var j :| 0 <= j < |q[1..]| && SameSlot(rest[0], q[1..][j]);
            assert q[1..][j] == q[j + 1];
          }
        }
      } else {
        assert r == [x] + rest && r[1..] == rest;
      }
    }
  }

  // The effect of the removal on one interface, seen from that interface's packets alone.
  datatype StrippedOne = StrippedOne(of: seq<Packet>, pcb: Pcb)

  function StripOne(of: seq<Packet>, c: Pcb, service: Service): StrippedOne
  {
    if of == [] then StrippedOne([], c)
    else
      var rest := StripOne(of[1..], StripPcb(c, of[0], service), service);
      var x := StripPacket(of[0], service);
      rest.(of := (if x.Empty() then [] else [x]) + rest.of)
  }

  lemma StripOneCons(x: Packet, of: seq<Packet>, c: Pcb, service: Service)
    ensures var rest := StripOne(of, StripPcb(c, x, service), service);
            var y := StripPacket(x, service);
      StripOne([x] + of, c, service) == rest.(of := (if y.Empty() then [] else [y]) + rest.of)
  {
    assert ([x] + of)[1..] == of;
  }

  // One packet at the head, in front of a rest for which the projection holds.
  lemma StripHead(x: Packet, c: Pcb, of: seq<Packet>, service: Service, p: nat, queue: seq<Packet>, c': Pcb)
    requires StrippedOne(Of(queue, p), c')
          == StripOne(of, if x.pcb == p then StripPcb(c, x, service) else c, service)
    ensures var y := StripPacket(x, service);
      StrippedOne(Of((if y.Empty() then [] else [y]) + queue, p), c')
        == StripOne((if x.pcb == p then [x.(queued := false)] else []) + of, c, service)
  {
    var y := StripPacket(x, service);
    OfConcat(if y.Empty() then [] else [y], queue, p);
    HeadOf(x, y, p);
    if x.pcb == p {
      StripOwn(x, c, of, service, Of(queue, p), c');
    } else {
      assert [] + of == of && [] + Of(queue, p) == Of(queue, p);
    }
  }

  lemma StripOwn(x: Packet, c: Pcb, of: seq<Packet>, service: Service, of': seq<Packet>, c': Pcb)
    requires StrippedOne(of', c') == StripOne(of, StripPcb(c, x, service), service)
    ensures var y := StripPacket(x, service);
      StrippedOne((if y.Empty() then [] else [y.(queued := false)]) + of', c')
        == StripOne([x.(queued := false)] + of, c, service)
  {
    var z := x.(queued := false);
    StripOneCons(z, of, c, service);
    assert StripPacket(z, service) == StripPacket(x, service).(queued := false);
    assert StripPcb(c, z, service) == StripPcb(c, x, service);
  }

  lemma {:induction false} StripProjects(q: seq<Packet>, pcbs: seq<Pcb>, service: Service, p: nat)
    requires forall i :: 0 <= i < |q| ==> q[i].pcb < |pcbs|
    requires p < |pcbs|
    ensures var r := Strip(q, pcbs, service);
      StrippedOne(Of(r.queue, p), r.pcbs[p]) == StripOne(Of(q, p), pcbs[p], service)
  {
    if q != [] {
      var o := q[0].pcb;
      var pcbs' := pcbs[o := StripPcb(pcbs[o], q[0], service)];
      StripProjects(q[1..], pcbs', service, p);
      var rest := Strip(q[1..], pcbs', service);
      StripHead(q[0], pcbs[p], Of(q[1..], p), service, p, rest.queue, rest.pcbs[p]);
    }
  }

  lemma HeadOf(y: Packet, x: Packet, p: nat)
    requires x.pcb == y.pcb
    ensures Of([], p) == []
    ensures Of([x], p) == if y.pcb == p then [x.(queued := false)] else []
  {
  }

  // ---- Handling the list head ----

  function Popped(s: State): State
    requires s.queue != []
  {
    s.(hand := None, queue := s.queue[1..])
  }

  lemma PopOf(q: seq<Packet>, p: nat)
    requires q != []
    ensures Of(q, p) == (if q[0].pcb == p then [q[0].(queued := false)] else []) + Of(q[1..], p)
  {
  }

  lemma ResendOf(s: State, x: Packet, delay: nat, p: nat)
    requires x.pcb < |s.pcbs| && !x.queued
    ensures p != x.pcb ==> Of(Resend(s, x, delay).queue, p) == Of(s.queue, p)
    ensures p == x.pcb && Of(s.queue, p) == [] ==> Of(Resend(s, x, delay).queue, p) == [x.(sendAt := s.now + delay)]
    ensures p == x.pcb ==> |Of(Resend(s, x, delay).queue, p)| == |Of(s.queue, p)| + 1
    ensures p == x.pcb ==>
      forall y :: y in Of(Resend(s, x, delay).queue, p) <==> y in Of(s.queue, p) || y == x.(sendAt := s.now + delay)
  {
    var y := x.(sendAt := s.now + delay);
    assert y.(queued := false) == y;
    InsertOf(s.queue, y, p);
  }

  // A probe sent from an interface with nothing else listed is listed again.
  lemma ResentAlone(s: State, x: Packet)
    requires x.pcb < |s.pcbs| && !x.queued && Of(s.queue, x.pcb) == []
    requires s.pcbs[x.pcb].state.Probe1? || s.pcbs[x.pcb].state.Probe2?
    ensures Of(HandlePacket(s, x).queue, x.pcb) == [x.(sendAt := s.now + PROBE_INTERVAL)]
  {
    ResendOf(AfterSending(s, x), x, PROBE_INTERVAL, x.pcb);
  }

  lemma FinishProbingOf(s: State, x: Packet, p: nat)
    requires x.pcb < |s.pcbs|
    ensures p != x.pcb ==> Of(FinishProbing(s, x).queue, p) == Of(s.queue, p)
    ensures p == x.pcb && Of(s.queue, p) == [] ==> Of(FinishProbing(s, x).queue, p) == [AnnouncePacket(s, x)]
    ensures p == x.pcb ==> |Of(FinishProbing(s, x).queue, p)| == |Of(s.queue, p)| + 1
  {
    InsertOf(s.queue, AnnouncePacket(s, x), p);
  }

  lemma HandledLog(s: State, x: Packet)
    requires x.pcb < |s.pcbs| && !s.pcbs[x.pcb].state.Off?
    ensures var sent := AfterSending(s, x).log;
      HandlePacket(s, x).log == if s.pcbs[x.pcb].state.Probe3? then sent + [Announced(x.pcb)] else sent
  {
  }

  lemma SentTrail(s: State, x: Packet, p: nat)
    requires x.pcb < |s.pcbs|
    ensures Trail(AfterSending(s, x).log, p) ==
      if p == x.pcb then Trail(s.log, p) + [Sent(p, s.pcbs[p].state, x, s.now)] else Trail(s.log, p)
  {
    TrailStep(s.log, Sent(x.pcb, s.pcbs[x.pcb].state, x, s.now), p);
  }

  // The packet handled is on record, and nothing else that matters to the probing sequence.
  lemma HandledTrail(s: State, x: Packet, p: nat)
    requires x.pcb < |s.pcbs| && !s.pcbs[x.pcb].state.Off?
    ensures Trail(HandlePacket(s, x).log, p) == Trail(AfterSending(s, x).log, p)
  {
    HandledLog(s, x);
    TrailStep(AfterSending(s, x).log, Announced(x.pcb), p);
  }

  // What handling one of its packets does to an interface.
  function HandledPcb(c: Pcb): Pcb
  {
    match c.state
    case Probe1 | Probe2 | Announce1 | Announce2 => c.(state := c.state.Successor())
    case Probe3 => Pcb(Announce1, c.ready, [], false, false, 0)
    case Announce3 => c.(state := Running)
    case _ => c
  }

  lemma HandledPcbs(s: State, x: Packet)
    requires x.pcb < |s.pcbs|
    ensures var t := HandlePacket(s, x);
      && t.pcbs == s.pcbs[x.pcb := HandledPcb(s.pcbs[x.pcb])]
      && t.services == s.services && t.hostname == s.hostname
  {
    assert s.pcbs[x.pcb := s.pcbs[x.pcb]] == s.pcbs;
  }

  lemma HandleOthers(s: State, x: Packet, p: nat)
    requires x.pcb < |s.pcbs| && p < |s.pcbs| && p != x.pcb && !x.queued
    ensures |HandlePacket(s, x).pcbs| == |s.pcbs| && Untouched(s, HandlePacket(s, x), p)
  {
    HandledPcbs(s, x);
    HandleOfOthers(s, x, p);
    HandleTrailOthers(s, x, p);
  }

  lemma HandleTrailOthers(s: State, x: Packet, p: nat)
    requires x.pcb < |s.pcbs| && p != x.pcb
    ensures Trail(HandlePacket(s, x).log, p) == Trail(s.log, p)
  {
    if !s.pcbs[x.pcb].state.Off? {
      HandledTrail(s, x, p);
      SentTrail(s, x, p);
    }
  }

  lemma HandleOfOthers(s: State, x: Packet, p: nat)
    requires x.pcb < |s.pcbs| && p < |s.pcbs| && p != x.pcb && !x.queued
    ensures Of(HandlePacket(s, x).queue, p) == Of(s.queue, p)
  {
    var sent := AfterSending(s, x);
    match s.pcbs[x.pcb].state {
      case Probe1 | Probe2 => ResendOf(sent, x, PROBE_INTERVAL, p);
      case Announce1 | Announce2 => ResendOf(sent, x, ANNOUNCE_INTERVAL, p);
      case Probe3 => FinishProbingOf(sent, x, p);
      case _ =>
    }
  }

  // ---- Timer passes and interfaces going down ----

  lemma PassMarks(s: State, receiveAt: Option<nat>)
    ensures SameButMarks(RunTimer(s, receiveAt).queue, s.queue)
  {
    TimerPassOnlyMarks(s.queue, s.now, s.fifo, s.cap, receiveAt);
  }

  lemma PassUntouched(s: State, receiveAt: Option<nat>, p: nat)
    requires p < |s.pcbs|
    ensures Untouched(s, RunTimer(s, receiveAt), p)
  {
    PassMarks(s, receiveAt);
    MarksKeepOf(RunTimer(s, receiveAt).queue, s.queue, p);
  }

  lemma TakeDownOthers(s: State, p: nat, final: PcbState, other: nat)
    requires p < |s.pcbs| && other < |s.pcbs| && other != p
    ensures |TakeDown(s, p, final).pcbs| == |s.pcbs| && Untouched(s, TakeDown(s, p, final), other)
  {
    ClearPcbKeepsOthers(s.queue, p, other);
  }

  lemma WithPacketOthers(s: State, x: Packet, c: Pcb, other: nat)
    requires x.pcb < |s.pcbs| && other < |s.pcbs| && other != x.pcb
    ensures Untouched(s, WithPacket(s, x, c), other)
  {
    InsertOf(s.queue, x, other);
  }
}
