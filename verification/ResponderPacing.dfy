/** The pace of probing (section 8.1 of RFC 6762): an announcement is built from a probe only after
    three probes, each more than 250 ms after the one before and asking for nothing that one did
    not ask for. This holds in every run: timer passes may be disturbed, and probing may start on
    interfaces that are down. */
module ResponderPacing {
  import opened MdnsTypes
  import opened TxQueue
  import opened Responder
  import opened ResponderEffects
  import opened ResponderPipeline

  predicate ProbeSent(e: Event, state: PcbState) { e.Sent? && e.state == state && e.packet.probe }

  // The second probe comes more than 250 ms after the first, for no other services.
  predicate NextProbe(first: Event, second: Event)
  {
    && first.Sent? && second.Sent?
    && second.at > first.at + 250 && AllIn(second.packet.services, first.packet.services)
  }

  predicate ThreeProbes(t: seq<Event>)
  {
    && |t| == 3 && ProbeSent(t[0], Probe1) && ProbeSent(t[1], Probe2) && ProbeSent(t[2], Probe3)
    && NextProbe(t[0], t[1]) && NextProbe(t[1], t[2])
  }

  // At most one packet is listed, a probe.
  predicate LoneProbe(of: seq<Packet>)
  {
    |of| <= 1 && (of != [] ==> of[0].probe)
  }

  // And it would be the next probe after the given one.
  predicate Behind(of: seq<Packet>, last: Event)
  {
    last.Sent? && (of != [] ==> of[0].sendAt >= last.at + 250 && AllIn(of[0].services, last.packet.services))
  }

  // A probing interface has at most one packet listed, and has sent one probe for each probing
  // state it has been through.
  predicate PacedOne(state: PcbState, t: seq<Event>, of: seq<Packet>)
  {
    match state
    case Probe1 => LoneProbe(of) && t == []
    case Probe2 => LoneProbe(of) && |t| == 1 && ProbeSent(t[0], Probe1) && Behind(of, t[0])
    case Probe3 => LoneProbe(of) && |t| == 2 && ProbeSent(t[0], Probe1) && ProbeSent(t[1], Probe2)
                   && NextProbe(t[0], t[1]) && Behind(of, t[1])
    case _ => true
  }

  // Every announcement built from a probe comes right after a full sequence of probes.
  predicate AnnouncedProperly(log: seq<Event>)
  {
    forall i :: 0 <= i < |log| && log[i].Announced? ==> ThreeProbes(Trail(log[..i], log[i].pcb))
  }

  lemma AnnouncedStep(log: seq<Event>, e: Event)
    requires AnnouncedProperly(log)
    requires e.Announced? ==> ThreeProbes(Trail(log, e.pcb))
    ensures AnnouncedProperly(log + [e])
  {
    var r := log + [e];
    forall i | 0 <= i < |r| && r[i].Announced? ensures ThreeProbes(Trail(r[..i], r[i].pcb)) {
      assert r[..i] == log[..i];
      assert log[..|log|] == log;
    }
  }

  predicate PacedAt(s: State, p: nat)
    requires p < |s.pcbs|
  {
    PacedOne(s.pcbs[p].state, Trail(s.log, p), Of(s.queue, p))
  }

  predicate Paced(s: State)
  {
    AnnouncedProperly(s.log) && forall p :: 0 <= p < |s.pcbs| ==> PacedAt(s, p)
  }

  lemma OnePaced(s: State, t: State, p: nat)
    requires Paced(s) && p < |s.pcbs| == |t.pcbs| && AnnouncedProperly(t.log) && PacedAt(t, p)
    requires forall q :: 0 <= q < |s.pcbs| && q != p ==> Untouched(s, t, q)
    ensures Paced(t)
  {
    forall q | 0 <= q < |t.pcbs| ensures PacedAt(t, q) {
      if q != p {
        assert PacedAt(s, q) && Untouched(s, t, q);
      }
    }
  }

  // ---- Probing ----

  lemma InitProbePaced(s: State, p: nat, list: seq<Service>, ip: bool, jitter: nat)
    requires Paced(s) && p < |s.pcbs|
    ensures Paced(InitProbe(s, p, list, ip, jitter))
  {
    var t := InitProbe(s, p, list, ip, jitter);
    InitProbeOwn(s, p, list, ip, jitter);
    if s.hostname {
      AnnouncedStep(s.log, Restarted(p));
    }
    forall q | 0 <= q < |s.pcbs| && q != p ensures Untouched(s, t, q) {
      InitProbeOthers(s, p, list, ip, jitter, q);
    }
    OnePaced(s, t, p);
  }

  lemma ClearedPaced(s: State, p: nat)
    requires Paced(s) && p < |s.pcbs|
    ensures Paced(ClearOldProbe(s, p))
  {
    assert PacedAt(s, p);
    OnePaced(s, ClearOldProbe(s, p), p);
  }

  lemma {:induction false} RestartPaced(s: State, k: nat, jitters: seq<nat>)
    requires Paced(s) && k <= |s.pcbs| == |jitters|
    ensures Paced(RestartFrom(s, k, jitters))
    decreases |s.pcbs| - k
  {
    if k < |s.pcbs| {
      if s.pcbs[k].ready {
        ClearedPaced(s, k);
        InitProbePaced(ClearOldProbe(s, k), k, s.services, true, jitters[k]);
        RestartPaced(InitProbe(ClearOldProbe(s, k), k, s.services, true, jitters[k]), k + 1, jitters);
      } else {
        RestartPaced(s, k + 1, jitters);
      }
    }
  }

  // Without packets there is nothing that could be due too early.
  lemma WipedPaced(s: State)
    requires Paced(s)
    ensures Paced(s.(queue := []))
  {
    forall p | 0 <= p < |s.pcbs| ensures PacedAt(s.(queue := []), p) {
      assert PacedAt(s, p);
    }
  }

  // ---- Interfaces that are not probing ----

  lemma WithPacketPaced(s: State, x: Packet, c: Pcb)
    requires Paced(s) && x.pcb < |s.pcbs| && !c.state.Probing()
    ensures Paced(WithPacket(s, x, c))
  {
    var t := WithPacket(s, x, c);
    forall q | 0 <= q < |s.pcbs| && q != x.pcb ensures Untouched(s, t, q) {
      WithPacketOthers(s, x, c, q);
    }
    OnePaced(s, t, x.pcb);
  }

  lemma EnrichPaced(s: State, p: nat, list: seq<Service>, ip: bool, k: nat)
    requires Paced(s) && p < |s.pcbs| && k < |s.queue| && s.queue[k].pcb == p
    ensures Paced(s.(queue := s.queue[k := Enrich(s.queue[k], list, ip)],
      pcbs := s.pcbs[p := s.pcbs[p].(state := Announce1)]))
  {
    var y := Enrich(s.queue[k], list, ip);
    var t := s.(queue := s.queue[k := y], pcbs := s.pcbs[p := s.pcbs[p].(state := Announce1)]);
    forall q | 0 <= q < |s.pcbs| && q != p ensures Untouched(s, t, q) {
      EnrichOfOthers(s.queue, k, y, q);
    }
    OnePaced(s, t, p);
  }

  lemma AnnouncePaced(s: State, p: nat, list: seq<Service>, ip: bool, jitter: nat)
    requires Paced(s) && p < |s.pcbs|
    ensures Paced(AnnouncePcb(s, p, list, ip, jitter))
  {
    var c := s.pcbs[p];
    if !c.ready {
    } else if c.state.ProbingMacro() {
      InitProbePaced(s, p, list, ip, jitter);
    } else if c.state.AnnouncingMacro() {
      var k := FirstOf(s.queue, p);
      if k < |s.queue| {
        EnrichPaced(s, p, list, ip, k);
      }
    } else if c.state.Running? && s.hostname {
      var x := Packet(s.nextId, p, s.now, false, false, list, if ip then Elsewhere else Absent);
      WithPacketPaced(s, x, c.(state := Announce1));
    }
  }

  lemma TakeDownPaced(s: State, p: nat, final: PcbState)
    requires Paced(s) && p < |s.pcbs| && (final.Off? || final.Dup?)
    ensures Paced(TakeDown(s, p, final))
  {
    var t := TakeDown(s, p, final);
    forall q | 0 <= q < |s.pcbs| && q != p ensures Untouched(s, t, q) {
      TakeDownOthers(s, p, final, q);
    }
    OnePaced(s, t, p);
  }

  lemma EnablePaced(s: State, p: nat, joined: bool, jitter: nat)
    requires Paced(s) && p < |s.pcbs|
    ensures Paced(EnablePcb(s, p, joined, jitter))
  {
    assert PacedAt(s, p);
    var failed := s.(pcbs := s.pcbs[p := s.pcbs[p].(failedProbes := 0)]);
    var up := s.(pcbs := s.pcbs[p := s.pcbs[p].(ready := true)]);
    OnePaced(s, failed, p);
    OnePaced(s, up, p);
    InitProbePaced(up, p, s.services, true, jitter);
  }

  // ---- Removing a service ----

  lemma {:induction false} StripOneState(of: seq<Packet>, c: Pcb, service: Service)
    ensures StripOne(of, c, service).pcb.state == c.state || StripOne(of, c, service).pcb.state.Running?
  {
    if of != [] {
      StripOneState(of[1..], StripPcb(c, of[0], service), service);
    }
  }

  lemma StripOnePaced(of: seq<Packet>, c: Pcb, t: seq<Event>, service: Service)
    requires PacedOne(c.state, t, of)
    ensures PacedOne(StripOne(of, c, service).pcb.state, t, StripOne(of, c, service).of)
  {
    StripOneState(of, c, service);
    if |of| == 1 {
      assert of[1..] == [];
      assert StripOne(of[1..], StripPcb(c, of[0], service), service).of == [];
      var x := StripPacket(of[0], service);
      assert StripOne(of, c, service).of == if x.Empty() then [] else [x];
      assert x.sendAt == of[0].sendAt && x.probe == of[0].probe && AllIn(x.services, of[0].services);
    }
  }

  lemma RemoveServicePaced(s: State, service: Service)
    requires Paced(s) && WellFormed(s)
    ensures Paced(Next(s, RemoveService(service)))
  {
    var r := Strip(s.queue, s.pcbs, service);
    var t := Next(s, RemoveService(service));
    assert t == s.(queue := r.queue, pcbs := r.pcbs, services := Without(s.services, service));
    forall p | 0 <= p < |t.pcbs| ensures PacedAt(t, p) {
      assert PacedAt(s, p);
      StripProjects(s.queue, s.pcbs, service, p);
      StripOnePaced(Of(s.queue, p), s.pcbs[p], Trail(s.log, p), service);
    }
  }

  // ---- Handling the list head ----

  // The state before the pop, with x its head as handled.
  predicate AboutToSend(s: State, x: Packet)
  {
    Paced(s) && s.queue != [] && x == s.queue[0].(queued := false) && x.sendAt < s.now && x.pcb < |s.pcbs|
  }

  lemma ProbePopped(s: State, x: Packet)
    requires AboutToSend(s, x) && s.pcbs[x.pcb].state.Probing()
    ensures Of(s.queue, x.pcb) == [x] && Of(Popped(s).queue, x.pcb) == []
  {
    assert PacedAt(s, x.pcb);
    PopOf(s.queue, x.pcb);
  }

  lemma SendProbe12(s: State, x: Packet)
    requires AboutToSend(s, x) && (s.pcbs[x.pcb].state.Probe1? || s.pcbs[x.pcb].state.Probe2?)
    ensures PacedAt(HandlePacket(Popped(s), x), x.pcb)
  {
    assert PacedAt(s, x.pcb);
    ProbePopped(s, x);
    HandledPcbs(Popped(s), x);
    SentTrail(Popped(s), x, x.pcb);
    HandledTrail(Popped(s), x, x.pcb);
    ResentAlone(Popped(s), x);
  }

  lemma ProbesDone(s: State, x: Packet)
    requires AboutToSend(s, x) && s.pcbs[x.pcb].state.Probe3?
    ensures ThreeProbes(Trail(AfterSending(Popped(s), x).log, x.pcb))
  {
    assert PacedAt(s, x.pcb);
    ProbePopped(s, x);
    SentTrail(Popped(s), x, x.pcb);
  }

  lemma HandleAnnounced(s: State, x: Packet)
    requires AboutToSend(s, x)
    ensures AnnouncedProperly(HandlePacket(Popped(s), x).log)
  {
    if !s.pcbs[x.pcb].state.Off? {
      HandledLog(Popped(s), x);
      AnnouncedStep(s.log, Sent(x.pcb, s.pcbs[x.pcb].state, x, s.now));
      if s.pcbs[x.pcb].state.Probe3? {
        ProbesDone(s, x);
        AnnouncedStep(AfterSending(Popped(s), x).log, Announced(x.pcb));
      }
    }
  }

  lemma HandlePaced(s: State, x: Packet)
    requires AboutToSend(s, x)
    ensures Paced(HandlePacket(Popped(s), x))
  {
    var t := HandlePacket(Popped(s), x);
    HandleAnnounced(s, x);
    forall q | 0 <= q < |s.pcbs| && q != x.pcb ensures |t.pcbs| == |s.pcbs| && Untouched(s, t, q) {
      HandleOthers(Popped(s), x, q);
      PopOf(s.queue, q);
    }
    if s.pcbs[x.pcb].state.Probe1? || s.pcbs[x.pcb].state.Probe2? {
      SendProbe12(s, x);
    } else {
      HandledPcbs(Popped(s), x);
    }
    OnePaced(s, t, x.pcb);
  }

  lemma ExecutePaced(s: State)
    requires Paced(s) && Sound(s) && s.hand.Some?
    ensures Paced(ExecuteHand(s))
  {
    if HeadMatches(s.queue, s.hand.value) {
      HandlePaced(s, s.queue[0].(queued := false));
    } else if s.hand.value.Tx? {
      var t := ExecuteHand(s);
      var e := t.log[|s.log|];
      AnnouncedStep(s.log, e);
      forall p | 0 <= p < |t.pcbs| ensures PacedAt(t, p) {
        assert PacedAt(s, p);
        TrailStep(s.log, e, p);
      }
    } else {
      SameInterfaces(s, ExecuteHand(s));
    }
  }

  // ---- Every step ----

  lemma SameInterfaces(s: State, t: State)
    requires Paced(s) && |t.pcbs| == |s.pcbs| && t.log == s.log
    requires forall p :: 0 <= p < |s.pcbs| ==> t.pcbs[p].state == s.pcbs[p].state && Of(t.queue, p) == Of(s.queue, p)
    ensures Paced(t)
  {
    forall p | 0 <= p < |t.pcbs| ensures PacedAt(t, p) {
      assert PacedAt(s, p);
    }
  }

  lemma TimerPaced(s: State, receiveAt: Option<nat>)
    requires Paced(s)
    ensures Paced(RunTimer(s, receiveAt))
  {
    var t := RunTimer(s, receiveAt);
    forall p | 0 <= p < |s.pcbs| ensures t.pcbs[p].state == s.pcbs[p].state && Of(t.queue, p) == Of(s.queue, p) {
      PassUntouched(s, receiveAt, p);
    }
    SameInterfaces(s, t);
  }

  lemma InterfaceStepPaced(s: State, i: Input)
    requires Paced(s) && Enabled(s, i)
    requires i.Enable? || i.Disable? || i.MarkDup? || i.SetHostname? || i.RestartAll? || i.RemoveService?
    ensures Paced(Next(s, i))
  {
    match i {
      case SetHostname(jitters) =>
        SameInterfaces(s, s.(hostname := true));
        WipedPaced(s.(hostname := true));
        RestartPaced(s.(hostname := true, queue := []), 0, jitters);
      case RestartAll(jitters) =>
        WipedPaced(s);
        RestartPaced(s.(queue := []), 0, jitters);
      case Enable(p, joined, jitter) => EnablePaced(s, p, joined, jitter);
      case Disable(p) => TakeDownPaced(s, p, Off);
      case MarkDup(p) => TakeDownPaced(s, p, Dup);
      case RemoveService(x) => RemoveServicePaced(s, x);
    }
  }

  /** Every step keeps the pace, disturbed or not, on interfaces that are up or down. */
  lemma StepKeepsPaced(s: State, i: Input)
    requires Paced(s) && Sound(s) && Enabled(s, i)
    ensures Paced(Next(s, i))
  {
    match i {
      case Timer(receiveAt) => TimerPaced(s, receiveAt);
      case Execute => ExecutePaced(s);
      case Probe(p, list, ip, clearOld, jitter) =>
        ClearedPaced(s, p);
        InitProbePaced(if clearOld then ClearOldProbe(s, p) else s, p, list, ip, jitter);
      case Announce(p, list, ip, jitter) => AnnouncePaced(s, p, list, ip, jitter);
      case Answer(p, list, hosts, shareStep) =>
        WithPacketPaced(s, AnswerPacket(s, p, list, hosts, shareStep), s.pcbs[p]);
      case Tick(_) | Receive | PostOther | Conflict(_) | AddService(_) => SameInterfaces(s, Next(s, i));
      case _ => InterfaceStepPaced(s, i);
    }
  }
}
