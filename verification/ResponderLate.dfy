/** Probing on interfaces that are down. The handlers of conflicting records start it without
    looking whether their interface is up; what can go wrong from there on, and exactly when, over
    every run. Timer passes may be disturbed throughout. */
module ResponderLate {
  import opened MdnsTypes
  import opened TxQueue
  import opened Responder
  import opened ResponderEffects
  import opened ResponderPipeline
  import opened ResponderPacing
  import opened ResponderInterfaces
  import opened ResponderRuns
  import opened ResponderLists

  // What should hold of every interface, up or down.
  datatype Aspect =
    | ProbeListed      // a probing interface has exactly its one probe listed, as recorded
    | MergeFits        // the next merge copies no more than it allocates
    | NoStrayProbe     // no other interface has a probe listed
    | DownIsSilent     // an interface that is down has nothing listed
    | FlagMatches      // the "probing" mark is set exactly while probing
    | RecordCleared    // only probing interfaces have services to probe on record
    | StillRegistered  // services on record are registered

  predicate HasProbe(of: seq<Packet>)
  {
    exists x :: x in of && x.probe
  }

  predicate HoldsOn(a: Aspect, c: Pcb, of: seq<Packet>, services: seq<Service>)
  {
    match a
    case ProbeListed => OneProbe(c, of)
    case MergeFits => Fits(c)
    case NoStrayProbe => !c.state.Probing() ==> !HasProbe(of)
    case DownIsSilent => !c.ready ==> of == []
    case FlagMatches => c.probeRunning <==> c.state.Probing()
    case RecordCleared => !c.state.Probing() ==> c.probeServices == []
    case StillRegistered => AllIn(c.probeServices, services)
  }

  predicate HoldsAt(a: Aspect, s: State, p: nat)
    requires p < |s.pcbs|
  {
    HoldsOn(a, s.pcbs[p], Of(s.queue, p), s.services)
  }

  predicate Holds(a: Aspect, s: State)
  {
    forall p :: 0 <= p < |s.pcbs| ==> HoldsAt(a, s, p)
  }

  predicate TakesDown(i: Input, p: nat) { i == Disable(p) || i == MarkDup(p) }

  // The input finds the interface up, or does it no harm.
  predicate SparesAt(a: Aspect, s: State, i: Input, p: nat)
    requires p < |s.pcbs|
  {
    var c := s.pcbs[p];
    c.ready || !match a
      case ProbeListed =>
        c.state.Probing() && (i.SetHostname? || i.RestartAll? || (i.RemoveService? && i.service in c.probeServices))
      case MergeFits => i == Disable(p) && c.probeServices != []
      case NoStrayProbe => TakesDown(i, p) && HasProbe(Of(s.queue, p))
      case DownIsSilent => (i.Probe? && i.pcb == p && s.hostname) || (i.Answer? && i.pcb == p)
      case FlagMatches => TakesDown(i, p) && c.state.Probing()
      case RecordCleared => TakesDown(i, p) && c.probeServices != []
      case StillRegistered => i.RemoveService? && i.service in c.probeServices
  }

  predicate Spares(a: Aspect, s: State, i: Input)
  {
    forall p :: 0 <= p < |s.pcbs| ==> SparesAt(a, s, i, p)
  }

  predicate HoldsThroughout(a: Aspect, s: State, inputs: seq<Input>)
    requires Run(s, inputs)
    decreases |inputs|
  {
    Holds(a, s) && (inputs == [] || HoldsThroughout(a, Next(s, inputs[0]), inputs[1..]))
  }

  predicate SparesThroughout(a: Aspect, s: State, inputs: seq<Input>)
    requires Run(s, inputs)
    decreases |inputs|
  {
    inputs == [] || (Spares(a, s, inputs[0]) && SparesThroughout(a, Next(s, inputs[0]), inputs[1..]))
  }

  // ---- One interface, one step ----

  // What is kept from step to step: of a probe, also that it asks for something.
  predicate KeptAt(a: Aspect, s: State, p: nat)
    requires p < |s.pcbs|
  {
    HoldsAt(a, s, p) && (a.ProbeListed? ==> Probed(s.pcbs[p], Of(s.queue, p)))
  }

  predicate OutcomeAt(a: Aspect, spared: bool, t: State, p: nat)
    requires p < |t.pcbs|
  {
    if spared then KeptAt(a, t, p) else !HoldsAt(a, t, p)
  }

  // All but registration holds of interfaces that are up, in every run.
  lemma UpKept(a: Aspect, t: State, p: nat)
    requires p < |t.pcbs| && InterfaceOk(t, p) && t.pcbs[p].ready
    requires a.StillRegistered? ==> AllIn(t.pcbs[p].probeServices, t.services)
    ensures KeptAt(a, t, p)
  {
  }

  lemma UnchangedAt(a: Aspect, s: State, t: State, p: nat)
    requires p < |s.pcbs| == |t.pcbs| && KeptAt(a, s, p)
    requires t.pcbs[p] == s.pcbs[p].(failedProbes := t.pcbs[p].failedProbes)
    requires Of(t.queue, p) == Of(s.queue, p) && AllIn(s.services, t.services)
    ensures KeptAt(a, t, p)
  {
  }

  // A new probe comes from the list given and from what was on record.
  lemma ProbeAllIn(s: State, p: nat, list: seq<Service>, ip: bool, jitter: nat)
    requires p < |s.pcbs| && AllIn(list, s.services) && AllIn(s.pcbs[p].probeServices, s.services)
    ensures AllIn(InitProbe(s, p, list, ip, jitter).pcbs[p].probeServices, s.services)
  {
    var c := s.pcbs[p];
    assert forall x :: x in Added(c, list) ==> x in list;
    assert forall x :: x in Merged(c, Added(c, list)) ==> x in Added(c, list) || x in c.probeServices;
  }

  lemma ProbeAt(a: Aspect, s: State, p: nat, list: seq<Service>, ip: bool, jitter: nat)
    requires p < |s.pcbs| && AllIn(list, s.services) && (list != [] || ip) && (!s.hostname ==> Nameless(s.pcbs[p]))
    requires a.StillRegistered? ==> AllIn(s.pcbs[p].probeServices, s.services)
    ensures var t := InitProbe(s, p, list, ip, jitter);
      |t.pcbs| == |s.pcbs| && OutcomeAt(a, s.pcbs[p].ready || !(a.DownIsSilent? && s.hostname), t, p)
  {
    InitProbeOwn(s, p, list, ip, jitter);
    InitProbeInterface(s, p, list, ip, jitter);
    if a.StillRegistered? {
      ProbeAllIn(s, p, list, ip, jitter);
    }
  }

  lemma TakeDownAt(a: Aspect, s: State, p: nat, final: PcbState)
    requires p < |s.pcbs| && KeptAt(a, s, p) && (final.Off? || final.Dup?)
    ensures var t := TakeDown(s, p, final);
      |t.pcbs| == |s.pcbs| && OutcomeAt(a, SparesAt(a, s, if final.Off? then Disable(p) else MarkDup(p), p), t, p)
  {
    if s.pcbs[p].ready {
      TakeDownClears(s, p, final);
    }
  }

  lemma AnswerAt(a: Aspect, s: State, x: Packet)
    requires x.pcb < |s.pcbs| && KeptAt(a, s, x.pcb) && !x.probe && s.pcbs[x.pcb].state.Rank() > Probe3.Rank()
    ensures var t := WithPacket(s, x, s.pcbs[x.pcb]);
      OutcomeAt(a, s.pcbs[x.pcb].ready || !a.DownIsSilent?, t, x.pcb)
  {
    InsertOf(s.queue, x, x.pcb);
  }

  // ---- Handling one of its packets ----

  // An interface that is not probing stays so, with nothing new on record and no probe listed.
  lemma QuietAt(a: Aspect, s: State, t: State, p: nat)
    requires p < |s.pcbs| == |t.pcbs| && t.services == s.services && KeptAt(a, s, p)
    requires var c, d := s.pcbs[p], t.pcbs[p];
      d == c.(state := d.state) && !c.state.Probing() && !d.state.Probing() && (Fits(c) ==> Fits(d))
    requires Of(s.queue, p) != [] && (HasProbe(Of(t.queue, p)) ==> HasProbe(Of(s.queue, p)))
    ensures KeptAt(a, t, p)
  {
  }

  lemma PoppedProbes(s: State, x: Packet)
    requires AboutToHandle(s, x)
    ensures Of(s.queue, x.pcb) != [] && x in Of(s.queue, x.pcb)
    ensures HasProbe(Of(s.queue[1..], x.pcb)) || x.probe ==> HasProbe(Of(s.queue, x.pcb))
  {
    PopOf(s.queue, x.pcb);
    assert forall y :: y in Of(s.queue[1..], x.pcb) ==> y in Of(s.queue, x.pcb);
  }

  lemma HandleAt(a: Aspect, s: State, x: Packet)
    requires AboutToHandle(s, x) && KeptAt(a, s, x.pcb) && !s.pcbs[x.pcb].ready
    requires s.pcbs[x.pcb].state.Probing() ==> |Of(s.queue, x.pcb)| <= 1
    ensures var t := HandlePacket(Popped(s), x);
      |t.pcbs| == |s.pcbs| && KeptAt(a, t, x.pcb)
  {
    HandledPcbs(Popped(s), x);
    var state := s.pcbs[x.pcb].state;
    if state.Probe1? || state.Probe2? {
      HandleProbe12(s, x);
    } else if state.Probe3? {
      HandleProbe3(s, x);
    } else {
      HandledProbes(s, x);
      QuietAt(a, s, HandlePacket(Popped(s), x), x.pcb);
    }
  }

  lemma HandledProbes(s: State, x: Packet)
    requires AboutToHandle(s, x) && !s.pcbs[x.pcb].state.Probing()
    ensures Of(s.queue, x.pcb) != []
    ensures HasProbe(Of(HandlePacket(Popped(s), x).queue, x.pcb)) ==> HasProbe(Of(s.queue, x.pcb))
  {
    PoppedProbes(s, x);
    if s.pcbs[x.pcb].state.Announce1? || s.pcbs[x.pcb].state.Announce2? {
      ResendOf(AfterSending(Popped(s), x), x, ANNOUNCE_INTERVAL, x.pcb);
    }
  }

  lemma HandleOne(a: Aspect, s: State, x: Packet, p: nat)
    requires Interfaces(s) && Paced(s) && AboutToHandle(s, x) && p < |s.pcbs| && KeptAt(a, s, p)
    requires Interfaces(HandlePacket(Popped(s), x))
    ensures |HandlePacket(Popped(s), x).pcbs| == |s.pcbs| && KeptAt(a, HandlePacket(Popped(s), x), p)
  {
    var t := HandlePacket(Popped(s), x);
    HandledPcbs(Popped(s), x);
    if p != x.pcb {
      HandleOthers(Popped(s), x, p);
      PopOf(s.queue, p);
      UnchangedAt(a, s, t, p);
    } else if s.pcbs[p].ready {
      assert InterfaceOk(t, p);
      UpKept(a, t, p);
    } else {
      assert PacedAt(s, p);
      HandleAt(a, s, x);
    }
  }

  lemma ExecuteAt(a: Aspect, s: State, p: nat)
    requires Interfaces(s) && Paced(s) && WellFormed(s) && s.hand.Some? && p < |s.pcbs| && KeptAt(a, s, p)
    ensures |ExecuteHand(s).pcbs| == |s.pcbs| && KeptAt(a, ExecuteHand(s), p)
  {
    if HeadMatches(s.queue, s.hand.value) {
      var x := s.queue[0].(queued := false);
      HandleInterfaces(s, x);
      HandleOne(a, s, x, p);
    } else {
      UnchangedAt(a, s, ExecuteHand(s), p);
    }
  }

  // ---- Removing a service ----

  // The lists of an interface that is down are passed over; its packets are not.
  lemma {:induction false} StripDown(of: seq<Packet>, c: Pcb, service: Service)
    requires !c.ready
    ensures var r := StripOne(of, c, service);
      && r.pcb == c && (of == [] ==> r.of == []) && (!HasProbe(of) ==> !HasProbe(r.of))
  {
    if of != [] {
      StripDown(of[1..], c, service);
      assert of[0] in of;
      assert forall x :: x in of[1..] ==> x in of;
    }
  }

  // So a probe and its record come apart exactly when the service is on record.
  lemma StripDownProbe(of: seq<Packet>, c: Pcb, service: Service)
    requires !c.ready && c.state.Probing() && Probed(c, of)
    ensures var r := StripOne(of, c, service);
      && r.pcb == c && (OneProbe(c, r.of) <==> service !in c.probeServices)
      && (service !in c.probeServices ==> Probed(c, r.of))
  {
    var x := of[0];
    assert of == [x] && of[1..] == [];
    if service !in c.probeServices {
      WithoutAbsent(x.services, service);
    }
  }

  lemma RemoveAt(a: Aspect, s: State, service: Service, p: nat)
    requires Interfaces(s) && WellFormed(s) && p < |s.pcbs| && KeptAt(a, s, p)
    ensures var t := Next(s, RemoveService(service));
      |t.pcbs| == |s.pcbs| && OutcomeAt(a, SparesAt(a, s, RemoveService(service), p), t, p)
  {
    var c, of := s.pcbs[p], Of(s.queue, p);
    assert InterfaceOk(s, p);
    RemovedFrom(s, service, p);
    if c.ready {
      RemovedOk(s, service, p);
      StripOneReady(of, c, service);
      StripInterface(of, c, service);
      UpKept(a, Next(s, RemoveService(service)), p);
    } else {
      StripDown(of, c, service);
      if c.state.Probing() && a.ProbeListed? {
        StripDownProbe(of, c, service);
      }
    }
  }

  // ---- Restarting all interfaces ----

  lemma {:induction false} RestartedAt(s: State, k: nat, jitters: seq<nat>, p: nat)
    requires k <= |s.pcbs| == |jitters| && p < |s.pcbs|
    ensures var t := RestartFrom(s, k, jitters);
      && t.services == s.services && t.pcbs[p].ready == s.pcbs[p].ready
      && (!s.pcbs[p].ready ==> t.pcbs[p] == s.pcbs[p] && Of(t.queue, p) == Of(s.queue, p))
      && (AllIn(s.pcbs[p].probeServices, s.services) ==> AllIn(t.pcbs[p].probeServices, s.services))
    decreases |s.pcbs| - k
  {
    if k < |s.pcbs| {
      if s.pcbs[k].ready {
        var s' := ClearOldProbe(s, k);
        var next := InitProbe(s', k, s.services, true, jitters[k]);
        if p == k {
          ProbeAllIn(s', k, s.services, true, jitters[k]);
        } else {
          InitProbeOthers(s', k, s.services, true, jitters[k], p);
        }
        RestartedAt(next, k + 1, jitters, p);
      } else {
        RestartedAt(s, k + 1, jitters, p);
      }
    }
  }

  lemma RestartAt(a: Aspect, s: State, i: Input, p: nat)
    requires Interfaces(s) && p < |s.pcbs| && KeptAt(a, s, p)
    requires Enabled(s, i) && (i.SetHostname? || i.RestartAll?)
    ensures |Next(s, i).pcbs| == |s.pcbs| && OutcomeAt(a, SparesAt(a, s, i, p), Next(s, i), p)
  {
    var t := Next(s, i);
    var wiped := if i.SetHostname? then s.(hostname := true, queue := []) else s.(queue := []);
    assert t == RestartFrom(wiped, 0, i.jitters);
    RestartedAt(wiped, 0, i.jitters, p);
    InterfaceStepKeepsInterfaces(s, i);
    assert InterfaceOk(t, p);
    if t.pcbs[p].ready {
      UpKept(a, t, p);
    } else {
      assert Of(wiped.queue, p) == [];
    }
  }

  // ---- Any step ----

  lemma AnnounceAt(a: Aspect, s: State, p: nat, list: seq<Service>, ip: bool, jitter: nat)
    requires Interfaces(s) && p < |s.pcbs| && KeptAt(a, s, p) && AllIn(list, s.services) && (list != [] || ip)
    ensures var t := AnnouncePcb(s, p, list, ip, jitter);
      |t.pcbs| == |s.pcbs| && KeptAt(a, t, p)
  {
    var t := AnnouncePcb(s, p, list, ip, jitter);
    assert InterfaceOk(s, p);
    if s.pcbs[p].ready {
      AnnounceKeepsInterfaces(s, p, list, ip, jitter);
      assert InterfaceOk(t, p);
      if a.StillRegistered? {
        ProbeAllIn(s, p, list, ip, jitter);
      }
      UpKept(a, t, p);
    }
  }

  lemma AnnounceOthers(s: State, p: nat, list: seq<Service>, ip: bool, jitter: nat, other: nat)
    requires p < |s.pcbs| && other < |s.pcbs| && other != p
    ensures var t := AnnouncePcb(s, p, list, ip, jitter);
      |t.pcbs| == |s.pcbs| && t.services == s.services && Untouched(s, t, other)
  {
    var c := s.pcbs[p];
    if c.ready && c.state.ProbingMacro() {
      InitProbeOthers(s, p, list, ip, jitter, other);
    } else if c.ready && c.state.AnnouncingMacro() {
      var k := FirstOf(s.queue, p);
      if k < |s.queue| {
        EnrichOfOthers(s.queue, k, Enrich(s.queue[k], list, ip), other);
      }
    } else if c.ready && c.state.Running? && s.hostname {
      var x := Packet(s.nextId, p, s.now, false, false, list, if ip then Elsewhere else Absent);
      WithPacketOthers(s, x, c.(state := Announce1), other);
    }
  }

  lemma EnableAt(a: Aspect, s: State, p: nat, joined: bool, jitter: nat)
    requires Interfaces(s) && p < |s.pcbs| && KeptAt(a, s, p)
    ensures var t := EnablePcb(s, p, joined, jitter);
      |t.pcbs| == |s.pcbs| && KeptAt(a, t, p)
  {
    assert InterfaceOk(s, p);
    var t := EnablePcb(s, p, joined, jitter);
    if !s.pcbs[p].ready && !joined {
      UnchangedAt(a, s, t, p);
    } else {
      ProbeAt(a, s.(pcbs := s.pcbs[p := s.pcbs[p].(ready := true)]), p, s.services, true, jitter);
    }
  }

  lemma LateProbeAt(a: Aspect, s: State, i: Input)
    requires Interfaces(s) && Enabled(s, i) && i.Probe? && KeptAt(a, s, i.pcb)
    ensures |Next(s, i).pcbs| == |s.pcbs| && OutcomeAt(a, SparesAt(a, s, i, i.pcb), Next(s, i), i.pcb)
  {
    assert InterfaceOk(s, i.pcb);
    ProbeAt(a, if i.clearOld then ClearOldProbe(s, i.pcb) else s, i.pcb, i.list, i.ip, i.jitter);
  }

  // The interface an input is about, if it is about one.
  function Target(i: Input): Option<nat>
  {
    match i
    case Probe(p, _, _, _, _) => Some(p)
    case Announce(p, _, _, _) => Some(p)
    case Answer(p, _, _, _) => Some(p)
    case Enable(p, _, _) => Some(p)
    case Disable(p) => Some(p)
    case MarkDup(p) => Some(p)
    case _ => None
  }

  lemma TargetAt(a: Aspect, s: State, i: Input, p: nat)
    requires Interfaces(s) && Enabled(s, i) && p < |s.pcbs| && Target(i) == Some(p) && KeptAt(a, s, p)
    ensures |Next(s, i).pcbs| == |s.pcbs| && OutcomeAt(a, SparesAt(a, s, i, p), Next(s, i), p)
  {
    match i {
      case Probe(_, _, _, _, _) => LateProbeAt(a, s, i);
      case Announce(_, list, ip, jitter) => AnnounceAt(a, s, p, list, ip, jitter);
      case Answer(_, list, hosts, shareStep) => AnswerAt(a, s, AnswerPacket(s, p, list, hosts, shareStep));
      case Enable(_, joined, jitter) => EnableAt(a, s, p, joined, jitter);
      case Disable(_) => TakeDownAt(a, s, p, Off);
      case MarkDup(_) => TakeDownAt(a, s, p, Dup);
    }
  }

  lemma TargetOthers(s: State, i: Input, p: nat)
    requires Enabled(s, i) && p < |s.pcbs| && Target(i).Some? && Target(i) != Some(p)
    ensures var t := Next(s, i);
      |t.pcbs| == |s.pcbs| && t.services == s.services && Untouched(s, t, p)
  {
    match i {
      case Probe(q, list, ip, clearOld, jitter) =>
        InitProbeOthers(if clearOld then ClearOldProbe(s, q) else s, q, list, ip, jitter, p);
      case Announce(q, list, ip, jitter) => AnnounceOthers(s, q, list, ip, jitter, p);
      case Answer(q, list, hosts, shareStep) =>
        WithPacketOthers(s, AnswerPacket(s, q, list, hosts, shareStep), s.pcbs[q], p);
      case Enable(q, joined, jitter) =>
        InitProbeOthers(s.(pcbs := s.pcbs[q := s.pcbs[q].(ready := true)]), q, s.services, true, jitter, p);
      case Disable(q) => TakeDownOthers(s, q, Off, p);
      case MarkDup(q) => TakeDownOthers(s, q, Dup, p);
    }
  }

  lemma NoTargetAt(a: Aspect, s: State, i: Input, p: nat)
    requires Interfaces(s) && Paced(s) && Enabled(s, i) && p < |s.pcbs| && Target(i).None? && KeptAt(a, s, p)
    ensures |Next(s, i).pcbs| == |s.pcbs| && OutcomeAt(a, SparesAt(a, s, i, p), Next(s, i), p)
  {
    match i {
      case Timer(receiveAt) => TimerAt(a, s, receiveAt, p);
      case Execute => ExecuteAt(a, s, p);
      case SetHostname(_) | RestartAll(_) => RestartAt(a, s, i, p);
      case RemoveService(x) => RemoveAt(a, s, x, p);
      case _ => PlainAt(a, s, i, p);
    }
  }

  lemma TimerAt(a: Aspect, s: State, receiveAt: Option<nat>, p: nat)
    requires p < |s.pcbs| && KeptAt(a, s, p)
    ensures |RunTimer(s, receiveAt).pcbs| == |s.pcbs| && KeptAt(a, RunTimer(s, receiveAt), p)
  {
    PassUntouched(s, receiveAt, p);
    UnchangedAt(a, s, RunTimer(s, receiveAt), p);
  }

  lemma PlainAt(a: Aspect, s: State, i: Input, p: nat)
    requires Enabled(s, i) && p < |s.pcbs| && KeptAt(a, s, p)
    requires i.Tick? || i.Receive? || i.PostOther? || i.Conflict? || i.AddService?
    ensures |Next(s, i).pcbs| == |s.pcbs| && KeptAt(a, Next(s, i), p)
  {
    UnchangedAt(a, s, Next(s, i), p);
  }

  lemma StepAt(a: Aspect, s: State, i: Input, p: nat)
    requires Interfaces(s) && Paced(s) && Enabled(s, i) && p < |s.pcbs| && KeptAt(a, s, p)
    ensures |Next(s, i).pcbs| == |s.pcbs| && OutcomeAt(a, SparesAt(a, s, i, p), Next(s, i), p)
  {
    if Target(i) == Some(p) {
      TargetAt(a, s, i, p);
    } else if Target(i).Some? {
      TargetOthers(s, i, p);
      UnchangedAt(a, s, Next(s, i), p);
    } else {
      NoTargetAt(a, s, i, p);
    }
  }

  // ---- Every run ----

  predicate Kept(a: Aspect, s: State)
  {
    forall p :: 0 <= p < |s.pcbs| ==> KeptAt(a, s, p)
  }

  lemma KeptHolds(a: Aspect, s: State)
    requires Kept(a, s)
    ensures Holds(a, s)
  {
    forall p | 0 <= p < |s.pcbs| ensures HoldsAt(a, s, p) {
      assert KeptAt(a, s, p);
    }
  }

  lemma StepIff(a: Aspect, s: State, i: Input)
    requires Interfaces(s) && Paced(s) && Sound(s) && Enabled(s, i) && Kept(a, s)
    ensures if Spares(a, s, i) then Kept(a, Next(s, i)) else !Holds(a, Next(s, i))
  {
    var t := Next(s, i);
    StepKeepsSound(s, i);
    forall p | 0 <= p < |s.pcbs| ensures OutcomeAt(a, SparesAt(a, s, i, p), t, p) {
      assert KeptAt(a, s, p);
      StepAt(a, s, i, p);
    }
    OutcomeIff(a, s, i, t);
  }

  lemma OutcomeIff(a: Aspect, s: State, i: Input, t: State)
    requires |t.pcbs| == |s.pcbs|
    requires forall p :: 0 <= p < |s.pcbs| ==> OutcomeAt(a, SparesAt(a, s, i, p), t, p)
    ensures if Spares(a, s, i) then Kept(a, t) else !Holds(a, t)
  {
    if Spares(a, s, i) {
      forall p | 0 <= p < |t.pcbs| ensures KeptAt(a, t, p) {
        assert OutcomeAt(a, SparesAt(a, s, i, p), t, p);
      }
    } else {
      var p :| 0 <= p < |s.pcbs| && !SparesAt(a, s, i, p);
      assert OutcomeAt(a, SparesAt(a, s, i, p), t, p);
      assert !HoldsAt(a, t, p);
    }
  }

  lemma {:induction false} RunIff(a: Aspect, s: State, inputs: seq<Input>)
    requires Interfaces(s) && Paced(s) && Sound(s) && Kept(a, s) && Run(s, inputs)
    ensures HoldsThroughout(a, s, inputs) <==> SparesThroughout(a, s, inputs)
    decreases |inputs|
  {
    KeptHolds(a, s);
    if inputs != [] {
      var next := Next(s, inputs[0]);
      StepIff(a, s, inputs[0]);
      StepKeepsInterfaces(s, inputs[0]);
      StepKeepsPaced(s, inputs[0]);
      StepKeepsSound(s, inputs[0]);
      if Spares(a, s, inputs[0]) {
        RunIff(a, next, inputs[1..]);
      } else {
        assert !HoldsThroughout(a, next, inputs[1..]);
      }
    }
  }

  /** In a run from a fresh responder each of the aspects holds of all interfaces, up or down,
      throughout, exactly when every step spares the interfaces that are down. */
  lemma AspectIff(a: Aspect, s: State, inputs: seq<Input>)
    requires Initial(s) && Run(s, inputs)
    ensures HoldsThroughout(a, s, inputs) <==> SparesThroughout(a, s, inputs)
  {
    InitialInterfaces(s);
    InitialPaced(s);
    InitialPipeline(s);
    InitialKept(a, s);
    RunIff(a, s, inputs);
  }

  lemma InitialKept(a: Aspect, s: State)
    requires Initial(s)
    ensures Kept(a, s)
  {
    forall p | 0 <= p < |s.pcbs| ensures KeptAt(a, s, p) {
      assert s.pcbs[p] == Pcb(Off, false, [], false, false, 0) && Of(s.queue, p) == [];
    }
  }

  lemma {:induction false} HoldsAtEnd(a: Aspect, s: State, inputs: seq<Input>)
    requires Run(s, inputs) && HoldsThroughout(a, s, inputs)
    ensures Holds(a, After(s, inputs))
    decreases |inputs|
  {
    if inputs != [] {
      HoldsAtEnd(a, Next(s, inputs[0]), inputs[1..]);
    }
  }

  /** So as long as no interface that is down with services on record is disabled, whenever probing
      (re)starts with more services the copy loops fill exactly what was allocated, with the new
      services first, then those being probed already, and no duplicate. */
  lemma RestartMergesExactly(s: State, inputs: seq<Input>, p: nat, list: seq<Service>)
    requires Initial(s) && Run(s, inputs) && SparesThroughout(MergeFits, s, inputs)
    requires p < |After(s, inputs).pcbs| && NoDuplicates(list)
    ensures var c := After(s, inputs).pcbs[p];
      && MergedLen(c, Added(c, list)) == |Merged(c, Added(c, list))|
      && Merged(c, Added(c, list)) == NotIn(list, c.probeServices) + c.probeServices
      && NoDuplicates(Merged(c, Added(c, list)))
  {
    AspectIff(MergeFits, s, inputs);
    HoldsAtEnd(MergeFits, s, inputs);
    assert HoldsAt(MergeFits, After(s, inputs), p);
    ProbedOnce(s, inputs, p);
    MergeFillsExactly(After(s, inputs).pcbs[p], list);
  }

  // ---- What goes wrong ----

  /** Probing started by a late record: taking the interface down again leaves services behind
      unless it was up when probing started, and the next merge would copy more than it allocates. */
  lemma LateProbeIff(s: State, p: nat, list: seq<Service>, ip: bool, jitter: nat, more: seq<Service>)
    requires s.hostname && p < |s.pcbs| && list != []
    ensures var c := TakeDown(InitProbe(s, p, list, ip, jitter), p, Off).pcbs[p];
      MergedLen(c, Added(c, more)) == |Merged(c, Added(c, more))| <==> s.pcbs[p].ready
  {
    ProbeAsks(s, p, list, ip, jitter);
    FitsIff(TakeDown(InitProbe(s, p, list, ip, jitter), p, Off).pcbs[p], more);
  }

  /** And removing one of the services it probes for takes the interface and its probe apart,
      unless it was up when probing started: the removal passes over the lists of interfaces
      that are down. */
  lemma LateRemovalIff(s: State, p: nat, list: seq<Service>, ip: bool, jitter: nat, service: Service)
    requires WellFormed(s) && s.hostname && p < |s.pcbs| && (list != [] || ip)
    ensures var late := InitProbe(s, p, list, ip, jitter);
      && WellFormed(late) && |late.pcbs| == |s.pcbs|
      && var t := Next(late, RemoveService(service));
         |t.pcbs| == |s.pcbs|
         && (OneProbe(t.pcbs[p], Of(t.queue, p)) <==> s.pcbs[p].ready || service !in late.pcbs[p].probeServices)
  {
    var late := InitProbe(s, p, list, ip, jitter);
    LateWellFormed(s, p, list, ip, jitter);
    InitProbeInterface(s, p, list, ip, jitter);
    RemovedFrom(late, service, p);
    if s.pcbs[p].ready {
      StripInterface(Of(late.queue, p), late.pcbs[p], service);
    } else {
      StripDownProbe(Of(late.queue, p), late.pcbs[p], service);
    }
  }

  lemma LateWellFormed(s: State, p: nat, list: seq<Service>, ip: bool, jitter: nat)
    requires p < |s.pcbs| && WellFormed(s)
    ensures WellFormed(InitProbe(s, p, list, ip, jitter))
  {
    WellFormedClear(s.queue, p, |s.pcbs|);
    if s.hostname {
      WellFormedInsert(ClearPcb(s.queue, p), ProbePacket(s, p, list, ip, jitter), |s.pcbs|);
    }
  }

  function OneInterface(cap: nat): State
  {
    State(0, [], [], None, cap, [Pcb(Off, false, [], false, false, 0)], [], false, 0, [])
  }

  function LateProbe(list: seq<Service>): Input { Probe(0, list, true, false, 0) }

  // With a host name, probing is started on an interface that never came up.
  function LateState(cap: nat, list: seq<Service>): State
  {
    var x := Packet(0, 0, 120, false, true, list, Elsewhere);
    State(0, [x], [], None, cap, [Pcb(Probe1, false, list, true, true, 0)], list, true, 1, [Restarted(0)])
  }

  lemma LateStarts(cap: nat, list: seq<Service>)
    requires NoDuplicates(list)
    ensures var named := OneInterface(cap).(hostname := true, services := list);
      Enabled(named, LateProbe(list)) && Next(named, LateProbe(list)) == LateState(cap, list)
  {
    var named := OneInterface(cap).(hostname := true, services := list);
    var x := ProbePacket(named, 0, list, true, 0);
    assert Merged(named.pcbs[0], list) == list && list[..|list|] == list;
    assert x == Packet(0, 0, 120, false, true, list, Elsewhere);
    assert Insert([], x) == [x];
    assert named.pcbs[0 := Pcb(Probe1, false, list, true, true, 0)] == [Pcb(Probe1, false, list, true, true, 0)];
  }

  lemma NamedFirst(cap: nat, inputs: seq<Input>, t: State)
    requires Reaches(OneInterface(cap).(hostname := true), inputs, t)
    ensures Reaches(OneInterface(cap), [SetHostname([0])] + inputs, t)
  {
    var s := OneInterface(cap);
    var named := s.(hostname := true);
    assert RestartFrom(named, 0, [0]) == RestartFrom(named, 1, [0]) == named;
    assert Next(s, SetHostname([0])) == named;
    ReachesCons(s, SetHostname([0]), inputs, t);
  }

  /** Restarting all interfaces wipes the list, but passes over the interface that is down: it
      waits for a probe that is no longer listed. */
  lemma RestartLosesProbe(cap: nat) returns (t: State)
    requires cap > 0
    ensures Initial(OneInterface(cap))
    ensures Reaches(OneInterface(cap), [SetHostname([0])] + ([LateProbe([])] + [RestartAll([0])]), t)
    ensures |t.pcbs| == 1 && t.pcbs[0].state.Probe1? && !t.pcbs[0].ready && Of(t.queue, 0) == []
  {
    var named := OneInterface(cap).(hostname := true);
    var late := LateState(cap, []);
    t := late.(queue := []);
    assert RestartFrom(t, 0, [0]) == RestartFrom(t, 1, [0]) == t;
    assert Next(late, RestartAll([0])) == t;
    assert [RestartAll([0])][1..] == [];
    LateStarts(cap, []);
    ReachesCons(named, LateProbe([]), [RestartAll([0])], t);
    NamedFirst(cap, [LateProbe([])] + [RestartAll([0])], t);
  }

  /** Disabling the interface leaves the service on record, and the next merge would copy more
      than it allocates. */
  lemma DisableLeavesRecord(cap: nat, x: Service) returns (t: State)
    requires cap > 0
    ensures Initial(OneInterface(cap))
    ensures Reaches(OneInterface(cap), [SetHostname([0])] + ([AddService(x)] + ([LateProbe([x])] + [Disable(0)])), t)
    ensures |t.pcbs| == 1
    ensures forall list :: |Merged(t.pcbs[0], Added(t.pcbs[0], list))| > MergedLen(t.pcbs[0], Added(t.pcbs[0], list))
  {
    var named := OneInterface(cap).(hostname := true);
    var late := LateState(cap, [x]);
    t := Next(late, Disable(0));
    assert t.pcbs == [Pcb(Off, false, [x], true, true, 0)];
    assert [Disable(0)][1..] == [];
    LateStarts(cap, [x]);
    assert Next(named, AddService(x)) == named.(services := [x]);
    ReachesCons(named.(services := [x]), LateProbe([x]), [Disable(0)], t);
    ReachesCons(named, AddService(x), [LateProbe([x])] + [Disable(0)], t);
    NamedFirst(cap, [AddService(x)] + ([LateProbe([x])] + [Disable(0)]), t);
  }
}
