/** Services and packets: services announced on an interface get into one of its packets, removed
    ones are in none, and as long as records hold registered services only, so do all packets. */
module ResponderServices {
  import opened MdnsTypes
  import opened TxQueue
  import opened Responder
  import opened ResponderEffects
  import opened ResponderPipeline
  import opened ResponderInterfaces
  import opened ResponderRuns
  import opened ResponderLate
  import opened ResponderContents

  // ---- Announcing and answering ----

  // The packet z stands where y stood, with the records of y and more.
  ghost predicate Extends(z: Packet, y: Packet, list: seq<Service>, ip: bool)
  {
    && z.id == y.id && z.sendAt == y.sendAt && z.probe == y.probe
    && (forall x :: x in z.services <==> x in y.services || x in list)
    && (NoDuplicates(y.services) && NoDuplicates(list) ==> NoDuplicates(z.services))
    && z.hosts == if ip then InAnswers else y.hosts
  }

  lemma EnrichExtends(y: Packet, list: seq<Service>, ip: bool)
    ensures Extends(Enrich(y, list, ip), y, list, ip)
  {
    var z := Enrich(y, list, ip);
    var more := NotIn(list, y.services);
    if NoDuplicates(y.services) && NoDuplicates(list) {
      forall i, j | 0 <= i < j < |z.services| ensures z.services[i] != z.services[j] {
        if i < |y.services| <= j {
          assert z.services[j] in more && z.services[i] in y.services;
        }
      }
    }
  }

  // The first packet of an interface is the one that changes, and the others of it stay.
  lemma {:induction false} EnrichFirst(q: seq<Packet>, p: nat, list: seq<Service>, ip: bool)
    requires FirstOf(q, p) < |q|
    ensures var k := FirstOf(q, p);
            var of := Of(q, p);
      of != [] && Of(q[k := Enrich(q[k], list, ip)], p) == [Enrich(of[0], list, ip)] + of[1..]
  {
    var k := FirstOf(q, p);
    var y := Enrich(q[k], list, ip);
    if q[0].pcb == p {
      assert q[0 := y] == [y] + q[1..];
    } else {
      EnrichFirst(q[1..], p, list, ip);
      assert q[k := y] == [q[0]] + q[1..][k - 1 := y];
      assert [] + Of(q[1..], p) == Of(q[1..], p);
    }
  }

  // Somewhere among the packets is one with all of the services, and the host's records if asked.
  predicate Lists(of: seq<Packet>, list: seq<Service>, ip: bool)
  {
    exists y :: y in of && AllIn(list, y.services) && (ip ==> !y.hosts.Absent?)
  }

  lemma AnnounceProbing(u: State, p: nat, list: seq<Service>, ip: bool, jitter: nat)
    requires p < |u.pcbs| && u.hostname && u.pcbs[p].ready && u.pcbs[p].state.Probing()
    ensures var t := AnnouncePcb(u, p, list, ip, jitter);
      && |t.pcbs| == |u.pcbs| && t.pcbs[p].state.Probe1? && Lists(Of(t.queue, p), list, ip)
      && AllIn(u.pcbs[p].probeServices, Of(t.queue, p)[0].services)
      && (u.pcbs[p].probeIp ==> Of(t.queue, p)[0].hosts.Elsewhere?)
  {
    InitProbeOwn(u, p, list, ip, jitter);
    var y := ProbePacket(u, p, list, ip, jitter);
    var c := u.pcbs[p];
    assert y in Of(InitProbe(u, p, list, ip, jitter).queue, p);
    assert y.services == Added(c, list) + c.probeServices;
  }

  lemma AnnounceMore(u: State, p: nat, list: seq<Service>, ip: bool, jitter: nat)
    requires p < |u.pcbs| && u.pcbs[p].ready && u.pcbs[p].state.AnnouncingMacro() && Of(u.queue, p) != []
    ensures var t := AnnouncePcb(u, p, list, ip, jitter);
            var of := Of(u.queue, p);
            var of' := Of(t.queue, p);
      && |t.pcbs| == |u.pcbs| && t.pcbs[p].state.Announce1? && Lists(of', list, ip)
      && |of'| == |of| && Extends(of'[0], of[0], list, ip) && of'[1..] == of[1..]
  {
    FirstOfExists(u.queue, p);
    EnrichFirst(u.queue, p, list, ip);
    EnrichExtends(Of(u.queue, p)[0], list, ip);
    var of' := Of(AnnouncePcb(u, p, list, ip, jitter).queue, p);
    assert of'[0] in of';
  }

  lemma AnnounceFirst(u: State, p: nat, list: seq<Service>, ip: bool, jitter: nat)
    requires p < |u.pcbs| && u.hostname && u.pcbs[p].ready && u.pcbs[p].state.Running?
    ensures var t := AnnouncePcb(u, p, list, ip, jitter);
      && |t.pcbs| == |u.pcbs| && t.pcbs[p].state.Announce1? && Lists(Of(t.queue, p), list, ip)
      && (forall y :: y in Of(u.queue, p) ==> y in Of(t.queue, p))
      && (exists y :: y in Of(t.queue, p) && y.services == list && !y.probe && y.sendAt == u.now)
  {
    var x := Packet(u.nextId, p, u.now, false, false, list, if ip then Elsewhere else Absent);
    InsertOf(u.queue, x, p);
    assert x in Of(Insert(u.queue, x), p);
  }

  /** Services announced on an interface that is up, with a host name, after any run: one of its
      packets then has all of them, and it probes or announces from the start. If it was probing,
      its probe still asks for what it asked for; if it was announcing, its first packet has gained
      exactly these, and the others are as they were; if it was at rest, so are all its packets,
      and a new one is due at once. */
  lemma AnnouncedIsListed(s: State, inputs: seq<Input>, p: nat, list: seq<Service>, ip: bool, jitter: nat)
    requires Initial(s) && Run(s, inputs) && Enabled(After(s, inputs), Announce(p, list, ip, jitter))
    requires After(s, inputs).hostname && After(s, inputs).pcbs[p].ready
    ensures var u := After(s, inputs);
            var t := Next(u, Announce(p, list, ip, jitter));
            var of := Of(u.queue, p);
            var of' := Of(t.queue, p);
            var c := u.pcbs[p];
      && |t.pcbs| == |u.pcbs| && Lists(of', list, ip)
      && t.pcbs[p].state == (if c.state.Probing() then Probe1 else Announce1)
      && (c.state.AnnouncingMacro() ==>
            |of'| == |of| > 0 && Extends(of'[0], of[0], list, ip) && of'[1..] == of[1..])
      && (c.state.Probing() ==>
            AllIn(c.probeServices, of'[0].services) && (c.probeIp ==> of'[0].hosts.Elsewhere?))
      && (c.state.Running? ==>
            && (forall y :: y in of ==> y in of')
            && (exists y :: y in of' && y.services == list && !y.probe && y.sendAt == u.now))
  {
    var u := After(s, inputs);
    InitialInterfaces(s);
    RunKeepsInterfaces(s, inputs);
    assert InterfaceOk(u, p);
    if u.pcbs[p].state.Probing() {
      AnnounceProbing(u, p, list, ip, jitter);
    } else if u.pcbs[p].state.AnnouncingMacro() {
      AnnounceMore(u, p, list, ip, jitter);
    } else {
      AnnounceFirst(u, p, list, ip, jitter);
    }
  }

  /** An answer is listed with the services and host records asked for, not as a probe, due 25 to
      100 ms later; the interface keeps its other packets and its state. */
  lemma AnswerIsListed(u: State, p: nat, list: seq<Service>, hosts: HostRecords, shareStep: nat)
    requires Enabled(u, Answer(p, list, hosts, shareStep))
    ensures var t := Next(u, Answer(p, list, hosts, shareStep));
      && t.pcbs == u.pcbs
      && (exists y :: y in Of(t.queue, p) && y.services == list && y.hosts == hosts && !y.probe
           && u.now + 25 <= y.sendAt <= u.now + 100)
      && (forall y :: y in Of(u.queue, p) ==> y in Of(t.queue, p))
  {
    var x := AnswerPacket(u, p, list, hosts, shareStep);
    InsertOf(u.queue, x, p);
    assert u.pcbs[p := u.pcbs[p]] == u.pcbs;
    assert x in Of(Insert(u.queue, x), p);
  }

  // ---- Removing a service ----

  // The packet y without the service.
  ghost predicate Freed(z: Packet, y: Packet, service: Service)
  {
    z == y.(services := z.services) && forall x :: x in z.services <==> x in y.services && x != service
  }

  // Nothing but the service.
  predicate OnlyFor(y: Packet, service: Service)
  {
    y.hosts.Absent? && forall x :: x in y.services ==> x == service
  }

  ghost predicate FreedIn(q: seq<Packet>, y: Packet, service: Service)
  {
    exists z :: z in q && Freed(z, y, service)
  }

  // What is left of the packets without the service: in none of them is it listed, each is one of
  // those there were without it, and only packets for nothing but the service are gone.
  ghost predicate Purged(q: seq<Packet>, r: seq<Packet>, service: Service)
  {
    && (forall z :: z in r ==> service !in z.services && exists y :: y in q && Freed(z, y, service))
    && (forall y :: y in q ==> OnlyFor(y, service) || FreedIn(r, y, service))
  }

  lemma {:induction false} StripFrees(q: seq<Packet>, pcbs: seq<Pcb>, service: Service)
    requires forall i :: 0 <= i < |q| ==> q[i].pcb < |pcbs|
    ensures Purged(q, Strip(q, pcbs, service).queue, service)
  {
    if q != [] {
      var rest := Strip(q[1..], pcbs[q[0].pcb := StripPcb(pcbs[q[0].pcb], q[0], service)], service).queue;
      StripFrees(q[1..], pcbs[q[0].pcb := StripPcb(pcbs[q[0].pcb], q[0], service)], service);
      var x := StripPacket(q[0], service);
      var r := (if x.Empty() then [] else [x]) + rest;
      assert q[0] in q && Freed(x, q[0], service);
      forall z | z in r ensures service !in z.services && exists y :: y in q && Freed(z, y, service) {
        if z in rest {
          var y :| y in q[1..] && Freed(z, y, service);
          assert y in q;
        }
      }
      forall y | y in q ensures OnlyFor(y, service) || FreedIn(r, y, service) {
        FreedStays(q, y, service, x, rest, r);
      }
    }
  }

  lemma FreedStays(q: seq<Packet>, y: Packet, service: Service, x: Packet, rest: seq<Packet>, r: seq<Packet>)
    requires q != [] && y in q && x == StripPacket(q[0], service) && r == (if x.Empty() then [] else [x]) + rest
    requires y in q[1..] ==> OnlyFor(y, service) || FreedIn(rest, y, service)
    ensures OnlyFor(y, service) || FreedIn(r, y, service)
  {
    if y == q[0] {
      if x.Empty() {
        assert OnlyFor(y, service) by {
          forall z | z in y.services ensures z == service {
            assert z != service ==> z in x.services;
          }
        }
      } else {
        assert x in r && Freed(x, y, service);
      }
    } else if FreedIn(rest, y, service) {
      var z :| z in rest && Freed(z, y, service);
      assert z in r;
    }
  }

  /** A service that is removed is in no packet any more, on whatever interface, announcement, answer
      or probe; otherwise packets keep all they had, and none is gone that had anything else. */
  lemma RemovedFromPackets(s: State, service: Service)
    requires WellFormed(s)
    ensures var t := Next(s, RemoveService(service));
      service !in t.services && Purged(s.queue, t.queue, service)
  {
    StripFrees(s.queue, s.pcbs, service);
  }

  // The packet has the service in its answers, and nothing else.
  predicate LosesAnswers(y: Packet, service: Service)
  {
    y.HasAnswers() && !y.hosts.InAnswers? && forall x :: x in y.services ==> x == service
  }

  lemma LosesAnswersIff(y: Packet, service: Service)
    ensures LosesAnswers(y, service) <==> y.HasAnswers() && !StripPacket(y, service).HasAnswers()
  {
    var left := Without(y.services, service);
    if left != [] {
      assert left[0] in left;
    }
    if y.services != [] {
      assert forall x :: x in y.services && x != service ==> x in left;
    }
  }

  lemma {:induction false} StripOneRunning(of: seq<Packet>, c: Pcb, service: Service)
    requires c.ready && c.state.Running?
    ensures StripOne(of, c, service).pcb == c
  {
    if of != [] {
      StripOneRunning(of[1..], c, service);
    }
  }

  lemma {:induction false} StripOneAnnouncing(of: seq<Packet>, c: Pcb, service: Service)
    requires c.ready && c.state.AnnouncingMacro()
    ensures StripOne(of, c, service).pcb == if AnyLosesAnswers(of, service) then c.(state := Running) else c
  {
    if of != [] {
      LosesAnswersIff(of[0], service);
      var d := StripPcb(c, of[0], service);
      if d.state.Running? {
        StripOneRunning(of[1..], d, service);
        assert of[0] in of;
      } else {
        StripOneAnnouncing(of[1..], c, service);
        assert forall y :: y in of <==> y == of[0] || y in of[1..];
      }
    }
  }

  predicate AnyLosesAnswers(of: seq<Packet>, service: Service)
  {
    exists y :: y in of && LosesAnswers(y, service)
  }

  lemma StripOneProbe(x: Packet, c: Pcb, service: Service)
    requires c.ready && c.state.Probing()
    ensures StripOne([x], c, service).pcb == StripPcb(c, x, service)
  {
    assert [x][1..] == [];
  }

  // What is left of the interface: it no longer asks for the service, and it comes to rest if it
  // probed for nothing else or a packet of it loses its last answer.
  predicate Removed(c: Pcb, of: seq<Packet>, d: Pcb, service: Service)
  {
    && (forall x :: x in c.probeServices ==> x == service || x in d.probeServices)
    && (forall x :: x in d.probeServices ==> x in c.probeServices && x != service)
    && d.state == (if c.state.Probing() then
                     if service in c.probeServices && d.probeServices == [] && !c.probeIp then Running else c.state
                   else if c.state.AnnouncingMacro() && AnyLosesAnswers(of, service) then Running
                   else c.state)
  }

  lemma RemovalOne(of: seq<Packet>, c: Pcb, service: Service)
    requires UpOk(c, of) && c.ready
    ensures Removed(c, of, StripOne(of, c, service).pcb, service)
  {
    if c.state.Probing() {
      assert of == [of[0]];
      StripOneProbe(of[0], c, service);
    } else if c.state.AnnouncingMacro() {
      StripOneAnnouncing(of, c, service);
    } else {
      StripOneRunning(of, c, service);
    }
  }

  /** What removing a service does to an interface that is up, after any run. A probing one no longer
      asks for the service, and comes to rest exactly if it asked for nothing else; an announcing
      one comes to rest exactly if one of its packets loses its last answer; one at rest stays so. */
  lemma RemovalOutcome(s: State, inputs: seq<Input>, service: Service, p: nat)
    requires Initial(s) && Run(s, inputs) && Enabled(After(s, inputs), RemoveService(service))
    requires p < |After(s, inputs).pcbs| && After(s, inputs).pcbs[p].ready
    ensures var u := After(s, inputs);
            var t := Next(u, RemoveService(service));
      |t.pcbs| == |u.pcbs| && Removed(u.pcbs[p], Of(u.queue, p), t.pcbs[p], service)
  {
    var u := After(s, inputs);
    InitialInterfaces(s);
    RunKeepsInterfaces(s, inputs);
    assert InterfaceOk(u, p);
    RemovedFrom(u, service, p);
    RemovalOne(Of(u.queue, p), u.pcbs[p], service);
  }

  // ---- Which services are registered ----

  lemma {:induction false} RestartServices(s: State, k: nat, jitters: seq<nat>)
    requires k <= |s.pcbs| == |jitters|
    ensures RestartFrom(s, k, jitters).services == s.services
    decreases |s.pcbs| - k
  {
    if k < |s.pcbs| {
      if s.pcbs[k].ready {
        RestartServices(InitProbe(ClearOldProbe(s, k), k, s.services, true, jitters[k]), k + 1, jitters);
      } else {
        RestartServices(s, k + 1, jitters);
      }
    }
  }

  lemma StepServices(s: State, i: Input, x: Service)
    requires Enabled(s, i)
    ensures x in Next(s, i).services <==> i == AddService(x) || (x in s.services && i != RemoveService(x))
  {
    match i {
      case SetHostname(jitters) => RestartServices(s.(hostname := true, queue := []), 0, jitters);
      case RestartAll(jitters) => RestartServices(s.(queue := []), 0, jitters);
      case Execute =>
        if HeadMatches(s.queue, s.hand.value) {
          HandledPcbs(Popped(s), s.queue[0].(queued := false));
        }
      case _ =>
    }
  }

  // Added at some point of the run and not removed from there on.
  ghost predicate AddedIn(inputs: seq<Input>, x: Service)
  {
    exists k :: 0 <= k < |inputs| && inputs[k] == AddService(x) && RemoveService(x) !in inputs[k..]
  }

  lemma AddedInTail(inputs: seq<Input>, x: Service)
    requires inputs != []
    ensures AddedIn(inputs, x) <==>
      AddedIn(inputs[1..], x) || (inputs[0] == AddService(x) && RemoveService(x) !in inputs[1..])
  {
    var rest := inputs[1..];
    forall k | 0 < k < |inputs| ensures inputs[k..] == rest[k - 1..] {
    }
    if AddedIn(rest, x) {
      var k :| 0 <= k < |rest| && rest[k] == AddService(x) && RemoveService(x) !in rest[k..];
      assert inputs[k + 1] == AddService(x) && inputs[k + 1..] == rest[k..];
    }
    if inputs[0] == AddService(x) && RemoveService(x) !in rest {
      assert inputs[0..] == [inputs[0]] + rest;
    }
    if AddedIn(inputs, x) {
      var k :| 0 <= k < |inputs| && inputs[k] == AddService(x) && RemoveService(x) !in inputs[k..];
      if k == 0 {
        assert inputs[0..] == [inputs[0]] + rest;
      } else {
        assert rest[k - 1] == AddService(x);
      }
    }
  }

  lemma {:induction false} RunServices(s: State, inputs: seq<Input>, x: Service)
    requires Run(s, inputs)
    ensures x in After(s, inputs).services <==> AddedIn(inputs, x) || (x in s.services && RemoveService(x) !in inputs)
    decreases |inputs|
  {
    if inputs != [] {
      StepServices(s, inputs[0], x);
      RunServices(Next(s, inputs[0]), inputs[1..], x);
      AddedInTail(inputs, x);
      assert inputs == [inputs[0]] + inputs[1..];
    }
  }

  /** After every run from a fresh responder the services registered are those that were added and
      not removed since. */
  lemma RegisteredIff(s: State, inputs: seq<Input>, x: Service)
    requires Initial(s) && Run(s, inputs)
    ensures x in After(s, inputs).services <==>
      exists k :: 0 <= k < |inputs| && inputs[k] == AddService(x) && RemoveService(x) !in inputs[k..]
  {
    RunServices(s, inputs, x);
  }

  // ---- Only registered services ----

  predicate Clean(q: seq<Packet>, services: seq<Service>)
  {
    forall k :: 0 <= k < |q| ==> AllIn(q[k].services, services)
  }

  lemma InsertClean(q: seq<Packet>, x: Packet, services: seq<Service>)
    requires Clean(q, services) && AllIn(x.services, services)
    ensures Clean(Insert(q, x), services)
  {
    var k := InsertPos(q, x.sendAt);
    forall i | 0 <= i < |Insert(q, x)| ensures AllIn(Insert(q, x)[i].services, services) {
      assert Insert(q, x)[i] == if i < k then q[i] else if i == k then x else q[i - 1];
    }
  }

  lemma ClearClean(q: seq<Packet>, p: nat, services: seq<Service>)
    requires Clean(q, services)
    ensures Clean(ClearPcb(q, p), services)
  {
    ClearPcbDropsExactly(q, p);
    forall k | 0 <= k < |ClearPcb(q, p)| ensures AllIn(ClearPcb(q, p)[k].services, services) {
      assert ClearPcb(q, p)[k] in ClearPcb(q, p);
    }
  }

  lemma InitProbeClean(s: State, p: nat, list: seq<Service>, ip: bool, jitter: nat)
    requires Clean(s.queue, s.services) && p < |s.pcbs|
    requires AllIn(list, s.services) && AllIn(s.pcbs[p].probeServices, s.services)
    ensures var t := InitProbe(s, p, list, ip, jitter);
      Clean(t.queue, s.services) && t.services == s.services && |t.pcbs| == |s.pcbs|
      && forall q :: 0 <= q < |s.pcbs| && q != p ==> t.pcbs[q] == s.pcbs[q]
  {
    ClearClean(s.queue, p, s.services);
    if s.hostname {
      ProbeAllIn(s, p, list, ip, jitter);
      InsertClean(ClearPcb(s.queue, p), ProbePacket(s, p, list, ip, jitter), s.services);
    }
  }

  lemma {:induction false} RestartClean(s: State, k: nat, jitters: seq<nat>)
    requires Clean(s.queue, s.services) && k <= |s.pcbs| == |jitters|
    ensures Clean(RestartFrom(s, k, jitters).queue, s.services) && RestartFrom(s, k, jitters).services == s.services
    decreases |s.pcbs| - k
  {
    if k < |s.pcbs| {
      if s.pcbs[k].ready {
        InitProbeClean(ClearOldProbe(s, k), k, s.services, true, jitters[k]);
        RestartClean(InitProbe(ClearOldProbe(s, k), k, s.services, true, jitters[k]), k + 1, jitters);
      } else {
        RestartClean(s, k + 1, jitters);
      }
    }
  }

  lemma AnnounceClean(s: State, p: nat, list: seq<Service>, ip: bool, jitter: nat)
    requires Clean(s.queue, s.services) && p < |s.pcbs|
    requires AllIn(list, s.services) && AllIn(s.pcbs[p].probeServices, s.services)
    ensures var t := AnnouncePcb(s, p, list, ip, jitter);
      Clean(t.queue, s.services) && t.services == s.services
  {
    var c := s.pcbs[p];
    if !c.ready {
    } else if c.state.ProbingMacro() {
      InitProbeClean(s, p, list, ip, jitter);
    } else if c.state.AnnouncingMacro() {
      var k := FirstOf(s.queue, p);
      if k < |s.queue| {
        EnrichExtends(s.queue[k], list, ip);
      }
    } else if c.state.Running? && s.hostname {
      InsertClean(s.queue, Packet(s.nextId, p, s.now, false, false, list, if ip then Elsewhere else Absent),
        s.services);
    }
  }

  lemma HandleClean(s: State, x: Packet)
    requires Clean(s.queue, s.services) && AllIn(x.services, s.services) && x.pcb < |s.pcbs|
    ensures Clean(HandlePacket(s, x).queue, s.services) && HandlePacket(s, x).services == s.services
  {
    var sent := AfterSending(s, x);
    match s.pcbs[x.pcb].state {
      case Probe1 | Probe2 => InsertClean(s.queue, x.(sendAt := s.now + PROBE_INTERVAL), s.services);
      case Announce1 | Announce2 => InsertClean(s.queue, x.(sendAt := s.now + ANNOUNCE_INTERVAL), s.services);
      case Probe3 => InsertClean(s.queue, AnnouncePacket(sent, x), s.services);
      case _ =>
    }
  }

  lemma ExecuteClean(s: State)
    requires Clean(s.queue, s.services) && WellFormed(s) && s.hand.Some?
    ensures Clean(ExecuteHand(s).queue, s.services) && ExecuteHand(s).services == s.services
  {
    if HeadMatches(s.queue, s.hand.value) {
      assert forall i :: 0 <= i < |Popped(s).queue| ==> Popped(s).queue[i] == s.queue[i + 1];
      HandleClean(Popped(s), s.queue[0].(queued := false));
    }
  }

  lemma TimerClean(s: State, receiveAt: Option<nat>)
    requires Clean(s.queue, s.services)
    ensures Clean(RunTimer(s, receiveAt).queue, s.services)
  {
    PassMarks(s, receiveAt);
  }

  lemma RemoveClean(s: State, service: Service)
    requires Clean(s.queue, s.services) && WellFormed(s)
    ensures Clean(Next(s, RemoveService(service)).queue, Next(s, RemoveService(service)).services)
  {
    var t := Next(s, RemoveService(service));
    RemovedFromPackets(s, service);
    forall k | 0 <= k < |t.queue| ensures AllIn(t.queue[k].services, t.services) {
      assert t.queue[k] in t.queue;
      var y :| y in s.queue && Freed(t.queue[k], y, service);
      var j :| 0 <= j < |s.queue| && s.queue[j] == y;
    }
  }

  lemma InterfaceStepClean(s: State, i: Input)
    requires Clean(s.queue, s.services) && Holds(StillRegistered, s) && Enabled(s, i)
    requires i.Enable? || i.Disable? || i.MarkDup? || i.SetHostname? || i.RestartAll?
    ensures Clean(Next(s, i).queue, Next(s, i).services)
  {
    match i {
      case SetHostname(jitters) => RestartClean(s.(hostname := true, queue := []), 0, jitters);
      case RestartAll(jitters) => RestartClean(s.(queue := []), 0, jitters);
      case Enable(p, joined, jitter) =>
        assert HoldsAt(StillRegistered, s, p);
        InitProbeClean(s.(pcbs := s.pcbs[p := s.pcbs[p].(ready := true)]), p, s.services, true, jitter);
      case Disable(p) => ClearClean(s.queue, p, s.services);
      case MarkDup(p) => ClearClean(s.queue, p, s.services);
    }
  }

  lemma StepKeepsClean(s: State, i: Input)
    requires Clean(s.queue, s.services) && Holds(StillRegistered, s) && Enabled(s, i)
    ensures Clean(Next(s, i).queue, Next(s, i).services)
  {
    match i {
      case Timer(receiveAt) => TimerClean(s, receiveAt);
      case Execute => ExecuteClean(s);
      case Probe(p, list, ip, clearOld, jitter) =>
        assert HoldsAt(StillRegistered, s, p);
        InitProbeClean(if clearOld then ClearOldProbe(s, p) else s, p, list, ip, jitter);
      case Announce(p, list, ip, jitter) =>
        assert HoldsAt(StillRegistered, s, p);
        AnnounceClean(s, p, list, ip, jitter);
      case Answer(p, list, hosts, shareStep) =>
        InsertClean(s.queue, AnswerPacket(s, p, list, hosts, shareStep), s.services);
      case RemoveService(x) => RemoveClean(s, x);
      case Tick(_) | Receive | PostOther | Conflict(_) | AddService(_) =>
      case _ => InterfaceStepClean(s, i);
    }
  }

  lemma {:induction false} RunKeepsClean(s: State, inputs: seq<Input>)
    requires Clean(s.queue, s.services) && Run(s, inputs) && HoldsThroughout(StillRegistered, s, inputs)
    ensures Clean(After(s, inputs).queue, After(s, inputs).services)
    decreases |inputs|
  {
    if inputs != [] {
      StepKeepsClean(s, inputs[0]);
      RunKeepsClean(Next(s, inputs[0]), inputs[1..]);
    }
  }

  /** In every run in which no service is removed that an interface that is down has on record, every
      packet listed at any time carries registered services only. */
  lemma OnlyRegisteredIsListed(s: State, inputs: seq<Input>, y: Packet)
    requires Initial(s) && Run(s, inputs) && SparesThroughout(StillRegistered, s, inputs)
    requires y in After(s, inputs).queue
    ensures AllIn(y.services, After(s, inputs).services)
  {
    AspectIff(StillRegistered, s, inputs);
    RunKeepsClean(s, inputs);
    var q := After(s, inputs).queue;
    var k :| 0 <= k < |q| && q[k] == y;
  }
}
