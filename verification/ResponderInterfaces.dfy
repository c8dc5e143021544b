/** Interfaces and their packets, in every run: an interface that is up and probing has exactly its
    one probe listed, and none that is up holds services to probe without probing. What can go
    wrong on interfaces that are down, where probing may be started too, is the subject of
    ResponderLate. */
module ResponderInterfaces {
  import opened MdnsTypes
  import opened TxQueue
  import opened Responder
  import opened ResponderEffects

  // A probing interface has exactly its one probe listed, for the services on record.
  predicate OneProbe(c: Pcb, of: seq<Packet>)
  {
    c.state.Probing() ==> |of| == 1 && of[0].probe && of[0].services == c.probeServices
  }

  // And for the host's records, if those are on record; so it asks for something.
  predicate Probed(c: Pcb, of: seq<Packet>)
  {
    c.state.Probing() ==>
      |of| == 1 && of[0].probe && of[0].services == c.probeServices
      && of[0].hosts == (if c.probeIp then Elsewhere else Absent) && !of[0].Empty()
  }

  // No other interface has a probe listed, an announcing one has something to send, and no packet
  // is empty.
  predicate Traffic(c: Pcb, of: seq<Packet>)
  {
    && Probed(c, of)
    && (!c.state.Probing() ==> forall x :: x in of ==> !x.probe)
    && (c.state.AnnouncingMacro() ==> of != [])
    && (forall x :: x in of ==> !x.Empty())
  }

  // An interface that is up.
  predicate UpOk(c: Pcb, of: seq<Packet>)
  {
    && !c.state.Off? && !c.state.Dup? && !c.state.Init?
    && (!c.state.Probing() ==> c.probeServices == [] && !c.probeIp)
    && (c.probeRunning <==> c.state.Probing()) && Traffic(c, of)
  }

  // Without a host name nothing is probed for.
  predicate Nameless(c: Pcb)
  {
    !c.state.Probing() && c.probeServices == [] && !c.probeIp && !c.probeRunning
  }

  predicate InterfaceOk(s: State, p: nat)
    requires p < |s.pcbs|
  {
    var c := s.pcbs[p];
    (c.ready ==> UpOk(c, Of(s.queue, p))) && (!s.hostname ==> Nameless(c)) && !c.state.Init?
  }

  predicate Interfaces(s: State)
  {
    forall p :: 0 <= p < |s.pcbs| ==> InterfaceOk(s, p)
  }

  lemma UntouchedOk(s: State, t: State, p: nat)
    requires p < |s.pcbs| == |t.pcbs| && Untouched(s, t, p)
    requires (s.hostname ==> t.hostname) && InterfaceOk(s, p)
    ensures InterfaceOk(t, p)
  {
  }

  lemma OneChanged(s: State, t: State, p: nat)
    requires Interfaces(s) && p < |s.pcbs| == |t.pcbs| && t.hostname == s.hostname && InterfaceOk(t, p)
    requires forall q :: 0 <= q < |s.pcbs| && q != p ==> Untouched(s, t, q)
    ensures Interfaces(t)
  {
    forall q | 0 <= q < |t.pcbs| ensures InterfaceOk(t, q) {
      if q != p {
        assert InterfaceOk(s, q);
        UntouchedOk(s, t, q);
      }
    }
  }

  // ---- Starting to probe ----

  // Merging services into the list of those to probe copies no more than was allocated.
  predicate Fits(c: Pcb)
  {
    c.state.ProbingMacro() || c.probeServices == []
  }

  lemma FitsIff(c: Pcb, list: seq<Service>)
    ensures |Merged(c, Added(c, list))| == MergedLen(c, Added(c, list)) <==> Fits(c)
  {
  }

  // The merged list of services: new ones first, then those still being probed, no duplicates,
  // and the copy loops fill exactly the allocated length.
  lemma MergeFillsExactly(c: Pcb, list: seq<Service>)
    requires Fits(c) && NoDuplicates(c.probeServices) && NoDuplicates(list)
    ensures |Merged(c, Added(c, list))| == MergedLen(c, Added(c, list))
    ensures NoDuplicates(Merged(c, Added(c, list)))
    ensures forall x :: x in Merged(c, Added(c, list)) <==> x in list || x in c.probeServices
    ensures Merged(c, Added(c, list)) == NotIn(list, c.probeServices) + c.probeServices
  {
    NotInNothing(list);
    assert Added(c, list) == NotIn(list, c.probeServices);
    var m := Merged(c, Added(c, list));
    var n := |Added(c, list)|;
    forall i, j | 0 <= i < j < |m| ensures m[i] != m[j] {
      if i < n <= j {
        assert m[i] in Added(c, list) && m[j] in c.probeServices;
      }
    }
  }

  // The new probe asks for something, also when the merge is cut short.
  lemma ProbeAsks(s: State, p: nat, list: seq<Service>, ip: bool, jitter: nat)
    requires p < |s.pcbs|
    ensures list != [] ==> ProbePacket(s, p, list, ip, jitter).services != []
    ensures list != [] || ip ==> !ProbePacket(s, p, list, ip, jitter).Empty()
  {
    var c := s.pcbs[p];
    if list != [] && c.state.ProbingMacro() && NotIn(list, c.probeServices) == [] {
      assert list[0] in list;
    }
  }

  // Whatever was there before, up or down, the interface is in order again.
  lemma InitProbeInterface(s: State, p: nat, list: seq<Service>, ip: bool, jitter: nat)
    requires p < |s.pcbs| && (list != [] || ip) && (!s.hostname ==> Nameless(s.pcbs[p]))
    ensures |InitProbe(s, p, list, ip, jitter).pcbs| == |s.pcbs|
    ensures InterfaceOk(InitProbe(s, p, list, ip, jitter), p)
    ensures Probed(InitProbe(s, p, list, ip, jitter).pcbs[p], Of(InitProbe(s, p, list, ip, jitter).queue, p))
  {
    InitProbeOwn(s, p, list, ip, jitter);
    ProbeAsks(s, p, list, ip, jitter);
  }

  lemma InitProbeKeepsInterfaces(s: State, p: nat, clearOld: bool, list: seq<Service>, ip: bool, jitter: nat)
    requires Interfaces(s) && p < |s.pcbs| && (list != [] || ip)
    ensures Interfaces(InitProbe(if clearOld then ClearOldProbe(s, p) else s, p, list, ip, jitter))
  {
    var s' := if clearOld then ClearOldProbe(s, p) else s;
    var t := InitProbe(s', p, list, ip, jitter);
    assert InterfaceOk(s, p);
    InitProbeInterface(s', p, list, ip, jitter);
    forall q | 0 <= q < |s.pcbs| && q != p ensures Untouched(s, t, q) {
      InitProbeOthers(s', p, list, ip, jitter, q);
    }
    OneChanged(s, t, p);
  }

  // An interface whose packets have been wiped, and that is still to be restarted if it is up.
  predicate Wiped(s: State, p: nat)
    requires p < |s.pcbs|
  {
    (!s.hostname ==> Nameless(s.pcbs[p])) && !s.pcbs[p].state.Init?
  }

  predicate HalfRestarted(s: State, k: nat)
  {
    && k <= |s.pcbs|
    && (forall p :: 0 <= p < k ==> InterfaceOk(s, p))
    && (forall p :: k <= p < |s.pcbs| ==> Wiped(s, p))
  }

  lemma RestartOne(s: State, k: nat, jitter: nat)
    requires HalfRestarted(s, k) && k < |s.pcbs|
    ensures HalfRestarted(InitProbe(ClearOldProbe(s, k), k, s.services, true, jitter), k + 1)
  {
    var s' := ClearOldProbe(s, k);
    var t := InitProbe(s', k, s.services, true, jitter);
    assert Wiped(s, k);
    InitProbeInterface(s', k, s.services, true, jitter);
    forall p | 0 <= p < |s.pcbs| && p != k ensures p < k ==> InterfaceOk(t, p) ensures p > k ==> Wiped(t, p) {
      InitProbeOthers(s', k, s.services, true, jitter, p);
      if p < k {
        assert InterfaceOk(s, p);
        UntouchedOk(s, t, p);
      } else {
        assert Wiped(s, p);
      }
    }
  }

  lemma RestartInterfaces(s: State, k: nat, jitters: seq<nat>)
    requires HalfRestarted(s, k) && |s.pcbs| == |jitters|
    ensures Interfaces(RestartFrom(s, k, jitters))
    decreases |s.pcbs| - k
  {
    if k < |s.pcbs| {
      if s.pcbs[k].ready {
        RestartOne(s, k, jitters[k]);
        RestartInterfaces(InitProbe(ClearOldProbe(s, k), k, s.services, true, jitters[k]), k + 1, jitters);
      } else {
        assert Wiped(s, k);
        RestartInterfaces(s, k + 1, jitters);
      }
    }
  }

  lemma RestartAllKeepsInterfaces(s: State, jitters: seq<nat>)
    requires Interfaces(s) && |jitters| == |s.pcbs|
    ensures Interfaces(RestartFrom(s.(queue := []), 0, jitters))
  {
    var w := s.(queue := []);
    forall p | 0 <= p < |s.pcbs| ensures Wiped(w, p) {
      assert InterfaceOk(s, p);
    }
    RestartInterfaces(w, 0, jitters);
  }

  // ---- Announcing and answering ----

  // Scheduling a packet that is not a probe, on an interface that is not probing.
  lemma WithPacketInterfaces(s: State, x: Packet, c: Pcb)
    requires Interfaces(s) && x.pcb < |s.pcbs| && !x.probe && !x.Empty()
    requires s.pcbs[x.pcb].state.Rank() > Probe3.Rank()
    requires c == s.pcbs[x.pcb] || c == s.pcbs[x.pcb].(state := Announce1)
    ensures Interfaces(WithPacket(s, x, c))
  {
    var t := WithPacket(s, x, c);
    assert InterfaceOk(s, x.pcb);
    WithPacketOk(s, x, c);
    forall p | 0 <= p < |t.pcbs| && p != x.pcb ensures Untouched(s, t, p) {
      WithPacketOthers(s, x, c, p);
    }
    OneChanged(s, t, x.pcb);
  }

  lemma WithPacketOk(s: State, x: Packet, c: Pcb)
    requires x.pcb < |s.pcbs| && InterfaceOk(s, x.pcb) && !x.probe && !x.Empty()
    requires s.pcbs[x.pcb].state.Rank() > Probe3.Rank()
    requires c == s.pcbs[x.pcb] || c == s.pcbs[x.pcb].(state := Announce1)
    ensures InterfaceOk(WithPacket(s, x, c), x.pcb)
  {
    InsertOf(s.queue, x, x.pcb);
    assert x.(queued := false) in Of(WithPacket(s, x, c).queue, x.pcb);
  }

  lemma EnrichInterface(s: State, t: State, k: nat, y: Packet, p: nat)
    requires p < |s.pcbs| && InterfaceOk(s, p) && s.pcbs[p].state.AnnouncingMacro() && s.pcbs[p].ready
    requires k < |s.queue| && SameSlot(y, s.queue[k]) && y.probe == s.queue[k].probe && !y.Empty()
    requires t == s.(queue := s.queue[k := y], pcbs := s.pcbs[p := s.pcbs[p].(state := Announce1)])
    ensures InterfaceOk(t, p)
  {
    EnrichOf(s.queue, k, y, p);
  }

  lemma EnrichKeepsInterfaces(s: State, p: nat, list: seq<Service>, ip: bool, jitter: nat)
    requires Interfaces(s) && p < |s.pcbs| && s.pcbs[p].ready && s.pcbs[p].state.AnnouncingMacro() && (list != [] || ip)
    ensures Interfaces(AnnouncePcb(s, p, list, ip, jitter))
  {
    var k := FirstOf(s.queue, p);
    assert InterfaceOk(s, p);
    FirstOfExists(s.queue, p);
    var t := AnnouncePcb(s, p, list, ip, jitter);
    var x := s.queue[k];
    var y := Enrich(x, list, ip);
    EmptyOf(s.queue, k);
    assert !x.Empty() && !x.probe;
    EnrichInterface(s, t, k, y, p);
    forall q | 0 <= q < |t.pcbs| && q != p ensures Untouched(s, t, q) {
      EnrichOfOthers(s.queue, k, y, q);
    }
    OneChanged(s, t, p);
  }

  lemma AnnounceKeepsInterfaces(s: State, p: nat, list: seq<Service>, ip: bool, jitter: nat)
    requires Interfaces(s) && p < |s.pcbs| && (list != [] || ip)
    ensures Interfaces(AnnouncePcb(s, p, list, ip, jitter))
  {
    var c := s.pcbs[p];
    assert InterfaceOk(s, p);
    if c.ready {
      if c.state.ProbingMacro() {
        InitProbeKeepsInterfaces(s, p, false, list, ip, jitter);
      } else if c.state.AnnouncingMacro() {
        EnrichKeepsInterfaces(s, p, list, ip, jitter);
      } else if c.state.Running? && s.hostname {
        var x := Packet(s.nextId, p, s.now, false, false, list, if ip then Elsewhere else Absent);
        WithPacketInterfaces(s, x, c.(state := Announce1));
      }
    }
  }

  // ---- Interfaces going down and coming up ----

  // An interface taken down that was up leaves nothing behind.
  lemma TakeDownClears(s: State, p: nat, final: PcbState)
    requires p < |s.pcbs| && s.pcbs[p].ready
    ensures var t := TakeDown(s, p, final);
      t.pcbs == s.pcbs[p := Pcb(final, false, [], false, false, 0)] && Of(t.queue, p) == []
  {
    ClearPcbDropsExactly(s.queue, p);
  }

  // Disabled, it is off; marked as a duplicate, it is that.
  lemma GoesDown(s: State, p: nat)
    requires WellFormed(s) && p < |s.pcbs| && s.pcbs[p].ready
    ensures var t := Next(s, Disable(p));
      t.pcbs == s.pcbs[p := Pcb(Off, false, [], false, false, 0)] && Of(t.queue, p) == []
    ensures var t := Next(s, MarkDup(p));
      t.pcbs == s.pcbs[p := Pcb(Dup, false, [], false, false, 0)] && Of(t.queue, p) == []
  {
    TakeDownClears(s, p, Off);
    TakeDownClears(s, p, Dup);
  }

  lemma TakeDownKeepsInterfaces(s: State, p: nat, final: PcbState)
    requires Interfaces(s) && p < |s.pcbs| && (final.Off? || final.Dup?)
    ensures Interfaces(TakeDown(s, p, final))
  {
    var t := TakeDown(s, p, final);
    assert InterfaceOk(s, p);
    assert InterfaceOk(t, p);
    forall q | 0 <= q < |t.pcbs| && q != p ensures Untouched(s, t, q) {
      TakeDownOthers(s, p, final, q);
    }
    OneChanged(s, t, p);
  }

  lemma EnableKeepsInterfaces(s: State, p: nat, joined: bool, jitter: nat)
    requires Interfaces(s) && p < |s.pcbs|
    ensures Interfaces(EnablePcb(s, p, joined, jitter))
  {
    var t := EnablePcb(s, p, joined, jitter);
    assert InterfaceOk(s, p);
    if !s.pcbs[p].ready && !joined {
      OneChanged(s, t, p);
    } else {
      var up := s.(pcbs := s.pcbs[p := s.pcbs[p].(ready := true)]);
      InitProbeInterface(up, p, s.services, true, jitter);
      forall q | 0 <= q < |t.pcbs| && q != p ensures Untouched(s, t, q) {
        InitProbeOthers(up, p, s.services, true, jitter, q);
      }
      OneChanged(s, t, p);
    }
  }

  // ---- Removing a service ----

  lemma {:induction false} StripOneQuiet(of: seq<Packet>, c: Pcb, service: Service)
    requires c.ready && !c.state.ProbingMacro() && !c.state.Off?
    requires forall x :: x in of ==> !x.probe && !x.Empty()
    ensures var r := StripOne(of, c, service);
      && (r.pcb == c || r.pcb == c.(state := Running))
      && (forall x :: x in r.of ==> !x.probe && !x.Empty())
      && (r.pcb.state.AnnouncingMacro() && of != [] ==> r.of != [])
  {
    if of != [] {
      var c' := StripPcb(c, of[0], service);
      assert of[0] in of;
      assert forall x :: x in of[1..] ==> x in of;
      StripOneQuiet(of[1..], c', service);
    }
  }

  // Packet and record lose the service together.
  lemma StripOneProbing(of: seq<Packet>, c: Pcb, service: Service)
    requires UpOk(c, of) && c.ready && c.state.Probing()
    ensures UpOk(StripOne(of, c, service).pcb, StripOne(of, c, service).of)
    ensures service !in StripOne(of, c, service).pcb.probeServices
    ensures AllIn(StripOne(of, c, service).pcb.probeServices, c.probeServices)
  {
    var x := of[0];
    assert of == [x];
    if service !in c.probeServices {
      WithoutAbsent(x.services, service);
    }
    assert StripOne(of[1..], StripPcb(c, x, service), service) == StrippedOne([], StripPcb(c, x, service));
  }

  lemma StripInterface(of: seq<Packet>, c: Pcb, service: Service)
    requires UpOk(c, of) && c.ready
    ensures UpOk(StripOne(of, c, service).pcb, StripOne(of, c, service).of)
    ensures Nameless(c) ==> Nameless(StripOne(of, c, service).pcb)
    ensures service !in StripOne(of, c, service).pcb.probeServices
    ensures AllIn(StripOne(of, c, service).pcb.probeServices, c.probeServices)
  {
    if c.state.Probing() {
      StripOneProbing(of, c, service);
    } else {
      StripOneQuiet(of, c, service);
    }
  }

  lemma {:induction false} StripOneReady(of: seq<Packet>, c: Pcb, service: Service)
    ensures var r := StripOne(of, c, service);
      r.pcb.ready == c.ready && (!c.ready ==> r.pcb == c)
  {
    if of != [] {
      StripOneReady(of[1..], StripPcb(c, of[0], service), service);
    }
  }

  // The removal as one interface sees it.
  lemma RemovedFrom(s: State, service: Service, p: nat)
    requires WellFormed(s) && p < |s.pcbs|
    ensures var t := Next(s, RemoveService(service));
      && |t.pcbs| == |s.pcbs| && t.hostname == s.hostname && t.services == Without(s.services, service)
      && StrippedOne(Of(t.queue, p), t.pcbs[p]) == StripOne(Of(s.queue, p), s.pcbs[p], service)
  {
    var r := Strip(s.queue, s.pcbs, service);
    assert Next(s, RemoveService(service))
        == s.(queue := r.queue, pcbs := r.pcbs, services := Without(s.services, service));
    StripProjects(s.queue, s.pcbs, service, p);
  }

  lemma RemoveServiceKeepsInterfaces(s: State, service: Service)
    requires Interfaces(s) && WellFormed(s)
    ensures Interfaces(Next(s, RemoveService(service)))
  {
    var t := Next(s, RemoveService(service));
    forall p | 0 <= p < |t.pcbs| ensures InterfaceOk(t, p) {
      RemovedOk(s, service, p);
    }
  }

  lemma RemovedOk(s: State, service: Service, p: nat)
    requires Interfaces(s) && WellFormed(s) && p < |Next(s, RemoveService(service)).pcbs|
    ensures InterfaceOk(Next(s, RemoveService(service)), p)
  {
    assert InterfaceOk(s, p);
    RemovedFrom(s, service, p);
    StripOneReady(Of(s.queue, p), s.pcbs[p], service);
    if s.pcbs[p].ready {
      StripInterface(Of(s.queue, p), s.pcbs[p], service);
    }
  }

  // ---- Handling the list head ----

  // The state s before the pop, with x its head as handled.
  predicate AboutToHandle(s: State, x: Packet)
  {
    s.queue != [] && x == s.queue[0].(queued := false) && x.pcb < |s.pcbs|
  }

  // The head belongs to an interface that is up.
  predicate HeadUp(s: State, x: Packet)
  {
    AboutToHandle(s, x) && s.pcbs[x.pcb].ready && UpOk(s.pcbs[x.pcb], Of(s.queue, x.pcb))
  }

  // A probing interface has nothing else in the list.
  lemma ProbeAlone(s: State, x: Packet)
    requires AboutToHandle(s, x) && s.pcbs[x.pcb].state.Probing() && |Of(s.queue, x.pcb)| <= 1
    ensures Of(Popped(s).queue, x.pcb) == [] && Of(s.queue, x.pcb) == [x]
  {
    PopOf(s.queue, x.pcb);
  }

  lemma HandleProbe12(s: State, x: Packet)
    requires AboutToHandle(s, x) && (s.pcbs[x.pcb].state.Probe1? || s.pcbs[x.pcb].state.Probe2?)
    requires |Of(s.queue, x.pcb)| <= 1
    ensures Of(HandlePacket(Popped(s), x).queue, x.pcb) == [x.(sendAt := s.now + PROBE_INTERVAL)]
    ensures Of(s.queue, x.pcb) == [x]
  {
    ProbeAlone(s, x);
    ResentAlone(Popped(s), x);
  }

  lemma HandleProbe3(s: State, x: Packet)
    requires AboutToHandle(s, x) && s.pcbs[x.pcb].state.Probe3? && |Of(s.queue, x.pcb)| <= 1
    ensures var a := AnnouncePacket(AfterSending(Popped(s), x), x);
      Of(HandlePacket(Popped(s), x).queue, x.pcb) == [a] && !a.probe && (!x.Empty() ==> !a.Empty())
    ensures Of(s.queue, x.pcb) == [x]
  {
    ProbeAlone(s, x);
    FinishProbingOf(AfterSending(Popped(s), x), x, x.pcb);
  }

  lemma PoppedQuiet(s: State, x: Packet)
    requires HeadUp(s, x) && !s.pcbs[x.pcb].state.Probing()
    ensures !x.probe && !x.Empty()
    ensures forall y :: y in Of(Popped(s).queue, x.pcb) ==> !y.probe && !y.Empty()
  {
    PopOf(s.queue, x.pcb);
    assert x in Of(s.queue, x.pcb);
    assert forall y :: y in Of(Popped(s).queue, x.pcb) ==> y in Of(s.queue, x.pcb);
  }

  lemma HandleQuiet(s: State, x: Packet)
    requires HeadUp(s, x) && !s.pcbs[x.pcb].state.Probing()
    ensures Traffic(HandledPcb(s.pcbs[x.pcb]), Of(HandlePacket(Popped(s), x).queue, x.pcb))
  {
    PoppedQuiet(s, x);
    if s.pcbs[x.pcb].state.Announce1? || s.pcbs[x.pcb].state.Announce2? {
      HandleAnnounce(s, x);
    }
  }

  lemma HandleAnnounce(s: State, x: Packet)
    requires AboutToHandle(s, x) && (s.pcbs[x.pcb].state.Announce1? || s.pcbs[x.pcb].state.Announce2?)
    requires !x.probe && !x.Empty()
    requires forall y :: y in Of(Popped(s).queue, x.pcb) ==> !y.probe && !y.Empty()
    ensures var of := Of(HandlePacket(Popped(s), x).queue, x.pcb);
      of != [] && forall y :: y in of ==> !y.probe && !y.Empty()
  {
    ResendOf(AfterSending(Popped(s), x), x, ANNOUNCE_INTERVAL, x.pcb);
  }

  lemma HandleUp(s: State, x: Packet)
    requires HeadUp(s, x)
    ensures UpOk(HandledPcb(s.pcbs[x.pcb]), Of(HandlePacket(Popped(s), x).queue, x.pcb))
  {
    var state := s.pcbs[x.pcb].state;
    if state.Probe1? || state.Probe2? {
      HandleProbe12(s, x);
    } else if state.Probe3? {
      HandleProbe3(s, x);
    } else {
      HandleQuiet(s, x);
    }
  }

  lemma HandleInterfaces(s: State, x: Packet)
    requires Interfaces(s) && AboutToHandle(s, x)
    ensures Interfaces(HandlePacket(Popped(s), x))
  {
    var r := HandlePacket(Popped(s), x);
    assert InterfaceOk(s, x.pcb);
    HandledPcbs(Popped(s), x);
    if s.pcbs[x.pcb].ready {
      HandleUp(s, x);
    }
    assert InterfaceOk(r, x.pcb);
    forall q | 0 <= q < |s.pcbs| && q != x.pcb ensures Untouched(s, r, q) {
      HandleOthers(Popped(s), x, q);
      PopOf(s.queue, q);
    }
    OneChanged(s, r, x.pcb);
  }

  lemma ExecuteKeepsInterfaces(s: State)
    requires Interfaces(s) && WellFormed(s) && s.hand.Some?
    ensures Interfaces(ExecuteHand(s))
  {
    if HeadMatches(s.queue, s.hand.value) {
      HandleInterfaces(s, s.queue[0].(queued := false));
    } else {
      QuietInterfaces(s, ExecuteHand(s));
    }
  }

  // ---- Every step ----

  lemma QuietInterfaces(s: State, t: State)
    requires Interfaces(s) && |t.pcbs| == |s.pcbs| && (s.hostname ==> t.hostname)
    requires forall p :: 0 <= p < |s.pcbs| ==> Of(t.queue, p) == Of(s.queue, p)
    requires forall p :: 0 <= p < |s.pcbs| ==> t.pcbs[p] == s.pcbs[p].(failedProbes := t.pcbs[p].failedProbes)
    ensures Interfaces(t)
  {
    forall p | 0 <= p < |t.pcbs| ensures InterfaceOk(t, p) {
      assert InterfaceOk(s, p);
    }
  }

  lemma TimerKeepsInterfaces(s: State, receiveAt: Option<nat>)
    requires Interfaces(s)
    ensures Interfaces(RunTimer(s, receiveAt))
  {
    forall p | 0 <= p < |s.pcbs| ensures Of(RunTimer(s, receiveAt).queue, p) == Of(s.queue, p) {
      PassUntouched(s, receiveAt, p);
    }
    QuietInterfaces(s, RunTimer(s, receiveAt));
  }

  lemma InterfaceStepKeepsInterfaces(s: State, i: Input)
    requires Interfaces(s) && Enabled(s, i)
    requires i.Enable? || i.Disable? || i.MarkDup? || i.SetHostname? || i.RestartAll? || i.RemoveService?
    ensures Interfaces(Next(s, i))
  {
    match i {
      case SetHostname(jitters) =>
        QuietInterfaces(s, s.(hostname := true));
        RestartAllKeepsInterfaces(s.(hostname := true), jitters);
      case RestartAll(jitters) => RestartAllKeepsInterfaces(s, jitters);
      case Enable(p, joined, jitter) => EnableKeepsInterfaces(s, p, joined, jitter);
      case Disable(p) => TakeDownKeepsInterfaces(s, p, Off);
      case MarkDup(p) => TakeDownKeepsInterfaces(s, p, Dup);
      case RemoveService(x) => RemoveServiceKeepsInterfaces(s, x);
    }
  }

  /** Every step keeps the interfaces that are up in agreement with their packets, whether or not
      timer passes are disturbed, and wherever probing starts. */
  lemma StepKeepsInterfaces(s: State, i: Input)
    requires Interfaces(s) && Enabled(s, i)
    ensures Interfaces(Next(s, i))
  {
    match i {
      case Timer(receiveAt) => TimerKeepsInterfaces(s, receiveAt);
      case Execute => ExecuteKeepsInterfaces(s);
      case Probe(p, list, ip, clearOld, jitter) => InitProbeKeepsInterfaces(s, p, clearOld, list, ip, jitter);
      case Announce(p, list, ip, jitter) => AnnounceKeepsInterfaces(s, p, list, ip, jitter);
      case Answer(p, list, hosts, shareStep) =>
        WithPacketInterfaces(s, AnswerPacket(s, p, list, hosts, shareStep), s.pcbs[p]);
      case Tick(_) | Receive | PostOther | Conflict(_) | AddService(_) => QuietInterfaces(s, Next(s, i));
      case _ => InterfaceStepKeepsInterfaces(s, i);
    }
  }
}
