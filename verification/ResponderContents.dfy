/** What packets carry, in every run: probing that starts over asks for every registered service,
    the announcement carries what the probe carried, and with nothing new arriving three probes
    and three announcements carry the same services. */
module ResponderContents {
  import opened MdnsTypes
  import opened TxQueue
  import opened Responder
  import opened ResponderEffects
  import opened ResponderPipeline
  import opened ResponderPacing
  import opened ResponderInterfaces
  import opened ResponderRuns
  import opened ResponderProgress

  // ---- What a probe asks for ----

  // The interface has just started to probe: one packet is listed, a probe for the services on
  // record and the host's records.
  predicate AsksFor(s: State, p: nat, record: seq<Service>)
  {
    && p < |s.pcbs| && s.pcbs[p].state.Probe1? && s.pcbs[p].probeServices == record
    && var of := Of(s.queue, p);
       |of| == 1 && of[0].probe && of[0].services == record && of[0].hosts.Elsewhere?
  }

  // Due between 120 and 247 ms from now, or a second and up to 127 ms after too many conflicts.
  predicate DueSoon(s: State, c: Pcb, p: nat)
  {
    var of := Of(s.queue, p);
    |of| == 1 && if c.failedProbes > 5 then s.now + 1000 <= of[0].sendAt < s.now + 1128
                 else s.now + 120 <= of[0].sendAt < s.now + 248
  }

  function RecordOf(c: Pcb, list: seq<Service>): seq<Service>
  {
    Merged(c, Added(c, list))[..MergedLen(c, Added(c, list))]
  }

  lemma RecordIs(c: Pcb, list: seq<Service>)
    ensures RecordOf(c, list) == if c.state.ProbingMacro() then NotIn(list, c.probeServices) + c.probeServices else list
  {
    var added := Added(c, list);
    assert (added + c.probeServices)[..|added| + |c.probeServices|] == added + c.probeServices;
    assert (added + c.probeServices)[..|added|] == added;
  }

  // The list to probe for from now on has every service asked for, and no other but those that
  // were on record before.
  lemma RecordCovers(c: Pcb, list: seq<Service>)
    ensures AllIn(list, RecordOf(c, list)) && AllIn(RecordOf(c, list), list + c.probeServices)
    ensures c.probeServices == [] ==> RecordOf(c, list) == list
  {
    RecordIs(c, list);
    NotInNothing(list);
    assert list + [] == list;
  }

  // Whatever was on record before, every service of the list is asked for, and while probing also
  // what was asked for already; and so are the host's records.
  lemma InitProbeAsks(s: State, p: nat, list: seq<Service>, ip: bool, jitter: nat)
    requires p < |s.pcbs| && s.hostname && jitter < 128
    ensures var t := InitProbe(s, p, list, ip, jitter);
            var c := s.pcbs[p];
      && p < |t.pcbs| && t.pcbs[p].ready == c.ready
      && (c.probeIp || ip ==> AsksFor(t, p, t.pcbs[p].probeServices)) && DueSoon(t, c, p)
      && AllIn(list, t.pcbs[p].probeServices)
      && AllIn(t.pcbs[p].probeServices, list + c.probeServices)
      && (c.state.Probing() ==> AllIn(c.probeServices, t.pcbs[p].probeServices))
      && (c.probeServices == [] ==> t.pcbs[p].probeServices == list)
  {
    InitProbeOwn(s, p, list, ip, jitter);
    RecordCovers(s.pcbs[p], list);
    RecordIs(s.pcbs[p], list);
  }

  /** Probing started for more services, after any run: the one packet listed is a probe for these
      and, unless the old ones are to be dropped, for what was being probed before; the host's
      records are asked for if they are, or were. */
  lemma ProbeAsksForMore(u: State, p: nat, list: seq<Service>, ip: bool, clearOld: bool, jitter: nat)
    requires Enabled(u, Probe(p, list, ip, clearOld, jitter)) && u.hostname
    ensures var t := Next(u, Probe(p, list, ip, clearOld, jitter));
            var c := u.pcbs[p];
            var of := Of(t.queue, p);
      && |t.pcbs| == |u.pcbs| && t.pcbs[p].state.Probe1? && DueSoon(t, c, p)
      && of[0].probe && of[0].services == t.pcbs[p].probeServices && AllIn(list, of[0].services)
      && (clearOld ==> of[0].services == list)
      && (!clearOld && c.state.Probing() ==> AllIn(c.probeServices, of[0].services))
      && (t.pcbs[p].probeIp <==> c.probeIp || ip) && of[0].hosts == if t.pcbs[p].probeIp then Elsewhere else Absent
  {
    var s := if clearOld then ClearOldProbe(u, p) else u;
    InitProbeAsks(s, p, list, ip, jitter);
    InitProbeOwn(s, p, list, ip, jitter);
  }

  // ---- Conflicts slow probing down ----

  function Conflicts(p: nat, n: nat): seq<Input>
  {
    if n == 0 then [] else [Conflict(p)] + Conflicts(p, n - 1)
  }

  // The state with n more conflicts counted, in 16 bits.
  function Counting(u: State, p: nat, n: nat): State
    requires p < |u.pcbs|
  {
    u.(pcbs := u.pcbs[p := u.pcbs[p].(failedProbes := (u.pcbs[p].failedProbes + n) % 0x1_0000)])
  }

  lemma CountingMore(u: State, p: nat, n: nat)
    requires p < |u.pcbs| && n > 0
    ensures Counting(Counting(u, p, 1), p, n - 1) == Counting(u, p, n)
  {
    assert ((u.pcbs[p].failedProbes + 1) % 0x1_0000 + (n - 1)) % 0x1_0000 == (u.pcbs[p].failedProbes + n) % 0x1_0000;
  }

  lemma {:induction false} ConflictsCount(u: State, p: nat, n: nat)
    requires WellFormed(u) && p < |u.pcbs| && u.pcbs[p].failedProbes < 0x1_0000
    ensures Run(u, Conflicts(p, n)) && After(u, Conflicts(p, n)) == Counting(u, p, n)
    decreases n
  {
    if n == 0 {
      assert u.pcbs[p := u.pcbs[p]] == u.pcbs;
    } else {
      assert Next(u, Conflict(p)) == Counting(u, p, 1);
      ConflictsCount(Counting(u, p, 1), p, n - 1);
      CountingMore(u, p, n);
      assert Conflicts(p, n)[1..] == Conflicts(p, n - 1);
    }
  }

  /** After n conflicts in a row since the last success the next probe waits a second or more
      exactly when there were more than five, and at most 247 ms otherwise. */
  lemma ConflictsSlowDown(u: State, p: nat, n: nat, v: State, list: seq<Service>, ip: bool, clearOld: bool,
      jitter: nat)
    requires WellFormed(u) && p < |u.pcbs| && u.pcbs[p].failedProbes == 0 && n < 0x1_0000 && u.hostname
    requires Reaches(u, Conflicts(p, n), v) && Enabled(v, Probe(p, list, ip, clearOld, jitter))
    ensures var of := Of(Next(v, Probe(p, list, ip, clearOld, jitter)).queue, p);
      |of| == 1 && (n > 5 ==> of[0].sendAt >= u.now + 1000) && (n <= 5 ==> of[0].sendAt < u.now + 248)
  {
    ConflictsCount(u, p, n);
    assert v.now == u.now && v.pcbs[p].failedProbes == n;
    ProbeAfter(v, p, list, ip, clearOld, jitter);
  }

  lemma ProbeAfter(v: State, p: nat, list: seq<Service>, ip: bool, clearOld: bool, jitter: nat)
    requires Enabled(v, Probe(p, list, ip, clearOld, jitter)) && v.hostname
    ensures var of := Of(Next(v, Probe(p, list, ip, clearOld, jitter)).queue, p);
      |of| == 1 && if v.pcbs[p].failedProbes > 5 then v.now + 1000 <= of[0].sendAt else of[0].sendAt < v.now + 248
  {
    ProbeAsksForMore(v, p, list, ip, clearOld, jitter);
  }

  /** An interface coming up, or enabled again, after any run, with a host name: every registered
      service is on its record and in its one listed probe. */
  lemma EnabledAsksForAll(s: State, inputs: seq<Input>, p: nat, joined: bool, jitter: nat)
    requires Initial(s) && Run(s, inputs) && Enabled(After(s, inputs), Enable(p, joined, jitter))
    requires var u := After(s, inputs); u.hostname && (joined || u.pcbs[p].ready)
    ensures var u := After(s, inputs);
            var t := Next(u, Enable(p, joined, jitter));
      && p < |t.pcbs| && t.pcbs[p].ready
      && AsksFor(t, p, t.pcbs[p].probeServices) && DueSoon(t, u.pcbs[p], p)
      && AllIn(u.services, t.pcbs[p].probeServices)
      && (u.pcbs[p].ready && !u.pcbs[p].state.Probing() ==> t.pcbs[p].probeServices == u.services)
  {
    var u := After(s, inputs);
    InitialInterfaces(s);
    RunKeepsInterfaces(s, inputs);
    assert InterfaceOk(u, p);
    InitProbeAsks(u.(pcbs := u.pcbs[p := u.pcbs[p].(ready := true)]), p, u.services, true, jitter);
  }

  // An interface that was up now probes for all services.
  predicate ProbesAfresh(s: State, t: State, p: nat)
    requires p < |s.pcbs| == |t.pcbs|
  {
    t.pcbs[p].ready && AsksFor(t, p, s.services) && DueSoon(t, s.pcbs[p], p)
  }

  predicate PassedOver(s: State, t: State, p: nat)
    requires p < |s.pcbs| == |t.pcbs|
  {
    t.pcbs[p] == s.pcbs[p] && Of(t.queue, p) == []
  }

  // What restarting the interfaces below k leaves.
  predicate RestartedUpTo(s: State, t: State, k: nat)
  {
    && k <= |s.pcbs| == |t.pcbs| && t.services == s.services && t.hostname && t.now == s.now
    && (forall p :: 0 <= p < |s.pcbs| ==>
          if p < k && s.pcbs[p].ready then ProbesAfresh(s, t, p) else PassedOver(s, t, p))
  }

  // The others are left alone.
  lemma RestartOthers(s: State, t: State, k: nat, jitter: nat, p: nat)
    requires k < |t.pcbs| && p < |t.pcbs| == |s.pcbs| && p != k
    ensures var r := InitProbe(ClearOldProbe(t, k), k, t.services, true, jitter);
      && |r.pcbs| == |t.pcbs| && r.now == t.now && r.services == t.services && r.hostname == t.hostname
      && (ProbesAfresh(s, t, p) ==> ProbesAfresh(s, r, p)) && (PassedOver(s, t, p) ==> PassedOver(s, r, p))
  {
    InitProbeOthers(ClearOldProbe(t, k), k, t.services, true, jitter, p);
  }

  lemma RestartOwn(s: State, t: State, k: nat, jitter: nat)
    requires RestartedUpTo(s, t, k) && k < |s.pcbs| && s.pcbs[k].ready && jitter < 128
    ensures var r := InitProbe(ClearOldProbe(t, k), k, t.services, true, jitter);
      && |r.pcbs| == |t.pcbs| && r.now == t.now && r.services == t.services && r.hostname
      && ProbesAfresh(s, r, k)
  {
    assert PassedOver(s, t, k);
    InitProbeAsks(ClearOldProbe(t, k), k, t.services, true, jitter);
  }

  lemma RestartStep(s: State, t: State, k: nat, jitter: nat)
    requires RestartedUpTo(s, t, k) && k < |s.pcbs| && s.pcbs[k].ready && jitter < 128
    ensures RestartedUpTo(s, InitProbe(ClearOldProbe(t, k), k, t.services, true, jitter), k + 1)
  {
    RestartOwn(s, t, k, jitter);
    forall p | 0 <= p < |s.pcbs| && p != k
      ensures var r := InitProbe(ClearOldProbe(t, k), k, t.services, true, jitter);
        if p < k && s.pcbs[p].ready then ProbesAfresh(s, r, p) else PassedOver(s, r, p)
    {
      RestartOthers(s, t, k, jitter, p);
    }
  }

  lemma {:induction false} RestartReaches(s: State, t: State, k: nat, jitters: seq<nat>)
    requires RestartedUpTo(s, t, k) && |jitters| == |s.pcbs| && forall i :: 0 <= i < |jitters| ==> jitters[i] < 128
    ensures RestartedUpTo(s, RestartFrom(t, k, jitters), |s.pcbs|)
    decreases |s.pcbs| - k
  {
    if k < |s.pcbs| {
      assert PassedOver(s, t, k);
      if t.pcbs[k].ready {
        RestartStep(s, t, k, jitters[k]);
        RestartReaches(s, InitProbe(ClearOldProbe(t, k), k, t.services, true, jitters[k]), k + 1, jitters);
      } else {
        RestartReaches(s, t, k + 1, jitters);
      }
    }
  }

  /** Setting the host name, or restarting with one, after any run: every interface that is up asks
      for exactly the registered services, and the others have nothing listed any more. */
  lemma RestartAsksForAll(s: State, inputs: seq<Input>, i: Input, p: nat)
    requires Initial(s) && Run(s, inputs) && Enabled(After(s, inputs), i) && p < |After(s, inputs).pcbs|
    requires i.SetHostname? || (i.RestartAll? && After(s, inputs).hostname)
    ensures var u := After(s, inputs);
            var t := Next(u, i);
      && |t.pcbs| == |u.pcbs| && t.hostname && t.services == u.services
      && (u.pcbs[p].ready ==> t.pcbs[p].ready && AsksFor(t, p, u.services) && DueSoon(t, u.pcbs[p], p))
      && (!u.pcbs[p].ready ==> t.pcbs[p] == u.pcbs[p] && Of(t.queue, p) == [])
  {
    var u := After(s, inputs);
    var w := u.(hostname := true, queue := []);
    RestartReaches(w, w, 0, i.jitters);
    assert if w.pcbs[p].ready then ProbesAfresh(w, RestartFrom(w, 0, i.jitters), p)
      else PassedOver(w, RestartFrom(w, 0, i.jitters), p);
    if i.RestartAll? {
      assert w == u.(queue := []);
    }
  }

  // ---- From the probe to the announcement ----

  // The packet sent is off the list, and in its place is one that is not a probe, with the same
  // services and the host's records in its answers, due in 250 ms.
  predicate TakesPlace(x: Packet, of: seq<Packet>, now: nat)
  {
    && |of| == 1 && !of[0].probe && of[0].services == x.services && of[0].sendAt == now + 250
    && (of[0].hosts.InAnswers? <==> x.services != [] || !x.hosts.Absent?)
    && (of[0].hosts.Absent? <==> x.services == [] && x.hosts.Absent?)
  }

  lemma Probe3Handled(s: State, x: Packet)
    requires AboutToHandle(s, x) && s.pcbs[x.pcb].state.Probe3? && |Of(s.queue, x.pcb)| <= 1
    ensures var t := HandlePacket(Popped(s), x);
      && |t.pcbs| == |s.pcbs| && t.pcbs[x.pcb].state.Announce1? && t.pcbs[x.pcb].ready == s.pcbs[x.pcb].ready
      && t.pcbs[x.pcb].failedProbes == 0 && Of(s.queue, x.pcb) == [x] && TakesPlace(x, Of(t.queue, x.pcb), s.now)
      && t.log == s.log + [Sent(x.pcb, Probe3, x, s.now), Announced(x.pcb)]
  {
    HandleProbe3(s, x);
    assert s.log + [Sent(x.pcb, Probe3, x, s.now)] + [Announced(x.pcb)]
        == s.log + [Sent(x.pcb, Probe3, x, s.now), Announced(x.pcb)];
  }

  /** After any run: when a packet is sent as the third probe, it is a probe, and what is listed in
      its place is not; it carries exactly the same services. On an interface that is up these
      are the services on record. */
  lemma ProbeBecomesAnnouncement(s: State, inputs: seq<Input>)
    requires Initial(s) && Run(s, inputs) && Enabled(After(s, inputs), Execute) && Sends(After(s, inputs), Execute)
    requires var u := After(s, inputs); u.pcbs[u.queue[0].pcb].state.Probe3?
    ensures var u := After(s, inputs);
            var t := Next(u, Execute);
            var x := u.queue[0].(queued := false);
      && x.probe && |t.pcbs| == |u.pcbs| && t.pcbs[x.pcb].state.Announce1? && t.pcbs[x.pcb].failedProbes == 0
      && TakesPlace(x, Of(t.queue, x.pcb), u.now)
      && t.log == u.log + [Sent(x.pcb, Probe3, x, u.now), Announced(x.pcb)]
      && (u.pcbs[x.pcb].ready ==> x.services == u.pcbs[x.pcb].probeServices)
  {
    var u := After(s, inputs);
    var x := u.queue[0].(queued := false);
    InitialInterfaces(s);
    InitialPaced(s);
    InitialPipeline(s);
    RunKeepsInterfaces(s, inputs);
    RunKeepsPaced(s, inputs);
    assert PacedAt(u, x.pcb) && InterfaceOk(u, x.pcb);
    HeadAboutToHandle(u);
    Probe3Handled(u, x);
  }
}
