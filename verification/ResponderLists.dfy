/** The lists of services kept with the interfaces: in every run, whatever happens to timer passes
    and wherever probing starts, no interface probes for a service twice. */
module ResponderLists {
  import opened MdnsTypes
  import opened TxQueue
  import opened Responder
  import opened ResponderEffects
  import opened ResponderPipeline
  import opened ResponderRuns

  predicate DistinctIn(pcbs: seq<Pcb>)
  {
    forall p :: 0 <= p < |pcbs| ==> NoDuplicates(pcbs[p].probeServices)
  }

  predicate Distinct(s: State)
  {
    NoDuplicates(s.services) && DistinctIn(s.pcbs)
  }

  // Also when the merge is cut short at the length allocated.
  lemma MergedDistinct(c: Pcb, list: seq<Service>)
    requires NoDuplicates(c.probeServices) && NoDuplicates(list)
    ensures NoDuplicates(Merged(c, Added(c, list))[..MergedLen(c, Added(c, list))])
  {
    var added := Added(c, list);
    var m := Merged(c, added)[..MergedLen(c, added)];
    forall i, j | 0 <= i < j < |m| ensures m[i] != m[j] {
      if i < |added| <= j {
        assert m[i] == added[i] && m[j] == c.probeServices[j - |added|];
        assert added[i] in added && c.probeServices[j - |added|] in c.probeServices;
      }
    }
  }

  lemma InitProbeDistinct(s: State, p: nat, list: seq<Service>, ip: bool, jitter: nat)
    requires Distinct(s) && p < |s.pcbs| && NoDuplicates(list)
    ensures Distinct(InitProbe(s, p, list, ip, jitter))
  {
    MergedDistinct(s.pcbs[p], list);
  }

  lemma {:induction false} RestartDistinct(s: State, k: nat, jitters: seq<nat>)
    requires Distinct(s) && k <= |s.pcbs| == |jitters|
    ensures Distinct(RestartFrom(s, k, jitters))
    decreases |s.pcbs| - k
  {
    if k < |s.pcbs| {
      if s.pcbs[k].ready {
        InitProbeDistinct(ClearOldProbe(s, k), k, s.services, true, jitters[k]);
        RestartDistinct(InitProbe(ClearOldProbe(s, k), k, s.services, true, jitters[k]), k + 1, jitters);
      } else {
        RestartDistinct(s, k + 1, jitters);
      }
    }
  }

  lemma {:induction false} StripDistinct(q: seq<Packet>, pcbs: seq<Pcb>, service: Service)
    requires (forall i :: 0 <= i < |q| ==> q[i].pcb < |pcbs|) && DistinctIn(pcbs)
    ensures DistinctIn(Strip(q, pcbs, service).pcbs)
  {
    if q != [] {
      StripDistinct(q[1..], pcbs[q[0].pcb := StripPcb(pcbs[q[0].pcb], q[0], service)], service);
    }
  }

  lemma HandleDistinct(s: State, x: Packet)
    requires Distinct(s) && x.pcb < |s.pcbs|
    ensures Distinct(HandlePacket(s, x))
  {
    HandledPcbs(s, x);
  }

  lemma ExecuteDistinct(s: State)
    requires Distinct(s) && WellFormed(s) && s.hand.Some?
    ensures Distinct(ExecuteHand(s))
  {
    if HeadMatches(s.queue, s.hand.value) {
      HandleDistinct(Popped(s), s.queue[0].(queued := false));
    }
  }

  lemma AnnounceDistinct(s: State, p: nat, list: seq<Service>, ip: bool, jitter: nat)
    requires Distinct(s) && p < |s.pcbs| && NoDuplicates(list)
    ensures Distinct(AnnouncePcb(s, p, list, ip, jitter))
  {
    InitProbeDistinct(s, p, list, ip, jitter);
  }

  lemma EnableDistinct(s: State, p: nat, joined: bool, jitter: nat)
    requires Distinct(s) && p < |s.pcbs|
    ensures Distinct(EnablePcb(s, p, joined, jitter))
  {
    InitProbeDistinct(s.(pcbs := s.pcbs[p := s.pcbs[p].(ready := true)]), p, s.services, true, jitter);
  }

  lemma RemoveDistinct(s: State, service: Service)
    requires Distinct(s) && WellFormed(s)
    ensures Distinct(Next(s, RemoveService(service)))
  {
    StripDistinct(s.queue, s.pcbs, service);
  }

  lemma InterfaceStepDistinct(s: State, i: Input)
    requires Distinct(s) && Enabled(s, i)
    requires i.Enable? || i.SetHostname? || i.RestartAll? || i.RemoveService?
    ensures Distinct(Next(s, i))
  {
    match i {
      case SetHostname(jitters) => RestartDistinct(s.(hostname := true, queue := []), 0, jitters);
      case RestartAll(jitters) => RestartDistinct(s.(queue := []), 0, jitters);
      case Enable(p, joined, jitter) => EnableDistinct(s, p, joined, jitter);
      case RemoveService(x) => RemoveDistinct(s, x);
    }
  }

  lemma StepKeepsDistinct(s: State, i: Input)
    requires Distinct(s) && Enabled(s, i)
    ensures Distinct(Next(s, i))
  {
    match i {
      case Execute => ExecuteDistinct(s);
      case Probe(p, list, ip, clearOld, jitter) =>
        InitProbeDistinct(if clearOld then ClearOldProbe(s, p) else s, p, list, ip, jitter);
      case Announce(p, list, ip, jitter) => AnnounceDistinct(s, p, list, ip, jitter);
      case Enable(_, _, _) | SetHostname(_) | RestartAll(_) | RemoveService(_) => InterfaceStepDistinct(s, i);
      case _ =>
    }
  }

  lemma {:induction false} RunKeepsDistinct(s: State, inputs: seq<Input>)
    requires Distinct(s) && Run(s, inputs)
    ensures Distinct(After(s, inputs))
    decreases |inputs|
  {
    if inputs != [] {
      StepKeepsDistinct(s, inputs[0]);
      RunKeepsDistinct(Next(s, inputs[0]), inputs[1..]);
    }
  }

  /** In every state of every run from a fresh responder no service is registered twice and no
      interface probes for one twice, which removing a service relies on. */
  lemma ProbedOnce(s: State, inputs: seq<Input>, p: nat)
    requires Initial(s) && Run(s, inputs) && p < |After(s, inputs).pcbs|
    ensures var t := After(s, inputs);
      NoDuplicates(t.services) && NoDuplicates(t.pcbs[p].probeServices)
  {
    RunKeepsDistinct(s, inputs);
  }
}
