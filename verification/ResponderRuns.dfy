/** Whole runs of the responder: what holds in every run, and what needs timer passes to be safe. */
module ResponderRuns {
  import opened MdnsTypes
  import opened TxQueue
  import opened Responder
  import opened ResponderEffects
  import opened ResponderPipeline
  import opened ResponderPacing
  import opened ResponderInterfaces

  predicate Initial(s: State)
  {
    && s.queue == [] && s.fifo == [] && s.hand.None? && 0 < s.cap
    && s.services == [] && !s.hostname && s.log == []
    && forall p :: 0 <= p < |s.pcbs| ==> s.pcbs[p] == Pcb(Off, false, [], false, false, 0)
  }

  // A run: each input is possible in the state it meets.
  predicate Run(s: State, inputs: seq<Input>)
    decreases |inputs|
  {
    inputs == [] || (Enabled(s, inputs[0]) && Run(Next(s, inputs[0]), inputs[1..]))
  }

  function After(s: State, inputs: seq<Input>): State
    requires Run(s, inputs)
    decreases |inputs|
  {
    if inputs == [] then s else After(Next(s, inputs[0]), inputs[1..])
  }

  // No timer pass of the run is disturbed harmfully.
  predicate SafeRun(s: State, inputs: seq<Input>)
    requires Run(s, inputs)
    decreases |inputs|
  {
    inputs == []
    || ((inputs[0].Timer? ==> SafePass(s, inputs[0].receiveAt)) && SafeRun(Next(s, inputs[0]), inputs[1..]))
  }

  ghost predicate Reaches(s: State, inputs: seq<Input>, t: State)
  {
    Run(s, inputs) && After(s, inputs) == t
  }

  lemma ReachesCons(s: State, i: Input, inputs: seq<Input>, t: State)
    requires Enabled(s, i) && Reaches(Next(s, i), inputs, t)
    ensures Reaches(s, [i] + inputs, t)
  {
    assert ([i] + inputs)[1..] == inputs;
  }

  // ---- Inductions ----

  lemma {:induction false} RunKeepsPipeline(s: State, inputs: seq<Input>, safe: bool)
    requires Pipeline(s, safe) && Sound(s) && Run(s, inputs) && (safe ==> SafeRun(s, inputs))
    ensures Pipeline(After(s, inputs), safe) && Sound(After(s, inputs))
    decreases |inputs|
  {
    if inputs != [] {
      StepKeepsPipeline(s, inputs[0], safe);
      StepKeepsSound(s, inputs[0]);
      RunKeepsPipeline(Next(s, inputs[0]), inputs[1..], safe);
    }
  }

  lemma {:induction false} RunKeepsPaced(s: State, inputs: seq<Input>)
    requires Paced(s) && Sound(s) && Run(s, inputs)
    ensures Paced(After(s, inputs))
    decreases |inputs|
  {
    if inputs != [] {
      StepKeepsPaced(s, inputs[0]);
      StepKeepsSound(s, inputs[0]);
      RunKeepsPaced(Next(s, inputs[0]), inputs[1..]);
    }
  }

  lemma {:induction false} RunKeepsInterfaces(s: State, inputs: seq<Input>)
    requires Interfaces(s) && Run(s, inputs)
    ensures Interfaces(After(s, inputs))
    decreases |inputs|
  {
    if inputs != [] {
      StepKeepsInterfaces(s, inputs[0]);
      RunKeepsInterfaces(Next(s, inputs[0]), inputs[1..]);
    }
  }

  // A fresh responder satisfies every invariant.
  lemma InitialPipeline(s: State)
    requires Initial(s)
    ensures Pipeline(s, true) && Pipeline(s, false) && Sound(s)
  {
    assert s.Pending() == [] && TxIds([]) == [] && QueuedIds([]) == [];
  }

  lemma InitialPaced(s: State)
    requires Initial(s)
    ensures Paced(s)
  {
    forall p | 0 <= p < |s.pcbs| ensures PacedAt(s, p) {
    }
  }

  lemma InitialInterfaces(s: State)
    requires Initial(s)
    ensures Interfaces(s)
  {
    forall p | 0 <= p < |s.pcbs| ensures InterfaceOk(s, p) {
      assert s.pcbs[p] == Pcb(Off, false, [], false, false, 0) && Of([], p) == [];
    }
  }

  // ---- Every run ----

  /** Pace of probing (section 8.1 of RFC 6762). In every run from a fresh responder an
      announcement is built from a probe only when the packets its interface sent since probing
      last began there are three probes, each more than 250 ms after the one before and for no
      service that one was not for. */
  lemma AnnouncedAfterProbes(s: State, inputs: seq<Input>)
    requires Initial(s) && Run(s, inputs)
    ensures var log := After(s, inputs).log;
      forall i :: 0 <= i < |log| && log[i].Announced? ==> ThreeProbes(Trail(log[..i], log[i].pcb))
  {
    InitialPaced(s);
    InitialPipeline(s);
    RunKeepsPaced(s, inputs);
  }

  /** Order of sending. In every state of every run from a fresh responder, also when timer passes
      are disturbed, the list is sorted, and packets went out in order of their due times. */
  lemma SendOrder(s: State, inputs: seq<Input>)
    requires Initial(s) && Run(s, inputs)
    ensures var t := After(s, inputs);
      && Sorted(t.queue)
      && (forall i, j :: 0 <= i < j < |t.log| && t.log[i].Sent? && t.log[j].Sent? ==>
            t.log[i].packet.sendAt <= t.log[j].packet.sendAt)
  {
    InitialPipeline(s);
    RunKeepsPipeline(s, inputs, false);
  }

  /** Probes of interfaces that are up. In every state of every run from a fresh responder an
      interface that is up and probing has exactly one packet listed, the probe for the services
      on record; one that is up and not probing has no probe listed and nothing on record. */
  lemma ProbeMatchesRecord(s: State, inputs: seq<Input>, p: nat)
    requires Initial(s) && Run(s, inputs)
    requires p < |After(s, inputs).pcbs| && After(s, inputs).pcbs[p].ready
    ensures var t := After(s, inputs);
            var c := t.pcbs[p];
      && OneProbe(c, Of(t.queue, p)) && (c.probeRunning <==> c.state.Probing())
      && (!c.state.Probing() ==> c.probeServices == [] && forall x :: x in Of(t.queue, p) ==> !x.probe)
  {
    InitialInterfaces(s);
    RunKeepsInterfaces(s, inputs);
    assert InterfaceOk(After(s, inputs), p);
  }

  // ---- Runs whose timer passes are safe ----

  // The marked packets stay at the front of the list in all states of the run.
  predicate PrefixThroughout(s: State, inputs: seq<Input>)
    requires Run(s, inputs)
    decreases |inputs|
  {
    QueuedFirst(s.queue) && (inputs == [] || PrefixThroughout(Next(s, inputs[0]), inputs[1..]))
  }

  lemma {:induction false} PrefixRunIff(s: State, inputs: seq<Input>)
    requires Pipeline(s, true) && Sound(s) && Run(s, inputs)
    ensures PrefixThroughout(s, inputs) <==> SafeRun(s, inputs)
    decreases |inputs|
  {
    if inputs != [] {
      var i := inputs[0];
      if i.Timer? {
        PassPrefixIff(s, i.receiveAt);
      }
      if i.Timer? ==> SafePass(s, i.receiveAt) {
        StepKeepsPipeline(s, i, true);
        StepKeepsSound(s, i);
        PrefixRunIff(Next(s, i), inputs[1..]);
      } else {
        assert !PrefixThroughout(Next(s, i), inputs[1..]);
      }
    }
  }

  /** In a run from a fresh responder the marked packets stay at the front of the list throughout
      exactly when every timer pass is safe. */
  lemma SafeRunIff(s: State, inputs: seq<Input>)
    requires Initial(s) && Run(s, inputs)
    ensures PrefixThroughout(s, inputs) <==> SafeRun(s, inputs)
  {
    InitialPipeline(s);
    PrefixRunIff(s, inputs);
  }

  /** Transmissions. In every state of every such run the pending transmissions of listed packets
      are those of the marked front of the list, in order; the one in hand, if its packet is listed
      at all, is that of the list head; and every transmission ever skipped belonged to a packet no
      longer listed. */
  lemma TransmitOrder(s: State, inputs: seq<Input>)
    requires Initial(s) && Run(s, inputs) && SafeRun(s, inputs)
    ensures var t := After(s, inputs);
      && QueuedFirst(t.queue)
      && Keep(TxIds(t.Pending()), IdSet(t.queue)) == QueuedIds(t.queue)
      && (t.hand.Some? && t.hand.value.Tx? && t.hand.value.id in IdSet(t.queue) ==>
            t.queue != [] && t.queue[0].id == t.hand.value.id && t.queue[0].queued)
      && (forall i :: 0 <= i < |t.log| && t.log[i].Skipped? ==> !t.log[i].live)
  {
    InitialPipeline(s);
    RunKeepsPipeline(s, inputs, true);
    HandIsHead(After(s, inputs));
  }

  lemma HandIsHead(t: State)
    requires Pipeline(t, true)
    ensures t.hand.Some? && t.hand.value.Tx? && t.hand.value.id in IdSet(t.queue) ==> HeadMatches(t.queue, t.hand.value)
  {
    if t.hand.Some? && t.hand.value.Tx? && t.hand.value.id in IdSet(t.queue) {
      assert t.Pending() == [Tx(t.hand.value.id)] + t.fifo;
      LiveMeansHead(t.queue, t.now, t.hand.value.id, t.fifo, t.nextId, t.log);
    }
  }

  // ---- Steps that keep the match ----

  // What a responder keeps while its passes are safe.
  predicate Inv(s: State)
  {
    Pipeline(s, true) && Sound(s)
  }

  lemma StepKeepsInv(s: State, i: Input)
    requires Inv(s) && Enabled(s, i) && (i.Timer? ==> SafePass(s, i.receiveAt))
    ensures Inv(Next(s, i)) && |Next(s, i).pcbs| == |s.pcbs|
  {
    StepKeepsPipeline(s, i, true);
    StepKeepsSound(s, i);
  }
}
