/** Progress when nothing new arrives: how much an interface can still send, in every run; that as
    long as passes are safe everything can be sent, and is, by every run with enough rounds. */
module ResponderProgress {
  import opened MdnsTypes
  import opened TxQueue
  import opened Responder
  import opened ResponderEffects
  import opened ResponderPipeline
  import opened ResponderInterfaces
  import opened ResponderRuns

  // Packets an interface has sent from the list.
  function SentCount(log: seq<Event>, p: nat): nat
  {
    if log == [] then 0
    else SentCount(log[..|log| - 1], p) + if log[|log| - 1].Sent? && log[|log| - 1].pcb == p then 1 else 0
  }

  // States still to go through plus packets still listed.
  function Load(s: State, p: nat): nat
    requires p < |s.pcbs|
  {
    Running.Rank() - s.pcbs[p].state.Rank() + |Of(s.queue, p)|
  }

  lemma SentCountStep(log: seq<Event>, e: Event, p: nat)
    ensures SentCount(log + [e], p) == SentCount(log, p) + if e.Sent? && e.pcb == p then 1 else 0
  {
    assert (log + [e])[..|log|] == log;
  }

  // State of an interface after one of its packets went out, and whether a packet takes its place.
  function Advanced(state: PcbState): PcbState
  {
    if state.Probing() || state.AnnouncingMacro() then state.Successor() else state
  }

  predicate SendsAgain(state: PcbState)
  {
    state.Probing() || state.Announce1? || state.Announce2?
  }

  lemma HandledSentCount(s: State, x: Packet, p: nat)
    requires x.pcb < |s.pcbs| && !s.pcbs[x.pcb].state.Off?
    ensures SentCount(HandlePacket(s, x).log, p) == SentCount(s.log, p) + if p == x.pcb then 1 else 0
  {
    HandledLog(s, x);
    var sent := AfterSending(s, x);
    SentCountStep(s.log, Sent(x.pcb, s.pcbs[x.pcb].state, x, s.now), p);
    SentCountStep(sent.log, Announced(x.pcb), p);
  }

  lemma HandledState(s: State, x: Packet)
    requires x.pcb < |s.pcbs|
    ensures |HandlePacket(s, x).pcbs| == |s.pcbs|
    ensures HandlePacket(s, x).pcbs[x.pcb].state == Advanced(s.pcbs[x.pcb].state)
  {
    HandledPcbs(s, x);
  }

  lemma ResentListing(s: State, x: Packet, delay: nat)
    requires x.pcb < |s.pcbs|
    ensures |Of(Resend(s, x, delay).queue, x.pcb)| == |Of(s.queue, x.pcb)| + 1
  {
    InsertOf(s.queue, x.(sendAt := s.now + delay), x.pcb);
  }

  lemma FinishedListing(s: State, x: Packet)
    requires x.pcb < |s.pcbs|
    ensures |Of(FinishProbing(s, x).queue, x.pcb)| == |Of(s.queue, x.pcb)| + 1
  {
    InsertOf(s.queue, AnnouncePacket(s, x), x.pcb);
  }

  lemma HandledListing(s: State, x: Packet)
    requires x.pcb < |s.pcbs|
    ensures |Of(HandlePacket(s, x).queue, x.pcb)|
         == |Of(s.queue, x.pcb)| + if SendsAgain(s.pcbs[x.pcb].state) then 1 else 0
  {
    var sent := AfterSending(s, x);
    match s.pcbs[x.pcb].state {
      case Probe1 | Probe2 => ResentListing(sent, x, PROBE_INTERVAL);
      case Announce1 | Announce2 => ResentListing(sent, x, ANNOUNCE_INTERVAL);
      case Probe3 => FinishedListing(sent, x);
      case _ =>
    }
  }

  // What sending one packet of interface p does to what the interface has sent and still has to send.
  predicate SendsOne(s: State, t: State, p: nat)
  {
    && p < |s.pcbs| == |t.pcbs| && !s.pcbs[p].state.Off?
    && SentCount(t.log, p) == SentCount(s.log, p) + 1
    && t.pcbs[p].state == Advanced(s.pcbs[p].state)
    && |Of(s.queue, p)| > 0
    && |Of(t.queue, p)| == |Of(s.queue, p)| - if SendsAgain(s.pcbs[p].state) then 0 else 1
  }

  // A packet of an interface that is off is dropped.
  predicate DropsOne(s: State, t: State, p: nat)
  {
    && p < |s.pcbs| == |t.pcbs| && s.pcbs[p].state.Off?
    && SentCount(t.log, p) == SentCount(s.log, p) && t.pcbs[p] == s.pcbs[p]
    && |Of(t.queue, p)| == |Of(s.queue, p)| - 1
  }

  lemma HandleCounts(s: State, x: Packet)
    requires AboutToHandle(s, x)
    ensures var t := HandlePacket(Popped(s), x);
      if s.pcbs[x.pcb].state.Off? then DropsOne(s, t, x.pcb) else SendsOne(s, t, x.pcb)
  {
    PopOf(s.queue, x.pcb);
    if !s.pcbs[x.pcb].state.Off? {
      HandledSentCount(Popped(s), x, x.pcb);
      HandledState(Popped(s), x);
      HandledListing(Popped(s), x);
    }
  }

  // Seen from an interface on which nothing happens.
  predicate SendsNothing(s: State, t: State, p: nat)
  {
    && p < |s.pcbs| == |t.pcbs|
    && SentCount(t.log, p) == SentCount(s.log, p) && t.pcbs[p] == s.pcbs[p]
    && |Of(t.queue, p)| == |Of(s.queue, p)|
  }

  lemma HandleCountsOthers(s: State, x: Packet, p: nat)
    requires AboutToHandle(s, x) && p < |s.pcbs| && p != x.pcb
    ensures SendsNothing(s, HandlePacket(Popped(s), x), p)
  {
    HandleOthers(Popped(s), x, p);
    PopOf(s.queue, p);
    if !s.pcbs[x.pcb].state.Off? {
      HandledSentCount(Popped(s), x, p);
    }
  }

  // An internal step other than handling the list head changes nothing an interface can see.
  lemma OtherInternalStep(s: State, i: Input, p: nat)
    requires Enabled(s, i) && i.Internal() && p < |s.pcbs| && !Sends(s, i)
    ensures SendsNothing(s, Next(s, i), p) && Next(s, i).pcbs == s.pcbs
  {
    if i.Timer? {
      PassMarks(s, i.receiveAt);
      MarksKeepOf(Next(s, i).queue, s.queue, p);
    } else if i.Execute? && s.hand.value.Tx? {
      SentCountStep(s.log, Next(s, i).log[|s.log|], p);
    }
  }

  // The input makes the service task handle the list head.
  predicate Sends(s: State, i: Input)
  {
    i.Execute? && s.hand.Some? && HeadMatches(s.queue, s.hand.value)
  }

  lemma HeadAboutToHandle(s: State)
    requires WellFormed(s) && Sends(s, Execute)
    ensures AboutToHandle(s, s.queue[0].(queued := false))
    ensures ExecuteHand(s) == HandlePacket(Popped(s), s.queue[0].(queued := false))
  {
  }

  // With nothing new arriving, a step either sends one packet of the interface, or drops it when
  // the interface is off, or changes nothing for the interface.
  lemma InternalStep(s: State, i: Input, p: nat)
    requires Enabled(s, i) && i.Internal() && p < |s.pcbs|
    ensures var t := Next(s, i);
      if !(Sends(s, i) && s.queue[0].pcb == p) then SendsNothing(s, t, p)
      else if s.pcbs[p].state.Off? then DropsOne(s, t, p)
      else SendsOne(s, t, p)
  {
    if Sends(s, i) {
      HeadAboutToHandle(s);
      var x := s.queue[0].(queued := false);
      if p == x.pcb {
        HandleCounts(s, x);
      } else {
        HandleCountsOthers(s, x, p);
      }
    } else {
      OtherInternalStep(s, i, p);
    }
  }

  /** With nothing new arriving, every packet an interface sends, or has dropped, costs it at least
      one unit of its load, and nothing ever adds to the load. */
  lemma StepDrains(s: State, i: Input, p: nat)
    requires Enabled(s, i) && i.Internal() && p < |s.pcbs|
    ensures var t := Next(s, i);
      && |t.pcbs| == |s.pcbs|
      && SentCount(t.log, p) >= SentCount(s.log, p)
      && Load(t, p) + (SentCount(t.log, p) - SentCount(s.log, p)) <= Load(s, p)
      && (Sends(s, i) && s.queue[0].pcb == p ==> Load(t, p) < Load(s, p))
  {
    InternalStep(s, i, p);
    if Sends(s, i) && s.queue[0].pcb == p && !s.pcbs[p].state.Off? {
      SendsOneDrains(s, Next(s, i), p);
    }
  }

  lemma SendsOneDrains(s: State, t: State, p: nat)
    requires SendsOne(s, t, p)
    ensures Load(t, p) < Load(s, p)
  {
  }

  predicate AllInternal(inputs: seq<Input>)
  {
    forall k :: 0 <= k < |inputs| ==> inputs[k].Internal()
  }

  // The load bounds all that can still be sent.
  lemma {:induction false} RunDrains(s: State, inputs: seq<Input>, p: nat)
    requires Run(s, inputs) && AllInternal(inputs) && p < |s.pcbs|
    ensures var t := After(s, inputs);
      && |t.pcbs| == |s.pcbs|
      && SentCount(t.log, p) >= SentCount(s.log, p)
      && Load(t, p) + (SentCount(t.log, p) - SentCount(s.log, p)) <= Load(s, p)
    decreases |inputs|
  {
    if inputs != [] {
      StepDrains(s, inputs[0], p);
      RunDrains(Next(s, inputs[0]), inputs[1..], p);
    }
  }

  // n packets after the start of probing.
  predicate Phase(s: State, p: nat, n: nat)
  {
    && p < |s.pcbs| && n <= 6
    && s.pcbs[p].state.Rank() == (if n < 6 then Probe1.Rank() + n else Running.Rank())
    && |Of(s.queue, p)| == (if n < 6 then 1 else 0)
  }

  lemma PhaseStep(s: State, i: Input, p: nat, n: nat)
    requires Enabled(s, i) && i.Internal() && Phase(s, p, n)
    ensures var t := Next(s, i);
      && SentCount(t.log, p) >= SentCount(s.log, p)
      && Phase(t, p, n + (SentCount(t.log, p) - SentCount(s.log, p)))
  {
    InternalStep(s, i, p);
    if Sends(s, i) && s.queue[0].pcb == p {
      SendsOnePhase(s, Next(s, i), p, n);
    }
  }

  lemma SendsOnePhase(s: State, t: State, p: nat, n: nat)
    requires SendsOne(s, t, p) && Phase(s, p, n)
    ensures Phase(t, p, n + 1)
  {
  }

  /** From the start of probing, with nothing new arriving, the interface has sent n packets
      exactly when it has advanced n states, and the sixth leads to Running with nothing left. */
  lemma {:induction false} SixPackets(s: State, inputs: seq<Input>, p: nat, n: nat)
    requires Run(s, inputs) && AllInternal(inputs) && Phase(s, p, n)
    ensures var t := After(s, inputs);
      && SentCount(t.log, p) >= SentCount(s.log, p)
      && Phase(t, p, n + (SentCount(t.log, p) - SentCount(s.log, p)))
    decreases |inputs|
  {
    if inputs != [] {
      PhaseStep(s, inputs[0], p, n);
      SixPackets(Next(s, inputs[0]), inputs[1..], p, n + (SentCount(Next(s, inputs[0]).log, p) - SentCount(s.log, p)));
    }
  }

  // Where probing starts on an interface that is up, in whatever run.
  lemma ProbeStartsPhase(s: State, inputs: seq<Input>, p: nat)
    requires Initial(s) && Run(s, inputs) && p < |After(s, inputs).pcbs|
    requires After(s, inputs).pcbs[p].ready && After(s, inputs).pcbs[p].state.Probe1?
    ensures Phase(After(s, inputs), p, 0)
  {
    ProbeMatchesRecord(s, inputs, p);
  }

  // ---- Every reachable state can drain ----

  function TotalLoad(s: State, n: nat): nat
    requires n <= |s.pcbs|
  {
    if n == 0 then 0 else TotalLoad(s, n - 1) + Load(s, n - 1)
  }

  lemma {:induction false} TotalLoadDrops(s: State, t: State, n: nat, p: nat)
    requires n <= |s.pcbs| == |t.pcbs|
    requires forall q :: 0 <= q < n ==> Load(t, q) <= Load(s, q)
    ensures TotalLoad(t, n) <= TotalLoad(s, n)
    ensures p < n && Load(t, p) < Load(s, p) ==> TotalLoad(t, n) < TotalLoad(s, n)
  {
    if n > 0 {
      TotalLoadDrops(s, t, n - 1, p);
    }
  }

  lemma NextTotal(s: State, i: Input)
    requires Enabled(s, i) && i.Internal()
    ensures |Next(s, i).pcbs| == |s.pcbs|
    ensures Total(Next(s, i)) <= Total(s)
    ensures Sends(s, i) ==> Total(Next(s, i)) < Total(s)
  {
    var t := Next(s, i);
    NextPcbs(s, i);
    forall q | 0 <= q < |s.pcbs| ensures Load(t, q) <= Load(s, q) {
      StepDrains(s, i, q);
    }
    if Sends(s, i) {
      StepDrains(s, i, s.queue[0].pcb);
      TotalLoadDrops(s, t, |s.pcbs|, s.queue[0].pcb);
    } else {
      TotalLoadDrops(s, t, |s.pcbs|, 0);
    }
  }

  lemma NextPcbs(s: State, i: Input)
    requires Enabled(s, i) && i.Internal()
    ensures |Next(s, i).pcbs| == |s.pcbs|
  {
    if Sends(s, i) {
      HandledState(Popped(s), s.queue[0].(queued := false));
    }
  }

  function Total(s: State): nat { TotalLoad(s, |s.pcbs|) }

  /** A run of internal steps, undisturbed, from s to t. */
  ghost predicate Leads(s: State, inputs: seq<Input>, t: State)
  {
    Run(s, inputs) && SafeRun(s, inputs) && AllInternal(inputs) && After(s, inputs) == t
  }

  lemma LeadsCons(s: State, i: Input, inputs: seq<Input>, t: State)
    requires Enabled(s, i) && i.Internal() && (i.Timer? ==> SafePass(s, i.receiveAt))
    requires Leads(Next(s, i), inputs, t)
    ensures Leads(s, [i] + inputs, t)
  {
    assert ([i] + inputs)[1..] == inputs;
  }

  predicate Idle(s: State) { s.hand.None? && s.fifo == [] }

  // With no action pending the head is not marked; a pass after its due time marks it first.
  lemma IdleHead(s: State)
    requires Inv(s) && Idle(s) && s.queue != []
    ensures !s.queue[0].queued
  {
    assert s.Pending() == [];
    assert QueuedIds(s.queue) == [];
  }

  lemma PassMarksHead(s: State)
    requires Inv(s) && Idle(s) && s.queue != [] && s.queue[0].sendAt < s.now && !s.queue[0].queued
    ensures var t := RunTimer(s, None);
      && t.hand.None? && t.fifo != [] && t.fifo[0] == Tx(s.queue[0].id)
      && t.queue != [] && t.queue[0] == s.queue[0].(queued := true)
  {
    var q := s.queue;
    assert q[0..] == q;
    PushTakesNothing(q, s.now, s.fifo, s.cap);
    PushExtends(q[1..], s.now, [Tx(q[0].id)], s.cap);
    assert [] + [Tx(q[0].id)] == [Tx(q[0].id)];
  }

  lemma {:induction false} PushExtends(q: seq<Packet>, now: nat, fifo: seq<Action>, cap: nat)
    ensures fifo <= Push(q, now, fifo, cap, None).fifo
  {
    if q != [] && q[0].sendAt < now {
      PushExtends(q[1..], now, if |fifo| < cap then fifo + [Tx(q[0].id)] else fifo, cap);
    }
  }

  // From an idle state with packets listed: wait, mark, receive, send.
  function Marked(s: State): State
    requires s.queue != [] && WellFormed(s)
  {
    RunTimer(s.(now := s.now + s.queue[0].sendAt + 1), None)
  }

  lemma MarkHead(s: State)
    requires Inv(s) && Idle(s) && s.queue != []
    ensures var t := Marked(s);
      && Inv(t) && Total(t) <= Total(s) && t.hand.None?
      && t.fifo != [] && HeadMatches(t.queue, t.fifo[0])
  {
    var tick := Tick(s.queue[0].sendAt + 1);
    var u := Next(s, tick);
    IdleHead(s);
    StepKeepsInv(s, tick);
    NextTotal(s, tick);
    StepKeepsInv(u, Timer(None));
    NextTotal(u, Timer(None));
    PassMarksHead(u);
  }

  lemma MarkHeadLeads(s: State, inputs: seq<Input>, t: State)
    requires WellFormed(s) && s.queue != [] && Leads(Marked(s), inputs, t)
    ensures Leads(s, [Tick(s.queue[0].sendAt + 1), Timer(None)] + inputs, t)
  {
    var tick := Tick(s.queue[0].sendAt + 1);
    LeadsCons(Next(s, tick), Timer(None), inputs, t);
    LeadsCons(s, tick, [Timer(None)] + inputs, t);
    assert [tick] + ([Timer(None)] + inputs) == [tick, Timer(None)] + inputs;
  }

  lemma ReceiveHead(s: State)
    requires Inv(s) && s.hand.None? && s.fifo != [] && HeadMatches(s.queue, s.fifo[0])
    ensures var r := Next(s, Receive);
      Enabled(r, Execute) && Inv(Next(r, Execute)) && Total(Next(r, Execute)) < Total(s)
  {
    var r := Next(s, Receive);
    StepKeepsInv(s, Receive);
    NextTotal(s, Receive);
    StepKeepsInv(r, Execute);
    NextTotal(r, Execute);
  }

  // Waiting, marking, receiving and sending the head, then whatever leads on to t.
  lemma SendHeadLeads(s: State, inputs: seq<Input>, t: State)
    requires Inv(s) && Idle(s) && s.queue != []
    requires var m := Marked(s);
      Enabled(m, Receive) && Enabled(Next(m, Receive), Execute) && Leads(Next(Next(m, Receive), Execute), inputs, t)
    ensures Leads(s, [Tick(s.queue[0].sendAt + 1), Timer(None)] + ([Receive] + ([Execute] + inputs)), t)
  {
    var m := Marked(s);
    LeadsCons(Next(m, Receive), Execute, inputs, t);
    LeadsCons(m, Receive, [Execute] + inputs, t);
    MarkHeadLeads(s, [Receive] + ([Execute] + inputs), t);
  }

  // Everything can be sent: from every state with the match intact some undisturbed run of the
  // clock and the two tasks alone empties the list and the FIFO.
  lemma {:induction false} CanDrain(s: State) returns (inputs: seq<Input>, t: State)
    requires Inv(s)
    ensures Leads(s, inputs, t) && t.queue == [] && Idle(t)
    decreases Total(s), 2 * |s.fifo| + if s.hand.Some? then 1 else 0
  {
    if s.hand.Some? {
      inputs, t := DrainAfter(s, Execute);
    } else if s.fifo != [] {
      inputs, t := DrainAfter(s, Receive);
    } else if s.queue != [] {
      inputs, t := DrainHead(s);
    } else {
      inputs, t := [], s;
    }
  }

  lemma {:induction false} DrainHead(s: State) returns (inputs: seq<Input>, t: State)
    requires Inv(s) && Idle(s) && s.queue != []
    ensures Leads(s, inputs, t) && t.queue == [] && Idle(t)
    decreases Total(s), 0, 0
  {
    MarkHead(s);
    var m := Marked(s);
    ReceiveHead(m);
    inputs, t := CanDrain(Next(Next(m, Receive), Execute));
    SendHeadLeads(s, inputs, t);
    inputs := [Tick(s.queue[0].sendAt + 1), Timer(None)] + ([Receive] + ([Execute] + inputs));
  }

  lemma {:induction false} DrainAfter(s: State, i: Input) returns (inputs: seq<Input>, t: State)
    requires Inv(s) && Enabled(s, i) && (i.Execute? || i.Receive?)
    ensures Leads(s, inputs, t) && t.queue == [] && Idle(t)
    decreases Total(s), 2 * |s.fifo| + (if s.hand.Some? then 1 else 0), 0
  {
    StepKeepsInv(s, i);
    NextTotal(s, i);
    inputs, t := CanDrain(Next(s, i));
    LeadsCons(s, i, inputs, t);
    inputs := [i] + inputs;
  }

  // ---- Where interfaces end up ----

  predicate Busy(state: PcbState) { state.Probing() || state.AnnouncingMacro() }

  // An interface that is to send something but has nothing listed.
  predicate Forsaken(s: State, p: nat)
    requires p < |s.pcbs|
  {
    Busy(s.pcbs[p].state) && Of(s.queue, p) == []
  }

  lemma StepForsaken(s: State, i: Input, p: nat)
    requires Enabled(s, i) && i.Internal() && p < |s.pcbs|
    ensures |Next(s, i).pcbs| == |s.pcbs| && (Forsaken(Next(s, i), p) <==> Forsaken(s, p))
  {
    InternalStep(s, i, p);
  }

  // With nothing new arriving no interface ever becomes so, or ceases to be.
  lemma {:induction false} RunForsaken(s: State, inputs: seq<Input>, p: nat)
    requires Run(s, inputs) && AllInternal(inputs) && p < |s.pcbs|
    ensures |After(s, inputs).pcbs| == |s.pcbs| && (Forsaken(After(s, inputs), p) <==> Forsaken(s, p))
    decreases |inputs|
  {
    if inputs != [] {
      StepForsaken(s, inputs[0], p);
      RunForsaken(Next(s, inputs[0]), inputs[1..], p);
    }
  }

  /** After every run from a fresh responder with safe passes, wherever probing started, some
      undisturbed run of the clock and the two tasks alone empties the list and the FIFO. It leaves
      an interface busy exactly if that had nothing listed to begin with, which none that is up
      ever has. */
  lemma ReachedCanDrain(s: State, sofar: seq<Input>) returns (inputs: seq<Input>, t: State)
    requires Initial(s) && Run(s, sofar) && SafeRun(s, sofar)
    ensures var u := After(s, sofar);
      && Leads(u, inputs, t) && t.queue == [] && Idle(t) && |t.pcbs| == |u.pcbs|
      && (forall p :: 0 <= p < |u.pcbs| ==> (Busy(t.pcbs[p].state) <==> Forsaken(u, p)))
      && (forall p :: 0 <= p < |u.pcbs| && u.pcbs[p].ready ==> !Forsaken(u, p))
  {
    InitialPipeline(s);
    InitialInterfaces(s);
    RunKeepsPipeline(s, sofar, true);
    RunKeepsInterfaces(s, sofar);
    var u := After(s, sofar);
    inputs, t := CanDrain(u);
    LeadsPcbs(u, inputs);
    forall p | 0 <= p < |u.pcbs| ensures Busy(t.pcbs[p].state) <==> Forsaken(u, p) {
      RunForsaken(u, inputs, p);
    }
    forall p | 0 <= p < |u.pcbs| && u.pcbs[p].ready ensures !Forsaken(u, p) {
      assert InterfaceOk(u, p);
    }
  }

  lemma {:induction false} LeadsPcbs(s: State, inputs: seq<Input>)
    requires Run(s, inputs) && AllInternal(inputs)
    ensures |After(s, inputs).pcbs| == |s.pcbs|
    decreases |inputs|
  {
    if inputs != [] {
      NextPcbs(s, inputs[0]);
      LeadsPcbs(Next(s, inputs[0]), inputs[1..]);
    }
  }

  // ---- Every run with enough rounds drains ----

  lemma {:induction false} RunTotal(s: State, inputs: seq<Input>)
    requires Run(s, inputs) && AllInternal(inputs)
    ensures Total(After(s, inputs)) <= Total(s)
    decreases |inputs|
  {
    if inputs != [] {
      NextTotal(s, inputs[0]);
      RunTotal(Next(s, inputs[0]), inputs[1..]);
    }
  }

  // A marked head stays until it is sent.
  lemma HeadStays(s: State, i: Input)
    requires Enabled(s, i) && i.Internal() && !Sends(s, i) && s.queue != [] && s.queue[0].queued
    ensures Next(s, i).queue != [] && Next(s, i).queue[0] == s.queue[0]
  {
  }

  // Once the head is marked, it is sent before both tasks are idle.
  lemma {:induction false} MarkedIsSent(s: State, inputs: seq<Input>)
    requires Inv(s) && Run(s, inputs) && SafeRun(s, inputs) && AllInternal(inputs)
    requires s.queue != [] && s.queue[0].queued && Idle(After(s, inputs))
    ensures Total(After(s, inputs)) < Total(s)
    decreases |inputs|
  {
    if inputs == [] {
      IdleHead(s);
    } else {
      var i := inputs[0];
      StepKeepsInv(s, i);
      NextTotal(s, i);
      RunTotal(Next(s, i), inputs[1..]);
      if !Sends(s, i) {
        HeadStays(s, i);
        MarkedIsSent(Next(s, i), inputs[1..]);
      }
    }
  }

  // A pass over a list whose head is due, with nothing pending, marks it.
  lemma PassMarksDueHead(s: State, receiveAt: Option<nat>)
    requires Inv(s) && Idle(s) && s.queue != [] && s.queue[0].sendAt < s.now
    ensures var t := RunTimer(s, receiveAt);
      t.queue != [] && t.queue[0].queued
  {
    IdleHead(s);
    var q := s.queue;
    assert QueuedLen(q) == 0 && q[0..] == q && q[..0] == [];
    var r := Push(q, s.now, [], s.cap, receiveAt);
    if receiveAt == Some(0) {
      assert r == Push(q, s.now, [], s.cap, None);
    }
    assert r.queue != [] && r.queue[0].queued;
    assert [] + r.queue == r.queue;
  }

  // At some point of the run a pass begins with nothing pending and, if anything is listed, the
  // list head due.
  predicate PassesDue(s: State, inputs: seq<Input>)
    requires Run(s, inputs)
    decreases |inputs|
  {
    inputs != []
    && ((inputs[0].Timer? && Idle(s) && (s.queue != [] ==> s.queue[0].sendAt < s.now))
        || PassesDue(Next(s, inputs[0]), inputs[1..]))
  }

  // A round: such a pass, sooner or later followed by a moment when both tasks are idle.
  predicate Round(s: State, inputs: seq<Input>)
  {
    && Run(s, inputs) && SafeRun(s, inputs) && AllInternal(inputs)
    && PassesDue(s, inputs) && Idle(After(s, inputs))
  }

  lemma {:induction false} EmptyStays(s: State, inputs: seq<Input>)
    requires Run(s, inputs) && AllInternal(inputs) && s.queue == []
    ensures After(s, inputs).queue == []
    decreases |inputs|
  {
    if inputs != [] {
      EmptyStays(Next(s, inputs[0]), inputs[1..]);
    }
  }

  lemma {:induction false} RoundSends(s: State, inputs: seq<Input>)
    requires Inv(s) && Round(s, inputs)
    ensures After(s, inputs).queue == [] || Total(After(s, inputs)) < Total(s)
    decreases |inputs|
  {
    var i := inputs[0];
    var next := Next(s, i);
    StepKeepsInv(s, i);
    NextTotal(s, i);
    if i.Timer? && Idle(s) && (s.queue != [] ==> s.queue[0].sendAt < s.now) {
      if s.queue == [] {
        EmptyStays(s, inputs);
      } else {
        PassMarksDueHead(s, i.receiveAt);
        MarkedIsSent(next, inputs[1..]);
      }
    } else {
      RoundSends(next, inputs[1..]);
    }
  }

  // One round after the other.
  predicate Rounds(s: State, rounds: seq<seq<Input>>)
    decreases |rounds|
  {
    rounds == [] || (Round(s, rounds[0]) && Rounds(After(s, rounds[0]), rounds[1..]))
  }

  function AfterRounds(s: State, rounds: seq<seq<Input>>): State
    requires Rounds(s, rounds)
    decreases |rounds|
  {
    if rounds == [] then s else AfterRounds(After(s, rounds[0]), rounds[1..])
  }

  // Whatever is listed is part of the total.
  lemma ListedIsLoad(s: State)
    requires WellFormed(s) && Total(s) == 0
    ensures s.queue == []
  {
    if s.queue != [] {
      PopOf(s.queue, s.queue[0].pcb);
      LoadInTotal(s, |s.pcbs|, s.queue[0].pcb);
    }
  }

  lemma {:induction false} LoadInTotal(s: State, n: nat, p: nat)
    requires p < n <= |s.pcbs|
    ensures Load(s, p) <= TotalLoad(s, n)
  {
    if p < n - 1 {
      LoadInTotal(s, n - 1, p);
    }
  }

  lemma {:induction false} RunKeepsInv(s: State, inputs: seq<Input>)
    requires Inv(s) && Run(s, inputs) && SafeRun(s, inputs)
    ensures Inv(After(s, inputs))
  {
    RunKeepsPipeline(s, inputs, true);
  }

  lemma {:induction false} RoundsDrain(s: State, rounds: seq<seq<Input>>)
    requires Inv(s) && WellFormed(s) && Rounds(s, rounds) && (s.queue == [] || |rounds| >= Total(s))
    ensures var t := AfterRounds(s, rounds);
      && t.queue == [] && |t.pcbs| == |s.pcbs|
      && (forall p :: 0 <= p < |s.pcbs| ==> (Busy(t.pcbs[p].state) <==> Forsaken(s, p)))
    decreases |rounds|
  {
    if rounds == [] {
      if s.queue != [] {
        ListedIsLoad(s);
      }
    } else {
      var u := After(s, rounds[0]);
      RoundSends(s, rounds[0]);
      RunKeepsInv(s, rounds[0]);
      LeadsPcbs(s, rounds[0]);
      if s.queue == [] {
        EmptyStays(s, rounds[0]);
      }
      RoundsDrain(u, rounds[1..]);
      forall p | 0 <= p < |s.pcbs| ensures Forsaken(u, p) <==> Forsaken(s, p) {
        RunForsaken(s, rounds[0], p);
      }
    }
  }

  /** And so does every run that has as many rounds as there is load: whatever clock, tasks and
      receives do in between, the list ends up empty and every interface that is up at rest. */
  lemma FairRunDrains(s: State, sofar: seq<Input>, rounds: seq<seq<Input>>)
    requires Initial(s) && Run(s, sofar) && SafeRun(s, sofar)
    requires Rounds(After(s, sofar), rounds) && |rounds| >= Total(After(s, sofar))
    ensures var u := After(s, sofar);
            var t := AfterRounds(u, rounds);
      && t.queue == [] && |t.pcbs| == |u.pcbs|
      && (forall p :: 0 <= p < |u.pcbs| ==> (Busy(t.pcbs[p].state) <==> Forsaken(u, p)))
      && (forall p :: 0 <= p < |u.pcbs| && u.pcbs[p].ready ==> !Busy(t.pcbs[p].state))
  {
    InitialPipeline(s);
    InitialInterfaces(s);
    RunKeepsPipeline(s, sofar, true);
    RunKeepsInterfaces(s, sofar);
    var u := After(s, sofar);
    RoundsDrain(u, rounds);
    forall p | 0 <= p < |u.pcbs| && u.pcbs[p].ready ensures !Forsaken(u, p) {
      assert InterfaceOk(u, p);
    }
  }
}
