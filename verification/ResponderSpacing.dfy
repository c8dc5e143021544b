/** How soon a packet goes out again: in every run, more than 250 ms later if it went out as a
    probe, and more than a second later if it went out as an announcement. */
module ResponderSpacing {
  import opened MdnsTypes
  import opened TxQueue
  import opened Responder
  import opened ResponderEffects
  import opened ResponderPipeline
  import opened ResponderRuns

  // States in which a packet that is sent goes back into the list, and for how long at least.
  predicate GoesAgain(state: PcbState)
  {
    state.Probe1? || state.Probe2? || state.Announce1? || state.Announce2?
  }

  function Pause(state: PcbState): nat
  {
    if state.Probing() then 250 else 1000
  }

  // The same packet went out before the given moment as it should have.
  predicate Again(e: Event, id: nat, at: nat)
  {
    e.Sent? && e.packet.id == id ==> GoesAgain(e.state) && at >= e.at + Pause(e.state)
  }

  predicate Due(x: Packet, log: seq<Event>)
  {
    forall i :: 0 <= i < |log| ==> Again(log[i], x.id, x.sendAt)
  }

  predicate AllDue(q: seq<Packet>, log: seq<Event>)
  {
    forall k :: 0 <= k < |q| ==> Due(q[k], log)
  }

  predicate KnownIds(log: seq<Event>, nextId: nat)
  {
    forall i :: 0 <= i < |log| && log[i].Sent? ==> log[i].packet.id < nextId
  }

  // Strictly later than the pause.
  predicate SpacedOut(log: seq<Event>)
  {
    forall i, j :: 0 <= i < j < |log| && log[i].Sent? && log[j].Sent? && log[i].packet.id == log[j].packet.id ==>
      GoesAgain(log[i].state) && log[j].at > log[i].at + Pause(log[i].state)
  }

  predicate Spaced(s: State)
  {
    AllDue(s.queue, s.log) && KnownIds(s.log, s.nextId) && SpacedOut(s.log)
  }

  // ---- The list ----

  // Every packet of a has the identity and the due time of one of b.
  ghost predicate Among(a: seq<Packet>, b: seq<Packet>)
  {
    forall i :: 0 <= i < |a| ==> exists j :: 0 <= j < |b| && a[i].id == b[j].id && a[i].sendAt == b[j].sendAt
  }

  lemma AmongDue(a: seq<Packet>, b: seq<Packet>, log: seq<Event>)
    requires Among(a, b) && AllDue(b, log)
    ensures AllDue(a, log)
  {
    forall k | 0 <= k < |a| ensures Due(a[k], log) {
      var j :| 0 <= j < |b| && a[k].id == b[j].id && a[k].sendAt == b[j].sendAt;
      assert Due(b[j], log);
    }
  }

  lemma SubsequenceAmong(a: seq<Packet>, b: seq<Packet>)
    requires Subsequence(a, b)
    ensures Among(a, b)
  {
    forall i | 0 <= i < |a|
      ensures exists j :: 0 <= j < |b| && a[i].id == b[j].id && a[i].sendAt == b[j].sendAt
    {
      SubsequenceMembers(a, b, i);
    }
  }

  lemma InsertDue(q: seq<Packet>, x: Packet, log: seq<Event>)
    requires AllDue(q, log) && Due(x, log)
    ensures AllDue(Insert(q, x), log)
  {
    var k := InsertPos(q, x.sendAt);
    var r := Insert(q, x);
    forall i | 0 <= i < |r| ensures Due(r[i], log) {
      assert r[i] == if i < k then q[i] else if i == k then x else q[i - 1];
    }
  }

  lemma FreshDue(x: Packet, log: seq<Event>, nextId: nat)
    requires KnownIds(log, nextId) && nextId <= x.id
    ensures Due(x, log)
  {
  }

  // ---- The log ----

  lemma QuietLog(s: State, e: Event)
    requires Spaced(s) && !e.Sent?
    ensures Spaced(s.(log := s.log + [e]))
  {
    var r := s.log + [e];
    forall k | 0 <= k < |s.queue| ensures Due(s.queue[k], r) {
      assert Due(s.queue[k], s.log);
    }
  }

  // A packet that was due and no longer listed goes out.
  lemma SentLog(s: State, x: Packet, e: Event)
    requires Spaced(s) && e.Sent? && e.packet == x && e.at == s.now && x.sendAt < s.now && x.id < s.nextId
    requires Due(x, s.log) && x.id !in IdSet(s.queue)
    ensures Spaced(s.(log := s.log + [e]))
  {
    var r := s.log + [e];
    forall k | 0 <= k < |s.queue| ensures Due(s.queue[k], r) {
      assert Due(s.queue[k], s.log) && s.queue[k].id in IdSet(s.queue);
    }
    forall i | 0 <= i < |s.log| && s.log[i].Sent? && s.log[i].packet.id == x.id
      ensures GoesAgain(s.log[i].state) && e.at > s.log[i].at + Pause(s.log[i].state)
    {
      assert Again(s.log[i], x.id, x.sendAt);
    }
  }

  // And is due again after its pause.
  lemma SentDue(log: seq<Event>, x: Packet, e: Event, after: nat)
    requires Due(x, log) && e.Sent? && e.packet == x && GoesAgain(e.state) && x.sendAt < e.at && after >= Pause(e.state)
    ensures Due(x.(sendAt := e.at + after), log + [e])
  {
    var y, r := x.(sendAt := e.at + after), log + [e];
    forall i | 0 <= i < |r| ensures Again(r[i], y.id, y.sendAt) {
      if i < |log| {
        assert Again(log[i], x.id, x.sendAt);
      }
    }
  }

  // ---- Steps ----

  lemma SpacedFrom(s: State, t: State)
    requires Spaced(s) && Among(t.queue, s.queue) && t.log == s.log && t.nextId >= s.nextId
    ensures Spaced(t)
  {
    AmongDue(t.queue, s.queue, s.log);
  }

  lemma SpacedNew(s: State, x: Packet, t: State)
    requires Spaced(s) && x.id == s.nextId && t.queue == Insert(s.queue, x)
    requires t.log == s.log && t.nextId == s.nextId + 1
    ensures Spaced(t)
  {
    FreshDue(x, s.log, s.nextId);
    InsertDue(s.queue, x, s.log);
  }

  lemma ClearedAmong(q: seq<Packet>, p: nat)
    ensures Among(ClearPcb(q, p), q)
  {
    ClearPcbSubsequence(q, p);
    SubsequenceAmong(ClearPcb(q, p), q);
  }

  lemma InitProbeSpaced(s: State, p: nat, list: seq<Service>, ip: bool, jitter: nat)
    requires Spaced(s) && p < |s.pcbs|
    ensures Spaced(InitProbe(s, p, list, ip, jitter))
  {
    var t := InitProbe(s, p, list, ip, jitter);
    var cleared := s.(queue := ClearPcb(s.queue, p));
    ClearedAmong(s.queue, p);
    SpacedFrom(s, cleared);
    if s.hostname {
      var x := ProbePacket(s, p, list, ip, jitter);
      var posted := t.(log := s.log);
      SpacedNew(cleared, x, posted);
      QuietLog(posted, Restarted(p));
    }
  }

  lemma {:induction false} RestartSpaced(s: State, k: nat, jitters: seq<nat>)
    requires Spaced(s) && k <= |s.pcbs| == |jitters|
    ensures Spaced(RestartFrom(s, k, jitters))
    decreases |s.pcbs| - k
  {
    if k < |s.pcbs| {
      if s.pcbs[k].ready {
        InitProbeSpaced(ClearOldProbe(s, k), k, s.services, true, jitters[k]);
        RestartSpaced(InitProbe(ClearOldProbe(s, k), k, s.services, true, jitters[k]), k + 1, jitters);
      } else {
        RestartSpaced(s, k + 1, jitters);
      }
    }
  }

  lemma AnnounceSpaced(s: State, p: nat, list: seq<Service>, ip: bool, jitter: nat)
    requires Spaced(s) && p < |s.pcbs|
    ensures Spaced(AnnouncePcb(s, p, list, ip, jitter))
  {
    var c := s.pcbs[p];
    var t := AnnouncePcb(s, p, list, ip, jitter);
    if !c.ready {
    } else if c.state.ProbingMacro() {
      InitProbeSpaced(s, p, list, ip, jitter);
    } else if c.state.AnnouncingMacro() {
      assert Among(t.queue, s.queue) by {
        assert forall i :: 0 <= i < |s.queue| ==>
          t.queue[i].id == s.queue[i].id && t.queue[i].sendAt == s.queue[i].sendAt;
      }
      SpacedFrom(s, t);
    } else if c.state.Running? && s.hostname {
      SpacedNew(s, Packet(s.nextId, p, s.now, false, false, list, if ip then Elsewhere else Absent), t);
    }
  }

  lemma TimerSpaced(s: State, receiveAt: Option<nat>)
    requires Spaced(s)
    ensures Spaced(RunTimer(s, receiveAt))
  {
    PassMarks(s, receiveAt);
    SpacedFrom(s, RunTimer(s, receiveAt));
  }

  // The list head, popped, as it is handled.
  lemma HandleSpaced(s: State, x: Packet)
    requires Spaced(s) && x.pcb < |s.pcbs| && !x.queued && x.sendAt < s.now && x.id < s.nextId
    requires Due(x, s.log) && x.id !in IdSet(s.queue)
    ensures Spaced(HandlePacket(s, x))
  {
    var state := s.pcbs[x.pcb].state;
    if !state.Off? {
      var e := Sent(x.pcb, state, x, s.now);
      var sent := AfterSending(s, x);
      SentLog(s, x, e);
      assert Spaced(sent);
      match state {
        case Probe1 | Probe2 => SpacedAgain(s, x, e, PROBE_INTERVAL);
        case Announce1 | Announce2 => SpacedAgain(s, x, e, ANNOUNCE_INTERVAL);
        case Probe3 =>
          var posted := FinishProbing(sent, x).(log := sent.log);
          SpacedNew(sent, AnnouncePacket(sent, x), posted);
          QuietLog(posted, Announced(x.pcb));
        case _ =>
      }
    }
  }

  lemma SpacedAgain(s: State, x: Packet, e: Event, delay: nat)
    requires x.pcb < |s.pcbs| && e == Sent(x.pcb, s.pcbs[x.pcb].state, x, s.now) && Spaced(AfterSending(s, x))
    requires Due(x, s.log) && GoesAgain(e.state) && x.sendAt < s.now && delay >= Pause(e.state)
    ensures Spaced(Resend(AfterSending(s, x), x, delay))
  {
    SentDue(s.log, x, e, delay);
    InsertDue(s.queue, x.(sendAt := s.now + delay), s.log + [e]);
  }

  lemma ExecuteSpaced(s: State)
    requires Spaced(s) && Sound(s) && Pipeline(s, false) && s.hand.Some?
    ensures Spaced(ExecuteHand(s))
  {
    if HeadMatches(s.queue, s.hand.value) {
      var x := s.queue[0];
      var popped := Popped(s);
      PopList(s.queue, s.now, s.nextId);
      assert Due(x, s.log);
      forall k | 0 <= k < |popped.queue| ensures Due(popped.queue[k], s.log) {
        assert popped.queue[k] == s.queue[k + 1];
      }
      assert Spaced(popped);
      HandleSpaced(popped, x.(queued := false));
    } else if s.hand.value.Tx? {
      QuietLog(s, Skipped(s.hand.value.id, s.hand.value.id in IdSet(s.queue)));
    }
  }

  lemma InterfaceStepSpaced(s: State, i: Input)
    requires Spaced(s) && Pipeline(s, false) && Enabled(s, i)
    requires i.Enable? || i.Disable? || i.MarkDup? || i.SetHostname? || i.RestartAll? || i.RemoveService?
    ensures Spaced(Next(s, i))
  {
    match i {
      case SetHostname(jitters) => RestartSpaced(s.(hostname := true, queue := []), 0, jitters);
      case RestartAll(jitters) => RestartSpaced(s.(queue := []), 0, jitters);
      case Enable(p, joined, jitter) =>
        InitProbeSpaced(s.(pcbs := s.pcbs[p := s.pcbs[p].(ready := true)]), p, s.services, true, jitter);
      case Disable(p) => ClearedAmong(s.queue, p); SpacedFrom(s, s.(queue := ClearPcb(s.queue, p)));
      case MarkDup(p) => ClearedAmong(s.queue, p); SpacedFrom(s, s.(queue := ClearPcb(s.queue, p)));
      case RemoveService(x) =>
        StripSubsequence(s.queue, s.pcbs, x);
        SubsequenceAmong(Strip(s.queue, s.pcbs, x).queue, s.queue);
        SpacedFrom(s, Next(s, i));
    }
  }

  lemma StepKeepsSpaced(s: State, i: Input)
    requires Spaced(s) && Sound(s) && Pipeline(s, false) && Enabled(s, i)
    ensures Spaced(Next(s, i))
  {
    match i {
      case Timer(receiveAt) => TimerSpaced(s, receiveAt);
      case Execute => ExecuteSpaced(s);
      case Probe(p, list, ip, clearOld, jitter) =>
        InitProbeSpaced(if clearOld then ClearOldProbe(s, p) else s, p, list, ip, jitter);
      case Announce(p, list, ip, jitter) => AnnounceSpaced(s, p, list, ip, jitter);
      case Answer(p, list, hosts, shareStep) =>
        SpacedNew(s, AnswerPacket(s, p, list, hosts, shareStep), Next(s, i));
      case Tick(_) | Receive | PostOther | Conflict(_) | AddService(_) =>
      case _ => InterfaceStepSpaced(s, i);
    }
  }

  lemma {:induction false} RunKeepsSpaced(s: State, inputs: seq<Input>)
    requires Spaced(s) && Sound(s) && Pipeline(s, false) && Run(s, inputs)
    ensures Spaced(After(s, inputs))
    decreases |inputs|
  {
    if inputs != [] {
      StepKeepsSpaced(s, inputs[0]);
      StepKeepsSound(s, inputs[0]);
      StepKeepsPipeline(s, inputs[0], false);
      RunKeepsSpaced(Next(s, inputs[0]), inputs[1..]);
    }
  }

  /** In every run from a fresh responder, whatever else it sends and however timer passes are
      disturbed: a packet goes out again only if it went out in one of the first two probing or
      announcing states, and then more than 250 ms later as a probe, and more than a second later
      as an announcement (section 8.3 of RFC 6762). */
  lemma SentAgainLater(s: State, inputs: seq<Input>)
    requires Initial(s) && Run(s, inputs)
    ensures var log := After(s, inputs).log;
      forall i, j :: 0 <= i < j < |log| && log[i].Sent? && log[j].Sent? && log[i].packet.id == log[j].packet.id ==>
        && (log[i].state.Probe1? || log[i].state.Probe2? || log[i].state.Announce1? || log[i].state.Announce2?)
        && log[j].at > log[i].at + if log[i].state.Probing() then 250 else 1000
  {
    InitialPipeline(s);
    RunKeepsSpaced(s, inputs);
  }
}
