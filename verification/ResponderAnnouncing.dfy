/** From probing to rest, with nothing new arriving: an interface sends three probes and three
    announcements with the same records, at least the prescribed intervals apart. */
module ResponderAnnouncing {
  import opened MdnsTypes
  import opened TxQueue
  import opened Responder
  import opened ResponderEffects
  import opened ResponderPipeline
  import opened ResponderPacing
  import opened ResponderInterfaces
  import opened ResponderRuns
  import opened ResponderProgress
  import opened ResponderContents

  // The k-th packet after probing began: the first three are probes, the others have the same
  // services and the host's records in their answers.
  predicate SameRecords(y: Packet, first: Packet, k: nat)
  {
    && y.services == first.services && (y.probe <==> k < 3)
    && (if k < 3 then y.hosts == first.hosts else y.hosts.InAnswers? <==> !first.Empty())
  }

  // Milliseconds to let pass between the k-th packet and the next.
  function Interval(k: nat): nat
  {
    if k < 3 then 250 else 1000
  }

  predicate SentAs(t: seq<Event>, first: Packet)
  {
    && (forall k :: 0 <= k < |t| ==>
          t[k].Sent? && t[k].state.Rank() == Probe1.Rank() + k && SameRecords(t[k].packet, first, k))
    && (forall k :: 1 <= k < |t| ==> t[k].at > t[k - 1].at + Interval(k - 1))
  }

  // What is listed is the next packet, due no sooner than its interval after the one before.
  predicate NextIs(of: seq<Packet>, t: seq<Event>, first: Packet)
  {
    |of| == 1 && SameRecords(of[0], first, |t|)
    && (t != [] ==> t[|t| - 1].Sent? && of[0].sendAt >= t[|t| - 1].at + Interval(|t| - 1))
  }

  // The interface has sent the packets of its trail and has the next listed, if any is to follow.
  predicate UnderWay(s: State, p: nat, first: Packet)
  {
    && p < |s.pcbs|
    && var t := Trail(s.log, p);
       var of := Of(s.queue, p);
       && Phase(s, p, |t|) && SentAs(t, first) && (|t| < 6 ==> NextIs(of, t, first))
  }

  // What does not send one of its packets leaves an interface alone.
  lemma InternalUntouched(s: State, i: Input, p: nat)
    requires Enabled(s, i) && i.Internal() && p < |s.pcbs| && !(Sends(s, i) && s.queue[0].pcb == p)
    ensures |Next(s, i).pcbs| == |s.pcbs| && Untouched(s, Next(s, i), p)
  {
    if Sends(s, i) {
      HeadAboutToHandle(s);
      HandleOthers(Popped(s), s.queue[0].(queued := false), p);
      PopOf(s.queue, p);
    } else if i.Timer? {
      PassUntouched(s, i.receiveAt, p);
    } else if i.Execute? && s.hand.value.Tx? {
      TrailStep(s.log, Next(s, i).log[|s.log|], p);
    }
  }

  lemma SendsTrail(s: State, x: Packet)
    requires AboutToHandle(s, x) && !s.pcbs[x.pcb].state.Off?
    ensures Trail(HandlePacket(Popped(s), x).log, x.pcb)
         == Trail(s.log, x.pcb) + [Sent(x.pcb, s.pcbs[x.pcb].state, x, s.now)]
  {
    HandledTrail(Popped(s), x, x.pcb);
    SentTrail(Popped(s), x, x.pcb);
  }

  // The packet in place of the one sent.
  lemma SendsNext(s: State, x: Packet, first: Packet)
    requires AboutToHandle(s, x) && UnderWay(s, x.pcb, first)
    ensures var t := HandlePacket(Popped(s), x);
            var n := |Trail(s.log, x.pcb)|;
      && n < 6 && x == Of(s.queue, x.pcb)[0]
      && (n < 5 ==>
            && |Of(t.queue, x.pcb)| == 1 && SameRecords(Of(t.queue, x.pcb)[0], first, n + 1)
            && Of(t.queue, x.pcb)[0].sendAt >= s.now + Interval(n))
  {
    PopOf(s.queue, x.pcb);
    var state := s.pcbs[x.pcb].state;
    if state.Probe1? || state.Probe2? {
      HandleProbe12(s, x);
    } else if state.Probe3? {
      Probe3Handled(s, x);
    } else if state.Announce1? || state.Announce2? {
      ResendOf(AfterSending(Popped(s), x), x, ANNOUNCE_INTERVAL, x.pcb);
    }
  }

  lemma SentAsMore(t: seq<Event>, e: Event, first: Packet, of: seq<Packet>)
    requires SentAs(t, first) && |t| < 6 && NextIs(of, t, first)
    requires e.Sent? && e.state.Rank() == Probe1.Rank() + |t| && e.packet == of[0] && e.at > of[0].sendAt
    ensures SentAs(t + [e], first)
  {
    var r := t + [e];
    assert forall k :: 0 <= k < |t| ==> r[k] == t[k];
  }

  lemma SendsUnderWay(s: State, x: Packet, first: Packet)
    requires AboutToHandle(s, x) && UnderWay(s, x.pcb, first) && x.sendAt < s.now
    ensures UnderWay(HandlePacket(Popped(s), x), x.pcb, first)
  {
    var p := x.pcb;
    var t := Trail(s.log, p);
    SendsNext(s, x, first);
    HandleCounts(s, x);
    SendsTrail(s, x);
    var e := Sent(p, s.pcbs[p].state, x, s.now);
    SentAsMore(t, e, first, Of(s.queue, p));
    SendsOnePhase(s, HandlePacket(Popped(s), x), p, |t|);
    assert (t + [e])[|t|] == e;
  }

  lemma StepUnderWay(s: State, i: Input, p: nat, first: Packet)
    requires Enabled(s, i) && i.Internal() && Sound(s) && UnderWay(s, p, first)
    ensures UnderWay(Next(s, i), p, first)
  {
    if Sends(s, i) && s.queue[0].pcb == p {
      HeadAboutToHandle(s);
      SendsUnderWay(s, s.queue[0].(queued := false), first);
    } else {
      InternalUntouched(s, i, p);
    }
  }

  lemma {:induction false} RunUnderWay(s: State, inputs: seq<Input>, p: nat, first: Packet)
    requires Run(s, inputs) && AllInternal(inputs) && Sound(s) && UnderWay(s, p, first)
    ensures UnderWay(After(s, inputs), p, first) && Sound(After(s, inputs))
    decreases |inputs|
  {
    if inputs != [] {
      StepUnderWay(s, inputs[0], p, first);
      StepKeepsSound(s, inputs[0]);
      RunUnderWay(Next(s, inputs[0]), inputs[1..], p, first);
    }
  }

  // Wherever an interface that is up begins to probe, in whatever run.
  lemma ProbeUnderWay(s: State, inputs: seq<Input>, p: nat)
    requires Initial(s) && Run(s, inputs) && p < |After(s, inputs).pcbs|
    requires After(s, inputs).pcbs[p].ready && After(s, inputs).pcbs[p].state.Probe1?
    ensures var u := After(s, inputs);
      && Sound(u) && |Of(u.queue, p)| == 1 && Trail(u.log, p) == []
      && Of(u.queue, p)[0].services == u.pcbs[p].probeServices && UnderWay(u, p, Of(u.queue, p)[0])
  {
    ProbeMatchesRecord(s, inputs, p);
    InitialPaced(s);
    InitialPipeline(s);
    RunKeepsPaced(s, inputs);
    RunKeepsPipeline(s, inputs, false);
    assert PacedAt(After(s, inputs), p);
  }

  // The packets of a probing sequence: at most six, with the given services, the first three of
  // them probes, and no sooner one after the other than they may be.
  predicate ThreeAndThree(t: seq<Event>, services: seq<Service>)
  {
    && |t| <= 6
    && (forall k :: 0 <= k < |t| ==>
          t[k].Sent? && t[k].packet.services == services && (t[k].packet.probe <==> k < 3))
    && (forall k :: 1 <= k < |t| ==> t[k].at > t[k - 1].at + if k <= 3 then 250 else 1000)
  }

  lemma SentIsThreeAndThree(t: seq<Event>, first: Packet)
    requires |t| <= 6 && SentAs(t, first)
    ensures ThreeAndThree(t, first.services)
  {
    forall k | 0 <= k < |t| ensures t[k].Sent? && t[k].packet.services == first.services
      && (t[k].packet.probe <==> k < 3) {
      assert SameRecords(t[k].packet, first, k);
    }
  }

  /** After any run, from where an interface that is up begins to probe, and with nothing new
      arriving: the packets it sends are three probes for the services on record, each more than
      250 ms after the one before, and, more than another 250 ms later, up to three announcements
      with exactly the same services, more than a second apart. */
  lemma AnnouncesWhatItProbed(s: State, inputs: seq<Input>, p: nat, more: seq<Input>)
    requires Initial(s) && Run(s, inputs) && p < |After(s, inputs).pcbs|
    requires After(s, inputs).pcbs[p].ready && After(s, inputs).pcbs[p].state.Probe1?
    requires Run(After(s, inputs), more) && AllInternal(more)
    ensures var u := After(s, inputs);
      ThreeAndThree(Trail(After(u, more).log, p), u.pcbs[p].probeServices)
  {
    var u := After(s, inputs);
    ProbeUnderWay(s, inputs, p);
    var first := Of(u.queue, p)[0];
    RunUnderWay(u, more, p, first);
    SentIsThreeAndThree(Trail(After(u, more).log, p), first);
  }

  lemma {:induction false} RoundsUnderWay(s: State, rounds: seq<seq<Input>>, p: nat, first: Packet)
    requires Rounds(s, rounds) && Sound(s) && UnderWay(s, p, first)
    ensures UnderWay(AfterRounds(s, rounds), p, first)
    decreases |rounds|
  {
    if rounds != [] {
      RunUnderWay(s, rounds[0], p, first);
      RoundsUnderWay(After(s, rounds[0]), rounds[1..], p, first);
    }
  }

  /** And with passes safe and enough rounds it does send all six, and is then at rest. */
  lemma EverythingIsAnnounced(s: State, inputs: seq<Input>, p: nat, rounds: seq<seq<Input>>)
    requires Initial(s) && Run(s, inputs) && SafeRun(s, inputs) && p < |After(s, inputs).pcbs|
    requires After(s, inputs).pcbs[p].ready && After(s, inputs).pcbs[p].state.Probe1?
    requires Rounds(After(s, inputs), rounds) && |rounds| >= Total(After(s, inputs))
    ensures var u := After(s, inputs);
            var v := AfterRounds(u, rounds);
            var t := Trail(v.log, p);
      p < |v.pcbs| && v.pcbs[p].state.Running? && |t| == 6 && ThreeAndThree(t, u.pcbs[p].probeServices)
  {
    var u := After(s, inputs);
    ProbeUnderWay(s, inputs, p);
    var first := Of(u.queue, p)[0];
    RoundsUnderWay(u, rounds, p, first);
    FairRunDrains(s, inputs, rounds);
    assert Of(AfterRounds(u, rounds).queue, p) == [];
    SentIsThreeAndThree(Trail(AfterRounds(u, rounds).log, p), first);
  }

  lemma {:induction false} RunLast(s: State, inputs: seq<Input>, i: Input)
    requires Run(s, inputs) && Enabled(After(s, inputs), i)
    ensures Run(s, inputs + [i]) && After(s, inputs + [i]) == Next(After(s, inputs), i)
    ensures SafeRun(s, inputs) && !i.Timer? ==> SafeRun(s, inputs + [i])
    decreases |inputs|
  {
    var all := inputs + [i];
    if inputs == [] {
      assert all[1..] == [];
    } else {
      RunLast(Next(s, inputs[0]), inputs[1..], i);
      assert all[1..] == inputs[1..] + [i];
    }
  }

  /** From end to end: an interface comes up, or is enabled again, with a host name. Whatever has
      happened before, and if nothing new arrives, enough rounds send three probes and then three
      announcements there, and every registered service is in each of them. */
  lemma EnabledIsAnnounced(s: State, inputs: seq<Input>, p: nat, joined: bool, jitter: nat, rounds: seq<seq<Input>>)
    requires Initial(s) && Run(s, inputs) && SafeRun(s, inputs)
    requires var u := After(s, inputs);
             var i := Enable(p, joined, jitter);
      && Enabled(u, i) && u.hostname && (joined || u.pcbs[p].ready)
      && Rounds(Next(u, i), rounds) && |rounds| >= Total(Next(u, i))
    ensures var u := After(s, inputs);
            var t := Trail(AfterRounds(Next(u, Enable(p, joined, jitter)), rounds).log, p);
      && |t| == 6
      && forall k :: 0 <= k < 6 ==>
           t[k].Sent? && (t[k].packet.probe <==> k < 3) && AllIn(u.services, t[k].packet.services)
  {
    var i := Enable(p, joined, jitter);
    RunLast(s, inputs, i);
    EnabledAsksForAll(s, inputs, p, joined, jitter);
    EverythingIsAnnounced(s, inputs + [i], p, rounds);
  }
}
