/** What a timer pass disturbed by the service task's receive can do: a listed packet is skipped,
    and then nothing is ever sent again. */
module ResponderStuck {
  import opened MdnsTypes
  import opened TxQueue
  import opened Responder
  import opened ResponderEffects
  import opened ResponderPipeline
  import opened ResponderRuns

  /** The head of the list is marked, but no action to send it is pending any more. */
  predicate Stuck(s: State)
  {
    && s.queue != [] && s.queue[0].queued && s.queue[0].sendAt < s.now
    && s.queue[0].id !in TxIds(s.Pending()) && s.queue[0].id < s.nextId
    && s.queue[0].id !in IdSet(s.queue[1..])
  }

  lemma {:induction false} PushSendsOnlyListed(q: seq<Packet>, now: nat, fifo: seq<Action>, cap: nat,
      receiveAt: Option<nat>, id: nat)
    requires id !in IdSet(q) && id !in TxIds(fifo)
    ensures var r := Push(q, now, fifo, cap, receiveAt);
      id !in TxIds(r.fifo) && id !in TxIds(Taken(r))
    decreases |q|, receiveAt == Some(0)
  {
    if q == [] || q[0].sendAt >= now {
    } else if receiveAt == Some(0) {
      if fifo == [] {
        PushSendsOnlyListed(q, now, fifo, cap, None, id);
      } else {
        PushSendsOnlyListed(q, now, fifo[1..], cap, None, id);
      }
    } else {
      IdSetOfTail(q);
      assert q[0].id in IdSet(q);
      TxIdsConcat(fifo, [Tx(q[0].id)]);
      PushSendsOnlyListed(q[1..], now, if |fifo| < cap then fifo + [Tx(q[0].id)] else fifo, cap,
        if receiveAt.Some? then Some(receiveAt.value - 1) else None, id);
    }
  }

  lemma StuckPass(s: State, receiveAt: Option<nat>)
    requires Stuck(s) && (receiveAt.Some? ==> s.hand.None?)
    ensures Stuck(RunTimer(s, receiveAt))
  {
    var q := s.queue;
    var n := QueuedLen(q);
    var r := Push(q[n..], s.now, s.fifo, s.cap, receiveAt);
    var t := RunTimer(s, receiveAt);
    var id := q[0].id;
    assert forall i :: 0 <= i < |q[n..]| ==> q[n..][i] == q[1..][n - 1 + i];
    assert id !in IdSet(q[n..]);
    StuckPending(s, id);
    PushSendsOnlyListed(q[n..], s.now, s.fifo, s.cap, receiveAt, id);
    PassMarks(s, receiveAt);
    assert SameButMarks(t.queue[1..], q[1..]);
    MarksKeepOrder(t.queue[1..], q[1..]);
    assert t.queue[0] == q[0];
    StuckPending(t, id);
  }

  lemma StuckPending(s: State, id: nat)
    ensures id in TxIds(s.Pending()) <==> (s.hand.Some? && id in TxIds([s.hand.value])) || id in TxIds(s.fifo)
  {
    if s.hand.Some? {
      TxIdsConcat([s.hand.value], s.fifo);
    } else {
      assert s.Pending() == s.fifo;
    }
  }

  lemma StuckAnswer(s: State, x: Packet)
    requires Stuck(s) && x.pcb < |s.pcbs| && x.id == s.nextId && x.sendAt >= s.now
    ensures Stuck(WithPacket(s, x, s.pcbs[x.pcb]))
  {
    var k := InsertAt(s.queue, x);
    assert k > 0;
    var t := WithPacket(s, x, s.pcbs[x.pcb]);
    assert t.queue[1..] == s.queue[1..k] + [x] + s.queue[k..];
    forall i | 0 <= i < |t.queue[1..]| ensures t.queue[1..][i].id != s.queue[0].id {
      assert i == k - 1 || t.queue[1..][i] == s.queue[1..][if i < k - 1 then i else i - 1];
    }
    assert t.Pending() == s.Pending();
  }

  // Nothing was sent between two moments of the log.
  predicate NothingSent(before: seq<Event>, after: seq<Event>)
  {
    before <= after && forall k :: |before| <= k < |after| ==> !after[k].Sent?
  }

  lemma NothingSentTwice(a: seq<Event>, b: seq<Event>, c: seq<Event>)
    requires NothingSent(a, b) && NothingSent(b, c)
    ensures NothingSent(a, c)
  {
    forall k | |a| <= k < |c| ensures !c[k].Sent? {
      assert k < |b| ==> c[k] == b[k];
    }
  }

  // What the two tasks, new answers and actions posted by others can do.
  predicate Ordinary(i: Input) { i.Internal() || i.Answer? || i.PostOther? }

  lemma StuckStays(s: State, i: Input)
    requires Stuck(s) && Enabled(s, i) && Ordinary(i)
    ensures Stuck(Next(s, i))
  {
    var t := Next(s, i);
    StuckPending(s, s.queue[0].id);
    StuckPending(t, s.queue[0].id);
    match i {
      case Timer(receiveAt) => StuckPass(s, receiveAt);
      case Answer(p, list, hosts, shareStep) => StuckAnswer(s, AnswerPacket(s, p, list, hosts, shareStep));
      case PostOther => TxIdsConcat(s.fifo, [OtherAction]);
      case Receive =>
        TxIdsConcat([s.fifo[0]], s.fifo[1..]);
        assert [s.fifo[0]] + s.fifo[1..] == s.fifo;
      case _ =>
    }
  }

  lemma StuckSendsNothing(s: State, i: Input)
    requires Stuck(s) && Enabled(s, i) && Ordinary(i)
    ensures Next(s, i).pcbs == s.pcbs && NothingSent(s.log, Next(s, i).log)
  {
    StuckPending(s, s.queue[0].id);
    if i.Answer? {
      assert s.pcbs[i.pcb := s.pcbs[i.pcb]] == s.pcbs;
    }
  }

  /** Once stuck, neither the two tasks nor new answers ever get another packet out, and no
      interface ever advances, over whole runs. */
  lemma {:induction false} StuckForever(s: State, inputs: seq<Input>)
    requires Stuck(s) && Run(s, inputs) && AllOrdinary(inputs)
    ensures var t := After(s, inputs);
      Stuck(t) && t.pcbs == s.pcbs && NothingSent(s.log, t.log)
    decreases |inputs|
  {
    if inputs != [] {
      var next := Next(s, inputs[0]);
      StuckStays(s, inputs[0]);
      StuckSendsNothing(s, inputs[0]);
      StuckForever(next, inputs[1..]);
      NothingSentTwice(s.log, next.log, After(s, inputs).log);
    }
  }

  predicate AllOrdinary(inputs: seq<Input>)
  {
    forall k :: 0 <= k < |inputs| ==> Ordinary(inputs[k])
  }

  // However the responder goes on, nothing more is sent and no interface advances.
  ghost predicate NeverMoves(s: State)
  {
    forall more: seq<Input> :: Run(s, more) && AllOrdinary(more) ==>
      After(s, more).pcbs == s.pcbs && NothingSent(s.log, After(s, more).log)
  }

  lemma StuckNeverMoves(s: State)
    requires Stuck(s)
    ensures NeverMoves(s)
  {
    forall more: seq<Input> | Run(s, more) && AllOrdinary(more)
      ensures After(s, more).pcbs == s.pcbs && NothingSent(s.log, After(s, more).log)
    {
      StuckForever(s, more);
    }
  }

  function Others(k: nat): seq<Action>
  {
    if k == 0 then [] else [OtherAction] + Others(k - 1)
  }

  lemma {:induction false} OthersLast(k: nat)
    ensures [OtherAction] + Others(k) == Others(k) + [OtherAction] && |Others(k)| == k
  {
    if k > 0 {
      OthersLast(k - 1);
    }
  }

  // Other actions fill the FIFO.
  lemma {:induction false} FillFifo(s: State, n: nat, k: nat, inputs: seq<Input>, t: State) returns (all: seq<Input>)
    requires WellFormed(s) && s.fifo == Others(n) && n + k <= s.cap
    requires Reaches(s.(fifo := Others(n + k)), inputs, t)
    ensures Reaches(s, all, t)
    decreases k
  {
    OthersLast(n);
    if k == 0 {
      all := inputs;
    } else {
      var next := Next(s, PostOther);
      assert next == s.(fifo := Others(n + 1));
      all := FillFifo(next, n + 1, k - 1, inputs, t);
      ReachesCons(s, PostOther, all, t);
      all := [PostOther] + all;
    }
  }

  // The service task works through the other actions down to a last one.
  lemma {:induction false} DrainFifo(s: State, k: nat, last: Action, inputs: seq<Input>, t: State)
    returns (all: seq<Input>)
    requires WellFormed(s) && s.hand == Some(OtherAction) && s.fifo == Others(k) + [last]
    requires Reaches(s.(hand := Some(last), fifo := []), inputs, t)
    ensures Reaches(s, all, t)
    decreases k
  {
    var done := Next(s, Execute);
    assert done == s.(hand := None);
    var next := Next(done, Receive);
    if k == 0 {
      assert Others(0) + [last] == [last];
      assert next == s.(hand := Some(last), fifo := []);
      all := inputs;
    } else {
      assert (Others(k) + [last])[1..] == Others(k - 1) + [last];
      assert next == s.(fifo := Others(k - 1) + [last]);
      all := DrainFifo(next, k - 1, last, inputs, t);
    }
    ReachesCons(done, Receive, all, t);
    ReachesCons(s, Execute, [Receive] + all, t);
    all := [Execute] + ([Receive] + all);
  }

  function ProbeOn(p: nat): Packet { Packet(p, p, 120, false, true, [], Elsewhere) }

  const PROBING := Pcb(Probe1, true, [], true, true, 0)

  // Two interfaces probing, both probes due.
  function TwoProbesDue(cap: nat): State
  {
    State(200, [ProbeOn(0), ProbeOn(1)], [], None, cap, [PROBING, PROBING], [], true, 2, [Restarted(0), Restarted(1)])
  }

  function FreshResponder(cap: nat): State
  {
    var down := Pcb(Off, false, [], false, false, 0);
    State(0, [], [], None, cap, [down, down], [], false, 0, [])
  }

  // Coming up with a host name set and no services, an interface probes for its addresses.
  lemma ComesUp(s: State, p: nat)
    requires p < |s.pcbs| && s.pcbs[p] == Pcb(Off, false, [], false, false, 0) && WellFormed(s)
    requires s.hostname && s.services == [] && s.now == 0 && s.nextId == p
    requires forall i :: 0 <= i < |s.queue| ==> s.queue[i].pcb != p && s.queue[i].sendAt == 120
    ensures var e := Enable(p, true, 0);
      Enabled(s, e) && Next(s, e) == s.(queue := s.queue + [ProbeOn(p)], pcbs := s.pcbs[p := PROBING], nextId := p + 1,
                                        log := s.log + [Restarted(p)])
  {
    ClearNothing(s.queue, p);
    var k := InsertAt(s.queue, ProbeOn(p));
    InsertPlace(s.queue, 120);
    assert k == |s.queue|;
    assert s.queue[..k] + [ProbeOn(p)] + s.queue[k..] == s.queue + [ProbeOn(p)];
    var up := s.(pcbs := s.pcbs[p := s.pcbs[p].(ready := true)]);
    assert ProbePacket(up, p, [], true, 0) == ProbeOn(p);
    assert up.pcbs[p := PROBING] == s.pcbs[p := PROBING];
  }

  lemma {:induction false} ClearNothing(q: seq<Packet>, p: nat)
    requires forall i :: 0 <= i < |q| ==> q[i].pcb != p
    ensures ClearPcb(q, p) == q
  {
    if q != [] {
      ClearNothing(q[1..], p);
    }
  }

  lemma {:induction false} NoneRestarts(s: State, k: nat, jitters: seq<nat>)
    requires k <= |s.pcbs| == |jitters| && forall p :: k <= p < |s.pcbs| ==> !s.pcbs[p].ready
    ensures RestartFrom(s, k, jitters) == s
    decreases |s.pcbs| - k
  {
    if k < |s.pcbs| {
      NoneRestarts(s, k + 1, jitters);
    }
  }

  function OneUp(cap: nat): State
  {
    FreshResponder(cap).(hostname := true, queue := [ProbeOn(0)], pcbs := [PROBING, FreshResponder(cap).pcbs[1]],
                         nextId := 1, log := [Restarted(0)])
  }

  // With a host name set, one interface comes up, and then the other.
  lemma ReachOneUp(cap: nat, inputs: seq<Input>, t: State) returns (all: seq<Input>)
    requires Reaches(OneUp(cap), inputs, t)
    ensures Reaches(FreshResponder(cap), all, t)
  {
    var named := FreshResponder(cap).(hostname := true);
    ComesUp(named, 0);
    assert [] + [ProbeOn(0)] == [ProbeOn(0)] && [] + [Restarted(0)] == [Restarted(0)];
    assert Next(named, Enable(0, true, 0)) == OneUp(cap);
    ReachesCons(named, Enable(0, true, 0), inputs, t);
    all := NameFirst(cap, [Enable(0, true, 0)] + inputs, t);
  }

  lemma SecondUp(cap: nat)
    ensures var e := Enable(1, true, 0);
      Enabled(OneUp(cap), e) && Next(OneUp(cap), e) == BothUp(cap)
  {
    ComesUp(OneUp(cap), 1);
  }

  lemma ReachBothUp(cap: nat, inputs: seq<Input>, t: State) returns (all: seq<Input>)
    requires Reaches(BothUp(cap), inputs, t)
    ensures Reaches(FreshResponder(cap), all, t)
  {
    SecondUp(cap);
    ReachesCons(OneUp(cap), Enable(1, true, 0), inputs, t);
    all := ReachOneUp(cap, [Enable(1, true, 0)] + inputs, t);
  }

  lemma NameFirst(cap: nat, inputs: seq<Input>, t: State) returns (all: seq<Input>)
    requires Reaches(FreshResponder(cap).(hostname := true), inputs, t)
    ensures Reaches(FreshResponder(cap), all, t)
  {
    var s := FreshResponder(cap);
    var name := SetHostname([0, 0]);
    NoneRestarts(s.(hostname := true, queue := []), 0, [0, 0]);
    assert Next(s, name) == s.(hostname := true);
    ReachesCons(s, name, inputs, t);
    all := [name] + inputs;
  }

  function BothUp(cap: nat): State { TwoProbesDue(cap).(now := 0) }

  lemma ReachTwoProbes(cap: nat, inputs: seq<Input>, t: State) returns (all: seq<Input>)
    requires Reaches(TwoProbesDue(cap), inputs, t)
    ensures Reaches(FreshResponder(cap), all, t)
  {
    assert Next(BothUp(cap), Tick(200)) == TwoProbesDue(cap);
    ReachesCons(BothUp(cap), Tick(200), inputs, t);
    all := ReachBothUp(cap, [Tick(200)] + inputs, t);
  }

  // The receive falls between the first, failed attempt and the second, successful one.
  lemma DisturbedPass(cap: nat)
    requires cap > 0
    ensures var s := TwoProbesDue(cap).(fifo := Others(cap));
            var x := s.queue[0];
            var y := s.queue[1];
      RunTimer(s, Some(1)) == s.(queue := [x, y.(queued := true)], hand := Some(OtherAction),
        fifo := Others(cap - 1) + [Tx(1)])
  {
    var s := TwoProbesDue(cap).(fifo := Others(cap));
    var q := s.queue;
    OthersLast(cap);
    OthersLast(cap - 1);
    assert q[0..] == q && q[..0] == [] && q[1..] == [q[1]] && q[1..][1..] == [];
    assert Others(cap)[1..] == Others(cap - 1);
    var y := q[1];
    assert Push([], s.now, Others(cap - 1) + [Tx(1)], cap, None) == PassResult([], Others(cap - 1) + [Tx(1)], None);
    assert Push([y], s.now, Others(cap - 1), cap, None).queue == [y.(queued := true)];
    assert Push([y], s.now, Others(cap), cap, Some(0))
        == PassResult([y.(queued := true)], Others(cap - 1) + [Tx(1)], Some(OtherAction));
  }

  // The marked second packet is popped, found not to be the head, and left without an action.
  lemma SkippedThenStuck(s: State) returns (inputs: seq<Input>, t: State)
    requires WellFormed(s) && |s.pcbs| == 2 && s.pcbs[0].ready && s.now == 200 && s.nextId == 2
    requires s.hand == Some(Tx(1)) && s.fifo == []
    requires s.queue == [ProbeOn(0), ProbeOn(1).(queued := true)]
    ensures Reaches(s, inputs, t)
    ensures Stuck(t) && t.log == s.log + [Skipped(1, true)] && t.queue[0].pcb == 1 && |t.pcbs| == 2
      && t.pcbs[1] == s.pcbs[1]
  {
    var q := s.queue;
    assert q[1].id in IdSet(q);
    var skipped := Next(s, Execute);
    assert skipped == s.(hand := None, log := s.log + [Skipped(1, true)]);
    t := Next(skipped, Disable(0));
    assert q[1..] == [q[1]] && q[1..][1..] == [];
    assert ClearPcb([q[1]], 0) == [q[1]];
    assert t.queue == [q[1]];
    assert t.Pending() == [];
    assert Reaches(t, [], t);
    ReachesCons(skipped, Disable(0), [], t);
    ReachesCons(s, Execute, [Disable(0)] + [], t);
    inputs := [Execute] + ([Disable(0)] + []);
  }

  /** A receive at the wrong moment of a timer pass leads, from a fresh responder with two
      interfaces and whatever FIFO capacity, to a listed probe being skipped, and then to a list
      from which nothing more is sent in any continuation by the two tasks, new answers and
      actions of others, while its interface still waits in its first probing state. */
  lemma DisturbedPassSticks(cap: nat) returns (inputs: seq<Input>, t: State)
    requires cap > 0
    ensures Initial(FreshResponder(cap)) && Reaches(FreshResponder(cap), inputs, t)
    ensures Stuck(t) && t.log == [Restarted(0), Restarted(1), Skipped(1, true)]
    ensures t.queue[0].pcb == 1 && |t.pcbs| == 2 && t.pcbs[1].state.Probe1?
    ensures NeverMoves(t)
  {
    inputs, t := DisturbedPassReaches(cap);
    StuckNeverMoves(t);
  }

  lemma DisturbedPassReaches(cap: nat) returns (inputs: seq<Input>, t: State)
    requires cap > 0
    ensures Reaches(FreshResponder(cap), inputs, t)
    ensures Stuck(t) && t.log == [Restarted(0), Restarted(1), Skipped(1, true)]
    ensures t.queue[0].pcb == 1 && |t.pcbs| == 2 && t.pcbs[1].state.Probe1?
  {
    var full := TwoProbesDue(cap).(fifo := Others(cap));
    OthersLast(cap);
    DisturbedPass(cap);
    var passed := Next(full, Timer(Some(1)));
    inputs, t := PassedThenStuck(passed, cap);
    ReachesCons(full, Timer(Some(1)), inputs, t);
    inputs := FillThenReach(cap, [Timer(Some(1))] + inputs, t);
  }

  lemma PassedThenStuck(s: State, cap: nat) returns (inputs: seq<Input>, t: State)
    requires cap > 0 && WellFormed(s) && |s.pcbs| == 2 && s.pcbs[0].ready && s.now == 200 && s.nextId == 2
    requires s.hand == Some(OtherAction) && s.fifo == Others(cap - 1) + [Tx(1)]
    requires s.queue == [ProbeOn(0), ProbeOn(1).(queued := true)]
    ensures Reaches(s, inputs, t)
    ensures Stuck(t) && t.log == s.log + [Skipped(1, true)] && t.queue[0].pcb == 1 && |t.pcbs| == 2
      && t.pcbs[1] == s.pcbs[1]
  {
    inputs, t := SkippedThenStuck(s.(hand := Some(Tx(1)), fifo := []));
    inputs := DrainFifo(s, cap - 1, Tx(1), inputs, t);
  }

  lemma FillThenReach(cap: nat, inputs: seq<Input>, t: State) returns (all: seq<Input>)
    requires Reaches(TwoProbesDue(cap).(fifo := Others(cap)), inputs, t)
    ensures Reaches(FreshResponder(cap), all, t)
  {
    assert Others(0) == [];
    all := FillFifo(TwoProbesDue(cap), 0, cap, inputs, t);
    all := ReachTwoProbes(cap, all, t);
  }
}
