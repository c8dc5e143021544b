/** The transmit pipeline: list, action FIFO and the order of what is sent, through every step. */
module ResponderPipeline {
  import opened MdnsTypes
  import opened TxQueue
  import opened Sequences
  import opened Responder
  import opened ResponderEffects

  // ---- In every run ----

  // Packets belong to existing interfaces, and marked ones are due.
  predicate SoundList(q: seq<Packet>, n: nat, now: nat)
  {
    forall i :: 0 <= i < |q| ==> q[i].pcb < n && (q[i].queued ==> q[i].sendAt < now)
  }

  predicate Sound(s: State)
  {
    SoundList(s.queue, |s.pcbs|, s.now)
  }

  lemma SoundInsert(q: seq<Packet>, n: nat, now: nat, x: Packet)
    requires SoundList(q, n, now) && x.pcb < n && !x.queued
    ensures SoundList(Insert(q, x), n, now)
  {
    var k := InsertAt(q, x);
    forall i | 0 <= i < |Insert(q, x)|
      ensures Insert(q, x)[i].pcb < n && (Insert(q, x)[i].queued ==> Insert(q, x)[i].sendAt < now)
    {
      assert i == k || Insert(q, x)[i] == q[if i < k then i else i - 1];
    }
  }

  lemma SoundClear(q: seq<Packet>, n: nat, now: nat, p: nat)
    requires SoundList(q, n, now)
    ensures SoundList(ClearPcb(q, p), n, now)
  {
    ClearPcbDropsExactly(q, p);
    forall i | 0 <= i < |ClearPcb(q, p)|
      ensures ClearPcb(q, p)[i].pcb < n && (ClearPcb(q, p)[i].queued ==> ClearPcb(q, p)[i].sendAt < now)
    {
      assert ClearPcb(q, p)[i] in ClearPcb(q, p);
    }
  }

  lemma {:induction false} SoundStrip(q: seq<Packet>, pcbs: seq<Pcb>, service: Service, now: nat)
    requires SoundList(q, |pcbs|, now)
    ensures SoundList(Strip(q, pcbs, service).queue, |pcbs|, now)
  {
    if q != [] {
      SoundStrip(q[1..], pcbs[q[0].pcb := StripPcb(pcbs[q[0].pcb], q[0], service)], service, now);
    }
  }

  // A pass marks only packets that are due, wherever marked packets may stand.
  lemma {:induction false} SoundPush(q: seq<Packet>, n: nat, now: nat, fifo: seq<Action>, cap: nat,
      receiveAt: Option<nat>)
    requires SoundList(q, n, now)
    ensures SoundList(Push(q, now, fifo, cap, receiveAt).queue, n, now)
    decreases |q|, receiveAt == Some(0)
  {
    if q == [] || q[0].sendAt >= now {
    } else if receiveAt == Some(0) {
      SoundPush(q, n, now, if fifo == [] then fifo else fifo[1..], cap, None);
    } else {
      SoundPush(q[1..], n, now, if |fifo| < cap then fifo + [Tx(q[0].id)] else fifo, cap,
        if receiveAt.Some? then Some(receiveAt.value - 1) else None);
    }
  }

  lemma SoundPass(s: State, receiveAt: Option<nat>)
    requires Sound(s)
    ensures Sound(RunTimer(s, receiveAt))
  {
    var n := QueuedLen(s.queue);
    SoundPush(s.queue[n..], |s.pcbs|, s.now, s.fifo, s.cap, receiveAt);
  }

  lemma SoundInitProbe(s: State, p: nat, list: seq<Service>, ip: bool, jitter: nat)
    requires Sound(s) && p < |s.pcbs|
    ensures Sound(InitProbe(s, p, list, ip, jitter)) && |InitProbe(s, p, list, ip, jitter).pcbs| == |s.pcbs|
  {
    SoundClear(s.queue, |s.pcbs|, s.now, p);
    if s.hostname {
      SoundInsert(ClearPcb(s.queue, p), |s.pcbs|, s.now, ProbePacket(s, p, list, ip, jitter));
    }
  }

  lemma {:induction false} SoundRestart(s: State, k: nat, jitters: seq<nat>)
    requires Sound(s) && k <= |s.pcbs| == |jitters|
    ensures Sound(RestartFrom(s, k, jitters))
    decreases |s.pcbs| - k
  {
    if k < |s.pcbs| {
      if s.pcbs[k].ready {
        SoundInitProbe(ClearOldProbe(s, k), k, s.services, true, jitters[k]);
        SoundRestart(InitProbe(ClearOldProbe(s, k), k, s.services, true, jitters[k]), k + 1, jitters);
      } else {
        SoundRestart(s, k + 1, jitters);
      }
    }
  }

  lemma SoundResend(s: State, x: Packet, delay: nat)
    requires Sound(s) && x.pcb < |s.pcbs| && !x.queued
    ensures Sound(Resend(s, x, delay))
  {
    var y := x.(sendAt := s.now + delay);
    SoundInsert(s.queue, |s.pcbs|, s.now, y);
    var t := Resend(s, x, delay);
    assert t.queue == Insert(s.queue, y) && |t.pcbs| == |s.pcbs| && t.now == s.now;
  }

  lemma SoundHandle(s: State, x: Packet)
    requires Sound(s) && x.pcb < |s.pcbs| && !x.queued
    ensures Sound(HandlePacket(s, x)) && |HandlePacket(s, x).pcbs| == |s.pcbs|
  {
    var sent := AfterSending(s, x);
    match s.pcbs[x.pcb].state {
      case Probe1 | Probe2 => SoundResend(sent, x, PROBE_INTERVAL);
      case Announce1 | Announce2 => SoundResend(sent, x, ANNOUNCE_INTERVAL);
      case Probe3 => SoundInsert(sent.queue, |s.pcbs|, s.now, AnnouncePacket(sent, x));
      case _ =>
    }
  }

  lemma SoundExecute(s: State)
    requires Sound(s) && s.hand.Some?
    ensures Sound(ExecuteHand(s)) && |ExecuteHand(s).pcbs| == |s.pcbs|
  {
    if HeadMatches(s.queue, s.hand.value) {
      assert forall i :: 0 <= i < |Popped(s).queue| ==> Popped(s).queue[i] == s.queue[i + 1];
      SoundHandle(Popped(s), s.queue[0].(queued := false));
    }
  }

  lemma SoundAnnounce(s: State, p: nat, list: seq<Service>, ip: bool, jitter: nat)
    requires Sound(s) && p < |s.pcbs|
    ensures Sound(AnnouncePcb(s, p, list, ip, jitter)) && |AnnouncePcb(s, p, list, ip, jitter).pcbs| == |s.pcbs|
  {
    var c := s.pcbs[p];
    if c.ready && c.state.ProbingMacro() {
      SoundInitProbe(s, p, list, ip, jitter);
    } else if c.ready && c.state.Running? && s.hostname {
      SoundInsert(s.queue, |s.pcbs|, s.now,
        Packet(s.nextId, p, s.now, false, false, list, if ip then Elsewhere else Absent));
    }
  }

  /** Every step of every run, disturbed or not, keeps this. */
  lemma StepKeepsSound(s: State, i: Input)
    requires Sound(s) && Enabled(s, i)
    ensures Sound(Next(s, i)) && |Next(s, i).pcbs| == |s.pcbs|
  {
    match i {
      case Timer(receiveAt) => SoundPass(s, receiveAt);
      case Execute => SoundExecute(s);
      case Probe(p, list, ip, clearOld, jitter) =>
        SoundInitProbe(if clearOld then ClearOldProbe(s, p) else s, p, list, ip, jitter);
      case Announce(p, list, ip, jitter) => SoundAnnounce(s, p, list, ip, jitter);
      case Answer(p, list, hosts, shareStep) =>
        SoundInsert(s.queue, |s.pcbs|, s.now, AnswerPacket(s, p, list, hosts, shareStep));
      case _ => SoundInterfaceStep(s, i);
    }
  }

  lemma SoundInterfaceStep(s: State, i: Input)
    requires Sound(s) && Enabled(s, i)
    requires !i.Timer? && !i.Execute? && !i.Probe? && !i.Announce? && !i.Answer?
    ensures Sound(Next(s, i)) && |Next(s, i).pcbs| == |s.pcbs|
  {
    match i {
      case SetHostname(jitters) => SoundRestart(s.(hostname := true, queue := []), 0, jitters);
      case RestartAll(jitters) => SoundRestart(s.(queue := []), 0, jitters);
      case Enable(p, joined, jitter) =>
        SoundInitProbe(s.(pcbs := s.pcbs[p := s.pcbs[p].(ready := true)]), p, s.services, true, jitter);
      case Disable(p) => SoundClear(s.queue, |s.pcbs|, s.now, p);
      case MarkDup(p) => SoundClear(s.queue, |s.pcbs|, s.now, p);
      case RemoveService(x) => SoundStrip(s.queue, s.pcbs, x, s.now);
      case _ =>
    }
  }

  // ---- The list, and what of it depends on safe timer passes ----

  // Only cleared packets were ever skipped.
  predicate NoLiveSkips(log: seq<Event>)
  {
    forall i :: 0 <= i < |log| && log[i].Skipped? ==> !log[i].live
  }

  // Due times of sent packets never decreased.
  predicate LogOrdered(log: seq<Event>, q: seq<Packet>, now: nat)
  {
    && (forall i, j :: 0 <= i < j < |log| && log[i].Sent? && log[j].Sent? ==>
      log[i].packet.sendAt <= log[j].packet.sendAt)
    && (forall i, k :: 0 <= i < |log| && 0 <= k < |q| && log[i].Sent? ==> log[i].packet.sendAt <= q[k].sendAt)
    && (forall i :: 0 <= i < |log| && log[i].Sent? ==> log[i].packet.sendAt < now)
  }

  predicate ListInv(q: seq<Packet>, now: nat, nextId: nat)
  {
    && Sorted(q) && DistinctIds(q)
    && (forall i :: 0 <= i < |q| ==> q[i].id < nextId && (q[i].queued ==> q[i].sendAt < now))
  }

  // The pending transmissions of listed packets are those of the queued packets, in list order.
  predicate PendingInv(q: seq<Packet>, pending: seq<Action>, nextId: nat)
  {
    && (forall x :: x in TxIds(pending) ==> x < nextId)
    && Keep(TxIds(pending), IdSet(q)) == QueuedIds(q)
  }

  // List order, order of what was sent, and, as long as passes are safe, the match with the
  // pending actions.
  predicate TxInv(q: seq<Packet>, now: nat, pending: seq<Action>, nextId: nat, log: seq<Event>, safe: bool)
  {
    && ListInv(q, now, nextId) && LogOrdered(log, q, now)
    && (safe ==> QueuedFirst(q) && PendingInv(q, pending, nextId) && NoLiveSkips(log))
  }

  predicate Pipeline(s: State, safe: bool)
  {
    TxInv(s.queue, s.now, s.Pending(), s.nextId, s.log, safe) && 0 < s.cap && |s.fifo| <= s.cap
  }

  lemma TxInsert(q: seq<Packet>, now: nat, pending: seq<Action>, nextId: nat, log: seq<Event>, p: Packet,
      nextId': nat, safe: bool)
    requires TxInv(q, now, pending, nextId, log, safe)
    requires p.id !in IdSet(q) && (safe ==> p.id !in TxIds(pending)) && p.id < nextId' && nextId <= nextId'
    requires !p.queued && now <= p.sendAt
    ensures TxInv(Insert(q, p), now, pending, nextId', log, safe)
  {
    InsertListInv(q, now, nextId, p, nextId');
    InsertLogOrdered(q, now, log, p);
    if safe {
      InsertQueuedFirst(q, now, p);
      InsertPending(q, pending, nextId, p, nextId');
    }
  }

  lemma InsertListInv(q: seq<Packet>, now: nat, nextId: nat, p: Packet, nextId': nat)
    requires ListInv(q, now, nextId)
    requires p.id !in IdSet(q) && p.id < nextId' && nextId <= nextId' && !p.queued && now <= p.sendAt
    ensures ListInv(Insert(q, p), now, nextId')
  {
    InsertSorted(q, p);
    InsertDistinct(q, p);
    var k := InsertAt(q, p);
    var r := Insert(q, p);
    forall i | 0 <= i < |r| ensures r[i].id < nextId' && (r[i].queued ==> r[i].sendAt < now) {
      assert i == k || r[i] == q[if i < k then i else i - 1];
    }
  }

  lemma InsertQueuedFirst(q: seq<Packet>, now: nat, p: Packet)
    requires Sorted(q) && QueuedFirst(q) && !p.queued && now <= p.sendAt
    requires forall i :: 0 <= i < |q| && q[i].queued ==> q[i].sendAt < now
    ensures QueuedFirst(Insert(q, p))
  {
    var k := InsertAt(q, p);
    var r := Insert(q, p);
    forall i, j | 0 <= i < j < |r| && r[j].queued ensures r[i].queued {
      assert j != k;
      assert r[j] == q[if j < k then j else j - 1];
      assert j < k;
      assert r[i] == q[i];
    }
  }

  lemma InsertPending(q: seq<Packet>, pending: seq<Action>, nextId: nat, p: Packet, nextId': nat)
    requires PendingInv(q, pending, nextId) && nextId <= nextId'
    requires p.id !in TxIds(pending) && !p.queued
    ensures PendingInv(Insert(q, p), pending, nextId')
  {
    InsertIds(q, p);
    InsertQueuedIds(q, p);
    KeepIrrelevant(TxIds(pending), IdSet(q), p.id);
  }

  lemma InsertLogOrdered(q: seq<Packet>, now: nat, log: seq<Event>, p: Packet)
    requires LogOrdered(log, q, now) && now <= p.sendAt
    ensures LogOrdered(log, Insert(q, p), now)
  {
    var k := InsertAt(q, p);
    var r := Insert(q, p);
    forall i, j | 0 <= i < |log| && 0 <= j < |r| && log[i].Sent? ensures log[i].packet.sendAt <= r[j].sendAt {
      assert j == k || r[j] == q[if j < k then j else j - 1];
    }
  }

  lemma InsertDistinct(q: seq<Packet>, p: Packet)
    requires DistinctIds(q) && p.id !in IdSet(q)
    ensures DistinctIds(Insert(q, p))
  {
    var k := InsertAt(q, p);
    var r := Insert(q, p);
    forall i, j | 0 <= i < j < |r| ensures r[i].id != r[j].id {
      assert i == k || r[i] == q[if i < k then i else i - 1];
      assert j == k || r[j] == q[if j < k then j else j - 1];
    }
  }

  lemma TxDrop(q: seq<Packet>, now: nat, pending: seq<Action>, nextId: nat, log: seq<Event>, q': seq<Packet>,
      safe: bool)
    requires TxInv(q, now, pending, nextId, log, safe) && Subsequence(q', q)
    ensures TxInv(q', now, pending, nextId, log, safe)
  {
    SubsequenceKeepsOrder(q', q);
    if safe {
      SubsequenceQueuedIds(q', q);
      KeepTwice(TxIds(pending), IdSet(q), IdSet(q'));
    }
    forall i | 0 <= i < |q'|
      ensures HasSlot(q, q'[i])
    {
      SubsequenceMembers(q', q, i);
    }
  }

  // Fresh identities are neither in the list nor pending.
  lemma FreshId(q: seq<Packet>, now: nat, pending: seq<Action>, nextId: nat, log: seq<Event>, safe: bool)
    requires TxInv(q, now, pending, nextId, log, safe)
    ensures nextId !in IdSet(q) && (safe ==> nextId !in TxIds(pending))
  {
  }

  lemma TxLog(q: seq<Packet>, now: nat, pending: seq<Action>, nextId: nat, log: seq<Event>, e: Event, safe: bool)
    requires TxInv(q, now, pending, nextId, log, safe)
    requires e.Restarted? || e.Announced? || (e.Skipped? && (safe ==> !e.live))
    ensures TxInv(q, now, pending, nextId, log + [e], safe)
  {
    LogQuiet(q, now, log, e);
  }

  lemma LogQuiet(q: seq<Packet>, now: nat, log: seq<Event>, e: Event)
    requires LogOrdered(log, q, now) && !e.Sent?
    ensures LogOrdered(log + [e], q, now)
  {
    var r := log + [e];
    assert forall i :: 0 <= i < |log| ==> r[i] == log[i];
  }

  // ---- New packets, cleared packets ----

  // One more packet is listed, and nothing else the pipeline sees changes.
  lemma Inserted(s: State, y: Packet, t: State, safe: bool)
    requires Pipeline(s, safe) && y.id !in IdSet(s.queue) && (safe ==> y.id !in TxIds(s.Pending()))
    requires !y.queued && s.now <= y.sendAt && y.id < t.nextId && s.nextId <= t.nextId
    requires t.queue == Insert(s.queue, y) && t.log == s.log
    requires t.now == s.now && t.fifo == s.fifo && t.hand == s.hand && t.cap == s.cap
    ensures Pipeline(t, safe)
  {
    TxInsert(s.queue, s.now, s.Pending(), s.nextId, s.log, y, t.nextId, safe);
    PipelineFrom(s, t, safe);
  }

  // The pipeline sees only the list, the clock, the pending actions and the log.
  lemma PipelineFrom(s: State, t: State, safe: bool)
    requires Pipeline(s, safe) && t.now == s.now && t.fifo == s.fifo && t.hand == s.hand && t.cap == s.cap
    requires TxInv(t.queue, s.now, s.Pending(), t.nextId, t.log, safe)
    ensures Pipeline(t, safe)
  {
    assert t.Pending() == s.Pending();
  }

  lemma InitProbePipeline(s: State, p: nat, list: seq<Service>, ip: bool, jitter: nat, safe: bool)
    requires Pipeline(s, safe) && p < |s.pcbs|
    ensures Pipeline(InitProbe(s, p, list, ip, jitter), safe)
  {
    var t := InitProbe(s, p, list, ip, jitter);
    var cleared := ClearPcb(s.queue, p);
    ClearPcbSubsequence(s.queue, p);
    TxDrop(s.queue, s.now, s.Pending(), s.nextId, s.log, cleared, safe);
    if s.hostname {
      FreshId(cleared, s.now, s.Pending(), s.nextId, s.log, safe);
      var packet := ProbePacket(s, p, list, ip, jitter);
      TxInsert(cleared, s.now, s.Pending(), s.nextId, s.log, packet, s.nextId + 1, safe);
      TxLog(t.queue, s.now, s.Pending(), s.nextId + 1, s.log, Restarted(p), safe);
    }
  }

  lemma RestartPipeline(s: State, k: nat, jitters: seq<nat>, safe: bool)
    requires Pipeline(s, safe) && k <= |s.pcbs| == |jitters|
    ensures Pipeline(RestartFrom(s, k, jitters), safe)
    decreases |s.pcbs| - k
  {
    if k < |s.pcbs| {
      if s.pcbs[k].ready {
        InitProbePipeline(ClearOldProbe(s, k), k, s.services, true, jitters[k], safe);
        RestartPipeline(InitProbe(ClearOldProbe(s, k), k, s.services, true, jitters[k]), k + 1, jitters, safe);
      } else {
        RestartPipeline(s, k + 1, jitters, safe);
      }
    }
  }

  lemma WithPacketPipeline(s: State, x: Packet, c: Pcb, safe: bool)
    requires Pipeline(s, safe) && x.pcb < |s.pcbs| && x.id == s.nextId && !x.queued && x.sendAt >= s.now
    ensures Pipeline(WithPacket(s, x, c), safe)
  {
    FreshId(s.queue, s.now, s.Pending(), s.nextId, s.log, safe);
    Inserted(s, x, WithPacket(s, x, c), safe);
  }

  lemma {:induction false} EnrichQueuedIds(q: seq<Packet>, k: nat, y: Packet)
    requires k < |q| && SameSlot(y, q[k])
    ensures QueuedIds(q[k := y]) == QueuedIds(q)
  {
    if k > 0 {
      assert q[k := y][1..] == q[1..][k - 1 := y];
      EnrichQueuedIds(q[1..], k - 1, y);
    } else {
      assert q[k := y][1..] == q[1..];
    }
  }

  lemma EnrichPipeline(q: seq<Packet>, now: nat, pending: seq<Action>, nextId: nat, log: seq<Event>, k: nat,
      y: Packet, safe: bool)
    requires TxInv(q, now, pending, nextId, log, safe) && k < |q| && SameSlot(y, q[k])
    ensures TxInv(q[k := y], now, pending, nextId, log, safe)
  {
    var r := q[k := y];
    EnrichQueuedIds(q, k, y);
    assert forall i :: 0 <= i < |q| ==> SameSlot(r[i], q[i]);
    assert IdSet(r) == IdSet(q) by {
      assert forall i :: 0 <= i < |q| ==> r[i].id == q[i].id;
    }
  }

  lemma TakeDownPipeline(s: State, p: nat, final: PcbState, safe: bool)
    requires Pipeline(s, safe) && p < |s.pcbs|
    ensures Pipeline(TakeDown(s, p, final), safe)
  {
    ClearPcbSubsequence(s.queue, p);
    TxDrop(s.queue, s.now, s.Pending(), s.nextId, s.log, ClearPcb(s.queue, p), safe);
  }

  lemma AnnouncePipeline(s: State, p: nat, list: seq<Service>, ip: bool, jitter: nat, safe: bool)
    requires Pipeline(s, safe) && p < |s.pcbs|
    ensures Pipeline(AnnouncePcb(s, p, list, ip, jitter), safe)
  {
    var c := s.pcbs[p];
    var t := AnnouncePcb(s, p, list, ip, jitter);
    if !c.ready {
    } else if c.state.ProbingMacro() {
      InitProbePipeline(s, p, list, ip, jitter, safe);
    } else if c.state.AnnouncingMacro() {
      var k := FirstOf(s.queue, p);
      if k < |s.queue| {
        EnrichPipeline(s.queue, s.now, s.Pending(), s.nextId, s.log, k, Enrich(s.queue[k], list, ip), safe);
        PipelineFrom(s, t, safe);
      }
    } else if c.state.Running? && s.hostname {
      var x := Packet(s.nextId, p, s.now, false, false, list, if ip then Elsewhere else Absent);
      WithPacketPipeline(s, x, c.(state := Announce1), safe);
    }
  }

  lemma RemoveServicePipeline(s: State, service: Service, safe: bool)
    requires Pipeline(s, safe) && WellFormed(s)
    ensures Pipeline(Next(s, RemoveService(service)), safe)
  {
    var t := Next(s, RemoveService(service));
    StripSubsequence(s.queue, s.pcbs, service);
    TxDrop(s.queue, s.now, s.Pending(), s.nextId, s.log, t.queue, safe);
    PipelineFrom(s, t, safe);
  }

  lemma WipedPipeline(s: State, safe: bool)
    requires Pipeline(s, safe)
    ensures Pipeline(s.(queue := []), safe)
  {
    TxDrop(s.queue, s.now, s.Pending(), s.nextId, s.log, [], safe);
    PipelineFrom(s, s.(queue := []), safe);
  }

  // ---- The service task ----

  // A pending transmission whose packet is still listed belongs to the list head.
  lemma LiveMeansHead(q: seq<Packet>, now: nat, id: nat, rest: seq<Action>, nextId: nat, log: seq<Event>)
    requires TxInv(q, now, [Tx(id)] + rest, nextId, log, true) && id in IdSet(q)
    ensures HeadMatches(q, Tx(id))
  {
    assert ([Tx(id)] + rest)[1..] == rest;
    assert TxIds([Tx(id)] + rest) == [id] + TxIds(rest);
    KeepConcat([id], TxIds(rest), IdSet(q));
    assert Keep([id], IdSet(q)) == [id];
    assert QueuedIds(q)[0] == id;
    if q[0].queued {
    } else {
      assert NoneQueued(q);
      NoneQueuedIds(q);
    }
  }

  lemma PendingSplit(a: Action, rest: seq<Action>, live: set<nat>)
    ensures TxIds([a] + rest) == (if a.Tx? then [a.id] else []) + TxIds(rest)
    ensures Keep(TxIds([a] + rest), live) == (if a.Tx? && a.id in live then [a.id] else []) + Keep(TxIds(rest), live)
  {
    assert ([a] + rest)[1..] == rest;
    KeepConcat(if a.Tx? then [a.id] else [], TxIds(rest), live);
  }

  // Dropping a pending action that belongs to no listed packet.
  lemma Unlink(q: seq<Packet>, a: Action, rest: seq<Action>, nextId: nat)
    requires PendingInv(q, [a] + rest, nextId) && (a.Tx? ==> a.id !in IdSet(q))
    ensures PendingInv(q, rest, nextId)
  {
    PendingSplit(a, rest, IdSet(q));
    assert forall x :: x in TxIds(rest) ==> x in TxIds([a] + rest);
  }

  lemma PopList(q: seq<Packet>, now: nat, nextId: nat)
    requires q != [] && ListInv(q, now, nextId)
    ensures ListInv(q[1..], now, nextId) && q[0].id !in IdSet(q[1..])
  {
    PairsOfTail(q);
    assert forall i :: 0 <= i < |q[1..]| ==> q[1..][i] == q[i + 1];
  }

  lemma PopPending(q: seq<Packet>, rest: seq<Action>, nextId: nat)
    requires q != [] && q[0].queued && q[0].id !in IdSet(q[1..])
    requires PendingInv(q, [Tx(q[0].id)] + rest, nextId)
    ensures PendingInv(q[1..], rest, nextId) && q[0].id !in TxIds(rest) && q[0].id < nextId
  {
    var id := q[0].id;
    var tail := q[1..];
    PendingSplit(Tx(id), rest, IdSet(q));
    IdSetOfTail(q);
    var kept := Keep(TxIds(rest), IdSet(q));
    assert [id] + kept == [id] + QueuedIds(tail);
    assert ([id] + kept)[1..] == kept && ([id] + QueuedIds(tail))[1..] == QueuedIds(tail);
    KeepIs(TxIds(rest), IdSet(q));
    QueuedIdsAreIds(tail);
    assert id !in TxIds(rest);
    KeepIrrelevant(TxIds(rest), IdSet(tail), id);
    assert forall x :: x in TxIds(rest) ==> x in TxIds([Tx(id)] + rest);
    assert id in TxIds([Tx(id)] + rest);
  }

  lemma TxPop(q: seq<Packet>, now: nat, rest: seq<Action>, nextId: nat, log: seq<Event>, p: nat, state: PcbState,
      safe: bool)
    requires q != [] && TxInv(q, now, [Tx(q[0].id)] + rest, nextId, log, safe) && q[0].queued
    ensures q[0].id !in IdSet(q[1..]) && (safe ==> q[0].id !in TxIds(rest)) && q[0].id < nextId
    ensures TxInv(q[1..], now, rest, nextId, log, safe)
    ensures TxInv(q[1..], now, rest, nextId, log + [Sent(p, state, q[0].(queued := false), now)], safe)
  {
    PopList(q, now, nextId);
    PairsOfTail(q);
    if safe {
      PopPending(q, rest, nextId);
    }
    LogSent(q, now, log, Sent(p, state, q[0].(queued := false), now));
  }

  lemma LogSent(q: seq<Packet>, now: nat, log: seq<Event>, e: Event)
    requires q != [] && Sorted(q) && LogOrdered(log, q, now) && e.Sent? && e.packet.sendAt == q[0].sendAt < now
    ensures LogOrdered(log + [e], q[1..], now) && LogOrdered(log, q[1..], now)
  {
    var r := log + [e];
    assert forall i :: 0 <= i < |q[1..]| ==> q[1..][i] == q[i + 1];
    assert forall i :: 0 <= i < |log| ==> r[i] == log[i];
  }

  lemma ExecutePipeline(s: State, safe: bool)
    requires Pipeline(s, safe) && WellFormed(s) && s.hand.Some?
    ensures Pipeline(ExecuteHand(s), safe)
  {
    var a := s.hand.value;
    assert s.Pending() == [a] + s.fifo;
    var t := ExecuteHand(s);
    if HeadMatches(s.queue, a) {
      HandlePipeline(s, safe);
    } else {
      assert t.Pending() == s.fifo;
      if safe {
        if a.Tx? && a.id in IdSet(s.queue) {
          LiveMeansHead(s.queue, s.now, a.id, s.fifo, s.nextId, s.log);
        }
        Unlink(s.queue, a, s.fifo, s.nextId);
      }
      if a.Tx? {
        TxLog(s.queue, s.now, s.fifo, s.nextId, s.log, Skipped(a.id, a.id in IdSet(s.queue)), safe);
      }
    }
  }

  lemma HandlePipeline(s: State, safe: bool)
    requires Pipeline(s, safe) && WellFormed(s) && s.hand.Some? && HeadMatches(s.queue, s.hand.value)
    ensures Pipeline(ExecuteHand(s), safe)
  {
    var x := s.queue[0];
    assert s.Pending() == [Tx(x.id)] + s.fifo;
    TxPop(s.queue, s.now, s.fifo, s.nextId, s.log, x.pcb, s.pcbs[x.pcb].state, safe);
    var popped := s.(hand := None, queue := s.queue[1..]);
    assert popped.Pending() == s.fifo;
    assert AfterSending(popped, x).Pending() == s.fifo;
    HandlePacketPipeline(popped, x.(queued := false), safe);
  }

  lemma HandlePacketPipeline(s: State, x: Packet, safe: bool)
    requires x.pcb < |s.pcbs| && !x.queued
    requires Pipeline(s, safe) && Pipeline(AfterSending(s, x), safe)
    requires x.id !in IdSet(s.queue) && (safe ==> x.id !in TxIds(s.Pending())) && x.id < s.nextId
    ensures Pipeline(HandlePacket(s, x), safe)
  {
    var sent := AfterSending(s, x);
    assert sent.Pending() == s.Pending();
    match s.pcbs[x.pcb].state {
      case Probe1 | Probe2 => ResendPipeline(sent, x, PROBE_INTERVAL, safe);
      case Announce1 | Announce2 => ResendPipeline(sent, x, ANNOUNCE_INTERVAL, safe);
      case Probe3 => FinishProbingPipeline(sent, x, safe);
      case _ =>
    }
  }

  lemma ResendPipeline(s: State, x: Packet, delay: nat, safe: bool)
    requires Pipeline(s, safe) && x.pcb < |s.pcbs| && !x.queued
    requires x.id !in IdSet(s.queue) && (safe ==> x.id !in TxIds(s.Pending())) && x.id < s.nextId
    ensures Pipeline(Resend(s, x, delay), safe)
  {
    Inserted(s, x.(sendAt := s.now + delay), Resend(s, x, delay), safe);
  }

  lemma FinishProbingPipeline(s: State, x: Packet, safe: bool)
    requires Pipeline(s, safe) && x.pcb < |s.pcbs|
    ensures Pipeline(FinishProbing(s, x), safe)
  {
    var packet := AnnouncePacket(s, x);
    FreshId(s.queue, s.now, s.Pending(), s.nextId, s.log, safe);
    TxInsert(s.queue, s.now, s.Pending(), s.nextId, s.log, packet, s.nextId + 1, safe);
    TxLog(Insert(s.queue, packet), s.now, s.Pending(), s.nextId + 1, s.log, Announced(x.pcb), safe);
    PipelineFrom(s, FinishProbing(s, x), safe);
  }

  // ---- Timer passes ----

  /** The receive, if it falls into the pass at all, does not fall strictly after a failed
      attempt and before the last one. A pass that runs undisturbed is always safe. */
  predicate SafePass(s: State, receiveAt: Option<nat>)
  {
    var due := DueLen(s.queue[QueuedLen(s.queue)..], s.now);
    |s.fifo| <= s.cap ==> !(receiveAt.Some? && s.cap - |s.fifo| < receiveAt.value < due)
  }

  lemma PrefixSplit(q: seq<Packet>)
    requires QueuedFirst(q)
    ensures NoneQueued(q[QueuedLen(q)..])
  {
    var n := QueuedLen(q);
    var tail := q[n..];
    forall i | 0 <= i < |tail| ensures !tail[i].queued {
      assert tail[i] == q[n + i];
    }
  }

  // A pass leaves the queued packets a prefix exactly when it was safe.
  lemma PassPrefixIff(s: State, receiveAt: Option<nat>)
    requires Pipeline(s, true)
    ensures QueuedFirst(RunTimer(s, receiveAt).queue) <==> SafePass(s, receiveAt)
  {
    var q := s.queue;
    var n := QueuedLen(q);
    PrefixSplit(q);
    PushPrefixIff(q[n..], s.now, s.fifo, s.cap, receiveAt);
    QueuedRunThen(q[..n], Push(q[n..], s.now, s.fifo, s.cap, receiveAt).queue);
  }

  lemma {:induction false} QueuedRunThen(a: seq<Packet>, b: seq<Packet>)
    requires forall i :: 0 <= i < |a| ==> a[i].queued
    ensures QueuedFirst(a + b) <==> QueuedFirst(b)
  {
    if a == [] {
      assert a + b == b;
    } else {
      QueuedRunThen(a[1..], b);
      assert a + b == [a[0]] + (a[1..] + b);
      PrefixCons(a[0], a[1..] + b);
    }
  }

  lemma {:induction false} KeepAll(ids: seq<nat>, live: set<nat>)
    requires forall x :: x in ids ==> x in live
    ensures Keep(ids, live) == ids
  {
    if ids != [] {
      KeepAll(ids[1..], live);
    }
  }

  lemma PendingConcat(hand: seq<Action>, before: seq<Action>, after: seq<Action>, more: seq<nat>)
    requires TxIds(after) == TxIds(before) + more
    ensures TxIds(hand + after) == TxIds(hand + before) + more
  {
    TxIdsConcat(hand, before);
    TxIdsConcat(hand, after);
    Regroup(TxIds(hand), TxIds(before), more);
  }

  function InHand(hand: Option<Action>): seq<Action>
  {
    if hand.Some? then [hand.value] else []
  }

  lemma PassPendingIs(s: State, receiveAt: Option<nat>, r: PassResult)
    requires r == Push(s.queue[QueuedLen(s.queue)..], s.now, s.fifo, s.cap, receiveAt)
    requires (receiveAt.Some? ==> s.hand.None?) && (receiveAt.None? ==> r.taken.None?)
    ensures RunTimer(s, receiveAt).Pending() == InHand(s.hand) + (Taken(r) + r.fifo)
  {
    assert [] + r.fifo == r.fifo;
  }

  // What is pending after a pass is what was, followed by one transmission per packet marked.
  lemma PassConserves(s: State, receiveAt: Option<nat>, q: seq<Packet>, r: PassResult)
    requires q == s.queue[QueuedLen(s.queue)..] && NoneQueued(q) && (receiveAt.Some? ==> s.hand.None?)
    requires r == Push(q, s.now, s.fifo, s.cap, receiveAt)
    ensures TxIds(RunTimer(s, receiveAt).Pending()) == TxIds(s.Pending()) + QueuedIds(r.queue)
  {
    PushConserves(q, s.now, s.fifo, s.cap, receiveAt);
    if receiveAt.None? {
      PushTakesNothing(q, s.now, s.fifo, s.cap);
    }
    PassPendingIs(s, receiveAt, r);
    PendingConcat(InHand(s.hand), s.fifo, Taken(r) + r.fifo, QueuedIds(r.queue));
  }

  lemma PassPending(s: State, receiveAt: Option<nat>)
    requires Pipeline(s, true) && (receiveAt.Some? ==> s.hand.None?)
    ensures var t := RunTimer(s, receiveAt);
      PendingInv(t.queue, t.Pending(), s.nextId)
  {
    var q := s.queue;
    var n := QueuedLen(q);
    var t := RunTimer(s, receiveAt);
    var r := Push(q[n..], s.now, s.fifo, s.cap, receiveAt);
    PrefixSplit(q);
    PassConserves(s, receiveAt, q[n..], r);
    PassMarks(s, receiveAt);
    MarksKeepOrder(t.queue, q);
    PassIds(q, r.queue, n);
    QueuedIdsAreIds(t.queue);
    MorePending(q, t.queue, s.Pending(), t.Pending(), QueuedIds(r.queue), s.nextId);
  }

  lemma MorePending(q: seq<Packet>, q': seq<Packet>, pending: seq<Action>, pending': seq<Action>, more: seq<nat>,
      nextId: nat)
    requires PendingInv(q, pending, nextId) && IdSet(q') == IdSet(q)
    requires TxIds(pending') == TxIds(pending) + more && QueuedIds(q') == QueuedIds(q) + more
    requires forall x :: x in more ==> x in IdSet(q) && x < nextId
    ensures PendingInv(q', pending', nextId)
  {
    KeepConcat(TxIds(pending), more, IdSet(q));
    KeepAll(more, IdSet(q));
  }

  lemma PassIds(q: seq<Packet>, marked: seq<Packet>, n: nat)
    requires n <= |q| && NoneQueued(q[n..])
    ensures QueuedIds(q[..n] + marked) == QueuedIds(q) + QueuedIds(marked)
    ensures forall x :: x in QueuedIds(marked) ==> x in QueuedIds(q[..n] + marked)
  {
    assert q == q[..n] + q[n..];
    MarkedIds(q[..n], q[n..], marked);
  }

  lemma MarkedIds(a: seq<Packet>, b: seq<Packet>, marked: seq<Packet>)
    requires NoneQueued(b)
    ensures QueuedIds(a + marked) == QueuedIds(a + b) + QueuedIds(marked)
  {
    QueuedIdsConcat(a, b);
    NoneQueuedIds(b);
    QueuedIdsConcat(a, marked);
  }

  lemma TimerPipeline(s: State, receiveAt: Option<nat>, safe: bool)
    requires Pipeline(s, safe) && Sound(s) && (receiveAt.Some? ==> s.hand.None?)
    requires safe ==> SafePass(s, receiveAt)
    ensures Pipeline(RunTimer(s, receiveAt), safe)
  {
    var t := RunTimer(s, receiveAt);
    PassMarks(s, receiveAt);
    MarksKeepOrder(t.queue, s.queue);
    SoundPass(s, receiveAt);
    PushFits(s.queue[QueuedLen(s.queue)..], s.now, s.fifo, s.cap, receiveAt);
    if safe {
      PassPrefixIff(s, receiveAt);
      PassPending(s, receiveAt);
    }
    assert ListInv(t.queue, t.now, t.nextId);
    assert LogOrdered(t.log, t.queue, t.now);
  }

  // ---- Every step ----

  lemma QuietPipeline(s: State, i: Input, safe: bool)
    requires Pipeline(s, safe) && Enabled(s, i)
    requires i.Tick? || i.Receive? || i.PostOther? || i.Conflict? || i.AddService?
    ensures Pipeline(Next(s, i), safe)
  {
    var t := Next(s, i);
    var pending := s.Pending();
    if i.PostOther? {
      assert t.Pending() == pending + [OtherAction];
      TxIdsConcat(pending, [OtherAction]);
      assert TxIds([OtherAction]) == [];
      assert TxIds(t.Pending()) == TxIds(pending);
    } else {
      assert t.Pending() == pending;
    }
  }

  lemma InterfaceStepPipeline(s: State, i: Input, safe: bool)
    requires Pipeline(s, safe) && Enabled(s, i)
    requires i.Enable? || i.Disable? || i.MarkDup? || i.SetHostname? || i.RestartAll? || i.RemoveService?
    ensures Pipeline(Next(s, i), safe)
  {
    match i {
      case SetHostname(jitters) =>
        var named := s.(hostname := true);
        PipelineFrom(s, named, safe);
        WipedPipeline(named, safe);
        RestartPipeline(named.(queue := []), 0, jitters, safe);
      case RestartAll(jitters) =>
        WipedPipeline(s, safe);
        RestartPipeline(s.(queue := []), 0, jitters, safe);
      case Enable(p, joined, jitter) =>
        var up := s.(pcbs := s.pcbs[p := s.pcbs[p].(ready := true)]);
        PipelineFrom(s, up, safe);
        InitProbePipeline(up, p, s.services, true, jitter, safe);
        PipelineFrom(s, s.(pcbs := s.pcbs[p := s.pcbs[p].(failedProbes := 0)]), safe);
      case Disable(p) => TakeDownPipeline(s, p, Off, safe);
      case MarkDup(p) => TakeDownPipeline(s, p, Dup, safe);
      case RemoveService(x) => RemoveServicePipeline(s, x, safe);
    }
  }

  /** Every step keeps the pipeline in order, whatever state the interfaces are in; the match with
      the pending actions as long as timer passes are safe. */
  lemma StepKeepsPipeline(s: State, i: Input, safe: bool)
    requires Pipeline(s, safe) && Sound(s) && Enabled(s, i) && (safe && i.Timer? ==> SafePass(s, i.receiveAt))
    ensures Pipeline(Next(s, i), safe)
  {
    match i {
      case Timer(receiveAt) => TimerPipeline(s, receiveAt, safe);
      case Execute => ExecutePipeline(s, safe);
      case Probe(p, list, ip, clearOld, jitter) =>
        var s' := if clearOld then ClearOldProbe(s, p) else s;
        PipelineFrom(s, s', safe);
        InitProbePipeline(s', p, list, ip, jitter, safe);
      case Announce(p, list, ip, jitter) => AnnouncePipeline(s, p, list, ip, jitter, safe);
      case Answer(p, list, hosts, shareStep) =>
        WithPacketPipeline(s, AnswerPacket(s, p, list, hosts, shareStep), s.pcbs[p], safe);
      case Tick(_) | Receive | PostOther | Conflict(_) | AddService(_) => QuietPipeline(s, i, safe);
      case _ => InterfaceStepPipeline(s, i, safe);
    }
  }
}
