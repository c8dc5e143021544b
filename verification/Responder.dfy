/** The responder as a step system over both of its tasks. One step is one section run under
    the service lock, or the service task's unlocked receive from the action FIFO. */
module Responder {
  import opened MdnsTypes
  import opened TxQueue

  // What a run makes visible.
  datatype Event =
    | Restarted(pcb: nat)                                        // probing begins anew
    | Sent(pcb: nat, state: PcbState, packet: Packet, at: nat)   // a queued packet goes out
    | Announced(pcb: nat)                                        // the probe becomes an announcement
    | Skipped(id: nat, live: bool)                               // a popped packet is not the list head

  datatype State = State(
    now: nat, queue: seq<Packet>,
    fifo: seq<Action>, hand: Option<Action>, cap: nat,
    pcbs: seq<Pcb>, services: seq<Service>, hostname: bool,
    nextId: nat, log: seq<Event>)
  {
    // Actions not executed yet: the one the service task has received, then the FIFO.
    function Pending(): seq<Action>
    {
      (if hand.Some? then [hand.value] else []) + fifo
    }
  }

  const PROBE_INTERVAL := 250
  const ANNOUNCE_INTERVAL := 1000

  datatype Input =
    | Tick(ms: nat)
    | Timer(receiveAt: Option<nat>)
    | Receive
    | Execute
    | PostOther
    | SetHostname(jitters: seq<nat>)
    | Conflict(pcb: nat)
    | Probe(pcb: nat, list: seq<Service>, ip: bool, clearOld: bool, jitter: nat)
    | RestartAll(jitters: seq<nat>)
    | Announce(pcb: nat, list: seq<Service>, ip: bool, jitter: nat)
    | Answer(pcb: nat, list: seq<Service>, hosts: HostRecords, shareStep: nat)
    | Enable(pcb: nat, joined: bool, jitter: nat)
    | Disable(pcb: nat)
    | MarkDup(pcb: nat)
    | AddService(service: Service)
    | RemoveService(service: Service)
  {
    // Inputs that come from inside: the clock, the timer task and the service task at work.
    predicate Internal() { Tick? || Timer? || Receive? || Execute? }
  }

  // ---- Probing ----

  // Entries the source allocates for the list of services to probe, and what its loops copy there.
  function MergedLen(c: Pcb, added: seq<Service>): nat
  {
    |added| + if c.state.ProbingMacro() then |c.probeServices| else 0
  }

  function Merged(c: Pcb, added: seq<Service>): seq<Service>
  {
    added + c.probeServices
  }

  function Added(c: Pcb, list: seq<Service>): seq<Service>
  {
    if c.state.ProbingMacro() then NotIn(list, c.probeServices) else list
  }

  function ProbeDelay(c: Pcb, jitter: nat): nat
  {
    (if c.failedProbes > 5 then 1000 else 120) + jitter
  }

  function ProbePacket(s: State, p: nat, list: seq<Service>, ip: bool, jitter: nat): Packet
    requires p < |s.pcbs|
  {
    var c := s.pcbs[p];
    var added := Added(c, list);
    Packet(s.nextId, p, s.now + ProbeDelay(c, jitter), false, true,
           Merged(c, added)[..MergedLen(c, added)], if c.probeIp || ip then Elsewhere else Absent)
  }

  function InitProbe(s: State, p: nat, list: seq<Service>, ip: bool, jitter: nat): State
    requires p < |s.pcbs|
  {
    var cleared := ClearPcb(s.queue, p);
    var c := s.pcbs[p];
    if !s.hostname then
      s.(queue := cleared, pcbs := s.pcbs[p := c.(state := Running)])
    else
      var packet := ProbePacket(s, p, list, ip, jitter);
      s.(queue := Insert(cleared, packet),
         pcbs := s.pcbs[p := c.(state := Probe1, probeServices := packet.services,
                                probeIp := c.probeIp || ip, probeRunning := true)],
         nextId := s.nextId + 1,
         log := s.log + [Restarted(p)])
  }

  function ClearOldProbe(s: State, p: nat): State
    requires p < |s.pcbs|
  {
    s.(pcbs := s.pcbs[p := s.pcbs[p].(probeServices := [], probeRunning := false)])
  }

  // Restart every ready interface from k on.
  function RestartFrom(s: State, k: nat, jitters: seq<nat>): (r: State)
    requires k <= |s.pcbs| == |jitters|
    ensures |r.pcbs| == |s.pcbs|
    decreases |s.pcbs| - k
  {
    if k == |s.pcbs| then s
    else if s.pcbs[k].ready then
      RestartFrom(InitProbe(ClearOldProbe(s, k), k, s.services, true, jitters[k]), k + 1, jitters)
    else RestartFrom(s, k + 1, jitters)
  }

  // ---- Announcing and answering ----

  function FirstOf(q: seq<Packet>, p: nat): (k: nat)
    ensures k <= |q|
    ensures k < |q| ==> q[k].pcb == p
  {
    if q == [] || q[0].pcb == p then 0 else 1 + FirstOf(q[1..], p)
  }

  // A new packet is scheduled and its interface's control block becomes c.
  function WithPacket(s: State, x: Packet, c: Pcb): State
    requires x.pcb < |s.pcbs|
  {
    s.(queue := Insert(s.queue, x), nextId := s.nextId + 1, pcbs := s.pcbs[x.pcb := c])
  }

  // The packet with the records of more services, and of the host, in its answers.
  function Enrich(x: Packet, list: seq<Service>, ip: bool): Packet
  {
    x.(services := x.services + NotIn(list, x.services), hosts := if ip then InAnswers else x.hosts)
  }

  function AnnouncePcb(s: State, p: nat, list: seq<Service>, ip: bool, jitter: nat): State
    requires p < |s.pcbs|
  {
    var c := s.pcbs[p];
    if !c.ready then s
    else if c.state.ProbingMacro() then InitProbe(s, p, list, ip, jitter)
    else if c.state.AnnouncingMacro() then
      var k := FirstOf(s.queue, p);
      if k == |s.queue| then s
      else
        s.(queue := s.queue[k := Enrich(s.queue[k], list, ip)], pcbs := s.pcbs[p := c.(state := Announce1)])
    else if c.state.Running? && s.hostname then
      var packet := Packet(s.nextId, p, s.now, false, false, list, if ip then Elsewhere else Absent);
      WithPacket(s, packet, c.(state := Announce1))
    else s
  }

  function AnswerPacket(s: State, p: nat, list: seq<Service>, hosts: HostRecords, shareStep: nat): Packet
  {
    Packet(s.nextId, p, s.now + 25 + shareStep * 25, false, false, list, hosts)
  }

  // ---- Interfaces going down ----

  function Deinit(c: Pcb): Pcb
  {
    Pcb(Off, false, [], false, false, 0)
  }

  function TakeDown(s: State, p: nat, final: PcbState): State
    requires p < |s.pcbs|
  {
    var c := s.pcbs[p];
    if c.ready then s.(queue := ClearPcb(s.queue, p), pcbs := s.pcbs[p := Deinit(c).(state := final)])
    else s.(pcbs := s.pcbs[p := c.(state := final)])
  }

  function EnablePcb(s: State, p: nat, joined: bool, jitter: nat): State
    requires p < |s.pcbs|
  {
    var c := s.pcbs[p];
    if !c.ready && !joined then s.(pcbs := s.pcbs[p := c.(failedProbes := 0)])
    else InitProbe(s.(pcbs := s.pcbs[p := c.(ready := true)]), p, s.services, true, jitter)
  }

  // ---- Services going away ----

  function StripPacket(x: Packet, service: Service): Packet
  {
    x.(services := Without(x.services, service))
  }

  function StripPcb(c: Pcb, x: Packet, service: Service): Pcb
  {
    if !c.ready then c
    else if c.state.ProbingMacro() then
      if service !in c.probeServices then c
      else
        var left := Without(c.probeServices, service);
        if left == [] && !c.probeIp then c.(probeServices := [], probeRunning := false, state := Running)
        else c.(probeServices := left)
    else if c.state.AnnouncingMacro() && x.HasAnswers() && !StripPacket(x, service).HasAnswers() then
      c.(state := Running)
    else c
  }

  datatype Stripped = Stripped(queue: seq<Packet>, pcbs: seq<Pcb>)

  // Packets left without any record are unlinked.
  function Strip(q: seq<Packet>, pcbs: seq<Pcb>, service: Service): (r: Stripped)
    requires forall i :: 0 <= i < |q| ==> q[i].pcb < |pcbs|
    ensures |r.pcbs| == |pcbs|
  {
    if q == [] then Stripped([], pcbs)
    else
      var p := q[0].pcb;
      var rest := Strip(q[1..], pcbs[p := StripPcb(pcbs[p], q[0], service)], service);
      var x := StripPacket(q[0], service);
      rest.(queue := (if x.Empty() then [] else [x]) + rest.queue)
  }

  // ---- The service task at work ----

  function AfterSending(s: State, x: Packet): State
    requires x.pcb < |s.pcbs|
  {
    s.(log := s.log + [Sent(x.pcb, s.pcbs[x.pcb].state, x, s.now)])
  }

  // The same packet goes back into the list and its interface advances.
  function Resend(s: State, x: Packet, delay: nat): State
    requires x.pcb < |s.pcbs|
  {
    var c := s.pcbs[x.pcb];
    s.(queue := Insert(s.queue, x.(sendAt := s.now + delay)),
       pcbs := s.pcbs[x.pcb := c.(state := c.state.Successor())])
  }

  function AnnouncePacket(s: State, probe: Packet): Packet
  {
    Packet(s.nextId, probe.pcb, s.now + PROBE_INTERVAL, false, false, probe.services,
           if probe.Empty() then Absent else InAnswers)
  }

  // The probe is replaced by the announcement built from it.
  function FinishProbing(s: State, probe: Packet): State
    requires probe.pcb < |s.pcbs|
  {
    s.(queue := Insert(s.queue, AnnouncePacket(s, probe)),
       pcbs := s.pcbs[probe.pcb := Pcb(Announce1, s.pcbs[probe.pcb].ready, [], false, false, 0)],
       nextId := s.nextId + 1,
       log := s.log + [Announced(probe.pcb)])
  }

  // The popped head x of the list is sent and then rescheduled, replaced or freed.
  function HandlePacket(s: State, x: Packet): State
    requires x.pcb < |s.pcbs|
  {
    var sent := AfterSending(s, x);
    match s.pcbs[x.pcb].state
    case Off => s
    case Probe1 | Probe2 => Resend(sent, x, PROBE_INTERVAL)
    case Probe3 => FinishProbing(sent, x)
    case Announce1 | Announce2 => Resend(sent, x, ANNOUNCE_INTERVAL)
    case Announce3 => sent.(pcbs := s.pcbs[x.pcb := s.pcbs[x.pcb].(state := Running)])
    case _ => sent
  }

  predicate HeadMatches(q: seq<Packet>, a: Action)
  {
    q != [] && a == Tx(q[0].id) && q[0].queued
  }

  function ExecuteHand(s: State): State
    requires s.hand.Some?
    requires s.queue != [] ==> s.queue[0].pcb < |s.pcbs|
  {
    var a := s.hand.value;
    var t := s.(hand := None);
    if HeadMatches(s.queue, a) then
      HandlePacket(t.(queue := s.queue[1..]), s.queue[0].(queued := false))
    else if a.Tx? then
      t.(log := s.log + [Skipped(a.id, a.id in IdSet(s.queue))])
    else t
  }

  function RunTimer(s: State, receiveAt: Option<nat>): State
  {
    var r := TimerPass(s.queue, s.now, s.fifo, s.cap, receiveAt);
    s.(queue := r.queue, fifo := r.fifo, hand := if r.taken.Some? then r.taken else s.hand)
  }

  // ---- Steps ----

  predicate WellFormed(s: State)
  {
    forall i :: 0 <= i < |s.queue| ==> s.queue[i].pcb < |s.pcbs|
  }

  predicate ListOk(s: State, list: seq<Service>)
  {
    NoDuplicates(list) && AllIn(list, s.services)
  }

  // What the callers in the source guarantee. A timer pass during which the service task
  // receives needs that task to be waiting. Probing may be started on an interface that has
  // gone down: the handlers of conflicting records do not look.
  predicate Enabled(s: State, i: Input)
  {
    WellFormed(s) &&
    match i
    case Timer(receiveAt) => receiveAt.Some? ==> s.hand.None?
    case Receive => s.hand.None? && s.fifo != []
    case Execute => s.hand.Some?
    case PostOther => |s.fifo| < s.cap
    case Conflict(p) => p < |s.pcbs|
    case Probe(p, list, ip, _, jitter) =>
      p < |s.pcbs| && ListOk(s, list) && (list != [] || ip) && jitter < 128
    case SetHostname(jitters) => |jitters| == |s.pcbs| && forall k :: 0 <= k < |jitters| ==> jitters[k] < 128
    case RestartAll(jitters) => |jitters| == |s.pcbs| && forall k :: 0 <= k < |jitters| ==> jitters[k] < 128
    case Announce(p, list, ip, jitter) => p < |s.pcbs| && ListOk(s, list) && (list != [] || ip) && jitter < 128
    case Answer(p, list, hosts, shareStep) =>
      p < |s.pcbs| && s.hostname && s.pcbs[p].state.Rank() > Probe3.Rank() && ListOk(s, list)
      && (list != [] || !hosts.Absent?) && shareStep < 4
    case Enable(p, _, jitter) => p < |s.pcbs| && jitter < 128
    case Disable(p) => p < |s.pcbs|
    case MarkDup(p) => p < |s.pcbs|
    case AddService(x) => x !in s.services
    case _ => true
  }

  function Next(s: State, i: Input): State
    requires Enabled(s, i)
  {
    match i
    case Tick(ms) => s.(now := s.now + ms)
    case Timer(receiveAt) => RunTimer(s, receiveAt)
    case Receive => s.(hand := Some(s.fifo[0]), fifo := s.fifo[1..])
    case Execute => ExecuteHand(s)
    case PostOther => s.(fifo := s.fifo + [OtherAction])
    case SetHostname(jitters) => RestartFrom(s.(hostname := true, queue := []), 0, jitters)
    case Conflict(p) => s.(pcbs := s.pcbs[p := s.pcbs[p].(failedProbes := (s.pcbs[p].failedProbes + 1) % 0x1_0000)])
    case Probe(p, list, ip, clearOld, jitter) =>
      InitProbe(if clearOld then ClearOldProbe(s, p) else s, p, list, ip, jitter)
    case RestartAll(jitters) => RestartFrom(s.(queue := []), 0, jitters)
    case Announce(p, list, ip, jitter) => AnnouncePcb(s, p, list, ip, jitter)
    case Answer(p, list, hosts, shareStep) => WithPacket(s, AnswerPacket(s, p, list, hosts, shareStep), s.pcbs[p])
    case Enable(p, joined, jitter) => EnablePcb(s, p, joined, jitter)
    case Disable(p) => TakeDown(s, p, Off)
    case MarkDup(p) => TakeDown(s, p, Dup)
    case AddService(x) => s.(services := [x] + s.services)
    case RemoveService(x) =>
      var r := Strip(s.queue, s.pcbs, x);
      s.(queue := r.queue, pcbs := r.pcbs, services := Without(s.services, x))
  }
}
