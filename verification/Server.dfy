/** The responder as the source keeps it: control blocks updated in place, packets on the linked
    transmit list, arrays of services to probe. Every operation is proved to change the state
    exactly as the step function of the same name. */
module ResponderServer {
  import opened MdnsTypes
  import opened TxQueue
  import opened Responder
  import opened TxLists
  import opened LinkedLists
  import opened ResponderEffects

  // Every packet belongs to one of n interfaces.
  predicate AllOn(q: seq<Packet>, n: nat)
  {
    forall i :: 0 <= i < |q| ==> q[i].pcb < n
  }

  lemma AllOnInsert(q: seq<Packet>, x: Packet, n: nat)
    requires AllOn(q, n) && x.pcb < n
    ensures AllOn(Insert(q, x), n)
  {
    WellFormedInsert(q, x, n);
  }

  function Least(a: nat, b: nat): nat { if a < b then a else b }

  // The control block of an interface that starts to probe for a list of services.
  function ProbingNow(c: Pcb, list: seq<Service>, ip: bool): Pcb
  {
    c.(state := Probe1, probeServices := list, probeIp := ip, probeRunning := true)
  }

  lemma NotInStep(list: seq<Service>, j: nat, probed: seq<Service>)
    requires j < |list|
    ensures NotIn(list[..j + 1], probed) == NotIn(list[..j], probed) + if list[j] in probed then [] else [list[j]]
  {
    assert list[..j + 1][..j] == list[..j];
  }

  // The probe for a list of services, and for the host's records if so asked.
  function NewProbe(id: nat, p: nat, sendAt: nat, list: seq<Service>, ip: bool): Packet
  {
    Packet(id, p, sendAt, false, true, list, if ip then Elsewhere else Absent)
  }

  class Server {
    const txQueue: LinkedList<Packet>
    const pcbs: array<Pcb>
    const cap: nat
    var services: seq<Service>
    var hostname: bool
    var fifo: seq<Action>
    var hand: Option<Action>
    var now: nat
    var nextId: nat
    ghost var log: seq<Event>

    ghost predicate Valid()
      reads txQueue, txQueue.nodes
    {
      txQueue.Valid() && AllOn(txQueue.contents, pcbs.Length)
    }

    ghost function Now(): State
      reads this, txQueue, txQueue.nodes, pcbs
      requires txQueue.Valid()
    {
      State(now, txQueue.contents, fifo, hand, cap, pcbs[..], services, hostname, nextId, log)
    }

    constructor (interfaces: nat, cap: nat)
      ensures Valid() && fresh(txQueue) && fresh(pcbs) && txQueue.nodes == {}
      ensures Now() == State(0, [], [], None, cap, seq(interfaces, _ => Pcb(Off, false, [], false, false, 0)), [],
        false, 0, [])
    {
      txQueue := new LinkedList<Packet>();
      pcbs := new Pcb[interfaces](_ => Pcb(Off, false, [], false, false, 0));
      this.cap := cap;
      services, hostname := [], false;
      fifo, hand := [], None;
      now, nextId, log := 0, 0, [];
    }

    // ---- Lists of services to probe ----

    // The services of the list that are not probed yet, in a buffer as long as the list.
    method NewProbes(probed: seq<Service>, list: seq<Service>) returns (buffer: array<Service>, n: nat)
      ensures fresh(buffer) && n <= buffer.Length == |list| && buffer[..n] == NotIn(list, probed)
    {
      buffer := new Service[|list|];
      n := 0;
      var j := 0;
      while j < |list|
        invariant 0 <= j <= |list| && n <= j && buffer[..n] == NotIn(list[..j], probed)
      {
        n := Collect(probed, list[j], buffer, n);
        NotInStep(list, j, probed);
        j := j + 1;
      }
      assert list[..j] == list;
    }

    method Collect(probed: seq<Service>, x: Service, buffer: array<Service>, n: nat) returns (n': nat)
      requires n < buffer.Length
      modifies buffer
      ensures n <= n' <= n + 1 && buffer[..n'] == old(buffer[..n]) + if x in probed then [] else [x]
    {
      var found := Contains(probed, x);
      n' := n;
      if !found {
        buffer[n] := x;
        n' := n + 1;
      }
    }

    method Contains(s: seq<Service>, x: Service) returns (found: bool)
      ensures found <==> x in s
    {
      found := false;
      var i := 0;
      while i < |s|
        invariant 0 <= i <= |s| && !found && x !in s[..i]
      {
        if s[i] == x {
          found := true;
          break;
        }
        i := i + 1;
      }
    }

    // The list to probe from now on, filled into an array of the length the source allocates, and
    // whether the source would have copied beyond its end.
    method FillProbes(c: Pcb, added: seq<Service>) returns (a: array<Service>, overrun: bool)
      ensures fresh(a) && a.Length == MergedLen(c, added) && a[..] == Merged(c, added)[..MergedLen(c, added)]
      ensures overrun <==> !c.state.ProbingMacro() && c.probeServices != []
    {
      var final := |added|;
      if c.state.ProbingMacro() {
        final := final + |c.probeServices|;
      }
      a := new Service[final];
      var i := 0;
      while i < |added|
        invariant 0 <= i <= |added| && a[..i] == added[..i]
      {
        a[i] := added[i];
        i := i + 1;
      }
      i := 0;
      overrun := false;
      while i < |c.probeServices|
        invariant 0 <= i <= |c.probeServices| && (overrun <==> |added| + i > final)
        invariant a[..Least(|added| + i, final)] == (added + c.probeServices)[..Least(|added| + i, final)]
      {
        if |added| + i < final {
          a[|added| + i] := c.probeServices[i];
        } else {
          overrun := true;
        }
        i := i + 1;
      }
      assert a[..] == a[..final];
    }

    // ---- Starting to probe ----

    // A new packet, due in the given number of milliseconds.
    method Post(packet: Packet, after: nat)
      requires Valid() && packet.pcb < pcbs.Length
      modifies txQueue, txQueue.nodes
      ensures Valid() && fresh(txQueue.nodes - old(txQueue.nodes))
      ensures txQueue.contents == Insert(old(txQueue.contents), packet.(sendAt := now + after))
    {
      var x := new Node<Packet>(packet);
      Reschedule(x, after);
    }

    method CountPacket()
      requires Valid()
      modifies this`nextId
      ensures Valid() && nextId == old(nextId) + 1
    {
      nextId := nextId + 1;
    }

    method Record(e: Event)
      requires Valid()
      modifies this`log
      ensures Valid() && log == old(log) + [e]
    {
      log := log + [e];
    }

    // Probing (re)starts on an interface whose packets have been cleared.
    method InitPcbProbeNewService(p: nat, added: seq<Service>, probeIp: bool, jitter: nat) returns (overrun: bool)
      requires Valid() && p < pcbs.Length
      modifies this`nextId, this`log, txQueue, txQueue.nodes, pcbs
      ensures Valid() && fresh(txQueue.nodes - old(txQueue.nodes))
      ensures Now() == StartProbe(old(Now()), p, added, probeIp, jitter)
      ensures var c := old(pcbs[p]);
        overrun <==> !c.state.ProbingMacro() && c.probeServices != []
    {
      ghost var s, c := Now(), pcbs[p];
      assert s.pcbs[p] == c;
      var list, delay, ip;
      list, delay, ip, overrun := PrepareProbe(p, added, probeIp, jitter);
      ghost var prepared := Now();
      PostProbe(p, list, ip, delay);
      StartedIs(s, p, c, added, probeIp, jitter, list, delay, ip, prepared, Now());
    }

    // The interface's side of it: what to probe for, and when.
    method PrepareProbe(p: nat, added: seq<Service>, probeIp: bool, jitter: nat)
      returns (list: seq<Service>, delay: nat, ip: bool, overrun: bool)
      requires Valid() && p < pcbs.Length
      modifies pcbs
      ensures Valid()
      ensures var c := old(pcbs[p]);
        && list == Merged(c, added)[..MergedLen(c, added)] && delay == ProbeDelay(c, jitter)
        && ip == (c.probeIp || probeIp)
        && Now() == old(Now()).(pcbs := old(pcbs[..])[p := ProbingNow(c, list, ip)])
        && (overrun <==> !c.state.ProbingMacro() && c.probeServices != [])
    {
      list, overrun := MergeProbes(pcbs[p], added);
      delay := (if pcbs[p].failedProbes > 5 then 1000 else 120) + jitter;
      ip := RecordProbe(p, list, probeIp);
    }

    method PostProbe(p: nat, list: seq<Service>, ip: bool, delay: nat)
      requires Valid() && p < pcbs.Length
      modifies this`nextId, this`log, txQueue, txQueue.nodes
      ensures Valid() && fresh(txQueue.nodes - old(txQueue.nodes))
      ensures var s := old(Now());
        Now() == Posted(s, NewProbe(s.nextId, p, s.now + delay, list, ip), Restarted(p))
    {
      PostNew(NewProbe(nextId, p, 0, list, ip), delay, Restarted(p));
    }

    // A new packet, on record with the event it belongs to.
    method PostNew(packet: Packet, after: nat, e: Event)
      requires Valid() && packet.pcb < pcbs.Length
      modifies this`nextId, this`log, txQueue, txQueue.nodes
      ensures Valid() && fresh(txQueue.nodes - old(txQueue.nodes))
      ensures txQueue.contents == Insert(old(txQueue.contents), packet.(sendAt := now + after))
      ensures nextId == old(nextId) + 1 && log == old(log) + [e]
    {
      CountPacket();
      Record(e);
      Post(packet, after);
    }

    method MergeProbes(c: Pcb, added: seq<Service>) returns (list: seq<Service>, overrun: bool)
      ensures list == Merged(c, added)[..MergedLen(c, added)]
      ensures overrun <==> !c.state.ProbingMacro() && c.probeServices != []
    {
      var a;
      a, overrun := FillProbes(c, added);
      list := a[..];
    }

    // What the interface now probes for replaces what it probed for before.
    method RecordProbe(p: nat, list: seq<Service>, probeIp: bool) returns (ip: bool)
      requires p < pcbs.Length
      modifies pcbs
      ensures ip == (old(pcbs[p]).probeIp || probeIp)
      ensures pcbs[..] == old(pcbs[..])[p := ProbingNow(old(pcbs[p]), list, ip)]
    {
      ip := pcbs[p].probeIp || probeIp;
      pcbs[p] := pcbs[p].(probeIp := false, probeServices := [], probeRunning := false);
      pcbs[p] := pcbs[p].(probeIp := ip, probeServices := list, probeRunning := true);
      pcbs[p] := pcbs[p].(state := Probe1);
    }

    // The services of the list to start probing for.
    method ToProbe(c: Pcb, list: seq<Service>) returns (added: seq<Service>)
      ensures added == Added(c, list)
    {
      added := list;
      if c.state.ProbingMacro() {
        var buffer, n := NewProbes(c.probeServices, list);
        added := buffer[..n];
      }
    }

    method ClearInterface(p: nat)
      requires Valid()
      modifies txQueue, txQueue.nodes
      ensures Valid() && txQueue.nodes == old(txQueue.nodes)
      ensures txQueue.contents == ClearPcb(old(txQueue.contents), p)
    {
      WellFormedClear(txQueue.contents, p, pcbs.Length);
      TxLists.ClearInterface(txQueue, p);
    }

    // Probing starts on an interface; tells whether the merge copied beyond its allocation.
    method InitPcbProbe(p: nat, list: seq<Service>, ip: bool, jitter: nat) returns (overrun: bool)
      requires Valid() && p < pcbs.Length
      modifies this`nextId, this`log, txQueue, txQueue.nodes, pcbs
      ensures Valid() && fresh(txQueue.nodes - old(txQueue.nodes))
      ensures Now() == InitProbe(old(Now()), p, list, ip, jitter)
      ensures var c := old(pcbs[p]);
        overrun <==> hostname && !c.state.ProbingMacro() && c.probeServices != []
    {
      ghost var s := Now();
      ClearInterface(p);
      if !hostname {
        SetState(p, Running);
        overrun := false;
      } else {
        var added := ToProbe(pcbs[p], list);
        overrun := InitPcbProbeNewService(p, added, ip, jitter);
        ClearedFirst(s, p, list, ip, jitter);
      }
    }

    // ---- All interfaces, interfaces coming up and going down ----

    method RestartAll(jitters: seq<nat>)
      requires Valid() && |jitters| == pcbs.Length
      modifies this`nextId, this`log, txQueue, txQueue.nodes, pcbs
      ensures Valid() && fresh(txQueue.nodes - old(txQueue.nodes))
      ensures Now() == RestartFrom(old(Now()).(queue := []), 0, jitters)
    {
      txQueue.ClearAll();
      ghost var s := Now();
      var k := 0;
      while k < pcbs.Length
        invariant 0 <= k <= pcbs.Length && Valid() && fresh(txQueue.nodes - old(txQueue.nodes))
        invariant RestartFrom(Now(), k, jitters) == RestartFrom(s, 0, jitters)
      {
        if pcbs[k].ready {
          RestartOne(k, jitters[k]);
        }
        k := k + 1;
      }
    }

    // A host name is set, or changed: everything is probed anew.
    method SetHostname(jitters: seq<nat>)
      requires Valid() && |jitters| == pcbs.Length
      modifies this`hostname, this`nextId, this`log, txQueue, txQueue.nodes, pcbs
      ensures Valid() && fresh(txQueue.nodes - old(txQueue.nodes))
      ensures Now() == RestartFrom(old(Now()).(hostname := true, queue := []), 0, jitters)
    {
      hostname := true;
      RestartAll(jitters);
    }

    method RestartOne(k: nat, jitter: nat)
      requires Valid() && k < pcbs.Length
      modifies this`nextId, this`log, txQueue, txQueue.nodes, pcbs
      ensures Valid() && fresh(txQueue.nodes - old(txQueue.nodes))
      ensures Now() == InitProbe(ClearOldProbe(old(Now()), k), k, services, true, jitter)
    {
      pcbs[k] := pcbs[k].(probeServices := [], probeRunning := false);
      var _ := InitPcbProbe(k, services, true, jitter);
    }

    method EnableInterface(p: nat, joined: bool, jitter: nat)
      requires Valid() && p < pcbs.Length
      modifies this`nextId, this`log, txQueue, txQueue.nodes, pcbs
      ensures Valid() && fresh(txQueue.nodes - old(txQueue.nodes))
      ensures Now() == EnablePcb(old(Now()), p, joined, jitter)
    {
      if !pcbs[p].ready && !joined {
        pcbs[p] := pcbs[p].(failedProbes := 0);
      } else {
        pcbs[p] := pcbs[p].(ready := true);
        var _ := InitPcbProbe(p, services, true, jitter);
      }
    }

    method TakeInterfaceDown(p: nat, final: PcbState)
      requires Valid() && p < pcbs.Length
      modifies txQueue, txQueue.nodes, pcbs
      ensures Valid() && txQueue.nodes == old(txQueue.nodes)
      ensures Now() == TakeDown(old(Now()), p, final)
    {
      if pcbs[p].ready {
        ClearInterface(p);
        pcbs[p] := Pcb(Off, false, [], false, false, 0);
      }
      pcbs[p] := pcbs[p].(state := final);
    }

    // ---- Announcing and answering ----

    method AnnounceInterface(p: nat, list: seq<Service>, ip: bool, jitter: nat)
      requires Valid() && p < pcbs.Length
      modifies this`nextId, this`log, txQueue, txQueue.nodes, pcbs
      ensures Valid() && fresh(txQueue.nodes - old(txQueue.nodes))
      ensures Now() == AnnouncePcb(old(Now()), p, list, ip, jitter)
    {
      if pcbs[p].ready {
        if pcbs[p].state.ProbingMacro() {
          var _ := InitPcbProbe(p, list, ip, jitter);
        } else if pcbs[p].state.AnnouncingMacro() {
          ghost var s := Now();
          AnnounceMore(p, list, ip);
          EnrichedIs(s, p, list, ip, jitter, Now());
        } else if pcbs[p].state.Running? && hostname {
          ghost var s := Now();
          AnnounceFirst(p, list, ip);
          FirstAnnouncedIs(s, p, list, ip, jitter, Now());
        }
      }
    }

    method AnnounceFirst(p: nat, list: seq<Service>, ip: bool)
      requires Valid() && p < pcbs.Length
      modifies this`nextId, txQueue, txQueue.nodes, pcbs
      ensures Valid() && fresh(txQueue.nodes - old(txQueue.nodes))
      ensures txQueue.contents == Insert(old(txQueue.contents),
        Packet(old(nextId), p, now, false, false, list, if ip then Elsewhere else Absent))
      ensures pcbs[..] == old(pcbs[..])[p := old(pcbs[p]).(state := Announce1)] && nextId == old(nextId) + 1
    {
      SetState(p, Announce1);
      PostAnswer(Packet(nextId, p, 0, false, false, list, if ip then Elsewhere else Absent), 0);
    }

    method SetState(p: nat, state: PcbState)
      requires p < pcbs.Length
      modifies pcbs
      ensures pcbs[..] == old(pcbs[..])[p := old(pcbs[p]).(state := state)]
    {
      pcbs[p] := pcbs[p].(state := state);
    }

    // More records join the interface's next packet.
    method AnnounceMore(p: nat, list: seq<Service>, ip: bool)
      requires Valid() && p < pcbs.Length
      modifies txQueue`contents, txQueue.nodes, pcbs
      ensures Valid()
      ensures var q := old(txQueue.contents);
              var k := FirstOf(q, p);
        if k < |q| then
          txQueue.contents == q[k := Enrich(q[k], list, ip)]
            && pcbs[..] == old(pcbs[..])[p := old(pcbs[p]).(state := Announce1)]
        else txQueue.contents == q && pcbs[..] == old(pcbs[..])
    {
      var x, k := TxLists.First(txQueue, p);
      if x != null {
        AddRecords(x, k, list, ip);
        pcbs[p] := pcbs[p].(state := Announce1);
      }
    }

    method AddRecords(x: Node<Packet>, ghost k: nat, list: seq<Service>, ip: bool)
      requires Valid() && k < |txQueue.spine| && x == txQueue.spine[k]
      modifies txQueue`contents, x`item
      ensures Valid()
      ensures txQueue.contents == old(txQueue.contents)[k := Enrich(old(txQueue.contents)[k], list, ip)]
    {
      var more := NotIn(list, x.item.services);
      var hosts := if ip then InAnswers else x.item.hosts;
      txQueue.SetItem(x, x.item.(services := x.item.services + more, hosts := hosts), k);
    }

    method ScheduleAnswer(p: nat, list: seq<Service>, hosts: HostRecords, shareStep: nat)
      requires Valid() && p < pcbs.Length
      modifies this`nextId, txQueue, txQueue.nodes
      ensures Valid() && fresh(txQueue.nodes - old(txQueue.nodes))
      ensures Now() == WithPacket(old(Now()), AnswerPacket(old(Now()), p, list, hosts, shareStep), pcbs[p])
    {
      ghost var s := Now();
      ghost var x := AnswerPacket(s, p, list, hosts, shareStep);
      var packet := Packet(nextId, p, 0, false, false, list, hosts);
      var after := 25 + shareStep * 25;
      assert packet.(sendAt := now + after) == x;
      PostAnswer(packet, after);
      assert txQueue.contents == Insert(s.queue, x) && pcbs[..] == s.pcbs && nextId == s.nextId + 1;
      WithPacketIs(s, x, Now());
    }

    method PostAnswer(packet: Packet, after: nat)
      requires Valid() && packet.pcb < pcbs.Length
      modifies this`nextId, txQueue, txQueue.nodes
      ensures Valid() && fresh(txQueue.nodes - old(txQueue.nodes)) && nextId == old(nextId) + 1
      ensures txQueue.contents == Insert(old(txQueue.contents), packet.(sendAt := now + after))
    {
      CountPacket();
      Post(packet, after);
    }

    // ---- A service going away ----

    // No service is probed twice on one interface.
    ghost predicate ProbesDistinct()
      reads pcbs
    {
      forall p :: 0 <= p < pcbs.Length ==> NoDuplicates(pcbs[p].probeServices)
    }

    method RemoveService(service: Service)
      requires Valid() && ProbesDistinct()
      modifies this`services, txQueue`head, txQueue`spine, txQueue`contents, txQueue.nodes, pcbs
      ensures Valid() && Now() == Next(old(Now()), Input.RemoveService(service))
    {
      ghost var s := Now();
      StripAll(service);
      services := Without(services, service);
      RemoveIs(s, service, Now());
    }

    method StripAll(service: Service)
      requires Valid() && ProbesDistinct()
      modifies txQueue`head, txQueue`spine, txQueue`contents, txQueue.nodes, pcbs
      ensures Valid() && Stripped(txQueue.contents, pcbs[..]) == Strip(old(txQueue.contents), old(pcbs[..]), service)
    {
      var q := txQueue.head;
      ghost var left := txQueue.contents;
      ghost var done: seq<Packet> := [];
      ghost var goal := Strip(left, pcbs[..], service);
      StripStart(left, pcbs[..], service);
      while q != null
        invariant Valid() && ProbesDistinct() && q == At(txQueue.spine, |done|)
        invariant txQueue.contents == done + left
        invariant StripRest(done, left, pcbs[..], service, goal)
        decreases |left|
      {
        q, done, left := StripNode(q, done, left, service, goal);
      }
    }

    // One packet loses the service's records; it is unlinked when nothing is left of it.
    method StripNode(x: Node<Packet>, ghost done: seq<Packet>, ghost left: seq<Packet>, service: Service,
        ghost goal: Stripped)
      returns (next: Node?<Packet>, ghost done': seq<Packet>, ghost left': seq<Packet>)
      requires Valid() && ProbesDistinct() && txQueue.contents == done + left && x == At(txQueue.spine, |done|)
      requires StripRest(done, left, pcbs[..], service, goal)
      modifies txQueue`head, txQueue`spine, txQueue`contents, txQueue.nodes, pcbs
      ensures Valid() && ProbesDistinct() && next == At(txQueue.spine, |done'|)
      ensures txQueue.contents == done' + left' && |left'| < |left|
      ensures StripRest(done', left', pcbs[..], service, goal)
    {
      assert txQueue.contents[|done|] == left[0] == x.item;
      StripStep(done, left, pcbs[..], service, goal);
      StripInterface(x.item, service);
      var stripped := StripPacket(x.item, service);
      next := StripRecords(x, done, left, stripped);
      done' := if stripped.Empty() then done else done + [stripped];
      left' := left[1..];
    }

    method StripRecords(x: Node<Packet>, ghost done: seq<Packet>, ghost left: seq<Packet>, stripped: Packet)
      returns (next: Node?<Packet>)
      requires Valid() && txQueue.contents == done + left && x == At(txQueue.spine, |done|)
      requires stripped.pcb == x.item.pcb
      modifies txQueue`head, txQueue`spine, txQueue`contents, txQueue.nodes
      ensures Valid()
      ensures var done' := if stripped.Empty() then done else done + [stripped];
        left != [] && txQueue.contents == done' + left[1..] && next == At(txQueue.spine, |done'|)
    {
      ghost var k := |done|;
      assert |txQueue.contents| == |txQueue.spine| && txQueue.contents[k] == x.item;
      StripAt(done, left, stripped, pcbs.Length);
      next := ReplaceOrDetach(txQueue, x, stripped, k);
    }

    // The removal as seen by the interface of one listed packet.
    method StripInterface(x: Packet, service: Service)
      requires x.pcb < pcbs.Length && ProbesDistinct()
      modifies pcbs
      ensures ProbesDistinct() && pcbs[..] == old(pcbs[..])[x.pcb := StripPcb(old(pcbs[x.pcb]), x, service)]
    {
      var c := pcbs[x.pcb];
      if c.ready {
        if c.state.ProbingMacro() {
          DropProbe(x.pcb, service);
        } else if c.state.AnnouncingMacro() {
          if x.HasAnswers() && !StripPacket(x, service).HasAnswers() {
            pcbs[x.pcb] := c.(state := Running);
          }
        }
      }
    }

    method DropProbe(p: nat, service: Service)
      requires p < pcbs.Length && ProbesDistinct() && pcbs[p].ready && pcbs[p].state.ProbingMacro()
      modifies pcbs
      ensures ProbesDistinct()
      ensures forall x: Packet :: x.pcb == p ==> pcbs[..] == old(pcbs[..])[p := StripPcb(old(pcbs[p]), x, service)]
    {
      var list := pcbs[p].probeServices;
      var i := 0;
      while i < |list| && list[i] != service
        invariant 0 <= i <= |list| && service !in list[..i]
      {
        i := i + 1;
      }
      if i < |list| {
        WithoutAt(list, i);
        if |list| > 1 {
          pcbs[p] := pcbs[p].(probeServices := list[..i] + list[i + 1..]);
        } else {
          pcbs[p] := pcbs[p].(probeServices := []);
          if !pcbs[p].probeIp {
            pcbs[p] := pcbs[p].(probeRunning := false, state := Running);
          }
        }
      } else {
        assert list[..i] == list;
      }
    }

    // ---- The two tasks ----

    method TimerRun(receiveAt: Option<nat>)
      requires Valid()
      modifies this`fifo, this`hand, txQueue`contents, txQueue.nodes
      ensures Valid() && Now() == RunTimer(old(Now()), receiveAt)
    {
      ghost var s := Now();
      var taken := MarkPackets(receiveAt);
      if taken.Some? {
        hand := taken;
      }
      TimerIs(s, receiveAt, taken, Now());
    }

    method MarkPackets(receiveAt: Option<nat>) returns (taken: Option<Action>)
      requires Valid()
      modifies this`fifo, txQueue`contents, txQueue.nodes
      ensures Valid()
      ensures PassResult(txQueue.contents, fifo, taken)
        == TimerPass(old(txQueue.contents), now, old(fifo), cap, receiveAt)
    {
      TimerPassOnlyMarks(txQueue.contents, now, fifo, cap, receiveAt);
      fifo, taken := MarkDue(txQueue, now, fifo, cap, receiveAt);
    }

    method ReceiveAction()
      requires Valid() && hand.None? && fifo != []
      modifies this`fifo, this`hand
      ensures Valid() && Now() == Next(old(Now()), Receive)
    {
      hand, fifo := Some(fifo[0]), fifo[1..];
    }

    method ExecuteAction()
      requires Valid() && hand.Some?
      modifies this`hand, this`nextId, this`log, txQueue, txQueue.nodes, pcbs
      ensures Valid() && fresh(txQueue.nodes - old(txQueue.nodes))
      ensures Now() == ExecuteHand(old(Now()))
    {
      var a := hand.value;
      hand := None;
      if txQueue.head != null && a == Tx(txQueue.head.item.id) && txQueue.head.item.queued {
        var x := TakeHead();
        Handle(x);
      } else if a.Tx? {
        log := log + [Skipped(a.id, a.id in IdSet(txQueue.contents))];
      }
    }

    method TakeHead() returns (x: Node<Packet>)
      requires Valid() && txQueue.head != null
      modifies txQueue`head, txQueue`spine, txQueue`contents, txQueue.nodes
      ensures Valid() && x in txQueue.nodes && x !in txQueue.spine && x.item.pcb < pcbs.Length
      ensures old(txQueue.contents) != [] && x.item == old(txQueue.contents)[0].(queued := false)
      ensures txQueue.contents == old(txQueue.contents)[1..]
    {
      assert txQueue.contents[0] == txQueue.head.item;
      ghost var q := txQueue.contents;
      assert forall i :: 0 <= i < |q[1..]| ==> q[1..][i] == q[i + 1];
      x := txQueue.Pop();
      x.item := x.item.(queued := false);
      assert txQueue.contents == q[1..];
    }

    // A packet taken off the list is sent, then rescheduled, replaced or dropped.
    method Handle(x: Node<Packet>)
      requires Valid() && x in txQueue.nodes && x !in txQueue.spine && x.item.pcb < pcbs.Length
      modifies this`nextId, this`log, txQueue, txQueue.nodes, pcbs
      ensures Valid() && fresh(txQueue.nodes - old(txQueue.nodes))
      ensures Now() == HandlePacket(old(Now()), old(x.item))
    {
      ghost var s, packet := Now(), x.item;
      var state := pcbs[x.item.pcb].state;
      if !state.Off? {
        log := log + [Sent(x.item.pcb, state, x.item, now)];
        assert Now() == AfterSending(s, packet);
        AfterDispatch(x, state);
      }
      HandleIs(s, packet, Now());
    }

    method AfterDispatch(x: Node<Packet>, state: PcbState)
      requires Valid() && x in txQueue.nodes && x !in txQueue.spine && x.item.pcb < pcbs.Length
        && state == pcbs[x.item.pcb].state
      modifies this`nextId, this`log, txQueue, txQueue.nodes, pcbs
      ensures Valid() && fresh(txQueue.nodes - old(txQueue.nodes))
      ensures var s, packet := old(Now()), old(x.item);
        match state
        case Probe1 | Probe2 => Now() == Resend(s, packet, PROBE_INTERVAL)
        case Probe3 => Now() == FinishProbing(s, packet)
        case Announce1 | Announce2 => Now() == Resend(s, packet, ANNOUNCE_INTERVAL)
        case Announce3 => Now() == s.(pcbs := s.pcbs[packet.pcb := s.pcbs[packet.pcb].(state := Running)])
        case _ => Now() == s
    {
      match state {
        case Probe1 | Probe2 => SendAgain(x, 250);
        case Probe3 => StartAnnouncing(x);
        case Announce1 | Announce2 => SendAgain(x, 1000);
        case Announce3 => pcbs[x.item.pcb] := pcbs[x.item.pcb].(state := Running);
        case _ =>
      }
    }

    method SendAgain(x: Node<Packet>, after: nat)
      requires Valid() && x in txQueue.nodes && x !in txQueue.spine && x.item.pcb < pcbs.Length
      modifies txQueue, txQueue.nodes, pcbs
      ensures Valid() && txQueue.nodes == old(txQueue.nodes)
      ensures Now() == Resend(old(Now()), old(x.item), after)
    {
      ghost var s, packet := Now(), x.item;
      PutBack(x, after);
      assert txQueue.contents == Insert(s.queue, packet.(sendAt := s.now + after));
      ResendIs(s, packet, after, Now());
    }

    method PutBack(x: Node<Packet>, after: nat)
      requires Valid() && x in txQueue.nodes && x !in txQueue.spine && x.item.pcb < pcbs.Length
      modifies txQueue, txQueue.nodes, pcbs
      ensures Valid() && txQueue.nodes == old(txQueue.nodes)
      ensures txQueue.contents == Insert(old(txQueue.contents), old(x.item).(sendAt := now + after))
      ensures var p := old(x.item).pcb;
        pcbs[..] == old(pcbs[..])[p := old(pcbs[p]).(state := old(pcbs[p]).state.Successor())]
    {
      Advance(x.item.pcb);
      Reschedule(x, after);
    }

    method Advance(p: nat)
      requires p < pcbs.Length
      modifies pcbs
      ensures pcbs[..] == old(pcbs[..])[p := old(pcbs[p]).(state := old(pcbs[p]).state.Successor())]
    {
      pcbs[p] := pcbs[p].(state := pcbs[p].state.Successor());
    }

    method Reschedule(x: Node<Packet>, after: nat)
      requires Valid() && x !in txQueue.spine && x.item.pcb < pcbs.Length
      modifies txQueue, txQueue.nodes, x
      ensures Valid() && txQueue.nodes == old(txQueue.nodes) + {x} && x.item.pcb == old(x.item).pcb
      ensures txQueue.contents == Insert(old(txQueue.contents), old(x.item).(sendAt := now + after))
    {
      ghost var q, y := txQueue.contents, x.item.(sendAt := now + after);
      AllOnInsert(q, y, pcbs.Length);
      Schedule(txQueue, x, now, after);
      assert txQueue.contents == Insert(q, y) && x.item == y;
    }

    // The probe is dropped, and the announcement built from it takes its place.
    method StartAnnouncing(x: Node<Packet>)
      requires Valid() && x in txQueue.nodes && x !in txQueue.spine && x.item.pcb < pcbs.Length
      modifies this`nextId, this`log, txQueue, txQueue.nodes, pcbs
      ensures Valid() && fresh(txQueue.nodes - old(txQueue.nodes))
      ensures Now() == FinishProbing(old(Now()), old(x.item))
    {
      ghost var s, probe := Now(), x.item;
      AnnounceProbed(x.item);
      FinishIs(s, probe, Now());
    }

    method AnnounceProbed(probe: Packet)
      requires Valid() && probe.pcb < pcbs.Length
      modifies this`nextId, this`log, txQueue, txQueue.nodes, pcbs
      ensures Valid() && fresh(txQueue.nodes - old(txQueue.nodes))
      ensures txQueue.contents == Insert(old(txQueue.contents), AnnouncePacket(old(Now()), probe))
      ensures pcbs[..] == old(pcbs[..])[probe.pcb := Pcb(Announce1, old(pcbs[probe.pcb]).ready, [], false, false, 0)]
        && nextId == old(nextId) + 1 && log == old(log) + [Announced(probe.pcb)]
    {
      ForgetProbe(probe.pcb);
      PostAnnouncement(probe);
    }

    method PostAnnouncement(probe: Packet)
      requires Valid() && probe.pcb < pcbs.Length
      modifies this`nextId, this`log, txQueue, txQueue.nodes
      ensures Valid() && fresh(txQueue.nodes - old(txQueue.nodes))
      ensures txQueue.contents == Insert(old(txQueue.contents), AnnouncePacket(old(Now()), probe))
      ensures nextId == old(nextId) + 1 && log == old(log) + [Announced(probe.pcb)]
    {
      var hosts := if probe.Empty() then Absent else InAnswers;
      var packet := Packet(nextId, probe.pcb, 0, false, false, probe.services, hosts);
      assert packet.(sendAt := now + 250) == AnnouncePacket(Now(), probe);
      PostNew(packet, 250, Announced(probe.pcb));
    }

    method ForgetProbe(p: nat)
      requires p < pcbs.Length
      modifies pcbs
      ensures pcbs[..] == old(pcbs[..])[p := Pcb(Announce1, old(pcbs[p]).ready, [], false, false, 0)]
    {
      pcbs[p] := pcbs[p].(probeRunning := false, probeIp := false, probeServices := [], failedProbes := 0);
      pcbs[p] := pcbs[p].(state := Announce1);
    }
  }

  // The step functions, put together from the fields they change.
  lemma ResendIs(s: State, x: Packet, after: nat, t: State)
    requires x.pcb < |s.pcbs| && t == s.(queue := t.queue, pcbs := t.pcbs)
    requires t.queue == Insert(s.queue, x.(sendAt := s.now + after))
    requires t.pcbs == s.pcbs[x.pcb := s.pcbs[x.pcb].(state := s.pcbs[x.pcb].state.Successor())]
    ensures t == Resend(s, x, after)
  {
  }

  lemma FinishIs(s: State, probe: Packet, t: State)
    requires probe.pcb < |s.pcbs|
      && t == s.(queue := t.queue, pcbs := t.pcbs, nextId := s.nextId + 1, log := s.log + [Announced(probe.pcb)])
    requires t.queue == Insert(s.queue, AnnouncePacket(s, probe))
    requires t.pcbs == s.pcbs[probe.pcb := Pcb(Announce1, s.pcbs[probe.pcb].ready, [], false, false, 0)]
    ensures t == FinishProbing(s, probe)
  {
  }

  lemma TimerIs(s: State, receiveAt: Option<nat>, taken: Option<Action>, t: State)
    requires PassResult(t.queue, t.fifo, taken) == TimerPass(s.queue, s.now, s.fifo, s.cap, receiveAt)
    requires t == s.(queue := t.queue, fifo := t.fifo, hand := if taken.Some? then taken else s.hand)
    ensures t == RunTimer(s, receiveAt)
  {
  }

  lemma WithPacketIs(s: State, x: Packet, t: State)
    requires x.pcb < |s.pcbs| && t == s.(queue := t.queue, nextId := s.nextId + 1)
    requires t.queue == Insert(s.queue, x)
    ensures t == WithPacket(s, x, s.pcbs[x.pcb])
  {
    assert s.pcbs[x.pcb := s.pcbs[x.pcb]] == s.pcbs;
  }

  lemma EnrichedIs(s: State, p: nat, list: seq<Service>, ip: bool, jitter: nat, t: State)
    requires p < |s.pcbs| && s.pcbs[p].ready && s.pcbs[p].state.AnnouncingMacro()
    requires t == s.(queue := t.queue, pcbs := t.pcbs)
    requires var k := FirstOf(s.queue, p);
      if k < |s.queue| then
        t.queue == s.queue[k := Enrich(s.queue[k], list, ip)]
          && t.pcbs == s.pcbs[p := s.pcbs[p].(state := Announce1)]
      else t.queue == s.queue && t.pcbs == s.pcbs
    ensures t == AnnouncePcb(s, p, list, ip, jitter)
  {
  }

  lemma FirstAnnouncedIs(s: State, p: nat, list: seq<Service>, ip: bool, jitter: nat, t: State)
    requires p < |s.pcbs| && s.pcbs[p].ready && s.pcbs[p].state.Running? && s.hostname
    requires t == s.(queue := t.queue, pcbs := t.pcbs, nextId := s.nextId + 1)
    requires t.queue
          == Insert(s.queue, Packet(s.nextId, p, s.now, false, false, list, if ip then Elsewhere else Absent))
    requires t.pcbs == s.pcbs[p := s.pcbs[p].(state := Announce1)]
    ensures t == AnnouncePcb(s, p, list, ip, jitter)
  {
  }

  lemma RemoveIs(s: State, service: Service, t: State)
    requires WellFormed(s) && t == s.(queue := t.queue, pcbs := t.pcbs, services := Without(s.services, service))
    requires Stripped(t.queue, t.pcbs) == Strip(s.queue, s.pcbs, service)
    ensures t == Next(s, RemoveService(service))
  {
  }

  lemma HandleIs(s: State, x: Packet, t: State)
    requires x.pcb < |s.pcbs|
    requires var sent := AfterSending(s, x);
      match s.pcbs[x.pcb].state
      case Off => t == s
      case Probe1 | Probe2 => t == Resend(sent, x, PROBE_INTERVAL)
      case Probe3 => t == FinishProbing(sent, x)
      case Announce1 | Announce2 => t == Resend(sent, x, ANNOUNCE_INTERVAL)
      case Announce3 => t == sent.(pcbs := s.pcbs[x.pcb := s.pcbs[x.pcb].(state := Running)])
      case _ => t == sent
    ensures t == HandlePacket(s, x)
  {
  }

  // Probing started for more services, on an interface without packets.
  function StartProbe(s: State, p: nat, added: seq<Service>, ip: bool, jitter: nat): State
    requires p < |s.pcbs|
  {
    var c := s.pcbs[p];
    var list := Merged(c, added)[..MergedLen(c, added)];
    s.(queue := Insert(s.queue, NewProbe(s.nextId, p, s.now + ProbeDelay(c, jitter), list, c.probeIp || ip)),
       pcbs := s.pcbs[p := ProbingNow(c, list, c.probeIp || ip)],
       nextId := s.nextId + 1, log := s.log + [Restarted(p)])
  }

  // A new packet is listed, on record with the event it belongs to.
  function Posted(s: State, x: Packet, e: Event): State
  {
    s.(queue := Insert(s.queue, x), nextId := s.nextId + 1, log := s.log + [e])
  }

  lemma StartedIs(s: State, p: nat, c: Pcb, added: seq<Service>, ip: bool, jitter: nat, list: seq<Service>,
      delay: nat, both: bool, prepared: State, t: State)
    requires p < |s.pcbs| && c == s.pcbs[p] && list == Merged(c, added)[..MergedLen(c, added)]
    requires delay == ProbeDelay(c, jitter) && both == (c.probeIp || ip)
    requires prepared == s.(pcbs := s.pcbs[p := ProbingNow(c, list, both)])
    requires t == Posted(prepared, NewProbe(prepared.nextId, p, prepared.now + delay, list, both), Restarted(p))
    ensures t == StartProbe(s, p, added, ip, jitter)
  {
  }

  lemma ProbePacketIs(s: State, p: nat, list: seq<Service>, ip: bool, jitter: nat)
    requires p < |s.pcbs|
    ensures var c := s.pcbs[p];
            var added := Added(c, list);
      ProbePacket(s, p, list, ip, jitter) == NewProbe(s.nextId, p, s.now + ProbeDelay(c, jitter),
        Merged(c, added)[..MergedLen(c, added)], c.probeIp || ip)
  {
  }

  lemma ClearedFirst(s: State, p: nat, list: seq<Service>, ip: bool, jitter: nat)
    requires p < |s.pcbs| && s.hostname
    ensures InitProbe(s, p, list, ip, jitter)
         == StartProbe(s.(queue := ClearPcb(s.queue, p)), p, Added(s.pcbs[p], list), ip, jitter)
  {
    ProbePacketIs(s, p, list, ip, jitter);
  }

  // Taking out one occurrence takes out all when there are no duplicates.
  lemma {:induction false} WithoutAt(xs: seq<Service>, i: nat)
    requires i < |xs| && NoDuplicates(xs)
    ensures Without(xs, xs[i]) == xs[..i] + xs[i + 1..]
  {
    var last := |xs| - 1;
    var front := xs[..last];
    if i == last {
      assert xs[i] !in front;
      WithoutAbsent(front, xs[i]);
      assert xs[..i] + xs[i + 1..] == front;
    } else {
      WithoutAt(front, i);
      assert front[i] == xs[i];
      assert front[..i] + front[i + 1..] + [xs[last]] == xs[..i] + xs[i + 1..];
    }
  }

  // Of a removal that ends in goal, done is what has been dealt with and left what has not.
  ghost predicate StripRest(done: seq<Packet>, left: seq<Packet>, pcbs: seq<Pcb>, service: Service, goal: Stripped)
  {
    && (forall i :: 0 <= i < |left| ==> left[i].pcb < |pcbs|)
    && Stripped(done + Strip(left, pcbs, service).queue, Strip(left, pcbs, service).pcbs) == goal
  }

  lemma StripStart(left: seq<Packet>, pcbs: seq<Pcb>, service: Service)
    requires forall i :: 0 <= i < |left| ==> left[i].pcb < |pcbs|
    ensures StripRest([], left, pcbs, service, Strip(left, pcbs, service)) && [] + left == left
  {
    assert [] + Strip(left, pcbs, service).queue == Strip(left, pcbs, service).queue;
  }

  lemma StripStep(done: seq<Packet>, left: seq<Packet>, pcbs: seq<Pcb>, service: Service, goal: Stripped)
    requires left != [] && StripRest(done, left, pcbs, service, goal)
    ensures var p := left[0].pcb;
            var x := StripPacket(left[0], service);
      StripRest(if x.Empty() then done else done + [x], left[1..], pcbs[p := StripPcb(pcbs[p], left[0], service)],
                service, goal)
  {
    var p := left[0].pcb;
    var x := StripPacket(left[0], service);
    var rest := Strip(left[1..], pcbs[p := StripPcb(pcbs[p], left[0], service)], service);
    if x.Empty() {
      assert done + ([] + rest.queue) == done + rest.queue;
    } else {
      assert done + ([x] + rest.queue) == done + [x] + rest.queue;
    }
  }

  lemma StripAt(done: seq<Packet>, left: seq<Packet>, x: Packet, n: nat)
    requires left != [] && x.pcb == left[0].pcb && forall i :: 0 <= i < |done + left| ==> (done + left)[i].pcb < n
    ensures var q := done + left;
            var k := |done|;
            var r := if x.Empty() then q[..k] + q[k + 1..] else q[k := x];
      && r == (if x.Empty() then done else done + [x]) + left[1..]
      && forall i :: 0 <= i < |r| ==> r[i].pcb < n
  {
    var q := done + left;
    var k := |done|;
    assert q[k] == left[0];
    assert q[..k] == done && q[k + 1..] == left[1..];
    var cut := q[..k] + q[k + 1..];
    assert forall i :: 0 <= i < |cut| ==> cut[i] == q[if i < k then i else i + 1];
  }
}
