/** Entities of the mDNS responder: interface states, packets waiting to be sent, actions
    waiting for the service task, and the per-interface control block. */
module MdnsTypes {

  datatype Option<+T> = None | Some(value: T)

  // A registered service, identified by its list item.
  type Service = nat

  datatype PcbState =
    | Off | Dup | Init
    | Probe1 | Probe2 | Probe3
    | Announce1 | Announce2 | Announce3
    | Running
  {
    // Position in the enumeration; the source compares and increments states as numbers.
    function Rank(): (r: nat)
      ensures r <= 9
    {
      match this
      case Off => 0 case Dup => 1 case Init => 2
      case Probe1 => 3 case Probe2 => 4 case Probe3 => 5
      case Announce1 => 6 case Announce2 => 7 case Announce3 => 8
      case Running => 9
    }

    // The source's ordering macro. It also admits Dup and Init.
    predicate ProbingMacro() { Off.Rank() < Rank() < Announce1.Rank() }

    predicate AnnouncingMacro() { Probe3.Rank() < Rank() < Running.Rank() }

    predicate Probing() { Probe1? || Probe2? || Probe3? }

    function Successor(): PcbState
    {
      match this
      case Off => Dup case Dup => Init case Init => Probe1
      case Probe1 => Probe2 case Probe2 => Probe3 case Probe3 => Announce1
      case Announce1 => Announce2 case Announce2 => Announce3 case Announce3 => Running
      case Running => Running
    }
  }

  // Where a packet keeps the records that belong to no service.
  datatype HostRecords = Absent | InAnswers | Elsewhere

  datatype Packet = Packet(
    id: nat, pcb: nat, sendAt: nat, queued: bool,
    probe: bool, services: seq<Service>, hosts: HostRecords)
  {
    predicate Empty() { services == [] && hosts.Absent? }

    // A probe keeps its service records in the authority section, every other packet in the answers.
    predicate HasAnswers() { !probe && (services != [] || hosts.InAnswers?) }
  }

  // Entry of the action FIFO: "transmit this packet", or any other action.
  datatype Action = Tx(id: nat) | OtherAction

  datatype Pcb = Pcb(
    state: PcbState, ready: bool,
    probeServices: seq<Service>, probeIp: bool, probeRunning: bool, failedProbes: nat)

  predicate NoDuplicates<T(==)>(s: seq<T>)
  {
    forall i, j :: 0 <= i < j < |s| ==> s[i] != s[j]
  }

  predicate AllIn(xs: seq<Service>, ys: seq<Service>)
  {
    forall x :: x in xs ==> x in ys
  }

  // The members of xs that are not in ys, in order.
  function NotIn(xs: seq<Service>, ys: seq<Service>): (r: seq<Service>)
    ensures forall x :: x in r <==> x in xs && x !in ys
    ensures NoDuplicates(xs) ==> NoDuplicates(r)
    ensures |r| <= |xs|
  {
    if xs == [] then []
    else
      var last := |xs| - 1;
      var front := NotIn(xs[..last], ys);
      if xs[last] in ys then front else front + [xs[last]]
  }

  // xs without the service x, in order.
  function Without(xs: seq<Service>, x: Service): (r: seq<Service>)
    ensures forall y :: y in r <==> y in xs && y != x
    ensures NoDuplicates(xs) ==> NoDuplicates(r)
  {
    NotIn(xs, [x])
  }
}
