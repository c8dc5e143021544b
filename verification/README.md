# A verified model of the RayZ firmware's protocols

RayZ is a laser-tag system on ESP32 devices. This project models the parts of its firmware with the
most intricate behaviour and proves what they are for: the mDNS responder the devices use to find
each other, the WebSocket sender and client table, the game clock, and the laser link.

`dafny verify dfyconfig.toml` checks everything.

## Contents

The mDNS responder (`esp32/weapon/managed_components/espressif__mdns`):

- `MdnsTypes`, `TxQueue`, `Responder`: the responder as a step system over its two tasks. One step is
  one section run under the service lock, or the service task's receive from the action queue, which
  takes no lock; so it may fall into the middle of a timer pass.
- `ResponderEffects`: what one operation does to one interface.
- `ResponderPipeline`, `ResponderPacing`, `ResponderInterfaces`, `ResponderLists`: four invariants, each
  with the preservation by every step: list and action queue; the pace of probing; interfaces that are
  up against their packets; the lists of services to probe. All hold in every run, but for the match of
  list and action queue, which needs safe timer passes.
- `ResponderRuns`: the theorems about whole runs.
- `ResponderLate`: probing on interfaces that are down, and exactly when what goes wrong.
- `ResponderProgress`: how much an interface can still send, and that everything is sent.
- `ResponderStuck`: the one interleaving after which nothing is.
- `ResponderContents`, `ResponderServices`: what packets carry: what a new probe asks for, what its
  announcement announces, what announcing, answering and removing services do to the packets listed.
- `ResponderAnnouncing`: from probing to rest, three probes and three announcements of the same services.
- `ResponderSpacing`: how soon a packet goes out again.
- `LinkedLists`, `TxLists`, `Server`: the same operations as the source performs them, on linked
  nodes, arrays and control blocks changed in place, each proved to be the step of the same name.
- `Bytes`, `NameCodec`, `NameSpelling`, `NameRoundTrip`, `NameLimits`: domain names with compression
  pointers.
- `Records`, `RecordRoundTrip`, `TxtCodec`, `PacketIO`: records, TXT data, and the loops that write
  and read packets.
- `Collision`, `Mangle`, `Answers`: tie-breaking, renaming, answer lists.

The other cores: `WsFragment` (WebSocket client), `GameClock`, `ClientTable` (WebSocket server),
`Laser`; `Milliseconds` and `Sequences` are shared.

## Findings

Where a promised property does not hold, the model keeps the code's behaviour, with an input that shows
it, and the exact condition is proved (for the array overrun, a condition that excludes it):

- The service task receives from the action queue without holding the lock. When the queue is full
  during a timer pass and the receive falls between a failed attempt and a later successful one, marked
  packets no longer form a prefix (`PushPrefixIff`, `SafeRunIff`); a listed packet can then be skipped, and clearing
  the packet before it leaves a marked head that is never sent (`DisturbedPassSticks`, `StuckForever`).
- A name that does not fit is truncated, and the caller is told only when not even its first piece fits
  (`TruncationReportedIff`). Names of 64 characters are accepted by the API but cannot be read back
  (`ReadableIff`).
- A name can match itself, unfinished, and is then unreadable (`SurvivesIff`): a host called "local" gets
  its domain replaced by a pointer to its own first label. One called "_sub" is taken for the subtype
  marker (`HostSurvivesIff`). An instance with the name of a subtype reads as that subtype
  (`PointerReadsAlike`).
- A TXT entry without "=" makes the parser go one byte too far (`TxtSurvivesIff`). Its filling pass can
  then start more items than its counting pass counted, and write beyond the arrays sized by that count
  (`TwoPartsOverrun`); it cannot when every part but one that ends the data has an "="
  (`SeparatedNeverOverruns`).
- A record handled after its interface went down starts probing there all the same. Restarting all
  interfaces then wipes its probe but passes over the interface, and removing a service passes over its
  record, so that it waits for a probe that is not listed (`RestartLosesProbe`, `LateRemovalIff`); and
  disabling it leaves services behind, so that the next merge copies more than it allocates
  (`DisableLeavesRecord`, `LateProbeIff`, `FillProbes`). `AspectIff` says of every run exactly which
  steps do the harm.
- The game clock and the client table compare 32-bit counters; `RunRightIff`, `RightBelowWrapIff` and
  `StaleIff` say when that is right.
- The collecting cleanup drops a client that is heard from between its two passes; `TwoPassesIff` says
  exactly when the two passes are right.

## Model

| member | source | states |
|---|---|---|
| TxQueue.InsertPlace | esp32/weapon/managed_components/espressif__mdns/mdns.c:1591-1601 | the place found for a packet has only packets due no later before it and a later one behind it |
| TxQueue.InsertSorted | esp32/weapon/managed_components/espressif__mdns/mdns.c:1584-1602 | scheduling keeps the list sorted by due time and adds exactly the new packet |
| TxQueue.InsertOf | esp32/weapon/managed_components/espressif__mdns/mdns.c:1584-1602 | scheduling on one interface leaves every other interface's packets alone and adds one to its own |
| TxQueue.ClearPcbDropsExactly | esp32/weapon/managed_components/espressif__mdns/mdns.c:1623-1643 | clearing an interface drops its packets, all of them and no others |
| TxQueue.ClearPcbKeepsOthers | esp32/weapon/managed_components/espressif__mdns/mdns.c:1623-1643 | the packets of every other interface stay, in order |
| TxQueue.SubsequenceQueuedIds | esp32/weapon/managed_components/espressif__mdns/mdns.c:1623-1643 | dropping packets keeps the pending transmissions of those left in list order |
| TxQueue.PushConserves | esp32/weapon/managed_components/espressif__mdns/mdns.c:5285-5301 | a timer pass loses and invents no action: what was taken and what waits now is what waited before plus one transmission per packet marked, in list order, even when the service task receives in the middle |
| TxQueue.PushFits | esp32/weapon/managed_components/espressif__mdns/mdns.c:5289-5294 | the action queue never exceeds its capacity |
| TxQueue.PushMarksDue | esp32/weapon/managed_components/espressif__mdns/mdns.c:5285 | only packets that are due get marked |
| TxQueue.PushPrefixIff | esp32/weapon/managed_components/espressif__mdns/mdns.c:5285-5301 | the marked packets form a prefix exactly unless the service task's unlocked receive falls strictly after a failed attempt and before the last one |
| TxQueue.PostCommutes | esp32/weapon/managed_components/espressif__mdns/mdns.c:5285-5301 | an action another task posts in the middle of a pass leaves the marks and the order of transmissions of one posted before it, or of none when it did not fit |
| LinkedLists.LinkedList.Append | esp32/weapon/managed_components/espressif__mdns/private_include/mdns_private.h:138-145 | the item is added at the end of the linked list, the others stay in order |
| LinkedLists.LinkedList.Detach | esp32/weapon/managed_components/espressif__mdns/private_include/mdns_private.h:147-161 | exactly the given node leaves the linked list |
| TxLists.Schedule | esp32/weapon/managed_components/espressif__mdns/mdns.c:1584-1602 | relinking in place inserts the packet where the sequence operation does |
| TxLists.FindSlot | esp32/weapon/managed_components/espressif__mdns/mdns.c:1596-1599 | the loop stops at the last packet due no later than the new one |
| TxLists.ClearInterface | esp32/weapon/managed_components/espressif__mdns/mdns.c:1623-1643 | the two unlinking loops leave what the sequence operation leaves |
| TxLists.First | esp32/weapon/managed_components/espressif__mdns/mdns.c:1651-1661 | the first packet of an interface is found, or none when there is none |
| TxLists.FirstUnqueued | esp32/weapon/managed_components/espressif__mdns/mdns.c:5277-5280 | the loop stops right behind the leading marked packets |
| TxLists.MarkDue | esp32/weapon/managed_components/espressif__mdns/mdns.c:5271-5303 | marking in place and filling the FIFO amount to one pass of the specification, with the other task's receive at any attempt |
| ResponderEffects.InitProbeOwn | esp32/weapon/managed_components/espressif__mdns/mdns.c:2253-2344 | after probing (re)starts the interface's one listed packet is the new probe, or none when there is no host name |
| ResponderEffects.StripProjects | esp32/weapon/managed_components/espressif__mdns/mdns.c:2716-2793 | removing a service from all packets at once is, seen from each interface, its removal from that interface's packets and probe list, one packet at a time |
| ResponderEffects.HandledPcbs | esp32/weapon/managed_components/espressif__mdns/mdns.c:5025-5080 | handling a packet changes no control block but its interface's, which advances, restarts as announcing, or stays |
| ResponderPipeline.TxInsert | esp32/weapon/managed_components/espressif__mdns/mdns.c:1584-1602 | scheduling a packet that is not marked keeps list order, the marked prefix and the match with the pending actions |
| ResponderPipeline.TxDrop | esp32/weapon/managed_components/espressif__mdns/mdns.c:1607-1643 | dropping packets keeps them, so actions left behind belong to packets no longer listed |
| ResponderPipeline.LiveMeansHead | esp32/weapon/managed_components/espressif__mdns/mdns.c:5201-5212 | the next pending transmission of a listed packet is that of the marked list head |
| ResponderPipeline.ExecutePipeline | esp32/weapon/managed_components/espressif__mdns/mdns.c:5201-5212 | executing an action keeps the pipeline, and a skipped packet was no longer listed |
| ResponderPipeline.PassPrefixIff | esp32/weapon/managed_components/espressif__mdns/mdns.c:5271-5303 | for the whole pass: the prefix survives exactly when the receive, if any, falls at a safe attempt |
| ResponderPipeline.TimerPipeline | esp32/weapon/managed_components/espressif__mdns/mdns.c:5271-5303 | a timer pass keeps list order and send order, a safe one also the match with the pending actions |
| ResponderPipeline.StepKeepsSound | esp32/weapon/managed_components/espressif__mdns/mdns.c:5158-5260 | every step, disturbed or not, keeps packets on existing interfaces and marks on due packets only |
| ResponderPipeline.StepKeepsPipeline | esp32/weapon/managed_components/espressif__mdns/mdns.c:5158-5260 | every step of either task and every request keeps list order and send order; and, as long as timer passes are safe, the match with the pending actions |
| ResponderPacing.StepKeepsPaced | esp32/weapon/managed_components/espressif__mdns/mdns.c:5025-5080 | every step, disturbed or not, on interfaces up or down, keeps the account of the probes sent, for what and when |
| ResponderInterfaces.FitsIff | esp32/weapon/managed_components/espressif__mdns/mdns.c:2253-2281 | the merge copies no more than it allocates exactly when the interface is in a probing state by the source's macro or has nothing on record |
| ResponderInterfaces.MergeFillsExactly | esp32/weapon/managed_components/espressif__mdns/mdns.c:2253-2281 | and then it gives new services first, then those still probed, no duplicates, and exactly as many as were allocated |
| ResponderInterfaces.InitProbeInterface | esp32/weapon/managed_components/espressif__mdns/mdns.c:2253-2344 | probing (re)started on any interface, up or down, leaves it with exactly its one probe |
| ResponderInterfaces.RestartAllKeepsInterfaces | esp32/weapon/managed_components/espressif__mdns/mdns.c:2432-2449 | restarting every ready interface from an emptied list restores the agreement on all that are up |
| ResponderInterfaces.AnnounceKeepsInterfaces | esp32/weapon/managed_components/espressif__mdns/mdns.c:2389-2427 | announcing keeps it in each of its branches: restart, enrich, first announcement |
| ResponderInterfaces.TakeDownClears | esp32/weapon/managed_components/espressif__mdns/mdns.c:2938-2976 | an interface taken down that was up leaves no packet, no probed service and no mark behind |
| ResponderInterfaces.GoesDown | esp32/weapon/managed_components/espressif__mdns/mdns.c:2938-2976 | disabled it is then off, and marked as a duplicate it is that |
| ResponderInterfaces.TakeDownKeepsInterfaces | esp32/weapon/managed_components/espressif__mdns/mdns.c:2938-2976 | taking an interface down keeps the agreement on those that stay up |
| ResponderInterfaces.EnableKeepsInterfaces | esp32/weapon/managed_components/espressif__mdns/mdns.c:4286-4295 | an interface coming up is in agreement with its packets, whatever was left on it |
| ResponderInterfaces.RemoveServiceKeepsInterfaces | esp32/weapon/managed_components/espressif__mdns/mdns.c:2716-2793 | removing a service from packets and probe lists at once keeps them in agreement on interfaces that are up, and no emptied packet stays listed |
| ResponderInterfaces.HandleInterfaces | esp32/weapon/managed_components/espressif__mdns/mdns.c:5025-5080 | handling a packet keeps every interface that is up in agreement with its packets |
| ResponderInterfaces.StepKeepsInterfaces | esp32/weapon/managed_components/espressif__mdns/mdns.c:5158-5260 | every step, disturbed or not, wherever probing starts, keeps it |
| ResponderLate.StepAt | esp32/weapon/managed_components/espressif__mdns/mdns.c:5158-5260 | on any interface, each step keeps each aspect exactly when it finds the interface up or does it none of the listed harm |
| ResponderLate.AspectIff | esp32/weapon/managed_components/espressif__mdns/mdns.c:4022 | in every run, of all interfaces up or down: each of seven aspects (its one probe listed, the merge fits, no stray probe, silence when down, the mark, the record cleared, services on record registered) holds throughout exactly when every step spares the interfaces that are down |
| ResponderLate.RestartMergesExactly | esp32/weapon/managed_components/espressif__mdns/mdns.c:2253-2344 | in every run in which no interface that is down with services on record is disabled: merging fills the allocation exactly, new services first, without duplicates |
| ResponderLate.LateProbeIff | esp32/weapon/managed_components/espressif__mdns/mdns.c:4022 | probing started by a late record leaves its interface safe for the next merge after going down exactly when it was up |
| ResponderLate.LateRemovalIff | esp32/weapon/managed_components/espressif__mdns/mdns.c:2732-2757 | removing a service after such a start keeps the interface and its one probe in agreement exactly when it was up or did not probe for the service |
| ResponderLate.RestartLosesProbe | esp32/weapon/managed_components/espressif__mdns/mdns.c:2548-2566 | a run of three steps from a fresh responder after which an interface that never came up waits for a probe the restart wiped |
| ResponderLate.DisableLeavesRecord | esp32/weapon/managed_components/espressif__mdns/mdns.c:4022 | a run of four steps after which every merge would copy more than it allocates |
| ResponderRuns.AnnouncedAfterProbes | esp32/weapon/managed_components/espressif__mdns/mdns.c:5025-5080 | in every run whatsoever: each announcement built from a probe follows three probes since probing last began there, each more than 250 ms after the one before and for no service that one was not for (section 8.1 of RFC 6762) |
| ResponderRuns.SendOrder | esp32/weapon/managed_components/espressif__mdns/mdns.c:1584-1602 | in every run whatsoever: the list is sorted and due times of sent packets never decrease |
| ResponderRuns.SafeRunIff | esp32/weapon/managed_components/espressif__mdns/mdns.c:5271-5303 | in every run: the marked packets stay at the front of the list throughout exactly when every timer pass is safe |
| ResponderRuns.TransmitOrder | esp32/weapon/managed_components/espressif__mdns/mdns.c:5201-5212 | in every run with safe timer passes: pending transmissions of listed packets are exactly those of the marked front in order, the one in hand that of the list head, and only transmissions of cleared packets are skipped |
| ResponderRuns.ProbeMatchesRecord | esp32/weapon/managed_components/espressif__mdns/mdns.c:2253-2344 | in every run whatsoever: an interface that is up and probing has exactly its one probe listed; one that is up and not probing has none, and nothing on record |
| ResponderRuns.StepKeepsInv | esp32/weapon/managed_components/espressif__mdns/mdns.c:5158-5260 | every step but an unsafe pass keeps the match of list and pending actions |
| ResponderLists.ProbedOnce | esp32/weapon/managed_components/espressif__mdns/mdns.c:2322-2344 | in every run whatsoever no interface probes for a service twice and no service is registered twice |
| ResponderProgress.InternalStep | esp32/weapon/managed_components/espressif__mdns/mdns.c:5025-5080 | with nothing new arriving, in any state, a step sends one packet of an interface, advancing it, or drops it when the interface is off, or changes nothing for it |
| ResponderProgress.StepDrains | esp32/weapon/managed_components/espressif__mdns/mdns.c:5025-5080 | in any state, every packet sent or dropped lowers the states left plus the packets listed of its interface, and nothing raises it |
| ResponderProgress.RunDrains | esp32/weapon/managed_components/espressif__mdns/mdns.c:5025-5080 | over any run without new requests an interface sends at most the states left plus the packets listed |
| ResponderProgress.SixPackets | esp32/weapon/managed_components/espressif__mdns/mdns.c:5025-5080 | from the start of probing exactly six packets lead to the running state with nothing left listed |
| ResponderProgress.ProbeStartsPhase | esp32/weapon/managed_components/espressif__mdns/mdns.c:2293-2299 | in every run, an interface that is up and in the first probing state has just its probe listed |
| ResponderProgress.CanDrain | esp32/weapon/managed_components/espressif__mdns/mdns.c:5271-5303 | from every state with the match intact the two tasks alone can send everything |
| ResponderProgress.ReachedCanDrain | esp32/weapon/managed_components/espressif__mdns/mdns.c:5271-5303 | the same after every run with safe passes, wherever probing started; exactly the interfaces that had nothing listed stay busy, which none that is up is |
| ResponderProgress.RoundSends | esp32/weapon/managed_components/espressif__mdns/mdns.c:5271-5303 | a pass over a due list head with nothing pending, followed by a moment when both tasks are idle, sends or drops a packet or finds the list empty |
| ResponderProgress.FairRunDrains | esp32/weapon/managed_components/espressif__mdns/mdns.c:5340-5360 | after every run with safe passes, every run with as many such rounds as there is load ends with the list empty and every interface that is up at rest |
| ResponderStuck.StuckForever | esp32/weapon/managed_components/espressif__mdns/mdns.c:5277-5280 | a marked head without a pending action stops all sending for ever: over any run of the two tasks, new answers and other actions nothing is sent and no interface advances |
| ResponderStuck.DisturbedPass | esp32/weapon/managed_components/espressif__mdns/mdns.c:5285-5301 | a concrete pass in which the receive comes between a failed and a successful attempt marks the second packet only |
| ResponderStuck.DisturbedPassSticks | esp32/weapon/managed_components/espressif__mdns/mdns.c:5340-5350 | such a pass happens in a run from a fresh responder, for every queue capacity: a listed probe is skipped, and in no continuation by the two tasks, new answers and other actions is anything sent again, the interface staying in its first probing state |
| ResponderContents.EnabledAsksForAll | esp32/weapon/managed_components/espressif__mdns/mdns.c:4286-4295 | after every run: when an interface is enabled with a host name, every registered service is on its record and in its one listed probe, which is due within the random delay; the record is exactly the registered services if it was up and not probing |
| ResponderContents.RestartAsksForAll | esp32/weapon/managed_components/espressif__mdns/mdns.c:2548-2566 | after every run: when the host name is set, or all interfaces are restarted with one, each interface that is up has exactly the registered services on record and in its one listed probe, and no other interface has anything listed |
| ResponderContents.ProbeAsksForMore | esp32/weapon/managed_components/espressif__mdns/mdns.c:2253-2344 | when probing is started for more services, the one listed probe asks for these and, unless the old ones are dropped, for all that was asked for before, host records included |
| ResponderContents.ConflictsSlowDown | esp32/weapon/managed_components/espressif__mdns/mdns.c:2298 | after n conflicts since the last success the next probe waits a second or more exactly when n exceeds five, and at most 247 ms otherwise |
| ResponderContents.ProbeBecomesAnnouncement | esp32/weapon/managed_components/espressif__mdns/mdns.c:2189-2220 | after every run: a packet sent as the third probe is a probe, and listed in its place is one that is not, with exactly the same services, which on an interface that is up are those on record, host records in the answers, due 250 ms later |
| ResponderAnnouncing.AnnouncesWhatItProbed | esp32/weapon/managed_components/espressif__mdns/mdns.c:5025-5080 | after every run, from where an interface that is up begins to probe, with nothing new arriving: the first three packets it sends are probes for the services on record, the others announcements with exactly the same services, at least 250 ms and, between announcements, a second apart |
| ResponderAnnouncing.EverythingIsAnnounced | esp32/weapon/managed_components/espressif__mdns/mdns.c:5025-5080 | and with safe passes and enough rounds it sends all six and comes to rest |
| ResponderAnnouncing.EnabledIsAnnounced | esp32/weapon/managed_components/espressif__mdns/mdns.c:4286-4295 | from end to end: after every run with safe passes, enabling an interface with a host name leads, with enough rounds and nothing new, to three probes and three announcements there, each with every registered service |
| ResponderSpacing.SentAgainLater | esp32/weapon/managed_components/espressif__mdns/mdns.c:5039-5068 | in every run whatsoever: a packet goes out again only from one of the first two probing or announcing states, more than 250 ms later as a probe and more than a second later as an announcement (section 8.3 of RFC 6762) |
| ResponderServices.AnnouncedIsListed | esp32/weapon/managed_components/espressif__mdns/mdns.c:2389-2427 | after every run: services announced on an interface that is up, with a host name, are all in one of its packets, which starts over probing or announcing; a probe still asks for what it asked for, an announcement gains exactly these, other packets stay |
| ResponderServices.AnswerIsListed | esp32/weapon/managed_components/espressif__mdns/mdns.c:1989-1992 | an answer is listed with the services and host records given, due 25 to 100 ms later, beside the interface's other packets |
| ResponderServices.RemovedFromPackets | esp32/weapon/managed_components/espressif__mdns/mdns.c:2716-2793 | a removed service is in no packet any more, packets keep everything else, and only packets for nothing else are gone |
| ResponderServices.RemovalOutcome | esp32/weapon/managed_components/espressif__mdns/mdns.c:2730-2785 | after every run: an interface that is up no longer asks for a removed service, and comes to rest exactly if it asked for nothing else or one of its packets loses its last answer |
| ResponderServices.RegisteredIff | esp32/weapon/managed_components/espressif__mdns/mdns.c:5915-5920 | after every run the registered services are exactly those added and not removed since |
| ResponderServices.OnlyRegisteredIsListed | esp32/weapon/managed_components/espressif__mdns/mdns.c:2716-2793 | in every run in which no service is removed that an interface that is down has on record, listed packets carry registered services only |
| ResponderServer.Server.NewProbes | esp32/weapon/managed_components/espressif__mdns/mdns.c:2322-2336 | the nested loops keep exactly the services not probed yet, in order |
| ResponderServer.Server.FillProbes | esp32/weapon/managed_components/espressif__mdns/mdns.c:2256-2278 | the copy loops fill the allocation with the front of the merged list, and would run beyond it exactly when the interface is in no probing state but has services on record |
| ResponderServer.Server.InitPcbProbe | esp32/weapon/managed_components/espressif__mdns/mdns.c:2309-2344 | the updates in place are one probing (re)start of the step system; an overrun of the merge is reported exactly when there is one |
| ResponderServer.Server.RestartAll | esp32/weapon/managed_components/espressif__mdns/mdns.c:2548-2566 | the loop over all interfaces is the restart of the step system |
| ResponderServer.Server.SetHostname | esp32/weapon/managed_components/espressif__mdns/mdns.c:5164-5172 | setting the host name restarts every ready interface, as one step of the step system |
| ResponderServer.Server.EnableInterface | esp32/weapon/managed_components/espressif__mdns/mdns.c:4286-4295 | enabling in place is that step, of which EnabledAsksForAll says what it probes for: nothing when joining fails, a probing start otherwise |
| ResponderServer.Server.TakeInterfaceDown | esp32/weapon/managed_components/espressif__mdns/mdns.c:2938-2976 | clearing its packets and fields in place takes an interface down exactly as the step system does, for both ends: off and duplicate |
| ResponderServer.Server.AnnounceInterface | esp32/weapon/managed_components/espressif__mdns/mdns.c:2389-2427 | announcing in place is that step in each branch: restart, enrich the next packet, first announcement, nothing |
| ResponderServer.Server.ScheduleAnswer | esp32/weapon/managed_components/espressif__mdns/mdns.c:1989-1992 | an answer is listed behind its delay and nothing else changes |
| ResponderServer.Server.RemoveService | esp32/weapon/managed_components/espressif__mdns/mdns.c:2716-2793 | walking the list, stripping packets, unlinking the emptied ones and updating the interfaces amounts to the step that removes a service |
| ResponderServer.Server.DropProbe | esp32/weapon/managed_components/espressif__mdns/mdns.c:2734-2757 | shifting the first occurrence out of the probe list removes the service, because no service is probed twice |
| ResponderServer.Server.TimerRun | esp32/weapon/managed_components/espressif__mdns/mdns.c:5271-5303 | the timer pass over list and FIFO in place is that step, with the receive at any attempt |
| ResponderServer.Server.ExecuteAction | esp32/weapon/managed_components/espressif__mdns/mdns.c:5201-5212 | executing an action in place is that step: the head handled, a stale transmission skipped, anything else passed on |
| ResponderServer.Server.Handle | esp32/weapon/managed_components/espressif__mdns/mdns.c:5025-5080 | what happens to a sent packet in place is that step in every interface state, of which ProbeBecomesAnnouncement and SentAgainLater say what it lists: sent again, replaced, dropped, freed |
| NameCodec.HopsBounded | esp32/weapon/managed_components/espressif__mdns/mdns.c:485-492 | a name met at an offset takes no more pointer hops than that offset |
| NameCodec.ScanLabelsFit | esp32/weapon/managed_components/espressif__mdns/mdns.c:457-469 | every label copied fits its 65-byte buffer with its terminator |
| NameCodec.ReadIsSafe | esp32/weapon/managed_components/espressif__mdns/mdns.c:448-499 | on every byte string: hops bounded, labels fit, and at every point at most four fields filled, each within its 65 bytes |
| NameCodec.ScanStable | esp32/weapon/managed_components/espressif__mdns/mdns.c:448-499 | what was read below a limit does not depend on anything beyond it |
| NameCodec.FirstMatch | esp32/weapon/managed_components/espressif__mdns/mdns.c:754-793 | the match found is the first one, and when none is found there is none |
| NameCodec.StraightFold | esp32/weapon/managed_components/espressif__mdns/mdns.c:470-484 | unless a label joins the host name, labels fill the fields in order |
| NameSpelling.NameSpells | esp32/weapon/managed_components/espressif__mdns/mdns.c:448-499 | what any sequence of labels and hops spells: the first label and those that continue it make the host, with dots between, cut to its field; the next three are the other parts; the marker is noted; and a name is invalid exactly when anything comes after its fourth part |
| NameSpelling.PartsArranged | esp32/weapon/managed_components/espressif__mdns/mdns.c:3333-3365 | the parser's arrangement of every two-, three- and four-part name, dotted hosts included, and its validity: exactly when the last part is a known domain |
| NameSpelling.DottedHostReads | esp32/weapon/managed_components/espressif__mdns/mdns.c:470-480 | labels l0 .. lk and the local domain in a packet are read as the valid host l0 with a dot before each further label, in any buffer |
| NameRoundTrip.MatchSpells | esp32/weapon/managed_components/espressif__mdns/mdns.c:765-789 | a match that lies below the name and is ordinary spells the strings it was taken for |
| NameRoundTrip.WriteReads | esp32/weapon/managed_components/espressif__mdns/mdns.c:746-807 | a complete name reads back in any buffer that holds it and agrees below it |
| NameRoundTrip.AppendKeeps | esp32/weapon/managed_components/espressif__mdns/mdns.c:746-807 | writing a name changes nothing below the index |
| NameRoundTrip.NameSurvives | esp32/weapon/managed_components/espressif__mdns/mdns.c:746-807 | round trip: same parts, exact for labels written out and up to ASCII case behind the pointer, ending at the new index |
| NameRoundTrip.ParsedSurvives | esp32/weapon/managed_components/espressif__mdns/mdns.c:3333-3365 | the parser's rearrangement of such a name puts them into host, service, proto and domain, and accepts the name |
| NameRoundTrip.PointerReadsAlike | esp32/weapon/managed_components/espressif__mdns/mdns.c:803-806 | a name written as one pointer reads exactly as its target, the subtype marker included |
| NameLimits.MovedIsReported | esp32/weapon/managed_components/espressif__mdns/mdns.c:746-807 | the value returned is how far the index moved, never past 1460 |
| NameLimits.FitsSuffices | esp32/weapon/managed_components/espressif__mdns/mdns.c:795-806 | a name that fits uncompressed is written completely |
| NameLimits.TruncationReportedIff | esp32/weapon/managed_components/espressif__mdns/mdns.c:795-801 | a name is complete exactly when what it needs fits: its labels up to the first part with a match, and a pointer or the end; a truncated name is reported exactly when not even its first piece fits |
| NameLimits.ReadableIff | esp32/weapon/managed_components/espressif__mdns/mdns.c:457-461 | a name written out can be read exactly when no label is longer than 63 |
| NameLimits.DistinctiveSurvives | esp32/weapon/managed_components/espressif__mdns/mdns.c:756-807 | conditions on the packet, at the places where one of the labels could be found, and on the labels, under which every match is clean and a complete name round-trips |
| NameLimits.SurvivesIff | esp32/weapon/managed_components/espressif__mdns/mdns.c:756-807 | whatever stands behind it in the buffer: if each match is ordinary and below the name, or in the name itself, a complete name reads back exactly when none is in the name itself |
| NameLimits.LocalInHost | esp32/weapon/managed_components/espressif__mdns/mdns.c:756-775 | in its own unfinished name the domain is found exactly when the host is called "local" |
| NameLimits.HostSurvivesIff | esp32/weapon/managed_components/espressif__mdns/mdns.c:746-807 | the first host name of a packet survives exactly when it is not "local" and not "_sub" in any case |
| PacketIO.ReadFqdn | esp32/weapon/managed_components/espressif__mdns/mdns.c:448-499 | the loop with its recursion reads what the specification reads, and the fields always fit |
| PacketIO.CopyLabel | esp32/weapon/managed_components/espressif__mdns/mdns.c:462-469 | the label is copied within the scratch buffer, or refused when the packet ends |
| PacketIO.ParseFqdn | esp32/weapon/managed_components/espressif__mdns/mdns.c:3333-3365 | the parser yields the arranged name and the offset behind it |
| PacketIO.Packet.SetU16 | esp32/weapon/managed_components/espressif__mdns/mdns.c:508-515 | writes a sixteen-bit value in place, or nothing beyond the packet |
| PacketIO.Packet.AppendU8 | esp32/weapon/managed_components/espressif__mdns/mdns.c:526-534 | moves the index by what it returns, never past 1460 |
| PacketIO.Packet.AppendU16 | esp32/weapon/managed_components/espressif__mdns/mdns.c:545-553 | moves the index by two, or writes nothing and returns zero |
| PacketIO.Packet.AppendU32 | esp32/weapon/managed_components/espressif__mdns/mdns.c:564-574 | moves the index by four, or writes nothing and returns zero |
| PacketIO.Packet.AppendType | esp32/weapon/managed_components/espressif__mdns/mdns.c:586-616 | writes all ten header bytes, or nothing |
| PacketIO.Packet.AppendString | esp32/weapon/managed_components/espressif__mdns/mdns.c:638-649 | writes a label behind its length byte, or nothing |
| PacketIO.Packet.FindMatch | esp32/weapon/managed_components/espressif__mdns/mdns.c:754-793 | the search loop finds the first match |
| PacketIO.Packet.AppendFqdn | esp32/weapon/managed_components/espressif__mdns/mdns.c:746-807 | the recursion in place writes what the specification writes and returns what it moves |
| PacketIO.Packet.AppendPtrRecord | esp32/weapon/managed_components/espressif__mdns/mdns.c:819-854 | writes the specified record; its layout is RecordLayout's |
| PacketIO.Packet.AppendTxtRecord | esp32/weapon/managed_components/espressif__mdns/mdns.c:964-1016 | writes the specified TXT record, the single zero byte included; nothing without an instance name |
| PacketIO.Packet.AppendSrvRecord | esp32/weapon/managed_components/espressif__mdns/mdns.c:1028-1087 | writes the specified SRV record; nothing without an instance name |
| PacketIO.Packet.AppendAddressRecord | esp32/weapon/managed_components/espressif__mdns/mdns.c:1101-1191 | writes the specified address record; nothing without a host name |
| PacketIO.Packet.AppendTxtEntry | esp32/weapon/managed_components/espressif__mdns/mdns.c:661-679 | writes one entry, or nothing when it does not fit |
| Records.RecordLayout | esp32/weapon/managed_components/espressif__mdns/mdns.c:819-1191 | in every record that completes the returned value is the move of the index, the header reads back as type, class and time to live, and the length field counts exactly the data bytes |
| Records.DataMove | esp32/weapon/managed_components/espressif__mdns/mdns.c:1052-1087 | a completed data section reports how far the index moved, eight-bit length arithmetic included |
| RecordRoundTrip.OwnerSurvives | esp32/weapon/managed_components/espressif__mdns/mdns.c:819-1191 | the owner name of a completed record reads back and ends at the header |
| RecordRoundTrip.PointerRecordSurvives | esp32/weapon/managed_components/espressif__mdns/mdns.c:819-854 | the name a PTR record points to reads back although the length bytes before it change afterwards |
| RecordRoundTrip.ServerRecordSurvives | esp32/weapon/managed_components/espressif__mdns/mdns.c:1028-1087 | priority, weight, port and target of an SRV record read back |
| RecordRoundTrip.TextRecordSurvives | esp32/weapon/managed_components/espressif__mdns/mdns.c:964-1016 | decoding the data of a TXT record gives its entries back |
| RecordRoundTrip.AddressRecordSurvives | esp32/weapon/managed_components/espressif__mdns/mdns.c:1101-1191 | an A or AAAA record that completes holds the address bytes in order, right behind the header that follows its owner, up to its end |
| RecordRoundTrip.FittingRecordCompletes | esp32/weapon/managed_components/espressif__mdns/mdns.c:819-1191 | a record of any kind completes if it fits uncompressed |
| PacketIO.CountTxtItems | esp32/weapon/managed_components/espressif__mdns/mdns.c:3437-3459 | the counting loop counts the parts, or reports one that runs over the end |
| PacketIO.TxtKeyLen | esp32/weapon/managed_components/espressif__mdns/mdns.c:3464-3475 | the length of the key before the first "=" |
| PacketIO.CreateTxtItems | esp32/weapon/managed_components/espressif__mdns/mdns.c:3480-3569 | the two passes, over arrays as long as the first one counts, parse what the specification parses, value lengths included, or would write beyond the arrays, exactly when the specification says so |
| PacketIO.FillPart | esp32/weapon/managed_components/espressif__mdns/mdns.c:3511-3554 | one part is passed over, stored with its value length, or found to have no place left |
| TxtCodec.ParsedEntry | esp32/weapon/managed_components/espressif__mdns/mdns.c:3512-3547 | one entry comes back as written, an empty value as none |
| TxtCodec.CountsEntries | esp32/weapon/managed_components/espressif__mdns/mdns.c:3437-3459 | the counting pass finds exactly the entries written, with or without values |
| TxtCodec.TxtRoundTrip | esp32/weapon/managed_components/espressif__mdns/mdns.c:3480-3569 | keys, values and lengths come back in order and both passes agree, when every entry but possibly the last has a value; the empty list comes back too (section 6 of RFC 6763) |
| TxtCodec.FillCosts | esp32/weapon/managed_components/espressif__mdns/mdns.c:3511-3554 | whatever the data, the entries decoded cost no more bytes than there are, and one to spare |
| TxtCodec.Shifted | esp32/weapon/managed_components/espressif__mdns/mdns.c:3538 | where the part behind an entry without a value is looked for, the entries that follow are never found |
| TxtCodec.TxtSurvivesIff | esp32/weapon/managed_components/espressif__mdns/mdns.c:3538 | a list of entries survives exactly when every entry but possibly the last has a value |
| TxtCodec.SeparatedNeverOverruns | esp32/weapon/managed_components/espressif__mdns/mdns.c:3487-3534 | the arrays are long enough when every part but one that ends the data has an "=" |
| TxtCodec.AtMostOneInThree | esp32/weapon/managed_components/espressif__mdns/mdns.c:3511-3534 | on any data the filling pass writes at most one place for every three bytes |
| TxtCodec.TwoPartsOverrun | esp32/weapon/managed_components/espressif__mdns/mdns.c:3487-3534 | for every n up to 85, data of two parts for which two places are allocated and 1 + n are written |
| Collision.OrderIsTotal | esp32/weapon/managed_components/espressif__mdns/mdns.c:2840-2936 | length first, then bytes, is one strict total order |
| Collision.SomeoneWins | esp32/weapon/managed_components/espressif__mdns/mdns.c:2840-2936 | of any records one never loses |
| Collision.CheckSrvCollision | esp32/weapon/managed_components/espressif__mdns/mdns.c:2840-2892 | the verdict built from the two byte layouts is the order on the record data |
| Collision.ServerBytesInjective | esp32/weapon/managed_components/espressif__mdns/mdns.c:2861-2883 | equal SRV data mean equal records |
| Collision.ServerVerdicts | esp32/weapon/managed_components/espressif__mdns/mdns.c:2840-2892 | two hosts reach opposite verdicts, same exactly for equal records, and winning is transitive (section 8.2 of RFC 6762) |
| Collision.ServerWinner | esp32/weapon/managed_components/espressif__mdns/mdns.c:2840-2892 | theirs wins exactly when its data are longer, or equally long and greater at the first byte that differs; ours in the opposite case (section 8.2 of RFC 6762) |
| Collision.LargerNumbersWin | esp32/weapon/managed_components/espressif__mdns/mdns.c:2861-2891 | between records of the same length the larger priority wins, then the larger weight, then the larger port |
| Collision.CheckTxtCollision | esp32/weapon/managed_components/espressif__mdns/mdns.c:2897-2936 | the verdict, with its special cases for one byte, is the specified one |
| Collision.TextVerdictIsOrder | esp32/weapon/managed_components/espressif__mdns/mdns.c:2897-2936 | the special cases agree with the order on the data actually sent |
| Collision.TextVerdicts | esp32/weapon/managed_components/espressif__mdns/mdns.c:2897-2936 | opposite verdicts, same exactly for equal data, transitive |
| Collision.TextWinner | esp32/weapon/managed_components/espressif__mdns/mdns.c:2897-2936 | whatever data arrive, they win exactly when longer, or equally long and greater at the first difference, unless both sides have none |
| Mangle.DecimalDigits | esp32/weapon/managed_components/espressif__mdns/mdns.c:241-266 | printing and parsing a number undo each other |
| Mangle.SuffixParses | esp32/weapon/managed_components/espressif__mdns/mdns.c:232-269 | a mangled name parses as its base and number |
| Mangle.NumberedIff | esp32/weapon/managed_components/espressif__mdns/mdns.c:232-248 | a name has a numeric suffix exactly when all that stands behind its last dash is a number, blanks and a plus sign before it allowed |
| Mangle.KeptWhole | esp32/weapon/managed_components/espressif__mdns/mdns.c:241-255 | a name whose last part only begins with digits is kept whole and gets the suffix 2 |
| Mangle.MangledIterates | esp32/weapon/managed_components/espressif__mdns/mdns.c:232-269 | mangling n times gives, in closed form, the base of the first mangling and its number plus n - 1 |
| Mangle.PlainNameCounts | esp32/weapon/managed_components/espressif__mdns/mdns.c:232-269 | the n-th mangling of a name without a number ends in n + 1 |
| Mangle.NeverAgain | esp32/weapon/managed_components/espressif__mdns/mdns.c:232-269 | mangling never returns an earlier name |
| Mangle.EscapesTaken | esp32/weapon/managed_components/espressif__mdns/mdns.c:232-269 | any finite set of taken names is left after at most that many manglings |
| Mangle.FitsAllocation | esp32/weapon/managed_components/espressif__mdns/mdns.c:249-259 | the new name and its terminator fit the allocation in both branches |
| Mangle.MangleInto | esp32/weapon/managed_components/espressif__mdns/mdns.c:232-269 | the loops compute the mangled name |
| Answers.AllocAnswer | esp32/weapon/managed_components/espressif__mdns/mdns.c:1729-1754 | the walk appends the answer unless one alike is there |
| Answers.RemoveService | esp32/weapon/managed_components/espressif__mdns/mdns.c:2691-2711 | the two unlinking loops remove the service's answers |
| Answers.HasIff | esp32/weapon/managed_components/espressif__mdns/mdns.c:1729-1754 | an answer alike is in the list exactly when some allocation of one has not been undone |
| Answers.ListIs | esp32/weapon/managed_components/espressif__mdns/mdns.c:1729-1754 | after any operations the list is exactly the answers whose allocation took effect and whose service was not removed since, in order |
| Answers.NeverTwoAlike | esp32/weapon/managed_components/espressif__mdns/mdns.c:1733-1737 | no two answers ever share type, service and host |
| WsFragment.SendWithOpcode | esp32/weapon/managed_components/espressif__esp_websocket_client/esp_websocket_client.c:1100-1164 | the loop sends exactly the frames of the message, or the ones before a failing write |
| WsFragment.FrameShape | esp32/weapon/managed_components/espressif__esp_websocket_client/esp_websocket_client.c:1128-1156 | opcode on the first frame only, FIN on the last only, payloads concatenate to the data, no frame above the buffer and as few as possible (section 5.4 of RFC 6455) |
| WsFragment.MessagesSurvive | esp32/weapon/managed_components/espressif__esp_websocket_client/esp_websocket_client.c:1100-1164 | a receiver following the protocol gets any sequence of messages back, for every buffer size |
| WsFragment.CutShort | esp32/weapon/managed_components/espressif__esp_websocket_client/esp_websocket_client.c:1138-1152 | a message cut short by a failing write is never taken for a complete one |
| GameClock.Game.StartCommand | esp32/shared/src/ws_server.cpp:270-273 | the start command clears the runtime state and starts the clock |
| GameClock.Game.PauseGame | esp32/shared/src/game_state.cpp:560-570 | pausing records the moment, once |
| GameClock.Game.ResumeGame | esp32/shared/src/game_state.cpp:572-595 | resuming shifts the end by the pause, in 32-bit arithmetic |
| GameClock.Game.ExtendTime | esp32/shared/src/game_state.cpp:597-609 | extending shifts the end, in 32-bit arithmetic |
| GameClock.Game.GameTick | esp32/shared/src/game_state.cpp:622-667 | a tick ends the game at or after its end time |
| GameClock.AlwaysConsistent | esp32/shared/src/game_state.cpp:521-667 | whatever the commands and times, paused implies running and over implies not running |
| GameClock.StoppedStaysOver | esp32/shared/src/game_state.cpp:550-558 | a game that was stopped stays over, unchanged, until a start or a reset |
| GameClock.LimitGrows | esp32/shared/src/game_state.cpp:597-609 | extensions of a running game stay in the limit for the next, in 16 bits |
| GameClock.RunFollowsIff | esp32/shared/src/game_state.cpp:521-667 | from a clock in step with an independent account of the play time, a run of commands and ticks before the counter wraps ends in step exactly when no tick came too early |
| GameClock.RunRightIff | esp32/shared/src/game_state.cpp:622-641 | after a start, over every run of pauses, resumptions, extensions and ticks before the counter wraps, the game ends up over just when the unpaused play time has reached the limit plus all extensions, exactly when no tick met an end beyond 2^32 that wrapped to its time or below |
| GameClock.RightBelowWrapIff | esp32/shared/src/game_state.cpp:622-641 | with a limit never extended beyond 2^32 ms: exactly when no tick in the course of play met an end beyond the wrap |
| GameClock.EndsOnTime | esp32/shared/src/game_state.cpp:521-667 | in particular it is right in every run in which neither the counter nor the end passes the wrap |
| ClientTable.StaleIff | esp32/shared/src/ws_server.cpp:575 | a client is found stale exactly when its idle time modulo 2^32 exceeds the timeout; that is the true idle time exactly below 2^32 or by coincidence |
| ClientTable.Clients.FindSlot | esp32/shared/src/ws_server.cpp:37-45 | a free slot is found exactly when fewer than eight clients are connected |
| ClientTable.Clients.FindByFd | esp32/shared/src/ws_server.cpp:47-55 | a slot is found exactly when the socket is connected |
| ClientTable.Clients.AddClient | esp32/shared/src/ws_server.cpp:62-105 | the table gains or replaces the socket's entry; nothing happens only when it is full of others |
| ClientTable.Clients.RemoveClient | esp32/shared/src/ws_server.cpp:107-130 | exactly the socket's entry goes |
| ClientTable.Clients.UpdateActivity | esp32/shared/src/ws_server_optimized.cpp:247-259 | only a connected socket's activity changes |
| ClientTable.Clients.ClientCount | esp32/shared/src/ws_server.cpp:629-640 | the count is the number of connected sockets |
| ClientTable.Clients.Snapshot | esp32/shared/src/ws_server.cpp:687-705 | a broadcast reaches every connected socket exactly once |
| ClientTable.Clients.CleanupStale | esp32/shared/src/ws_server.cpp:558-611 | exactly the stale clients and those with a failed socket go |
| ClientTable.Clients.CleanupStaleOptimized | esp32/shared/src/ws_server_optimized.cpp:406-435 | collecting first and removing afterwards leaves the same table |
| ClientTable.CountersSuffice | esp32/shared/src/ws_server.cpp:558-611 | over any run the wrapping counters keep the clients true times would, as long as no cleanup comes 2^32 ms late |
| ClientTable.NeverMoreThanEight | esp32/shared/src/ws_server.cpp:62-105 | the table never exceeds eight clients |
| ClientTable.LastHeard | esp32/shared/src/ws_server_optimized.cpp:247-259 | after any operations a client in the table was last heard from since a given moment exactly when some operation since then named it, and otherwise when it was before |
| ClientTable.TwoPassesIff | esp32/shared/src/ws_server_optimized.cpp:406-435 | with any operations in between, the two passes leave exactly the clients heard from within the timeout, or since, if and only if no collected socket is added again or active in between and still there |
| ClientTable.HeardTooLate | esp32/shared/src/ws_server_optimized.cpp:406-435 | a client heard from between the passes is dropped all the same |
| Laser.SendMessage | esp32/weapon/src/tasks/laser_task.cpp:13-25 | the loop puts out the 32 bits, most significant first |
| Laser.Sampler.TimerCallback | esp32/photodiode-test/src/main.cpp:95-151 | the sampler's accumulators follow the specified receiver |
| Laser.BitsReceived | esp32/photodiode-test/src/main.cpp:120-135 | the bits shifted out and in again give the message back |
| Laser.MessagesReceived | esp32/photodiode-test/src/main.cpp:95-151 | any messages sent back to back are received in order, the receiver ready for more, even with one sample of every bit disturbed |
| Laser.ShotsArrive | esp32/photodiode-test/src/main.cpp:95-151 | players and devices created, sent, sampled with one sample of every bit disturbed, put together and validated come back, shot by shot |
| Laser.AcceptedIff | esp32/shared/include/hash.h:8-52 | a word is accepted exactly when it is the message of a player up to 31 and a device up to 63 |
| Laser.AlteredByteRejected | esp32/shared/include/hash.h:8-52 | a message one byte of which arrives altered is rejected |

## Left out

- TxtCodec.TxtRoundTrip: lists in which a value-less entry stands before the last are not round-tripped, because the code loses them; TxtSurvivesIff proves it does for each of them.
- TxtCodec.SeparatedNeverOverruns: one direction only; whether a part without "=" before the last leads to an overrun depends on every byte behind it, which the filling pass then reads as lengths.
- PacketIO.CreateTxtItems: stops at the first item that has no place in the arrays; what the code does beyond their ends is not modelled.
- NameRoundTrip.NameSurvives: matches must lie below the name's first byte and be ordinary, because the code also accepts others; SurvivesIff, HostSurvivesIff and PointerReadsAlike say what happens then.
- NameLimits.SurvivesIff: matches that begin below the name and run into it, or are not ordinary, are not characterised.
- TxQueue.PostCommutes: covers passes into which no receive falls.
- TxQueue.PushMarksDue: one clock value for a whole pass, where the source reads the clock for each packet.
- ResponderRuns.TransmitOrder: timer passes must be safe in the sense of SafePass; DisturbedPassSticks shows why.
- ResponderProgress.FairRunDrains: safe timer passes; StuckForever shows why.
- ResponderServer.Server.InitPcbProbe: when the merge overruns its allocation, the interface goes on with the part that was allocated, here and in the step system.
- Mangle.MangleInto: suffixes below 2147483647, the largest value of the source's `int`; names longer than 64 characters after mangling are not cut.
- ResponderServer.Server.DropProbe: needs that no service is probed twice, which ProbedOnce proves of every run; the length is a number, not the eight bits of `probe_services_len`.
- ResponderServer.Server.RemoveService: the questions of a probe are taken to follow its services by identity; the source matches them by service type and protocol strings.
- WsFragment.SendWithOpcode: the transport takes a frame whole or fails; partial writes of a frame are not modelled.
- GameClock.RunRightIff: time mode, extensions that are not negative, commands and ticks before the counter of the time since boot wraps; the score and last-man-standing branches of the tick are not modelled.
- PacketIO.ReadFqdn: the name's four fields are sequences bounded by 65 bytes rather than arrays; the reverse-query build option is taken as off.
- Clock wrap in the transmit queue: due times are unbounded numbers, where the source compares 32-bit values, unsigned on insertion and signed in the timer.
- Packets are told apart by numbers that are never used again, where an action holds a pointer: after a packet is freed a new one may get its address, and an action left behind would then find it.
- Removing a single scheduled answer when another host announces the same record (`mdns.c:1666-1697`); it can leave a packet without records in the list.
- Actions posted by other tasks (`mdns.c:362`, `mdns.c:5471`, `mdns.c:5733`) take no lock and may fall into a timer pass; runs have them before or after it, which PostCommutes justifies for a pass without a receive.
- Memory allocation always succeeds; the branches for its failure are not modelled.
- Packets sent directly, without the list (searches, byes, answers to unicast questions), and searches and browsing altogether.
- The packet parser's dispatch: its effects appear as inputs of the step system (restart probing, schedule an answer, a conflict counted).
- The subtype PTR and service-enumeration PTR records, reverse PTR records, questions, and the assembly of whole packets: they repeat the record pattern.
- Records that fail half-way leave the index where it is, as in the source; no claim is made about the packet then.
- Delegated hosts, self-host records per interface, and the addresses of an interface: host records of a packet are one of three places they can be in.
- Sockets, timers, locks, callbacks, logging and the mutex of the client table: each locked section is one call or step.
- Voltage thresholds of the photodiode: samples are high or low, in step with the bits; one of the three of a bit may be wrong.
- ResponderServices.OnlyRegisteredIsListed: one direction only; a record that keeps a removed service may never be probed again.
- Hearts, respawn, configuration updates, display, Wi-Fi and HTTP provisioning, storage, radio, and the web frontend.
