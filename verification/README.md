# Network labs: proofs about the transport, the router and the switch

This project models the protocol code of labs 2, 3 and 4 and proves what it keeps over whole runs.
`dafny verify dfyconfig.toml` checks all of it.

**Lab 2, file transfer.** `Transport` holds the sender and the receiver as values, one step for every iteration of
their loops, and a network that is a multiset of messages which may lose, repeat and reorder. `Mode` selects
between `sendMessage` with `recvMessage` (cumulative acknowledgements) and `sendMessageOpt` with `recvMessageOpt`
(selective repeat); the two pairs share all other code, as in the source. `TransportSafety` proves that what is written
is always a prefix of the file, and the whole file when the sender is done. `TransportRing` shows that the receiver's
ring behaves as an unbounded map. `TransportProgress` shows that a transfer in which no acknowledgement is lost can always be
completed, and `TransportRecovery` from exactly which states one can that has lost some. `TransportHandshake` says exactly which stray acknowledgements of START can make the sender finish too
early. `TransportLoops` has the loops as written, on fields and arrays updated in place, and ties them to the steps;
`TransportExact` says exactly what they send, in terms of the file and of the acknowledgements consumed.

**Lab 2, checksum.** `Words` and `Crc32` hold 32-bit words as bit sequences, the program's checksum, the standard
CRC-32 (section 8 of RFC 1952), their equality, and burst detection; `RtpPacket` has the code of `util.c` and
`rtp.cpp` and what `Damaged` guarantees, for changes in the checksum field alone too (`AlteredChecksumDamaged`).

**Lab 3, routing.** `ShortestPaths` defines walks and distances. `DistanceVector` is `struct DV` as a value,
`DistanceVectorLoops` the same on arrays. `RouterNetwork` has the routers, the shared version counter, the vectors in
flight and the events; `RouterLoops` the message handling as written. `RouteSafety` proves soundness, loop freedom at
all versions and exactness at quiescence, `RouteTermination` that the exchange stops, `RouteConvergence` that it ends
with exact tables everywhere, `RoutePorts` that costs and ports are what the history of events says, and `RouteChurn` that it stops in every schedule exactly when no two routers are joined by
two links.

**Lab 3, addresses.** `AddressTranslation` has the address pool and the translation maps, `PrefixMatch` the table of
external networks (section 5.2.4.3 of RFC 1812).

**Lab 4.** `LearningSwitch` has the address table with its countdowns, against what the history of frames says.

## Reading the model

- The source's own form is kept where it works step by step: each class has the source's fields and loops, and
  every method is proved equal to a function on values; the theorems are about runs of those functions.
- The receiver handles one message in one step, since only its own state and the file are touched between receiving the
  message and sending the acknowledgement. The sender is interleaved with the receiver and the network after every
  iteration of every inner loop.
- Time is left open: the retransmission timer may or may not have expired whenever it is read, and the receiver may
  give up at any moment. A damaged packet is a lost one, since `revRTP` drops it.
- `heard` and `freed` in the transport only record history, for the theorems.
- `acked` exists in both modes of `SenderLoop`; the cumulative mode never reads or writes it.
- Sequence numbers, counters and versions are unbounded, so the transport theorems are about files for which chunk
  count plus window stays below 2^32 and windows for which twice the window fits an `int`.
- Entries of a vector outside 1..n are not part of a message. The model carries them along; no function reads them,
  as in the source.
- A link cost is -1 (down) or lies between 1 and 0x3f3f3f3f - 1, and the number of routers is below MAXN.
- `std::sort` may order equal masks in any way. The theorem about the lookup holds for every sorted arrangement; the
  method that stands for it is an insertion sort.
- Multi-byte header fields are laid out least significant byte first, as on the hosts the labs are built for.
- Where code and intent differ the code is followed: the sender accepts any acknowledgement above `base`, packets below the
  window get no second acknowledgement, and `Init` of the allocator leaves zeros below the addresses.

## Model

| member | source | states |
|---|---|---|
| `TransportSafety.EndToEnd` | lab2-rtp-Heccc257/Lab2-RTP-Test/src/sender_def.cpp:258-316 | In every run over a network that loses, repeats and reorders, in both modes: base <= firstneedrecv <= nextseqnum <= totseq <= base + window; in cumulative mode no acknowledgement in flight is above firstneedrecv; the file written is the first firstneedrecv chunks of the file sent; it is the whole file once the sender has left its loop, and a receiver that stopped on END holds the whole file |
| `TransportSafety.StepKeeps` | lab2-rtp-Heccc257/Lab2-RTP-Test/src/sender_def.cpp:138-193 | Every step of sender, receiver or network keeps the invariant that links the sender counters, both rings, the messages in flight and the bytes written, whatever acknowledgements of START are still in flight |
| `TransportSafety.CumulativeAcksBounded` | lab2-rtp-Heccc257/Lab2-RTP-Test/src/receiver_def.cpp:136-160 | In every reachable state of the cumulative mode, also after the sender has left its loop, every acknowledgement in flight is at most firstneedrecv |
| `TransportSafety.AckRingExact` | lab2-rtp-Heccc257/Lab2-RTP-Test/src/sender_def.cpp:271-308 | In every run of the selective mode and for every packet in flight, the bit in the never initialised, reused ring is set if and only if an acknowledgement for it was consumed since it was first sent; a set bit means the packet was received |
| `TransportSafety.PacketsOwned` | lab2-rtp-Heccc257/Lab2-RTP-Test/src/sender_def.cpp:152-191 | In every run the packets freed are 0..base-1 in order, each once; nothing sent or sent again is freed; all are freed when the loop is left |
| `TransportSafety.OnDataKeeps` | lab2-rtp-Heccc257/Lab2-RTP-Test/src/receiver_def.cpp:223-241 | Arrival of a genuine packet keeps the ring in order and the file a prefix, and adds exactly that packet to what is received, if it lies in the window |
| `TransportSafety.DrainKeeps` | lab2-rtp-Heccc257/Lab2-RTP-Test/src/receiver_def.cpp:232-235 | The drain loop ends, loses nothing received and keeps every slot right |
| `TransportSafety.SendKeeps` | lab2-rtp-Heccc257/Lab2-RTP-Test/src/sender_def.cpp:271-280 | Sending a packet for the first time, which clears the bit of its slot, keeps the whole invariant, the bits of the packets in flight included |
| `TransportSafety.WindowsOrdered` | lab2-rtp-Heccc257/Lab2-RTP-Test/src/sender_def.cpp:138-193 | The sender's base never passes the receiver's, which never passes what was sent |
| `TransportRing.RingRefines` | lab2-rtp-Heccc257/Lab2-RTP-Test/src/receiver_def.cpp:223-235 | On every arrival, genuine or not, the ring of 2*window slots and an unbounded map of waiting packets stay in step |
| `TransportRing.StoreRefines` | lab2-rtp-Heccc257/Lab2-RTP-Test/src/receiver_def.cpp:227-231 | A slot found occupied on arrival holds the same sequence number, so a packet in the window is dropped only as a repeat |
| `TransportRing.FlushIsMaximalRun` | lab2-rtp-Heccc257/Lab2-RTP-Test/src/receiver_def.cpp:232-235 | Draining appends exactly the longest run of consecutive waiting packets, in order, and keeps the others |
| `TransportRing.DrainRefines` | lab2-rtp-Heccc257/Lab2-RTP-Test/src/receiver_def.cpp:86-91 | The drain loop with Download does to the ring what flushing does to the map |
| `TransportProgress.LiveKeeps` | lab2-rtp-Heccc257/Lab2-RTP-Test/src/sender_def.cpp:164-191 | Every step but the loss of an acknowledgement keeps: in cumulative mode base is firstneedrecv or that acknowledgement is in flight; in selective mode every sent, unacknowledged packet is not yet received or its acknowledgement is in flight |
| `TransportProgress.Advance` | lab2-rtp-Heccc257/Lab2-RTP-Test/src/sender_def.cpp:284-310 | From every state with that property and chunks unacknowledged, both ends being in their loops, some finite sequence of steps of the loops moves base up |
| `TransportProgress.CanComplete` | lab2-rtp-Heccc257/Lab2-RTP-Test/src/sender_def.cpp:138-197 | From every state with that property, the receiver being in its loop, the loops alone can finish: END is received and the file written is the file sent |
| `TransportProgress.ProgressWithoutAckLoss` | lab2-rtp-Heccc257/Lab2-RTP-Test/src/sender_def.cpp:138-197 | After every run that lost no acknowledgement and leaves both ends in their loops, the transfer can be completed |
| `TransportRecovery.CompletableExactly` | lab2-rtp-Heccc257/Lab2-RTP-Test/src/receiver_def.cpp:144-160 | After every run whatever, with any acknowledgements lost: some steps complete the transfer if and only if the receiver has END, or is in its loop and END is in flight or the sender can get through. In cumulative mode it can when base is firstneedrecv, or the acknowledgement of firstneedrecv is in flight, or a chunk is still to be written and lies below base + window or an acknowledgement above base is in flight; in selective mode, when of every packet in base..firstneedrecv-1 the bit is set or the acknowledgement is in flight. Then the loops alone complete it |
| `TransportRecovery.StuckKeeps` | lab2-rtp-Heccc257/Lab2-RTP-Test/src/receiver_def.cpp:146 | A state from which no completion is possible stays so under every step of the loops and of the network, since packets below the window are not acknowledged again |
| `TransportRecovery.RegainCumulative` | lab2-rtp-Heccc257/Lab2-RTP-Test/src/sender_def.cpp:164-191 | From every other state of the cumulative mode retransmission brings back a state in which nothing the sender waits for has vanished |
| `TransportRecovery.RegainSelective` | lab2-rtp-Heccc257/Lab2-RTP-Test/src/sender_def.cpp:292-310 | The same in selective mode, by having the packets that wait in the ring acknowledged again |
| `TransportExact.HeadExact` | lab2-rtp-Heccc257/Lab2-RTP-Test/src/sender_def.cpp:258-280 | After every run, from the top of the loop body to the receive: the transfer is over exactly when all chunks are acknowledged, and then END with the chunk count is all that is sent; otherwise the window reaches min(base + window, chunk count) and exactly its packets not sent before are sent, each once and in order |
| `TransportExact.TailExact` | lab2-rtp-Heccc257/Lab2-RTP-Test/src/sender_def.cpp:282-310 | After every run, from the receive on: in cumulative mode base is the greater of base and the acknowledgement, in selective mode the first packet in flight whose acknowledgement has not been consumed; what it passes is freed; on a timeout exactly the packets in flight not known to be received are sent again, each once and in order, and otherwise nothing is sent |
| `TransportExact.ResendExact` | lab2-rtp-Heccc257/Lab2-RTP-Test/src/sender_def.cpp:304-307 | In every reachable state, stray acknowledgements included, the retransmission loop puts packet k in flight if and only if the mode is cumulative or no acknowledgement of k has been consumed since it was first sent, and does nothing else |
| `TransportExact.TimeoutExact` | lab2-rtp-Heccc257/Lab2-RTP-Test/src/sender_def.cpp:304-307 | So the whole loop sends exactly the packets of [base, nextseqnum) not heard of, each once and in order |
| `TransportExact.TakeDataExact` | lab2-rtp-Heccc257/Lab2-RTP-Test/src/receiver_def.cpp:142-161 | After every run, a data packet in the window is answered by exactly one acknowledgement: of itself in selective mode, of the first chunk then not written in cumulative mode; any other is ignored |
| `TransportExact.TakeEndExact` | lab2-rtp-Heccc257/Lab2-RTP-Test/src/receiver_def.cpp:136-141 | After every run, END carries the chunk count and finds the whole file written; it is acknowledged with its own number and ends the loop |
| `TransportHandshake.CompleteIffNotMisled` | lab2-rtp-Heccc257/Lab2-RTP-Test/src/sender_def.cpp:164-175 | With given stray acknowledgements of START in flight at the start: every run that takes the sender out of its loop leaves the whole file written if and only if the strays are not of a stated kind (the chunk count, in cumulative mode; a number below the chunk count such that all later chunks beyond one window are strays too, in selective mode). The same equivalence holds of only those runs in which the code never frees packets beyond the vector |
| `TransportHandshake.SafeUnlessMisled` | lab2-rtp-Heccc257/Lab2-RTP-Test/src/sender_def.cpp:287-295 | The safe half, for every reachable state |
| `TransportHandshake.CumulativeRun` | lab2-rtp-Heccc257/Lab2-RTP-Test/src/sender_def.cpp:164-175 | The run that ends a misled cumulative transfer with chunks missing, never consuming an acknowledgement above the number of packets made |
| `TransportHandshake.SelectiveRun` | lab2-rtp-Heccc257/Lab2-RTP-Test/src/sender_def.cpp:287-295 | The run that ends a selective transfer with one chunk never delivered |
| `TransportLoops.HeadIsRun` | lab2-rtp-Heccc257/Lab2-RTP-Test/src/sender_def.cpp:258-280 | The loop body up to the receive is a run of the whole system |
| `TransportLoops.TailIsRun` | lab2-rtp-Heccc257/Lab2-RTP-Test/src/sender_def.cpp:282-310 | The loop body from the receive on is a run of the whole system |
| `TransportLoops.SenderLoop.constructor` | lab2-rtp-Heccc257/Lab2-RTP-Test/src/sender_def.cpp:226-243 | The sender starts with empty counters; the ack bits may have any value |
| `TransportLoops.SenderLoop.FillWindow` | lab2-rtp-Heccc257/Lab2-RTP-Test/src/sender_def.cpp:260-270 | The fill loop reads chunks until the window is full or the file ends; the transfer is over exactly when base is the number of packets, and then END carries that number |
| `TransportLoops.SenderLoop.SendWindow` | lab2-rtp-Heccc257/Lab2-RTP-Test/src/sender_def.cpp:271-280 | The first-send loop sends what the window allows and clears the ack bits |
| `TransportLoops.SenderLoop.TakeAck` | lab2-rtp-Heccc257/Lab2-RTP-Test/src/sender_def.cpp:164-175 | A cumulative acknowledgement above base frees everything below it; a selective one in the window sets its bit; any other changes nothing |
| `TransportLoops.SenderLoop.SlideWindow` | lab2-rtp-Heccc257/Lab2-RTP-Test/src/sender_def.cpp:292-295 | base moves over the acknowledged packets, freeing them |
| `TransportLoops.SenderLoop.Retransmit` | lab2-rtp-Heccc257/Lab2-RTP-Test/src/sender_def.cpp:304-307 | Retransmission sends every packet in flight, in selective mode only those not acknowledged |
| `TransportLoops.SenderLoop.BeforeReceive` | lab2-rtp-Heccc257/Lab2-RTP-Test/src/sender_def.cpp:258-280 | The loop body up to the receive |
| `TransportLoops.SenderLoop.AfterReceive` | lab2-rtp-Heccc257/Lab2-RTP-Test/src/sender_def.cpp:282-310 | The loop body from the receive on |
| `TransportLoops.ReceiverLoop.constructor` | lab2-rtp-Heccc257/Lab2-RTP-Test/src/receiver_def.cpp:182-197 | The receiver starts with an empty ring |
| `TransportLoops.ReceiverLoop.WriteSlot` | lab2-rtp-Heccc257/Lab2-RTP-Test/src/receiver_def.cpp:86-91 | Download writes the packet and empties the slot |
| `TransportLoops.ReceiverLoop.OnPacket` | lab2-rtp-Heccc257/Lab2-RTP-Test/src/receiver_def.cpp:142-161 | A data packet is stored, the ring drained and the acknowledgement chosen by the mode; outside the window it is ignored without an acknowledgement |
| `TransportLoops.ReceiverLoop.OnMessage` | lab2-rtp-Heccc257/Lab2-RTP-Test/src/receiver_def.cpp:133-163 | END is acknowledged and ends the loop, data is handled, other types are ignored |
| `Transport.ChunksAreFile` | lab2-rtp-Heccc257/Lab2-RTP-Test/src/sender_def.cpp:260-268 | The chunks, 1460 bytes each but for a last one of 1 to 1460, are one after the other the file, and each leaves room for the terminating zero of a packet |
| `DistanceVectorLoops.DV.constructor` | lab3-router-Heccc257/router.h:151-159 | The table starts cleared, with version 0 |
| `DistanceVectorLoops.DV.Reset` | lab3-router-Heccc257/router.h:160-164 | All distances and next hops are cleared, the costs kept |
| `DistanceVectorLoops.DV.RelaxDirectLinks` | lab3-router-Heccc257/router.h:175-182 | The first loop lowers the own distances to the direct costs, and says whether the own row changed |
| `DistanceVectorLoops.DV.RelaxThrough` | lab3-router-Heccc257/router.h:183-190 | The second loop lowers them to what the given router offers |
| `DistanceVectorLoops.DV.UpdateDV` | lab3-router-Heccc257/router.h:173-193 | Both loops; the result says whether the own row differs from before |
| `DistanceVectorLoops.DV.UpdateDVFrom` | lab3-router-Heccc257/router.h:202-211 | An older vector changes nothing, a newer one resets the table first |
| `DistanceVectorLoops.DV.UpdateC` | lab3-router-Heccc257/router.h:221-239 | An increase bumps the shared version and resets the table, a decrease only relaxes |
| `DistanceVector.UpdateSettles` | lab3-router-Heccc257/router.h:173-193 | updateDV restores the local Bellman invariant broken only at the direct links and one vector, and lowers nothing but own distances |
| `DistanceVector.UpdateFromSettles` | lab3-router-Heccc257/router.h:202-211 | The arrival of any legal vector keeps the local Bellman invariant, ranges and next hops included |
| `DistanceVector.UpdateCostSettles` | lab3-router-Heccc257/router.h:221-239 | So does every change of cost |
| `DistanceVector.ReportsChange` | lab3-router-Heccc257/router.h:221-239 | The cost becomes the value, 0x3f3f3f3f for -1; same, lower or higher is reported as the cost stays, falls or rises; the version goes up by one, and with it the table's, exactly on a rise |
| `RouterLoops.RouterNode.constructor` | lab3-router-Heccc257/router.cpp:41-63 | A router starts with a fresh table and no ports known |
| `RouterLoops.RouterNode.DvInfo` | lab3-router-Heccc257/router.h:248-260 | The vector sent has the number, the version and the own row |
| `RouterLoops.RouterNode.OnVector` | lab3-router-Heccc257/router.cpp:85-115 | A DV message sets the cost of its link from the port value, records port and router, takes the vector in, and causes a broadcast if either step changed something; an own message is ignored |
| `RouterLoops.RouterNode.ChangePortValue` | lab3-router-Heccc257/router.cpp:202-218 | A port value is recorded; if a router is known behind the port its cost is updated, and forgotten behind it when the value is -1 |
| `RouterLoops.RouterNode.FindPort` | lab3-router-Heccc257/router.cpp:175-182 | The port towards a router, or 1 if none is known |
| `RoutePorts.PortsAreHistory` | lab3-router-Heccc257/router.cpp:85-115 | In every run a router has for each port the value last set, and the router last heard on it unless the port was set to -1 since; and for each neighbour the port it was last heard on |
| `RoutePorts.CostsAreSet` | lab3-router-Heccc257/router.cpp:94-95 | In every run, with any number of links between two routers, a finite cost is the value last set for a port at the end of a link from that router |
| `RoutePorts.UnsetIsIsolated` | lab3-router-Heccc257/router.cpp:93-95 | A router none of whose ports is set to anything but -1 takes every link as down: all its costs and distances to others stay 0x3f3f3f3f, and their packets go to the controller |
| `RoutePorts.CostIsHistory` | lab3-router-Heccc257/router.cpp:202-218 | With one link per pair, the cost of a link is the value last set for its port if its router has been heard there since the port was last set to -1, and else that of a link that is down |
| `RoutePorts.SettingPorts` | lab3-router-Heccc257/router.cpp:202-218 | Setting a port behind which no router is known touches no table and no version; setting another gives its link the new cost and raises the version exactly if that is dearer; nothing is sent |
| `RoutePorts.LeavesThrough` | lab3-router-Heccc257/router.cpp:175-182 | In every run a packet with a route leaves through the port on which the next router was last heard, the end of a link from it; one without a route goes to port 1 |
| `RoutePorts.TriggerSends` | lab3-router-Heccc257/router.cpp:188-194 | A trigger puts the present row and version once on every link from the router, and does nothing else |
| `RouteSafety.StepKeeps` | lab3-router-Heccc257/router.cpp:85-115 | Every delivery, loss, repetition, trigger and port change keeps the invariant of the network |
| `RouteSafety.NeverUnderestimates` | lab3-router-Heccc257/router.h:202-239 | In every run every table satisfies the local Bellman invariant, and no finite distance at a router of the newest version, or in a vector that carries it, is below the cost of some real walk over the links as they are now |
| `RouteSafety.Hop` | lab3-router-Heccc257/router.h:173-193 | The next hop of any router, outdated or not, is over a link that is up, to the destination, or to a router at a later version, or to one at the same version and nearer by the cost of the link |
| `RouteSafety.NeverCycles` | lab3-router-Heccc257/router.cpp:175-182 | In every reachable state, with routers at any versions and any vectors in flight, packets following next hops meet no router twice; along the way the version never falls, and while it stays the distance does |
| `RouteSafety.LoopFree` | lab3-router-Heccc257/router.cpp:175-182 | In every run, with messages in flight or not: from a router at the newest version and a destination at finite distance the next hops lead to the destination through routers of the newest version, the distance falling at each hop, meeting no router twice, at a total cost of at most the distance claimed |
| `RouteSafety.ExactAtQuiescence` | lab3-router-Heccc257/router.h:173-239 | In every reachable state where all routers have the newest version and hold their neighbours' current rows, every distance is the exact shortest-path cost, capped at 0x3f3f3f3f |
| `RouteTermination.DeliverDescends` | lab3-router-Heccc257/router.cpp:94-114 | With one link per pair every delivery lowers the measure (links to learn, version gaps, distances, vectors in flight) |
| `RouteTermination.Quiesces` | lab3-router-Heccc257/router.cpp:94-114 | So in every infinite schedule of deliveries and losses a moment comes with nothing in flight |
| `RouteChurn.NeverSettles` | lab3-router-Heccc257/router.cpp:94-114 | Where two links lead from one router to another, their ports set to different values, and one leads back, an infinite schedule of deliveries never leaves the network empty |
| `RouteChurn.ReachesChurn` | lab3-router-Heccc257/router.cpp:202-218 | Such a state is reachable from the start wherever there are two such links and one back: three port changes and one trigger lead to it |
| `RouteChurn.RestsIffOneLinkPerPair` | lab3-router-Heccc257/router.cpp:94-114 | Where links come in both directions: every infinite schedule of deliveries and losses after every run from the start comes to rest if and only if there is one link between any two routers |
| `RouteConvergence.RestWithin` | lab3-router-Heccc257/router.h:173-193 | With nothing in flight, every finite distance at any version is the cost of a real walk over links that are up |
| `RouteConvergence.ReactFacts` | lab3-router-Heccc257/router.cpp:94-114 | What a router does with a vector: version up or distances down, every change broadcast, the vector taken into account unless outdated |
| `RouteConvergence.SaneKeeps` | lab3-router-Heccc257/router.cpp:202-218 | The costs routers know are those set for their ports, and some router has the newest version, after every step |
| `RouteConvergence.RestIsExact` | lab3-router-Heccc257/router.h:173-239 | With nothing in flight and every vector heard, every distance in every table is exact over the port values, also at routers not at the newest version, and routers joined by links that are up are at the same version |
| `RouteConvergence.Converges` | lab3-router-Heccc257/router.cpp:188-194 | After any run whatever, links removed and the network in parts included: if all routers are triggered, the ports are left alone and vectors on links that are up arrive, in any order, a moment comes with nothing in flight, and then every distance in every table is exact over the port values |
| `Crc32.ForByteMirrors` | lab2-rtp-Heccc257/Lab2-RTP-Test/src/util.c:3-7 | The loop with the inverted bit test and the final fix-up computes the complement of eight standard steps from the complemented state |
| `Crc32.StepMirrors` | lab2-rtp-Heccc257/Lab2-RTP-Test/src/util.c:14-15 | The table-driven state is at every byte the complement of the standard state |
| `Crc32.ChecksumIsStandard` | lab2-rtp-Heccc257/Lab2-RTP-Test/src/util.c:18-22 | compute_checksum is the CRC-32 of section 8 of RFC 1952, for every byte sequence |
| `Crc32.FoldConcat` | lab2-rtp-Heccc257/Lab2-RTP-Test/src/util.c:9-16 | The loop over the data composes over concatenation |
| `Crc32.ShiftInjective` | lab2-rtp-Heccc257/Lab2-RTP-Test/src/util.c:5 | One step of the division can be undone |
| `Crc32.BurstDetected` | lab2-rtp-Heccc257/Lab2-RTP-Test/src/util.c:9-22 | Messages of one length that differ, but only within 32 consecutive bits, have different checksums |
| `RtpPacket.Crc.constructor` | lab2-rtp-Heccc257/Lab2-RTP-Test/src/util.c:10 | The static table starts zero |
| `RtpPacket.Crc.Crc32ForByte` | lab2-rtp-Heccc257/Lab2-RTP-Test/src/util.c:3-7 | The loop computes the table entry |
| `RtpPacket.Crc.Fill` | lab2-rtp-Heccc257/Lab2-RTP-Test/src/util.c:12-13 | The lazy fill makes every entry right |
| `RtpPacket.Crc.Update` | lab2-rtp-Heccc257/Lab2-RTP-Test/src/util.c:9-16 | crc32, with the lazily filled table, computes the fold of the per-byte step |
| `RtpPacket.Crc.ComputeChecksum` | lab2-rtp-Heccc257/Lab2-RTP-Test/src/util.c:18-22 | The result is the standard CRC-32 |
| `RtpPacket.Layout` | lab2-rtp-Heccc257/Lab2-RTP-Test/src/rtp.h:23-35 | The packed structure byte by byte: type, then length, sequence number and checksum as little-endian numbers of 2, 4 and 4 bytes, then the payload |
| `RtpPacket.CoveredInjective` | lab2-rtp-Heccc257/Lab2-RTP-Test/src/rtp.h:23-35 | Packets that differ outside the checksum field differ in the bytes the checksum covers |
| `RtpPacket.Packet.constructor` | lab2-rtp-Heccc257/Lab2-RTP-Test/src/rtp.cpp:12-26 | A constructed packet is never damaged, holds the fields and the payload given, and has a zero after the payload |
| `RtpPacket.Packet.Damaged` | lab2-rtp-Heccc257/Lab2-RTP-Test/src/rtp.cpp:48-61 | The result is true if and only if the stored checksum is not the CRC-32 of the packet with that field zero; the packet is left as it was |
| `RtpPacket.AlteredBurstDamaged` | lab2-rtp-Heccc257/Lab2-RTP-Test/src/rtp.cpp:48-61 | A packet altered within 32 consecutive bits outside the length and checksum fields is damaged |
| `AddressTranslation.AddressesConserved` | lab3-router-Heccc257/router.h:52-90 | In every run of packets and releases the two maps are mutual inverses, and every address of the range is free once or held by one host |
| `AddressTranslation.DroppedIffExhausted` | lab3-router-Heccc257/router.cpp:138-145 | A packet to the outside is dropped if and only if its host holds no address and every address is held, despite the zeros at the bottom of the allocator's stack |
| `AddressTranslation.AllocFree` | lab3-router-Heccc257/router.h:61-66 | alloc takes a free address, or gives 0 exactly when there is none |
| `AddressTranslation.RepliesReachHost` | lab3-router-Heccc257/router.cpp:121-152 | Until the host is released, replies to its translated address reach it and its packets keep that address |
| `AddressTranslation.AnswersComeBack` | lab3-router-Heccc257/router.cpp:119-152 | A packet to the external network leaves under an address of the range or is dropped because all are held; any answer to that address is sent on to the host, its source unchanged, until the host is released |
| `AddressTranslation.SendExact` | lab3-router-Heccc257/router.cpp:138-151 | In every run, a host that holds an address goes on using it; another gets the one freed last, if any is free, and no other host is touched |
| `AddressTranslation.ReleaseExact` | lab3-router-Heccc257/router.h:81-90 | In every run, after a release the host holds nothing, nothing for its old address is delivered, that address is free and goes to the next host that needs one, all other hosts keep theirs; the release of a host that held none changes nothing |
| `AddressTranslation.TranslateExact` | lab3-router-Heccc257/router.cpp:119-152 | In every run, for every data packet: discarded if and only if it comes from outside for an address no host holds, or goes outside with no external port or with none held and none free; the source is replaced only on the way out, by the address its host holds, the destination only on the way in, by the host that holds it; all other traffic is left alone, and the pool changes only on the way out |
| `AddressTranslation.Translator.constructor` | lab3-router-Heccc257/router.h:56-60 | Init leaves as many zeros below the addresses as there are addresses |
| `AddressTranslation.Translator.AllocAddress` | lab3-router-Heccc257/router.h:61-66 | The allocator pops its vector, 0 when empty |
| `AddressTranslation.Translator.ReleaseNATItem` | lab3-router-Heccc257/router.h:81-90 | The release is that of ReleaseExact |
| `AddressTranslation.Translator.TranslateData` | lab3-router-Heccc257/router.cpp:119-152 | The translation of a data packet, drops and the controller included, is that of TranslateExact |
| `PrefixMatch.MatchIsPrefix` | lab3-router-Heccc257/router.h:97 | match holds exactly of the addresses that agree with the address written in its first len bits, for every length from 1 to 32 |
| `PrefixMatch.MatchIsInterval` | lab3-router-Heccc257/router.cpp:29-39 | They are exactly the addresses from ipMin to ipMax as CIDR2IP computes them, 2^(32-len) in number |
| `PrefixMatch.MaskValue` | lab3-router-Heccc257/router.cpp:36 | The complemented mask is 2^(32-length) - 1 |
| `PrefixMatch.EntryMask` | lab3-router-Heccc257/router.cpp:49 | The mask recovered from the two ends of the block is the mask of its length, never 0 |
| `PrefixMatch.LongerMaskGreater` | lab3-router-Heccc257/router.h:98-100 | Masks compare as unsigned numbers exactly as their lengths do |
| `PrefixMatch.LookupFirst` | lab3-router-Heccc257/router.h:112-118 | The first match in a sorted table has a greatest mask among all matches; -1 means there is none |
| `PrefixMatch.LongestPrefixMatch` | lab3-router-Heccc257/router.h:112-118 | After any registrations the lookup gives a router with the longest registered prefix that the address begins with (section 5.2.4.3 of RFC 1812), and -1 exactly when it begins with none |
| `PrefixMatch.IDManager.Register` | lab3-router-Heccc257/router.h:126-133 | Numbers are given in order; the table stays sorted and holds exactly the blocks registered |
| `PrefixMatch.IDManager.Match` | lab3-router-Heccc257/router.h:112-118 | exIPMatchRouter returns the first matching entry's router |
| `LearningSwitch.KeyIsBigEndian` | lab4-switch-Heccc257/types.h:31-37 | macAddr2Long reads the six bytes as a number, the first the most significant |
| `LearningSwitch.KeyInjective` | lab4-switch-Heccc257/types.h:31-37 | Different addresses have different keys |
| `LearningSwitch.TableIsHistory` | lab4-switch-Heccc257/switch.cc:15-33 | After any history an address has an entry if and only if it has sent a frame and fewer than 10 agings followed the last; the entry has the port of that frame and 10 less the agings |
| `LearningSwitch.OutputIsHistory` | lab4-switch-Heccc257/switch.cc:24-43 | The output is the one the history dictates; an aging command gives -1 |
| `LearningSwitch.EthernetSwitch.MacAddr2Long` | lab4-switch-Heccc257/types.h:31-37 | The loop computes the key |
| `LearningSwitch.EthernetSwitch.Aging` | lab4-switch-Heccc257/switch.cc:15-22 | Every countdown falls by one, and exactly the entries that reach 0 are erased |
| `LearningSwitch.EthernetSwitch.ProcessFrame` | lab4-switch-Heccc257/switch.cc:24-44 | A frame teaches the source and is sent by the destination; an aging command ages the table |

## Left out

- Wrap-around of sequence numbers at 2^32, overflow of `base + window` and of twice the window, and a window of 0.
- START and END handshakes with their retries, sockets, timeouts, clocks and file handles; what the handshake can leave in
  flight is a parameter of the transport model.
- Completion where it can no longer come about: the receiver never acknowledges a packet below its window again, so some
  losses of acknowledgements leave the sender in its loop for ever. `TransportRecovery` says exactly which states these are.
- TransportHandshake.CompleteIffNotMisled: in the runs that are not orderly, where a stray acknowledgement above the number of packets made is taken, the first equivalence follows the counters alone; what the code's loop does there past the end of its vector is not defined and not modelled. The second equivalence is about the other runs.
- Checksums when the length field itself is altered, lengths beyond the payload array, and the constructors that take a
  string or a header.
- Text of control messages and vectors, dotted decimal addresses and byte order of addresses: already decoded values.
- Forwarding of data packets to hosts and by external networks, beyond the port towards a router.
- Routers without an external or available range (their fields stay uninitialised), prefixes of length 0, an available
  range that contains 0 or ends at 0xffffffff.
- Registration of routers while others already run: the number of routers is fixed before the first event.
- Link costs of 0 or of at least 0x3f3f3f3f.
- RouteTermination.Quiesces: assumes one link between any two routers, because without it the claim is false, as RouteChurn.RestsIffOneLinkPerPair shows.
- RouteChurn.RestsIffOneLinkPerPair: takes networks whose links come in both directions, as cables do; two links one way with nothing leading straight back are not covered.
- RouteConvergence.Converges: assumes one link between any two routers, links in both directions with both ends up or both down, and that vectors on links that are up are not lost, because a lost vector is not sent again.
- DistanceVector.UpdateFromSettles: takes vectors whose entries lie between 0 and 0x3f3f3f3f, which NeverUnderestimates shows of all vectors in flight.
- Lab 1, the simulators and the test programs.
