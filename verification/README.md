# ARG gateway: a verified model

ARG gateways hide the addresses of the networks behind them: each gate hops through addresses of
its own network, wraps traffic to other gates, and translates traffic to everyone else. This
project models that program in Dafny and proves what it relies on.

- **Hash table** (`Chains`, `Handles`, `MergeSort`, `ListSort`, `UtHash`, `HashRuns`): the
  intrusive table of `uthash.h` as linked objects changed in place. Its integrity check is the class
  invariant; any run of calls refines a finite map iterated in insertion order; the list merge sort
  is a stable sort.
- **Time and hopping** (`Timing`, `TimeSync`, `Networks`, `Hopping`, `HopSync`): clock arithmetic
  with the C conversions, the error of the clock estimate over any number of pings (half of what
  the two legs of a ping may differ by), and how much delay and clock error the hopping addresses
  tolerate.
- **Gates** (`GateList`, `Routing`): the linked list of gates with its partly stale back links, and
  which gate an address is routed to as trust packets keep adding networks.
- **NAT** (`NatSpec`, `NatBuckets`, `Nat`, `NatRuns`, `NatTimes`): the translation table on top of
  the hash table, its two list layers refining a value; flows over whole runs, and when they expire.
- **Checksums** (`Checksum`): the 32-bit loop with two folds against the Internet checksum of the
  covered bytes.
- **Protocol** (`ProtocolSpec`, `Protocol`, `Arrivals`, `Visits`, `RemoteRuns`, `Sessions`, `Replays`,
  `SyncRuns`, `GateNetwork`, `SystemRuns`, `Numbering`, `TimedRuns`): the handlers as methods on a
  remote's record, refining step functions; what any packet and any visit of the admin loop achieve;
  runs of one record, how long its connection lasts and what makes it accept a packet twice; any
  number of gates on a bad network, their sequence numbers, and their clocks in real time.
- **Wrapped packets** (`Octets`, `Wrapping`, `PacketFormat`, `EndToEnd`): the bytes of a wrapped packet,
  what a receiver accepts, the round trip, and all the checks on one packet together.
- **Tracing** (`TraceLinks`, `Trace`, `GateLog`): how `scripts/process_run.py` links logged packets,
  follows them, looks for cycles and finds the end of each chain.

`dafny verify dfyconfig.toml` checks everything.

## Reading the main results

The path of one packet is put together in `EndToEnd.UndamagedPacketsGetThrough`. It rests on
`GateNetwork.KeyAgreement` (both ends hold the right keys in every reachable state),
`TimedRuns.SyncedInTime` (both ends know each other's clock in every reachable state),
`HopSync.BothAddressesAccepted` (addresses fit), `Routing.HopsRouteHome` (the source address leads to
the right record), `Numbering.NextIsInOrder` (the sequence number is in order) and
`GateNetwork.WrappedArrives`; `Wrapping.ReachableRoundTrip` is the same for the bytes. What it asks of
the network is in `TimedRuns.InTime` (how long a leg of a ping takes, that ping numbers are fresh, that
gates are not older than the 32-bit offset can tell) and `HopSync.FitsHops` (hop interval against delay).

Some things the code or its comments suggest are not so. The model follows the code:

- The sequence number wrap is tested against 2^16, although the comment speaks of 2^32
  (`settings.h:52-54`, `protocol.c:790`), and connection data resets the number. So packets are not
  unique: `Replays.ReplayIff` says exactly when one is accepted again, `Replays.ReplayAfterWrap` and
  `Replays.ReplayAfterReset` give inputs, and `RemoteRuns.NoReplay` is what holds in between.
- The number is recorded before the seal is looked at, so one damaged ping can shut the others out
  (`Numbering.DamageBlocks`).
- NAT entries expire after `NAT_CLEAN_TIME`, 20 s; `NAT_OLD_CONN_TIME`, 120 s, is not used.
- The protocol description lets a pong ask for a pong; the code never does (`Protocol.Peer.PongIds`).
- The cycle check of the tracing script cannot find a cycle, and reports long traces as cycles
  (`Trace.PacketTable.CheckForCycles`, `TraceLinks.CycleIsTargeted`, `TraceLinks.LongChainLooksCyclic`).
- A reply may reach the wrong internal host (`NatRuns.ReplyReaches` says exactly when not).
- A trust packet may take over addresses of a known gate (`Routing.LearnKeepsDisjoint`).
- A UDP checksum of zero is sent as zero (`Checksum.StoresZeroIff`).
- Clock estimates overflow after 24.8 days (`TimeSync.ShiftExact`).

## Assumptions

- Each handler, each visit of the admin loop and each cleaning pass is one atomic step. The locks of
  the program do not quite give that: the NAT handlers read the entry after unlocking.
- Cryptography is ideal. In the protocol model a seal holds only under the key that made it and a lock
  opens only for the key it was closed for; in the byte-level model AES-CTR is a function giving the
  key stream byte at a position and HMAC a function of key and bytes. HMAC-SHA1 inside the hop
  computation and the hash function of the table are uninterpreted functions.
- A handler samples the clock once per use in the code; where two samples matter (`is_valid_ip`, the
  pong handler) the model has two.
- Packets reach the gate they are addressed to, and gates do not restart (`GateNetwork`).
- In `TimedRuns` every gate's clock runs at the rate of a common one, at a distance of its own.

## Model

| member | source | states |
|---|---|---|
| `UtHash.Bucket.Push` | uthash.h:592-603 | The handle becomes the head of the bucket's chain, forward and backward links and the count stay exact. |
| `UtHash.Bucket.Remove` | uthash.h:606-616 | Exactly the i-th handle leaves the chain, whose links and count stay exact. |
| `UtHash.HashTable.Find` | uthash.h:94-105 | Returns the element with that key, and null exactly when no element has it. |
| `UtHash.HashTable.Add` | uthash.h:162-185 | Appends to the insertion order and keeps the whole table invariant (the integrity check made a predicate); the bucket count doubles exactly when the new element's bucket is crowded and doubling is not inhibited. |
| `UtHash.HashTable.CrowdsIff` | uthash.h:599-602 | Crowded means ten elements, and ten more for each multiple of the ideal length the bucket had after the last doubling, unless doubling is inhibited. |
| `UtHash.HashTable.Delete` | uthash.h:204-237 | Removes exactly that element, order of the rest untouched, through head, tail and inner positions; deleting the only element tears the table down. |
| `UtHash.HashTable.RehashOne` | uthash.h:666-679 | One handle moves to its new chain, which stays consistent, and is counted as nonideal when it lands beyond the ideal length. |
| `UtHash.HashTable.Expand` | uthash.h:647-693 | Doubling puts every handle into the chain of its hash modulo the doubled count, loses and duplicates nothing, leaves insertion order alone, and recomputes ideal length, nonideal items (the excess summed over chains), and the inhibition counters by the coded rule. |
| `UtHash.HashTable.FinishExpansion` | uthash.h:683-691 | The bucket count is two to the logged power again; two doublings in a row that leave more than half the items nonideal inhibit doubling for good. |
| `Chains.RehashPlaces` | uthash.h:662-681 | Rehashing into any number of empty chains leaves every element in the chain of its hash, once. |
| `Chains.DropAtPlaces` | uthash.h:606-616 | Dropping one element from its chain keeps every other element exactly once in its own chain. |
| `Chains.ExcessGrow` | uthash.h:669-673 | Counting an insertion into a chain that is already at the ideal length is counting the total excess. |
| `UtHash.HashTable.Fsck` | uthash.h:261-311 | On any table that can be walked forwards, right or damaged, the integrity check of the debug build passes exactly if every bucket count, every total and every backward link is right. |
| `UtHash.HashTable.ValidIsSound` | uthash.h:261-311 | So it passes in every state that satisfies the invariant. |
| `UtHash.HashTable.Elements` | uthash.h:292-305 | Walking next from the head yields the elements in insertion order. |
| `HashRuns.Step` | uthash.h:94-237 | One add-if-absent, delete-if-present or lookup on the pointer structure is one step of an insertion-ordered finite map, with the map's answer. |
| `HashRuns.RunAll` | uthash.h:94-311 | Any run of calls on a fresh table gives the map's answers, ends with the map's elements in the map's order, and passes the integrity check. |
| `HashRuns.LookupPresent` | uthash.h:204-237 | With distinct keys, the map finds an element where the table holds it, and removing the key is removing that element. |
| `ListSort.Advance` | uthash.h:716-724 | Counts off up to insize elements of the list, stopping at its end. |
| `ListSort.MergeNext` | uthash.h:714-766 | Merges the next two runs onto the sorted part by rewriting next and prev, on ties taking from the first run. |
| `ListSort.PassOnce` | uthash.h:709-767 | One pass over the linked list leaves the list of one specification pass, linked both ways. |
| `ListSort.SortList` | uthash.h:707-775 | The passes with doubling run length end, and leave the list the specification passes give, with its head and tail. |
| `UtHash.HashTable.Sort` | uthash.h:700-777 | The insertion order becomes a stable sort of what it was (for any comparison function the same elements remain), the table invariant holds, and no bucket link is written. |
| `MergeSort.PassesSort` | uthash.h:707-775 | The passes order any list under a total preorder. |
| `MergeSort.PassesContents` | uthash.h:707-775 | The passes permute, whatever the comparison function. |
| `MergeSort.SortIsStable` | uthash.h:707-775 | The result is ordered, a permutation, and keeps equal elements in their order. |
| `MergeSort.MergeStable` | uthash.h:726-764 | A merge keeps ties in order, first run first. |
| `Timing.TimeOffset` | utility.c:145-161 | Off from the exact difference by less than one millisecond, also for unnormalised times. |
| `Timing.Plus` | utility.c:169-181 | Exact in total nanoseconds for any offset and any time. |
| `Timing.TimespecCell.TimePlus` | utility.c:169-181 | The update in place does what Plus says, exactly. |
| `Timing.OffsetOfPlus` | utility.c:145-181 | Moving a time and measuring the move are inverse. |
| `Timing.OffsetMonotone` | utility.c:145-161 | Offsets of clock readings never run backwards. |
| `TimeSync.ShiftExact` | protocol.c:139 | The 32-bit arithmetic of the handler computes minus (offset plus latency) if and only if that sum is at most 2^31 ms; one more flips the sign. |
| `TimeSync.GenuineWithinRoundTrip` | protocol.c:129-140 | Any pong answered between the ping's departure and the pong's arrival is genuine with legs between nothing and its round trip, so the bounds below contain half the round trip as a special case. |
| `TimeSync.EstimateError` | protocol.c:134-140 | A genuine pong whose two legs lie in a range gives the remote's base to half the width of that range plus a constant, if and only if the 32-bit arithmetic does not overflow. |
| `TimeSync.HalfStepBetween` | protocol.c:140-148 | The averaging step never leaves the interval between old base and new estimate. |
| `TimeSync.AdjustIsHalfway` | protocol.c:140-154 | With a base on record, an accepted pong moves it half the way to the new estimate, to a millisecond. |
| `TimeSync.AdjustError` | protocol.c:134-154 | One accepted pong keeps any error bound that the old base and the pong meet. |
| `TimeSync.SyncBound` | protocol.c:134-154 | After any positive number of genuine pongs the error is at most half of what legs may differ by, plus a constant, independent of how many pongs there were. |
| `Networks.MaskArray` | utility.c:183-192 | Byte-wise conjunction, also when the result overwrites the original. |
| `Networks.MaskArrayCmp` | utility.c:194-214 | Zero exactly when both sides agree under the mask. |
| `Networks.MaskBase` | protocol.c:491 | Masking a base in place gives the network as it is stored. |
| `Networks.MaskedSame` | protocol.c:491 | The stored network has exactly the members of the one received. |
| `Networks.DisjointIffDiffer` | hopper.c:571-585 | Two networks share no address exactly when their bases differ in a bit both masks cover. |
| `Networks.NarrowerIsDisjoint` | protocol.c:453-467 | A network whose base lies outside a known one, and whose mask contains the known mask, is disjoint from it. |
| `Networks.LearnedDisjoint` | protocol.c:453-467 | For comparable masks, an accepted network is disjoint from a known one exactly when the known base is not inside it. |
| `Hopping.Truncate` | crypto.c:18-25 | The truncated value is below 2^31, whatever the code bytes. |
| `Hopping.TruncateBytes` | crypto.c:18-25 | It is made of the four code bytes from where the last four bits point to, most significant first, without the top bit. |
| `Hopping.HostByte` | hopper.c:529-555 | Outside the mask an address consists of those bytes of the code of its hop, last one first. |
| `Hopping.GenerateIp` | hopper.c:529-555 | The byte loop fills the buffer with network base and hop bits in the host part. |
| `Hopping.GeneratedInNetwork` | hopper.c:529-555 | Every generated address lies in the gate's network. |
| `Hopping.IsValidIp` | hopper.c:426-449 | True exactly for two addresses: that of the hop of the first clock reading and that of the hop one interval before the second. Everything else in the network is refused. |
| `Hopping.OtherHopsRefused` | hopper.c:426-449 | The address of any other hop is refused, unless it coincides with one of those two. |
| `Hopping.StaleOrEarly` | hopper.c:426-449 | In particular every address generated two intervals ago or one interval ahead. |
| `Hopping.OneHopBackExact` | hopper.c:439 | The negated unsigned interval means one hop back exactly for intervals up to 2^31 ms. |
| `Hopping.CountNext` | crypto.c:33-40 | The hop counter goes up by one per interval. |
| `Hopping.CountTolerance` | crypto.c:33-40 | Integer division by the interval: a receiver at most one interval later counts the sender's hop as its current or its previous one. |
| `Hopping.HopTolerance` | hopper.c:426-449 | An address generated by one record is accepted by another record of the same owner when the receiving clock is no earlier and at most one interval later. |
| `HopSync.LagTolerance` | hopper.c:426-449 | The same in nanoseconds, with one millisecond of rounding at each end. |
| `HopSync.BothAddressesAccepted` | director.c:314-330 | With both time bases known to some error, both address checks of the receiver pass when transit time and errors fit the hop interval. |
| `HopSync.SyncedGatesAccept` | director.c:314-330 | On a network whose packets all take between a least and a most time, one genuine pong in each direction is enough: every later packet passes both address checks, whatever its own transit time in that range. |
| `HopSync.FixedDelayFits` | director.c:314-330 | With one fixed delay the conditions come down to this: delay at least the gap between clock readings plus 3 ms, hop interval at least delay plus twice that gap plus 3 ms. |
| `GateList.Gates.GetArgNetwork` | hopper.c:571-585 | The first gate of the list whose network holds the address, or none. |
| `GateList.Gates.Insert` | protocol.c:494-498 | The new gate comes right behind our own; the chain stays acyclic although the old successor's prev is not set. |
| `GateList.Gates.Learn` | protocol.c:450-502 | A gate is added exactly when no known network holds its base, then right behind our own, with its base masked and its name cut to nine characters. |
| `GateList.Gates.Remove` | hopper.c:339-360 | With a stale prev, removal drops everything between that prev and the gate; the list stays a list. |
| `GateList.SkippingIsForward` | hopper.c:339-360 | Once next skips the gates between two others, it runs through exactly the remaining ones. |
| `GateList.RepointedIsBackward` | hopper.c:339-360 | And prev leads back along them, exactly if it did before. |
| `GateList.Gates.RemoveAll` | hopper.c:362-376 | Terminates and leaves exactly our own gate, although prev links may be stale. |
| `GateList.Gates.MoveToFront` | hopper.c:167-183 | Our own gate becomes head, the others keep their order, next and prev stay inverse. |
| `GateList.Gates.Configure` | hopper.c:117-196 | The configured list, bases masked and names cut: our own entry first, the others in order; an error exactly when our name is not among the stored names. |
| `Routing.RouteAndLearn` | protocol.c:450-502 | Routing and learning on the pointer list are the two functions on networks. |
| `Routing.LearnKeepsDisjoint` | protocol.c:453-467 | Networks stay pairwise disjoint after learning exactly when no known base lies in the new network. |
| `Routing.RunKeepsDisjoint` | protocol.c:428-511 | Over any run of trust packets whose masks contain all known ones, networks stay pairwise disjoint. |
| `Routing.HopsRouteHome` | hopper.c:571-585 | Then every address a gate hops to is routed to that gate. |
| `Routing.WiderTrustMisroutes` | protocol.c:453-467 | A concrete trust packet with a shorter mask that takes over addresses of a known gate. |
| `NatBuckets.NatBucket.CreateEntry` | nat.c:286-317 | The new flow, gateway port equal to internal port, becomes the head; list links stay inverse and entries point to their bucket. |
| `NatBuckets.RemoveEntry` | nat.c:364-388 | Exactly that entry leaves the list, also as its head, and its successor is returned. |
| `NatBuckets.SkippingIsValid` | nat.c:364-388 | Once the neighbours of an entry are connected, the links spell out the list without it, both ways. |
| `NatBuckets.Sweep` | nat.c:424-433 | Walking a list while unlinking leaves exactly the flows that are not expired, in order. |
| `NatBuckets.RemoveAllEntries` | nat.c:345-357 | The list ends empty. |
| `Nat.NatTable.OutboundRewrite` | nat.c:132-214 | Hash table and entry lists change, and the packet is rewritten, as the value specification says, the flow being marked used at this moment. |
| `Nat.NatTable.InboundRewrite` | nat.c:55-130 | The same for inbound packets, with both error cases leaving the table as it is. |
| `Nat.NatTable.RemoveBucket` | nat.c:345-362 | The bucket with all its entries leaves the table; the next bucket in insertion order is returned. |
| `Nat.NatTable.Clean` | nat.c:410-442 | One pass, unlinking as it goes, terminates and leaves exactly the specified table. |
| `Nat.NatTable.Empty` | nat.c:333-343 | The table ends empty. |
| `NatRuns.CleanedFlows` | nat.c:410-442 | After a pass every key holds exactly its flows that are not idle longer than NAT_CLEAN_TIME, in their order. |
| `NatRuns.RunKeeps` | nat.c:55-442 | Over any run: keys unique, no empty bucket, flows unique in their bucket, gateway port equal to internal port. |
| `NatRuns.StepStable` | nat.c:55-442 | A flow disappears exactly when a cleaning pass finds it expired, and keeps its gateway endpoint otherwise. |
| `NatTimes.UseStep` | nat.c:55-442 | Only packets of a flow, in either direction, make it and mark it used; only a cleaning pass more than 20 s after the last of them ends it. |
| `NatTimes.FlowIff` | nat.c:55-442 | In every reachable table a flow is there exactly if it has had a packet and no cleaning pass has come more than 20 s after its last one; it carries the time of that packet. Told by events alone. |
| `NatTimes.CleanRemovesIff` | nat.c:410-442 | A cleaning pass takes away exactly the flows whose last packet is more than 20 s old. |
| `NatRuns.OnlySourceChanges` | nat.c:189-202 | Going out, a packet changes its source address and nothing else, in any reachable table. |
| `NatRuns.OnlyDestinationChanges` | nat.c:105-118 | Coming in, its destination address and nothing else. |
| `NatRuns.FlowStability` | nat.c:132-214 | While a flow's entry survives, every packet of it gets the same gateway address and port, however the gate hops. |
| `NatRuns.ReplyReaches` | nat.c:55-130 | A reply reaches the original internal endpoint exactly when no newer entry shares protocol, gateway address and port. |
| `NatRuns.InboundAnswer` | nat.c:55-130 | An inbound packet is refused, or sent to the internal endpoint of the first flow of its bucket with that gateway endpoint. |
| `NatRuns.FirstReplyReturns` | nat.c:55-214 | The reply to the packet that created a flow comes back to its sender. |
| `NatRuns.ShadowedReply` | nat.c:286-317 | Two internal hosts with the same port and gateway address: the reply to the first goes to the second. |
| `NatRuns.KeyCollision` | nat.c:324-331 | Two external endpoints share a bucket exactly when their addresses differ in the bits their ports differ in. |
| `Checksum.FoldTwice` | packet.c:485-487 | Two folds bring any 32-bit sum to its 16-bit one's-complement value. |
| `Checksum.FastSumRefines` | packet.c:463-487 | Adding in 32 bits and folding twice is the one's-complement sum of sections 1 and 2 of RFC 1071. |
| `Checksum.CoveredSum` | packet.c:463-483 | The sum over any packet with a length that is not negative fits 32 bits. |
| `Checksum.SumSegment` | packet.c:463-472 | The loop sums the words of the segment. |
| `Checksum.WordsAt` | packet.c:463-468 | Words are big-endian pairs of bytes. |
| `Checksum.OddIsPadded` | packet.c:471-472 | An odd segment is summed as if a zero byte followed it. |
| `Checksum.CheckWordIsInternet` | packet.c:436-493 | The computed word is the Internet checksum of the bytes of pseudo-header (source, destination, zero, protocol, unpadded length) and padded segment. |
| `Checksum.CsumWithPseudo` | packet.c:436-493 | The check field, and nothing else, becomes the Internet checksum over pseudo-header (section 3.1 of RFC 9293, RFC 768) and segment, an odd segment padded with a zero byte at its end; packets that are neither TCP nor UDP stay as they are; a length field that leads beyond the packet is told apart, and so is the negative length of a TCP packet shorter than its header, which wraps. |
| `Checksum.ReceiverAccepts` | packet.c:436-493 | Summing again with a stored value gives all ones exactly when the value is the computed checksum, up to the two spellings of zero. |
| `Checksum.ChecksummedIsAccepted` | packet.c:436-493 | So the packet the code leaves is accepted, whenever the summed bytes include the check field. |
| `Checksum.ChecksumIdempotent` | packet.c:417-434 | Recomputing changes nothing. |
| `Checksum.FixChecksums` | nat.c:113-118 | Calling both checksum functions, which sums a UDP packet twice, gives the result of one computation, for any packet. |
| `Checksum.NatRewrite` | nat.c:113-118 | After a rewrite the packet is the old one with the new address, for TCP and UDP the new port, and a checksum the receiver accepts, whatever the old one was; a packet of another protocol gets the address alone; one whose length leads beyond it is told apart. |
| `Checksum.RewriteChanges` | nat.c:105-118 | Going in, destination address and port change, going out, source address and port; besides them only the check field. |
| `Checksum.StoresZeroIff` | packet.c:489-492 | The stored value is zero exactly when the covered sum is a multiple of 0xFFFF (RFC 768 asks for all ones then). |
| `Checksum.ZeroUdpChecksum` | packet.c:489-492 | A UDP packet for which that happens. |
| `Protocol.Peer.ProcessArgPacket` | protocol.c:764-934 | Check order, error cases and the sequence number written, for every packet: the number moves before the seal is looked at, connection data out of order needs a changed IV and resets it. |
| `Protocol.Peer.ProcessArgPing` | protocol.c:105-225 | A pong answering our last ping moves time base, latency and flags; a request is answered once, and the answer asks for nothing. |
| `Protocol.Peer.AcceptPong` | protocol.c:129-183 | Time base by the averaging step, latency three quarters old, a new ping when the latency is off by more than a quarter. |
| `Protocol.Peer.PongIds` | protocol.c:191-206 | An answer echoes the request and has request id 0. |
| `Protocol.Peer.ProcessArgConnDataReq` | protocol.c:271-286 | Accepted data is stored and answered with our own; refused data changes nothing but what the check records. |
| `Protocol.Peer.ProcessArgConnDataResp` | protocol.c:288-348 | Accepted data is stored with the time, the remote is connected if its time base is known, and a ping and trust data are asked for. |
| `Protocol.Peer.SendTrust` | protocol.c:351-378 | One trust packet per other gate, in order, each with the next sequence number. |
| `Protocol.Peer.DoNextProtocolAction` | protocol.c:37-63 | What is sent, in which order and at which rates, and which requests stay pending. |
| `Protocol.Peer.Visit` | hopper.c:230-298 | One round of the admin loop for a remote: time-out, periodic connection attempts, pings for bad addresses or age. |
| `Protocol.Peer.DirectInbound` | director.c:281-344 | Dispatch by message type and the gating of wrapped packets by connection and both address checks, with the address counters. |
| `Protocol.Peer.WrapOut` | director.c:355-371 | Nothing leaves for a remote that is not connected. |
| `RemoteRuns.FlagsStep` | protocol.c:30-35 | What any event does to the three connection flags, both directions. |
| `RemoteRuns.ConnectedIff` | protocol.c:179-182 | In every run, connected exactly when connection data and a matching pong were accepted since the connection last ended, in either order. |
| `Sessions.VisitEndsIff` | hopper.c:247-256 | In any run, a visit of the admin loop ends a connection exactly if the last connection data was accepted more than 180 s before, to the millisecond. |
| `Sessions.DataHoldsConnection` | protocol.c:321 | So no visit ends a connection within 180 s of any connection data accepted, while the clock runs forwards. |
| `Sessions.OverdueEnds` | hopper.c:247-256 | And a visit later than that, to a millisecond, ends it. |
| `Arrivals.TakesIff` | protocol.c:764-934 | When any packet is accepted: number or new IV, seal, lock, and for wrapped packets connection and addresses, in one condition. |
| `Arrivals.AnswersIff` | protocol.c:191-286 | A ping that asks and a connection request are answered exactly if admissible, by one packet with our next number, seal and lock; nothing else is answered. |
| `Arrivals.PutsOutIff` | director.c:305-341 | A wrapped packet is put out, and a trust packet teaches, exactly if admissible. |
| `Arrivals.CountsStep` | director.c:314-330 | A wrapped packet from a connected remote is counted as good or bad by its two addresses alone. |
| `Arrivals.AsksIff` | protocol.c:155-183 | What asks for another ping, and what for trust packets. |
| `Arrivals.LatencyStep` | protocol.c:155-170 | Only an answer to our ping moves the latency, a quarter of the way to the sample, or onto it when there was none. |
| `Visits.VisitSends` | hopper.c:230-298 | Exactly which packets leave in a visit and in which order: a ping with the number drawn, a request (not a response) with our keys, one trust packet per other gate; consecutive numbers, our seal, the fitting lock; each with its exact condition. |
| `Visits.VisitLeaves` | hopper.c:230-298 | What a visit leaves asked for, connected, remembered and counted. |
| `Visits.ManyBadIff` | hopper.c:267-276 | The integer division of good by bad addresses asks for fewer than 20 good ones per bad one, until the count no longer fits an int. |
| `Visits.PingsStayRecent` | hopper.c:262-280 | A remote that is connected after a visit was pinged in it or at most 30 s before. |
| `RemoteRuns.SeqStep` | protocol.c:786-806 | The recorded sequence number after any event, and which packets can be accepted at all. |
| `RemoteRuns.OnlyWrapsAndResetsLower` | protocol.c:909-929 | The number goes down only by the wrap clause or the reset of connection data with a changed IV. |
| `RemoteRuns.AcceptedRise` | protocol.c:786-806 | Between wraps and resets, accepted sequence numbers rise strictly. |
| `RemoteRuns.NoReplay` | protocol.c:786-806 | So no packet is accepted twice between them, however often it arrives. |
| `Replays.ReplayIff` | protocol.c:786-934 | A packet accepted once is accepted again exactly when its number exceeds the recorded one, or is below 10 with the recorded one above 65525; connection data also with an IV that is not on record; a wrapped packet only on a live connection, from valid addresses, under the key on record. For every kind of packet, in any run. |
| `Replays.ReplayAfterWrap` | protocol.c:788-792 | Far from 2^32, pings numbered 5, 65526 and the first one again are all accepted. |
| `Replays.ReplayAfterReset` | protocol.c:909-929 | After connection data with a new IV and an old number, an old ping is accepted again. |
| `Numbering.DamageBlocks` | protocol.c:786-806 | One ping numbered 2^32-1, even with a broken seal, and every ping, trust packet and wrapped packet numbered 10 or more is refused until connection data or a smaller number arrives. |
| `RemoteRuns.InOrderAfterLoss` | protocol.c:788-792 | Across the end of the 32-bit range a number is let through exactly if fewer than ten numbers of the new round are gone. |
| `RemoteRuns.SendsApart` | protocol.c:37-63 | Pings of the admin loop to one remote are more than MIN_PING_TIME apart, connection requests more than CONNECT_WAIT_TIME after any connection data sent. |
| `SyncRuns.BaseStep` | protocol.c:134-154 | Only an accepted pong moves a remote's time base. |
| `SyncRuns.ConnectedMeansSynced` | protocol.c:129-182 | In every run, a connected remote's time base is good to what the legs of its accepted pongs may differ by. |
| `SyncRuns.PingStep` | protocol.c:65-103 | The record holds the number and the time of the last ping sent, after any event. |
| `SyncRuns.AnswerOffset` | protocol.c:191-198 | The answer to a ping carries the answering gate's clock offset, right to a millisecond, and the request's id. |
| `GateNetwork.ReceiveKeeps` | protocol.c:764-934 | Handling a genuine or damaged packet keeps the record right, answers honestly, and teaches only gates with their own public key. |
| `GateNetwork.RunKeeps` | protocol.c:37-511 | In every reachable state of any number of gates on a losing, duplicating, reordering, damaging network, all records are right and all packets honest. |
| `GateNetwork.KeyAgreement` | protocol.c:245-251 | In every reachable state, a gate that has connection data of a remote holds exactly the remote's own keys, IV, hop key and hop interval. |
| `GateNetwork.WrappedArrives` | protocol.c:518-599 | In every reachable state with both sides connected, a wrapped packet arriving in order at valid addresses is put out unchanged. |
| `Numbering.RunNumbers` | protocol.c:677 | Without damaged packets and before 2^32-2 packets are sent, no number in flight or on record has reached its sender's counter, in every reachable state. |
| `Numbering.NextIsInOrder` | protocol.c:786-806 | So the next packet of any gate is in order at its receiver, whatever was lost, duplicated or reordered. |
| `GateNetwork.ReplyLighter` | protocol.c:191-211 | Handling a packet sends at most one packet, only in answer to a request, and the answer is no request. |
| `GateNetwork.AtMostTwice` | protocol.c:271-286 | Without duplication, k packets sent by gates on their own cause at most 2k packets in all. |
| `GateNetwork.CascadeEnds` | protocol.c:191-211 | And with no more such packets, deliveries end after at most as many as what is in flight weighs. |
| `SystemRuns.RecordIsRun` | protocol.c:37-511 | Each record of a reachable state is the run of its own events from a new record, so the run theorems hold in the system. |
| `SystemRuns.ConnectedInSystem` | protocol.c:179-182 | The meaning of connected, in every reachable state of the system. |
| `SystemRuns.LearnedIsAsked` | protocol.c:494-502 | A gate learned of through trust data is asked for its connection data in the first visit more than a minute after the start of the clock, and sent nothing else in it. |
| `TimedRuns.PingOrigin` | protocol.c:65-103 | In any run, a ping that asks for an answer was sent by a visit of the admin loop that drew its number. |
| `TimedRuns.PongOrigin` | protocol.c:191-206 | In any run, a pong was sent on acceptance of a ping with that number, with the offset read then. |
| `TimedRuns.LastPing` | protocol.c:65-103 | The number and time on record are those of a visit that sent a ping. |
| `TimedRuns.PongTrip` | protocol.c:105-140 | With fresh ping numbers, an accepted pong answers the very ping whose departure is on record: the two legs are found in the run. |
| `TimedRuns.TakenPongIsGenuine` | protocol.c:129-140 | So every pong a gate accepts is genuine for the answering gate's time base, and computed without overflow. |
| `TimedRuns.SyncedInTime` | protocol.c:129-182 | In every reachable state of a system in real time, whatever the network does, a connected remote's time base is known to half of what legs may differ by, plus a constant. |
| `Wrapping.BufferHoldsIff` | protocol.c:640-644 | The buffer size, computed in 16 bits, suffices exactly for payloads of at most 65251 bytes. |
| `Wrapping.MakeNonce` | protocol.c:691-694 | The loop mixes the four sequence bytes, as they stand in the packet, into the IV. |
| `Wrapping.CryptBlocks` | protocol.c:700-709 | Feeding the cipher block by block is one exclusive-or of the whole message with the key stream. |
| `Wrapping.CreateWrapped` | protocol.c:622-762 | The buffer, filled in place, is header, code over the packet with a zero signature, and encrypted payload, with both lengths right; it is too short exactly for payloads above 65251 bytes. |
| `Wrapping.TakeApart` | protocol.c:816-885 | For any bytes: a message or an empty payload comes out exactly if the code over the packet with a blanked field is right, in all 128 bytes; otherwise a packet that is all there has a bad code. Decrypts block by block; tells apart lengths beyond what arrived. |
| `PacketFormat.MessageIff` | protocol.c:816-885 | When a message comes out, byte by byte what it is, and when a code is bad. |
| `PacketFormat.ChangedCodeIsBad` | protocol.c:833-838 | Changing the code field of a packet that gives a message, in any way, makes it a bad code. |
| `PacketFormat.WrappedBytes` | protocol.c:622-762 | Where every byte of a wrapped packet comes from: both headers, code, encrypted payload. |
| `PacketFormat.NonceInjective` | protocol.c:691-694 | Different sequence bytes start the cipher from different points. |
| `Wrapping.WrapUnwrap` | protocol.c:518-599 | Unwrapping inverts wrapping, for every payload within the limit, and reads back the sequence number. |
| `Wrapping.SendArgWrapped` | protocol.c:518-553 | Refuses unconnected remotes, else takes the next sequence number and emits the packet, unless the buffer is too short for it. |
| `Wrapping.ProcessArgWrapped` | protocol.c:555-599 | For any bytes: refuses unconnected remotes and numbers out of order; else records the number and gives the payload or the failure. |
| `Wrapping.SendAcross` | protocol.c:518-599 | Two gates with each other's keys: the receiver puts out the sender's bytes, and the sequence numbers move on. |
| `Wrapping.ReachableRoundTrip` | protocol.c:518-599 | Mutually connected gates of any reachable state meet these conditions. |
| `EndToEnd.AddressesFit` | director.c:314-330 | In every reachable state of a run in time, both address checks accept what two connected gates send each other. |
| `EndToEnd.WrappedPacketGetsThrough` | director.c:281-371 | In every reachable state of a run in time with both sides connected: the sender routes by destination to the receiver, the receiver routes by source to its record of the sender, both address checks pass, and the payload comes out unchanged, if the next number is in order. |
| `EndToEnd.UndamagedPacketsGetThrough` | director.c:281-371 | And it is in order when no packet was damaged and the counters have not wrapped. |
| `GateLog.FindUnlogged` | scripts/process_run.py:1050-1059 | The query: the smallest id of a packet of this system, not logged yet, that fits. |
| `GateLog.ReadLines` | scripts/process_run.py:1050-1120 | Line by line, the marks and pending links are those of the specification. |
| `GateLog.MakeLinks` | scripts/process_run.py:1137 | All pending links are written, in order. |
| `GateLog.RecordGateLog` | scripts/process_run.py:968-1143 | Marks packets line by line, then makes all links, as specified; links stay injective and join logged packets. |
| `GateLog.LogKeeps` | scripts/process_run.py:1050-1120 | While a log is read, no packet enters two pending links on the same side, and linked packets share their log line. |
| `GateLog.LinksFollowLog` | scripts/process_run.py:1050-1120 | Every link goes from a packet received, from the source and with the hash a log line gives, to a packet sent with the hash it gives for that, both marked with that line. |
| `GateLog.MarkedTogetherIsLinked` | scripts/process_run.py:1050-1120 | And two packets marked by one line are linked. |
| `GateLog.LinkingKeeps` | scripts/process_run.py:1137 | Making the pending links keeps links injective, and exactly they are new. |
| `GateLog.RecordAndTrace` | scripts/process_run.py:795-1260 | From logs to trace: every send ends linked or failed, links stay injective, every choice is the greedy one of its moment and joins a packet sent by one system to the same data received by another within 15 s, and the pass stops exactly when a send to be traced lacks source or destination. |
| `Trace.MatchesIff` | scripts/process_run.py:1205-1220 | A receive answers the query for a send exactly if both carry the same data, protocol, known source and destination, on different systems, at most 15 s apart. |
| `Trace.PacketTable.FindReceive` | scripts/process_run.py:1205-1220 | The earliest receive that matches and is nobody's next hop. |
| `Trace.PacketTable.TraceOne` | scripts/process_run.py:1197-1250 | One packet is linked to the earliest receive that matches and is free at that moment, or marked failed when there is none. |
| `Trace.PacketTable.TracePackets` | scripts/process_run.py:1149-1260 | The loop ends; the tables it goes through are a chain of such greedy steps from the first to the last; links stay injective; every send is linked or failed; it raises exactly when a packet to trace lacks source or destination. |
| `TraceLinks.AcyclicIffEnds` | scripts/process_run.py:1364-1413 | No packet is on a cycle exactly when every chain runs out. |
| `TraceLinks.MeetingChains` | scripts/process_run.py:1205-1226 | With injective links, chains that meet are one chain: traces are disjoint paths or cycles. |
| `TraceLinks.SameEndIff` | scripts/process_run.py:1364-1413 | Two packets share their last packet exactly when one lies on the other's chain. |
| `TraceLinks.EndUnique` | scripts/process_run.py:1399-1408 | A chain has one last packet. |
| `TraceLinks.StartsNeverCycle` | scripts/process_run.py:1492-1506 | From a packet nobody links to, the chain runs out. |
| `TraceLinks.CycleIsTargeted` | scripts/process_run.py:1492-1506 | Every packet on a cycle is linked to, so the cycle check starts at none of them. |
| `TraceLinks.LongChainLooksCyclic` | scripts/process_run.py:1433-1451 | Ten packets in a row, without a cycle, are as long as the cycle check follows. |
| `Trace.PacketTable.CheckTrace` | scripts/process_run.py:1433-1451 | True exactly when the chain has fewer packets than the limit. |
| `Trace.PacketTable.CheckForCycles` | scripts/process_run.py:1421-1428 | Reports exactly the unlinked-to sends whose chain has ten packets or more, and never a packet on a cycle. |
| `Trace.PacketTable.FindTerminal` | scripts/process_run.py:1399-1408 | On a chain that runs out, the inner loop ends, finds the chain's last packet, and does not reach the exception. |
| `Trace.PacketTable.LocateTerminations` | scripts/process_run.py:1354-1419 | On acyclic links every packet gets the last packet of its chain. |
| `UtHash.HashTable.MakeTable` | uthash.h:140-157 | 32 empty buckets, all counters zero, the tail at the head. |
| `UtHash.HashTable.Append` | uthash.h:172-176 | The element becomes the last in insertion order, linked both ways. |
| `UtHash.HashTable.Unlist` | uthash.h:214-231 | Exactly that element leaves the insertion order, at the head, at the tail or between. |
| `UtHash.HashTable.MoveAll` | uthash.h:662-681 | The double loop moves every handle of every old chain, visiting each once although its links change on the way. |
| `UtHash.HashTable.CheckChain` | uthash.h:270-286 | Counts a chain, and finds it good exactly if every backward link is right. |
| `UtHash.HashTable.CheckList` | uthash.h:292-309 | Counts the insertion order, and finds it good exactly if every backward link is right. |
| `NatBuckets.NatBucket.FindByInternal` | nat.c:162-172 | The newest entry with that protocol, internal address and port, or none. |
| `NatBuckets.NatBucket.FindByExternal` | nat.c:82-92 | The newest entry with that protocol, gateway port and address, or none. |
| `Nat.NatTable.FindOrCreate` | nat.c:147-160 | The bucket of the key, a new empty one at the end only if there was none. |
| `Checksum.AddPseudo` | packet.c:474-483 | Adds exactly the six words of the pseudo-header, wrapping at 32 bits for a negative length. |
| `Checksum.Locate` | packet.c:449-461 | Finds transport header, check field and length, and whether they lie within the packet. |
| `Octets.XorTwice` | protocol.c:691-709 | Exclusive-or with the same byte twice is nothing, by recursion over the eight bits. |
| `Octets.LongRoundTrip` | protocol.c:786 | A 32-bit number written in network order is read back. |
| `Protocol.Peer.SendArgPacket` | protocol.c:601-620 | One packet with the next sequence number, the receiver's lock and the sender's seal leaves; nothing else changes. |
| `Protocol.Peer.SendArgPing` | protocol.c:65-103 | The ping carries the number drawn, which is remembered with the time it left. |
| `Protocol.Peer.SendArgConnData` | protocol.c:227-269 | Our own keys leave as request or response, and the attempt's time is recorded. |
| `Protocol.Peer.EndConnection` | protocol.c:30-35 | All three connection flags fall; keys and sequence numbers stay. |
| `Protocol.Peer.Unwrap` | director.c:305-341 | An unconnected remote or a bad address stops the packet before it is checked; good and bad addresses are counted. |
| `GateLog.RecordEntry` | scripts/process_run.py:1050-1120 | A line marks the packet received, then the packet sent, and links them if both were found. |
| `Trace.PacketTable.FetchNeeding` | scripts/process_run.py:1182-1188 | A chunk of distinct packets that need tracing, empty only when none does. |
| `Trace.PacketTable.MarkEnds` | scripts/process_run.py:1367 | Packets without next hop are their own terminals, no other column changes. |
| `Trace.PacketTable.FetchOpen` | scripts/process_run.py:1383-1388 | Packets without terminal, last ids first, empty only when there are none. |
| `TraceLinks.EndsIffEnd` | scripts/process_run.py:1399-1408 | The inner loop has an end to find exactly when the chain runs out. |

## Left out

- pcap capture, raw sockets, ARP replies, device queries and thread start-up: input and output. A send appends to a sequence.
- RSA, AES, SHA-1, SHA-256, HMAC and MD5 internals, and random numbers: parameters.
- Reading configuration and key files, and `gen_gate_config.c`: plumbing; `Configure` starts from the entries read.
- Logging and packet-id strings: they influence nothing else but the input of the tracing script.
- malloc failures, freed memory and failing sends: allocation and sending succeed, freed objects are just no longer linked.
- HASH_SELECT, the Bloom filter and the concrete hash functions of `uthash.h`.
- uthash counters are unbounded, and masking with a power of two less one is written as a remainder.
- The torn-down hash table object: a table that loses its last element forgets its buckets when the next element is added.
- `invalid_ip_direction`, the print functions and the test tools: not on any live path.
- `complete_packet_intentions` and the statistics of `process_run.py`: the same walks again, with less to say about them.
- Client logs and SQL transactions of `process_run.py`: a client log only marks packets as logged.
- What the code does after reading or writing beyond a packet: the model names that outcome (`inside` in `Checksum`, `Overrun` and `BufferOverrun` in `Wrapping`) and stops there. For an odd length the checksum loop also reads one byte beyond the segment, whose value is masked away.
- What the code does after a wrapped packet with a valid code but no payload, where it dereferences a null message: the outcome is `NoMessage`.
- NatRewrite: does not model a header length field below 20 bytes, for which the ports would lie inside the IP header itself; no IPv4 header is that short.
- Big-endian hosts: the bytes mixed into the nonce are taken in memory order as on a little-endian host.
- `Protocol.Peer` keeps gates apart by identity, `GateList` and `Routing` by network and name; the model does not put both into one record.
- The director's choice between gate protocol and NAT is the result of `GetArgNetwork`; the two sides are modelled apart, with addresses as bytes here and as words there.
- A packet from inside for our own network: `do_arg_wrap` ignores it; the model starts at packets for another gate.
- Restarting gates: key agreement is about gates that keep their keys; of a restart only the reset of the sequence number is modelled.
- The latency average is computed with truncated integer division, which is what the floating point expression gives for latencies below 2^51 ms.
