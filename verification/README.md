# Verified model of the tunnel's protocols and tables

A Dafny model of the parts of this repository that decide who may send, who owns which address and what a
packet looks like on the way, with proofs of what they promise.

**The multiplexer** (`nps-master/lib/nps_mux`). `MuxFlow` is the flow control of one direction of a connection as
a step system: the writer, the sending side's mux reader, the receiving side's mux reader, the reading goroutine
and the application share two window words, a queue and two message streams, and every load, compare-and-swap and
channel operation is a step. `MuxFlowInvariants`, `MuxFlowStream` and `MuxFlowTheorems` prove conservation, the memory bound,
the absence of lost wakeups and stream correctness over every run, and `MuxFlowProgress` that the work inside a
connection is bounded by what the application asks for. Below it `BufRing`, `BufChain`, `BufChainProofs` and
`BufChainTheorems` treat the growing chain of rings under the queue, for one producer and one consumer, down to its atomic
accesses; `PriorityQueue`, `MuxCodec`, `WindowWord` and `ConnIds` are the send queue, the message codec, the window
word and the connection identifiers.

**The server's tables** (`internal/server`). `IpPool`, `DeviceTable` and `Server` are the classes with their maps;
`Devices` and `Sessions` are the functions they are proved against; `DeviceInvariants` and `SessionTheorems` prove what
every run from an empty server keeps. `DeviceFile` is saving and loading; `DeviceRestart` and `RestartTheorems` are about runs after a restart,
`Registration` about the registration handler between its calls to the table.

**Packets** (`internal/client/nat.go`, `internal/server/icmp.go`). `Checksum` is the Internet checksum, `Packet` the rewriting of
packets for any pair of checksum functions, `Rewrite` the same in place with the Internet checksum, `Nat` and
`NatTheorems` the translator with its connection tracking against the history of packets, `Icmp` the echo answer.
Addresses and ports in packets are kept as octets (`Octets`).

**The rest.** `Text` and `Forward`: forwarding rules. `UdpProxy`, `UdpInvariants`, `UdpTheorems`: the session protocol of the UDP
proxy, in which placeholders, waiters, removal and the connection quota interleave; `UdpRuns` puts runs together,
and `UdpLimit`, `UdpRemoval` and `UdpStreams` are about the three promises it does not keep. `ClientHello`, `ClientHelloTheorems`:
the TLS ClientHello parser.

Concurrent code is modelled on values, as a state and its atomic steps; code that runs under a lock or in one
goroutine is a class with methods. Clocks, random credentials and outcomes of I/O are parameters.

## What the code does not promise

- `removeSession` compares and deletes in two steps, and `failBuild` deletes without comparing. A sweeper, a failed
  write or the owner that has compared can delete after somebody else has removed the session and a packet has
  taken the key again, so an ending session can remove its successor (`UdpRemoval.SuccessorCanBeRemoved`), and so can a
  failed one (`UdpRemoval.FailedBuildCanHit`). Over a whole run this happens exactly when some deletion of
  `removeSession` is overtaken between its two steps (`UdpRemoval.RunHitsExactly`); it cannot where they are adjacent
  (`UdpRemoval.AtomicRemovalIsSafe`). The comment in the source takes it to be impossible.
- A source can have two streams at a time, and be charged for both, even where the two steps are adjacent
  (`UdpStreams.SecondStreamCanStart`): the sweeper and a failed write remove a session before its owner has noticed. It
  takes such a removal (`UdpStreams.SecondStreamNeedsEviction`), and where no deletion has hit another session it is
  exactly that (`UdpStreams.SecondStreamExactly`). The comment in the source promises one stream for a source at any time.
- `GetConn` compares with the limit and adds in two steps, so the number of connections can pass the limit
  (`UdpLimit.LimitCanBePassed`). `UdpLimit.ExceedsExactly` says at which step it does, and `UdpLimit.CanExceedExactly` from which
  states it can: whenever the rest of the program leaves a place, or an owner is past its comparison.
- `SetCredential` does not look at the block flag. `handleRegister` does, but in a separate step; blocks are honoured
  exactly in the runs in which no handler is overtaken between the two (`Registration.BlockHonouredExactly`).
- Loaded leases are not claimed in the new pool, and `Assign` asks whether an address is held, not by whom. Until the
  owners are back two devices can be given one address (`RestartTheorems.StrangerTakesLeasedAddress`). The tables stay
  right after a restart exactly as long as no fresh connection is handed an address on record
  (`RestartTheorems.RestartStaysConsistentExactly`), and `DeviceRestart.FreshAddressCollides` says when it is.
- A UDP checksum that comes out as zero is sent as zero, where RFC 768 wants all ones; see `Rewrite.UdpFieldZero` and
  `NatTheorems.SentOnWithoutChecksum`. The sum over the datagram verifies all the same.

## Model

| member | source | states |
|---|---|---|
| WindowWord.UnpackPack | nps-master/lib/nps_mux/conn.go:127-146 | unpacking a packed window gives back its three parts, the counters cut to 31 bits, so it is the identity below 2^31 |
| WindowWord.PackInjective | nps-master/lib/nps_mux/conn.go:127-146 | two windows with counters below 2^31 that pack to the same 64-bit word are the same, so comparing words in a swap compares windows |
| MuxFlowInvariants.StepInv | nps-master/lib/nps_mux/conn.go:260-635 | every step keeps shapes, wait handshakes, the queue length, credit conservation and the window bound |
| MuxFlowInvariants.ExecInv | nps-master/lib/nps_mux/conn.go:260-635 | these hold in every state of every run |
| MuxFlowInvariants.DTrySwapInv | nps-master/lib/nps_mux/conn.go:348-385 | the swap in `sendStatus` moves the element just read into the receiver's count or into a credit, and loses nothing in either case |
| MuxFlowInvariants.RTrySwapInv | nps-master/lib/nps_mux/conn.go:260-298 | the swap in `receiveWindow.Write` moves the count into a credit or marks the window full, and loses nothing |
| MuxFlowInvariants.STrySwapInv | nps-master/lib/nps_mux/conn.go:453-496 | applying a credit takes exactly its bytes off the sender's count and keeps the wait flag with the blocked writer |
| MuxFlowTheorems.CreditConservation | nps-master/lib/nps_mux/conn.go:260-385 | in every reachable state the sender's outstanding count equals the bytes in flight, about to be sent, queued, being read, counted but unreported, and in credits in flight or held |
| MuxFlowTheorems.PeakIsLargestWindow | nps-master/lib/nps_mux/conn.go:191-258 | the recorded peak is the largest window any step of the run put in force |
| MuxFlowTheorems.BoundedMemory | nps-master/lib/nps_mux/conn.go:508-578 | the bytes buffered never exceed the sender's count, and that never exceeds the largest window ever in force, also when the window shrinks between load and swap |
| MuxFlowTheorems.DefensiveBranchesUnreachable | nps-master/lib/nps_mux/conn.go:374-379 | the branch for a credit above the count, the two 31-bit overflow branches and the spin in `sent` cannot be reached |
| MuxFlowTheorems.WaitFlagMatchesSignals | nps-master/lib/nps_mux/conn.go:498-506 | the wait flag is set only with no window left and the writer blocked, a blocked writer has its flag or a signal on the way, and every setting is matched by exactly one signal |
| MuxFlowTheorems.StuckOnlyForTheApplication | nps-master/lib/nps_mux/conn.go:526-552 | where no thread can move, a blocked writer faces a reader that is not reading and has bytes waiting |
| MuxFlowTheorems.NoStuckSender | nps-master/lib/nps_mux/conn.go:526-607 | over every run: no lost wakeup on either side, and a reader that waits has been given every byte written |
| MuxFlowProgress.StepTakes | nps-master/lib/nps_mux/conn.go:260-635 | every step between the calls of the application, a failed swap included, takes from a measure of the work left |
| MuxFlowProgress.WorkIsBounded | nps-master/lib/nps_mux/conn.go:260-635 | over every run the steps inside the connection, repetitions included, are at most 60 for each byte written and 20 for each read |
| MuxFlowProgress.ComesToRest | nps-master/lib/nps_mux/conn.go:260-635 | from every reachable state the connection can only take a bounded number of steps by itself, and where it rests a blocked writer faces a reader that is not reading and has bytes waiting |
| MuxFlowProgress.ReachesRest | nps-master/lib/nps_mux/conn.go:260-635 | such a state of rest is always reached |
| MuxFlowTheorems.DrainedMeansUnblocked | nps-master/lib/nps_mux/conn.go:348-385 | with both message streams empty and everything read, nothing is left unreported and the writer does not wait |
| MuxFlowStream.ExecStream | nps-master/lib/nps_mux/conn.go:310-346 | what was consumed, what is on the way and what is not yet cut are together exactly what was written, in order |
| MuxFlowTheorems.GoodReadsAreResults | nps-master/lib/nps_mux/conn.go:310-346 | a list of finished reads is determined by the stream and the buffer sizes |
| MuxFlowTheorems.StreamCorrect | nps-master/lib/nps_mux/conn.go:310-346 | what the reads of any run return depends on the bytes written and the buffer sizes alone, not on chunking, windows or interleaving, and is a prefix of what was written |
| MuxFlowTheorems.ReadStaysInOneWrite | nps-master/lib/nps_mux/conn.go:310-346 | no read crosses the end of a write |
| MuxFlowTheorems.FittingReadReturnsTheWrite | nps-master/lib/nps_mux/conn.go:310-346 | a read that starts where a write starts and whose buffer fits it returns exactly that write |
| MuxFlowTheorems.BytesReadArePrefix | nps-master/lib/nps_mux/conn.go:526-635 | the bytes returned by reads, put together, are a prefix of the bytes written, put together |
| BufRing.AtWrap | nps-master/lib/nps_mux/queue.go:397-426 | reducing a 32-bit index to a slot agrees with reducing the unbounded one, because ring sizes are powers of two |
| BufRing.BumpTailWraps | nps-master/lib/nps_mux/queue.go:456-463 | the two add constants of `popTail` move the tail by one and leave the head, also where the tail wraps at 2^32 |
| BufRing.EmptyFull | nps-master/lib/nps_mux/queue.go:397-410 | the word says empty exactly when nothing is unread and full exactly when every slot is claimed, across the 2^32 wrap |
| BufRing.ClaimedSlotEmpty | nps-master/lib/nps_mux/queue.go:403-426 | the slot the producer claims is empty |
| BufRing.StoreOk | nps-master/lib/nps_mux/queue.go:411-426 | storing into the claimed slot fills just that one |
| BufRing.TakeOk | nps-master/lib/nps_mux/queue.go:441-455 | the slot the consumer takes holds the oldest value, and taking it empties just that one |
| BufChainProofs.StepInv | nps-master/lib/nps_mux/queue.go:507-590 | every atomic step of producer or consumer keeps rings, links and content |
| BufChainTheorems.CallsAreAccepted | nps-master/lib/nps_mux/queue.go:516-550 | between calls the values accepted are exactly those pushed, in order |
| BufChainTheorems.FifoRefinement | nps-master/lib/nps_mux/queue.go:507-590 | in every run the values popped are a prefix of those pushed and what remains in the rings is exactly the rest, across ring wrap, index wrap and growth |
| BufChainTheorems.EmptyPopIsRight | nps-master/lib/nps_mux/queue.go:552-590 | when a pop reports empty, there was a moment during that call at which nothing was in the queue |
| BufChainTheorems.ClaimedSlotIsEmpty | nps-master/lib/nps_mux/queue.go:397-426 | in every run a claimed slot is empty |
| BufChainTheorems.SpinOnlyOnPendingStore | nps-master/lib/nps_mux/queue.go:431-463 | the consumer retries only while the producer has claimed and not yet stored |
| BufChainTheorems.IndicesInRange | nps-master/lib/nps_mux/queue.go:382-463 | every slot and ring index used is in range |
| BufChainTheorems.DroppedRingStaysEmpty | nps-master/lib/nps_mux/queue.go:552-590 | a dropped ring is empty and stays so |
| PriorityQueue.PriorityQueue.Push | nps-master/lib/nps_mux/queue.go:34-52 | puts the message at the end of its own class and touches no other |
| PriorityQueue.PriorityQueue.TryPop | nps-master/lib/nps_mux/queue.go:86-118 | takes the first message of the class the counter selects, for every value of the 8-bit counter, and nothing exactly when all three classes are empty |
| PriorityQueue.ClassIsFifo | nps-master/lib/nps_mux/queue.go:40-118 | over every sequence of pushes and pops each class is first-in first-out |
| PriorityQueue.LowestWaitsAtMostEight | nps-master/lib/nps_mux/queue.go:86-118 | at most 8 pops in a row go to the middle class while the highest is empty and the lowest is not |
| PriorityQueue.MiddleWaitsAtMostFive | nps-master/lib/nps_mux/queue.go:86-118 | at most 5 pops in a row go to the lowest class while the highest is empty and the middle is not |
| PriorityQueue.MiddleBoundReached | nps-master/lib/nps_mux/queue.go:86-118 | the bound 8 is reached |
| PriorityQueue.LowestBoundReached | nps-master/lib/nps_mux/queue.go:86-118 | the bound 5 is reached |
| MuxCodec.MuxPackager.SetContent | nps-master/lib/nps_mux/netpackager.go:22-47 | keeps content up to 4085 bytes and drops longer content |
| MuxCodec.MuxPackager.Set | nps-master/lib/nps_mux/netpackager.go:98-113 | the packager stands for the message it was set to |
| MuxCodec.MuxPackager.Pack | nps-master/lib/nps_mux/netpackager.go:115-131 | appends exactly the encoding of the message and changes nothing it stands for |
| MuxCodec.MuxPackager.UnPack | nps-master/lib/nps_mux/netpackager.go:133-162 | succeeds exactly when a message can be decoded, yields it and consumes exactly its bytes |
| MuxCodec.DecodeEncode | nps-master/lib/nps_mux/netpackager.go:49-79 | decoding an encoded message in front of anything gives it back and its length, for content up to 4085 bytes, any 32-bit id and any 64-bit window |
| MuxCodec.StreamRoundTrip | nps-master/lib/nps_mux/netpackager.go:115-162 | decoding the concatenated encodings of any sequence of messages yields the sequence and consumes every byte |
| MuxCodec.EncodingInjective | nps-master/lib/nps_mux/netpackager.go:115-131 | different sequences of messages have different encodings |
| ConnIds.Ids.GetId | nps-master/lib/nps_mux/mux.go:367-386 | returns the first identifier after the last one, cyclically from 1 to the largest 32-bit number less 9999, that no live connection has |
| IpPool.FirstFree | internal/server/ipalloc.go:62-72 | the lowest free address, or none exactly when all are used |
| IpPool.IPPool.Alloc | internal/server/ipalloc.go:62-72 | takes the lowest free address and no other |
| IpPool.IPPool.AllocAt | internal/server/ipalloc.go:76-87 | takes the given address exactly when it is in range and free |
| IpPool.IPPool.Release | internal/server/ipalloc.go:113-117 | frees the given address and no other |
| DeviceTable.DeviceTable.PruneLocked | internal/server/devices.go:442-458 | whatever order the records are visited in, all expired leases and no others are given back, and they are counted |
| DeviceTable.DeviceTable.Assign | internal/server/devices.go:298-344 | the table and the pool afterwards, and the address and expiry returned, on every branch |
| DeviceTable.DeviceTable.SetIP | internal/server/devices.go:390-425 | the table and the pool afterwards, refusals included |
| DeviceTable.DeviceTable.SetForward | internal/server/devices.go:365-383 | stores the rules exactly when the list is accepted |
| DeviceTable.DeviceTable.SetCredential | internal/server/devices.go:150-175 | the table afterwards, refusals included |
| DeviceTable.DeviceTable.ClearCredential | internal/server/devices.go:212-227 | the table afterwards |
| DeviceTable.DeviceTable.Block | internal/server/devices.go:249-271 | the table afterwards: blocked and without credential |
| DeviceTable.DeviceTable.Unblock | internal/server/devices.go:275-288 | the table afterwards |
| DeviceInvariants.PruneInv | internal/server/devices.go:442-458 | expiry keeps the indices inverse and releases exactly the expired addresses |
| DeviceInvariants.PickInv | internal/server/devices.go:312-338 | an address on record is kept; a fresh one was free; assigning fails exactly when the device has none and the pool is full |
| DeviceInvariants.AssignInv | internal/server/devices.go:298-344 | assigning keeps the table and pool consistent, and the address and expiry returned are those on record |
| DeviceInvariants.AssignChangesOneRecord | internal/server/devices.go:298-344 | assigning changes the address, name and expiry of one record; its rules, credential and block stay, and other records only lose expired leases |
| DeviceInvariants.SetIPExactly | internal/server/devices.go:390-425 | from a consistent table: accepted exactly for an allocatable address that is the device's own or that nobody holds; then the old address is freed, the new one held and nothing else changed |
| DeviceInvariants.SetIPInv | internal/server/devices.go:390-425 | setting an address by hand keeps the table and pool consistent: the old address is released and the new one claimed |
| DeviceInvariants.SetCredentialInv | internal/server/devices.go:150-175 | registering an unblocked device keeps the credential index the inverse of the records |
| DeviceInvariants.BlockInv | internal/server/devices.go:249-271 | blocking keeps consistency, and the device is then blocked |
| DeviceInvariants.HandleRegisterInv | internal/server/server.go:320-351 | the registration handler, taken as one step, keeps consistency |
| DeviceInvariants.RegisteredCredentialWorks | internal/server/server.go:320-351 | a credential handed out authenticates; a blocked device gets none; a registered one gets its own again |
| DeviceInvariants.SetCredentialExactly | internal/server/devices.go:150-175 | from a consistent table: a credential is given exactly to a device that has none, under an identifier nobody has; a refusal changes no credential |
| DeviceInvariants.RevokedCredentialFails | internal/server/devices.go:212-271 | a credential that was cleared or whose device was blocked no longer authenticates, and the others still do |
| DeviceInvariants.UncheckedCredentialBreaksBlocking | internal/server/devices.go:150-175 | on an empty table, `Block` between the check and `SetCredential` leaves a blocked device with a credential |
| DeviceInvariants.SetCredentialKeepsBlocking | internal/server/devices.go:150-175 | `SetCredential` keeps "the blocked have no credential" exactly when the device is not blocked or the call is refused |
| Registration.BlockHonouredExactly | internal/server/server.go:320-351 | over every run of handlers, with each call to the table a step: a blocked device never has a credential exactly when no handler is overtaken by a block between its check and its store |
| Registration.BlockCanBeOvertaken | internal/server/server.go:320-351 | a concrete run in which one is |
| SessionTheorems.LeasesAndPoolAgree | internal/server/devices.go:298-458 | over every run from the empty server: `byVIP` is the inverse of the leases, no two devices share an address, leased addresses are allocatable, and the pool is the disjoint union of leased addresses and those of live anonymous connections |
| SessionTheorems.CredentialsAgree | internal/server/devices.go:150-288 | over every run: `byDeviceID` is the inverse of the credentials, and a blocked device has none |
| SessionTheorems.LeaseIsStable | internal/server/devices.go:298-344 | a device gets the same address back, whatever happens in between, until its lease runs out or its address is set by hand |
| SessionTheorems.ExpiryKeepsTheRecord | internal/server/devices.go:442-458 | in every reachable state expiry takes the address and leaves name, rules, credential, block and the other leases; the address is then on record for nobody and can be given out again |
| DeviceFile.Save | internal/server/devices.go:513-533 | writes every record exactly once |
| DeviceFile.Load | internal/server/devices.go:97-141 | loading, with entries skipped, addresses ignored and the first of two equal credentials kept as in the source |
| DeviceFile.LoadInvertsSave | internal/server/devices.go:97-141 | loading a saved table rebuilds its records and both reverse indices, whatever the order of the entries |
| DeviceRestart.OwnerReclaims | internal/server/devices.go:321-338 | after a restart an owner that comes back gets its address and claims it |
| RestartTheorems.StepSoundExactly | internal/server/devices.go:298-344 | after a restart every operation keeps sessions, indices and addresses right, except a registration that is handed an address on record, which never does |
| RestartTheorems.RestartStaysConsistentExactly | internal/server/devices.go:129-138 | over every run after a restart: the tables stay right throughout exactly when no fresh connection is handed an address on record; then no address is shared, and the full invariant is back as soon as every leased address is claimed |
| DeviceRestart.FreshAddressCollides | internal/server/server.go:585-593 | any connection, new, known or anonymous: the address it is handed is also on record for another device exactly when it has none on record and the lowest address free in the pool is on record |
| DeviceRestart.OwnerKeepsItToo | internal/server/devices.go:321-338 | after such a collision the owner, coming back, is handed the address too |
| RestartTheorems.StrangerTakesLeasedAddress | internal/server/devices.go:129-138 | a run from the empty server, a restart and a run after it, at the end of which a new device, or an anonymous connection, and the owner have one address |
| Sessions.PickName | internal/server/server.go:555-567 | the rename search ends with a name nobody has, and a free name is kept |
| Sessions.TriedBound | internal/server/server.go:555-567 | the search tries at most one variant more than there are names |
| Server.Server.FreeName | internal/server/server.go:555-567 | the loop finds what the search describes |
| Server.Server.Register | internal/server/server.go:546-582 | the session tables, table and pool afterwards, and which connection is ousted |
| Server.Server.AllocVip | internal/server/server.go:585-593 | an address from the lease table, or from the pool for an anonymous connection |
| Server.Server.RemoveDevice | internal/server/server.go:596-624 | the session tables and pool afterwards |
| SessionTheorems.RegisterInv | internal/server/server.go:546-582 | registering keeps the session tables, leases and pool consistent, also when it takes over a connection |
| SessionTheorems.RemoveInv | internal/server/server.go:596-624 | removing a connection keeps them consistent, also when it was taken over |
| SessionTheorems.SessionsAgree | internal/server/server.go:546-624 | over every run: each entry is under its connection's own address and name, and live names are pairwise distinct |
| SessionTheorems.LateRemovalIsHarmless | internal/server/server.go:596-624 | removing a connection that was taken over changes neither the new holder's entries nor the pool |
| Checksum.Compute | internal/client/nat.go:359-372 | the loops compute the ones'-complement sum over a wrapping accumulator, and for every length up to 131074 bytes the exact checksum |
| Checksum.NoOverflow | internal/client/nat.go:359-372 | the 32-bit accumulator does not overflow for any packet or pseudo-header with segment |
| Checksum.BoundIsExact | internal/client/nat.go:359-372 | of any even length over 131074 bytes some buffer overflows it |
| Checksum.FieldVerifies | internal/client/nat.go:359-372 | a value in the checksum field verifies exactly when it is the computed one, or the other zero |
| Checksum.SealVerifies | internal/server/icmp.go:82-95 | a field filled in with the checksum computed over it as zero verifies |
| Packet.RewrittenVerifies | internal/client/nat.go:288-334 | after rewriting, the header sum passes, and so does the segment sum wherever there is one to recompute |
| Packet.RewrittenTouches | internal/client/nat.go:288-334 | rewriting changes only the two checksum fields |
| Packet.RedirectedBytes | internal/client/nat.go:106-112 | readdressing changes only the address, the port and the sums |
| Rewrite.RewriteChecksums | internal/client/nat.go:288-334 | in place, what `Rewritten` says |
| Rewrite.RewriteDstToSelf | internal/client/nat.go:345-356 | in place, what `ToSelf` says |
| Rewrite.RfcSound | internal/client/nat.go:288-334 | the checksums the code writes pass a receiver's tests: section 1 of RFC 1071 over the header, and with the pseudo-header of RFC 768 and section 3.1 of RFC 9293 over the segment |
| Rewrite.ToSelfOk | internal/client/nat.go:345-356 | the packet is turned to this host and otherwise reads the same; only what is no IPv4 packet is refused, untouched |
| Rewrite.ToSelfSums | internal/client/nat.go:345-356 | its sums pass, except for segments too short for one and UDP without one |
| Rewrite.ToSelfTouches | internal/client/nat.go:345-356 | only the destination address and the sums change |
| Rewrite.UdpFieldZero | internal/client/nat.go:307-333 | rewriting a UDP packet that has a checksum writes a zero field, which RFC 768 reserves for "not computed", exactly when pseudo-header and segment without the field sum to a positive multiple of 0xFFFF |
| NatTheorems.SentOnWithoutChecksum | internal/client/nat.go:73-112 | a concrete packet with a checksum that hits a rule and is sent on with a zero field |
| Nat.RuleTableIsRuleMap | internal/client/nat.go:121-129 | the rules in force are the rule map of the list |
| Nat.Nat.SetRules | internal/client/nat.go:121-129 | replaces the rules and leaves the tracking alone |
| Nat.Nat.DNAT | internal/client/nat.go:73-112 | table, buffer and result, and nothing changed when the result is false |
| Nat.Nat.SNAT | internal/client/nat.go:133-158 | table, buffer and result, and nothing changed when the result is false |
| Nat.Nat.CleanOnce | internal/client/nat.go:161-197 | whatever the order of the entries, those idle for over two minutes and no others are dropped |
| NatTheorems.SentOnIsRight | internal/client/nat.go:73-112 | a packet sent on has the target as destination, the same client as source, and sums that pass |
| NatTheorems.SentBackIsRight | internal/client/nat.go:133-158 | a reply sent back has this host and the virtual port as source, the same client as destination, and sums that pass |
| NatTheorems.DnatTouches | internal/client/nat.go:73-112 | DNAT changes only destination address, destination port and sums, and nothing at all when it returns false |
| NatTheorems.SnatTouches | internal/client/nat.go:133-158 | SNAT changes only source address, source port and sums, and nothing at all when it returns false |
| NatTheorems.TableAtBasics | internal/client/nat.go:73-197 | after any history `rev` and `revSeen` have the same keys |
| NatTheorems.ReverseTableIsHistory | internal/client/nat.go:73-197 | after any history of packets, rule changes and cleanups, `rev` holds for each key exactly the port of the last DNAT hit that no cleanup since found idle, and `revSeen` the time of the last touch |
| NatTheorems.RepliesReachTheClient | internal/client/nat.go:133-158 | the mirror reply goes back to the client as from the address and port it had used, unless idle or redirected by another port since; rule changes do not matter |
| Icmp.EchoReply | internal/server/icmp.go:38-79 | answers exactly the requests and leaves the packet alone |
| Icmp.AnswerIsRight | internal/server/icmp.go:38-79 | an answer has the addresses swapped, type 0, everything else as in the request, and both sums verify |
| Icmp.AnswerIsNoRequest | internal/server/icmp.go:66-79 | an answer is never taken for a request |
| Text.IpRoundTrip | internal/forward/forward.go:135-148 | printing and parsing an IPv4 address are inverse |
| Text.DecimalRoundTrip | internal/forward/forward.go:126-132 | printing and reading a number are inverse |
| Forward.RuleRoundTrip | internal/forward/forward.go:27-60 | parsing a printed rule gives it back, for ports from 1 to 65535 and any IPv4 target |
| Forward.CanonicalForm | internal/forward/forward.go:27-60 | an accepted line, however spaced, has a printed form that parses to the same rule, and two accepted lines mean the same rule exactly when their printed forms are the same |
| Forward.ParseList | internal/forward/forward.go:66-76 | accepts exactly the lists all of whose lines parse, and gives their rules in order |
| Forward.ParseSet | internal/forward/forward.go:83-96 | accepts exactly the lists whose lines parse and whose virtual ports are pairwise distinct |
| Forward.RuleMapIsSearch | internal/client/nat.go:121-129 | for distinct ports, looking a port up in the map agrees with searching the list |
| Forward.RuleMapSize | internal/client/nat.go:121-129 | for distinct ports the map has one entry per rule |
| Forward.ConfigRoundTrip | internal/forward/forward.go:100-120 | splitting printed rules at any separator and parsing them gives the rules back |
| UdpInvariants.StepInv | nps-master/server/proxy/udp.go:99-257 | every step keeps owners, sessions, the map and the counter consistent |
| UdpTheorems.OneSessionPerKey | nps-master/server/proxy/udp.go:99-122 | over every interleaving no two sources share a session, and each session has one owner |
| UdpStreams.SecondStreamNeedsEviction | nps-master/server/proxy/udp.go:24-33 | over every interleaving: of two owners that both have a stream for one source, one had its session removed by somebody else while it was building or serving |
| UdpStreams.OneStreamPerSource | nps-master/server/proxy/udp.go:24-33 | so while nobody does that a source has at most one stream |
| UdpStreams.SecondStreamExactly | nps-master/server/proxy/udp.go:24-33 | while no deletion has hit another session: as an owner gets its place, the source has another stream exactly when somebody else removed an earlier session of it under an owner that is not finished |
| UdpStreams.SecondStreamCanStart | nps-master/server/proxy/udp.go:222-257 | a concrete run, with every deletion directly after its comparison, in which a source has two streams and is charged twice |
| UdpTheorems.ReadyClosedOnce | nps-master/server/proxy/udp.go:152-188 | `ready` is closed at most once, and is open only while the owner builds |
| UdpTheorems.OwnerCanMove | nps-master/server/proxy/udp.go:152-188 | while anybody waits for a session its owner can move, whatever the outcome of what it does |
| UdpTheorems.WaitersAreReleased | nps-master/server/proxy/udp.go:125-188 | over every run: once the owner has made as many moves as it was away from closing `ready`, at most five, `ready` is closed, whatever the others do |
| UdpTheorems.WritesHaveATarget | nps-master/server/proxy/udp.go:125-148 | a packet is only written to a target that is there, of a session that was built |
| UdpTheorems.QuotaIsExact | nps-master/lib/file/obj.go:84-98 | the connection counter is its base plus the owners that passed the limit check and have not returned |
| UdpLimit.LimitCanBePassed | nps-master/lib/file/obj.go:92-98 | a run from the start, with a limit of one connection, that ends with two |
| UdpLimit.ExceedsExactly | nps-master/lib/file/obj.go:92-98 | a step of the proxy passes the limit exactly when it is an addition and the counter has risen to the limit since that thread's own comparison found room |
| UdpLimit.CanExceedExactly | nps-master/lib/file/obj.go:84-98 | from a reachable state within the limit, packets and goroutines of the proxy alone can pass it exactly when everybody else leaves at least one place or an owner is past its comparison |
| UdpLimit.AtomicLimitHolds | nps-master/lib/file/obj.go:92-98 | were comparing and adding one step, and did nobody else add, the counter would never pass the limit |
| UdpRemoval.SuccessorCanBeRemoved | nps-master/server/proxy/udp.go:222-229 | a concrete run after which `removeSession` takes out the session that has succeeded its own |
| UdpRemoval.FailedBuildCanHit | nps-master/server/proxy/udp.go:155-163 | a concrete run after which the unconditional deletion of `failBuild` takes out another session |
| UdpRemoval.SuccessorHitExactly | nps-master/server/proxy/udp.go:222-229 | a deletion of `removeSession` does so exactly when, after its comparison, somebody else removed its own session and the key was taken again |
| UdpRemoval.DeletionHitsExactly | nps-master/server/proxy/udp.go:155-229 | a deletion of either kind does so exactly when its own session was lost before and the key was taken again |
| UdpRemoval.RunHitsExactly | nps-master/server/proxy/udp.go:155-229 | some step of a run, of `removeSession` or of `failBuild`, takes out another session exactly when some deletion of `removeSession` is overtaken in that way |
| UdpRemoval.AtomicRemovalIsSafe | nps-master/server/proxy/udp.go:222-229 | where every deletion of `removeSession` follows directly on its comparison, no ending session ever removes another, failed ones included |
| ClientHello.ClientHelloMsg.Unmarshal | nps-master/lib/crypt/clientHello.go:50-253 | the result and every field set, for every input; all indices are in range |
| ClientHello.ClientHelloMsg.ReadNames | nps-master/lib/crypt/clientHello.go:136-157 | the loop takes the first host name and looks at nothing after it |
| ClientHello.ClientHelloMsg.ReadExtensions | nps-master/lib/crypt/clientHello.go:114-250 | the loop over the extensions, on every input |
| ClientHelloTheorems.ExtBack | nps-master/lib/crypt/clientHello.go:125-248 | every extension written down is read back, or refused for a first host name that ends in a dot |
| ClientHelloTheorems.ParseInvertsEncode | nps-master/lib/crypt/clientHello.go:50-253 | every hello that can be written down is refused exactly when one of its lists of server names has a first host name that ends in a dot, and otherwise version, random, session id, suites, compression methods and all that its extensions say are recovered |
| ClientHelloTheorems.NameAndProtocols | nps-master/lib/crypt/clientHello.go:126-242 | with one list of server names: accepted exactly when the first host name does not end in a dot, and then that name is recovered, and the protocols of all ALPN extensions in order |
| ClientHelloTheorems.AcceptedNameHasNoDot | nps-master/lib/crypt/clientHello.go:146-154 | no name handed out ends in a dot, on any input |

## Left out

- MuxFlow.RSetSize: does not model the estimates of `calcSize`, which are floating point; any new maximum from 1 to 2^27 may be chosen at each call. A computed size of 0 is not modelled.
- MuxFlow.Enabled: does not model writes of 4 GiB or more, for which the 32-bit offset of the writer would wrap.
- MuxFlow.REnqueue: does not model the steps inside a push or a pop of the receive queue's chain, which are one step here; `BufChainTheorems.FifoRefinement` is about those.
- Deadlines, closing and buffer pools of the multiplexer: none of them is part of the model, so nothing is said about half-closed connections.
- BufChain.Do: does not model several producers growing the chain at once, nor the `prev` pointers and scheduling hints, which affect no value.
- PriorityQueue.PriorityQueue.Push: does not model several goroutines inside a class's chain; each push and pop is one step.
- `priorityQueue.Pop`: blocking and stopping, which add waiting to what TryPop does.
- MuxCodec.MuxPackager.Set: does not model reuse of a pooled packager that was not reset.
- ConnIds.Ids.GetId: does not model the case in which every usable identifier is live, where the source does not return.
- DeviceTable.DeviceTable.SetCredential: does not model pointers to records escaping the table; a record is a value in the map. Saving after each change is left out here, and `DeviceFile` is the file.
- Registration.Do: does not model the operations on leases and rules, which touch neither credentials nor blocks.
- DeviceFile.Save: does not model JSON, the file system, or sorting the entries; loading is proved for every order.
- Text.ParseIp4: does not model IPv6 and IPv4-in-IPv6 texts, of which the latter would also be accepted.
- Sessions.Do: does not model two handlers inside one another; each table operation and each handler is one step; `Registration` takes the registration handler apart.
- Server.Server.Register: does not model connections as objects; a connection is a handle and its fields are in a map. Messages to peers are left out.
- Error texts: a refusal is a result without its message.
- Nat.Nat.DNAT: does not model writes to the buffer by somebody else during the call. The lock around the tables makes each call one step.
- ClientHello.ClientHelloMsg.Unmarshal: does not say what the fields hold after a refusal, and does not model that byte fields share memory with the input.
- UdpProxy.Do: does not model `Close`, the contents and sizes of packets, traffic counters, or several servers sharing a client other than as changes of the counter from elsewhere. The sweeper is taken as any number of sweepers. Closing a target is not a step: an owner whose target somebody else has closed serves on until its next read or write fails.
- AES-GCM, HMAC, TLS, JSON, snappy and kcp: library code.
- Sockets, TUN devices, HTTP handlers, relay routing, configuration push, notices and the user interface: I/O, or too simple to add anything.
