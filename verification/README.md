# Telesthete protocol cores in Dafny

Telesthete is an encrypted peer-to-peer transport with a relay hub. This project models its protocol cores as state
machines and proves what they keep over whole runs:

- the reliable Channel: two cores over a network that loses, duplicates, delays and reorders frames;
- message fragmentation and reassembly, alone and under the Channel;
- the Board: a replicated last-writer-wins map with Lamport clocks and anti-entropy;
- the hub: band registry, UDP validation and addressed routing, the shared byte budget, one-hop federation;
- session epochs and replay watermarks of the Python Band;
- Drop: the receiver-driven file transfer of the Python implementation.

Each core is a datatype with functions (what an operation does to a value), a class whose methods update fields in
place and are proved equal to those functions, and modules of lemmas about every run. A field marked as history in a
value (a log, a tag, what was accepted) is read by no operation; it is there to be spoken about.

| files | contents |
|---|---|
| `BigEndian`, `Sums` | integers on the wire; totals over maps |
| `ChannelFrames`, `Fragments` | the two codecs |
| `Reassembly`, `ReassemblyInvariant`, `ReassemblyTheorems`, `ReassemblyMany`, `ReassemblyOrder`, `ReassemblyEffects`, `Reassembler` | reassembly: operations, invariant, soundness and completeness, many messages at once, ordered streams, expiry and eviction, class |
| `ChannelCore`, `ChannelInvariant`, `ChannelSteps`, `ChannelNetwork`, `ChannelProgress`, `ChannelDrain`, `ChannelReorder`, `ChannelHandshake`, `Channel` | the Channel: operations, two-sided invariant, its preservation, theorems over runs, progress and cost of a round, round after round, rounds in any order, opening and ending, class |
| `Board`, `BoardConvergence`, `BoardDigest`, `BoardReads`, `BoardCore` | the Board: operations, convergence, what a digest tells, what readers see, class |
| `UdpBudget` | the byte budget as interleaved atomic steps, and its objects |
| `Session`, `SessionTheorems`, `SessionEffects`, `Band` | epochs and watermarks: operations, theorems over runs, suites, acceptance and the peer cap, class |
| `Registry`, `RegistryTheorems`, `RegistryBystander`, `RegistryEffects`, `RegistryCore` | the registry: operations, theorems over runs, unvalidated sources, who gets what and who stays, class |
| `Drop`, `DropTheorems`, `DropPull`, `DropEffects`, `DropEndpoints` | Drop: operations, the search, whole pulls with and without loss, single frames, classes |
| `Federation`, `FederationTheorems`, `FederationLive`, `FederationLinks` | linked hubs: messages and steps, one hop, getting across, link handles |

`dafny verify dfyconfig.toml` checks everything.

Three properties one might expect are false of the code. Each is stated with an input and with the exact condition
under which it holds:

- Equal Board digests do not mean equal boards, because the preimage has no length fields (`DigestCollision`). For the
  replicas of a run they do exactly when no actor's name can pass for the end of another's (`DigestsDecideExactly`).
  For two maps of unrelated runs a sufficient condition is given (`PrefixFreeDigestDecides`), and an exact one for boards
  of one entry (`OneEntryDigests`).
- A newer-epoch HELLO of a known peer whose cipher list cannot be read resets the stream watermarks without changing the
  key, so a packet already accepted is accepted again (`ReadmissionHappens`). That HELLO is the only event that does this
  (`ReadmitsExactly`) and the only one that breaks the invariant (`ControlKeepsExactly`).
- A Drop receiver may hand the same file over more than once: every OFFER of it, and every CHUNK of it in range, that
  arrives once it is complete runs the completion callback again, and nothing else does (`HandedOverExactly`).

Where a comment and the code disagree the code is followed: the comment above `inject_from_link`
(rust/telesthitium/src/registry.rs:249) speaks of CHANNEL frames, but the code routes ADDRESSED frames by id.

## Model

| member | source | states |
|---|---|---|
| `ChannelFrames.ParseSerialize` | rust/telesthete/src/channel.rs:76-106 | every representable frame (64-bit ack and sequence, 16-bit window, any data) survives the wire |
| `ChannelFrames.SerializeParse` | rust/telesthete/src/channel.rs:88-106 | parsing accepts exactly the byte strings serialization produces: at least 19 bytes, no reserved flag bit; one byte string per frame |
| `Fragments.ParseFragment` | rust/telesthete/src/wire/fragment.rs:49-84 | every chunk of a fragmented payload parses back to its id, index, total and slice |
| `Fragments.ParsedIsPacked` | rust/telesthete/src/wire/fragment.rs:38-66 | only packed chunks parse: short, wrong-version and index-out-of-range chunks do not |
| `Fragments.PieceCount` | rust/telesthete/src/wire/fragment.rs:71-84 | the chunk count is the least positive number of slices that covers the payload; an empty payload takes one |
| `Fragments.ConcatAllPieces` | rust/telesthete/src/wire/fragment.rs:71-84 | the slices of a payload, concatenated in index order, are the payload |
| `ReassemblyInvariant.ReachableInv` | rust/telesthete/src/wire/fragment.rs:264-367 | over any inputs at any instants: the byte count is exactly the sum of held parts and within budget, partials within the limit, no id both buffered and evicted, eviction map and queue hold the same ids once each, at most 1024 |
| `ReassemblyInvariant.FeedKeepsInv` | rust/telesthete/src/wire/fragment.rs:232-314 | one chunk of any bytes keeps that invariant |
| `ReassemblyTheorems.Soundness` | rust/telesthete/src/wire/fragment.rs:232-314 | if the chunks under each id come from one payload, every message given back is that payload, under any interleaving, loss, duplication, eviction and expiry |
| `ReassemblyTheorems.FeedWhileHolding` | rust/telesthete/src/wire/fragment.rs:232-314 | for a message within its timeout, a repeat changes nothing, the last missing chunk gives the payload back, any other chunk is kept |
| `ReassemblyTheorems.Completeness` | rust/telesthete/src/wire/fragment.rs:232-314 | in any order with any repeats and no expiry, the answers are the payload exactly at each last missing chunk and nothing elsewhere |
| `ReassemblyEffects.ExpiresExactly` | rust/telesthete/src/wire/fragment.rs:343-367 | over any run with a clock that does not go back, a feed first drops exactly the partials opened longer ago than the timeout and forgets exactly the evictions older than it |
| `ReassemblyEffects.EvictExactly` | rust/telesthete/src/wire/fragment.rs:324-341 | an evicted partial is gone with its bytes and its id remembered as of now; a full memory gives up its oldest id for it and no other |
| `ReassemblyEffects.MakesRoomExactly` | rust/telesthete/src/wire/fragment.rs:264-278 | room can be made exactly for a message that fits the budget on its own; the others go oldest first and no more of them than needed; a message that cannot fit is given up and remembered |
| `ReassemblyEffects.ChunkJoins` | rust/telesthete/src/wire/fragment.rs:243-313 | a new chunk that fits joins the parts its message has (none, if they were counted for another total); the message comes out exactly when that makes it whole; others are untouched, except that a new message at the count limit replaces the oldest, which is remembered |
| `ReassemblyEffects.EvictedStaysOut` | rust/telesthete/src/wire/fragment.rs:237-241 | a chunk of a message given up within the timeout is dropped |
| `ReassemblyEffects.OversizeDropped` | rust/telesthete/src/wire/fragment.rs:259-262 | a chunk of a longer message above the payload limit is never stored |
| `ReassemblyEffects.SingleGivenBack` | rust/telesthete/src/wire/fragment.rs:254-258 | a one-chunk message comes out at once, whatever its size, and nothing is stored |
| `ReassemblyTheorems.FreshHolds` | rust/telesthete/src/wire/fragment.rs:179-187 | a reassembler made for a chunk size can take any message of that chunk size, by its budget and its limits |
| `ReassemblyTheorems.BudgetSuffices` | rust/telesthete/src/wire/fragment.rs:179-187 | the byte budget of such a reassembler has room for the next chunk of any incomplete message of its chunk size |
| `ReassemblyMany.ManyComplete` | rust/telesthete/src/wire/fragment.rs:232-314 | any messages that together fit the count limit and the byte budget, their chunks interleaved in any order with any repeats and no expiry: each comes out exactly on each last missing chunk of it, as if alone, and nothing else does |
| `ReassemblyMany.FeedOnShelf` | rust/telesthete/src/wire/fragment.rs:232-314 | one chunk of one of several messages advances, completes or repeats that message and leaves the others alone, with no eviction |
| `ReassemblyOrder.InOrderReassembly` | rust/telesthete/src/wire/fragment.rs:232-314 | an ordered chunk stream of many messages, cut anywhere, gives back exactly the completed messages in order |
| `ReassemblerObject.Reassembler.ForChunkSize` | rust/telesthete/src/wire/fragment.rs:179-187 | the constructed object is the fresh reassembler with the limits for that chunk size |
| `ReassemblerObject.Reassembler.Oldest` | rust/telesthete/src/wire/fragment.rs:316-322 | scans for the partial with the smallest order outside the excluded ids |
| `ReassemblerObject.Reassembler.DropPartial` | rust/telesthete/src/wire/fragment.rs:324-328 | removes one partial and its bytes, in place |
| `ReassemblerObject.Reassembler.Evict` | rust/telesthete/src/wire/fragment.rs:331-341 | drops a partial, remembers its id and trims the memory to 1024, against the value-level operation |
| `ReassemblerObject.Reassembler.Gc` | rust/telesthete/src/wire/fragment.rs:343-367 | forgets expired evictions and drops stale partials, against the value-level operation |
| `ReassemblerObject.Reassembler.MakeRoom` | rust/telesthete/src/wire/fragment.rs:264-305 | the eviction loop terminates, even over empty partials, and frees exactly what the value-level loop frees or gives up on the message |
| `ReassemblerObject.Reassembler.Store` | rust/telesthete/src/wire/fragment.rs:264-314 | room, insertion, completion and concatenation of one accepted chunk, against the value-level operation |
| `ReassemblerObject.Reassembler.Feed` | rust/telesthete/src/wire/fragment.rs:232-314 | the whole in-place feed equals the value-level feed, answer included |
| `ChannelNetwork.RunKeepsInv` | rust/telesthete/src/channel.rs:201-422 | in every state of every run of two cores over a network that may lose, duplicate and reorder anything emitted, simultaneous open included, the two-sided invariant holds |
| `ChannelNetwork.OrderedDelivery` | rust/telesthete/src/channel.rs:333-422 | the chunks fed to the receiver's reassembler are a prefix, in order and without repeats, of the chunks the sender turned into data frames, themselves a prefix of those it was asked to send |
| `ChannelNetwork.NothingLost` | rust/telesthete/src/channel.rs:212-296 | before teardown the unacknowledged frames are exactly the log from its base, the base is at most the peer's next sequence, and every queued chunk is processed, in flight or queued, in that order |
| `ChannelNetwork.WithinWindow` | rust/telesthete/src/channel.rs:258-276 | with a window of at least 1, every data frame and active FIN ever emitted is below the receiver's next sequence plus its window, at every point of the run |
| `ChannelNetwork.ReorderBufferBound` | rust/telesthete/src/channel.rs:394-404 | the reorder buffer always holds fewer frames than the window |
| `ChannelNetwork.FinMeansAllProcessed` | rust/telesthete/src/channel.rs:402-421 | a side that saw the peer's FIN has processed every data frame the peer emitted, and after an active close every chunk queued before the FIN |
| `ChannelNetwork.EndToEnd` | rust/telesthete/src/channel.rs:241-248 | codec, ordered delivery, fragmentation and reassembly composed: delivered messages are exactly those completed by the processed chunks, a prefix of the messages sent, if no partial message outlives the timeout |
| `ChannelNetwork.EverythingArrives` | rust/telesthete/src/channel.rs:241-248 | once the queue is empty and the peer has caught up, the delivered messages are all the messages sent |
| `ChannelProgress.TimeoutRoundCatchesUp` | rust/telesthete/src/channel.rs:302-320 | between established ends with a window of at least 1, one timeout round delivered in order brings the receiver to the sender's next sequence and the returning ACK clears everything that was in flight |
| `ChannelProgress.RoundArrives` | rust/telesthete/src/channel.rs:384-422 | each delivered frame of a round moves the receiver at least past it and puts its exact ACK on the wire |
| `ChannelProgress.RetransmissionCost` | rust/telesthete/src/channel.rs:283-320 | under any operations and any frames, rounds are at most ten per acknowledged frame plus the current retries, which never exceed ten |
| `ChannelDrain.QueueDrains` | rust/telesthete/src/channel.rs:258-320 | from any reachable state with a sender that is established or has its FIN in flight, a receiving window of at least 1 and no further commands, one lossless round more than there are chunks and FINs left empties queue and flight; the application has every message, and a FIN that was due has been seen and answered |
| `ChannelDrain.MessageArrives` | rust/telesthete/src/channel.rs:241-249 | a message sent on an established channel comes out at the other end, after everything sent before it |
| `ChannelDrain.CloseCompletes` | rust/telesthete/src/channel.rs:252-276 | a channel closed with messages still queued delivers them all, then its FIN, which is seen and answered with the peer's own |
| `ChannelDrain.FinIsAnswered` | rust/telesthete/src/channel.rs:405-416 | in every run a live end that has seen its peer's FIN has sent its own |
| `ChannelReorder.AnyOrderCatchesUp` | rust/telesthete/src/channel.rs:384-422 | a retransmission round delivered in any order with any repeats brings the receiver up to date, as long as each of its frames comes once |
| `ChannelReorder.PumpDataExactly` | rust/telesthete/src/channel.rs:262-267 | pumping sends exactly as many queued chunks as the limit has room for, from the front, in order, under consecutive sequences |
| `ChannelReorder.PumpFillsWindow` | rust/telesthete/src/channel.rs:257-268 | the limit is the peer's window, or one frame when that is zero |
| `ChannelHandshake.ConnectSendsSyn` | rust/telesthete/src/channel.rs:229-237 | connecting a new core puts one SYN with sequence 0 on the wire and in flight |
| `ChannelHandshake.HandshakeCompletes` | rust/telesthete/src/channel.rs:345-381 | in every reachable pair with one end waiting and the other idle, the SYN is on the wire; SYN, SYN-ACK and ACK delivered once each leave both ends established, each past the other's SYN, with no SYN in flight |
| `ChannelHandshake.CrossedHandshakeCompletes` | rust/telesthete/src/channel.rs:366-375 | when both ends have sent SYNs, the crossing SYNs, SYN-ACKs and ACKs leave both ends established, past each other's SYNs, with no SYN in flight |
| `ChannelHandshake.SynIsAnswered` | rust/telesthete/src/channel.rs:347-357 | an idle end that gets a SYN is established, past it, with its SYN-ACK on the wire and in flight, and otherwise as it was |
| `ChannelHandshake.ResetEnds` | rust/telesthete/src/channel.rs:340-344 | a reset ends the channel: nothing sent, kept, queued or delivered any more |
| `ChannelHandshake.GivesUp` | rust/telesthete/src/channel.rs:302-330 | without an answer each timeout sends the whole flight once, ten times in a row, and the next one tears down |
| `ChannelDrain.ExchangeDrains` | rust/telesthete/src/channel.rs:283-320 | one timeout round and its acknowledgement take at least one more chunk off the queue, or leave nothing in flight |
| `ChannelDrain.ReachableIsBusy` | rust/telesthete/src/channel.rs:258-276 | in every run an established end with queued chunks has something in flight, so its timer is running |
| `ChannelSteps.ApplyKeeps` | rust/telesthete/src/channel.rs:201-422 | every operation of one end keeps the invariant towards the other end in both directions |
| `ChannelSteps.AckEffect` | rust/telesthete/src/channel.rs:283-296 | an acknowledgement removes exactly the in-flight frames below it, clamped to what was sent, and resets the retry count exactly when something was removed |
| `ChannelSteps.DeliverKeeps` | rust/telesthete/src/channel.rs:384-422 | accepting, buffering, draining and answering one frame keeps the two-sided invariant |
| `ChannelSteps.JoinKeeps` | rust/telesthete/src/channel.rs:333-381 | joining on a SYN of the peer, as responder or in a simultaneous open, skips over SYNs only and keeps every clause the rest needs |
| `ChannelSteps.TimeoutKeeps` | rust/telesthete/src/channel.rs:302-330 | retransmission and the teardown after too many retries keep the invariant |
| `ChannelObject.Channel.Emit` | rust/telesthete/src/channel.rs:201-210 | appends the serialized frame stamped with the live ack and window |
| `ChannelObject.Channel.EmitReliable` | rust/telesthete/src/channel.rs:213-220 | emits and records the frame for retransmission |
| `ChannelObject.Channel.Connect` | rust/telesthete/src/channel.rs:229-237 | sends the SYN and moves to the opening state |
| `ChannelObject.Channel.SendMessage` | rust/telesthete/src/channel.rs:241-248 | fragments the message onto the queue and pumps |
| `ChannelObject.Channel.Close` | rust/telesthete/src/channel.rs:251-254 | marks the end closing and pumps |
| `ChannelObject.Channel.PumpData` | rust/telesthete/src/channel.rs:262-268 | the send loop takes chunks while the window allows |
| `ChannelObject.Channel.Pump` | rust/telesthete/src/channel.rs:258-276 | the send loop, then the FIN of an active close once the queue is empty |
| `ChannelObject.Channel.Ack` | rust/telesthete/src/channel.rs:283-296 | the in-place acknowledgement loop equals the value-level one |
| `ChannelObject.Channel.OnTimeout` | rust/telesthete/src/channel.rs:302-320 | re-emits everything in flight in order, or tears down at the retry cap |
| `ChannelObject.Channel.Teardown` | rust/telesthete/src/channel.rs:325-330 | drops what is in flight and queued and marks the core dead |
| `ChannelObject.Channel.Drain` | rust/telesthete/src/channel.rs:402-421 | consumes buffered frames while the next one is there |
| `ChannelObject.Channel.Deliver` | rust/telesthete/src/channel.rs:384-422 | stores an in-window frame, drains, and answers with a pure ACK |
| `ChannelObject.Channel.OnFrame` | rust/telesthete/src/channel.rs:333-381 | reset, handshake, acknowledgement, window update and delivery, in the source's order |
| `BoardConvergence.VersionsIdentifyWrites` | rust/telesthete/src/board.rs:151-176 | with distinct actors, no two different writes of any run share a (lamport, actor) version |
| `BoardConvergence.LocalWriteDominates` | rust/telesthete/src/board.rs:151-176 | a local write is newer than everything its replica holds |
| `BoardConvergence.StrongConvergence` | rust/telesthete/src/board.rs:213-231 | replicas that absorbed the same writes, in any order and with any repeats, hold identical maps, tombstones included: per key the latest |
| `BoardReads.SetStamps` | rust/telesthete/src/board.rs:151-162 | a set makes the key's entry the value under (clock + 1, own name), live; the broadcast write is that entry; the key reads as the value and every other key as before |
| `BoardReads.DeleteStamps` | rust/telesthete/src/board.rs:165-176 | a delete makes it a null tombstone under (clock + 1, own name); the key reads as absent and every other key as before |
| `BoardReads.ReadsTheLatestWrite` | rust/telesthete/src/board.rs:179-184 | in every run a replica reads, under each key, the latest write of it that it has taken in: absent if that is a delete or there is none, otherwise its value |
| `BoardReads.DeletesStick` | rust/telesthete/src/board.rs:165-231 | once a delete is the latest write taken in, a late older write does not bring the key back |
| `BoardReads.ClockIsHighestTakenIn` | rust/telesthete/src/board.rs:151-231 | in every run a replica's clock is exactly the highest clock value among the writes it has taken in |
| `BoardReads.ItemsAreReads` | rust/telesthete/src/board.rs:179-193 | the listed pairs are exactly the keys that read as present, with what they read as |
| `BoardObject.BoardCore.Get` | rust/telesthete/src/board.rs:179-184 | reading a key gives its live value or nothing |
| `BoardObject.BoardCore.Items` | rust/telesthete/src/board.rs:187-193 | collecting entry by entry lists exactly the live pairs |
| `BoardConvergence.SnapshotJoins` | rust/telesthete/src/board.rs:213-239 | merging a snapshot in any order yields the per-key latest-version join |
| `BoardConvergence.SnapshotExchangeConverges` | rust/telesthete/src/board.rs:535-582 | snapshots exchanged both ways make the two maps equal, and then neither side asks the other for a sync |
| `BoardConvergence.SnapshotsCarryIssuedWrites` | rust/telesthete/src/board.rs:234-239 | what a replica snapshots is a set of issued writes |
| `BoardDigest.ConvergedPairIsQuiet` | rust/telesthete/src/board.rs:199-208 | equal version maps give equal digests, so no SYNC_REQ |
| `BoardDigest.DigestsDecideExactly` | rust/telesthete/src/board.rs:195-208 | for every list of actors: equal digests mean equal boards, values included, for all replicas of all runs, exactly when no actor is another with something in front of it (other than eight or more bytes ending in eight zeros); clocks in 64 bits, no hash collision on the two |
| `BoardDigest.DivergedReplicasSync` | rust/telesthete/src/board.rs:535-575 | with names that are not confusable, a replica asks for a sync exactly while its board differs from the one probed with; the snapshots exchanged then make the two equal, so neither asks again |
| `BoardDigest.ConfusableCollide` | rust/telesthete/src/board.rs:195-208 | otherwise, for any key, a run of local writes leaves two replicas with different boards and the same digest under every hash |
| `BoardDigest.DigestCollision` | rust/telesthete/src/board.rs:199-208 | one such run, written out: actors ab and b, keys k and k followed by a zero byte, clocks 1 and 353 |
| `BoardDigest.StampsReadBack` | rust/telesthete/src/board.rs:199-208 | with such names the entries of one run are read back from the digest preimage, last entry first |
| `BoardDigest.OneEntryDigests` | rust/telesthete/src/board.rs:199-208 | boards of one entry: equal digests exactly when the versions agree or key, clock and actor overlap, the overlap spelled out |
| `BoardDigest.PrefixFreeDigestDecides` | rust/telesthete/src/board.rs:199-208 | any two maps, of one run or not: if no key and no actor of one is a proper prefix of one of the other, the digest decides whether the versions agree (sufficient, not necessary) |
| `BoardObject.BoardCore.Set` | rust/telesthete/src/board.rs:151-162 | the in-place write and the message it returns equal the value-level local write |
| `BoardObject.BoardCore.Delete` | rust/telesthete/src/board.rs:165-176 | the same for a tombstone |
| `BoardObject.BoardCore.MergeEntry` | rust/telesthete/src/board.rs:213-231 | the in-place merge equals the value-level one, and it reports a change exactly when the map changed |
| `BoardObject.BoardCore.MergeSnapshot` | rust/telesthete/src/board.rs:535-582 | merging a whole SNAPSHOT is merging its writes in turn |
| `BoardObject.BoardCore.Digest` | rust/telesthete/src/board.rs:199-208 | the fold over sorted entries hashes the value-level preimage |
| `BoardObject.BoardCore.Snapshot` | rust/telesthete/src/board.rs:234-239 | a snapshot has each entry once, in key order |
| `UdpBudget.BudgetBalances` | rust/telesthitium/src/registry.rs:100-160 | in every interleaving of senders and writers, used equals the bytes reserved, refunding, queued and dequeued; a nonzero limit is never exceeded |
| `UdpBudget.NoUnderflow` | rust/telesthitium/src/registry.rs:110-112 | no refund or release ever takes more than is charged, so the counter never wraps |
| `UdpBudget.QuiescentMeansZero` | rust/telesthitium/src/registry.rs:140-160 | when nothing is queued or in mid-step nothing is charged |
| `UdpBudget.StepKeepsBalance` | rust/telesthitium/src/registry.rs:140-160 | each atomic step of a sender or writer keeps the balance |
| `UdpBudget.UdpSink.TrySend` | rust/telesthitium/src/registry.rs:140-160 | whatever the outcome, the budget changes by exactly what the queue gained; it is queued exactly when budget and queue have room and the queue is open |
| `UdpBudget.PeerWriter` | rust/telesthitium/src/udp.rs:137-149 | a writer draining its queue while senders add to it refunds, by the time it has caught up, exactly what the queue held at the start and all that came meanwhile, without wrapping |
| `SessionTheorems.StreamKeeps` | telesthete/protocol/stream.py:178-202 | accepting a stream packet keeps the epochs, watermarks and histories consistent |
| `SessionTheorems.AcceptedStrictlyIncreases` | telesthete/protocol/control.py:287-321 | over any packets, removals and re-admissions without a harmful HELLO, the (epoch, sequence) pairs accepted from each peer on each stream and on the control channel strictly increase, and the Band and control epochs of a present peer agree |
| `SessionEffects.ControlTakenExactly` | telesthete/protocol/control.py:264-321 | in every run a control packet reaches its handler exactly when it is authentic, known and later in (epoch, sequence) than every control packet taken from its sender; its sequence is then the watermark, and a newer epoch resets that sender's streams; any other packet only marks its sender as seen |
| `SessionEffects.StreamTakenExactly` | telesthete/protocol/stream.py:151-216 | in every unharmed run a packet is accepted on an open stream exactly when it is under its sender's present key and later than everything accepted from that sender there |
| `SessionEffects.SelectsTheFirstAcceptable` | telesthete/protocol/crypto.py:77-94 | the suite selected is the initiator's first preference that is supported or the baseline, and the baseline when no preference is |
| `SessionEffects.DataKeysUseOurSuites` | telesthete/band.py:228-277 | in every run, harmed or not, the suite of every peer is one of ours or the baseline, and so is that of every data key |
| `SessionEffects.AnswerIsAdopted` | telesthete/band.py:257-277 | a newer HELLO_ACK is adopted with the suite it names, or the baseline if that is not one of ours |
| `SessionEffects.PeersBounded` | telesthete/band.py:206-226 | no run in which the stalest peer makes way for a newcomer remembers more than 4096 peers |
| `SessionEffects.NewcomerReplaces` | telesthete/band.py:206-226 | a newcomer at the cap takes the place of the chosen peer and of nobody else |
| `SessionEffects.GoodbyeForgets` | telesthete/band.py:293-316 | a GOODBYE that is taken forgets its sender and nobody else; a KEEPALIVE forgets nobody |
| `SessionTheorems.RunKeepsInv` | telesthete/band.py:206-316 | the invariant behind it holds in every state of every such run |
| `SessionTheorems.ControlKeepsExactly` | telesthete/protocol/control.py:239-321 | a control packet of any kind keeps that invariant exactly when it is not an authentic, newer-epoch HELLO from a known peer whose cipher field cannot be read |
| `SessionTheorems.ReadmitsExactly` | telesthete/band.py:228-249 | an accepted packet that comes again right after any one event is accepted again exactly when that event was such a HELLO of its sender, because the watermark is reset before the handler raises |
| `SessionTheorems.ReadmissionHappens` | telesthete/band.py:228-249 | a run of five events in which it happens |
| `SessionTheorems.KeyIsSessions` | telesthete/band.py:155-162 | in every such run the data key for a peer is the key of the control channel's epoch, and there is none before a HELLO or without the peer |
| `SessionTheorems.OnlyRestartsReset` | telesthete/band.py:279-291 | sessions never go back, and a stream watermark is forgotten or lowered only in a step that starts a newer session of that peer |
| `SessionTheorems.RestartIsNoLockout` | telesthete/band.py:228-255 | after a newer epoch's HELLO the peer's first packet under the new key is accepted on every stream, whatever its sequence number |
| `BandObject.Band.SelectCipher` | telesthete/protocol/crypto.py:77-94 | the loop returns the first preference that is supported or the baseline |
| `BandObject.Band.Stalest` | telesthete/band.py:213-217 | the pass over the registry finds a least recently seen peer |
| `BandObject.Band.EnsurePeer` | telesthete/band.py:206-226 | a new peer is admitted with no epoch; at the cap the least recently seen peer makes way |
| `BandObject.Band.Adopt` | telesthete/band.py:234-249 | a handshake's suite and epoch are adopted unless older than what is held |
| `BandObject.Band.Dispatch` | telesthete/band.py:228-302 | the four handlers against the value-level dispatch, including a HELLO whose suites cannot be read |
| `BandObject.Band.OnNewSession` | telesthete/band.py:279-285 | the loop makes every stream forget the peer and touches nothing else |
| `BandObject.Band.HandleControl` | telesthete/protocol/control.py:239-321 | authentication, epoch comparison, watermark and dispatch in the source's order; a peer evicted to admit the sender is the least recently seen |
| `BandObject.Band.HandleStream` | telesthete/protocol/stream.py:151-202 | watermark first, then the session key, then the watermark moves |
| `RegistryTheorems.ReachableInv` | rust/telesthitium/src/registry.rs:278-353 | in every reachable registry the caps hold, no band is empty, a peer has a queue exactly when eligible, connections are eligible and a UDP source exactly when it sent enough packets |
| `RegistryTheorems.Destinations` | rust/telesthitium/src/registry.rs:405-421 | in every reachable registry a frame goes to exactly the other eligible holders of a nonzero addressed id when there are any, otherwise to every other eligible peer; never the sender, and nobody only when there is nobody |
| `RegistryEffects.ForwardDelivers` | rust/telesthitium/src/registry.rs:430-478 | in every reachable registry a frame other than a ROUTE goes to exactly the other eligible holders of a nonzero addressed id, or to all other eligible peers when there are none; never to its sender; it is offered to linked hubs and changes nothing |
| `RegistryEffects.InjectDelivers` | rust/telesthitium/src/registry.rs:252-269 | a frame from a link goes to exactly that audience with no sender to leave out, and a ROUTE frame nowhere |
| `RegistryEffects.RouteDeclares` | rust/telesthitium/src/registry.rs:441-456 | a ROUTE frame of an eligible peer goes nowhere; a nonzero id becomes the peer's, taken from exactly the addresses its host has abandoned; id 0 withdraws it and touches nobody else |
| `RegistryEffects.EarlyRouteIsRecorded` | rust/telesthitium/src/registry.rs:441-456 | before validation the id is recorded on that peer alone |
| `RegistryEffects.ValidationTakesOver` | rust/telesthitium/src/registry.rs:297-307 | the packet that validates a source makes the id it declared count, takeover included |
| `RegistryEffects.ValidatesExactly` | rust/telesthitium/src/registry.rs:289-353 | a new source that there is room for is registered by its first packet and can receive exactly from the required packet on |
| `RegistryEffects.InsertExactly` | rust/telesthitium/src/registry.rs:321-353 | a peer is admitted exactly when the caps allow it; a connection can receive at once; nobody else is affected |
| `RegistryEffects.PruneExactly` | rust/telesthitium/src/registry.rs:501-515 | pruning keeps every connection, and a UDP peer exactly if it was seen within the time to live |
| `RegistryEffects.HeardIsSeen` | rust/telesthitium/src/registry.rs:296-319 | a packet of a registered peer moves when it was last seen, not when it appeared |
| `RegistryEffects.DisconnectExactly` | rust/telesthitium/src/registry.rs:482-490 | disconnecting removes that peer of that band and no other |
| `RegistryTheorems.IneligibleDeclaration` | rust/telesthitium/src/registry.rs:439-454 | a ROUTE frame from a peer that is not eligible changes the destinations of no frame |
| `RegistryTheorems.SupersedeKeepsAHolder` | rust/telesthitium/src/registry.rs:369-387 | taking ids from rebound addresses never leaves an id without an eligible holder |
| `RegistryTheorems.SupersedeKeeps` | rust/telesthitium/src/registry.rs:369-387 | nor does it disturb the registry invariant |
| `RegistryTheorems.ObserveKeepsInv` | rust/telesthitium/src/registry.rs:289-309 | counting, validating and admitting a UDP source keeps the invariant |
| `RegistryTheorems.InsertKeepsInv` | rust/telesthitium/src/registry.rs:321-353 | so does admission under both caps |
| `RegistryTheorems.DisconnectKeepsInv` | rust/telesthitium/src/registry.rs:482-490 | so does leaving, which reaps an emptied band |
| `RegistryTheorems.PruneKeepsInv` | rust/telesthitium/src/registry.rs:501-515 | so does pruning by age |
| `RegistryBystander.UnvalidatedSourceIsInert` | rust/telesthitium/src/udp.rs:86-98 | any datagrams of a UDP source, in between any events of other peers: while it is never validated and no cap turns another peer away, every frame in every band goes exactly where it would have gone without them |
| `RegistryBystander.RunsBeside` | rust/telesthitium/src/udp.rs:86-98 | the two runs, with and without the source, agree on every other peer at every point |
| `Registry.HeaderRoundTrip` | rust/telesthitium/src/frame.rs:32-44 | band, kind and id of a frame of at least 43 bytes are read back from its header |
| `RegistryObject.Registry.Insert` | rust/telesthitium/src/registry.rs:321-353 | admits, or refuses leaving the registry untouched; a band opened for a refused peer is gone again |
| `RegistryObject.Registry.Connect` | rust/telesthitium/src/registry.rs:278-281 | registers a connection peer, eligible at once |
| `RegistryObject.Registry.ObserveUdp` | rust/telesthitium/src/registry.rs:289-309 | counts the packet and, on the one that validates, gives the queue and applies a waiting declaration |
| `RegistryObject.Registry.Touch` | rust/telesthitium/src/registry.rs:313-319 | refreshes a known peer and nothing else |
| `RegistryObject.Registry.SupersedeRebound` | rust/telesthitium/src/registry.rs:369-387 | the loop strips the id from exactly the same-host entries silent since before this one appeared |
| `RegistryObject.Registry.AnyDeclares` | rust/telesthitium/src/registry.rs:411-414 | finds an eligible declarer other than the sender exactly when there is one |
| `RegistryObject.Registry.Targets` | rust/telesthitium/src/registry.rs:405-421 | the filter loop collects exactly the queues of the value-level destinations |
| `RegistryObject.Registry.Forward` | rust/telesthitium/src/registry.rs:430-478 | a ROUTE frame is recorded and consumed; any other frame goes to its destinations and is offered to linked hubs |
| `RegistryObject.Registry.InjectFromLink` | rust/telesthitium/src/registry.rs:252-269 | a frame from a link goes to its local destinations, changes nothing and is not offered to links |
| `RegistryObject.Registry.Disconnect` | rust/telesthitium/src/registry.rs:482-490 | removes the peer and reaps the band if it emptied |
| `RegistryObject.Registry.Prune` | rust/telesthitium/src/registry.rs:501-515 | the nested loops keep connections and fresh UDP peers and reap emptied bands |
| `DropTheorems.SearchAgreesWithScan` | telesthete/protocol/drop.py:199-218 | after any frames and for any resumed chunks the incremental search is the head of the full scan, the count-based completeness test agrees with the scan, and a positive verdict means a file of the offered size and digest was handed over |
| `DropTheorems.SearchIsHead` | telesthete/protocol/drop.py:199-211 | with everything below the low mark held, the incremental search answers the first range of the full scan and leaves the low mark justified |
| `DropTheorems.DrainedWindow` | telesthete/protocol/drop.py:184-211 | filling the first window turns the full scan into exactly its previous tail |
| `DropTheorems.ScanIsExact` | telesthete/protocol/drop.py:184-197 | the scan's windows are ordered, at most 64 long, as long as possible, and hold exactly the missing indices |
| `DropTheorems.NothingMissing` | telesthete/protocol/drop.py:213-218 | the scan is empty exactly when every chunk is held |
| `DropTheorems.ReachableOk` | telesthete/protocol/drop.py:239-301 | after any frames, every held chunk has an index and length the offer defines, the low mark is justified, and a verdict describes the file handed over |
| `DropPull.LosslessPull` | telesthete/protocol/drop.py:239-301 | a new receiver with truthful resumed chunks, offered a file and answered in full, requests exactly the ranges it misses, once each and in order, then hands over and verifies the sender's bytes and asks no more |
| `DropPull.AnotherFileIsPulled` | telesthete/protocol/drop.py:246-270 | a receiver in any reachable state that is offered another file pulls all of it, from its first chunk, and hands over exactly its bytes |
| `DropPull.HonestRunsAreFaithful` | telesthete/protocol/drop.py:239-301 | whatever is lost, repeated or out of order, a receiver that hears one honest sender holds only that sender's chunks and hands over only its file, verified |
| `DropPull.LossIsRepaired` | telesthete/protocol/drop.py:220-288 | however much was lost after the OFFER, one timeout and full answers from then on finish the pull, asking once for each range still missing |
| `DropPull.PullCompletes` | telesthete/protocol/drop.py:220-301 | the same from any state that holds only chunks of the file on offer and has no verdict |
| `DropTheorems.CompleteMeansVerdict` | telesthete/protocol/drop.py:213-301 | in every run whoever holds every chunk on offer has reached a verdict |
| `DropEffects.ValidOffersAreSenders` | telesthete/protocol/drop.py:159-174 | the offers taken are exactly those a sender of a file of that size and digest would make |
| `DropEffects.OtherFileStartsOver` | telesthete/protocol/drop.py:250-270 | an OFFER of another file forgets what was held and decided and asks for that file's first window |
| `DropEffects.SameFileKeepsChunks` | telesthete/protocol/drop.py:250-270 | an OFFER of the same file, in any run, loses no chunk and no verdict |
| `DropEffects.HeldChunksStay` | telesthete/protocol/drop.py:271-288 | in any run a held chunk stays as it is through every frame and timeout, another file's OFFER apart |
| `DropEffects.ChunkStored` | telesthete/protocol/drop.py:271-279 | a chunk is stored exactly when it is in range, not held yet and of its exact length |
| `DropEffects.TimeoutAsksAgain` | telesthete/protocol/drop.py:220-237 | in any run without a verdict, a timeout asks again for the first range a full scan finds missing; with one it asks for nothing |
| `DropEffects.HandedOverExactly` | telesthete/protocol/drop.py:266-301 | the completion callback runs exactly at the OFFERs and in-range CHUNKs after which every chunk is held |
| `DropEffects.RangeAnswered` | telesthete/protocol/drop.py:127-134 | a requested range is answered with the file's chunks at consecutive indices, cut at its end, the file's end, 64 chunks and the four-byte index |
| `DropPull.RequestAnswered` | telesthete/protocol/drop.py:127-134 | one answered request drains its window and moves the pull on by exactly one range |
| `DropPull.WindowFills` | telesthete/protocol/drop.py:272-286 | until its last chunk comes, a window's chunks are stored and nothing is asked for |
| `DropPull.BodyRoundTrip` | telesthete/protocol/drop.py:131-134 | index and data of a CHUNK survive the wire |
| `DropObject.DropReceiver.MissingRanges` | telesthete/protocol/drop.py:184-197 | the run-then-split loops compute the list of missing windows |
| `DropObject.DropReceiver.NextMissingRange` | telesthete/protocol/drop.py:199-211 | the two loops compute the incremental search and leave the low mark where it stopped |
| `DropObject.DropReceiver.Complete` | telesthete/protocol/drop.py:213-218 | count first, then the full check |
| `DropObject.DropReceiver.RequestMissing` | telesthete/protocol/drop.py:220-229 | asks for the next window unless there is no offer, a verdict, or nothing missing |
| `DropObject.DropReceiver.Finish` | telesthete/protocol/drop.py:290-301 | assembles, cuts to size, compares digests, reports |
| `DropObject.DropReceiver.HandleOffer` | telesthete/protocol/drop.py:245-271 | a valid OFFER replaces the old one, clears another file's chunks, keeps relevant ones, and finishes or asks |
| `DropObject.DropReceiver.HandleChunk` | telesthete/protocol/drop.py:272-286 | an in-range, right-sized, new chunk is stored; then finish, next window, or nothing |
| `DropObject.DropSender.ServeRange` | telesthete/protocol/drop.py:127-134 | the loop sends exactly the chunks of the clamped range |
| `FederationTheorems.RunKeepsInv` | rust/telesthitium/src/federation.rs:232-358 | the invariant behind it holds in every state of every run |
| `FederationTheorems.FanOneKeeps` | rust/telesthitium/src/federation.rs:232-244 | handing the frame in hand to the next link of the snapshot keeps the invariant |
| `FederationTheorems.WriteKeeps` | rust/telesthitium/src/federation.rs:312-327 | so does writing a queued message to the far end |
| `FederationTheorems.LocalKeeps` | rust/telesthitium/src/registry.rs:459-477 | so does a local frame, delivered and offered to the fan-out task |
| `FederationTheorems.LinkUpKeeps` | rust/telesthitium/src/federation.rs:267-276 | so does a new link between any two hubs |
| `FederationTheorems.OneHop` | rust/telesthitium/src/federation.rs:232-358 | for any hubs, links and interleaving: a link writes each frame at most once and only frames its own hub sourced, none while revoked; every delivery is of the very bytes sourced, to peers then registered in the frame's band, at the sourcing hub or one directly linked, at most once per path |
| `FederationLive.FrameCrosses` | rust/telesthitium/src/federation.rs:232-358 | from every reachable mesh, a frame its hub offers, over a link that is up, active at both ends and wants the band, with room and nothing too long ahead, is delivered at its own hub and, byte for byte, at the far hub, to exactly the peers the two registries name |
| `FederationLive.FanReaches` | rust/telesthitium/src/federation.rs:232-244 | the fan-out task, left to itself, puts an item on the queue of every such link |
| `FederationLive.BandsAreLearned` | rust/telesthitium/src/federation.rs:281-337 | bands advertised on a link that is up become exactly what the far side wants |
| `FederationTheorems.ReadKeeps` | rust/telesthitium/src/federation.rs:331-358 | reading a message keeps the invariant: a RELAY is decoded, injected and queued nowhere |
| `FederationTheorems.RelayIsSource` | rust/telesthitium/src/federation.rs:312-357 | what is decoded from a RELAY on a link is the band and frame its hub sourced |
| `Federation.BandsRoundTrip` | rust/telesthitium/src/federation.rs:378-404 | what is decoded from a BANDS message is the set advertised, all of it up to 65535 bands |
| `Federation.RelayRoundTrip` | rust/telesthitium/src/federation.rs:316-357 | band and frame survive a RELAY message |
| `FederationObject.LinkHandle.OnBands` | rust/telesthitium/src/federation.rs:387-404 | the decoding loop collects exactly the complete ids among those counted |
| `FederationObject.LinkHandle.Advertise` | rust/telesthitium/src/federation.rs:378-385 | the encoding loop queues exactly the encoded list, if there is room |
| `FederationObject.FanOut` | rust/telesthitium/src/federation.rs:232-244 | one frame is queued once on every active link that wants its band and has room, and on no other |

## Left out

- Sockets, async tasks, TLS, WebSocket, WebTransport, AF_UNIX and the C bindings are input and output around these cores.
- Cryptography is ideal: a packet opens only under the key it was sealed with; SHA-256 is a function parameter; fragment ids are parameters, not random draws.
- JSON envelopes are datatypes; a message that does not parse is the constructor for "nothing to read".
- Clocks are numbers given to the operations; the Channel takes one instant per inner sequence number, so a buffered frame has the same instant whenever it is drained.
- 64-bit counters (sequence numbers, Lamport clocks, sums of sizes) are unbounded; the 32-bit packet count of the registry saturates as in the source.
- The Channel's outbox and delivered list are never drained: the outbox is the network, from which any frame may arrive any number of times.
- The Channel core never leaves the state after its own FIN, so nothing is stated about what follows a FIN that was seen and answered; re-opening a dead channel is not modelled.
- Board restarts, which reset the Lamport clock.
- The control channel, the Band's handlers and the streams are one object with three groups of fields; channels, boards and drops, which the Band resets in the same loop as streams, are not repeated; destinations, capabilities and host names are not kept.
- A HELLO's cipher field is either a list of suites or unreadable; agreement when both sides send HELLO at once is not stated.
- Queues that frames are handed to after the registry lock is released: the registry operations return which queues, and `UdpBudget` models what sending to a UDP queue does; the counts `prune` returns are not modelled.
- Budget refunds after shutdown, when aborted writers do not drain their queues.
- Drop's transport watermark, sender address and progress clock; a re-request timer is the event that it fired.
- Drop files of more than 2^32 chunks, whose index does not fit the wire field.
- Federation's HELLO secret, dialing, the all-0xFF band marker, and message lengths of 4 GiB and more, which the source's length field cannot hold; a closed link's queue, and what is behind a message over the size bound, is kept but never written.
- The root `src/` crate, discovery, stream headers and the other fixed-layout codecs, which would add only easy round trips.
