# XDNS stream transport: a verified model

XDNS carries TCP streams over DNS. This project models the parts of it whose correctness is hardest to see by
reading, and proves what they promise:

* the **ARQ stream protocol**, a selective-acknowledgement transport over a network that loses, duplicates and
  reorders, with 16-bit wrapping sequence numbers and a three-packet close protocol;
* the **sharded DNS cache** with its LRU eviction, pending counter and binary file;
* the **base36 block codec**;
* **stream ids**, the **dispatcher's round-robin scan**, the **MTU operating points and bands**, and the
  **balancer's selections**.

## How the ARQ model is built

`ArqTerm` holds the close machine as functions on values, `ArqState` the whole endpoint and what each handler does to
it as one `Step` per event. `Arq` is the endpoint as a class: its methods change fields in place, call each other as
the source's do (a drain settles by closing, a close drains) and loop over the maps in any order. Each is proved to do
what the function it stands for does, and `Arq.ARQ.Perform` that whatever event comes the object takes exactly the
step and keeps its invariant. `ArqPair` puts two objects and a network together and carries the results about runs of
a connection over to them. Everything else is about steps:

| file | what is in it |
|---|---|
| `SeqNum`, `ArqLink` | wrap-around: what a 16-bit number stands for, and what a batch and a drain do to that |
| `ArqTermProofs`, `ArqRuns`, `ArqClosing`, `ArqCompose` | what every step keeps; close packets over whole runs; progress of a close; how changes in a row add up to one move |
| `ArqFlow`, `ArqTransport`, `ArqDelivery` | two endpoints and a network; delivery, conservation and the end of a stream |
| `ArqSender`, `ArqSenderRuns`, `ArqHint` | timers, queue copies, RTO bounds, the scan hint and the one thing it misses |
| `ArqControl` | bounds of the control plane over whole runs |
| `ArqRecovery`, `ArqProgress`, `ArqEventually` | a missing chunk stays recoverable, a short schedule takes it, one tick and a round a chunk deliver everything |
| `ArqHandshake`, `ArqFinish` | how a stream ends by itself: everything is acknowledged, and both sides close |
| `ArqPriority`, `ArqScan`, `ArqNack` | the loops of the endpoint |
| `Arq`, `ArqPair` | the endpoint as a class, and two of its objects connected |

The network of `ArqDelivery` is two sets that only grow: every copy that ever left the queue, and every
acknowledgement ever sent, each with the unbounded index of its chunk beside the number on the wire. Any element may
arrive at any later time, any number of times, or never. What is asked of the network is packet lifetime only:

* a copy is not processed after the receiver took `65536 - window` or more chunks beyond it. `ArqLink.StaleCopyExact`
  shows that this is exactly when an old copy would pass for a new chunk;
* an acknowledgement does not arrive after the sender read more than 65536 further chunks;
* no chunk is read while its sequence number is still unacknowledged (the send window counts items, not span).

That a copy is never too *new* for the half-window test is proved (`ArqDelivery.CopiesAreWithinReach`), from
`window + limit < 32768`, which the configured windows satisfy (`ArqDelivery.ConfiguredWindowsAreNarrow`). It is asked
of the network only once the receive side was given up or closed, where the conservation argument ends.

Instants are integers and 0 is the zero instant. The factors 0.8, 1.35 and 1.25 are the rationals 4/5, 27/20 and 5/4.

## Where the code and its documentation differ

The comment on `minRetransmitAt` says that before the hint no item is actionable. That is not so for an item that has
used up its retries: `ArqSender.SkippedScanMissesNothing` shows that such an item is all a skipped scan can miss, and
`ArqHint.SkippedScanMissesRetries` that it does happen, for every configuration: the scan that spends the last retry
of an old chunk leaves the deadline of a younger one as the hint, and no tick before that deadline resets the stream.

The comment on `deferTerminalPacket` (internal/arq/arq.go:1095-1097) says that the phase waits for outbound data to
drain. A drain toward RST stops draining once a chunk has used up its retries and lifetime: every tick then asks for
the reset that is already under way and ends there, so nothing is retransmitted until the drain deadline.
`ArqProgress.TickQueues` shows that this is the only tick that neither queues a due chunk nor gives the send side up,
and `ArqHint.DrainedResetStalls` that every configuration has runs that get there.

The comment on old packets (internal/arq/arq.go:1447) says that they are acknowledged so that the sender can free
them. A copy more than 32768 chunks behind is not: it reads as beyond the window and is dropped
(`ArqLink.FarBehindIsDropped`). `ArqLink.ReceivedIsAcked` shows that this is the exact bound; beyond it a chunk whose
acknowledgements were all lost stays with the sender until its retries are used up.

## Model

| member | source | states |
|---|---|---|
| SeqNum.ClassificationExact | internal/arq/arq.go:1444-1450 | The half-window test calls a copy old exactly when it is behind, if and only if it lies within 32768 of the next expected chunk. |
| SeqNum.LiftUnique | internal/arq/arq.go:998-999 | A 16-bit number determines the chunk index within any stretch of 65536. |
| ArqLink.StaleCopyExact | internal/arq/arq.go:1444-1456 | A copy of a chunk already taken passes for a chunk to come if and only if it is 65536 - window or more behind. |
| ArqLink.SentAppend | internal/arq/arq.go:995-1013 | Reading a chunk leaves the meaning of every unacknowledged number unchanged unless the new number is still in use. |
| ArqLink.BatchMatches | internal/arq/arq.go:1442-1472 | After a batch every buffered number holds the chunk it stands for, within the window, and nothing buffered is dropped. |
| ArqLink.BatchAcksReceived | internal/arq/arq.go:1446-1488 | Whatever a batch acknowledges has been received once the batch is through. |
| ArqLink.AckedExactly | internal/arq/arq.go:1442-1476 | A packet of a batch is acknowledged if and only if its number lies behind the next expected one, by the half-window test, or is buffered when the batch is through. |
| ArqLink.ReceivedIsAcked | internal/arq/arq.go:1442-1476 | By indices: a processed copy of a chunk already taken is acknowledged if and only if it is at most 32768 chunks behind, and a copy of one to come if and only if that chunk is buffered afterwards. |
| ArqLink.FarBehindIsDropped | internal/arq/arq.go:1446-1456 | A resent copy that far behind is dropped: chunk 0 when 40000 chunks were taken. |
| ArqLink.AcceptedExactly | internal/arq/arq.go:1452-1468 | A packet is buffered exactly if its number lies within the window and the buffer has room or it is the next expected one. |
| ArqLink.BatchFits | internal/arq/arq.go:1452-1463 | The receive buffer never holds more than window + 1 chunks, and window unless the expected one is among them. |
| ArqLink.ExpectedIsKept | internal/arq/arq.go:1459-1471 | The chunk expected next is buffered and acknowledged however full the buffer is. |
| ArqLink.DrainTakesPrefix | internal/arq/arq.go:1546-1555 | A drain takes exactly the next chunks of the peer's input, in order. |
| ArqLink.DrainKeepsReceived | internal/arq/arq.go:1546-1555 | A drain loses no received chunk. |
| ArqLink.AckConserves | internal/arq/arq.go:1712-1716 | An acknowledgement frees only a chunk that was received. |
| ArqLink.SpanBound | internal/arq/arq.go:573-580 | With every read chunk unacknowledged or received, the sender is at most window + limit + 1 chunks ahead. |
| ArqTermProofs.EmitReadMove | internal/arq/arq.go:1169-1203 | Emitting CLOSE_READ raises only flags and empties nothing else; it is asked for only with an empty send buffer. |
| ArqTermProofs.SettleKeeps | internal/arq/arq.go:1128-1167 | Settling a drain leaves no drain pending without data to drain, and goes no further than a close may. |
| ArqTermProofs.CloseKeeps | internal/arq/arq.go:2581-2639 | Every mode of Close keeps the close invariant: each packet originated once, an awaited acknowledgement has a deadline, a finished stream awaits nothing. |
| ArqTermProofs.TryFinalizeKeeps | internal/arq/arq.go:890-910 | The handshake finishes only with the receive side drained or given up. |
| ArqTermProofs.ReceiveControlAckKeeps | internal/arq/arq.go:2039-2108 | An acknowledgement of a close packet, tracked or awaited, keeps the invariant. |
| ArqTermProofs.ControlScanKeeps | internal/arq/arq.go:2405-2477 | Retransmitting or giving up on tracked packets, in any order of the map, keeps the invariant. |
| ArqRuns.StepKeeps | internal/arq/arq.go:912-939 | Every event of an endpoint keeps the invariant, takes back no lasting flag, and originates nothing after a reset or close. |
| ArqClosing.EachCloseOnce | internal/arq/arq.go:1169-1247 | In every run CLOSE_READ, CLOSE_WRITE and RST originate at most once, the owner is told of a close at most once and exactly if closed, and CLOSE_READ leaves only with nothing unacknowledged and reading stopped. |
| ArqClosing.NothingAfterReset | internal/arq/arq.go:2483-2573 | In every run nothing originates after a reset was sent or received or the stream closed, and closed is final. |
| ArqClosing.OverdueTickAdvances | internal/arq/arq.go:2326-2355 | Each tick past the current deadline brings a pending close one phase nearer to closed. |
| ArqClosing.PendingCloseFinishes | internal/arq/arq.go:2126-2135 | Without any help from the peer a pending close reaches closed in as many overdue ticks as it has phases left, at most three. |
| ArqClosing.CloseReadRequestArms | internal/arq/arq.go:1098-1126 | A drained CLOSE_READ request arms a close, except exactly when CLOSE_READ was sent already and nothing is awaited. |
| ArqHandshake.IntactWriterEnds | internal/arq/arq.go:890-907 | A stream with an intact writer finishes, with the handshake as the reason and in TIME_WAIT, if and only if CLOSE_READ was received, the own one sent and acknowledged or no longer awaited, the receive side is drained and no write is pending. |
| ArqHandshake.BrokenWriterEnds | internal/arq/arq.go:896-907 | With a broken writer it finishes so once both ends read and its own CLOSE_WRITE is acknowledged or the peer sent one. |
| ArqHandshake.LocalDisconnectEnds | internal/arq/arq.go:817-836 | Otherwise it finishes exactly at a client whose CLOSE_WRITE and CLOSE_READ are acknowledged, with everything drained and nothing pending, awaited or deferred. |
| ArqHandshake.BrokenClientFollowsUp | internal/arq/arq.go:795-815 | A client whose CLOSE_WRITE is acknowledged sends CLOSE_READ at once, or defers it until what it sent is acknowledged. |
| ArqHandshake.DrainNeverShortens | internal/arq/arq.go:1098-1126 | Asking again for a drain never brings its deadline forward nor leaves less than the drain timeout. |
| ArqHandshake.GraceSendsCloseWrite | internal/arq/arq.go:2367-2386 | A client sends CLOSE_WRITE two seconds after its CLOSE_READ was acknowledged. |
| ArqHandshake.IdleStreamResets | internal/arq/arq.go:2388-2403 | A stream idle past the timeout is reset, unless something is unacknowledged: then it counts as active again. |
| ArqFlow.StepQuiet | internal/arq/arq.go:676-699 | Every event but reading, acknowledging, receiving and writing leaves the chunks alone, unless it gives a side up. |
| ArqTransport.ReadKeepsLink | internal/arq/arq.go:995-1013 | Reading a chunk keeps the invariant of its direction, span bound included. |
| ArqTransport.AckKeepsLink | internal/arq/arq.go:1703-1743 | So does an acknowledgement, with everything the close machine does after it. |
| ArqTransport.BatchKeepsLink | internal/arq/arq.go:1406-1501 | So does a batch of copies in any order with repetitions. |
| ArqTransport.DrainKeepsLink | internal/arq/arq.go:1546-1570 | So does a drain, and the local writer is half-closed only when everything the peer read was written. |
| ArqTransport.WriteFailedKeepsLink | internal/arq/arq.go:838-844 | So does a broken writer: what was written stays a prefix. |
| ArqDelivery.ActKeepsJoined | internal/arq/arq.go:946-1085 | Whatever either endpoint does, both directions of the connection keep their invariant. |
| ArqDelivery.InOrderExactlyOnce | internal/arq/arq.go:1406-1502 | In every run, resets and broken writers included, each side has written a prefix of what the other read. |
| ArqDelivery.NothingLost | internal/arq/arq.go:340-342 | While neither side gave up: every read chunk is unacknowledged, buffered or delivered; the span and both buffers are bounded; the next missing chunk is held under its number. |
| ArqDelivery.CopiesAreWithinReach | internal/arq/arq.go:1444-1450 | While a receive side is in use no copy ever sent to it is too new for the half-window test. |
| ArqDelivery.NoTruncationAtEnd | internal/arq/arq.go:1559-1569 | A side that half-closes its writer or finishes the handshake, neither direction given up, has written all the peer ever read, and the peer reads no more. |
| ArqDelivery.ConfiguredWindowsAreNarrow | internal/config/client.go:722 | Every client window up to 20000 together with every server window up to 6000 satisfies the window hypothesis both ways. |
| ArqSender.SampleKeepsBounds | internal/arq/arq.go:527-542 | One RTT sample, whatever it is, keeps srtt and the base RTO in [min, max] and rttvar within max(max/2, max - min). |
| ArqSender.SampleMovesEstimate | internal/arq/arq.go:527-542 | A sample, brought into bounds, moves srtt an eighth of the way to it, never past it, and the deviation a quarter of the way to its distance from the old srtt; the first sets srtt to it and the deviation to half; the base is what lies nearest to srtt plus four deviations (section 2 of RFC 6298, with clamping). |
| ArqSender.EqualSamplesSettle | internal/arq/arq.go:527-542 | Under equal samples srtt never passes the sample, comes nearer with each until less than 8 away, and after as many samples as it was away it is. |
| ArqSender.SamplesKeepBounds | internal/arq/arq.go:527-542 | Any number of samples from a fresh estimate keeps those bounds. |
| ArqSender.ResendNeverShortens | internal/arq/arq.go:2207-2218 | A resend never shortens a chunk's timeout nor takes it above the maximum. |
| ArqSender.ResendBacksOff | internal/arq/arq.go:2207-2218 | A resend makes the timeout 1.35 times as long, rounded down, unless that is out of bounds, counts as a retry and bars the chunk from sampling. |
| ArqSender.SamplesAreUnambiguous | internal/arq/arq.go:1712-1716 | A sample is taken only from a chunk of which one copy was ever sent and none is queued (section 3 of RFC 6298). |
| ArqSender.AckMovesEstimate | internal/arq/arq.go:1712-1722 | The acknowledgement of such a chunk moves the estimate by the time since its copy left the queue; any other leaves it alone. |
| ArqSender.NackExactly | internal/arq/arq.go:1745-1789 | A NACK for a held chunk replaces its fresh copy by a resend exactly if none was honoured within the repeat interval and no resend waits, and another one is honoured only an interval later. |
| ArqSender.EnqueueHealthy | internal/arq/arq.go:995-1028 | A new chunk's first copy is never refused by the queue, and the sender stays healthy. |
| ArqSender.ScanHealthy | internal/arq/arq.go:2147-2222 | A whole retransmit scan keeps every sender invariant, hint included. |
| ArqSender.SkippedScanMissesNothing | internal/arq/arq.go:2137-2151 | A skipped scan would have resent nothing and found no expired TTL; all it can miss is an exhausted retry count. |
| ArqHint.SkippedScanMissesRetries | internal/arq/arq.go:2137-2165 | Every configuration has a run with a clock that never goes back after which every tick for a whole base timeout skips its scan although a chunk has used up its retries and its lifetime. |
| ArqHint.DrainedResetStalls | internal/arq/arq.go:2183-2186 | Every configuration has a run after which a reset waits for a drain, a chunk is due without a queued copy, and every tick until the drain deadline is stalled. |
| ArqSenderRuns.SenderStaysHealthy | internal/arq/arq.go:676-699 | In every run each unacknowledged chunk has its timer running or a copy queued, the queue never holds two copies of one, timeouts stay bounded and the hint is sound. |
| ArqControl.ControlResendNeverShortens | internal/arq/arq.go:2466-2476 | A retransmission never shortens a close packet's timeout nor takes it above the maximum. |
| ArqControl.ControlResendBacksOff | internal/arq/arq.go:2450-2477 | A tracked packet that left the queue a whole timeout ago, and waits there no more, is queued again with 1.25 times the timeout, rounded down, unless that is out of bounds; any other is left alone. |
| ArqControl.ControlStaysBounded | internal/arq/arq.go:656-674 | In every run the round-trip estimate of the control plane and the timeout of every tracked close packet stay in bounds, and no stream becomes virtual. |
| ArqRecovery.MissingChunkIsRecoverable | internal/arq/arq.go:2167-2205 | In every run of a connection the chunk the receiver needs next is buffered, queued at the sender, or timed there without the hint hiding it. |
| ArqProgress.TickQueues | internal/arq/arq.go:2126-2226 | At a tick at which a chunk without a queued copy is due, a copy is queued or the send side is given up, if and only if no drain toward RST is pending while a chunk has used up its lifetime; otherwise the tick does nothing at all. |
| ArqProgress.TickSurvives | internal/arq/arq.go:2126-2226 | Exactly when such a tick gives the send side up: when a chunk used up its lifetime, a drain or an awaited acknowledgement is past its deadline, or a tracked close packet expired while no reset is pending, unless the tick is stalled. A tick that survives leaves the scan's result as the send side. |
| ArqProgress.ExhaustedChunkResets | internal/arq/arq.go:2147-2188 | Past its lifetime with its retries used up, a chunk resets the stream at the first tick at which some chunk is due, unless a reset drain is pending. |
| ArqProgress.UnexhaustedGoesOn | internal/arq/arq.go:2147-2220 | While no close is pending, awaited or tracked, a tick at which no chunk is so goes on and queues the due chunk. |
| ArqProgress.MissingChunkIsTaken | internal/arq/arq.go:2126-2226 | From every sound state in which the receiver misses a chunk whose timer, if waited for, ran out, and the sender is not stalled: at most six moves at one instant - a tick, pops, arrivals, processing, ends of writes, drains and nothing else - take the next chunk, or one tick alone gives the send side up, exactly if the chunk is neither buffered nor queued and the tick does not survive. |
| ArqEventually.DeliveryProgresses | internal/arq/arq.go:1406-1570 | So in every run of a connection, for either direction. |
| ArqEventually.EverythingIsDelivered | internal/arq/arq.go:1406-1570 | In every run, for either direction, at every instant at which the receive side is in use, its channel within its lifetime, every timer that is waited for ran out and the sender is neither given up nor stalled: by those moves alone, in rounds of at most six moves, one a missing chunk and three more, everything the peer read is written and the send side goes on; or its tick gives it up, exactly if some chunk is not queued and the tick does not survive. |
| ArqEventually.UntroubledDelivers | internal/arq/arq.go:1406-1570 | So in every run: when the sender has no close pending, tracked or awaited, no chunk with a lifetime of its own and a retry left for every chunk, from any instant on there is one at which everything it read is delivered and written. |
| ArqFinish.DeliveredIsAcknowledged | internal/arq/arq.go:1406-1501 | In every run, for either direction, once everything read is delivered: a schedule in which every chunk still unacknowledged, none of them more than 32768 behind, is sent again, arrives, is acknowledged, and the acknowledgement arrives, empties the sender, whatever acknowledgements were lost before. |
| ArqFinish.BothSidesClose | internal/arq/arq.go:701-939 | In every run, once both sides are at rest: the ends of their inputs, the two CLOSE_READs and their acknowledgements close both, in at most eight moves, by a finished handshake and without a reset, each having written everything the other read. |
| ArqPriority.PriorityIsExactTopK | internal/arq/arq.go:2266-2275 | The priority lane takes exactly min(jobs, clamp(window/10, 1, 64)) due chunks, and those farthest behind. |
| ArqPriority.PriorityKinds | internal/arq/arq.go:2255-2324 | The one-pass insertion marks exactly those chunks, whatever order the jobs come in. |
| ArqScan.ScanSendBuffer | internal/arq/arq.go:2147-2177 | The scan finds exactly the due chunks, or reports a give-up exactly when there is one. |
| ArqScan.RequeuedAll | internal/arq/arq.go:2190-2220 | Offering the due chunks one after another, in any order, amounts to one simultaneous resend. |
| ArqScan.RecomputeHint | internal/arq/arq.go:2228-2253 | The recomputed hint is the least deadline, or unset when there is none. |
| ArqNack.MissingMembers | internal/arq/arq.go:1810-1819 | The candidates up to the arrived number are exactly the unbuffered numbers in between. |
| ArqNack.SoundExactly | internal/arq/arq.go:1809-1846 | Every number asked for is missing below the arrived one, if and only if the gap setting is no multiple of 65536 or everything from the arrived number round to the next expected one is buffered; with the number before the next expected one not buffered, if and only if the setting is no such multiple. |
| ArqNack.ConfiguredGapsAreSound | internal/config/client.go:732 | No gap a configuration lets through is such a multiple, so every number asked for is missing. |
| ArqNack.TargetsAreDistinct | internal/arq/arq.go:1810-1846 | No number is asked for twice. |
| ArqNack.HighestIsHighest | internal/arq/arq.go:1833-1846 | The sampled form adds the highest missing number at or below the frontier. |
| ArqNack.NackCandidates | internal/arq/arq.go:1791-1846 | Both loops terminate across wrap-around. Within the gap they ask for exactly the missing numbers below the arrived one, nearest first; beyond it for the nearest ones, one in twenty of the gap, and the farthest missing one within the gap. The next expected number, if missing, is always among them. |
| Arq.TxStream.PushTXPacket | internal/client/stream_client.go:244-315 | A resend is refused only by a queued resend and displaces the queued fresh copy; fresh data is refused by either. |
| Arq.TxStream.RemoveQueuedData | internal/client/stream_client.go:345-365 | Both lanes lose the chunk, and the result says whether anything was queued. |
| Arq.ARQ.constructor | internal/arq/arq.go:335-409 | A new endpoint is in the initial state. |
| Arq.ARQ.ReadChunk | internal/arq/arq.go:992-1028 | The insertion in ioLoop does what the read step does, refused push included. |
| Arq.ARQ.PopNext | internal/client/stream_client.go:318-337 | Popping a copy marks its chunk dispatched and forces the next scan. |
| Arq.ARQ.HandleNack | internal/arq/arq.go:1745-1789 | A NACK resends a held chunk at most once per interval, and a refused push changes nothing but the activity time. |
| Arq.ARQ.ReceiveDataAck | internal/arq/arq.go:1703-1743 | An acknowledgement does what the acknowledgement step does. |
| Arq.ARQ.Receive | internal/arq/arq.go:1312-1349 | A packet is counted as pending only while the inbound channel holds it. |
| Arq.ARQ.ProcessReceivedDataBatch | internal/arq/arq.go:1406-1501 | The loop over a batch inserts exactly as the batch step says, and pushes an acknowledgement for exactly the packets behind the next expected number and those buffered when the batch is through. |
| Arq.ARQ.TakeContiguous | internal/arq/arq.go:1546-1555 | The inner loop of writeLoop takes exactly the contiguous chunks. |
| Arq.ARQ.DrainPass | internal/arq/arq.go:1532-1570 | A pass of writeLoop does what the drain step does. |
| Arq.ARQ.AbandonWrite | internal/arq/arq.go:1612-1660 | A failed write gives the receive side up and asks for CLOSE_WRITE. |
| Arq.ARQ.RequeueDue | internal/arq/arq.go:2190-2220 | The job loop resends every due chunk in its lane. |
| Arq.ARQ.CheckControlRetransmits | internal/arq/arq.go:2405-2477 | The loop over tracked packets does what the control scan does for the order taken. |
| Arq.ARQ.CheckRetransmits | internal/arq/arq.go:2126-2226 | A retransmit tick does what the tick step does. |
| Arq.ARQ.OnCloseWrite | internal/arq/arq.go:762-785 | CLOSE_WRITE from the peer drops what was unacknowledged and its queued copies. |
| ArqCompose.ThenMove | internal/arq/arq.go:762-785 | A change of the close machine and then another one computed from where it led amount to one. |
| ArqCompose.CloseNowIsClose | internal/arq/arq.go:1159-1165 | What a settled drain asks of Close is the deferred packet itself, never another drain; an unset packet is a forced close. |
| Arq.ARQ.FinalizeClose | internal/arq/arq.go:2483-2573 | A stream is finished once: everything is emptied, nothing is awaited, and the final state tells a reset from a shutdown. |
| Arq.ARQ.TryFinalizeRemoteEof | internal/arq/arq.go:817-910 | The stream finishes exactly when the handshake, or the client's own disconnect, is complete. |
| Arq.ARQ.SendControlPacket | internal/arq/arq.go:1904-1967 | A close packet is tracked once; a refused push leaves it with its timeout run out. |
| Arq.ARQ.EmitTerminalPacket | internal/arq/arq.go:1169-1247 | Emitting a close packet does what the machine does, early returns included. |
| Arq.ARQ.SettleTerminalDrain | internal/arq/arq.go:1128-1167 | Settling a drain closes with the deferred packet, or with RST past the deadline. |
| Arq.ARQ.DeferTerminalPacket | internal/arq/arq.go:1098-1126 | Deferring a packet extends the deadline, never shortens it, and settles at once with nothing to drain. |
| Arq.ARQ.CloseStream | internal/arq/arq.go:2581-2639 | Every mode of Close does what the machine does; the mutual recursion with the drain ends. |
| Arq.ARQ.OnLocalEof | internal/arq/arq.go:1048-1085 | End of input stamps a client once and asks for a drained CLOSE_READ. |
| Arq.ARQ.OnCloseRead | internal/arq/arq.go:718-736 | CLOSE_READ from the peer moves the machine, and may finish the handshake. |
| Arq.ARQ.OnRst | internal/arq/arq.go:920-931 | RST from the peer empties everything and finishes the stream. |
| Arq.ARQ.OnControlAck | internal/arq/arq.go:2039-2108 | The acknowledgement of a close packet, tracked or awaited, does what the machine does; any other changes only the activity time. |
| Arq.ARQ.InitiateAndFinish | internal/arq/arq.go:795-815 | A client whose writer broke follows the acknowledged CLOSE_WRITE with CLOSE_READ, drained if anything is pending. |
| Arq.ARQ.HandleTerminalState | internal/arq/arq.go:2326-2403 | The terminal part of a tick moves the machine so, and says whether the tick ends there. |
| Arq.ARQ.PopNextControl | internal/arq/arq.go:676-699 | A close packet leaving the queue starts its timer. |
| Arq.ARQ.Perform | internal/client/client.go:715-800 | Whatever event comes, the object takes exactly the step of that event, takes back no lasting flag and originates nothing after a reset or a close; its invariant is kept unless a chunk is read whose number is still unacknowledged. |
| Arq.ValidMeans | internal/arq/arq.go:676-699 | An object that keeps the invariant originated each close packet at most once, told its owner of a close at most once and exactly if closed, and has every unacknowledged chunk timed or queued, data and close packets within the RTO bounds and nothing hidden by the hint. |
| ArqPair.Open | internal/arq/arq.go:335-409 | Two new objects with compatible configurations are a sound connection. |
| ArqPair.Exchange | internal/client/client.go:715-800 | Whatever either object handles, and whatever the network kept, repeated or reordered, the two stay a sound connection. |
| ArqPair.ConnectedDelivers | internal/arq/arq.go:1406-1502 | So each object has written a prefix of what the other read; and in both directions nothing is lost and the next missing chunk is recoverable while neither gave up, and all was written when a side ends. |
| StreamIds.Client.GetNewStreamId | internal/client/stream_client.go:132-164 | The first free id after the last one in the cycle 1..65535, and failure exactly when none is free. |
| DnsCache.LookupKeeps | internal/dnscache/store.go:129-185 | A lookup keeps a shard an LRU list within its limit, and its key is last afterwards: a new entry survives the eviction it causes. |
| DnsCache.StoreKeeps | internal/dnscache/store.go:219-268 | So does storing a response, whose key is then there. |
| DnsCache.ClearKeeps | internal/dnscache/store.go:300-318 | So does clearing the pending entries. |
| DnsAnswers.StoredEntry | internal/dnscache/store.go:219-268 | After a response is stored the most recently used entry is that of its key: ready, just used, with the question it came with and its bytes with the id zeroed. |
| DnsAnswers.AnsweredFromEntry | internal/dnscache/store.go:129-217 | A lookup answers, and a fetch gives, exactly what a ready entry used less than the TTL ago holds. |
| DnsAnswers.DispatchedExactly | internal/dnscache/store.go:140-184 | A query is dispatched exactly when there is no entry, an expired one, or one waiting for the whole timeout. |
| DnsAnswers.StoreAnswersLastStored | internal/dnscache/store.go:129-268 | In every run of a store, whatever is answered for a key is the response last stored for it, and a key never stored has no answer. |
| DnsAnswers.StoreAnswersStored | internal/dnscache/store.go:129-268 | In every run after a response is stored: it is answered as long as it is not stored again, each use comes less than the TTL after the one before, and fewer other keys than a shard may hold are used in between, whatever happens to them. |
| DnsCacheRuns.RunStaysLru | internal/dnscache/store.go:129-268 | In every run of one shard no key is there twice, it is within its limit and ordered by last use. |
| DnsStoreRuns.StoreRunKeeps | internal/dnscache/store.go:129-318 | In every run of a store each shard is such a list, and holds only keys that belong to it. |
| DnsStoreRuns.ShardRunsAlone | internal/dnscache/store.go:129-318 | A shard runs by itself on the operations that reach it, so what holds of every run of a shard holds of it. |
| DnsCacheRuns.DispatchesAreSpaced | internal/dnscache/store.go:153-161 | Two dispatch requests for an entry that survives in between lie at least the pending timeout apart. |
| DnsShard.MovedIsUse | internal/dnscache/store.go:144-166 | Updating an element and moving it to the back is a use of the entry on the list, and map and list stay in agreement. |
| DnsShard.RemovedIsWithout | internal/dnscache/store.go:344-355 | Removing an element removes the entry from map and list alike. |
| DnsStore.EvictIfNeeded | internal/dnscache/store.go:330-342 | Eviction leaves exactly the most recently used entries, as many as the limit allows, and the counter follows. |
| DnsCacheStore.Store.LookupOrCreatePending | internal/dnscache/store.go:129-185 | The store answers and changes exactly the key's shard, as the list does, and the pending counter stays exact. |
| DnsCacheStore.Store.GetReady | internal/dnscache/store.go:187-217 | Likewise for fetching a response. |
| DnsCacheStore.Store.SetReady | internal/dnscache/store.go:219-268 | Likewise for storing one: the most recently used entry of the key's shard is that of the key, ready, with the bytes and the question given. |
| DnsCacheStore.Store.HasPending | internal/dnscache/store.go:293-298 | The counter says whether any shard has a pending entry. |
| DnsCacheStore.Store.ClearPending | internal/dnscache/store.go:300-318 | Every shard loses exactly its pending entries and the counter is zero. |
| DnsFile.EntryBack | internal/dnscache/store.go:536-628 | A written entry is read back with its instants cut to seconds, and what follows it is untouched. |
| DnsStoreRuns.KeptExactly | internal/dnscache/store.go:462-490 | A save keeps exactly the ready entries used less than the TTL ago, and a load exactly the unexpired ones. |
| DnsFile.SaveLoadRoundTrip | internal/dnscache/store.go:364-522 | With keys in their own shards, a loaded file gives every shard back, in order, its ready entries that had not expired, unless expired after the cut; the header counts the entries. |
| DnsFile.NothingEvictedOnLoad | internal/dnscache/store.go:431-435 | With the record limit unchanged nothing that comes back is evicted. |
| DnsStoreRuns.SavedKeysAreDistinct | internal/dnscache/store.go:462-504 | No key stands twice in what a save writes, nor in what a load of it finds unexpired. |
| DnsStoreRuns.BackIsLru | internal/dnscache/store.go:364-439 | What a shard gets back is an LRU list again, and none of it is evicted. |
| DnsCacheStore.Store.SaveToFile | internal/dnscache/store.go:462-504 | The two loops over the shards write exactly that file and report the number of entries. |
| DnsCacheStore.Store.LoadFromFile | internal/dnscache/store.go:364-439 | A bad header changes nothing. If no key stands twice among the unexpired entries: a bad entry leaves the entries before it in their shards, untrimmed; otherwise every shard gets its unexpired entries in order, trimmed to the limit. Nothing is pending. |
| DnsCacheStore.Reload | internal/client/dns_listener.go:219-240 | What one store saves another with the same settings loads: every shard gets back its ready entries, cut to seconds, that had not expired, and if the shards were LRU lists they are again. |
| DnsCacheStore.PushedAgreesExactly | internal/dnscache/store.go:423-425 | Appending a loaded entry keeps map and list in agreement if and only if its key is new. |
| DnsCacheStore.LoadEntries | internal/dnscache/store.go:407-429 | For any file, repeated keys included, the main loop of a load pushes every unexpired entry to the back of its shard in turn, stops at a bad entry and counts what it pushed. |
| DnsCacheStore.LoadAgreesExactly | internal/dnscache/store.go:407-429 | After that loop map and list of every shard agree if and only if no key stands twice among the unexpired entries. |
| Base36.LengthsInvert | internal/basecodec/lowerbase36.go:32-39 | The two length functions are inverse. |
| Base36.RefusedLengths | internal/basecodec/lowerbase36.go:198-212 | Lengths that are 1, 3, 6 or 9 modulo 11 are refused, and no others. |
| Base36.BlockFits | internal/basecodec/lowerbase36.go:26-29 | A block of bytes fits the characters it is given, and those fit 64 bits. |
| Base36.RoundTrip | internal/basecodec/lowerbase36.go:41-134 | Decoding undoes encoding for every byte string. |
| Base36.RoundTripAnyCase | internal/basecodec/lowerbase36.go:168-180 | So it does after any letters changed case. |
| Base36.ReencodeExact | internal/basecodec/lowerbase36.go:92-134 | Encoding a decoded string gives its lower case back if and only if every block's value fits its bytes. |
| Base36Loops.WriteBlock | internal/basecodec/lowerbase36.go:72-77 | The digit loop fills exactly its stretch of the buffer. |
| Base36Loops.ReadBlock | internal/basecodec/lowerbase36.go:124-134 | The accumulating loop reads the value without overflow, or refuses a bad character. |
| Base36Loops.EncodeTo | internal/basecodec/lowerbase36.go:41-70 | The block loop writes the encoding to the front of the buffer and nothing behind it. |
| Base36Loops.DecodeBytes | internal/basecodec/lowerbase36.go:92-122 | The decoding loop returns the decoded bytes, or the error, as specified. |
| Dispatcher.SelectNext | internal/client/dispatcher.go:257-354 | One scan serves the first servable stream in cyclic order from the cursor and moves the cursor past the first busy one. Something is selected whenever a stream has work, and a PING on the control stream only when no other has. |
| Dispatcher.ScanServesOrApproaches | internal/client/dispatcher.go:257-354 | A scan serves a backlogged stream or starts the next scan nearer to it. |
| Dispatcher.BackloggedIsServed | internal/client/dispatcher.go:241-256 | A stream with work throughout is served within as many scans as there are streams, whatever the others do. |
| Dispatcher.BoundIsExact | internal/client/dispatcher.go:257-354 | For every set of streams and every one of them, one scan fewer is not enough. |
| MtuPoint.Measure | internal/client/mtu_cluster.go:107-121 | The least values in the pool of a resolver's own pair are that pair. |
| MtuPoint.PoolCounts | internal/client/mtu_cluster.go:108-114 | The pool is the number of resolvers that sustain both values. |
| MtuPoint.UsableMembers | internal/client/mtu_cluster.go:96-101 | The usable resolvers are the valid ones with both values measured. |
| MtuPoint.SelectPoint | internal/client/mtu_cluster.go:94-135 | The chosen point is some resolver's own pair with its exact pool; none other gives more bytes both ways times more resolvers, nor as much with a larger download. |
| MtuPoint.ChainIsGloballyOptimal | internal/client/mtu_cluster.go:81-93 | When the pairs form a chain no thresholds at all score more. |
| MtuPoint.NotGloballyOptimalInGeneral | internal/client/mtu_cluster.go:81-93 | Without a chain some thresholds may score more. |
| MtuPoint.GloballyOptimalExactly | internal/client/mtu_cluster.go:81-93 | It is optimal over all thresholds if and only if no floor of one resolver's upload and another's download scores more. |
| MtuPoint.SelectHigh | internal/client/mtu_cluster.go:150-201 | The pair with the largest download, then upload, that keeps the wanted pool; otherwise the throughput-optimal point. |
| MtuBands.SortIsStableSort | internal/client/mtu_cluster.go:58-60 | The sort orders, permutes and keeps equal keys in order. |
| MtuBands.Cut | internal/client/mtu_cluster.go:62-75 | The bands are the sorted resolvers cut exactly at the gaps, each with its least download and its least measured upload, or 0 if none was measured. |
| MtuBands.Cluster | internal/client/mtu_cluster.go:43-82 | Read backwards the bands are those, so the largest download comes first; and no two bands share a download. |
| Balancer.RebuildValid | internal/client/balancer.go:502-558 | Exactly the admitted connections of the preferred family and tier, in order. |
| Balancer.EligibleMeans | internal/client/balancer.go:502-558 | These are valid and of the wanted family; IPv6 or a backup is only used when there is no other. |
| Balancer.SomeEligible | internal/client/balancer.go:502-558 | There is one whenever a connection of a wanted family is valid. |
| Balancer.SelectHighestMTU | internal/client/balancer.go:672-698 | The wanted number of different connections, whatever the resolve times are: none left out or picked later has a larger download, nor as large a one and a larger upload. |
| Balancer.HigherFirstMeans | internal/client/balancer.go:717-734 | The larger download comes first, then the larger upload, then the shorter resolve time, an unmeasured one last. |
| Balancer.SelectLowestScore | internal/client/balancer.go:628-670 | The partial selection sort gives the lowest scores in order. |
| Balancer.SelectRandom | internal/client/balancer.go:601-626 | The partial shuffle gives different members whatever the random numbers are, and which ones they name. |
| Balancer.PickWeighted | internal/client/balancer.go:893-904 | The residue decides the position by the running totals, and no other position; the fallback is unreachable. |
| Balancer.ChosenByWeight | internal/client/balancer.go:884-905 | Exactly weight(i) residues choose position i. |
| LoadBalancer.ResolverPool.GetUnique | internal/client/balancer.go:375-414 | Exactly min(required, valid) different members of the valid set: best or lowest first, in turn from the counter, by the shuffle or by weight, as the strategy says; the counter moves on by as many where it is used. |
| LoadBalancer.ResolverPool.GetBest | internal/client/balancer.go:312-339 | One member of the valid set: the best, the lowest, the counter's, the one the random residue names, or the one it names by weight. |
| LoadBalancer.MoreLossScoresHigher | internal/client/balancer.go:792-807 | Of two resolvers that sent as much, the one that lost more does not score lower, and a thousandth more scores higher. |
| LoadBalancer.LatencyScoreIsMean | internal/client/balancer.go:840-852 | With enough samples the latency score is the mean round trip, rounded down. |
| LoadBalancer.ResolverPool.Rotate | internal/client/balancer.go:588-599 | A rotation from the counter gives different members. |

## Left out

- Goroutine interleavings inside one handler: every handler, a push with the bookkeeping after it, and RST reception
  with the forced close that follows it, is one atomic step.
- Arq.ARQ.CloseStream: flags and deadlines are held in one record, the flags as a set, because a method that writes a
  dozen fields of one object costs the solver far more; the texts of the reasons are an enumeration.
- Arq.ARQ.Perform: does not keep the invariant when a chunk is read whose number is still unacknowledged, which the
  send window, counting items and not span, does not by itself prevent.
- Arq.ARQ.CheckRetransmits: asks for positive deadlines, as the zero instant doubles as the unset hint; the invariant
  Arq.ARQ.Perform keeps gives them.
- ArqEventually.EverythingIsDelivered: what waits in the inbound channel must be within its lifetime, and no
  acknowledgement is assumed to arrive: the schedule is one the two endpoints can follow, not the only one.
- ArqFinish.DeliveredIsAcknowledged: says nothing of a chunk more than 32768 behind, which no resent copy gets
  acknowledged any more.
- ArqFinish.BothSidesClose: is about intact writers; the other two endings are ArqHandshake.BrokenWriterEnds and
  ArqHandshake.LocalDisconnectEnds, without a schedule of their own.
- Arq.ARQ.HandleNack: the interval is measured from the last honoured NACK; the intermediate write that is undone on a
  refused push is not visible in an atomic step.
- Arq.ARQ.PopNext: any queued packet may leave, so the priority order of the queue is abstracted; only the three close
  packets are modelled in the control plane, not the setup packets with their own timing.
- ArqDelivery.NoTruncationAtEnd: chunks are whole; a chunk of which a failed write wrote a part counts as unwritten.
- ArqNack.NackCandidates: the pacing timers that thin the candidates out are not modelled.
- DnsCacheStore.Store.LoadFromFile: asks for distinct keys among the unexpired entries of the file, which
  DnsStoreRuns.SavedKeysAreDistinct proves of every saved file. With a repeated key the main loop, which
  DnsCacheStore.LoadEntries specifies for any file, leaves map and list in disagreement
  (DnsCacheStore.LoadAgreesExactly); the eviction at the end may or may not restore agreement, and neither it nor what
  such a store does afterwards is modelled, as a shard of the model holds one entry per key.
- DnsCacheStore.Store.SaveToFile: the dirty counter that skips a save, the temporary file and the file system.
- DnsCacheStore.Store.GetReady: the copying of id and flag bits from the query into the response; the FNV hash is any
  function of the key.
- Dispatcher.SelectNext: the orphan-queue sentinel, which is appended after the sorted ids and would break the binary
  search, and the packing of control blocks.
- MtuBands.Cluster: the library sort is a stable insertion sort; the gap ratio is a rational.
- LoadBalancer.ResolverPool.GetBest: the goodput weight is any positive function of a connection and the random step
  any function of the state; statistics are read, not updated.
- Sockets, proxying, configuration loading, compression, encryption, forward error correction, logging and telemetry.
