# ultra-net: verified models of its queues, protocols and parsers

This project models the parts of ultra-net whose correctness rests on an
argument rather than on plumbing, and proves what those parts promise.

- **Mailbox and activation.** The bounded multi-producer ring at the grain of its
  atomic operations (`MpscRing`), the cell log it refines in every run (`Mailbox`),
  the queue object run alone (`MpscQueueObject`), the pending counter and activation
  flag of an actor (`ActorActivation`), that protocol run over the ring itself
  (`MailboxActor`), and what both can always finish (`ActorProgress`,
  `MailboxProgress`).
- **Work-stealing deque.** A fine-grained model of which item each winner claims
  (`StealClaims`), the slots and growing buffers its winners read from
  (`StealSlots`), and the masked buffer with its doubling and the three operations
  over values (`WorkStealingDeque`, on the bit arithmetic of `Bits`).
- **Bounded channel and connection pool.** The lock-guarded blocks and the object
  (`Channel`), every run of readers, writers and close (`ChannelSystem`), and the
  pool that keeps idle sockets in such a channel (`ConnectionPool`).
- **At-least-once delivery.** The sender's table (`UnackedTable`), the receiver's
  deduplication table (`Dedup`), any number of nodes with both of them, their
  connections, resends, recovery rounds and timeout scans over a network that
  loses, repeats and reorders frames (`Delivery`, `DeliveryProgress`,
  `FlaggedMessages`, `LateRefusal`), the hand-off between link death and recovery
  (`LinkRecovery`), and the framed byte transport (`Transport`, `Framing`).
- **WebSocket framing**, section 5 of RFC 6455 (`WebSocketFrame`), and streams of
  frames over arbitrary chunks, segments and short writes (`WebSocketStream`).
- **Receive buffers** that circulate between kernel, queue, consumer and assembler
  (`BufferRing`, `AssemblerObject`), shared by any number of connections
  (`SharedGroup`) over a ring whose slots and tail no lock guards (`RingSlots`);
  what one connection can always finish, and runs that fail (`ReceiveProgress`,
  `ReceiveRuns`).
- **Record and Redis framing** (`Collect`, `Resp`).

Concurrent components are state machines. A state holds the shared variables, one
phase per thread and, marked "history", what has happened so far. An event is one
atomic operation or one lock-guarded block. An event its thread cannot take
changes nothing, so every sequence of events is a run and `Exec` folds the steps
over it; a theorem about `Exec(Init(...), es)` holds in every interleaving of any
number of threads. Atomic operations are sequentially consistent. Components
whose code changes objects step by step are classes whose methods state the new
state through a function or a step of the corresponding machine. Sockets, timers
and the sink of the collector are parameters: a script of results, a sequence of
events, an answer per batch.

Some results are conditions rather than promises, each with an input that fails it.

- A push that finds the mailbox full waits inside its thread. The actor can be run to
  rest, with everything accepted delivered, by finishing what is under way exactly
  when not every thread is inside a push on a full mailbox
  (`ActorProgress.FinishesExactly`).
- A thief reads its slot after the exchange that won its item, over a buffer it
  loaded before. Every winner finds its item exactly while no push writes or empties
  a slot a winner has yet to read, and no thief wins over a buffer that no longer has
  the item (`StealSlots.ReadableExactly`, `StealSlots.HazardMisreads`). A push that
  grows the buffer at the wrong moment loses the oldest item
  (`StealSlots.GrowthLoses`).
- A connection that is invalidated, or fails to open, wakes nobody who waits for one
  at capacity. While none is lost nobody waits in a pool at rest
  (`ConnectionPool.NobodyStranded`); otherwise a client may wait for nothing, below
  capacity, until another comes (`ConnectionPool.RestingStays`,
  `ConnectionPool.InvalidateStrands`).
- `write_frame` sends the mask key but not a masked payload, so a peer recovers the
  payload exactly when the connection does not mask or every key octet in use is
  zero (`WebSocketFrame.WrittenDecodes`, `WebSocketFrame.MaskedWriteIsLost`).
- `writev_all` reports an error after sending everything when its list ends in an
  empty entry (`WebSocketStream.WritevAll`, `WebSocketStream.EmptyTailFails`). No
  caller in the file passes such a list: `write_frame` passes one entry for an empty
  payload, and the gathered list of a non-empty payload ends in a non-empty piece.
- The comment above the inline header parser says its logic equals that of the
  decoder; it does exactly under the condition of `WebSocketFrame.ParsersAgree`,
  which the length limit of section 5.2 of RFC 6455 guarantees
  (`WebSocketFrame.WrappedLength`).
- The multi-segment echo needs the whole frame header in the first received buffer;
  otherwise it gathers an empty payload (`WebSocketStream.EchoScattered`,
  `WebSocketStream.SplitHeaderIsLost`).
- The ack timeout resends unflagged messages only. A message flagged by a late
  `note_send_failed`, with its connection up again and its recovery over, waits for
  the next break, or for a caller who sends it again, exactly when no job under way
  posts it, clears its flag, or starts a resend or a recovery that finds it
  (`FlaggedMessages.WaitsExactly`, `LateRefusal.LateRefusalStrands`).
- `return_buffer` writes a slot at the tail and `advance_ring` moves the tail, and no
  lock covers the two. Each buffer of a group has exactly one owner throughout a run
  exactly when no two returns to the group overlap: when no return writes its first
  slot while another is between its first write and its advance
  (`RingSlots.OneOwnerExactly`). The second return's first write leaves one buffer
  in no place and counts another twice (`RingSlots.OverlapIsNotSole`), which may
  then be lent out twice (`ReceiveRuns.OverlapLoses`).
- A second `cleanup`, which the destructor makes after an explicit one, stores a
  null buffer group; what a connection was lent all comes back to the ring exactly
  when no completion with data is handled after it (`BufferRing.AllReturned`,
  `ReceiveRuns.SecondCleanupLoses`).
- `cleanup` writes to the callback after it has unlocked the state, and to one
  already marked for deletion exactly when the handler marks it in between
  (`BufferRing.LateUseExactly`, `ReceiveRuns.CleanupRaces`).
- The callback of a receive request is marked for deletion only by a terminal
  completion handled after `cleanup`. Once all is over it has been exactly when the
  stream had not ended before (`ReceiveProgress.DisposedExactly`); otherwise nothing
  deletes it (`ReceiveRuns.EndBeforeCleanupLeaks`).
- The boundary scanner for requests does not look behind a counted argument. It finds
  a boundary where the parser finds no request exactly where an argument is not
  followed by a line end (`Resp.BoundaryExactly`).
- The Redis parsers take numbers without digits, which stand for 0, and the reply
  scanner any negative length or count and any two bytes behind a string. What each
  takes is stated exactly (`Resp.ParseExactly`, `Resp.DetectExactly`).
- The Redis parsers read counts and lengths into 64-bit integers, right exactly
  below 2^63 (`Resp.ReadNumber`, `Resp.OverflowAccepted`).
- The record collector adds the header to the length in 32 bits. Records within the
  limit are read back, and no header makes it take a record that is not there,
  exactly for limits below 2^32 - 4 (`Collect.LimitIsExact`,
  `Collect.WrappedHeader`).

## Model

| member | source | states |
|---|---|---|
| MpscRing.StepInv | include/ultranet/coroutine/mpsc_queue.hpp:53-99 | every atomic step of any producer or of the consumer keeps the slot, ownership and history invariants |
| MpscRing.PopsFollowLog | include/ultranet/coroutine/mpsc_queue.hpp:53-99 | in every run popped values are the position-ordered log of claims, none lost and none twice |
| MpscRing.FifoPerProducer | include/ultranet/coroutine/mpsc_queue.hpp:53-99 | what the consumer got from one producer is a prefix of what that producer got in, in its order |
| MpscRing.OwnedOrPublished | include/ultranet/coroutine/mpsc_queue.hpp:80-99 | each claimed position is published or owned by exactly one producer, each free one carries its own number |
| MpscRing.PushFailsWhenFull | include/ultranet/coroutine/mpsc_queue.hpp:80-99 | a push gives up exactly when it holds the newest position and all Capacity positions are claimed and not handed back |
| MpscRing.PopEmptyExactly | include/ultranet/coroutine/mpsc_queue.hpp:53-70 | a pop reports empty exactly when nothing is claimed or the oldest claimer has not published |
| MpscRing.StaleSequence | include/ultranet/coroutine/mpsc_queue.hpp:80-99 | a producer with an outdated position always sees a larger sequence and reloads |
| Mailbox.ClaimRefines | include/ultranet/coroutine/mpsc_queue.hpp:80-99 | a won compare-exchange appends one unpublished cell of that producer to the mailbox log |
| Mailbox.PublishRefines | include/ultranet/coroutine/mpsc_queue.hpp:80-99 | the sequence store publishes the producer's own cell and no other |
| Mailbox.TakeRefines | include/ultranet/coroutine/mpsc_queue.hpp:53-78 | handing a slot back removes the front cell, published, with the value taken |
| Mailbox.PoppableRefines | include/ultranet/actor/core/mailbox.h:175-177 | the consumer proceeds exactly when the front cell is published |
| Mailbox.OtherStepsRefine | include/ultranet/coroutine/mpsc_queue.hpp:53-99 | every other atomic step leaves the mailbox log alone |
| Mailbox.RunRefines | include/ultranet/coroutine/mpsc_queue.hpp:53-99 | in every run of any number of producers and the consumer each atomic step of the ring is a claim, a publication, a take from a published front, or nothing, on the mailbox log |
| MpscQueueObject.MpscQueue.constructor | include/ultranet/coroutine/mpsc_queue.hpp:26-30 | slot i starts with sequence i and the queue is empty |
| MpscQueueObject.MpscQueue.SlotIndex | include/ultranet/coroutine/mpsc_queue.hpp:20-22 | masking with capacity - 1 is the position modulo the capacity |
| MpscQueueObject.MpscQueue.TryPush | include/ultranet/coroutine/mpsc_queue.hpp:80-99 | run alone it appends, succeeds exactly below capacity, and is the machine's five steps |
| MpscQueueObject.MpscQueue.TryPop | include/ultranet/coroutine/mpsc_queue.hpp:53-78 | run alone it takes the oldest value, fails exactly when empty, and is the machine's four steps |
| MpscQueueObject.MpscQueue.Drain | include/ultranet/actor/core/mailbox.h:196-205 | takes the first min(max_count, size) values in order |
| MpscQueueObject.PushedAlone | include/ultranet/coroutine/mpsc_queue.hpp:80-99 | five steps of one producer on a quiet ring append to its window exactly when it is not full |
| MpscQueueObject.PoppedAlone | include/ultranet/coroutine/mpsc_queue.hpp:53-78 | four steps of the consumer on a quiet ring remove the front of its window exactly when there is one |
| ActorActivation.StepInv | include/ultranet/actor/core/base_actor.h:255-327 | every step of push, activation and pull_and_run keeps token, counter and log invariants |
| ActorActivation.OneConsumer | include/ultranet/actor/core/base_actor.h:282-327 | at most one pull_and_run is submitted or between scheduling and its release store, for any number of threads |
| ActorActivation.PendingAccounts | include/ultranet/actor/core/base_actor.h:262-296 | m_pending never underflows and accounts for mailbox cells, uncounted pushes and unsubtracted drains; envelopes come out in order |
| ActorActivation.PendingIsWatched | include/ultranet/actor/core/base_actor.h:298-318 | while m_pending is positive the actor is activated or some thread has its activation check ahead |
| ActorActivation.NoLostWakeup | include/ultranet/actor/core/base_actor.h:255-327 | while envelopes wait, a task is submitted or a thread is still in the protocol: a quiescent actor has an empty mailbox |
| ActorProgress.ActivationDelivers | include/ultranet/actor/core/base_actor.h:282-296 | an activation that loads m_pending over as many published envelopes delivers exactly the first min(max_per_activation, m_pending) of them before it ends, whatever the other threads do; any activation ends short of its limit only where the mailbox's front is missing or unpublished |
| ActorProgress.CanFinish | include/ultranet/actor/core/base_actor.h:255-327 | from every reachable state but a jam, the threads can finish what they are at, with no push begun or given up, and the actor comes to rest with everything accepted delivered |
| ActorProgress.FinishesExactly | include/ultranet/actor/core/base_actor.h:262-280 | that is possible if and only if not every thread is inside a push on a full mailbox |
| MailboxActor.StepLinked | include/ultranet/actor/core/base_actor.h:255-327 | with every push and drain run as the ring's own atomic operations, ring and protocol stay linked: same cells, same phases, one consumer, which is the thread that holds the activation |
| MailboxActor.DeliveredInOrder | include/ultranet/actor/core/base_actor.h:255-327 | in every run over the ring, the actor delivers the claims in log order, and of each thread a prefix of what it pushed |
| MailboxActor.QuietRingIsEmpty | include/ultranet/actor/core/base_actor.h:282-327 | in every run over the ring, once no task is submitted and every thread is outside, the ring is empty and all ever claimed in it was delivered |
| MailboxProgress.RingCanFinish | include/ultranet/actor/core/base_actor.h:255-327 | the same over the ring's own atomic operations: it ends drained, with everything ever claimed in it delivered |
| MailboxProgress.RingCanDeliver | include/ultranet/actor/core/base_actor.h:255-327 | and from every reachable state once a jammed push is given up |
| StealClaims.StepInv | include/ultranet/coroutine/queue.hpp:129-255 | every atomic step of the owner or a thief keeps claimed items plus window equal to the items pushed |
| StealClaims.ClaimedOnce | include/ultranet/coroutine/queue.hpp:129-255 | in every interleaving each pushed item is claimed at most once and the unclaimed ones are the window |
| StealClaims.WinnerTakes | include/ultranet/coroutine/queue.hpp:177-255 | a won steal claims the oldest item, an uncontested pop the newest, a won exchange in pop the only one, and nothing else claims |
| StealClaims.PopFailsWhenEmpty | include/ultranet/coroutine/queue.hpp:177-222 | a pop about to restore bottom leaves an empty window |
| StealClaims.WaitFree | include/ultranet/coroutine/queue.hpp:129-255 | whatever the others do, a push or a steal is over after two more of its own blocks, a pop after three |
| StealSlots.StepInv | include/ultranet/coroutine/queue.hpp:26-255 | with loads, slot accesses and the loop of resize as single steps, the claims stay those of the deque, the indices in use fit the buffer, and each item stands in one slot at most |
| StealSlots.ReadableExactly | include/ultranet/coroutine/queue.hpp:52-255 | in every run each unclaimed item, and each won and not yet read, is where its winner looks for it, if and only if no push writes or empties a slot awaited by a winner and no thief wins over a buffer that has lost the item |
| StealSlots.WinnersRead | include/ultranet/coroutine/queue.hpp:177-255 | and then every winner reads what it won |
| StealSlots.HazardMisreads | include/ultranet/coroutine/queue.hpp:52-255 | otherwise the winner concerned, if it reads next, reads something else or nothing |
| StealSlots.GrowthLoses | include/ultranet/coroutine/queue.hpp:52-255 | a run in which a thief loads the buffer, a push grows it, and the thief then wins the oldest item and gets nothing |
| StealSlots.OwnerWaitFree | include/ultranet/coroutine/queue.hpp:52-222 | whatever the thieves do, a push, the growing of its buffer included, or a pop is over after a bounded number of the owner's own accesses, and never waits |
| StealSlots.ThiefGoesOn | include/ultranet/coroutine/queue.hpp:228-255 | a thief that saw an item is through after at most three accesses more |
| StealClaims.PushAlone | include/ultranet/coroutine/queue.hpp:129-160 | a push with nobody in between adds the newest item |
| StealClaims.PopAlone | include/ultranet/coroutine/queue.hpp:177-222 | a pop with nobody in between claims the newest item, and fails exactly when there is none |
| StealClaims.StealAlone | include/ultranet/coroutine/queue.hpp:228-255 | a steal with nobody in between claims the oldest item, and fails exactly when there is none but the one an owner inside pop has lowered bottom to |
| WorkStealingDeque.CircularBuffer.Put | include/ultranet/coroutine/queue.hpp:27-29 | writes one index and no other within a capacity of it |
| WorkStealingDeque.CircularBuffer.Get | include/ultranet/coroutine/queue.hpp:35-37 | moves the item of an index out of its slot and leaves the other slots within a capacity alone |
| WorkStealingDeque.CircularBuffer.Resize | include/ultranet/coroutine/queue.hpp:50-60 | a buffer of twice the capacity holds the items of [top, bottom), which the old one no longer has |
| WorkStealingDeque.WorkStealingQueue.constructor | include/ultranet/coroutine/queue.hpp:85-97 | the capacity is the least power of two at least max(capacity, minimum), exactly up to 2^63; above, the buffer has no slot |
| WorkStealingDeque.WorkStealingQueue.Push | include/ultranet/coroutine/queue.hpp:129-160 | appends the item, doubling exactly when one slot is left and keeping the old buffer |
| WorkStealingDeque.WorkStealingQueue.Pop | include/ultranet/coroutine/queue.hpp:177-222 | removes the newest item, empty exactly when there is none |
| WorkStealingDeque.WorkStealingQueue.Steal | include/ultranet/coroutine/queue.hpp:228-255 | removes the oldest item, empty exactly when there is none |
| WorkStealingDeque.WorkStealingQueue.Size | include/ultranet/coroutine/queue.hpp:257-262 | the number of items |
| Bits.MaskIsMod | include/ultranet/coroutine/queue.hpp:27-38 | and-ing with a power of two minus one is the remainder |
| Bits.SlotsApart | include/ultranet/coroutine/queue.hpp:27-38 | indices less than a capacity apart never share a slot |
| Bits.SmearStep | include/ultranet/coroutine/queue.hpp:272-282 | one shift-or step doubles the run of leading ones |
| Bits.RoundUpToPowerOfTwo | include/ultranet/coroutine/queue.hpp:272-282 | the result is the least power of two at least n exactly up to 2^63, and 0 above |
| Channel.ChannelObject.constructor | include/ultranet/coroutine/channel.hpp:45-50 | an empty open channel with no reservations |
| Channel.ChannelObject.StoreAndWake | include/ultranet/coroutine/channel.hpp:322-350 | the wrapping ring appends the value and the oldest waiting reader gets a reservation |
| Channel.ChannelObject.FetchAndWake | include/ultranet/coroutine/channel.hpp:330-360 | the wrapping ring yields its oldest value and the oldest waiting writer gets a reservation |
| Channel.ChannelObject.AwaitWriteReady | include/ultranet/coroutine/channel.hpp:56-80 | await_ready of a write: refused when closed, stored with room beyond reservations, else blocked |
| Channel.ChannelObject.AwaitWriteSuspend | include/ultranet/coroutine/channel.hpp:82-107 | the second look under the lock, queueing the writer last |
| Channel.ChannelObject.AwaitWriteResume | include/ultranet/coroutine/channel.hpp:109-134 | gives the reservation back, then stores or reports false |
| Channel.ChannelObject.TryWriteNow | include/ultranet/coroutine/channel.hpp:240-258 | stores only with room beyond reservations on an open channel |
| Channel.ChannelObject.AwaitReadReady | include/ultranet/coroutine/channel.hpp:147-166 | takes an unpromised value, ends on a closed channel, else blocks |
| Channel.ChannelObject.AwaitReadSuspend | include/ultranet/coroutine/channel.hpp:168-190 | the second look under the lock, queueing the reader last |
| Channel.ChannelObject.AwaitReadResume | include/ultranet/coroutine/channel.hpp:192-220 | gives the reservation back and takes a value, or ends on a closed empty channel |
| Channel.ChannelObject.TryReadNow | include/ultranet/coroutine/channel.hpp:260-275 | takes only an unpromised value |
| Channel.ChannelObject.CloseNow | include/ultranet/coroutine/channel.hpp:277-297 | closes, turns every waiter into a reservation and wakes all, readers first |
| ChannelSystem.StepInv | include/ultranet/coroutine/channel.hpp:51-297 | every operation, resume and close keeps tickets, room and value invariants |
| ChannelSystem.OpenCounters | include/ultranet/coroutine/channel.hpp:51-226 | before close the reservations fit, each counts its woken coroutines, and waiters exist only when nothing unpromised is left |
| ChannelSystem.WokenMayResume | include/ultranet/coroutine/channel.hpp:109-134 | a woken reader always finds data or a closed channel, a woken writer always finds room or a closed channel |
| ChannelSystem.BothSidesWait | include/ultranet/coroutine/channel.hpp:340-360 | readers and writers wait together only while a woken coroutine is in flight |
| ChannelSystem.ValuesConserved | include/ultranet/coroutine/channel.hpp:322-337 | values delivered, then buffered, are the values accepted in order; a write left its value exactly when it reported true |
| ChannelSystem.NothingAfterClose | include/ultranet/coroutine/channel.hpp:277-297 | no continuation of a run accepts anything after close |
| ChannelSystem.EndMeansDrained | include/ultranet/coroutine/channel.hpp:192-220 | a read ends only on a closed channel whose items are all promised, with no ticket outstanding only on an empty one |
| ChannelSystem.NewIsOpen | include/ultranet/coroutine/channel.hpp:277-297 | in every run the channel is closed exactly once close has been called |
| ChannelSystem.OperationsMove | include/ultranet/coroutine/channel.hpp:56-235 | a woken operation always has the reservation its resume gives back, and no phase but waiting in a queue keeps an operation from its next block |
| ChannelSystem.ClosedCanEnd | include/ultranet/coroutine/channel.hpp:56-297 | after close every operation under way can end, reads with what is left or the end, writes refused: nobody stays asleep |
| ChannelSystem.WriteEnds | include/ultranet/coroutine/channel.hpp:56-107 | in every reachable state a write is refused if and only if the channel is closed, has stored if and only if it is open with room beyond the reservations, and otherwise waits, last in its queue; a store wakes the oldest waiting reader |
| ChannelSystem.OtherWriteEnds | include/ultranet/coroutine/channel.hpp:109-134 | a woken writer stores if and only if the channel is open, try_write if and only if it is open with room, and both are refused otherwise |
| ChannelSystem.ReadEnds | include/ultranet/coroutine/channel.hpp:147-190 | a read gets the oldest value if and only if one is not promised, ends if and only if there is none and the channel is closed, and otherwise waits, last in its queue; a fetch wakes the oldest waiting writer |
| ChannelSystem.OtherReadEnds | include/ultranet/coroutine/channel.hpp:192-275 | a woken reader gets the oldest value if and only if there is one, try_read if and only if one is not promised |
| ConnectionPool.StepInv | include/ultranet/net/connection_pool.hpp:39-113 | every step of acquire, pre_warm, release and invalidate keeps the counter and exclusive ownership |
| ConnectionPool.CountsConnections | include/ultranet/net/connection_pool.hpp:39-113 | the total equals idle plus handed out plus connecting (plus invalid sockets given to release) and stays within max_connections |
| ConnectionPool.OneHolder | include/ultranet/net/connection_pool.hpp:39-113 | no connection is in two hands, or in a hand and in the idle channel |
| ConnectionPool.AcquireAlone | include/ultranet/net/connection_pool.hpp:39-78 | an acquire with no other client in between takes the oldest idle connection not promised to a waiter; if there is none it dials if and only if the count is below max_connections, and otherwise waits |
| ConnectionPool.DialEnds | include/ultranet/net/connection_pool.hpp:57-66 | a dial that connects hands out a connection nobody else has, and one that fails gives its place back |
| ConnectionPool.PreWarmAlone | include/ultranet/net/connection_pool.hpp:80-99 | a pre-warming call dials if and only if the count is below max_connections, and takes nothing |
| ConnectionPool.ReleaseKeeps | include/ultranet/net/connection_pool.hpp:101-113 | a valid connection given back becomes the newest idle one if and only if the idle channel is open with room, and is closed and uncounted otherwise; one invalidated is uncounted |
| ConnectionPool.WaitsInLine | include/ultranet/net/connection_pool.hpp:70-77 | a client at capacity takes an idle connection not promised, gives up if the idle channel is closed, and otherwise waits behind those already waiting |
| ConnectionPool.ReleaseHandsOver | include/ultranet/net/connection_pool.hpp:70-108 | a connection given back while none is idle goes to the client that has waited longest, and the count stays |
| ConnectionPool.WokenEnds | include/ultranet/net/connection_pool.hpp:70-77 | a woken client gets the oldest idle connection; there is none only once the idle channel is closed, and then it gives up |
| ConnectionPool.RestingWaiters | include/ultranet/net/connection_pool.hpp:39-113 | a pool at rest in which somebody waits has no connection at all, idle, handed out or opening |
| ConnectionPool.RestingStays | include/ultranet/net/connection_pool.hpp:39-113 | its waiters stay where they are until another client comes or the pool ends, however far the count is below max_connections |
| ConnectionPool.InvalidateStrands | include/ultranet/net/connection_pool.hpp:70-113 | a run that gets there: the only connection is invalidated while a second client waits for it |
| ConnectionPool.NobodyStranded | include/ultranet/net/connection_pool.hpp:39-113 | while no connection is invalidated, fails to open or is given back invalid, nobody waits in a pool at rest |
| ConnectionPool.ShutDownExactly | include/ultranet/net/connection_pool.hpp:34-43 | in every run the pool is shut down exactly once somebody shuts it down, its idle channel is closed only then, and an acquire from then on gets nothing |
| ConnectionPool.ClosingWakes | include/ultranet/net/connection_pool.hpp:34-77 | the end of the pool wakes whoever waits: each gets an idle connection that is left, or gives up |
| Dedup.VictimUnique | include/ultranet/actor/system/actor_system.h:1607-1619 | the least completed entry is unique, whatever the iteration order |
| Dedup.DedupTable.ClaimRemote | include/ultranet/actor/system/actor_system.h:1581-1628 | the scan in any order evicts the least completed entry, and the verdict, table and counters are those of the specification |
| Dedup.DedupTable.FinishDelivery | include/ultranet/actor/system/actor_system.h:1637-1660 | a throw forgets the entry, anything else completes it and is acknowledged |
| Dedup.PeekTells | include/ultranet/actor/system/actor_system.h:1568-1660 | in every run what peek_dedup says tells the key's past: completed exactly when one more handler run returned than entries were evicted, in progress exactly while its handler runs, unknown exactly when neither |
| Dedup.RunsBounded | include/ultranet/actor/system/actor_system.h:1581-1657 | in every run non-throwing handler runs of a key are its evictions plus one while completed; no key has two runs at once; the table stays within its cap |
| Dedup.InProgressKept | include/ultranet/actor/system/actor_system.h:1590-1628 | a run in progress is never evicted, and claiming its key again is refused |
| Dedup.OverflowExactly | include/ultranet/actor/system/actor_system.h:1607-1622 | overflow happens exactly for an unknown key on a full table with all entries in progress |
| Dedup.EvictsLeast | include/ultranet/actor/system/actor_system.h:1607-1626 | a claim evicts exactly one completed entry, the least by (message id, sender), only when it needs the place |
| Dedup.BeginRuns | include/ultranet/actor/system/actor_system.h:1581-1628 | in every reachable state a claim starts a run of the handler if and only if the key is unknown and has a place, and otherwise changes nothing |
| Dedup.EndRuns | include/ultranet/actor/system/actor_system.h:1637-1660 | a run that ends leaves its key completed, or forgotten if the handler threw, and no other key touched |
| Delivery.StepInv | include/ultranet/actor/system/actor_system.h:985-1109 | every step of tracking, buffering, posting, refusal, link death, recovery rounds, timeout scans, receipt, dispatch, finish and acks, by any thread of any node, keeps the end-to-end invariant |
| Delivery.AckedMeansHandled | include/ultranet/actor/system/actor_system.h:1249-1265 | a tracked message leaves the table only after the destination's handler returned ok or dead_letter for it |
| Delivery.HandledMeansAcked | include/ultranet/actor/system/actor_system.h:1637-1660 | in every run a message whose handler returned ok or dead_letter has been acknowledged to the node that sent it |
| DeliveryProgress.CanStillBeAcked | include/ultranet/actor/system/actor_system.h:1065-1486 | from every reachable state some continuation gets any tracked message acknowledged, through resends the flag, the pool, recovery and the timeout scan allow; without another broken connection unless the message is flagged, its connection up, its recovery over, and no job under way helps it |
| DeliveryProgress.BufferedIsFlushed | include/ultranet/actor/dist/remote_proxy.h:51-136 | a message sent while its proxy has no connection, but room to hold it, goes out over the next connection with no resend or timeout |
| FlaggedMessages.FlaggedWaits | include/ultranet/actor/system/actor_system.h:1065-1468 | a flagged message whose connection is up, whose recovery has ended and which no job helps is never posted again in any run without another break or send: the timeout scan passes it over |
| FlaggedMessages.WaitsExactly | include/ultranet/actor/system/actor_system.h:1065-1486 | a tracked message can be posted again without another break or send if and only if it is unflagged, has no connection up, is in recovery, or has a job under way that helps it |
| LateRefusal.LateRefusalStrands | include/ultranet/actor/system/actor_system.h:1065-1237 | a run that gets there: a refused post noted only after the connection died, was recovered and the message resent |
| UnackedTable.SentIsDueLater | include/ultranet/actor/system/actor_system.h:1046-1055 | a message tracked, resent or found due by a scan at some time is due exactly from its limit after that time on, with its frame and node, through any operations on others, and meanwhile in no resend |
| UnackedTable.AckTakesOut | include/ultranet/actor/system/actor_system.h:1057-1063 | an ack takes its message out of every scan, whatever operations follow, until it is tracked again, and touches no other |
| UnackedTable.FailedIsPending | include/ultranet/actor/system/actor_system.h:1065-1136 | a failed send, or a dead link to its node, makes a message pending for its node, with its frame, until its own ack, tracking or resend; another node or message does not |
| UnackedTable.Unacked.MarkLinkDead | include/ultranet/actor/system/actor_system.h:1129-1137 | flags all messages of the node and no other |
| UnackedTable.Unacked.CollectPending | include/ultranet/actor/system/actor_system.h:1083-1091 | the node's flagged messages, each once with its own frame |
| UnackedTable.Unacked.ResendUnacked | include/ultranet/actor/system/actor_system.h:1074-1109 | posts each flagged message of the node once; exactly those taken by the connection are unflagged |
| UnackedTable.Unacked.CollectDue | include/ultranet/actor/system/actor_system.h:1446-1468 | every overdue unflagged message is due once and its clock restarts, in any scan order |
| UnackedTable.TakenFacts | include/ultranet/actor/system/actor_system.h:1092-1105 | the frames a connection takes are a duplicate-free part of those offered |
| LinkRecovery.StepInv | include/ultranet/actor/system/actor_system.h:1147-1247 | every block of on_link_dead and recover_node keeps one owner of the recovering flag and every owed iteration on record |
| LinkRecovery.OneRecovery | include/ultranet/actor/system/actor_system.h:1147-1247 | at most one recover_node per node is submitted or running |
| LinkRecovery.NoticeIsAnswered | include/ultranet/actor/system/actor_system.h:1111-1247 | in every run, after an on_link_dead that found a pooled address, m_recovering is not cleared, but by the node-not-live exit, before a recovery was submitted or an iteration begun |
| LinkRecovery.ClearedOnlyWhenPaid | include/ultranet/actor/system/actor_system.h:1185-1237 | m_recovering is cleared only with nothing owed, or by the node-not-live exit |
| LinkRecovery.SettlesWhenQuiet | include/ultranet/actor/system/actor_system.h:1206-1237 | in every run m_recovering is cleared, but by the node-not-live exit, only after its coroutine found the connection valid and nothing flagged, with no iteration begun since |
| LinkRecovery.CanSettle | include/ultranet/actor/system/actor_system.h:1111-1247 | from every reachable state, once no notices come and the node is live, connects and has nothing flagged, the recovery can end and clear m_recovering |
| LinkRecovery.NoticeAlone | include/ultranet/actor/system/actor_system.h:1111-1164 | a notice handled with no other in between starts a recovery if and only if it found a pooled address and none is under way; one under way is told to go round again |
| LinkRecovery.PooledOnce | include/ultranet/actor/system/actor_system.h:1111-1135 | a connection pooled is found by the first notice to look and by no second |
| LinkRecovery.EachNoticeOnce | include/ultranet/actor/system/actor_system.h:1111-1247 | in every run each connection pooled starts at most one recovery, and each notice that finds one under way makes it go round at most once more |
| Framing.LengthRoundTrip | include/ultranet/actor/net/transport.h:65-71 | the four length bytes read back as the size modulo 2^32 |
| Framing.LengthUnique | include/ultranet/actor/net/transport.h:297-315 | four length bytes are the encoding of the value they decode to |
| Framing.PrefixedStarts | include/ultranet/actor/net/transport.h:65-71 | a prefixed frame delimits itself in any stream |
| Transport.WriteBytes | include/ultranet/actor/net/transport.h:262-275 | sends exactly what the socket takes, from the front, and succeeds exactly when that is everything |
| Transport.FrameAtIs | include/ultranet/actor/net/transport.h:60-71 | a frame stands at a position of the stream if and only if the wire form of some frame of allowed size starts there |
| Transport.Source.ReadFrame | include/ultranet/actor/net/transport.h:297-329 | yields exactly the length-prefixed frame at the front of the stream, or fails because it is not whole, out of range, or the connection ended |
| Transport.Source.ReadFrames | include/ultranet/actor/net/transport.h:297-329 | over any short reads the frames read are a prefix of those sent, and all of them unless cut off |
| Transport.StepInv | include/ultranet/actor/net/transport.h:75-175 | every step of post_frame, the write loop, notify_dead by anyone at any time, and close keeps one thread in charge and the wire a prefix |
| Transport.OneWriteLoop | include/ultranet/actor/net/transport.h:95-175 | at most one write loop per connection is submitted or running |
| Transport.QueueIsServed | include/ultranet/actor/net/transport.h:95-175 | queued frames on a valid connection always have a loop submitted or running |
| Transport.PostAccepts | include/ultranet/actor/net/transport.h:95-124 | post_frame accepts a frame, as the last one, if and only if the connection is valid, and its caller goes on to submit the loop if and only if nobody is in charge of the queue |
| Transport.CanWriteAll | include/ultranet/actor/net/transport.h:149-175 | from every reachable state of a connection that still works, the write loop by itself can put everything accepted on the wire |
| Transport.WireIsPrefix | include/ultranet/actor/net/transport.h:149-175 | bytes sent are a prefix of the accepted frames in wire form, and all of them once a working connection is idle |
| Transport.CanSettle | include/ultranet/actor/net/transport.h:85-175 | whatever has failed, the threads at work come to rest by themselves |
| Transport.SentOrDead | include/ultranet/actor/net/transport.h:85-175 | in every run, once nobody is at work, everything accepted has been sent or the connection is marked dead |
| Transport.DeadAcceptsNothing | include/ultranet/actor/net/transport.h:95-142 | a connection marked dead accepts nothing ever again, and one closed sends nothing either |
| Transport.ReadBack | include/ultranet/actor/net/transport.h:297-329 | reading frames off any prefix of those bytes yields a prefix of the accepted frames, and every one the bytes hold whole when no read fails |
| WebSocketFrame.MaskTwice | include/ultranet/net/websocket.hpp:180-182 | masking is its own inverse |
| WebSocketFrame.MaskAppend | include/ultranet/net/websocket.hpp:927-941 | masking two pieces with a running offset is masking the whole |
| WebSocketFrame.MaskedOctets | include/ultranet/net/websocket.hpp:181-182 | payload octet i goes under octet i modulo 4 of the key as it stands on the wire |
| WebSocketFrame.MaskIsIdentity | include/ultranet/net/websocket.hpp:180-182 | masking changes nothing exactly when every key octet in use is zero |
| WebSocketFrame.UnmaskInPlace | include/ultranet/net/websocket.hpp:823-832 | unmasks one range of a buffer in place and leaves the rest alone |
| WebSocketFrame.EncodeInto | include/ultranet/net/websocket.hpp:149-188 | writes nothing in a short buffer, else the encoding and nothing beyond it |
| WebSocketFrame.EncodeSize | include/ultranet/net/websocket.hpp:132-138 | encoded_size is the length of the encoding, with at most 14 bytes of header |
| WebSocketFrame.DecodeFrame | include/ultranet/net/websocket.hpp:190-228 | the decoder's control flow computes header, 64-bit bound check and unmasked payload as specified |
| WebSocketFrame.DecodedOctets | include/ultranet/net/websocket.hpp:190-227 | what a decoded frame says of each octet of its header, and of each payload octet under the key octet in front of the payload, counted modulo 4 |
| WebSocketFrame.ParseInlineFrame | include/ultranet/net/websocket.hpp:247-296 | the inline parser's control flow computes every field as specified, also on incomplete buffers |
| WebSocketFrame.InlineOctets | include/ultranet/net/websocket.hpp:247-296 | what the inline parser says of each octet of the header, also where the frame or its header is not whole |
| WebSocketFrame.DecodeStable | include/ultranet/net/websocket.hpp:190-228 | a decoded frame is the same whatever bytes follow it |
| WebSocketFrame.DecodeCut | include/ultranet/net/websocket.hpp:190-228 | no proper prefix of a decoded frame decodes |
| WebSocketFrame.DecodeOfEncode | include/ultranet/net/websocket.hpp:149-228 | decoding an encoded frame followed by anything recovers flags, opcode, key, payload and the exact size |
| WebSocketFrame.PrefixIncomplete | include/ultranet/net/websocket.hpp:149-228 | every proper prefix of an encoded frame is incomplete |
| WebSocketFrame.InlineFollowsDecode | include/ultranet/net/websocket.hpp:190-296 | where the decoder finds a frame the inline parser finds it with the same flags, length and unmasked payload |
| WebSocketFrame.ParsersAgree | include/ultranet/net/websocket.hpp:190-296 | both find a frame on the same buffers exactly when header and payload length add up within 64 bits or what is left of the wrapped sum is still out of reach |
| WebSocketFrame.WrappedLength | include/ultranet/net/websocket.hpp:190-296 | a header declaring 2^64 - 10 bytes on which they differ: the inline parser finds a frame, the decoder throws |
| WebSocketFrame.ParsersAgreeUnderLimit | include/ultranet/net/websocket.hpp:190-296 | under the length limit both always agree, and the inline parser announces how many bytes are missing |
| WebSocketFrame.WrittenDecodes | include/ultranet/net/websocket.hpp:541-581 | a written frame decodes to its payload exactly when unmasked or every key octet in use is zero |
| WebSocketFrame.MaskedWriteIsLost | include/ultranet/net/websocket.hpp:541-581 | a one-byte frame written under a key that starts with 1, which a peer reads as another byte |
| WebSocketStream.Advance | include/ultranet/net/websocket.hpp:683-693 | dropping sent bytes from the pending list leaves exactly the rest |
| WebSocketStream.WritevAll | include/ultranet/net/websocket.hpp:672-695 | sends the exact concatenation over short writes; succeeds exactly when all was sent and the last entry is not empty |
| WebSocketStream.EmptyTailFails | include/ultranet/net/websocket.hpp:672-695 | a list ending in an empty entry: all is sent and the call fails |
| WebSocketStream.BuildHeader | include/ultranet/net/websocket.hpp:541-571 | the header branches write the header the decoder reads back |
| WebSocketStream.WriteFrame | include/ultranet/net/websocket.hpp:541-581 | header and payload go out exactly, and success means all of them |
| WebSocketStream.Gather | include/ultranet/net/websocket.hpp:908-925 | the iovecs over several receive buffers cover exactly the payload and end in a non-empty piece |
| WebSocketStream.UnmaskPieces | include/ultranet/net/websocket.hpp:927-941 | unmasking each piece in place with a running offset unmasks the whole payload |
| WebSocketStream.EchoScattered | include/ultranet/net/websocket.hpp:853-941 | the multi-segment path in place over the buffers: with the header whole in the first one the gathered pieces end up holding the payload of the frame the decoder finds in the joined bytes; otherwise it gathers nothing |
| WebSocketStream.SplitHeaderIsLost | include/ultranet/net/websocket.hpp:853-925 | a frame of one byte whose header is cut after its first byte, of which the path sees nothing |
| WebSocketStream.AnswerOctets | include/ultranet/net/websocket.hpp:112-132 | on the wire a pong carries the ping's payload and a close the status 1000 |
| WebSocketStream.RingReader.TryDecode | include/ultranet/net/websocket.hpp:472-486 | a decoded frame is taken off the reassembly buffer and all buffers copied so far are given back; otherwise nothing changes |
| WebSocketStream.RingReader.ReadFrameRing | include/ultranet/net/websocket.hpp:470-539 | for any chunks and any failing answer: pings answered in order, the first other frame returned, close answered, rest kept, every buffer given back or still pending and none pending behind a frame; the first answer that cannot be written ends the read |
| WebSocketStream.RingReader.ReadAll | include/ultranet/net/websocket.hpp:470-539 | repeated reads deliver the frames of the stream and give its answers, up to the first answer that cannot be written, and a close is remembered |
| WebSocketStream.FramesOfEncoded | include/ultranet/net/websocket.hpp:470-539 | a stream of encoded frames with any unfinished tail delivers every frame that is not a ping, in order, and answers every ping and close in order |
| WebSocketStream.EndsAtFirst | include/ultranet/net/websocket.hpp:505-516 | a read that runs out of frames ends as the first completion without data says |
| WebSocketStream.ReceiveAll | include/ultranet/net/websocket.hpp:470-539 | encoded frames cut into any chunks are read back exactly, pings excepted, and exactly the pings and closes are answered, up to the first answer that cannot be written |
| BufferRing.FlagsCarry | include/ultranet/io/recv_multishot.hpp:25-49 | buffer id and MORE flag are read back from the completion flags |
| BufferRing.BufferGroup.constructor | include/ultranet/buffer/buffer.h:45-72 | every buffer is in the ring once |
| BufferRing.BufferGroup.ReturnBuffer | include/ultranet/buffer/buffer.h:27-30 | writes the slot at tail plus offset under the mask, and nothing else: one `Write` of `RingSlots` |
| BufferRing.BufferGroup.ReturnAll | include/ultranet/net/buffer_ring_assembler.hpp:152-164 | with no other return between its first write and its advance, slots 0, 1, 2, ... and one advance append the batch to the ring in order |
| BufferRing.SlotAppend | include/ultranet/buffer/buffer.h:27-33 | writing the slot at the tail never touches a published one |
| BufferRing.StepInv | include/ultranet/io/recv_multishot.hpp:65-147 | every completion, locked block of the handler, await, assembler call, start and publication of a return, piece of cleanup, and anything other connections do to the ring, keeps ownership, bytes, disposal and wake-up invariants, each return publishing what it took |
| SharedGroup.TogetherInv | include/ultranet/io/recv_multishot.hpp:65-147 | a step of one connection, its returns publishing what they took, is for every other connection of the group a step of its surroundings: all their invariants hold together |
| RingSlots.OneOwnerExactly | include/ultranet/buffer/buffer.h:27-33 | in every run of any number of connections over slots and tail, each buffer is at every moment in the ring, with one connection, or in the slot its return wrote it to, once, if and only if no two returns are ever between their first write and their advance |
| RingSlots.OverlapIsNotSole | include/ultranet/buffer/buffer.h:27-33 | the first write of a second return at once puts one buffer in no place and counts another for both |
| RingSlots.ConnectionRuns | include/ultranet/io/recv_multishot.hpp:65-147 | while returns do not overlap, each connection over the shared slots goes through a run of `BufferRing` with the others as its surroundings, so what holds in every such run holds of it |
| ReceiveRuns.OverlapLoses | include/ultranet/io/recv_multishot.hpp:98-101 | two connections return one buffer each with interleaved writes: one buffer is nowhere, the other is in the ring twice, and after two more receives a connection consumes a byte it was not sent |
| RingSlots.NobodyInterferes | include/ultranet/io/recv_multishot.hpp:65-147 | in every run whose returns do not overlap, each connection consumes the bytes it received, in order, and after its cleanup holds only what is posted, on its way back, or lost |
| BufferRing.AllReturned | include/ultranet/net/buffer_ring_assembler.hpp:208-235 | after cleanup the connection's buffers are in the ring, on their way through the abandoned handler, or lost; in the end all are in the ring if and only if no completion with data is handled after a second cleanup |
| ReceiveRuns.SecondCleanupLoses | include/ultranet/net/buffer_ring_assembler.hpp:44-47 | data posted before an explicit cleanup and handled after the destructor's leaves its buffer with nobody |
| BufferRing.DisposedOnce | include/ultranet/io/recv_multishot.hpp:65-108 | m_dispose is set at most once, for the one terminal completion handled after cleanup has marked the state abandoned |
| BufferRing.LateUseExactly | include/ultranet/net/buffer_ring_assembler.hpp:211-232 | in every run, a finished cleanup wrote to a callback with m_dispose set if and only if the handler set it between cleanup's unlocking and its last lines |
| ReceiveRuns.CleanupRaces | include/ultranet/net/buffer_ring_assembler.hpp:221-232 | a run that does: the end of the stream is handled in between |
| BufferRing.StreamIsKept | include/ultranet/net/buffer_ring_assembler.hpp:112-148 | until cleanup, in every run of a connection whose group publishes what its returns took, bytes assembled and consumed are the bytes received, in order: no buffer is overwritten while its bytes are needed |
| BufferRing.NobodySleepsOnData | include/ultranet/io/recv_multishot.hpp:82-133 | a sleeping reader has its handle stored, nothing is queued and the stream has not ended |
| BufferRing.EndIsReal | include/ultranet/io/recv_multishot.hpp:110-147 | a reader let on by await_ready, await_suspend or the handler gets the oldest chunk, or the stream has truly ended: nothing is to come and all received is with the reader |
| ReceiveProgress.CanReadAll | include/ultranet/io/recv_multishot.hpp:65-147 | from every reachable state before cleanup, the handler and the reader by themselves can bring everything received to the consumer, complete and in order |
| ReceiveProgress.CanCleanUp | include/ultranet/net/buffer_ring_assembler.hpp:208-235 | from every reachable state cleanup can be finished, by itself, the kernel's last completion and the handler, with every buffer back in the ring unless one was lost before |
| ReceiveProgress.DisposedExactly | include/ultranet/io/recv_multishot.hpp:79-107 | once all is over, m_dispose was set if and only if the request was armed and its stream had not ended before cleanup |
| ReceiveRuns.EndBeforeCleanupLeaks | include/ultranet/net/buffer_ring_assembler.hpp:208-235 | an end handled before cleanup: nothing is left to come, and in no continuation is the callback disposed of |
| AssemblerObject.RecvMultishotState.AwaitResume | include/ultranet/io/recv_multishot.hpp:138-147 | takes the oldest chunk, or end of stream |
| AssemblerObject.BufferRingAssembler.StartRecv | include/ultranet/net/buffer_ring_assembler.hpp:80-93 | arms the request and hands the callback to the shared state |
| AssemblerObject.BufferRingAssembler.OnRecvChunk | include/ultranet/io/recv_multishot.hpp:65-108 | run alone: queues the chunk and hands the waiter over, or returns the buffer, if the state knows its group, and disposes |
| AssemblerObject.HandledIs | include/ultranet/io/recv_multishot.hpp:65-108 | that is the machine's locked block, publication and disposal one after the other |
| AssemblerObject.BufferRingAssembler.AwaitSuspend | include/ultranet/io/recv_multishot.hpp:121-136 | stores the handle only when there is still nothing to take |
| AssemblerObject.BufferRingAssembler.NextChunk | include/ultranet/net/buffer_ring_assembler.hpp:100-103 | moves the oldest chunk to the consumer's hand; an end is reported only when nothing is armed or posted |
| AssemblerObject.BufferRingAssembler.AppendChunk | include/ultranet/net/buffer_ring_assembler.hpp:110-124 | copies the chunk's bytes and keeps its buffer for return |
| AssemblerObject.BufferRingAssembler.ConsumeBytes | include/ultranet/net/buffer_ring_assembler.hpp:132-145 | removes the first n bytes, or all |
| AssemblerObject.BufferRingAssembler.ReturnReasmBuffers | include/ultranet/net/buffer_ring_assembler.hpp:152-164 | run alone, returns exactly the pending buffers, as the machine does in two steps |
| AssemblerObject.BufferRingAssembler.CleanupAll | include/ultranet/net/buffer_ring_assembler.hpp:208-235 | run alone, returns pending and queued buffers and leaves the callback to the handler, also when nothing was started and when called again |
| AssemblerObject.CleanedIs | include/ultranet/net/buffer_ring_assembler.hpp:208-235 | that is a run of the machine: a return, the lock, each queued buffer drained and published, the unlocking, and what comes after it |
| Resp.DecimalValue | app/redis-proxy/resp.hpp:183-196 | a number printed in decimal reads back |
| Resp.DigitsExactly | app/redis-proxy/resp.hpp:43-46 | the digits are the octets of 0 to 9, those std::to_string writes |
| Resp.ReadNumber | app/redis-proxy/resp.hpp:45-50 | in a 64-bit integer that wraps, the digit loop computes the value of the run of digits exactly when that is below 2^63 |
| Resp.EighteenFit | app/redis-proxy/resp.hpp:45-50 | a run of at most eighteen digits always fits |
| Resp.ParseRequest | app/redis-proxy/resp.hpp:34-105 | both request forms: arguments and length as specified, nothing consumed when incomplete or malformed, whenever the counts and lengths it reads fit; a count that wraps to zero or below is taken for an empty request |
| Resp.InlineRoundTrip | app/redis-proxy/resp.hpp:84-106 | words with spaces before, between and after them, a line end and whatever follows parse to exactly those words, in order, and the length of the line |
| Resp.SpacedOfWords | app/redis-proxy/resp.hpp:93-104 | every line is made of the words parsed from it and the spaces around them |
| Resp.ParseExactly | app/redis-proxy/resp.hpp:34-105 | the parser reports arguments and a length exactly when a counted request or a line with those arguments and that length stands at the front |
| Resp.OverflowAccepted | app/redis-proxy/resp.hpp:45-58 | the count 2^64 with no argument behind it, which the code takes for a whole request |
| Resp.EncodeRequest | app/redis-proxy/resp.hpp:183-198 | the loop and the decimal printer build the encoding |
| Resp.RequestOctets | app/redis-proxy/resp.hpp:183-197 | a request as it looks on the wire |
| Resp.ParseOfEncode | app/redis-proxy/resp.hpp:34-198 | parsing an encoded request followed by anything gives the arguments and the exact length |
| Resp.RoundTrip | app/redis-proxy/resp.hpp:34-198 | encoder and parser run after each other give back the arguments and the exact length, whatever follows |
| Resp.ParseStable | app/redis-proxy/resp.hpp:34-105 | an accepted request is unchanged by bytes that follow and no shorter piece is accepted |
| Resp.ParseFitsStable | app/redis-proxy/resp.hpp:34-105 | the numbers read in a longer or a cut buffer fit when those of the accepted request do, so this holds of the code's answers |
| Resp.DetectRequestBoundary | app/redis-proxy/resp.hpp:203-234 | the scanner's walk as specified, whenever the counts and lengths it reads fit |
| Resp.BoundaryAgrees | app/redis-proxy/resp.hpp:34-234 | on every accepted buffer of at least four bytes the scanner finds the parser's length, and meets no number the parser did not |
| Resp.BoundaryExactly | app/redis-proxy/resp.hpp:203-235 | the scanner finds a boundary where the parser finds no request if and only if a counted argument is not followed by a line end |
| Resp.DetectResponse | app/redis-proxy/resp.hpp:113-179 | the recursive scanner terminates and computes the specified length whenever the numbers it reads fit |
| Resp.DetectStable | app/redis-proxy/resp.hpp:113-179 | a positive answer is unchanged by appended bytes and no shorter prefix gets one |
| Resp.DetectFitsStable | app/redis-proxy/resp.hpp:113-179 | the numbers read in a longer or a cut buffer fit when those of the whole reply do |
| Resp.NestedOctets | app/redis-proxy/resp.hpp:131-174 | an array that holds a string, as it looks on the wire |
| Resp.DetectOfReply | app/redis-proxy/resp.hpp:107-179 | the scanner finds the exact end of every reply, nested to any depth, whatever follows |
| Resp.DetectExactly | app/redis-proxy/resp.hpp:107-179 | the scanner answers with a length exactly when a whole reply of that length, nested to any depth, stands at the front |
| Resp.DetectFitsOfReply | app/redis-proxy/resp.hpp:131-174 | every number the scanner meets in a reply fits if and only if those written in it are below 2^63, nested ones included |
| Resp.DetectReply | app/redis-proxy/resp.hpp:107-179 | the scanner as the code runs it finds that end, for numbers below 2^63 |
| Collect.LimitIsExact | include/ultranet/collect/collect.hpp:328-354 | no stream makes `4u + len` wrap, and every list of records within the limit is read back from its wire form, if and only if the limit is below 2^32 - 4 |
| Collect.WrappedHeader | include/ultranet/collect/collect.hpp:337-354 | the four bytes of the length 2^32 - 4, for which `4u + len` is 0 |
| Collect.RecordsMore | include/ultranet/collect/collect.hpp:325-371 | parsing records can stop at any byte and resume when more arrive, for wrapping lengths too |
| Collect.RecordsOfWire | include/ultranet/collect/collect.hpp:325-371 | the parser reads back records of less than 2^32 - 4 bytes, up to where the bytes end |
| Collect.RecordsOfPrefix | include/ultranet/collect/collect.hpp:325-371 | a stream of records of less than 2^32 - 4 bytes cut anywhere yields the records before the cut, all of them exactly when nothing is missing |
| Collect.Socket.WriteComplete | include/ultranet/collect/collect.hpp:133-148 | sends exactly what the socket takes and succeeds exactly when that is everything |
| Collect.Emitter.Flush | include/ultranet/collect/collect.hpp:157-173 | one complete write of the group, counted, or a failed one that leaves a proper prefix |
| Collect.EmitTcp | include/ultranet/collect/collect.hpp:175-220 | the wire gets a prefix of the usable records, all of them without a write failure; errors and counts; a group is written only when it is full, the next record does not fit, or there is none, and within the limits |
| Collect.RecordBatch.Add | include/ultranet/collect/collect.hpp:65-85 | appends one record to the shared bytes |
| Collect.RecordBatch.Get | include/ultranet/collect/collect.hpp:39-54 | the record at an index, empty out of range |
| Collect.Collector.Deliver | include/ultranet/collect/collect.hpp:272-283 | hands over the batch within its limits, counts it and starts an empty one |
| Collect.Collector.TakeRecord | include/ultranet/collect/collect.hpp:340-364 | a batch without room goes out first; then the record joins, or its bytes are not there; full batches go out, a declined batch stops the run |
| Collect.Collector.Consume | include/ultranet/collect/collect.hpp:325-371 | with the sum in 32 bits and one read at most 64 KB behind unparsed bytes, the parsing loop logs exactly the whole records at hand and keeps the rest; it reads past its bytes exactly at a wrapping length |
| Collect.ReadLoop | include/ultranet/collect/collect.hpp:285-372 | for any chunks and timers the log of records follows the stream and the run ends as the stream does, at a bad or a wrapping length, unless the sink stops it; a timer leaves nothing undelivered that was read before it, and a batch goes out only for a reason |
| Collect.CollectTcp | include/ultranet/collect/collect.hpp:260-373 | for any chunks and timers the sink gets the stream's records in order, in bounded batches; all read before a timer is delivered by it; a batch goes out only when it is full, the delay is zero, the next record does not fit, a timer fires, or the run ends; EPROTO exactly when bytes are left at the end; statistics are the delivered sums; EINVAL exactly without sink or limits; never past its bytes for limits below 2^32 - 4 |
| Collect.EmitAndCollect | include/ultranet/collect/collect.hpp:175-373 | for limits below 2^32 - 4, records emitted and collected arrive in order, all of them when everything was written, the stream ended and the sink never declined |

## Left out

- Weak memory ordering: all atomic operations are sequentially consistent steps.
- Ring positions, deque indices and counters are unbounded; their 64-bit wrap-around is not modelled.
- MpscQueueObject.MpscQueue.TryPush: is run with no other thread, so its reload loop is not taken; the loop is in `MpscRing`, and over it in `MailboxActor`.
- MpscQueueObject.MpscQueue.TryPop: is run with no producer in flight; the interleavings are in `MpscRing`.
- MpscQueueObject.MpscQueue.Drain: is run with no producer in flight and without the handler calls between pops; `MailboxActor` interleaves both with pushes.
- Shutdown of actors, of the actor system and of recovery; an actor without a schedule function; the supervisor; a push by the handler itself is one more thread.
- DeliveryProgress.CanStillBeAcked: does not say that the code takes the continuation by itself; timers, retries and reconnection are events of the environment.
- Delivery.StepInv: does not model the serialization of routed frames; a connection is taken to reach the node it names, a proxy's bound on buffered messages is an answer of the environment, and the two bits by which recovery repeats are those of `LinkRecovery`.
- UnackedTable.Unacked.ResendUnacked: runs with the table to itself; acks and link deaths between its posts are interleaved in `Delivery`.
- LinkRecovery.StepInv: does not model a failed send as a reason to recover, since it only flags the message.
- Sender and receiver logs, replay of stored frames and everything that depends on them; serialization and remote proxies.
- Completion of ask requests; gossip, cluster membership, circuit breaker, retry delays, snapshots, reliable UDP.
- ConnectionPool.CountsConnections: does not restore the count for an invalid socket given to release, because the code ignores it; such releases are the last term of the sum.
- Framing.LengthRoundTrip: takes the native byte order to be little-endian.
- The inbound connection's write queue, which repeats the outbound one; read timeouts other than as failed reads.
- The WebSocket handshake, the non-ring frame reader and the non-ring echo path, which keep only the first frame of a read; trailing bytes after an echoed frame.
- WebSocketStream.EchoScattered: takes the buffers already received, a payload length below 2^63, and ends before the answer is written.
- RingSlots.OneOwnerExactly: moves the tail in one step where advance_ring loads and stores it; the difference shows only once returns overlap, where ownership is lost already. That a connection has one return under way at a time is the order of its own calls: its consumer's, then its cleanup's, then its handler's.
- Moving an assembler; the deletion of the callback by the completion loop, after m_dispose is set.
- Resp.ParseRequest: does not say what an overflowing length makes of the buffer, where signed arithmetic in the code is undefined; the arguments collected before a failure are not specified.
- Collect.Collector.Consume: ends at the first record taken without its bytes; what the code reads there is undefined.
- Collect.CollectTcp: does not model the clock; an expired batch is an event. The UDP forms are left out.
- HTTP, DNS, signals, logging, configuration, the thread pool's reactor and io_uring itself.
