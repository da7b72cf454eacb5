# EmbedIQ model

EmbedIQ is a small actor-style runtime in C: functional blocks are booted in phases, exchange
messages over a bus with three queues per block, keep settings in a flash-backed store, and
are observed, supervised and bridged to external processes. This project models the parts of
it that carry hard guarantees, and proves those guarantees for every input and every run.

| part | files | what is proved |
|---|---|---|
| CRC component | BitRegister, LongDivision, Crc32, Crc16, Crc8, CrcStandard | the checksum = the remainder of polynomial long division, with the documented check values; table-driven form = one bit at a time; any split; exact burst detection bound |
| Boot | BootGraph, BootLog, FbEngine | the phase sort and depth-first search are sound, complete and terminate; when exactly boot succeeds, and how often and in what order it does what |
| Dispatch | Dispatch, DispatchStall, DispatchDrain, DispatchFlow | no lost wakeup, when exactly dispatch or its shutdown comes to a standstill, leftovers after a restart, and where every message goes, over every interleaving |
| Queues and bus | OsalQueue, QueueWaits, BusQueues, BusRuns, BusPolicy, SubscriptionTable, MessageBus | the byte ring is a bounded FIFO; when blocking calls lose no wakeup; the overflow policy by message priority and conservation over all queues of a bus; routing = a naive scan |
| Store | NvmStore, NvmImage, NvmSalvage, Flash, Nvm, Config, ConfigBlob, StoreLayout | a finite map; crash consistency; what a torn or corrupted image loads as; round trip from the Python tool to the C getters |
| Observatory | TraceFormat, TraceLayout, Observatory, TraceTimes, Recorder | ring accounting; the trace file reads back under write failures and cuts, every event with its clock reading; when an emit returns at all |
| Services | Telemetry, TelemetryPayload, Watchdog, Bridge, BridgeFrames | window summaries and their bytes; who is supervised, and deadlines under clock wrap; session lifecycles, heartbeats and the frames of peers over every run |

Code that changes state is a class or a method with loops here too, and each of its methods
is tied to a function on values; the properties are lemmas about those functions and about
all runs made of them. `Wrappers` holds the shared option type, `Words` the 32-bit words.

`dafny verify dfyconfig.toml` checks everything.

## Reading the model

- Registries, tables, queues and rings have the source's sizes and constants. Fixed-width
  counters wrap explicitly (`% 0x1_0000_0000` and the like); CRC registers are bit vectors.
- Time, randomness and the outside world are parameters: a clock is a function of the number
  of readings, a flash write has a `Fate` (success, three failures that are noticed, a failing
  `fclose` that is not, power loss at three points), a power cycle may find the backing file
  unreadable, a trace stream has a capacity at which it starts to fail and `Luck` with opening,
  flushing and closing, a bridge connection is the list of what it delivers. A C float is the
  four bytes of its representation; `TelemetryPayload` takes the platform's conversion to them
  as a parameter.
- `Dispatch` takes one queue, semaphore or flag access as one step and lets any thread move at
  any time. Its endpoints all have subscriptions, so boot has created their semaphores, and the
  notify callback is set. A publisher there may address any endpoint, which includes every
  routing. Publisher i, for i below the number of endpoints, is dispatch thread i itself: while
  it runs its sub-functions it may publish any messages, one delivery after the other, and is as
  blocked as its publish is. `DispatchStall` has the standstills this allows and conditions that
  exclude them, `DispatchDrain` the draining of a backlog by a thread whose sub-functions
  publish; it starts from any reachable state, so it covers restarts after shutdown.
  `DispatchFlow` reads the effects of those steps on the messages; `BusRuns` takes a whole
  delivery as one step, and `QueueWaits` opens the waiting inside one queue call, with timeouts
  that may come after the signal.
- `Nvm` runs start from any device whose bytes load as a store with distinct keys: a new one
  (`NewDeviceStarts`), one flashed by the tool (`ConfigBlob.FlashedDeviceRuns`), or one that an
  earlier run left. The fields `history`, `traced` and `session` of the `Observatory` state, and
  the ghost fields of the classes, record what happened and influence nothing.

## Where the code and its documentation differ

- `core/include/embediq_fb.h` line 57 calls a dependency on a later phase a boot fault. Boot
  only checks that the name exists, and skips dependencies outside the current phase:
  `BootGraph.ForwardDependencyAccepted`, `BootGraph.DependenciesFirstIff`.
- `core/include/embediq_nvm.h` line 85 promises that a flush returning OK has persisted the
  data. The result of the flash write is ignored: `Nvm.FlushDurableIff`, `Nvm.FlushCanLose`.
- `core/include/hal/hal_flash.h` lines 26 to 34 promise that a write completes in full or does
  not happen, and the comment in `fbs/drivers/fb_nvm.c` lines 181 and 182 relies on it. The
  POSIX flash ignores `fclose`, so a temporary file that lost its buffered end still replaces
  the store and the write reports OK: `Nvm.CloseFailureLosesBoth`; `NvmSalvage.SalvageOutcome`
  says what a reload then finds.
- `core/src/bus/message_bus.c` line 23 binds a full NORMAL queue to dropping its oldest message
  for the new one. The three queue operations that do so can interleave with another
  publisher's, and then the new message can be lost as well. `DispatchFlow.PolicyKeptIff` says
  exactly when the policy is kept, `DispatchFlow.SerialisedDrops` what serialised publishes
  give, and `DispatchFlow.DropsCanMiscount` is a failing run.
- `core/include/embediq_fb.h` lines 167 to 171 promise that shutdown returns once all threads have
  exited. A sub-function that publishes HIGH, as `examples/gateway/fb_policy_engine.c` lines 70 to 84
  and `docs/CONFIG.md` lines 128 to 142 do, can wait for ever in that publish, and the join with
  it: `DispatchStall.ShutdownKnot`, with `Dispatch.ShutdownUnblocksIff` and
  `DispatchStall.QuietHandlersMove` for the condition. While dispatch is up the same can stop a
  thread whose queue is full: `DispatchStall.SelfKnot`, `DispatchStall.StallIsKnot`.
- `core/include/embediq_osal.h` lines 105 to 107 return a timeout for a queue that is full. A timed
  wait can time out after it was signalled, with room in the queue, and takes the signal with it:
  `QueueWaits.TimeoutLosesWakeup`. The bus makes no timed calls; `QueueWaits.NoLostWakeup`.
- `hal/posix/peripherals/hal_obs_stream_posix.c` reports its failures by emitting events, which
  under the FILE transport write to the stream again. Without an open stream that recursion has
  no end: `Observatory.EmitReturnsIff`, `Observatory.BeginReturnsIff` and
  `Observatory.EndReturnsIff` say when a call returns, and `Observatory.BeginRunsAway`,
  `Observatory.BeginStrands` and `Observatory.EndRunsAway` are three ways to get there.
- `docs/observability/iqtrace_format.md` lines 94 to 98 take OVERFLOW events as the complete
  record of lost events. Each report pushes out one more event that nothing reports:
  `Observatory.LossAccounted`, `Observatory.ReportsCoverLossIff`, with the first failing input
  in `Observatory.LossGoesUnreported`. Reports also never reach the trace file.
- `docs/BRIDGE.md` line 98 closes a connection after three missed responses. The third request
  is followed by the close at once, so a peer has two intervals to answer:
  `Bridge.ThirdHeartbeatIff`, with a failing input in `Bridge.AnswerUnread`.
- The comment in `fbs/drivers/fb_watchdog.c` lines 108 and 109 bounds the interval by 2^31 us;
  the exact bounds are in `Watchdog.OverdueExactIff` and `Watchdog.AgreesIff`.

## Model

| member | source | states |
|---|---|---|
| `BitRegister.BurstDetected` | components/embediq_crc/embediq_crc.c:126-162 | burst theorem for any CRC register: two bit streams of equal length that differ only inside `width` consecutive bits leave different register values |
| `BitRegister.DifferenceHidden` | components/embediq_crc/embediq_crc.c:126-162 | the converse: if the difference of two streams runs the register from zero back to zero, the checksums agree |
| `BitRegister.TableStep` | components/embediq_crc/embediq_crc.c:53-62 | eight single-bit steps of a word equal the eightfold step of the part that is looked up, combined with the part that is kept |
| `ByteStream.SplitUpdate` | components/embediq_crc/embediq_crc.c:146-155 | updating over the two parts of any split equals updating over the whole buffer, in either bit order |
| `ByteStream.ByteBurst` | components/embediq_crc/embediq_crc.c:146-155 | a change confined to n consecutive bytes is a burst of at most 8 n bits |
| `ByteStream.StartShows` | components/embediq_crc/embediq_crc.c:146-155 | different start values end in different registers over the same message |
| `LongDivision.RunDivides` | components/embediq_crc/embediq_crc.c:126-155 | a register with feedback by a generator polynomial computes the remainder of long division over GF(2): of the message with room for the checksum, minus the start value in front |
| `Crc32Standard.ChecksumIsRemainder` | components/embediq_crc/embediq_crc.c:159-162 | for every message the checksum is the complement of the remainder that the message, its first 32 bits complemented and 32 zero bits behind, leaves by the generator of RFC 1952, section 8, in reflected order |
| `Crc32Standard.CheckValue` | components/embediq_crc/embediq_crc.h:77 | the header's check value: 0xCBF43926 for the digits 1 to 9 |
| `Crc32Standard.LeadingZeroShows` | components/embediq_crc/embediq_crc.c:140-143 | the start value makes a zero byte in front of any message change its checksum |
| `Crc16Standard.ChecksumIsRemainder` | components/embediq_crc/embediq_crc.c:113-116 | for every message the checksum is the remainder that the message, its first 16 bits complemented and 16 zero bits behind, leaves by x^16 + x^12 + x^5 + 1 |
| `Crc16Standard.CheckValue` | components/embediq_crc/embediq_crc.h:53 | the header's check value: 0x29B1 for the digits 1 to 9 |
| `Crc16Standard.LeadingZeroShows` | components/embediq_crc/embediq_crc.c:94-98 | the start value makes a zero byte in front of any message change its checksum |
| `Crc8Standard.ChecksumIsRemainder` | components/embediq_crc/embediq_crc.c:66-69 | for every message the checksum is the remainder that the message with 8 zero bits behind leaves by x^8 + x^2 + x + 1 |
| `Crc8Standard.CheckValue` | components/embediq_crc/embediq_crc.h:29 | the header's check value: 0xF4 for the digits 1 to 9 |
| `Crc8Standard.LeadingZeroHidden` | components/embediq_crc/embediq_crc.c:47-51 | with the start value 0 a zero byte in front of a message never changes its checksum |
| `Crc32.BurstDetected` | components/embediq_crc/embediq_crc.c:126-162 | two equal-length buffers that differ only within 32 consecutive bits (least significant bit first) have different CRC-32 values |
| `Crc32.BurstBoundTight` | components/embediq_crc/embediq_crc.c:126-162 | the bound is exact: some pair of buffers that differs within 33 consecutive bits has equal CRC-32 values |
| `Crc32.Lookup` | components/embediq_crc/embediq_crc.c:146-155 | one table look-up changes the register exactly as feeding the eight bits of the byte one at a time |
| `Crc32.Engine.BuildEntry` | components/embediq_crc/embediq_crc.c:126-138 | the inner loop of the table builder computes the eightfold bit step |
| `Crc32.Engine.Build` | components/embediq_crc/embediq_crc.c:126-138 | afterwards all 256 entries of the table are the eightfold steps of their index |
| `Crc32.Engine.Feed` | components/embediq_crc/embediq_crc.c:146-155 | the table-driven update returns the bit-at-a-time update, for every start value and buffer |
| `Crc32.Engine.OneShot` | components/embediq_crc/embediq_crc.c:159-162 | init, one update and final return the reference CRC-32 of the buffer |
| `Crc16.BurstDetected` | components/embediq_crc/embediq_crc.c:79-116 | two equal-length buffers that differ only within 16 consecutive bits (most significant bit first) have different CRC-16 values |
| `Crc16.BurstBoundTight` | components/embediq_crc/embediq_crc.c:79-116 | the bound is exact: some pair of buffers that differs within 17 consecutive bits has equal CRC-16 values |
| `Crc16.Lookup` | components/embediq_crc/embediq_crc.c:100-109 | one table look-up changes the register exactly as feeding the eight bits of the byte one at a time |
| `Crc16.Engine.BuildEntry` | components/embediq_crc/embediq_crc.c:79-92 | the inner loop of the table builder computes the eightfold bit step |
| `Crc16.Engine.Build` | components/embediq_crc/embediq_crc.c:79-92 | afterwards all 256 entries of the table are the eightfold steps of their index |
| `Crc16.Engine.Feed` | components/embediq_crc/embediq_crc.c:100-109 | the table-driven update returns the bit-at-a-time update, for every start value and buffer |
| `Crc16.Engine.OneShot` | components/embediq_crc/embediq_crc.c:113-116 | init, one update and final return the reference CRC-16 of the buffer |
| `Crc8.BurstDetected` | components/embediq_crc/embediq_crc.c:32-69 | two equal-length buffers that differ only within 8 consecutive bits (most significant bit first) have different CRC-8 values |
| `Crc8.BurstBoundTight` | components/embediq_crc/embediq_crc.c:32-69 | the bound is exact: some pair of buffers that differs within 9 consecutive bits has equal CRC-8 values |
| `Crc8.Lookup` | components/embediq_crc/embediq_crc.c:53-62 | one table look-up changes the register exactly as feeding the eight bits of the byte one at a time |
| `Crc8.Engine.BuildEntry` | components/embediq_crc/embediq_crc.c:32-45 | the inner loop of the table builder computes the eightfold bit step |
| `Crc8.Engine.Build` | components/embediq_crc/embediq_crc.c:32-45 | afterwards all 256 entries of the table are the eightfold steps of their index |
| `Crc8.Engine.Feed` | components/embediq_crc/embediq_crc.c:53-62 | the table-driven update returns the bit-at-a-time update, for every start value and buffer |
| `Crc8.Engine.OneShot` | components/embediq_crc/embediq_crc.c:66-69 | init, one update and final return the reference CRC-8 of the buffer |
| `BootGraph.Resolve` | core/src/registry/fb_engine.c:214-223 | the first registered block with the name, or -1 exactly when no block has it |
| `BootGraph.TopologicalHasNoCycle` | core/src/registry/fb_engine.c:234-258 | a dependency order that holds a whole phase leaves no room for a dependency cycle inside the phase |
| `BootGraph.CycleForbidsOrder` | core/src/registry/fb_engine.c:296-357 | with a cycle in some phase no correct initialisation order exists, so refusing to boot is forced |
| `BootGraph.AppendPhase` | core/src/registry/fb_engine.c:296-357 | a sorted phase appended to a correct order of the earlier phases is a correct order of all of them |
| `BootGraph.DependenciesFirstIff` | core/src/registry/fb_engine.c:241-245 | a correct boot order serves every dependency first if and only if no dependency points to a later (or unbooted) phase |
| `BootGraph.ForwardDependencyAccepted` | core/include/embediq_fb.h:57 | the rule that a dependency on a later phase is a boot fault is not enforced: a two-block registry that breaks it passes every check of boot |
| `BootLog.BootedSteps` | core/src/registry/fb_engine.c:333-371 | a completed boot, read off its log without its definition: how often every step occurs, every init function exactly once and in dependency order, semaphores for exactly the subscribing blocks and behind every init call, the callback last |
| `BootLog.RefusedSteps` | core/src/registry/fb_engine.c:316-330 | a boot refused for a cycle initialises exactly the blocks of the earlier phases, once and in order, and creates no semaphore |
| `FbEngine.Enter` | core/src/registry/fb_engine.c:234-240 | turning a white block gray and pushing it keeps the search invariant |
| `FbEngine.Leave` | core/src/registry/fb_engine.c:255-257 | turning a block black and appending it, once its same-phase dependencies are in the result, keeps the search invariant |
| `FbEngine.CycleFromStack` | core/src/registry/fb_engine.c:246 | reaching a gray block exhibits a dependency cycle of the phase |
| `FbEngine.Engine.Register` | core/src/registry/fb_engine.c:96-110 | a block is appended and its handle is its index; refused exactly when the configuration is missing, boot has happened, or the registry is full |
| `FbEngine.Engine.FindByName` | core/src/registry/fb_engine.c:214-223 | the loop returns the first block with the name, or -1 |
| `FbEngine.Engine.TopoDfs` | core/src/registry/fb_engine.c:234-258 | the recursive three-colour search terminates (fewer white blocks at each call), fails only if the phase has a cycle, and otherwise extends the result in dependency order with the block and its dependencies |
| `FbEngine.Engine.VisitDep` | core/src/registry/fb_engine.c:241-254 | one turn of the dependency loop: a gray same-phase dependency exhibits a cycle, a white one is searched, and afterwards this dependency stands in the result |
| `FbEngine.Engine.SortPhase` | core/src/registry/fb_engine.c:299-331 | sorting a phase succeeds if and only if the phase has no dependency cycle, and then lists each block of the phase once, dependencies first |
| `FbEngine.Engine.FirstMissing` | core/src/registry/fb_engine.c:275-286 | finds the first block, in registration order, that names an unknown dependency |
| `FbEngine.Engine.InitPhase` | core/src/registry/fb_engine.c:333-356 | brings up exactly the blocks of one sorted phase, in order |
| `FbEngine.Engine.Boot` | core/src/registry/fb_engine.c:264-373 | succeeds if and only if every name resolves and no phase has a cycle; its steps are then, after the bus has booted: each init function of phases 1 to 4 called exactly once, between INITIALISING and RUNNING of its block and after every dependency on the same or an earlier phase is RUNNING, then a semaphore for exactly the blocks that subscribe, and the notify callback last; on a cycle that holds for the earlier phases and no block of a later one was touched; on an unknown name no block was touched; a second call does nothing |
| `Dispatch.StepKeepsInv` | core/src/registry/fb_engine.c:410-520 | every step of every publisher, dispatch thread and the shutdown controller keeps the invariant, including between the three steps of a queue scan and inside the publishes of a sub-function that a dispatch thread runs |
| `Dispatch.NoLostWakeup` | core/src/registry/fb_engine.c:426-453 | in every reachable state: a thread blocked on its semaphore at count 0 while a queue of its endpoint holds a message has a publisher between enqueue and post |
| `Dispatch.MovesIff` | core/src/registry/fb_engine.c:410-453 | in every state of the invariant a live dispatch thread is blocked if and only if it is in a HIGH send of its sub-function to a full queue or in its semaphore wait at count 0 |
| `Dispatch.SomeoneMoves` | core/src/registry/fb_engine.c:426-453 | while dispatch is up, a queued message means that its thread or a publisher about to post it can take a step, unless the thread waits in a HIGH send of its own sub-function to a full queue; and there it cannot |
| `Dispatch.ShutdownUnblocksIff` | core/src/registry/fb_engine.c:494-520 | once shutdown has posted every semaphore, a dispatch thread is blocked if and only if it is in a HIGH send of its sub-function to a full queue |
| `Dispatch.OnePostPerThread` | core/src/registry/fb_engine.c:494-520 | a thread consumes at most one post after the shutdown flag is set |
| `Dispatch.LeftoversAnnounced` | core/src/registry/fb_engine.c:459-520 | after the joins, leftover messages without a pending notifier leave the semaphore count above 0 |
| `DispatchDrain.DrainScan` | core/src/registry/fb_engine.c:436-450 | a scanning thread whose sub-functions publish by any script that is not HIGH and not to its own endpoint drains its three queues by its own steps, highest priority first and each in order, and begins exactly the scripted deliveries |
| `DispatchDrain.LeftoversDrained` | core/src/registry/fb_engine.c:459-492 | from every reachable state: a started or waiting thread with leftovers and no pending post drains all of them by its own steps, whatever such sub-functions publish, with no new post |
| `DispatchStall.KnotForever` | core/src/bus/message_bus.c:275-281 | dispatch threads that each wait in a HIGH send to a full queue of one of them, or of a thread that has exited, stay so in every run; if shutdown is joining, it never ends |
| `DispatchStall.StallIsKnot` | core/src/registry/fb_engine.c:426-520 | nothing else stops dispatch: when, up or joining, no dispatch thread can move and no post is pending, each waits for messages and has none, or the threads in HIGH sends form such a knot |
| `DispatchStall.QuietHandlersMove` | core/src/registry/fb_engine.c:426-520 | if no sub-function publishes HIGH, then in every run a thread with a queued message can move or is about to be posted, and during the joins every live thread can move |
| `DispatchStall.RankedHandlersMove` | core/src/registry/fb_engine.c:426-453 | if sub-functions publish HIGH only to endpoints of a lower rank, then in every run, once all threads are started, a queued message means that some dispatch thread can move or is about to be posted |
| `DispatchStall.SelfKnot` | core/src/bus/message_bus.c:275-281 | the failing input while dispatch is up: a run in which a sub-function publishes HIGH to the full queue of its own endpoint and its thread never moves again |
| `DispatchStall.ShutdownKnot` | core/include/embediq_fb.h:166-177 | the failing input for the shutdown promise: a run in which a sub-function publishes HIGH to the full queue of a thread that has exited, so that the join never returns |
| `DispatchFlow.QueueFlow` | core/src/bus/message_bus.c:275-312 | however publishers and the thread interleave, what a queue held and then what was stored in it is what left it, in order, and then what it holds |
| `DispatchFlow.EveryMessageOnce` | core/src/bus/message_bus.c:239-315 | in every reachable state, for every queue and message: each delivery that began ended with the message taken by the thread, evicted or given up, or it is still queued or in a publisher's hands |
| `DispatchFlow.DeliveredInOrder` | core/src/bus/message_bus.c:275-312 | in every reachable state, what the thread took from a queue and what is queued are in the order stored; for HIGH and LOW they are all that was stored; HIGH gives up nothing, and LOW counts exactly what it gives up |
| `DispatchFlow.MissedIff` | core/src/bus/message_bus.c:283-288 | a publisher that found the NORMAL queue full finds nothing to evict if and only if, since any earlier state, as many messages have left the queue as it held then and has been given |
| `DispatchFlow.RetryRefusedIff` | core/src/bus/message_bus.c:283-290 | its second store is refused if and only if, since any earlier state, what the queue held then and has been given is at least 32 more than what has left it |
| `DispatchFlow.PolicyKeptIff` | core/src/bus/message_bus.c:23 | the binding policy, drop the oldest for the new one, is kept if and only if the others took fewer than 32 more than they stored before the eviction, and stored no more than they took up to the second store |
| `DispatchFlow.SerialisedDrops` | core/src/bus/message_bus.c:283-297 | if publishes to one NORMAL queue do not overlap, in every run nothing is refused, and counted drops exceed the losses by exactly the publishers that found nothing to evict |
| `DispatchFlow.DropsCountLossesIff` | core/src/bus/message_bus.c:284-312 | the balance of every NORMAL queue: losses and publishers that found nothing to evict add up to counted drops, lost rooms and deliveries under way; so the count is the loss exactly when the two miscounts cancel |
| `DispatchFlow.DropsCanMiscount` | core/src/bus/message_bus.c:22-24 | the policy that a full NORMAL queue drops its oldest message for the new one is not kept when publishers interleave: a run of two publishers that counts one drop and loses two messages, the new one among them |
| `DispatchFlow.TakenIsHandled` | core/src/registry/fb_engine.c:426-453 | over every run the sub-functions receive what the dispatch thread took, each message once and in the order taken |
| `DispatchFlow.Undisturbed` | core/src/bus/message_bus.c:275-312 | a delivery that nobody interrupts has the effect of the queue model, and one post unless it was given up |
| `OsalQueue.AppendItem` | osal/posix/embediq_osal_posix.c:237-239 | copying into slot (head + count) mod depth appends to the queue and disturbs none of its items |
| `OsalQueue.DropItem` | osal/posix/embediq_osal_posix.c:270-272 | advancing the head removes exactly the oldest item |
| `OsalQueue.SlotsApart` | osal/posix/embediq_osal_posix.c:237-238 | the bytes of two different slots do not overlap |
| `OsalQueue.Queue.Create` | osal/posix/embediq_osal_posix.c:190-207 | NULL exactly when an allocation fails; otherwise a queue that is empty and valid, for any depth and item size |
| `OsalQueue.Queue.TrySend` | osal/posix/embediq_osal_posix.c:220-242 | timeout 0: succeeds if and only if the queue is not full, and then appends the item; otherwise nothing changes |
| `OsalQueue.Queue.TryReceive` | osal/posix/embediq_osal_posix.c:256-275 | timeout 0: succeeds if and only if the queue is not empty, and then returns and removes the oldest item |
| `OsalQueue.Queue.Count` | osal/posix/embediq_osal_posix.c:278-284 | the number of queued items |
| `QueueWaits.StepKeepsInv` | osal/posix/embediq_osal_posix.c:207-275 | every step of every thread inside the blocking, timed and polling queue calls keeps the invariant, a timeout that has consumed a signal included |
| `QueueWaits.FirstInFirstOut` | osal/posix/embediq_osal_posix.c:209-276 | in every reachable state, with any number of blocking and timed senders and receivers, the items received and then the items queued are the items sent, in order |
| `QueueWaits.PassOutcome` | osal/posix/embediq_osal_posix.c:216-275 | with the mutex a call that finds room, or an item, takes it, returns and wakes one waiter of the other kind if there is one; one that finds neither returns at once if its timeout is 0 and waits otherwise |
| `QueueWaits.WaiterSteps` | osal/posix/embediq_osal_posix.c:224-233 | a waiter may wake without a signal, and gives up only if its call is timed |
| `QueueWaits.LateAreLapses` | osal/posix/embediq_osal_posix.c:224-230 | the timeouts counted in the accounting are exactly those of a run that consumed a signal |
| `QueueWaits.WakeupsAccounted` | osal/posix/embediq_osal_posix.c:207-275 | in every reachable state: while a thread waits, the threads of its kind that have been woken and have yet to look, and the timeouts that consumed a signal, cover every place or item there is |
| `QueueWaits.NoLostWakeup` | osal/posix/embediq_osal_posix.c:207-275 | in every run in which the waiting side makes no timed call: while a sender waits and there is room, or a receiver waits and there is an item, some thread of its kind has been woken and, run next, sends or receives |
| `QueueWaits.WaitingMeansNothingToDo` | osal/posix/embediq_osal_posix.c:207-275 | in every such run, once everyone has looked, senders wait only on a full queue and receivers only on an empty one |
| `QueueWaits.TimeoutLosesWakeup` | osal/posix/embediq_osal_posix.c:225-230 | the failing input for timed calls: a run in which a signal goes to a sender whose wait times out, so that another sender waits beside an empty place and nobody has been woken |
| `BusQueues.PublishKeeps` | core/src/bus/message_bus.c:275-312 | a publish of any priority keeps conservation, order and the policy of its queue |
| `BusQueues.TakeKeeps` | core/src/bus/message_bus.c:356-362 | a receive keeps them too |
| `BusQueues.RunInv` | core/src/bus/message_bus.c:275-312 | after every history of publishes and receives on a queue: published = received + queued + lost, received then queued messages keep publish order, HIGH lost nothing, and NORMAL holds the newest messages |
| `BusQueues.FullQueue` | core/src/bus/message_bus.c:275-312 | a full HIGH queue makes the publisher wait, a full NORMAL queue drops its oldest message for the new one, a full LOW queue drops the new one |
| `BusQueues.RoomLeft` | core/src/bus/message_bus.c:275-312 | with room, every priority appends and drops nothing |
| `SubscriptionTable.InsertStable` | core/src/bus/message_bus.c:132-143 | inserting behind everything not greater keeps the prefix sorted and a stable arrangement of what it was |
| `SubscriptionTable.StableIsPermutation` | core/src/bus/message_bus.c:132-143 | a stable arrangement holds every entry as often as before |
| `SubscriptionTable.SortedBlock` | core/src/bus/message_bus.c:257-264 | in a sorted table the entries of one id are the contiguous block that starts at the leftmost match |
| `SubscriptionTable.TargetsAreNaive` | core/src/bus/message_bus.c:192-205 | routing over the table targets the same endpoints, copy for copy and in the same order, as a naive scan of all registrations if and only if no entry of the id lies beyond the 512 that are kept |
| `SubscriptionTable.OneCopyPerEntry` | core/src/bus/message_bus.c:257-273 | each block gets exactly as many copies as its list names the id |
| `SubscriptionTable.ScanOrdered` | core/src/bus/message_bus.c:192-205 | the copies go out in registration order |
| `MessageBus.DeliveryIsPublish` | core/src/bus/message_bus.c:275-312 | delivering one copy is one publish step of the queue model, and the drop log grows by exactly what the queue loses |
| `BusRuns.StepKeeps` | core/src/bus/message_bus.c:239-362 | every delivery and every receive keeps every queue a run of the queue model on its own events, and the drop log as long as the losses of all queues together |
| `BusRuns.EveryQueueConserves` | core/src/bus/message_bus.c:239-362 | over every run of deliveries and receives on all queues, each queue conserves, orders and drops as its priority demands, undisturbed by the others |
| `BusRuns.DropsAreLosses` | core/src/bus/message_bus.c:288-311 | over every such run the number of recorded drops, which the drop counter holds mod 2^32, is the number of messages lost by all queues |
| `BusRuns.RouteIsRun` | core/src/bus/message_bus.c:261-313 | routing a message is the run of its copies |
| `BusPolicy.HighPolicy` | core/src/bus/message_bus.c:275-280 | a delivery of a message of priority 0 touches only queue 0 of the endpoint, waits if and only if that holds 16, and never records a drop |
| `BusPolicy.NormalPolicy` | core/src/bus/message_bus.c:241-297 | of any priority but 0 and 2, invalid ones included, only queue 1, which ends with the newest 32; a drop is recorded if and only if it was full |
| `BusPolicy.LowPolicy` | core/src/bus/message_bus.c:299-312 | of priority 2 only queue 2; the message is dropped, recorded and not notified if and only if that holds 16 |
| `BusPolicy.EveryRunInPlace` | core/src/bus/message_bus.c:241-312 | in every run of the bus each message waits in the queue of its own priority, and no recorded drop is of a HIGH message |
| `BusPolicy.HighNeverLost` | core/src/bus/message_bus.c:275-280 | over every run: the HIGH messages that an endpoint took and those waiting are, in order, all that it accepted |
| `MessageBus.Bus.InsertAt` | core/src/bus/message_bus.c:134-142 | the inner loop shifts greater entries up and places the key: the prefix is sorted and stably rearranged |
| `MessageBus.Bus.SortTable` | core/src/bus/message_bus.c:132-143 | the in-place insertion sort leaves the table sorted and a stable arrangement of what it was |
| `MessageBus.Bus.Boot` | core/src/bus/message_bus.c:170-208 | the table routes exactly the given subscriptions, all queues are empty, and a second call changes nothing |
| `MessageBus.Bus.SubFirst` | core/src/bus/message_bus.c:149-164 | the binary search returns the leftmost entry of the id, or -1 if and only if there is none |
| `MessageBus.Bus.DeliverOne` | core/src/bus/message_bus.c:275-312 | one delivery by the queue's overflow policy, with its drop counted and its notification made |
| `MessageBus.Bus.Route` | core/src/bus/message_bus.c:239-315 | copies go to the targets of the naive scan in order, from the first one or from where the publisher waited; only a full HIGH queue stops it, with the copies before it delivered |
| `MessageBus.Bus.Publish` | core/src/bus/message_bus.c:317-322 | stamps the source endpoint, 0xFF without a handle, and routes: the copies go out in order up to a full HIGH queue, and to all targets if there is none |
| `MessageBus.Bus.ReceiveEp` | core/src/bus/message_bus.c:356-362 | takes the oldest message of one queue, or none |
| `NvmStore.FindSlotView` | fbs/drivers/fb_nvm.c:138-147 | the slot scan finds a key if and only if the finite map has it |
| `NvmStore.SetView` | fbs/drivers/fb_nvm.c:261-306 | an accepted set updates the map at the key and nowhere else, and keeps active keys unique |
| `StoreLayout.StoredFields` | fbs/drivers/fb_nvm.c:285-310 | a set stores the value in front of what the field held, its length and schema id 0, and turns the entry active under its key |
| `NvmStore.DeleteView` | fbs/drivers/fb_nvm.c:332-350 | a delete removes exactly its key; deleting an absent key changes nothing |
| `NvmStore.FullIff` | fbs/drivers/fb_nvm.c:286-292 | a set is refused for want of room if and only if 64 other keys are stored |
| `NvmImage.EntriesRoundTrip` | fbs/drivers/fb_nvm.c:161-184 | decoding the encoded entries gives the entries back |
| `NvmImage.LoadImage` | fbs/drivers/fb_nvm.c:186-217 | loading the image that persist writes gives exactly the saved array |
| `NvmImage.LoadErased` | fbs/drivers/fb_nvm.c:186-217 | a blank flash loads as the empty store |
| `StoreLayout.HeaderLayout` | fbs/drivers/fb_nvm.c:78-99 | the header of the image at its documented offsets: magic, version 1.0, 64 entries, the CRC-32 of the entries, zeros |
| `StoreLayout.EntryLayout` | fbs/drivers/fb_nvm.c:105-111 | an entry at its documented offsets: key, value, length, schema id, flag, padding |
| `StoreLayout.EntriesLayout` | fbs/drivers/fb_nvm.c:128-131 | entry i stands at 134 i of the entries |
| `NvmImage.CorruptionDetected` | fbs/drivers/fb_nvm.c:161-217 | after any corruption confined to 4 consecutive bytes of the 8592-byte image, load yields the saved store or the empty one, and the empty one exactly when a guarded byte (magic, checksum, entries) changed |
| `NvmSalvage.SalvageOutcome` | fbs/drivers/fb_nvm.c:186-217 | when the end of an image was lost: the saved store loads if and only if it is empty or every lost byte was zero; anything but it and the empty store takes a checksum collision, and even then is a part of what was saved |
| `NvmSalvage.ShortLossDetected` | fbs/drivers/fb_nvm.c:186-217 | a lost tail whose non-zero bytes lie within 4 consecutive ones loads as the saved store or the empty one |
| `Flash.ReadAfterCommit` | hal/posix/peripherals/hal_flash_posix.c:107-163 | a write that commits reads back, and every other byte reads as before |
| `Flash.ReadAfterFailure` | hal/posix/peripherals/hal_flash_posix.c:107-121 | a write that fails or is cut off before the rename leaves everything readable as it was |
| `StoreLayout.OutOfRange` | hal/posix/peripherals/hal_flash_posix.c:144-163 | a write fits exactly when it ends within the 64 KiB device, and one that does not changes nothing |
| `Flash.ReadAfterCloseFailure` | hal/posix/peripherals/hal_flash_posix.c:107-121 | after a failing fclose the kept bytes read as if the write had committed, and every other byte, outside the written region too, reads as zero |
| `Flash.ReadAfterBlindCommit` | hal/posix/peripherals/hal_flash_posix.c:97-163 | a write over a file that exists but cannot be opened reads back, and everything outside the written region is lost |
| `Flash.Device.ReadAt` | hal/posix/peripherals/hal_flash_posix.c:123-142 | reads the file, zero where it does not reach and everywhere if it cannot be opened |
| `Flash.Device.WriteAt` | hal/posix/peripherals/hal_flash_posix.c:144-163 | overlays the data on the current file contents (on none if the file cannot be opened) and replaces the file; OK exactly when it fits and the file was replaced |
| `Flash.Device.Replace` | hal/posix/peripherals/hal_flash_posix.c:107-121 | the temporary-file-and-rename sequence for every way its calls can end; a failing fclose is not noticed, so the part that was kept replaces the file and the result is OK |
| `Nvm.PersistLoads` | fbs/drivers/fb_nvm.c:161-217 | a reload after a persist gives the persisted array if the write committed, what is left of it if fclose failed, and the former contents otherwise |
| `Nvm.BlindPersistLoads` | fbs/drivers/fb_nvm.c:161-217 | whether the persist could read the old file makes no difference to a reload |
| `Nvm.FlushDurableIff` | fbs/drivers/fb_nvm.c:352-360 | what was flushed survives a reload if and only if the write committed, or fclose failed and lost only zeros (or the store is empty), or the file was not replaced and nothing had changed |
| `Nvm.FlushCanLose` | core/include/embediq_nvm.h:85 | the promise that OK means persisted is not kept: on a new device whose temporary file cannot be opened, a flush loses any non-empty store |
| `Nvm.CloseFailureLosesBoth` | core/include/hal/hal_flash.h:26-34 | the atomicity contract is not kept: when fclose loses all but two bytes, the write reports OK and a reload finds neither the new store nor the old one |
| `Nvm.ApplyView` | fbs/drivers/fb_nvm.c:261-371 | set, delete, reset and flush on the array are the corresponding map operations, refusals included |
| `Nvm.CrashConsistent` | fbs/drivers/fb_nvm.c:161-371 | from any device that holds a store, after every run with write failures, failing fclose and power loss at any step, the live array is the specified map and a reload gives the map of the last write that replaced the file: all of it if the write committed, what was left of it if fclose failed |
| `Nvm.NewDeviceStarts` | fbs/drivers/fb_nvm.c:186-217 | a device without a store file starts with the empty store |
| `Nvm.DurableWasLive` | fbs/drivers/fb_nvm.c:161-371 | the durable map is one that a committed operation saved, a part of one that a failing fclose cut, or the initial one: no key comes back with a value it was not given |
| `Nvm.RunExists` | fbs/drivers/fb_nvm.c:161-371 | no event is ever impossible: every event list is a run |
| `Nvm.Store.constructor` | fbs/drivers/fb_nvm.c:223-233 | initialisation loads the array from the device, or the empty one if the file cannot be opened |
| `Nvm.Store.LoadSlots` | fbs/drivers/fb_nvm.c:186-217 | the array becomes what the device's bytes load as |
| `Nvm.Store.PersistSlots` | fbs/drivers/fb_nvm.c:161-184 | the image of the array is written; the write's result is ignored |
| `Nvm.Store.Find` | fbs/drivers/fb_nvm.c:138-147 | the first active slot with the key, or 64 |
| `Nvm.Store.Free` | fbs/drivers/fb_nvm.c:149-155 | the first inactive slot, or 64 |
| `Nvm.Store.SetKey` | fbs/drivers/fb_nvm.c:261-306 | refuses with the specified reason and changes nothing, or stores the value in the specified slot and persists |
| `Nvm.Store.Get` | fbs/drivers/fb_nvm.c:308-330 | returns the map's value if the key is present and fits the buffer |
| `Nvm.Store.DeleteKey` | fbs/drivers/fb_nvm.c:332-350 | blanks the key's slot and persists; writes nothing if the key is absent |
| `Nvm.Store.FlushAll` | fbs/drivers/fb_nvm.c:352-360 | persists the array and reports success whatever became of the write |
| `Nvm.Store.ResetAll` | fbs/drivers/fb_nvm.c:362-371 | blanks every slot and persists |
| `Config.GetU32` | core/src/cfg/embediq_cfg.c:60-72 | the stored little-endian value, or the default when the key is absent or its length is not 4 |
| `Config.GetI32` | core/src/cfg/embediq_cfg.c:46-58 | the same in two's complement |
| `Config.GetBool` | core/src/cfg/embediq_cfg.c:74-83 | the stored flag, or the default |
| `Config.GetStr` | core/src/cfg/embediq_cfg.c:85-120 | the stored string cut to the caller's buffer, or the default cut to it |
| `Config.GetFloat` | core/src/cfg/embediq_cfg.c:32-44 | the stored four bytes as a float, or the default when the key is absent or its length is not 4 |
| `Config.SetU32` | core/src/cfg/embediq_cfg.c:142-148 | stores the little-endian word under the key and nothing else, exactly when the store accepts it |
| `Config.SetI32` | core/src/cfg/embediq_cfg.c:134-140 | stores the two's complement word under the key and nothing else, exactly when the store accepts it |
| `Config.SetBool` | core/src/cfg/embediq_cfg.c:150-155 | stores the flag byte under the key and nothing else, exactly when the store accepts it |
| `Config.SetFloat` | core/src/cfg/embediq_cfg.c:126-132 | stores the four bytes of the float under the key and nothing else, exactly when the store accepts it |
| `Config.SetStr` | core/src/cfg/embediq_cfg.c:157-164 | stores the string without its terminator under the key and nothing else, exactly when the store accepts it |
| `Config.SetThenGet` | core/src/cfg/embediq_cfg.c:32-164 | each getter, float included, returns what its setter stored, strings cut to the buffer, and every getter reads every other key as before |
| `StoreLayout.StrIsPrefix` | core/src/cfg/embediq_cfg.c:85-116 | get_str returns the beginning of the stored string, or of the default for a missing one: all of it if it fits the buffer, else as much as fits |
| `StoreLayout.OtherLength` | core/src/cfg/embediq_cfg.c:60-83 | a getter gives its default exactly where nothing of its length is stored; a bool is false exactly for the byte 0; an int is the unsigned word mod 2^32 |
| `StoreLayout.WordLayout` | core/src/cfg/embediq_cfg.c:60-72 | stored words are little-endian, negative ones two's complement |
| `ConfigBlob.PackIsEncode` | tools/config_iq/embediq_nvs_gen.py:377-388 | the record Python packs is the C structure, byte for byte |
| `ConfigBlob.Generate` | tools/config_iq/embediq_nvs_gen.py:506-513 | the loop of the tool yields the specified blob, or stops exactly when some item is refused |
| `ConfigBlob.GeneratesIff` | tools/config_iq/embediq_nvs_gen.py:320-413 | the tool produces a blob if and only if every item is accepted and packs, there are at most 64 of them, and both version numbers fit a byte |
| `StoreLayout.EncodesIff` | tools/config_iq/embediq_nvs_gen.py:320-371 | the tool accepts a value exactly if it is a string, a bool, an integer of the type and in the declared range, or a number in the declared range that a float can hold, as the kind asks; a string is cut to its declared length |
| `StoreLayout.BlobLayout` | tools/config_iq/embediq_nvs_gen.py:391-413 | the header of a blob at the offsets of the stored image: magic, the versions given, the number of items, zeros |
| `ConfigBlob.BlobLoads` | fbs/drivers/fb_nvm.c:186-217 | the C loader accepts every generated blob and sees exactly its entries, blank slots after them |
| `ConfigBlob.EntriesView` | fbs/drivers/fb_nvm.c:186-217 | the map of a loaded blob has every item at its encoded value and no other key |
| `ConfigBlob.BlobRoundTrip` | tools/config_iq/embediq_nvs_gen.py:320-413 | each typed getter of a store loaded from the blob returns the value the tool encoded, floats bit for bit, strings cut at their maximum length, and each key not written gives the caller's default |
| `ConfigBlob.FlashedLoads` | fbs/drivers/fb_nvm.c:186-217 | a device whose backing file is the blob loads it, whatever the temporary file holds |
| `ConfigBlob.FlashedDeviceRuns` | fbs/drivers/fb_nvm.c:161-371 | a device flashed with a generated blob boots into the items' values and the defaults, and from there every run is crash consistent |
| `TraceFormat.LeRoundTrip` | tools/embediq_obs/embediq_obs.py:53-67 | a number that fits its field is read back from its little-endian bytes |
| `TraceFormat.EventRoundTrip` | tools/embediq_obs/embediq_obs.py:187-201 | the 14 bytes of an event decode to the event |
| `TraceFormat.SessionRoundTrip` | tools/embediq_obs/embediq_obs.py:147-152 | the 40 bytes of a session unpack to the fields of the session |
| `TraceLayout.FileLayout` | docs/observability/iqtrace_format.md:309-334 | a trace file starts with IQTR, version 1 and three zero bytes, and then the session record |
| `TraceFormat.ShowExact` | tools/embediq_obs/embediq_obs.py:147-164 | what parse_session returns (version in three parts, build id stripped and decoded) determines the session, as long as its build id is ASCII |
| `TraceLayout.EventLayout` | docs/observability/iqtrace_format.md:43-53 | the 14-byte event record at its documented offsets, little-endian |
| `TraceLayout.SessionLayout` | docs/observability/iqtrace_format.md:109-121 | the 40-byte session record at its documented offsets, little-endian, with zero padding |
| `TraceLayout.EnvelopeLayout` | docs/observability/iqtrace_format.md:126-150 | the record envelope and the kinds of record |
| `TraceLayout.VersionLayout` | tools/embediq_obs/embediq_obs.py:150-152 | the firmware version is shown as major above bit 16, minor in bits 8 to 15, patch below |
| `TraceLayout.ShownAsStored` | tools/embediq_obs/embediq_obs.py:153-164 | every other field is shown as stored, and of the build id the bytes before the padding |
| `TraceFormat.ReadRecord` | tools/embediq_obs/embediq_obs.py:210-223 | the branch on the record type picks the events of one record: a whole EVENT, or the events of a batch that lie inside the payload |
| `TraceLayout.BatchReads` | tools/embediq_obs/embediq_obs.py:213-223 | a batch record gives the events that its count announces, as far as its payload holds them whole |
| `TraceLayout.OtherReads` | tools/embediq_obs/embediq_obs.py:210-224 | an event record of the right length gives its event; too short ones and records of any other kind none |
| `TraceLayout.RecordsReadBack` | tools/embediq_obs/embediq_obs.py:167-184 | records of any kind, known or not, are read one after the other by their length |
| `TraceFormat.ReadFrom` | tools/embediq_obs/embediq_obs.py:167-184 | the record loop with its offset yields the events of all records up to STREAM_END or the last whole header |
| `TraceFormat.ReadEvents` | tools/embediq_obs/embediq_obs.py:204-224 | parse_events yields the specified event list for every byte string, and fails only below 12 bytes |
| `TraceFormat.CutTraceReads` | tools/embediq_obs/embediq_obs.py:167-224 | a trace cut after any number of bytes from 12 on reads back as exactly the events whose records are whole |
| `TraceFormat.TraceRoundTrip` | tools/embediq_obs/embediq_obs.py:132-224 | a closed trace, and one whose STREAM_END is missing, reads back as exactly the events and the session written |
| `Observatory.LevelBands` | core/src/observatory/obs.c:138-154 | level 0 lets the fault and system bands through, level 1 also messages and states, level 2 everything |
| `Observatory.FamilyBands` | core/include/embediq_obs.h:320-333 | the family of an event is the upper half of its type |
| `Observatory.RecordKeepsRing` | core/src/observatory/obs.c:297-344 | recording an event, with its overflow report, keeps the ring, sequence and overflow invariant |
| `Observatory.StepGrows` | core/src/observatory/obs.c:283-471 | every call that returns with a usable transport keeps that invariant and only adds to the event history |
| `Observatory.SettingsTake` | core/src/observatory/obs.c:363-395 | a transport, level or session setting takes effect at once and changes nothing else |
| `Observatory.RingHoldsNewest` | core/src/observatory/obs.c:118-132 | in every reachable state the ring holds the newest 256 events with consecutive sequence numbers, the pending count is at most 1, and events lost = drops reported + pending + number of reports |
| `Observatory.LossAccounted` | core/src/observatory/obs.c:309-344 | the same loss equation for any state that satisfies the invariant |
| `Observatory.ReportsCoverLossIff` | docs/observability/iqtrace_format.md:94-98 | the overflow reports and the pending count cover all lost events if and only if no more than 257 events were pushed; after that each report pushes out an event that is never reported |
| `Observatory.HistoryLength` | core/src/observatory/obs.c:297-344 | from the start, n events that pass the level push n events up to 257, and 2 n - 257 from there on |
| `Observatory.LossGoesUnreported` | docs/observability/iqtrace_format.md:94-98 | the failing input: after 258 events three are lost, one is reported and one is pending |
| `Observatory.HalfTheRingIsReports` | core/src/observatory/obs.c:309-344 | once the history is 513 long, ring entries are alternately OVERFLOW reports of one drop and caller events |
| `Observatory.LatchedEmit` | hal/posix/peripherals/hal_obs_stream_posix.c:43-55 | with the write-error latch set an emit only reaches the ring, so a failing write reports exactly one HAL_FAULT event |
| `Observatory.EmitReturnsIff` | hal/posix/peripherals/hal_obs_stream_posix.c:43-55 | emit returns if and only if it discards the event or the FILE transport has an open stream; otherwise each write reports its failure by an emit that writes |
| `Observatory.BeginRunsAway` | hal/posix/peripherals/hal_obs_stream_posix.c:24-41 | a capture begun inside another whose file cannot be created never returns |
| `Observatory.BeginStrands` | core/src/observatory/obs.c:431-448 | a capture begun inside another whose preamble does not fit but whose file closes returns -1 and leaves the FILE transport without a stream: the next event that passes the level never returns |
| `Observatory.EndRunsAway` | core/src/observatory/obs.c:461-466 | capture_end never returns when closing the file fails while the transport is FILE |
| `Observatory.BeginReturnsIff` | core/src/observatory/obs.c:417-454 | capture_begin returns, and then as specified, if and only if no session exists, or the transport is not FILE, or the file opens and, should the preamble not fit, closes |
| `Observatory.EndReturnsIff` | core/src/observatory/obs.c:456-471 | capture_end returns, and then as specified, if and only if the transport is not FILE or the file closes |
| `Observatory.TlvWrote` | core/src/observatory/obs.c:261-275 | a record reaches a healthy stream whole, or its first bytes do and the latch is set |
| `Observatory.EmitFile` | core/src/observatory/obs.c:346-356 | emit keeps the file a prefix of the trace of the events handed to it, and equal to it while no write failed |
| `Observatory.EndFile` | core/src/observatory/obs.c:456-471 | ending a capture succeeds if and only if the stream is healthy and has room for STREAM_END; then the file is the closed trace; a failing flush or close does not change the result |
| `Observatory.BeginFile` | core/src/observatory/obs.c:417-454 | beginning a capture, also inside another one, succeeds if and only if a session exists, the file opens and can hold the preamble; then the file is exactly the preamble, with the write-error latch set if the flush failed |
| `Observatory.RunInv` | core/src/observatory/obs.c:283-471 | every state of every run of emits, transport, level, session and capture calls satisfies the whole invariant |
| `Observatory.EveryCutReads` | core/src/observatory/obs.c:261-471 | in every reachable state, however its writes failed and wherever the file is cut (12 bytes or more), the file reads back as a prefix of the events handed to it; while open and healthy, as all of them |
| `TraceTimes.RunStamped` | core/src/observatory/obs.c:313-344 | in every reachable state the n-th event that entered the ring carries the n-th reading of the clock |
| `TraceTimes.EveryCutDated` | core/src/observatory/obs.c:261-344 | in every reachable state, wherever the file is cut, the events read back stand at increasing positions of that history, each with the reading and the sequence number of its position |
| `Observatory.CaptureRoundTrip` | core/src/observatory/obs.c:283-471 | one capture from begin to end, on a file that opens, flushes and closes: it succeeds if and only if the stream can hold every record; then the Python tool reads back the session and exactly the emitted events that pass the level, in order; otherwise a prefix of them; sequence numbers increase until the counter wraps |
| `Recorder.Recorder.Store` | core/src/observatory/obs.c:118-132 | the ring array with head, count and mask drops the oldest event when full and appends the new one |
| `Recorder.Recorder.Push` | core/src/observatory/obs.c:313-344 | the event is stamped with clock and sequence, stored, and the counters move as specified |
| `Recorder.Recorder.Emit` | core/src/observatory/obs.c:283-357 | the recursive code terminates and has the specified effect: a failing write comes back once, with the latch set |
| `Recorder.Recorder.WriteTlv` | core/src/observatory/obs.c:261-275 | header, then payload if there is one, stopping at the first failure |
| `Recorder.Recorder.Write` | hal/posix/peripherals/hal_obs_stream_posix.c:43-55 | the specified effect of a write on file, latch and ring |
| `Recorder.Recorder.Flush` | hal/posix/peripherals/hal_obs_stream_posix.c:57-67 | one HAL_FAULT event without a stream; nothing with the latch set; a failing flush sets the latch and reports one HAL_FAULT event |
| `Recorder.Recorder.Close` | hal/posix/peripherals/hal_obs_stream_posix.c:69-78 | the stream is closed and the latch cleared; a failing close reports one HAL_FAULT event |
| `Recorder.Recorder.Open` | hal/posix/peripherals/hal_obs_stream_posix.c:24-41 | an opened file is empty with a clear latch, whatever was open before; a failed open reports one HAL_FAULT event |
| `Recorder.Recorder.CaptureBegin` | core/src/observatory/obs.c:417-454 | the specified effect, with the stream closed again on each failure path, wherever the call returns at all |
| `Recorder.Recorder.CaptureEnd` | core/src/observatory/obs.c:456-471 | the specified effect, ending in the NULL transport, wherever the call returns at all |
| `Recorder.Recorder.RingRead` | core/src/observatory/obs.c:513-518 | index 0 is the oldest event; none beyond the count |
| `Telemetry.AddSummarises` | fbs/services/fb_telemetry.c:217-244 | updating a slot with one report keeps it the exact aggregate of its metric's reports: count and counter total mod 2^32, sum, true extremes, last value |
| `Telemetry.Placed` | fbs/services/fb_telemetry.c:110-135 | find_or_alloc returns the metric's own slot, else the next unused one, else none |
| `Telemetry.AggregateKeeps` | fbs/services/fb_telemetry.c:110-244 | every report keeps the table the summary of the window: one slot per metric in order of first report, id 0xFFFF excluded |
| `Telemetry.DroppedIff` | fbs/services/fb_telemetry.c:134-135 | a report of a real metric is dropped if and only if 32 other metrics are live |
| `Telemetry.BatchesCarry` | fbs/services/fb_telemetry.c:166-211 | the entries leave in order, in ceil(n / 3) messages of one to three entries with a payload of at most 62 bytes |
| `Telemetry.EntryDescribes` | fbs/services/fb_telemetry.c:137-164 | an entry gives its reader, for a metric of one kind, the exact mean between the true extremes, the last gauge value, or the counter total mod 2^32, and the count |
| `Telemetry.EntriesList` | fbs/services/fb_telemetry.c:177-185 | the entries list, once each and in table order, the metrics whose 32-bit report count is not zero |
| `Telemetry.FreeNeverListed` | fbs/services/fb_telemetry.c:110-121 | id 0xFFFF, the mark of an unused slot, never reaches a batch |
| `Telemetry.RunSummarises` | fbs/services/fb_telemetry.c:283-292 | after any sequence of reports and seconds the table summarises the reports since the last multiple of 30 seconds |
| `Telemetry.WindowPublished` | fbs/services/fb_telemetry.c:166-292 | over every run, only the second that ends a window publishes, and then the batches report exactly that window |
| `Telemetry.UnregisteredSilent` | fbs/services/fb_telemetry.c:168-170 | without a registered block nothing is published |
| `TelemetryPayload.BatchRoundTrip` | fbs/services/fb_telemetry.c:190-208 | the payload bytes of a batch have the announced length, and a subscriber that casts them sees the header and every entry as they were written |
| `TelemetryPayload.PackedLayout` | core/include/embediq_telemetry.h:51-83 | a packed entry at its documented offsets, with the documented codes of the kinds |
| `TelemetryPayload.PublishedReadsBack` | core/include/embediq_telemetry.h:62-83 | casting the payloads of one publication, in order, gives one packed entry for each active slot in table order, with the values that were built |
| `Telemetry.Aggregator.constructor` | fbs/services/fb_telemetry.c:355-371 | registration starts with an empty table |
| `Telemetry.Aggregator.ResetTable` | fbs/services/fb_telemetry.c:95-108 | every slot becomes unused and cleared |
| `Telemetry.Aggregator.FindOrAlloc` | fbs/services/fb_telemetry.c:110-135 | the two scans return the specified place and claim an unused slot cleared |
| `Telemetry.Aggregator.Report` | fbs/services/fb_telemetry.c:217-244 | the three aggregators have the effect of the specified update on the table |
| `Telemetry.Aggregator.Collect` | fbs/services/fb_telemetry.c:177-185 | the inner loop gathers the next one to three entries in table order |
| `Telemetry.Aggregator.PublishBatch` | fbs/services/fb_telemetry.c:166-211 | the nested loops publish the specified batches; nothing without a bus handle |
| `Telemetry.Aggregator.OnTimer` | fbs/services/fb_telemetry.c:283-292 | counts a second; the thirtieth publishes and resets |
| `Watchdog.OverdueExactIff` | fbs/drivers/fb_watchdog.c:109-114 | the 32-bit comparison decides every elapsed time below 2^32 us correctly, through any number of clock wraps, if and only if timeout_ms is at most 4294967 |
| `Watchdog.TooLong` | fbs/drivers/fb_watchdog.c:112 | for every longer timeout a silence within the timeout is reported as missed |
| `Watchdog.AgreesIff` | fbs/drivers/fb_watchdog.c:109-114 | for a timeout that fits, the scan agrees with true time at any elapsed time if and only if it is below 2^32 us or its remainder exceeds the timeout: a longer silence passes again once per wrap |
| `Watchdog.RunInv` | fbs/drivers/fb_watchdog.c:253-322 | after any run of register, check-in and unregister calls the slots are contiguous with distinct real handles, and each carries its block's last sign of life and last timeout |
| `Watchdog.SupervisedIff` | fbs/drivers/fb_watchdog.c:253-322 | a block is supervised if and only if an accepted registration of it has not been followed by an unregister call |
| `Watchdog.RunSupervises` | fbs/drivers/fb_watchdog.c:253-322 | after every run the slots hold exactly the supervised blocks |
| `Watchdog.RefusedIff` | fbs/drivers/fb_watchdog.c:253-283 | a registration of a block that is not supervised is refused if and only if its timeout is 0 or 64 others are supervised |
| `Watchdog.RegistrationOrder` | fbs/drivers/fb_watchdog.c:253-322 | the slots stay in the order in which their blocks joined |
| `Watchdog.ScanExact` | fbs/drivers/fb_watchdog.c:98-165 | over every run with fitting timeouts and silences below 2^32 us, a scan reports exactly the supervised blocks that have been silent for longer than the timeout of their last registration, each once, and reports none if and only if every one is in time |
| `Watchdog.AlarmsPublish` | fbs/drivers/fb_watchdog.c:98-150 | with a block of its own the watchdog publishes exactly one message for each missed block, in slot order |
| `Watchdog.AlarmsNumber` | fbs/drivers/fb_watchdog.c:98-150 | a scan emits two fault events for each missed block and, with a block of its own, reports one fault for each |
| `Watchdog.KickIff` | fbs/drivers/fb_watchdog.c:150-165 | a scan kicks the hardware watchdog if and only if no block was missed |
| `Watchdog.Monitor.Register` | fbs/drivers/fb_watchdog.c:253-283 | renews the timeout and deadline of a known block, appends a new one while there is room, ignores NULL and zero timeouts |
| `Watchdog.Monitor.Checkin` | fbs/drivers/fb_watchdog.c:286-300 | moves the deadline of a known block |
| `Watchdog.Monitor.Unregister` | fbs/drivers/fb_watchdog.c:303-322 | removes the block and shifts the later slots down in order |
| `Watchdog.Monitor.Scan` | fbs/drivers/fb_watchdog.c:98-165 | finds the overdue blocks in slot order; for each emits the two fault events and, when the watchdog's own block exists, reports the fault on it and publishes in between; kicks, and emits the heartbeat of a tracing build, if and only if none is overdue |
| `Bridge.ProcessSpeaks` | fbs/bridge/fb_bridge.c:305-387 | one visit of the mux keeps the slot invariant, speaks only of block 0x40 + i, and reports its connection state truthfully |
| `BridgeFrames.VisitSays` | fbs/bridge/fb_bridge.c:305-387 | all that a visit puts out, by kind: every message frame it reads goes to the bus once and in order, under block 0x40 + i if the slot is connected by then and under 0 before; the first IDENTIFY is answered with the number on the slot's connection and announced under the first at most 31 bytes of its name; ends are announced with their reason and closed; a heartbeat goes out exactly when due; a visit that times out reads nothing |
| `BridgeFrames.VisitLeaves` | fbs/bridge/fb_bridge.c:305-387 | where a visit leaves the slot: free, connected or identifying, its name, the first at most 16 ids of the last SUBSCRIBE, its misses and the start of its next interval |
| `BridgeFrames.RunSays` | fbs/bridge/fb_bridge.c:288-434 | over every run of the pool the bus gets exactly the message frames that the visits read, in the order of the visits, each under the block of its slot; likewise the answers to IDENTIFY |
| `BridgeFrames.AcceptTakes` | fbs/bridge/fb_bridge.c:288-303 | a new connection takes the lowest free slot and changes nothing else, and is refused and closed exactly when there is none |
| `BridgeFrames.SessionKeeps` | fbs/bridge/fb_bridge.c:342-368 | over a session the connection keeps its descriptor, number and name, and its subscriptions are those of the last SUBSCRIBE read |
| `BridgeFrames.SessionBeats` | fbs/bridge/fb_bridge.c:318-324 | over a session, in true time and through the wrap of the clock, a heartbeat is sent at exactly the visits that find the interval passed since the last one or the IDENTIFY |
| `BridgeFrames.AnonymousClosedIff` | fbs/bridge/fb_bridge.c:311-315 | a connection that never identifies itself is closed at the first visit more than the time limit after it was accepted, and not before |
| `Bridge.LifecycleAlternates` | fbs/bridge/fb_bridge.c:242-387 | over every run, the lifecycle messages of slot i carry id 0x40 + i and alternate CONNECTED, DISCONNECTED; an unmatched CONNECTED means that the slot is connected under that id |
| `Bridge.ShutdownEndsAll` | fbs/bridge/fb_bridge.c:420-446 | live ids are distinct, and the shutdown loop frees every slot and announces the end of every session |
| `Bridge.MissesCounted` | fbs/bridge/fb_bridge.c:318-380 | while a session lives its miss counter is the number of heartbeats since the last drained HEALTH_RSP, at most two |
| `Bridge.ThirdHeartbeatIff` | docs/BRIDGE.md:96-100 | a visit closes a live session for missed heartbeats if and only if a heartbeat falls due after two unanswered ones: the third request is sent and the connection closed before it can be answered |
| `Bridge.AnswerUnread` | docs/BRIDGE.md:96-100 | the failing input: with a heartbeat every 5000 ms, a peer whose answer has arrived when the third one falls due is closed without its being read |
| `Bridge.PromptSurvives` | fbs/bridge/fb_bridge.c:318-380 | a peer whose HEALTH_RSP is drained before each next heartbeat is never closed for missed heartbeats |
| `Bridge.SilentClosedAtThird` | fbs/bridge/fb_bridge.c:318-329 | a connected peer that never answers gets at most three heartbeats and is closed exactly at the third |
| `Bridge.RunIsSession` | fbs/bridge/fb_bridge.c:305-434 | in every run of the pool a connected slot is where its session of visits has brought it, from a fresh start |
| `Bridge.HeartbeatsOverRuns` | fbs/bridge/fb_bridge.c:318-380 | over every run of the pool, with all slots and connections interleaved: the miss counter of a connected slot is the number of unanswered heartbeats of its session, and the next round announces its timeout if and only if a heartbeat falls due after two of them |
| `Bridge.TurnsAlternate` | fbs/bridge/fb_bridge.c:84-140 | messages that are never out of turn are CONNECTED at even and DISCONNECTED at odd positions |
| `Bridge.Mux.CloseSlot` | fbs/bridge/fb_bridge.c:242-255 | announces an identified block's end, closes the connection and clears the slot; nothing for a free slot |
| `Bridge.Mux.FindFree` | fbs/bridge/fb_bridge.c:257-262 | the first free slot, or 8 |
| `Bridge.Mux.HandleNewFd` | fbs/bridge/fb_bridge.c:288-303 | a new connection takes the first free slot, or is refused with an error frame and a fault message |
| `Bridge.Mux.DrainSlot` | fbs/bridge/fb_bridge.c:332-386 | the receive loop handles what recv returns in order and stops where the code stops |
| `Bridge.Mux.ProcessSlot` | fbs/bridge/fb_bridge.c:305-387 | IDENTIFY timeout, heartbeat and receive loop have the specified effect |
| `Bridge.Mux.Turn` | fbs/bridge/fb_bridge.c:420-434 | one iteration: at most one new connection, then every slot in order |
| `Bridge.Mux.CloseAll` | fbs/bridge/fb_bridge.c:442-446 | the shutdown loop closes every open slot |

## Left out

- FbEngine.Engine.Boot: `init_fn` may not register further blocks and always returns; phase 0 blocks are never booted by the code, and the model keeps that.
- Sub-function registration (`embediq_subfn_register`, a stable insertion by order) and the selection in `dispatch_msg_to_fb`: what a block does with a message it received is its own code, except that it may publish.
- Dispatch.SomeoneMoves: a sub-function returns once its publishes do, so what else it may wait for is not modelled; nor is fairness of the scheduler.
- DispatchDrain.LeftoversDrained: sub-functions that publish HIGH, or to their own endpoint, are left out of the draining; the first can block (`DispatchStall.SelfKnot`), the second can keep a thread busy for ever.
- MessageBus.Bus.Boot: a queue that could not be allocated, which routing skips, is not modelled.
- Flash.ReadFile: reads the whole backing file; a short `fread` is not modelled.
- Messages published before the notify callback is set: they get no post.
- MessageBus.Bus.DeliverOne: takes one delivery as one step, like `BusQueues` and `BusRuns`; their drop counts are for deliveries that do not interleave on one queue. `DispatchFlow` has the interleaved ones, with the unsynchronised increment of the drop counter as part of one step.
- OsalQueue.Queue.TrySend: the timeout-0 form on the bytes of the ring; `QueueWaits` has the blocking and timed forms on the sequence of items.
- OsalQueue.Queue.TryReceive: likewise.
- QueueWaits.NoLostWakeup: for runs whose waiting side makes no timed call, because with one it fails (`QueueWaits.TimeoutLosesWakeup`); `QueueWaits.WakeupsAccounted` is for all runs. Fairness of the scheduler is not modelled.
- Queue-depth warnings, the queue-full event of the OSAL, printed lines and other diagnostics.
- `target_endpoint_id` of a message, which routing does not read.
- NULL arguments and mutex failures of the store's and the settings' functions.
- Nvm.CrashConsistent: assumes that a rename is atomic and durable; the code calls no fsync, and write caches are not modelled.
- Nvm.Store.PersistSlots: takes the old backing file for readable, which makes no difference to a reload (`Nvm.BlindPersistLoads`).
- NvmImage.CorruptionDetected: covers damage to 4 consecutive bytes, the most that a CRC-32 detects without exception.
- `hal_flash_erase`, path resolution and directory creation.
- ConfigBlob.GeneratesIff: starts from the selected and typed values; the schema parser, JSON loading and `collect_keys` are not modelled, and the rounding of a number to a C float is a given of the item.
- ConfigBlob.Generate: likewise.
- ConfigBlob.BlobRoundTrip: likewise; the round trip is on the four bytes of a float.
- Blobs of other origin: load is stated for images written by the store or the tool, and for corruptions of the store's own.
- Observatory.RunInv: its runs are those of calls after which an emit returns; left out are setting the FILE transport without an open stream, the `capture_begin` and `capture_end` calls that do not return (`Observatory.BeginReturnsIff`, `Observatory.EndReturnsIff`), and a `capture_begin` inside a capture whose preamble does not fit (`Observatory.BeginStrands`).
- Observatory.CaptureRoundTrip: sequence numbers are strictly increasing only until the counter wraps at 2^32 events; after that order is the file's order.
- `obs__force_overflow`, `obs__reset` and the other test entry points; standard-output formatting.
- The derived views of the Python tool (statistics, filters, export).
- Telemetry.EntryDescribes: exact real arithmetic; rounding of floats and of the counter-to-float cast is not modelled, and an entry of a metric reported with several kinds is described only by its count, kind and unit.
- Telemetry.Aggregator.PublishBatch: returns each message as its fields, entries and payload length; the bytes are those of `TelemetryPayload.StoreBatch`, with the platform's floats as a parameter.
- The telemetry message handlers, which cast the payload they get to a whole message; the aggregators are modelled directly. Tags are not used by the batches.
- Watchdog.Monitor.Scan: takes the clock reading and the locked scan as one step; a check-in between the two is not modelled.
- Sockets, frame headers whose length disagrees with what was received, the source of MSG frames sent before IDENTIFY beyond its id 0, systemd notification, delivery towards external blocks (which the source does not implement) and the client library.
- Finite-state-machine tables, the platform library registry, code generators, CI checkers, TLS stubs and the Python SDK.
