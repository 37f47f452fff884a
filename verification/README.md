# Verification of libcppx channels, task scheduler and stream framer

This project models three stateful parts of libcppx in Dafny and proves what they are for.

**The variable-size single-producer single-consumer channel.** Entries of different length live
in a power-of-two byte ring. Each side works with an old copy of the other side's counter, and
an entry that does not fit before the buffer end is preceded by a placeholder inside the buffer.
`VariableRing` is a machine of atomic steps (cached and fresh looks at the counters, placeholder,
jump, header, single payload bytes, Post; look, skip, reread, Delete) whose interleavings are
arbitrary; memory is a sequence of bytes and headers are encoded in it. `VariableLayout` reads the
memory between two counters as a chain of blocks and the records they hold, `VariableSafety` shows
what each step keeps, `VariableRuns` what holds of whole runs, `VariableCapacity` and
`VariableRacing` what New answers, undisturbed and while the consumer runs, and `VariableLoss`
what can be lost. `VariableChannel` is the class with its array and its loops, each method proved
equal to steps of the machine; `VariableCalls` shows that these are runs.

**The fixed-size channel and the send buffer.** `FixedRing` and `FixedChannel` do the same for
slots of equal size. `SendBuffer` and `SendSafety` put two such rings behind a spin lock used by any
number of threads; `SendBufferImpl` is the class, whose Send `SendCalls` shows to be a run.

**The task scheduler.** `TaskMap` has the time-keyed map, probing and batch selection; `Scheduler`
is the machine in which posts (clock reading and insertion are separate steps) and cancels
interleave with the phases of Run; `SchedulerSafety` and `SchedulerRuns` prove conservation, timing,
cancellation and bounded waiting, `SchedulerEffects` what each step does to the map;
`TaskScheduler` is the class, and `SchedulerCalls` composes the runs its methods take.

**The stream framer.** `Framing` defines one delivery pass and a chunked stream; `ReceiveBuffer` and
`Connection` are the classes with their buffer and loops over a nondeterministic socket.

Findings. The channel loses an entry exactly if it has no payload and is posted in the last 8 bytes
of the buffer; from then on `IsEmpty` is false for ever and `GetSize` counts the lost entries.
`Recv` returns the number of received bytes as its result at the end of the stream, where other
results are error codes; the model follows the code.

`hide` statements in proofs only keep definitions out of the solver's sight where a proof does not
need them.

## Model

| member | source | states |
|---|---|---|
| VariableRuns.RingIsFifo | base/sources/channel/spsc_variable_bounded_channel.cpp:58-137 | over every run and every interleaving of producer and consumer steps with stale cached counters, if payloads have at least one byte, the deleted payloads are a prefix of the posted ones and deleted plus queued is exactly what was posted, byte for byte |
| VariableRuns.FifoExactlyUnlessLost | base/sources/channel/spsc_variable_bounded_channel.cpp:278-292 | for payloads of any size, zero included: the ring is that FIFO if and only if no entry was posted in the last 8 bytes of the buffer |
| VariableLoss.LastSlotIsSkipped | base/sources/channel/spsc_variable_bounded_channel.cpp:279-291 | the failing input: on any ring drained at its last 8 bytes an entry without payload is granted there and posted, and the next Get returns null and has stepped over it |
| VariableLoss.LastSlotIsReachable | base/sources/channel/spsc_variable_bounded_channel.cpp:175-199 | that situation is within reach of every new ring, whatever its size: a run of empty entries posted, fetched and deleted one after the other ends there |
| VariableLoss.EveryRingCanLose | base/sources/channel/spsc_variable_bounded_channel.cpp:58-137 | so for every new ring there is a run, with empty payloads, after which deleted plus queued is not what was posted |
| VariableLoss.LastSlotIsGranted | base/sources/channel/spsc_variable_bounded_channel.cpp:196-199 | New grants the entry without payload at that index |
| VariableRuns.RoomyRun | base/sources/channel/spsc_variable_bounded_channel.cpp:279-282 | requests for at least one byte never lead to a lost entry, in any run |
| VariableRuns.GetIsComplete | base/sources/channel/spsc_variable_bounded_channel.cpp:101-124 | a Get that reads the tail returns null only if the queue was empty at that read; otherwise it shows the payload that was oldest then, whatever the producer does meanwhile and across skipped placeholders |
| VariableRuns.GetLooksTwice | base/sources/channel/spsc_variable_bounded_channel.cpp:101-116 | before it has read the tail Get never returns null; it goes on to read it only when the part it knows is taken, and what it returns is the oldest payload |
| VariableRuns.GetIsWaitFree | base/sources/channel/spsc_variable_bounded_channel.cpp:101-124 | Get is decided within five consumer steps, whatever the producer does in between |
| VariableRuns.HeldEntryIsStable | base/sources/channel/spsc_variable_bounded_channel.cpp:101-137 | until Delete every further Get returns the same address with the same bytes, and never null |
| VariableRuns.WritesAreDisjoint | base/sources/channel/spsc_variable_bounded_channel.cpp:206-216 | no step changes any byte between head and tail: placeholder header, entry header and payload miss every posted and undeleted byte modulo the size |
| VariableRuns.PostedAsWritten | base/sources/channel/spsc_variable_bounded_channel.cpp:58-99 | Post publishes the reserved payload with exactly the bytes the producer stored between New and Post, whatever the consumer does meanwhile |
| VariableRuns.ReachableLayout | base/sources/channel/spsc_variable_bounded_channel.cpp:175-301 | in every reachable state headRef <= head <= tailRef <= tail <= headRef + size, a reservation stays below headRef + size and does not straddle the buffer end, and [head, tail) is a gap-free chain of correct blocks with a boundary at the cached tail |
| VariableRuns.SourceAssertionsHold | base/sources/channel/spsc_variable_bounded_channel.cpp:206-216 | the assertions of NewEntry, GetEntry and Get hold in every reachable state: room for the placeholder header, index zero after jump and skip, magic and no placeholder flag on a returned entry |
| VariableSafety.StepGood | base/sources/channel/spsc_variable_bounded_channel.cpp:58-301 | each of the twelve steps keeps the invariant, and acts on the abstract queue as enqueue (Post), dequeue of the oldest (Delete) or not at all |
| VariableSafety.WriteSpares | base/sources/channel/spsc_variable_bounded_channel.cpp:175-246 | bytes written behind the tail and within one lap of a possibly old head leave the chain, the queue and the part the consumer knows unchanged |
| VariableSafety.JumpGood | base/sources/channel/spsc_variable_bounded_channel.cpp:206-216 | the jump publishes the placeholder as filler: the queue is unchanged and the tail ends at index zero |
| VariableSafety.SkipGood | base/sources/channel/spsc_variable_bounded_channel.cpp:290-297 | skipping filler keeps queue and known part, ends at index zero, and what follows is an entry or nothing |
| VariableSafety.FillerWraps | base/sources/channel/spsc_variable_bounded_channel.cpp:255-284 | filler at the head of a nonempty known part implies index(head) >= index(tailRef), so the branch that does not look at the flags never returns filler |
| VariableSafety.PostGood | base/sources/channel/spsc_variable_bounded_channel.cpp:88-99 | Post appends the reserved bytes as one record, or nothing if it lies in the last 8 bytes |
| VariableSafety.DeleteGood | base/sources/channel/spsc_variable_bounded_channel.cpp:126-137 | Delete removes exactly the oldest record and appends its bytes to the taken ones |
| VariableSafety.HoldingIsOldest | base/sources/channel/spsc_variable_bounded_channel.cpp:101-124 | the address Get returned is that of the oldest record, with header and payload intact |
| VariableLayout.ChainAgrees | base/sources/channel/spsc_variable_bounded_channel.cpp:278-292 | blocks and records between two counters depend on the bytes between them only |
| VariableLayout.ChainJoin | base/sources/channel/spsc_variable_bounded_channel.cpp:248-301 | chains compose, and so do the records they hold |
| VariableLayout.StoreSpares | base/sources/channel/spsc_variable_bounded_channel.cpp:177-245 | a write at [a, a+n) within one lap of h changes no byte of [h, a) |
| VariableCapacity.NewDrained | base/sources/channel/spsc_variable_bounded_channel.cpp:58-86 | an uninterrupted New on a ring already drained at the call succeeds if and only if the entry fits before the buffer end or in front of the current index, however old the cached head is; otherwise the tail is left at index zero |
| VariableRacing.DecidedAtHeadRead | base/sources/channel/spsc_variable_bounded_channel.cpp:73-85 | the second try, for every ring: with the tail T and the head H at the read of the head, t = T % size and h = H % size, every run that follows, with arbitrary consumer steps between the steps of New, decides for null if and only if not (T - H < size and (t < h ? t + need <= h : t + need <= size or need <= h)); a granted entry lies at t if it fits there and else at 0; the head is read once |
| VariableRacing.DecidedAtCall | base/sources/channel/spsc_variable_bounded_channel.cpp:58-71 | the first try, in the same way with the cached head: it grants exactly if that head leaves room, and otherwise New goes on to read the head and never gives up before |
| VariableCapacity.NewAnswers | base/sources/channel/spsc_variable_bounded_channel.cpp:58-86 | an uninterrupted New on any ring, with any old cached head: granted if and only if there is a free contiguous run by the head as it is now, at the first place where it fits; after a refusal the cached head is up to date |
| VariableRacing.DrainedAtHeadRead | base/sources/channel/spsc_variable_bounded_channel.cpp:73-85 | the drained case of this: granted if and only if the entry fits before the buffer end or in front of the current index |
| VariableRacing.HalfIsNeverRefused | base/sources/channel/spsc_variable_bounded_channel.cpp:73-85 | in that case an entry of at most half the ring is never refused, wherever the counters stand |
| VariableRacing.RacingStep | base/sources/channel/spsc_variable_bounded_channel.cpp:175-246 | each step of either side keeps the decision fixed: while a try works, tail and cached head stay as at its start, and its answer is whether there was room between them |
| VariableRacing.NewIsWaitFree | base/sources/channel/spsc_variable_bounded_channel.cpp:58-86 | New decides within five producer steps from every reachable position, whatever the consumer does in between |
| VariableCapacity.HalfTheRing | base/sources/channel/spsc_variable_bounded_channel.cpp:189-243 | that condition holds at every index if and only if the entry is at most half the ring |
| VariableCapacity.RefusalRecovers | base/sources/channel/spsc_variable_bounded_channel.cpp:58-124 | on a drained ring, a refused New, one Get (which returns null) and the same New again: granted if and only if the entry fits the ring |
| VariableCapacity.OversizeRefused | base/sources/channel/spsc_variable_bounded_channel.cpp:175-246 | an entry larger than the ring is refused in every state |
| VariableCapacity.GetExact | base/sources/channel/spsc_variable_bounded_channel.cpp:101-124 | an undisturbed Get returns null if and only if the queue is empty, and has then caught up with the tail; otherwise the oldest payload |
| VariableCalls.NewIsARun | base/sources/channel/spsc_variable_bounded_channel.cpp:58-86 | an uninterrupted New is a run of producer steps of the machine |
| VariableCalls.GetIsARun | base/sources/channel/spsc_variable_bounded_channel.cpp:101-124 | an uninterrupted Get is a run of consumer steps of the machine |
| VariableChannel.Channel.Init | base/sources/channel/spsc_variable_bounded_channel.cpp:24-50 | error cases; on success the least power of two holding the kilobytes asked for if and only if these are at most 2^53, and a valid, empty ring if and only if the byte count modulo 2^64 is between 1 and 2^63 and the consumer counters are still zero |
| VariableChannel.Channel.NewEntry | base/sources/channel/spsc_variable_bounded_channel.cpp:175-246 | the in-place method takes exactly the machine's steps: placeholder written into the buffer, tail moved, address or null |
| VariableChannel.Channel.New | base/sources/channel/spsc_variable_bounded_channel.cpp:58-86 | null if and only if, by the head as it is now, no contiguous run of the needed bytes is free at the tail or behind filler at the buffer start; otherwise the address is the first place where it fits, with the header written; after null the cached head is up to date; queue unchanged; statistics; the state is that of a run of the machine |
| VariableChannel.Channel.Post | base/sources/channel/spsc_variable_bounded_channel.cpp:88-99 | queue grows by the bytes behind the header (unless in the last 8 bytes); null only counts a failure |
| VariableChannel.Channel.GetEntry | base/sources/channel/spsc_variable_bounded_channel.cpp:248-301 | the in-place method takes exactly the machine's steps |
| VariableChannel.Channel.Get | base/sources/channel/spsc_variable_bounded_channel.cpp:101-124 | null if and only if the queue is empty; otherwise the bytes at the address are the oldest payload; queue unchanged |
| VariableChannel.Channel.Delete | base/sources/channel/spsc_variable_bounded_channel.cpp:126-137 | the queue loses exactly its oldest payload; null only counts a failure |
| VariableChannel.Channel.IsEmpty | base/sources/channel/spsc_variable_bounded_channel.cpp:139-142 | true if and only if the queue is empty and no entry was ever lost |
| VariableChannel.Channel.GetSize | base/sources/channel/spsc_variable_bounded_channel.cpp:144-147 | the length of the queue plus the number of entries ever lost, cut to 32 bits |
| EntryHeader.DecodeEncode | base/sources/channel/channel_common.h:24-28 | a header whose fields fit their widths reads back from its 8 bytes as written |
| EntryHeader.CalSizeFits | base/sources/channel/channel_common.h:33-40 | the 32-bit entry size is a multiple of 8 and has room for header and payload if and only if the payload is at most 2^32 - 16 |
| EntryHeader.HeaderLayout | base/sources/channel/channel_common.h:24-28 | magic, flags and length lie at bytes 0, 2 and 4 of the header, low bytes first |
| HeaderIO.StoreHeader | base/sources/channel/spsc_variable_bounded_channel.cpp:64-67 | the three in-place stores change exactly the 8 header bytes, to the encoded header |
| HeaderIO.LoadHeader | base/sources/channel/spsc_variable_bounded_channel.cpp:88-94 | reading the fields in place gives the decoded header |
| Bits.Up2PowerOf2IsLeast | base/sources/channel/channel_common.h:59-73 | bit smearing gives the least power of two not below the argument, and zero exactly for zero and for arguments above 2^63 |
| Bits.SmearDoubles | base/sources/channel/channel_common.h:66-71 | one smearing step by j doubles the run of leading ones |
| Bits.GetIndexIsMod | base/sources/channel/channel_common.h:75-78 | masking with size - 1 is the remainder for every power-of-two size |
| FixedRing.RingIsFifo | base/sources/channel/spsc_fixed_bounded_channel.cpp:55-122 | over every interleaving the taken elements are the first posted ones, the rest is queued, and there are never more of these than slots |
| FixedRing.StepKeepsInv | base/sources/channel/spsc_fixed_bounded_channel.cpp:55-122 | every step keeps the counters in order and every slot between head and tail equal to the element posted there |
| FixedRing.SlotsApart | base/sources/channel/spsc_fixed_bounded_channel.cpp:57-69 | slots of counters less than a lap apart do not overlap |
| FixedRing.WriteSpares | base/sources/channel/spsc_fixed_bounded_channel.cpp:55-72 | writing into the reserved slot changes no posted and undeleted element |
| FixedRing.NullMeansFullOrEmpty | base/sources/channel/spsc_fixed_bounded_channel.cpp:63-109 | New returns null if and only if the ring is full when the head is read, Get if and only if it is empty when the tail is read; otherwise Get shows the oldest element |
| FixedRing.CallsAnswer | base/sources/channel/spsc_fixed_bounded_channel.cpp:55-110 | an uninterrupted New or Get in any state: null exactly if full or empty, otherwise the slot at tail or head; only the own cached counter changes |
| FixedRing.PostedAsWritten | base/sources/channel/spsc_fixed_bounded_channel.cpp:55-91 | Post publishes the reserved slot with exactly the bytes the producer stored since New, whatever the consumer does meanwhile |
| FixedRing.PostKeepsInv | base/sources/channel/spsc_fixed_bounded_channel.cpp:81-91 | Post appends exactly the bytes of the reserved slot to the queue |
| FixedRing.DeleteKeepsInv | base/sources/channel/spsc_fixed_bounded_channel.cpp:112-122 | Delete moves exactly the oldest element from the queue to the taken ones |
| FixedChannel.Channel.Init | base/sources/channel/spsc_fixed_bounded_channel.cpp:24-53 | error cases; on success slots padded to 8 bytes and the least sufficient power of two of them exactly where neither wraps at 64 bits, and a valid, empty ring if and only if, besides, their product fits 64 bits |
| FixedChannel.Channel.New | base/sources/channel/spsc_fixed_bounded_channel.cpp:55-72 | equals New of the machine: the next slot, or null if and only if the queue fills the ring |
| FixedChannel.Channel.Post | base/sources/channel/spsc_fixed_bounded_channel.cpp:81-91 | the queue grows by the bytes in the slot |
| FixedChannel.Channel.Get | base/sources/channel/spsc_fixed_bounded_channel.cpp:93-110 | equals Get of the machine: null if and only if the queue is empty, otherwise the oldest element; queue unchanged |
| FixedChannel.Channel.Delete | base/sources/channel/spsc_fixed_bounded_channel.cpp:112-122 | the queue loses exactly its oldest element |
| FixedChannel.Channel.IsEmpty | base/sources/channel/spsc_fixed_bounded_channel.cpp:124-127 | true if and only if the queue is empty |
| FixedChannel.Channel.GetSize | base/sources/channel/spsc_fixed_bounded_channel.cpp:129-132 | the length of the queue cut to 32 bits |
| SendSafety.LanesAreFifos | network/sources/send_buffer.h:57-70 | for any number of threads and any contention: at most one is between New and Post; per lane, taken plus queued is exactly the messages sent, whole and in lock order; and the grants behind them are, thread by thread, that thread's calls of Send with their own message and lane, one for each call but one still waiting |
| SendSafety.CallsAreGranted | network/sources/send_buffer.h:57-60 | the same conservation of calls, waiting calls and grants from any reachable state |
| SendSafety.ResultMeans | network/sources/send_buffer.h:61-69 | in every step, a result becomes refused only when the lane holds 1024 messages at that moment, and sent only with the own message appended to the own lane |
| SendSafety.LockIsReleased | base/sources/thread/spin_lock_impl.h:24-35 | a thread inside has left the lock after at most twelve steps of its own, whatever the others do |
| SendSafety.StepKeepsInv | network/sources/send_buffer.h:57-70 | every step of every thread and of both consumers keeps mutual exclusion, both rings' invariants, the partial stores of the lock holder and the log |
| SendSafety.LockGood | base/sources/thread/spin_lock_impl.h:24-30 | test-and-set lets a thread in exactly when no other is inside |
| SendSafety.UnlockGood | base/sources/thread/spin_lock_impl.h:32-35 | clearing the flag ends this thread's call and leaves nobody inside |
| SendSafety.RefusedMeansFull | network/sources/send_buffer.h:61-69 | Send gives up if and only if its lane is full when the lock holder reads the head |
| SendSafety.HolderGood | network/sources/send_buffer.h:57-70 | whatever the lock holder does to its lane leaves the other lane, the lock and the order of the log intact |
| SendCalls.SendIsARun | network/sources/send_buffer.h:57-70 | a whole Send of a thread that finds the lock free is a run of the lock machine: it logs one grant, sent or refused according to the room in its lane, does to that lane what Sending says, and leaves the other lane and the free lock as they were |
| SendCalls.SendingQueue | network/sources/send_buffer.h:61-69 | what it does to the lane appends the message if there is room and otherwise keeps the queue |
| SendCalls.WriteIsARun | network/sources/send_buffer.h:64-64 | storing the pointer byte by byte under the lock amounts to one store of its first n bytes |
| SendBufferImpl.Buffer.Send | network/sources/send_buffer.h:57-70 | success if and only if the lane has room, and then its queue grows by the message; the other lane is unchanged; lock, lanes and log end as after a run of the lock machine, so LanesAreFifos covers it |
| SchedulerRuns.BoundedWaiting | base/sources/thread/task_scheduler_impl.cpp:217-285 | a due, uncancelled entry with r uncancelled smaller keys and early-clocked posts ahead is selected, in a batch none of which has been started, after at most r/16 + 1 collections made while it is due, under every interleaving; posts may read the clock long before they insert |
| SchedulerRuns.ExecutedWithinRuns | base/sources/thread/task_scheduler_impl.cpp:217-256 | the task itself: a due, uncancelled entry with r entries and early-clocked posts ahead that is not cancelled has been executed once more after any run with at least r/16 + 1 collections made while it is due, as soon as no batch is being executed |
| SchedulerRuns.SelectedIsExecuted | base/sources/thread/task_scheduler_impl.cpp:251-256 | every selected entry is executed exactly once more by the end of the execution loop |
| SchedulerRuns.WaitStep | base/sources/thread/task_scheduler_impl.cpp:221-285 | one step either selects the waiting entry, or leaves it waiting with no more ahead of it, and sixteen fewer after a collection made while it was due |
| SchedulerRuns.IdsAreConserved | base/sources/thread/task_scheduler_impl.cpp:104-128 | ids in the map are unique, every issued id is in exactly one of pending, finished and erased, and an erased one was cancelled by a call or posted cancelled; between Runs the stored count equals the executions in the history |
| SchedulerRuns.ErasedWasCancelled | base/sources/thread/task_scheduler_impl.cpp:226-230 | only a task that a successful cancel has marked, or that was posted cancelled, is ever erased unfinished |
| SchedulerRuns.UncancelledRunsInFull | base/sources/thread/task_scheduler_impl.cpp:251-284 | a task that was never cancelled and is no longer in the map is a fixed-count one and has been executed exactly max(1, uTaskExecTimes) times |
| SchedulerRuns.CausedStep | base/sources/thread/task_scheduler_impl.cpp:84-286 | each step keeps: every cancelled entry in the map and every erased id was marked by a cancel that found it, or posted cancelled |
| SchedulerRuns.BatchStaysValid | base/sources/thread/task_scheduler_impl.cpp:251-285 | the map entries Run still refers to stay in the map while others post and cancel |
| SchedulerRuns.CancelIsSafe | base/sources/thread/task_scheduler_impl.cpp:162-180 | after a successful cancel an entry not waiting in the batch never executes again, and one that is executes at most once more, although its record may be re-keyed |
| SchedulerRuns.DeadRun | base/sources/thread/task_scheduler_impl.cpp:226-230 | executions plus executions owed by the batch never grow for a cancelled id |
| SchedulerRuns.TasksRunOnTime | base/sources/thread/task_scheduler_impl.cpp:100-108 | no execution before post clock plus delay; executions of one id at least its interval apart; never more than max(1, uTaskExecTimes) executions of a fixed-count entry, and exactly that many of a finished one |
| SchedulerEffects.PostLands | base/sources/thread/task_scheduler_impl.cpp:100-128 | a post inserts its task, with the next id and no executions, at the first free key from clock reading plus uDelayUs * 1000 on, passing occupied keys only, however many steps of others lie between reading and insertion; nothing else changes |
| SchedulerEffects.RekeyEffect | base/sources/thread/task_scheduler_impl.cpp:258-285 | the re-key step in every reachable state: a periodic task or one with runs left moves to the first free key from the clock plus uIntervalUs * 1000 on with its record kept and the running flag cleared, any other leaves the map as finished; nothing else changes |
| SchedulerEffects.RunSelects | base/sources/thread/task_scheduler_impl.cpp:217-249 | from the clock reading of a Run to its collection, whatever others do in between: the batch is the up to 16 smallest keys due at that reading and uncancelled at the collection, and exactly the cancelled ones it passes are erased |
| SchedulerEffects.CancelEffect | base/sources/thread/task_scheduler_impl.cpp:162-180 | a cancel sets the flag of the entry with this id and changes nothing else, or changes nothing |
| SchedulerEffects.TimelyRun | base/sources/thread/task_scheduler_impl.cpp:251-256 | over every run the clock moves by the time that passes, and executions are only added, each at a time between the clock readings before and after |
| SchedulerEffects.TasksKept | base/sources/thread/task_scheduler_impl.cpp:251-256 | no other step changes the map, except that a returning task is counted |
| SchedulerSafety.StepKeepsInv | base/sources/thread/task_scheduler_impl.cpp:84-286 | every step of posting, cancelling and of Run keeps conservation, counts, flags and timing |
| SchedulerSafety.InsertConserves | base/sources/thread/task_scheduler_impl.cpp:104-128 | a post adds exactly one fresh id |
| SchedulerSafety.Moved | base/sources/thread/task_scheduler_impl.cpp:263-284 | copying an entry to a free key and erasing the old one loses and duplicates no id |
| SchedulerSafety.CollectConserves | base/sources/thread/task_scheduler_impl.cpp:223-248 | ids that leave the map during collection go to the erased ones, and only there |
| SchedulerSafety.CopyOk | base/sources/thread/task_scheduler_impl.cpp:263-276 | a re-keyed entry is later than all its executions by its interval and has runs left |
| TaskMap.CollectExact | base/sources/thread/task_scheduler_impl.cpp:217-248 | the collect loop returns exactly the min(16, n) smallest of the n due, uncancelled keys, ascending, marks exactly these as running, and erases exactly the cancelled entries before the point where it ends: the last key of a full batch, or else the first uncancelled key that is not due |
| TaskMap.CollectFromExact | base/sources/thread/task_scheduler_impl.cpp:223-248 | the batch and the marks from any position of the iterator and any part of a batch |
| TaskMap.ErasedExact | base/sources/thread/task_scheduler_impl.cpp:223-248 | which entries the loop erases, from any position of the iterator and any part of a batch |
| TaskMap.Probe | base/sources/thread/task_scheduler_impl.cpp:104-108 | probing ends at the first free key, over occupied keys only, at most as many steps away as the map has entries |
| TaskScheduler.TaskSchedulerImpl.PostTask | base/sources/thread/task_scheduler_impl.cpp:84-129 | a null request, or one without name, without function or with another version, gives -1 and kInvalidParam and changes nothing; otherwise the next id, and the task at the first free key from the clock plus uDelayUs * 1000 on, by a run of the machine |
| TaskScheduler.TaskSchedulerImpl.FreeKey | base/sources/thread/task_scheduler_impl.cpp:105-108 | the probing loop computes Probe |
| TaskScheduler.TaskSchedulerImpl.CancelTask | base/sources/thread/task_scheduler_impl.cpp:162-180 | success if and only if the id is pending; sets its flag and nothing else, as the Cancel step of the machine |
| TaskScheduler.TaskSchedulerImpl.CollectBatch | base/sources/thread/task_scheduler_impl.cpp:221-249 | the iterating loop with erasure computes Collect |
| TaskScheduler.TaskSchedulerImpl.Rekey | base/sources/thread/task_scheduler_impl.cpp:258-285 | one round of the last loop: with runs left the record moves, running flag cleared, to the first free key from a later clock reading plus uIntervalUs * 1000 on, otherwise it leaves the map as finished; it is the machine's re-key step |
| TaskScheduler.TaskSchedulerImpl.Run | base/sources/thread/task_scheduler_impl.cpp:201-286 | an undisturbed Run executes exactly the batch for a clock reading during the call, each entry once and in key order, and is from beginning to end one Run of the machine, whose effects on the map RunSelects, TasksKept and RekeyEffect fix |
| Framing.ChunksDoNotMatter | network/sources/connection_impl.cpp:359-455 | for a prefix-stable length function, two ways of splitting the same stream into at least one chunk give the same messages and the same verdict on broken data, and, while no broken data was met, the same kept bytes |
| Framing.FeedIsOnePass | network/sources/connection_impl.cpp:411-452 | feeding chunk by chunk gives the messages and verdict of one pass over the whole stream; while not broken also its rest |
| Framing.DeliverMore | network/sources/connection_impl.cpp:361-398 | a pass over more data begins as the pass over less and continues from its rest |
| Framing.DeliverIsCut | network/sources/connection_impl.cpp:361-398 | a pass yields a correct cut: nonempty messages of the length asked for, then a rest without a whole message |
| Framing.CutIsUnique | network/include/callback.h:20-26 | there is only one correct cut of a byte string |
| Framing.DeliverConserves | network/sources/connection_impl.cpp:361-400 | messages plus rest are the data; after success the rest holds no whole message |
| Framing.DeliverVerdict | network/sources/connection_impl.cpp:369-397 | a pass fails if and only if the length function answers UINT32_MAX on the rest, unless the rest is empty because the last message ended the data |
| Framing.FeedVerdict | network/sources/connection_impl.cpp:429-436 | the same for a stream in chunks: broken exactly if the kept bytes are called broken when last asked about |
| Framing.FeedConserves | network/sources/connection_impl.cpp:411-452 | for any length function, delivered plus kept bytes are the received ones |
| Framing.UnstableLengthSeesChunks | network/include/callback.h:20-26 | stability is needed: a concrete unstable length function delivers differently for two splittings |
| Connection.ConnectionImpl.DeliverMessage | network/sources/connection_impl.cpp:359-401 | the loop over the buffer appends messages that with the live bytes left are a correct cut of the data, and returns kInvalidState exactly if the length function answered UINT32_MAX on what is left when last asked |
| Connection.ConnectionImpl.Recv | network/sources/connection_impl.cpp:403-455 | stays within its byte budget and terminates; everything received is delivered or kept; each way to end is tied to its cause and code: not open, budget spent, nothing more to read, end of stream (the code is the number of bytes this call received), broken data (the length function answers UINT32_MAX on the kept bytes, and in no other way of ending behind a delivery), socket error, no memory; the connection stays open exactly in the second and third; every recv but the last brought bytes |
| Connection.ConnectionImpl.RecvOnce | network/sources/connection_impl.cpp:418-442 | one recv and its delivery; capacity at most max(4096, 2 * (received + 1024)) and bytes copied by expansions equal to capacity - 4096 stay true |
| Connection.ConnectionImpl.LiveVerdict | network/sources/connection_impl.cpp:429-436 | between calls, a stream is marked broken exactly if the length function calls the kept bytes broken, unless there are none left to ask about |
| Connection.ConnectionImpl.StreamIsParsed | network/sources/connection_impl.cpp:411-452 | for a stable length function, messages so far and kept bytes are one pass over all bytes received |
| Connection.ConnectionImpl.BytesAreConserved | network/sources/connection_impl.cpp:361-400 | delivered messages plus live bytes are all bytes received; while not broken the buffer holds no whole message |
| ReceiveBuffer.Buffer.Init | network/sources/receive_buffer.h:33-49 | error cases; on success an empty buffer of the capacity asked for |
| ReceiveBuffer.Buffer.Recv | network/sources/receive_buffer.h:51-86 | live bytes grow by exactly what the socket gave; the call is offered all the room there is up to the limit; an answer of zero means the end of the stream unless the buffer or the limit is empty; more than 1024 bytes are free for the call once the capacity exceeds 1024; the buffer grows only when nearly full and by doubling |
| ReceiveBuffer.Buffer.Expand | network/sources/receive_buffer.h:88-108 | compaction and reallocation keep the live bytes, also when memory runs out |
| ReceiveBuffer.Buffer.Compact | network/sources/receive_buffer.h:90-95 | the overlapping move keeps the live bytes and puts them at the start |
| ReceiveBuffer.Buffer.Consume | network/sources/receive_buffer.h:120-129 | drops exactly the given number of live bytes; an empty buffer starts over |

## Left out

- VariableChannel.Channel.New: requires payloads of at most 2^32 - 16 bytes; beyond that the 32-bit entry size wraps (EntryHeader.CalSizeFits).
- VariableChannel.Channel.Post: takes the result of the latest New only, as the interface demands; so does Delete for Get.
- FixedChannel.Channel.Post: takes the result of the latest New only; so does Delete for Get.
- Connection.ConnectionImpl.Recv: requires buffer sizes below 2^31, where doubling still fits 32 bits; the allocator answers by block size, each of which one call asks for at most once.
- ReceiveBuffer.Buffer.Recv: requires a buffer below 2^31 bytes, where doubling still fits 32 bits.
- ReceiveBuffer.Buffer.Expand: requires that the new capacity fits 32 bits; beyond that the source copies more than it allocated.
- Connection.ConnectionImpl.Close: the disconnect event posted to the dispatcher is not modelled; the descriptor counts as closed at once.
- TaskScheduler.TaskSchedulerImpl.Run: the timed wait before collection is left out, as it only delays; the class runs without interference, which the machine covers.
- SendBufferImpl.Buffer.Send: the class shows a call that finds the lock free; spinning on the lock is a step of the machine in SendBuffer.
- The calls of the fixed or variable channel that it always refuses (New without or with a size) only return their error code.
- Counters, the clock and statistics are unbounded naturals: wrap-around of 64-bit values is not modelled.
- Steps are sequentially consistent: fences, ACCESS_ONCE and compiler reordering are not expressible here.
- A header is written in one step of the machine; it lies in bytes only the producer touches.
- A caller may post an already cancelled task record; a preset running flag is not modelled, since nothing reads it.
- The exception path of map insertion, the allocator (except running out of memory), GetStats, Create and Destroy.
- Sockets, epoll, acceptor, engine and dispatcher: system calls. recv is a nondeterministic chunk of a byte stream.
- Callbacks cannot change the connection they are called for.
- Logger, JSON, ITime, threads and the thread manager: wrappers of libraries and of the operating system.
- The multi-producer channel is disabled in the source.
