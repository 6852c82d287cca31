# Verified models of the k2eg gateway

This project states and proves, in Dafny, what the core of the gateway does: the engine of repeating
snapshots, the buffers below it, the MessagePack codec of PV structures, the thread pool and the cron
scheduler everything runs on, the life of stored monitors, the reference counts of monitored channels,
and the merging of PV structures. `dafny verify dfyconfig.toml` checks all of it.

## What is modelled

**Repeating snapshots.** `SnapshotProtocol` is one snapshot as a state machine whose steps are the
sections of a submission task and the passes of the scheduler thread; `SnapshotEngine` puts any number
of snapshots, commands, the scheduler thread and a first-in first-out pool of N workers together. The
lock and the event counters belong to the name of a snapshot, so a snapshot that is started again finds
what tasks of its earlier run have left there.
`SnapshotInvariant`, `SnapshotOrder` and `SnapshotSerial` hold the invariants, `SnapshotTheorems` the
results about every state of every run, `SnapshotProgress` deadlock freedom and the end of every wait.
`SnapshotRaces` has the runs that fail with two workers, `SnapshotRestart` and `SnapshotHangs` say what
a restart can do. `SnapshotDelivery` runs the engine and the buffers of a timed snapshot side by side,
`NormalDelivery` the engine and the cells of a NORMAL one.
The imperative side is `IterationSync` (the iteration lock with its four name-keyed tables),
`IterationGates` (header gate and data drain), `TailCounters` (the string-keyed event counters) and
`SubmissionTask`, which runs the task as the one method it is in the source and is proved to take
exactly the steps of the machine.

**Buffers.** `TimeWindowBuffer` is the growing ring buffer as an array refining a sequence;
`BackTimedBuffer` the two buffers that change places; `BackTimedHistory` plays any history of
additions, passes, stops and triggers over them. `RepeatingSnapshot` is the NORMAL operation.

**Codec.** `PvData` has the types and values, `Msgpack` the packing and unpacking methods against
their specifications, with a decoder for the array and map families of the MessagePack specification;
`MsgpackRoundTrip` proves when a structure comes back, `MsgpackForeign` what is read from objects that
were packed by somebody else.

**Pool and scheduler.** `ThreadPool` models the critical sections of the light thread pool with its two
condition variables; `CronScheduler` the task queue, the running vector and removers that wait for a
running task, and `CronTimes` when tasks run and in which order.

**Monitors and channels.** `MonitorStore` is the row store and the batched iteration both scans use,
`MonitorHistory` what becomes of a monitor when requests and the sections of the purge interleave,
`MonitorLifecycle` the checker and the worker with startup and purge, `ChannelCounts` the counts that
the monitor worker and the snapshot manager share, and `ChannelDestinations` whom a channel serves.

**Merger.** `StructureMerger` builds the merged schema with a field builder and copies the values.

Where the source changes state in place the model is a class or a method with loops, proved equal to a
function on values; the theorems are about those functions.

## Results that differ from what one might expect

- The header of an iteration is not waited for by its tail. `ExactQueueIff` gives the exact condition
  for the exact queue, with the run that breaks it (`TailFirst`).
- finishTask counts down under the mutex and releases the lock after it. A task of the same iteration
  that starts in between makes the lock be released twice, and then iterations overlap
  (`TailMissing`). `AlwaysOrderedIff` says which engines are safe from it. What holds inside an
  iteration - its order, completeness and counts - and the end of every wait do not depend on it.
- A stop is answered before the last task has counted down. A name that is started again by then shares
  its lock with that task, which can take a count of the new run; the lock is then never released and
  the scheduler thread waits for ever, holding the lock on all snapshots (`HangingRun`).
  `RestartIsSafeIff` says when that cannot happen. The results about order, the queue and the end of
  waits hold for operations that are not disturbed in this way; order inside an iteration, completeness
  and the single answer to a stop hold for all.
- With two workers a TIMED_BUFFERED snapshot can publish a header after its stop was answered
  (`HeaderAfterStop`, with `AlwaysSilentIff`).
- A poll task checks the count of its channel and erases the entry later without looking again. A claim
  in between is lost with the entry (`ChannelLost`); `AgreementIff` is the exact condition. Claims that
  are given up again before the erasure do no harm.
- The name of a task that completes while its remover waits stays marked, and stops a later task of
  that name (`StaleNameStopsNewTask`). `MarkedIff` says when a name is marked and `RunsAgainIff` which
  tasks that stops.
- A batch of the monitor iteration reports more than the rows it handled when it leaves names
  unfinished; the value is 0 exactly when nothing is pending.
- A repeated monitor request in a serialization that is already configured does not reset the purge
  timestamp (`RepeatedRequestIgnored`, with `StopIff` as the exact condition). A request in a new one is
  overlooked if it comes between the read of the row and the decision (`RequestLost`), or between a
  decision and its stamping (`RequestStampedOver`); `StopIsDueIff` says that nothing else goes wrong. A
  monitor requested in two serializations and purged is not stored again by a request in the second
  (`RequestNotStored`, with `NotStoredIff`).
- A negative purge timeout changes nothing (`SetPurgeTimeout`).
- A short array with a negative element does not survive its own packing (`NegativeShortFails`); an
  undefined union survives as a field of a structure but not inside a union or an array of unions
  (`RoundTripIff`).
- The sub-window default is 1000 ms as in the code; comments in the source that speak of 100 ms are not
  followed.

## Model

| member | source | states |
|---|---|---|
| SnapshotTheorems.OrderWithinIterations | src/k2eg/controller/node/worker/snapshot/ContinuousSnapshotManager.cpp:573-639 | For any number of workers and any interleaving, inside each iteration: a data message has its header before it, no data follows the tail, headers and tails are not repeated |
| SnapshotTheorems.OrderUnlessRushed | src/k2eg/controller/node/worker/snapshot/ContinuousSnapshotManager.cpp:644-753 | The whole order, with the tail of k before every message of iteration k + 1, holds in every run as long as no task of the snapshot has started between a count-down to zero and the end of that finishTask, and no task of an earlier run of the name has touched its lock |
| SnapshotTheorems.NeverRushed | src/k2eg/controller/node/worker/snapshot/ContinuousSnapshotManager.cpp:692-712 | With one worker, or for a NORMAL snapshot that no earlier run of its name disturbs, no task ever starts in that gap |
| SnapshotTheorems.AlwaysOrderedIff | src/k2eg/controller/node/worker/snapshot/ContinuousSnapshotManager.cpp:692-753 | Every undisturbed operation keeps the order between iterations in every run if and only if there is one worker or the snapshot is NORMAL |
| SnapshotRaces.TailMissing | src/k2eg/controller/node/worker/snapshot/ContinuousSnapshotManager.cpp:705-709 | The run behind the other half: a task starts in the gap of finishTask, the lock is released twice, and the header of iteration 3 is published without the tail of iteration 2 |
| SnapshotHangs.RestartIsSafeIff | src/k2eg/controller/node/worker/snapshot/ContinuousSnapshotManager.cpp:631-712 | A name started again over unfinished tasks of iteration e of its earlier run never leaves the scheduler thread waiting with nothing left to happen, in any run and however it goes on, if and only if there is one worker and e is not 1 |
| SnapshotHangs.HangingRun | src/k2eg/controller/node/worker/snapshot/ContinuousSnapshotManager.cpp:644-676 | The run behind the other half, for one worker and e = 1, and for more workers and any e: restarted in time, the late task takes the count of the new iteration e, its lock is held for ever, and no step of the engine is possible any more |
| SnapshotRestart.LateFinishIff | src/k2eg/controller/node/worker/snapshot/ContinuousSnapshotManager.cpp:692-712 | With one worker, in any run, the late task of an earlier run changes the lock of the new run exactly if it was of iteration 1 and the first iteration of the new run has begun |
| SnapshotRestart.DisturbedIsBlocked | src/k2eg/controller/node/worker/snapshot/ContinuousSnapshotManager.cpp:655-667 | And from then on no iteration of that name can be acquired |
| SnapshotTheorems.CompleteAtTails | src/k2eg/controller/node/worker/snapshot/ContinuousSnapshotManager.cpp:603-625 | When a tail is out, every submission of its iteration is in the queue, event for event, in any run with any number of workers |
| SnapshotTheorems.ExactQueue | src/k2eg/controller/node/worker/snapshot/ContinuousSnapshotManager.cpp:434-753 | With one worker, or for NORMAL snapshots no earlier run disturbs, the queue is always a prefix of header(1) data* tail(1) header(2) ... built from the submitted batches, with consecutive ids |
| SnapshotTheorems.ExactQueueIff | src/k2eg/controller/node/worker/snapshot/ContinuousSnapshotManager.cpp:617-636 | Every undisturbed operation keeps that exact order in every run if and only if there is one worker or the snapshot is NORMAL |
| SnapshotRaces.TailFirst | src/k2eg/controller/node/worker/snapshot/SnapshotOpInfo.cpp:134-154 | The run behind the other half of ExactQueueIff: with two workers a TIMED_BUFFERED iteration without data reaches every section of its tail, up to the published tail, before its header starts |
| SnapshotTheorems.CountsAtTail | src/k2eg/controller/node/worker/snapshot/ContinuousSnapshotManager.cpp:603-625 | The count a tail logs is the number of data messages of its iteration, and by then its counter and its gate are gone; after the answer to a stop, when the name may be in use again, that holds of what was logged unless a start was rushed |
| SnapshotTheorems.AloneIsUndisturbed | src/k2eg/controller/node/worker/snapshot/ContinuousSnapshotManager.cpp:679-753 | An operation whose name no other has is never disturbed, and its counts are its own |
| SnapshotTheorems.IdsResolved | src/k2eg/controller/node/worker/snapshot/ContinuousSnapshotManager.cpp:498-516 | Every submission in the pool carries the id of the latest header before it, never 0, so the fallback and the skip for id 0 are not reached |
| SnapshotTheorems.StopIsLast | src/k2eg/controller/node/worker/snapshot/ContinuousSnapshotManager.cpp:467-490 | In any run, after a stop exactly one more submission is collected, by the pass that takes the snapshot off the list; it is the last, carries the tail, and no other is marked last |
| SnapshotTheorems.PassAfterStop | src/k2eg/controller/node/worker/snapshot/ContinuousSnapshotManager.cpp:467-490 | That pass hands over all the events it collected |
| SnapshotTheorems.StopAnswered | src/k2eg/controller/node/worker/snapshot/ContinuousSnapshotManager.cpp:631-635 | In any run the stop is answered at most once, and then the last tail and all data of the last iteration are out; all tails and all data if no start was rushed and no earlier run interfered; and an exact queue is complete |
| SnapshotTheorems.SilentAfterStop | src/k2eg/controller/node/worker/snapshot/ContinuousSnapshotManager.cpp:360-405 | After the answer nothing is published for the snapshot any more, with one worker or for an undisturbed NORMAL snapshot |
| SnapshotTheorems.AlwaysSilentIff | src/k2eg/controller/node/worker/snapshot/ContinuousSnapshotManager.cpp:360-405 | Every undisturbed operation is silent after the answer in every run if and only if there is one worker or the snapshot is NORMAL |
| SnapshotRaces.HeaderAfterStop | src/k2eg/controller/node/worker/snapshot/ContinuousSnapshotManager.cpp:631-635 | The run behind the other half: the last tail overtakes its header and answers the stop, and then the header is published |
| SnapshotProgress.EarliestMoves | src/k2eg/controller/node/worker/snapshot/SnapshotOpInfo.cpp:79-100 | The earliest unfinished task is never blocked: its worker can take its next step, unless that waits for a mutex that another worker holds and can give back; or it is next in the pool queue and every worker is free to take it |
| SnapshotProgress.NoDeadlock | src/k2eg/controller/node/worker/snapshot/ContinuousSnapshotManager.cpp:498-529 | In every reachable state, with at least one worker, the pool is done with all submissions or can take a step |
| SnapshotProgress.PoolStepDecreases | src/k2eg/common/BS_thread_pool.hpp:1986-2023 | Every step of the pool decreases a natural number |
| SnapshotProgress.PoolStepsEnd | src/k2eg/common/BS_thread_pool.hpp:1986-2023 | From any reachable state the steps of the pool run out within the measure, however the workers are scheduled |
| SnapshotProgress.SchedulerIsReleased | src/k2eg/controller/node/worker/snapshot/ContinuousSnapshotManager.cpp:644-676 | A scheduler thread waiting for an iteration is released: when the pool has no step left, the scheduler can go on, unless a task of an earlier run of the name has changed the lock |
| SnapshotProgress.StopIsAnswered | src/k2eg/controller/node/worker/snapshot/ContinuousSnapshotManager.cpp:388-400 | When the last submission of a stopped snapshot is in the pool and the pool has run dry, the promise is set |
| SnapshotProgress.StopCanBeAnswered | src/k2eg/controller/node/worker/snapshot/ContinuousSnapshotManager.cpp:388-400 | From every reachable state after a stop in which no restart is in conflict with an earlier run, pool steps and at most three actions of the scheduler thread lead to the promise |
| SnapshotDelivery.ExactDelivery | src/k2eg/controller/node/worker/snapshot/ContinuousSnapshotManager.cpp:573-625 | The events in an exact queue are the first of the events of the submissions, in order, and all of them once the stop is answered |
| SnapshotDelivery.PassCollects | src/k2eg/controller/node/worker/snapshot/ContinuousSnapshotManager.cpp:451-490 | A pass over an operation of any kind, running or stopped, collects one submission with exactly the events it was given; a NORMAL one with all three parts |
| SnapshotDelivery.SubmissionsArePasses | src/k2eg/controller/node/worker/snapshot/ContinuousSnapshotManager.cpp:451-529 | In any run the submissions of an operation are the event lists of the passes over it, one each and in order, up to the pool |
| SnapshotDelivery.PassesDelivered | src/k2eg/controller/node/worker/snapshot/ContinuousSnapshotManager.cpp:451-625 | So an exact queue publishes the first of the events the passes were given, and all of them once the stop is answered |
| NormalDelivery.LatestDelivered | src/k2eg/controller/node/worker/snapshot/SnapshotRepeatingOpInfo.cpp:30-65 | Engine and cells of a NORMAL snapshot side by side, whatever events arrive and when: the queue is header, report, tail of iteration after iteration, and report k has, of each PV with an event by pass k, the latest one, and nothing else |
| SnapshotDelivery.TimedDelivery | src/k2eg/controller/node/worker/snapshot/BackTimedBufferedSnapshotOpInfo.cpp:66-191 | Engine and buffers side by side, one getData a pass, one worker: if the buffers are polled often enough the data messages in the queue are the first of all events pushed into them, nothing lost, repeated or reordered, and after the answer to a stop all that was collected |
| SnapshotDelivery.StaysInStep | src/k2eg/controller/node/worker/snapshot/ContinuousSnapshotManager.cpp:434-490 | In any run of the two the submissions of the snapshot are the batches its buffers have delivered |
| SnapshotEngine.RunInv | src/k2eg/controller/node/worker/snapshot/ContinuousSnapshotManager.cpp:434-753 | Every state of every run, restarts over unfinished tasks included, satisfies the whole invariant: bracketing, lock, gates, queue, counters, pool |
| SnapshotEngine.OneWorkerInTurn | src/k2eg/controller/node/worker/snapshot/ContinuousSnapshotManager.cpp:524-529 | With one worker the running task is the next one of its snapshot |
| SnapshotInvariant.CollectedInv | src/k2eg/controller/node/worker/snapshot/ContinuousSnapshotManager.cpp:451-490 | Collecting a submission keeps the invariant of the operation |
| SnapshotInvariant.AdmittedInv | src/k2eg/controller/node/worker/snapshot/ContinuousSnapshotManager.cpp:498-529 | Resolving the iteration id, setting up the gates and handing the task over keeps it |
| SnapshotInvariant.SteppedInv | src/k2eg/controller/node/worker/snapshot/ContinuousSnapshotManager.cpp:573-639 | Every section of a task keeps it, the count-down of finishTask and its look at the tail mark being two of them |
| SnapshotInvariant.SteppedTableOfLock | src/k2eg/controller/node/worker/snapshot/ContinuousSnapshotManager.cpp:679-753 | Every section keeps the tables of the synchronizer, rushed or not: the counter of each iteration is its active tasks, its mark says that its tail is processed, and one that is due has a release on its way |
| SnapshotInvariant.LockRelease | src/k2eg/controller/node/worker/snapshot/ContinuousSnapshotManager.cpp:733-753 | Releasing the lock frees exactly the iteration whose tail is processed and whose tasks are done |
| SnapshotInvariant.OrderKept | src/k2eg/controller/node/worker/snapshot/SnapshotOpInfo.cpp:79-154 | The two waits keep data behind its header and the tail behind the data |
| SnapshotOrder.CompleteAtTail | src/k2eg/controller/node/worker/snapshot/SnapshotOpInfo.cpp:134-154 | A tail past its drain has every data submission of its iteration published |
| SnapshotOrder.TallyStep | src/k2eg/controller/node/worker/snapshot/ContinuousSnapshotManager.cpp:55-73 | The counters match the events of the finished batches after every section |
| SnapshotSerial.SerialIsExact | src/k2eg/controller/node/worker/snapshot/ContinuousSnapshotManager.cpp:573-639 | Tasks that run one after another publish a prefix of the ideal queue of their batches |
| SnapshotSerial.WholeIsIdeal | src/k2eg/controller/node/worker/snapshot/ContinuousSnapshotManager.cpp:498-516 | Bracketed submissions, all published in turn, and the messages still missing make the ideal queue |
| IterationSync.SnapshotIterationSynchronizer.CanAcquire | src/k2eg/controller/node/worker/snapshot/ContinuousSnapshotManager.cpp:655-667 | The wait predicate is that no iteration of the name is in progress |
| IterationSync.SnapshotIterationSynchronizer.AcquireIteration | src/k2eg/controller/node/worker/snapshot/ContinuousSnapshotManager.cpp:644-676 | Next id, iteration in progress, new task counter; other names untouched |
| IterationSync.SnapshotIterationSynchronizer.StartTask | src/k2eg/controller/node/worker/snapshot/ContinuousSnapshotManager.cpp:679-689 | One more active task of a known iteration; other names untouched |
| IterationSync.SnapshotIterationSynchronizer.FinishTask | src/k2eg/controller/node/worker/snapshot/ContinuousSnapshotManager.cpp:692-712 | One less, and whether this was the last task after the tail |
| IterationSync.SnapshotIterationSynchronizer.MarkTailProcessed | src/k2eg/controller/node/worker/snapshot/ContinuousSnapshotManager.cpp:715-729 | Only the mark of that iteration changes |
| IterationSync.SnapshotIterationSynchronizer.ReleaseLock | src/k2eg/controller/node/worker/snapshot/ContinuousSnapshotManager.cpp:733-753 | The iteration is over and forgotten, unless the snapshot is gone |
| IterationSync.SnapshotIterationSynchronizer.RemoveSnapshot | src/k2eg/controller/node/worker/snapshot/ContinuousSnapshotManager.cpp:756-773 | All four tables read as for a name never seen |
| IterationGates.IterationGateTable.BeginHeaderGate | src/k2eg/controller/node/worker/snapshot/SnapshotOpInfo.cpp:42-54 | A closed gate that keeps its pending count |
| IterationGates.IterationGateTable.CompleteHeaderGate | src/k2eg/controller/node/worker/snapshot/SnapshotOpInfo.cpp:56-77 | The gate opens; unknown ids are ignored |
| IterationGates.IterationGateTable.DataScheduled | src/k2eg/controller/node/worker/snapshot/SnapshotOpInfo.cpp:102-113 | One more pending batch, creating the gate if needed |
| IterationGates.IterationGateTable.DataCompleted | src/k2eg/controller/node/worker/snapshot/SnapshotOpInfo.cpp:115-132 | One less |
| IterationGates.IterationGateTable.ForgetIteration | src/k2eg/controller/node/worker/snapshot/SnapshotOpInfo.cpp:149-153 | After the drain the gate is erased |
| SubmissionTask.SnapshotTaskRunner.Run | src/k2eg/controller/node/worker/snapshot/ContinuousSnapshotManager.cpp:573-639 | Run without interleaving, the task leaves tables, queue, counters and promise exactly as the steps of the state machine do, ends done, and touches no other name |
| SubmissionTask.SnapshotTaskRunner.HeaderSection | src/k2eg/controller/node/worker/snapshot/ContinuousSnapshotManager.cpp:594-601 | Header published and gate opened, as the two steps say |
| SubmissionTask.SnapshotTaskRunner.PublishData | src/k2eg/controller/node/worker/snapshot/SnapshotOpInfo.cpp:207-230 | One message per event, in order, as the steps say; the count is the number of events |
| SubmissionTask.SnapshotTaskRunner.DataSection | src/k2eg/controller/node/worker/snapshot/ContinuousSnapshotManager.cpp:603-615 | As the steps of the data section, with the batch counted and taken off the gate |
| SubmissionTask.SnapshotTaskRunner.PublishTail | src/k2eg/controller/node/worker/snapshot/ContinuousSnapshotManager.cpp:617-625 | As the steps that drain, log the count and publish the tail |
| SubmissionTask.SnapshotTaskRunner.CloseIteration | src/k2eg/controller/node/worker/snapshot/ContinuousSnapshotManager.cpp:629-635 | As the steps that mark the iteration, remove the snapshot and set the promise |
| SubmissionTask.SnapshotTaskRunner.Finish | src/k2eg/controller/node/worker/snapshot/ContinuousSnapshotManager.h:107-110 | As the last steps: count down, release if it was the last |
| TailCounters.KeysNeverCollide | src/k2eg/controller/node/worker/snapshot/ContinuousSnapshotManager.cpp:50-53 | Two counter keys are equal exactly if snapshot name and iteration are |
| TailCounters.TailEventCounters.AddEvents | src/k2eg/controller/node/worker/snapshot/ContinuousSnapshotManager.cpp:55-61 | The counter of that iteration grows by the count; a zero count leaves no entry; all others stay |
| TailCounters.TailEventCounters.TakeEvents | src/k2eg/controller/node/worker/snapshot/ContinuousSnapshotManager.cpp:63-73 | The count, or 0; its entry is gone; all others stay |
| TimeWindowBuffer.KeepsTheWindow | src/k2eg/common/TimeWindowEventBuffer.h:51-77 | Through pushes in time order, fetches, growth and resets the buffer holds exactly what was pushed since the last reset within the window of the last push, in order |
| TimeWindowBuffer.TimeWindowEventBuffer.Push | src/k2eg/common/TimeWindowEventBuffer.h:51-68 | Prune, then append, on the abstract sequence; growth and wrap-around are invisible |
| TimeWindowBuffer.TimeWindowEventBuffer.Store | src/k2eg/common/TimeWindowEventBuffer.h:59-67 | Append at the tail; the branch that overwrites the oldest entry is dead |
| TimeWindowBuffer.TimeWindowEventBuffer.PruneOldIfNeeded | src/k2eg/common/TimeWindowEventBuffer.h:103-110 | Drops the longest prefix that is older than the window |
| TimeWindowBuffer.TimeWindowEventBuffer.ExpandBuffer | src/k2eg/common/TimeWindowEventBuffer.h:112-123 | A larger array with the same contents in order |
| TimeWindowBuffer.TimeWindowEventBuffer.FetchWindow | src/k2eg/common/TimeWindowEventBuffer.h:70-77 | All events, oldest first |
| TimeWindowBuffer.TimeWindowEventBuffer.FetchMapped | src/k2eg/common/TimeWindowEventBuffer.h:79-93 | The mapped events that are not dropped, oldest first |
| TimeWindowBuffer.TimeWindowEventBuffer.Reset | src/k2eg/common/TimeWindowEventBuffer.h:95-100 | Empty, at the original size |
| BackTimedBuffer.FastExpireInWindow | src/k2eg/controller/node/worker/snapshot/BackTimedBufferedSnapshotOpInfo.cpp:15-40 | For a positive window the sub-window is positive and no longer than the window |
| BackTimedBuffer.BackTimedBufferedSnapshotOpInfo.constructor | src/k2eg/controller/node/worker/snapshot/BackTimedBufferedSnapshotOpInfo.cpp:12-41 | Two empty buffers of the window, and the sub-window of the specification |
| BackTimedBuffer.BackTimedBufferedSnapshotOpInfo.IsTimeout | src/k2eg/controller/node/worker/snapshot/BackTimedBufferedSnapshotOpInfo.cpp:66-116 | Answer, swap, window flags and silent lists as the specification says, in timed and triggered mode |
| BackTimedBuffer.BackTimedBufferedSnapshotOpInfo.SnapshotTimeout | src/k2eg/controller/node/worker/snapshot/SnapshotOpInfo.cpp:16-38 | The full-window test: stopped, triggered or timed |
| BackTimedBuffer.BackTimedBufferedSnapshotOpInfo.AddData | src/k2eg/controller/node/worker/snapshot/BackTimedBufferedSnapshotOpInfo.cpp:118-136 | The event joins the acquiring buffer and its PV is no longer silent |
| BackTimedBuffer.BackTimedBufferedSnapshotOpInfo.GetData | src/k2eg/controller/node/worker/snapshot/BackTimedBufferedSnapshotOpInfo.cpp:138-191 | The events of the processing buffer, with their fields filtered if a field list is given, and the parts the flags imply; the buffer is emptied |
| BackTimedBuffer.FilterKeepsAll | src/k2eg/controller/node/worker/snapshot/BackTimedBufferedSnapshotOpInfo.cpp:154-166 | Filtering fields drops and reorders no event |
| TimeWindowBuffer.MappedInPlace | src/k2eg/common/TimeWindowEventBuffer.h:79-93 | Every event gives its value in its place, or nothing if it is dropped |
| BackTimedBuffer.BackTimedBufferedSnapshotOpInfo.GetPVsWithoutEvents | src/k2eg/controller/node/worker/snapshot/BackTimedBufferedSnapshotOpInfo.cpp:200-218 | The list kept at the last full window, once, otherwise the PVs silent so far |
| BackTimedHistory.Conservation | src/k2eg/controller/node/worker/snapshot/BackTimedBufferedSnapshotOpInfo.cpp:66-191 | Every batch is a suffix of what was pushed between two swaps, so nothing is delivered twice or out of order; delivered plus pending equals pushed exactly if no period between swaps is longer than the window |
| BackTimedHistory.LosslessWhenFrequent | src/k2eg/controller/node/worker/snapshot/BackTimedBufferedSnapshotOpInfo.cpp:82-116 | If passes come at most a gap apart and sub-window plus gap fit the window, nothing is lost |
| BackTimedHistory.PassIff | src/k2eg/controller/node/worker/snapshot/BackTimedBufferedSnapshotOpInfo.cpp:66-191 | What every pass does, in any history, by clock readings alone: a stopped operation gives a batch with a tail; a running one ends its window, with a tail, exactly after a trigger, or in timed mode when more than the window has passed since the last tail; in timed mode a batch without a tail comes exactly when a sub-window has passed since the last batch; a header exactly on the first batch and after a tail |
| BackTimedHistory.WindowsApart | src/k2eg/controller/node/worker/snapshot/SnapshotOpInfo.cpp:16-38 | The tails of a running timed operation lie more than the window apart |
| BackTimedHistory.SilentReport | src/k2eg/controller/node/worker/snapshot/BackTimedBufferedSnapshotOpInfo.cpp:193-218 | The reported list is exactly the PVs of init not heard since the last full window, or since init in triggered mode |
| RepeatingSnapshot.SnapshotRepeatingOpInfo.InitPvs | src/k2eg/controller/node/worker/snapshot/SnapshotRepeatingOpInfo.cpp:13-21 | An empty cell for every PV |
| RepeatingSnapshot.SnapshotRepeatingOpInfo.AddData | src/k2eg/controller/node/worker/snapshot/SnapshotRepeatingOpInfo.cpp:30-43 | The event counts unless a collection is under way or the PV is not one of the snapshot |
| RepeatingSnapshot.SnapshotRepeatingOpInfo.GetData | src/k2eg/controller/node/worker/snapshot/SnapshotRepeatingOpInfo.cpp:45-65 | Exactly the last accepted event of every PV that has one, each PV once, with all three parts |
| RepeatingSnapshot.StaysLatest | src/k2eg/controller/node/worker/snapshot/SnapshotRepeatingOpInfo.cpp:30-65 | An event is handed over again until a later one of its PV is accepted |
| Msgpack.EpicsToMsgpack | src/k2eg/service/epics/MsgpackEpicsConverter.cpp:17-27 | The loop emits the token sequence of the structure |
| Msgpack.PackField | src/k2eg/service/epics/MsgpackEpicsConverter.cpp:29-130 | Every kind of field is appended as its specification says, short arrays as unsigned |
| Msgpack.PackUnion | src/k2eg/service/epics/MsgpackEpicsConverter.cpp:107-126 | A map of one entry: the selected name and its value |
| Msgpack.MsgpackToEpics | src/k2eg/service/epics/MsgpackEpicsConverter.cpp:132-153 | Filling the defaults from the entries in order, unknown names skipped |
| Msgpack.UnpackMsgpackToPVField | src/k2eg/service/epics/MsgpackEpicsConverter.cpp:165-295 | The value, null or failure the specification gives |
| Msgpack.UnpackScalars | src/k2eg/service/epics/MsgpackEpicsConverter.cpp:193-229 | Element by element; any other object gives an empty array |
| Msgpack.UnpackStructs | src/k2eg/service/epics/MsgpackEpicsConverter.cpp:235-247 | Element by element |
| Msgpack.UnpackUnion | src/k2eg/service/epics/MsgpackEpicsConverter.cpp:248-265 | Null for anything but a map of one known name |
| Msgpack.UnpackUnions | src/k2eg/service/epics/MsgpackEpicsConverter.cpp:266-293 | Entries that are not a map of one known name are dropped |
| MsgpackRoundTrip.PackedDecodes | src/k2eg/service/epics/MsgpackEpicsConverter.cpp:17-130 | The packed structure followed by any rest decodes to one object and leaves exactly the rest |
| MsgpackRoundTrip.RoundTripIff | src/k2eg/service/epics/MsgpackEpicsConverter.cpp:132-295 | Pack, decode, unpack under the same schema gives the structure back exactly if no short array has a negative element and a union is undefined at most as a field of a structure |
| MsgpackRoundTrip.FieldBack | src/k2eg/service/epics/MsgpackEpicsConverter.cpp:165-295 | The same for one field of any kind |
| MsgpackRoundTrip.NegativeShortFails | src/k2eg/service/epics/MsgpackEpicsConverter.cpp:76-76 | A short array with a negative element: unpacking its own packing fails |
| MsgpackForeign.FilledIff | src/k2eg/service/epics/MsgpackEpicsConverter.cpp:132-153 | A map with entries in any order, some unknown, some twice: it is read exactly if all keys are strings and what it has for each member can be read, and then a field has the last value given for it, or its default |
| MsgpackForeign.MissingIsZero | src/k2eg/service/epics/MsgpackEpicsConverter.cpp:132-153 | A scalar member with no entry is false, zero or empty |
| MsgpackForeign.UnknownEntryIgnored | src/k2eg/service/epics/MsgpackEpicsConverter.cpp:140-150 | An entry for no member changes nothing, wherever it is |
| MsgpackForeign.ScalarReadAs | src/k2eg/service/epics/MsgpackEpicsConverter.cpp:165-192 | A scalar packed as one type and read as another: integers if in range, integers as floating-point values, the other width, otherwise failure |
| MsgpackForeign.NullUnionIff | src/k2eg/service/epics/MsgpackEpicsConverter.cpp:248-265 | A union reads as null exactly for anything but a map of one entry, or one entry of an unknown name |
| MsgpackForeign.NullElementDropped | src/k2eg/service/epics/MsgpackEpicsConverter.cpp:266-293 | Such an element of an array of unions is left out, the others stay in order |
| MsgpackForeign.OtherShapes | src/k2eg/service/epics/MsgpackEpicsConverter.cpp:132-229 | Anything but an array reads as an empty array of scalars, anything but a map as a structure of defaults |
| ThreadPool.InvAfter | src/k2eg/common/BS_thread_pool.hpp:1986-2023 | Every step keeps: running count, first-in first-out, each started job in one place, no lost wake-up, no lost end |
| ThreadPool.StartedInOrder | src/k2eg/common/BS_thread_pool.hpp:1948-1957 | Jobs start in submission order; each started job runs on exactly one worker or is done |
| ThreadPool.NoJobLost | src/k2eg/common/BS_thread_pool.hpp:1416-1427 | In any run the pool has started or queued exactly the jobs submitted, in that order, and each is followed by one notification |
| ThreadPool.WaitReturnsWhenAllDone | src/k2eg/common/BS_thread_pool.hpp:1787-1807 | When wait returns every job submitted so far has run to its end, those submitted by jobs included |
| ThreadPool.QuietIsDone | src/k2eg/common/BS_thread_pool.hpp:1986-2023 | When the pool can do nothing by itself any more, all jobs are done and no caller of wait is left asleep |
| ThreadPool.OwnStepDecreases | src/k2eg/common/BS_thread_pool.hpp:1986-2023 | The steps of the pool by itself come to an end |
| ThreadPool.CreatedInv | src/k2eg/common/BS_thread_pool.hpp:1900-1907 | A new pool counts every thread as running |
| ThreadPool.ThreadPool.DetachTask | src/k2eg/common/BS_thread_pool.hpp:1416-1427 | The job joins the end of the queue and owes one notification |
| ThreadPool.ThreadPool.PopTask | src/k2eg/common/BS_thread_pool.hpp:1948-1957 | The oldest job |
| ThreadPool.ThreadPool.LookForWork | src/k2eg/common/BS_thread_pool.hpp:1989-2012 | Count out, tell the waiter if that was the last, then take the oldest job or sleep |
| ThreadPool.ThreadPool.CheckDone | src/k2eg/common/BS_thread_pool.hpp:1787-1807 | Returns exactly if nothing is queued or running, and then every job is done |
| ThreadPool.ThreadPool.WakeUp | src/k2eg/common/BS_thread_pool.hpp:2007-2012 | A woken worker takes the oldest job, or goes back to sleep; the invariant of the pool holds again |
| CronScheduler.TasksInOnePlace | src/k2eg/service/scheduler/Scheduler.cpp:112-180 | In any run a task is queued, held by one thread, completed or removed: in exactly one of these places |
| CronScheduler.RemoveReturns | src/k2eg/service/scheduler/Scheduler.cpp:76-110 | When removal returns no task of the name is queued; one is running exactly if one was queued and another running; the result says whether one was queued; the name stays marked exactly if nothing was erased and it was marked |
| CronScheduler.SafeRemoval | src/k2eg/service/scheduler/Scheduler.cpp:76-180 | After such a return, and until one of that name is added, none is queued or running and no handler of that name is entered, in any interleaving |
| CronScheduler.RemoversAreAnswered | src/k2eg/service/scheduler/Scheduler.cpp:88-106 | A remover sleeps only while a thread has a task in hand or is about to notify |
| CronScheduler.MarkedIff | src/k2eg/service/scheduler/Scheduler.cpp:76-110 | In any run a name is marked for removal exactly if some removal of it has gone to wait and none has erased a task since |
| CronScheduler.RunsAgainIff | src/k2eg/service/scheduler/Scheduler.cpp:153-167 | In any run a task that comes back is flagged, never to run again, exactly if a removal of its name has gone to wait and none has erased a task since |
| CronScheduler.FlaggedNeverRuns | src/k2eg/service/scheduler/Task.cpp:11-13 | A task once flagged is never entered again |
| CronScheduler.NameLeftBehind | src/k2eg/service/scheduler/Scheduler.cpp:88-106 | A run in which the task completes while its remover waits: the name stays marked |
| CronScheduler.StaleNameStopsNewTask | src/k2eg/service/scheduler/Scheduler.cpp:160-167 | In its continuation a new task of that name runs once and is then flagged, though nobody asks for its removal |
| CronTimes.PickedIff | src/k2eg/service/scheduler/Scheduler.cpp:125-141 | In any run a thread takes a task exactly if it is not flagged, its time has come, and no task queued before it is due; its time is the one last set: the start time, the next cron time, at once if it asked for that, or a minute after its handler threw |
| CronTimes.TakeTurns | src/k2eg/service/scheduler/Scheduler.cpp:125-165 | A task that comes back is not taken again before a due task that was queued by then |
| CronTimes.CompletedIff | src/k2eg/service/scheduler/Task.cpp:28-46 | A task that comes back is over exactly if its handler has marked it completed, also if it threw; otherwise it goes to the end of the queue |
| CronScheduler.Scheduler.AddTask | src/k2eg/service/scheduler/Scheduler.cpp:63-74 | To the front of the queue |
| CronScheduler.Scheduler.EraseNamed | src/k2eg/service/scheduler/Scheduler.cpp:84-88 | What is kept and what is taken, in order |
| CronScheduler.Scheduler.FindRunning | src/k2eg/service/scheduler/Scheduler.cpp:91-96 | Whether a thread holds a task of that name |
| CronScheduler.Scheduler.RemoveRound | src/k2eg/service/scheduler/Scheduler.cpp:82-109 | One round: erase, or mark and wait, or give up |
| CronScheduler.Scheduler.PickTask | src/k2eg/service/scheduler/Scheduler.cpp:125-141 | The first queued task that is due, and none if none is |
| CronScheduler.Scheduler.FinishTask | src/k2eg/service/scheduler/Scheduler.cpp:148-167 | Completed, or back to the end of the queue, flagged if marked |
| MonitorStore.NodeConfiguration.Insert | src/k2eg/service/data/repository/ChannelRepository.cpp:13-39 | A new row at the end for a new pair; otherwise its row counts one more request and loses its purge timestamp; all other rows stay |
| MonitorStore.NodeConfiguration.AddChannelMonitor | src/k2eg/controller/node/configuration/NodeConfiguration.cpp:64-90 | The exact rows and settings: a configured setting leaves the rows alone; any other is configured, and its pair inserted |
| MonitorStore.NodeConfiguration.NextToProcess | src/k2eg/service/data/repository/ChannelRepository.cpp:72-83 | The first unprocessed row of the name |
| MonitorStore.NodeConfiguration.DistinctNames | src/k2eg/service/data/repository/ChannelRepository.cpp:85-92 | Every name once |
| MonitorStore.NodeConfiguration.Visit | src/k2eg/controller/node/configuration/NodeConfiguration.cpp:145-162 | The handler, the stamp, the removal from store and configuration, and the processed mark |
| MonitorStore.NodeConfiguration.IterateName | src/k2eg/controller/node/configuration/NodeConfiguration.cpp:140-163 | The first pending rows of a name up to the limit; an unfinished name counts once more |
| MonitorStore.NodeConfiguration.IterateForAction | src/k2eg/controller/node/configuration/NodeConfiguration.cpp:132-168 | Exactly the first k rows of the backlog are visited, in order; the result is their number plus the number of names left unfinished |
| MonitorStore.NodeConfiguration.ResetAll | src/k2eg/controller/node/configuration/NodeConfiguration.cpp:170-178 | No row is processed, nothing else changes |
| MonitorHistory.StopIff | src/k2eg/controller/node/worker/monitor/MonitorChecker.cpp:70-151 | In any history of requests and sections of visits, a visit stops a stored monitor exactly if it finds no subscriber and the monitor had been idle, since a stamp further back than the timeout now in force, when the visit read its row; requests in configured serializations do not count |
| MonitorHistory.StopIsDueIff | src/k2eg/controller/node/configuration/NodeConfiguration.cpp:140-163 | That is exactly the monitors found idle for longer than the timeout up to the decision, except that a monitor is also stopped if a new request fell between read and decision of this visit, or between decision and stamping of the visit that stamped it |
| MonitorHistory.StampFollows | src/k2eg/controller/node/worker/monitor/MonitorChecker.cpp:86-117 | The timestamp is reset exactly if some group that is not excluded has a subscriber, set to the clock exactly if none has and there was none, and otherwise left |
| MonitorHistory.SubscriberKeeps | src/k2eg/controller/node/worker/monitor/MonitorChecker.cpp:86-99 | One group that is not excluded and has a subscriber: no stop, no removal, the timestamp taken back |
| MonitorHistory.DecisionDoes | src/k2eg/controller/node/worker/monitor/MonitorChecker.cpp:109-131 | A visit broadcasts that stop or nothing, and takes the row exactly with it, unless removing throws |
| MonitorHistory.RequestLost | src/k2eg/controller/node/worker/monitor/MonitorChecker.cpp:76-114 | The history of the first gap: a request in a new serialization comes after the row was read; the monitor is stopped and its row removed |
| MonitorHistory.RequestStampedOver | src/k2eg/controller/node/configuration/NodeConfiguration.cpp:147-156 | The history of the second gap: the request takes the stamp back before it is put |
| MonitorHistory.StampIs | src/k2eg/service/data/repository/ChannelRepository.cpp:134-157 | A stored monitor has a purge timestamp exactly if a visit found it without subscribers and nothing has spoken for it since, and it is the clock of that visit |
| MonitorHistory.NotStoredIff | src/k2eg/controller/node/configuration/NodeConfiguration.cpp:64-107 | In any history a serialization is configured for a monitor that is not stored exactly if a purge took the row of another serialization and no request in a new one has come since |
| MonitorHistory.RepeatedRequestIgnored | src/k2eg/controller/node/configuration/NodeConfiguration.cpp:73-79 | A history in which a request repeated between two idle visits does not keep the monitor from being stopped |
| MonitorHistory.RequestNotStored | src/k2eg/controller/node/configuration/NodeConfiguration.cpp:92-107 | A history in which a purged monitor is requested again and not stored: a second serialization stays configured |
| MonitorHistory.StoreIsHistory | src/k2eg/controller/node/configuration/NodeConfiguration.cpp:64-178 | Whatever requests, sections of visits and ends of rounds come in what order, row and configuration of every monitor are what its own history makes of them |
| MonitorHistory.RequestIsStep | src/k2eg/controller/node/configuration/NodeConfiguration.cpp:64-90 | A request takes the history of its monitor one step on, and no other |
| MonitorHistory.NextIsStep | src/k2eg/service/data/repository/ChannelRepository.cpp:72-83 | So does reading the next row |
| MonitorHistory.DecisionIsStep | src/k2eg/controller/node/worker/monitor/MonitorChecker.cpp:76-140 | So does the handler, with what it removes from store and configuration |
| MonitorHistory.SectionIsStep | src/k2eg/service/data/repository/ChannelRepository.cpp:119-157 | And so do stamping, marking, and the end of a round for all monitors |
| MonitorStore.VisitIsItsSections | src/k2eg/controller/node/configuration/NodeConfiguration.cpp:145-162 | A visit is its sections, one after the other |
| MonitorStore.NodeConfiguration.RemoveChannelMonitor | src/k2eg/controller/node/configuration/NodeConfiguration.cpp:92-107 | The row of the pair and the setting of that serialization are gone, everything else stays |
| MonitorStore.NodeConfiguration.SetStamp | src/k2eg/service/data/repository/ChannelRepository.cpp:134-157 | The timestamp of the row with that id |
| MonitorStore.NodeConfiguration.SetProcessed | src/k2eg/service/data/repository/ChannelRepository.cpp:126-132 | The mark of the row with that id |
| MonitorLifecycle.EveryRowOnce | src/k2eg/controller/node/configuration/NodeConfiguration.cpp:132-168 | When no row is processed the backlog is a permutation of the rows |
| MonitorLifecycle.AnyEffective | src/k2eg/controller/node/worker/monitor/MonitorChecker.cpp:81-91 | Whether a group that is not excluded has at least one subscriber |
| MonitorLifecycle.MonitorChecker.SetPurgeTimeout | src/k2eg/controller/node/worker/monitor/MonitorChecker.cpp:152-160 | A negative timeout leaves the one in force |
| MonitorLifecycle.MonitorChecker.ScanForRestart | src/k2eg/controller/node/worker/monitor/MonitorChecker.cpp:47-57 | Starts the first k rows of the backlog and only marks them |
| MonitorLifecycle.MonitorChecker.ScanForMonitorToStop | src/k2eg/controller/node/worker/monitor/MonitorChecker.cpp:70-140 | With nothing in between, applies the purge decision to the first k rows of the backlog; the number returned counts them and the names left unfinished, and is 0 exactly if nothing was pending |
| MonitorLifecycle.MonitorChecker.StoreMonitorData | src/k2eg/controller/node/worker/monitor/MonitorChecker.cpp:38-44 | The request reaches the store and the start is broadcast, whether the store keeps it or not |
| MonitorLifecycle.MonitorCommandWorker.HandleRestartTask | src/k2eg/controller/node/worker/MonitorCommandWorker.cpp:92-105 | Completes exactly if nothing was left to start |
| MonitorLifecycle.MonitorCommandWorker.Startup | src/k2eg/controller/node/worker/MonitorCommandWorker.cpp:92-105 | All rows of the backlog are started in order, each once by an event with its PV and destination, in ceil(n / k) + 1 scans |
| MonitorLifecycle.MonitorCommandWorker.ProcessMonitor | src/k2eg/controller/node/worker/MonitorCommandWorker.cpp:235-272 | Refused with nothing changed while starting up, without a serializer or without a destination; otherwise configured, stored or counted, and broadcast |
| ChannelCounts.ReferenceCountsAgree | src/k2eg/service/epics/EpicsServiceManager.cpp:86-150 | After any interleaving in which no claimed entry is erased the count of a name is its distinct destinations plus the snapshot URIs that stand for it; in any interleaving a counted name is in the map, a name in the map has exactly one poll task and any other none |
| ChannelCounts.AgreementIff | src/k2eg/service/epics/EpicsServiceManager.cpp:336-369 | The count of a name agrees with its claims in every state of a run exactly if no poll task erases its entry while somebody claims it |
| ChannelCounts.QuietWindowsAgree | src/k2eg/service/epics/EpicsServiceManager.cpp:336-369 | It does so if no claim of the name falls between the check of one of its poll tasks and the erasure that follows |
| ChannelCounts.AgreesAfter | src/k2eg/service/epics/EpicsServiceManager.cpp:86-150 | One step keeps the agreement exactly if it does not erase a claimed entry |
| ChannelCounts.ChannelLost | src/k2eg/service/epics/EpicsServiceManager.cpp:336-369 | A run in which a channel is given up and claimed again between check and erasure: the claim stays, with no entry, no count and no poll task |
| ChannelCounts.AbandonedIsErased | src/k2eg/service/epics/EpicsServiceManager.cpp:336-378 | With the count in order a starting poll task is going to leave exactly if nobody claims its channel; left alone it then erases the entry, otherwise the entry stays |
| ChannelCounts.RemovedKeeps | src/k2eg/service/epics/EpicsServiceManager.cpp:132-149 | With a count above 0 removal lowers it by one: the clamp at 0 is not needed |
| ChannelCounts.EpicsServiceManager.AddChannel | src/k2eg/service/epics/EpicsServiceManager.cpp:86-118 | One more claim on a known channel, or a new one with its poll task |
| ChannelCounts.EpicsServiceManager.RemoveChannel | src/k2eg/service/epics/EpicsServiceManager.cpp:132-149 | One claim less, not below 0 |
| ChannelCounts.EpicsServiceManager.StartTask | src/k2eg/service/epics/EpicsServiceManager.cpp:362-369 | A channel without claims is left, any other polled on |
| ChannelCounts.EpicsServiceManager.CleanupAndErase | src/k2eg/service/epics/EpicsServiceManager.cpp:336-345 | The entry is erased if it is still the own one of the task; the count is not looked at again |
| ChannelCounts.ChannelUsers.HandleMonitorEvent | src/k2eg/controller/node/worker/MonitorCommandWorker.cpp:139-233 | A destination is claimed once however often it is started, and given up once |
| ChannelCounts.ChannelUsers.StartSnapshot | src/k2eg/controller/node/worker/snapshot/ContinuousSnapshotManager.cpp:271-322 | Nothing if a URI does not parse, otherwise every URI is held by the new snapshot, claimed and routed |
| ChannelCounts.ChannelUsers.StopSnapshot | src/k2eg/controller/node/worker/snapshot/ContinuousSnapshotManager.cpp:467-488 | Every URI is given up and no PV is routed to the snapshot any more |
| ChannelDestinations.ServedIff | src/k2eg/controller/node/worker/MonitorCommandWorker.cpp:139-233 | In any run a destination is served with a PV exactly if some command has started it and none has stopped it since; and it is listed once |
| ChannelDestinations.StopGivesUp | src/k2eg/controller/node/worker/MonitorCommandWorker.cpp:199-220 | A stop takes the destination it names, the others stay in their order, and other PVs are untouched |
| ChannelDestinations.StartAdds | src/k2eg/controller/node/worker/MonitorCommandWorker.cpp:160-198 | A start adds the destination it names at the end, unless it is there |
| StructureMerger.PVStructureMerger.MergeStructureAndValue | src/k2eg/service/epics/PVStructureMerger.cpp:10-64 | The merged structure has exactly the members that are asked for and that their sources have, as they are asked for first and in that order; if fields of one name have one description each has the value of the source asked last; failure exactly if a field cannot be rebuilt or a copy throws |
| StructureMerger.MergedIsAsked | src/k2eg/service/epics/PVStructureMerger.cpp:43-60 | That in terms of the items; and if a field of the same name is of another kind, failure |
| StructureMerger.ComparableMergeIff | src/k2eg/service/epics/PVStructureMerger.cpp:43-60 | When offers of one name have one description or differ in kind, the values are copied exactly if every offer has the description of the first of its name, and then each field has the last value |
| StructureMerger.PVStructureMerger.BuildSchema | src/k2eg/service/epics/PVStructureMerger.cpp:15-41 | The members of the first offers, unless one cannot be rebuilt |
| StructureMerger.PVStructureMerger.CopyValues | src/k2eg/service/epics/PVStructureMerger.cpp:43-60 | All offers copied in order over the defaults, stopping at the first copy that throws |
| StructureMerger.FieldBuilder.AddField | src/k2eg/service/epics/PVStructureMerger.cpp:66-124 | The rebuilt description equals the source; fails exactly for a union directly inside a union |
| StructureMerger.FieldBuilder.CopyUnionDefinition | src/k2eg/service/epics/PVStructureMerger.cpp:184-231 | Members in order, unions among them refused |
| StructureMerger.CopyFieldValue | src/k2eg/service/epics/PVStructureMerger.cpp:233-285 | Different kinds fail, structures go child by child, anything else is what the client library copies |
| StructureMerger.SameDescCopies | src/k2eg/service/epics/PVStructureMerger.cpp:233-307 | Between fields of one description, structures included, the copy is the source value |
| StructureMerger.CopyStructureValue | src/k2eg/service/epics/PVStructureMerger.cpp:287-307 | Every child of the source goes to the field of its name, if the destination has one; its other fields stay |
| StructureMerger.DisjointMerge | src/k2eg/service/epics/PVStructureMerger.cpp:10-64 | With disjoint lists: every requested field its source has is there, with the type and the value it has in the source, in list order, and no other |
| StructureMerger.CopyableIff | src/k2eg/service/epics/PVStructureMerger.cpp:184-231 | A field can be rebuilt exactly if nowhere inside it a union, or an array of unions, is directly a member of another |
| StructureMerger.CopyByName | src/k2eg/service/epics/PVStructureMerger.cpp:287-307 | Whatever the two structures: children meet by name in any order, each field that meets one gets its copy, all others stay, and it throws exactly if one of these copies does |
| StructureMerger.OtherKindThrows | src/k2eg/service/epics/PVStructureMerger.cpp:233-250 | A copy between fields of different kinds throws |

## Left out

Assumptions of the models:

- SnapshotEngine: a snapshot name is started again only after its stop was answered. The source allows it from the final pass on, a little earlier (the running list is all it looks at); what the old tasks then still do to tables and queue of the new run is not modelled. A command handler, and a pass over one snapshot, is one step apart from its wait for an iteration.
- SnapshotEngine: a stop is issued once for each operation, or has no effect when repeated; in the source a second stop before the final pass throws, because the future of the promise is taken twice (ContinuousSnapshotManager.cpp:386).
- SnapshotEngine: when a window ends and which events a pass collects is arbitrary; the timing itself is in BackTimedBuffer and BackTimedHistory.
- SubmissionTask.SnapshotTaskRunner.Run: stated for a run with nothing in between and no wait that blocks; interleavings are the business of the state machine it is proved against.
- ThreadPool: one thread calls wait, because the flag it sets is shared; stopping the pool, pause and priorities (both off in the light pool) are not modelled.
- ChannelCounts: a claim and its bookkeeping are one step. The parsing of a URI is a parameter.
- ChannelCounts.ChannelUsers.StopSnapshot: the final pass releases the whole list of the snapshot, in the source also while the loop of startSnapshot (ContinuousSnapshotManager.cpp:318-322) has not yet claimed all of it; the handlers are modelled as not overlapping, so only URIs already held are released.
- CronScheduler: the next cron time is a parameter of the handler's outcome; starting and stopping the threads and their sleep are not modelled.
- MonitorStore.NodeConfiguration.DistinctNames: the order of names and of rows is the insertion order; the configuration map has no repeated entries.
- MonitorLifecycle.MonitorChecker.ScanForMonitorToStop: stated for a scan with no request in between, as is NodeConfiguration.IterateForAction; MonitorHistory has the interleavings, with one purge scan at a time, one visit under way, and the reset of all marks as one step.
- MonitorHistory: queue metadata is never null (the source reads it before its null test); regular expressions on group names are a flag of the group.
- TimeWindowBuffer.TimeWindowEventBuffer.constructor: a reserve of at least 1 and a growth factor of at least 2, as everywhere in the source; clock readings of additions do not go back.
- RepeatingSnapshot.SnapshotRepeatingOpInfo.GetData: the collection is one step, in NormalDelivery too, so an event that arrives during it is dropped before or kept after, not in between.
- StructureMerger: what the client library copies between fields of one kind is a parameter that may throw; it is only required to copy the value between equal descriptions. Dotted field names, structure ids and string bounds are not modelled.
- MsgpackRoundTrip.RoundTripIff: at the level of tokens and objects; floating-point values are opaque bits, null elements of structure and union arrays and variant unions are not modelled, and reading an object that is not an array as an array of structures or unions counts as failure.

Not modelled:

- The Kafka publisher, the Consul client, the SQLite engine and the EPICS client: the queue is a sequence, the store a sequence of rows, events arrive as inputs.
- The byte level of MessagePack, and JSON and base64 serialization.
- Replies to commands, the trigger command's reply codes, and parameter checks other than the parsing of URIs.
- Serializers that fail while publishing; repeating snapshots are serialized as JSON or MessagePack only.
- The per-PV event counts that are only written; which fields a field list keeps (the filter is a parameter).
- Forced updates of a monitored channel, its polling, throttling and activity flags; loading the stored configuration at boot.
- Metrics, logging, program options, thread names and sleeps.
