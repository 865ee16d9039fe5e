# Durable queue: a verified model

A Dafny model of a single-process durable job queue. It covers the coordinator that owns all
queue state, the write-ahead log it persists to, the recovery that rebuilds the coordinator after
a crash at any byte, and the retry delays. `dafny verify dfyconfig.toml` checks everything.

## How it is built

- `Types`, `Seqs`: jobs, records, and sequences without duplicates.
- `JobStore`, `Tracker`: the job store with its two ways to apply a record (strict when live,
  relaxed in recovery), and the indexes of recovery. Both are classes proved against functions.
- `History`, `HistoryLaws`: which record may follow which log (`WellFormed`), and what every such
  log looks like.
- `Reconcile`, `Recovery`, `RecoveryProc`, `RecoverFile`: reconciliation of lost leases, the
  rebuilt lists, validation, permit reservation, and `recover` on the bytes of the file.
- `CoordSpec`, `CoordLemmas`, `CoordInv`, `CoordBoot`: the coordinator as a step system with a
  state, events, and an invariant that every step keeps.
- `CoordSteps`, `Coordinator`: the coordinator as a class. Each method is proved to be a run of
  those steps, whatever storage and the clocks do. `Startup` builds it from a file.
- `CoordLaws`, `RoundRobin`, `PermitLeak`, `LostLease`: capacity, leases, shutdown, bounded waiting.
- `Codec`, `Scanner`, `WalFile`: header and frames, the scan loop, repair, the writer thread.
- `Runs`: whole runs of steps, crashes, interrupted recoveries and restarts.
- `Backoff`: the saturating doubling loop and the jitter.

The live store and the replayed store differ on purpose: moving a due retry back to `Queued` is not
logged. `DurableView` is the part of a store that the log knows, and the central invariant says
that replaying the log gives the durable view of the live store.

Storage is nondeterministic: a persist appends to the log or fails, and the ghost counter
`failures` says how often it failed. The monotonic clock never goes back; the wall clock returns
anything. Hash maps are visited in any order (`Visits`). The serializer and the checksum are
parameters (`Format`), about which only this is assumed (`Faithful`): decoding inverts encoding,
and a checksum has 32 bits. Job ids are fresh when a job is submitted.

## What turned out false

- Recovered jobs' permits are meant to be managed by the coordinator (`src/runtime.rs:113`), but
  the coordinator starts with an empty permit map. `FullAgainIff` gives the exact condition under
  which a drained queue has its capacity back, `OneRecoveredJob` a queue that stays closed.
- After a failed sync the bytes stay and the sequence number is used again. `RecoverableIffQuiet`
  says exactly when the log can still be recovered, `AckedButUnrecoverable` gives a log that
  holds an acknowledged record and cannot be read.
- A crash while the header is written leaves a file that no start accepts. `CutInsideHeader` gives
  the exact cuts.
- A running job can lose its lease. `LeasesStayComplete` says by exactly which steps, and `EndLease`,
  `DoWorkerOutcome`, `CheckLeaseTimeouts` and `ForceShutdown` say when: a closing record that
  storage refused, or a forced shutdown. `LostUntilCancelled` says that such a job then stays
  running, and its slot taken, in every run until the next start unless it is cancelled;
  `LostLeaseReached` gives a run from a start that gets there.

## Model

| member | source | states |
|---|---|---|
| `JobStore.StrictRefinesRelaxed` | src/store.rs:38-127 | for all stores and records: if the live store accepts a record, replaying it on the durable view gives the durable view of the new store |
| `JobStore.RequeueIsInvisible` | src/store.rs:130-144 | the unlogged move of a waiting job to queued is invisible in the log if and only if the job has run before |
| `JobStore.ApplyMeans` | src/store.rs:38-161 | from which states each kind of record is accepted, and what it makes of its job |
| `JobStore.ApplyRelaxedMeans` | src/recovery.rs:318-357 | what each kind of record makes of its job in recovery |
| `JobStore.MemoryStore.ApplyRecord` | src/store.rs:38-127 | accepts a record exactly from the states that allow it; its job then has the state the record names, other fields and other jobs are as before; nothing changes when it refuses, and the error says why |
| `JobStore.MemoryStore.ApplyRecordForRecovery` | src/recovery.rs:318-357 | a record that submits or names a known job puts that job in the state it names, without validation; one for an unknown job changes nothing |
| `JobStore.MemoryStore.TransitionToQueued` | src/store.rs:130-144 | succeeds exactly for a waiting job, changes only its state |
| `Tracker.RecoveryTracker.TrackRecord` | src/recovery.rs:66-113 | the five indexes after a record; `WellFormedSound` and `HistoryOfJob` say what they hold |
| `Tracker.TrackerCovers` | src/recovery.rs:66-113 | for any record sequence whatever, every live job stands in the index of its state |
| `History.WellFormedSound` | src/recovery.rs:176-211 | after a well-formed log the indexes are exactly the classes of the store, each queue's order is duplicate-free, and attempts fit the state and the budget |
| `History.HistoryOfJob` | src/coordinator.rs:616-856 | each job's records are a submission, leases numbered 1, 2, 3 each ended by a retry, and an optional last lease and terminal record; the job's state is that of its last record, and a waiting job's tracked time is the one persisted there |
| `HistoryLaws.EpochsIncrease` | src/coordinator.rs:641-669 | lease epochs strictly increase through the log |
| `HistoryLaws.ClosesLatestLease` | src/coordinator.rs:721-856 | a completed, dead or retry record names its job's latest lease, with no record of the job in between |
| `HistoryLaws.ClosedOnce` | src/coordinator.rs:721-758 | no epoch is closed twice |
| `HistoryLaws.AttemptsCountLeases` | src/coordinator.rs:641-649 | a job's attempts are the number of its lease records, at most one or at most its maximum |
| `HistoryLaws.HistoryLengthBounded` | src/coordinator.rs:749-756 | a job has at most one record plus two for each allowed attempt |
| `HistoryLaws.LogBounded` | src/recovery.rs:377-392 | the log is no longer than the allowances of what was submitted |
| `HistoryLaws.OrderIsSubmissionOrder` | src/recovery.rs:66-113 | recovery's order of a queue is submission order restricted to the jobs never leased or cancelled |
| `HistoryLaws.FirstLeasesAreFifo` | src/coordinator.rs:626-663 | when a job gets its first lease, every job submitted before it to the same queue was leased or cancelled earlier |
| `HistoryLaws.WellFormedLaws` | src/coordinator.rs:616-856 | every well-formed log obeys all of these laws together |
| `Reconcile.RecoveryConverges` | src/recovery.rs:226-253 | for every log: after a recovery that wrote any prefix of its records in any order, the next recovery ends in the state an undisturbed one gives, and no job is running |
| `Reconcile.SecondRecoveryAppendsNothing` | src/recovery.rs:360-396 | recovering again without activity finds nothing to reconcile |
| `Reconcile.LostLeasesLegal` | src/recovery.rs:360-396 | the reconciliation records may follow the log: each names the lost lease's own epoch, and the budget is kept |
| `Reconcile.RecoveredStates` | src/recovery.rs:360-396 | for every log: recovery leaves jobs alone that were not running; a running one waits for a retry if it has attempts left, else it is dead |
| `Reconcile.DueAtOnce` | src/recovery.rs:377-392 | every record recovery appends carries the time of recovery, the job's attempt and its lease, so a retry is due at once |
| `RecoveryProc.ReconcileRunningJobs` | src/recovery.rs:360-396 | visits every tracked running job once, in any order, and retries it or declares it dead by its budget |
| `RecoveryProc.ReplayRecords` | src/recovery.rs:176-211 | store, indexes and counters are those of the scanned records |
| `RecoveryProc.ApplyReconciliation` | src/recovery.rs:244-253 | store, indexes and counters are those of the log with the reconciliation records |
| `RecoveryProc.BuildQueuedLists` | src/recovery.rs:256-269 | the queued lists are the tracked orders filtered by the store, without empty lists |
| `RecoveryProc.BuildRetryList` | src/recovery.rs:272-279 | the retry list holds every waiting job once with its tracked time, which `RetryTimesPersisted` ties to the log |
| `RecoveryProc.ValidateRecoveredState` | src/recovery.rs:399-448 | accepts exactly when each queue with recovered jobs is configured and large enough; else it names a missing queue that has recovered jobs, queued ones first, or with its counts a queue that is too small |
| `RecoveryProc.FitsIsLiveFits` | src/recovery.rs:399-448 | what validation decides is whether every queue has room for its live jobs |
| `RecoveryProc.Rebuild` | src/recovery.rs:176-315 | replay, reconcile, rebuild and validate: the recovered state, the records to append, and for every failure the reason with its queue and counts |
| `RecoveryProc.ReservePermits` | src/runtime.rs:80-120 | takes one permit per recovered job and fails exactly when some semaphore has too few |
| `RecoveryProc.ReservationSucceeds` | src/runtime.rs:80-120 | after a successful recovery, reservation cannot fail |
| `Recovery.LiveJobsPlacedOnce` | src/recovery.rs:256-279 | every live job stands exactly once, in the queued list of its own queue or in the retry list, by its state |
| `Recovery.DemandIsLive` | src/recovery.rs:399-448 | the demand that validation computes is the number of live jobs of the queue |
| `Recovery.RetryTimesPersisted` | src/recovery.rs:272-279 | each recovered retry carries the time in the last record of its job |
| `Recovery.TallyIsTrue` | src/recovery.rs:187-211 | the counters of a log are the numbers of jobs submitted, completed, dead and cancelled, and of retries scheduled |
| `RecoverFile.ScanWal` | src/wal/scanner.rs:27-55 | the scan of any file: empty, with a bad header, or frame by frame, where `TakenIff` says which frames are taken |
| `RecoverFile.LogFile.AppendRecords` | src/recovery.rs:234-242 | the frames written, and where and with which error the loop stops if a record cannot be framed or numbers run out |
| `RecoverFile.LogFile.Recover` | src/recovery.rs:124-315 | on any bytes: which bytes are left, which records were found and appended, what is returned, and the cause of each error with its values |
| `RecoverFile.RecoverSucceeds` | src/recovery.rs:124-315 | after any crash, recovery with the configuration last in use succeeds and leaves exactly the file of the settled log |
| `RecoverFile.RecoverIsRestart` | src/recovery.rs:124-315 | that recovery is the restart step of the whole-run system |
| `RecoverFile.RecoverTwice` | src/recovery.rs:124-315 | recovering the recovered file changes no byte and gives the same store |
| `RecoverFile.DamagedFileRefused` | src/wal/codec.rs:145-157 | a file with a wrong checksum behind any log and in front of anything is refused with both checksums, and no byte is touched |
| `CoordInv.PersistedIsLegal` | src/coordinator.rs:460-856 | whatever a step persists may follow the log, and the strict store never refuses it |
| `CoordInv.StepKeepsInv` | src/coordinator.rs:460-919 | the invariant: log replays to the durable view, deques hold exactly the queued jobs once, leases are running with their epoch, one heap entry per waiting job, counters exact, permits accounted for; kept by every step and every failed persist |
| `CoordBoot.BootInv` | src/coordinator.rs:194-307 | a coordinator started from a recovered and validated state satisfies the invariant |
| `CoordBoot.FillReady` | src/coordinator.rs:218-229 | the deques are the recovered lists in their order |
| `CoordBoot.FillHeap` | src/coordinator.rs:232-253 | one timer per recovered retry whose job still waits, with what is left of its wall-clock delay |
| `CoordBoot.CountTerminal` | src/coordinator.rs:256-265 | the terminal counters are the true counts of configured queues |
| `CoordBoot.StartIsBoot` | src/coordinator.rs:213-288 | built from what recovery makes of a well-formed log, nothing is skipped, every counter is true and the invariant holds |
| `CoordBoot.StartTimers` | src/coordinator.rs:232-253 | after a start every timer comes from the last record of its job and fires at the time persisted there, or at once if that has passed |
| `CoordLaws.LiveWithinCapacity` | src/runtime.rs:123-173 | live jobs, submissions under way and free permits of a queue together never exceed its capacity |
| `CoordLaws.DrainedIffNothingRecovered` | src/coordinator.rs:292 | a drained queue is fully free if and only if no permit was taken at recovery |
| `PermitLeak.FullAgainIff` | src/runtime.rs:104-116 | in any run from any start, a drained queue has its capacity back if and only if no live job was recovered into it |
| `PermitLeak.OneRecoveredJob` | src/runtime.rs:113-114 | the start state of a log with one submitted job: once that job is cancelled, a queue of capacity one never accepts a job again |
| `CoordLaws.LogFits` | src/recovery.rs:399-448 | at every moment the log would pass validation under the same configuration |
| `CoordLaws.StepLog` | src/coordinator.rs:460-856 | a step appends exactly the record it persists |
| `CoordLaws.NeverSaturates` | src/coordinator.rs:543-558 | a counter is positive whenever it is decremented |
| `CoordLaws.GlobalCounts` | src/coordinator.rs:267-274 | in every state the global counters are the true counts, across restarts |
| `CoordLaws.SubmissionsCounted` | src/coordinator.rs:494-498 | in every run a queue's submission counter counts the jobs submitted since the start |
| `CoordLaws.LeasesStayComplete` | src/coordinator.rs:732-758 | running jobs keep their leases by every step except exactly the lost leases; the methods below say when those happen |
| `CoordLaws.LeasedIffRunning` | src/coordinator.rs:721-758 | in a run without lost leases exactly the running jobs are leased |
| `LostLease.LostUntilCancelled` | src/coordinator.rs:732-758 | in any run until the next start, a job that lost its lease stays running and unleased, and keeps its slot of the queue, if and only if the run does not cancel it |
| `LostLease.LostLeaseReached` | src/coordinator.rs:761-773 | from the start state of a log with one job: a lease, then a lost lease, leaves that job running without one |
| `CoordLaws.ShutdownDrains` | src/coordinator.rs:417-457 | once shutdown has begun, no run submits or leases, no worker is parked, and leases only disappear |
| `RoundRobin.LeaseApproaches` | src/coordinator.rs:616-702 | a fair lease serves a given non-empty queue or brings the cursor nearer to it |
| `RoundRobin.BoundedBypass` | src/coordinator.rs:616-702 | with n queues, in a run of fair leases, a job with p others before it waits for fewer than (p + 1) times n leases |
| `CoordinatorObject.Coordinator.constructor` | src/coordinator.rs:194-307 | from any recovered state: the object as built, with each configured time in its own place; entries whose job has another state are skipped |
| `CoordinatorObject.BuildIndexes` | src/coordinator.rs:204-265 | from any recovered lists: deques, timers and counters |
| `CoordinatorObject.Coordinator.TryAcquire` | src/runtime.rs:150-158 | unknown queue, full or closed queue, or the permit is taken |
| `CoordinatorObject.Coordinator.Admit` | src/coordinator.rs:466-498 | each reason for refusal exactly, one storage failure if and only if it was not persisted, and the submit step otherwise, with the new job and its record written out; a refused submission gives its permit back |
| `CoordinatorObject.Coordinator.DoSubmit` | src/coordinator.rs:460-503 | each reason for refusal exactly, else the new job field by field and its record, followed by leases for parked workers only; unless storage fails these are fair and leave no parked worker or no ready job |
| `CoordinatorObject.Coordinator.PersistMove` | src/coordinator.rs:761-785 | persist, apply and count: all or, when and only when storage fails, nothing |
| `CoordinatorObject.Coordinator.CloseJob` | src/coordinator.rs:761-811 | completing or burying: the whole new state, or nothing when and only when storage fails; `EndApplies` says what the record makes of the job |
| `CoordinatorObject.Coordinator.RetryJob` | src/coordinator.rs:813-856 | scheduling a retry: the whole new state, or nothing when and only when storage fails |
| `CoordinatorObject.Coordinator.DoCancel` | src/coordinator.rs:513-566 | unknown and terminal jobs exactly, not persisted if and only if storage failed; else the job is cancelled, its record is the last of the log, and it is in no deque, has no lease and no permit |
| `CoordinatorObject.Coordinator.LeaseHead` | src/coordinator.rs:640-699 | the head of the deque is leased with the next epoch and attempt, or nothing changes when and only when storage fails |
| `CoordinatorObject.Coordinator.VisitQueue` | src/coordinator.rs:622-661 | one round: storage fails if and only if the queue at the cursor has a ready job that is not leased; a job that is returned runs under the returned lease |
| `CoordinatorObject.Coordinator.TryLeaseJob` | src/coordinator.rs:616-702 | one lease step, and the returned job is the one leased, with its queue, payload, attempt, epoch and a deadline a visibility timeout from now; or none; storage has failed exactly once for each queue passed over with a ready job |
| `CoordinatorObject.Coordinator.TryDispatch` | src/coordinator.rs:704-719 | the first parked workers get one job each, no job twice, and each runs under the lease its worker was told; unless storage fails it ends with no parked worker or no ready job, and every lease is fair |
| `CoordinatorObject.Coordinator.DoFetchWork` | src/coordinator.rs:601-613 | the job handed out was not leased before and now runs under exactly the epoch, attempt and deadline handed out; else the worker is parked last; without a storage failure that is so if and only if nothing was ready; nothing during shutdown |
| `CoordSteps.OutcomeEffect` | src/coordinator.rs:732-758 | what each outcome makes of its job, its last record and its timer |
| `CoordSteps.EndApplies` | src/coordinator.rs:761-856 | a step that ends a lease puts the job in the state its record names, appends that record, and for a retry sets one timer |
| `CoordinatorObject.Coordinator.EndLease` | src/coordinator.rs:732-758 | unless storage fails: success completes the job, a fatal error kills it, a failed attempt makes it wait or, with its attempts used up, kills it; the last record says so with the lease's epoch and the clock's time, and a retry's timer and persisted time lie the same drawn delay ahead of the two clocks; if storage fails only the lease is lost |
| `CoordinatorObject.Coordinator.DoWorkerOutcome` | src/coordinator.rs:721-759 | an outcome without the current lease changes only the stale counter; one with it puts the job in the state the outcome calls for, or loses the lease if and only if storage failed |
| `CoordinatorObject.Coordinator.Requeue` | src/coordinator.rs:870-886 | a waiting job becomes ready, any other job is left alone |
| `CoordinatorObject.Coordinator.ProcessDueRetries` | src/coordinator.rs:858-887 | exactly the due entries leave the heap, earliest first; nothing due is left |
| `CoordinatorObject.Coordinator.CheckLeaseTimeouts` | src/coordinator.rs:889-919 | each expired lease is ended once: its job waits for a retry or, with its attempts used up, is dead, or the lease is lost if and only if storage failed; other jobs and leases stay; every new timer was set by it and not into the past |
| `CoordinatorObject.Coordinator.NextDeadline` | src/coordinator.rs:356-372 | none exactly when nothing is pending, else the least pending retry, lease or shutdown time |
| `CoordinatorObject.Coordinator.StartShutdown` | src/coordinator.rs:417-441 | shutdown begins once: no worker stays parked, and the deadline is the shutdown timeout from now if anything is leased; nothing the second time |
| `CoordinatorObject.Coordinator.ForceShutdown` | src/coordinator.rs:449-457 | all leases are dropped and nothing else changes; running jobs stay leased if and only if there was no lease |
| `CoordinatorObject.Coordinator.Turn` | src/coordinator.rs:309-314 | at the wait point before shutdown, unless storage failed in the turn, there are never both a parked worker and a ready job; no timer due at the retry pass and no lease expired at the lease pass is left; the run is fair |
| `Startup.Start` | src/runtime.rs:27-55 | on any file: a start fails exactly when recovery fails; else reservation succeeds and the coordinator is built from the recovered log with the configured times; if a coordinator wrote that log, it is in the start state and satisfies the invariant |
| `Codec.HeaderAccepted` | src/wal/codec.rs:37-57 | exactly the header that is written is accepted; other magic bytes and other versions are told apart |
| `Codec.HeaderBytes` | src/wal/codec.rs:4-8 | the ten bytes of the header |
| `Codec.LittleEndian` | src/wal/codec.rs:120 | the least significant byte comes first |
| `Codec.FillHeader` | src/wal/codec.rs:37-42 | the buffer holds the header |
| `Codec.AppendFields` | src/wal/codec.rs:84-112 | the frame built field by field, or the error with the size |
| `Codec.FrameRoundTrip` | src/wal/codec.rs:84-163 | decoding inverts encoding in front of any bytes and consumes exactly the frame |
| `Codec.FrameFields` | src/wal/codec.rs:84-112 | where each field of a frame lies, and that the checksum is of everything before it |
| `Codec.KindByte` | src/wal/record.rs:53-62 | the number of each kind of record |
| `Codec.TakenIff` | src/wal/codec.rs:114-163 | on any bytes, exactly which are taken as a frame, and what the frame then is |
| `Codec.DamagedChecksum` | src/wal/codec.rs:145-157 | a frame with any other checksum is refused with both checksums |
| `Codec.RefusedBecause` | src/wal/codec.rs:114-130 | the error for bytes that are too few or too long |
| `Codec.DecodeIsLocal` | src/wal/codec.rs:114-163 | decoding depends on no byte behind the frame it returns |
| `Scanner.ScanOfCutLog` | src/wal/scanner.rs:58-141 | frames cut at any byte scan to exactly the whole frames before the cut, with the offset at their end, and a truncated tail exactly inside a frame |
| `Scanner.ScanOfRepaired` | src/wal/scanner.rs:58-159 | on arbitrary bytes, cutting at the last valid offset gives the same records with a clean tail |
| `Scanner.AppendAfterRepair` | src/recovery.rs:214-241 | on arbitrary bytes, the next frame after a repair scans to the records plus the new one |
| `Scanner.DamagedFrame` | src/wal/scanner.rs:58-141 | a wrong checksum anywhere is corruption, not a truncated tail |
| `Scanner.WrongNumber` | src/wal/scanner.rs:84-100 | a frame with any number but the next one is corruption |
| `WalFile.ScanFrames` | src/wal/scanner.rs:58-141 | the loop computes the scan; the last sequence is the record count and the greatest epoch is the tracker's; `DamagedFrame` and `WrongNumber` say what it refuses |
| `WalFile.NextSequence` | src/wal/writer.rs:114-143 | the writer's loop finds the greatest sequence number and continues after it |
| `WalFile.ScannersAgree` | src/wal/writer.rs:114-143 | wherever recovery's scan succeeds, the writer's succeeds and continues after the last record, within 64 bits |
| `WalFile.ScanOfCutFile` | src/wal/scanner.rs:27-159 | a file cut anywhere behind its header scans and repairs to exactly the file of its whole frames |
| `WalFile.CutInsideHeader` | src/wal/scanner.rs:27-55 | a cut file can be scanned if and only if the cut is not inside the header |
| `WalFile.WriterThread.ProcessWrite` | src/wal/writer.rs:199-222 | bytes, sequence number and answer for each way a write can end |
| `WalFile.WriterThread.Run` | src/wal/writer.rs:192-197 | the file after any sequence of requests and faults, and who was answered |
| `WalFile.RecoverableIffQuiet` | src/wal/writer.rs:199-222 | the log can be recovered if and only if nothing was written after a failed sync; it then holds all acknowledged records and at most one more |
| `WalFile.AckedButUnrecoverable` | src/wal/writer.rs:211-219 | a failed sync followed by an acknowledged write leaves a corrupt log |
| `WalFile.WriterHoldsLog` | src/wal/writer.rs:65-75 | a writer started on the file of a log holds, after any requests without a failed sync, exactly the file of that log and the acknowledged records |
| `Runs.CrashLosesNothing` | src/wal/scanner.rs:58-141 | after a crash that keeps the acknowledged bytes, recovery finds all acknowledged records and at most the one in flight |
| `Runs.InterruptedRecovery` | src/recovery.rs:226-253 | a recovery that dies at any byte changes neither what is found next, nor the order of the queues, nor the state it will end in |
| `Runs.RestartRestores` | src/recovery.rs:124-315 | a restart satisfies the invariant, its store is the settled replay, and every job is placed once |
| `Runs.RestartAlwaysFits` | src/recovery.rs:399-448 | after any crash the same configuration passes validation |
| `Runs.NothingAcknowledgedIsLost` | src/recovery.rs:124-315 | over any run of steps, crashes, interrupted recoveries and restarts, the durable log only grows |
| `Runs.ReachableLogs` | src/coordinator.rs:460-919 | in every reachable state, across restarts: histories in the language, attempts within the budget, epochs increasing, each lease closed once by its own job, first leases in submission order, the log bounded |
| `Runs.DequesThroughRestart` | src/recovery.rs:256-269 | after any crash, any interrupted recoveries and a restart, each ready deque is the one before, in order, without the jobs leased before; the step in flight counts exactly if its record survived |
| `Runs.ReachableReplay` | src/recovery.rs:318-357 | in every reachable state replay equals the live store up to due retries |
| `Backoff.CapForAttempt` | src/config.rs:83-98 | the loop equals the smaller of the maximum and the base times a power of two with exponent at most 63, for every configuration |
| `Backoff.CapDoubles` | src/config.rs:83-98 | the first retry waits for the base delay, each further one twice as long up to the maximum, and from the 64th on nothing changes |
| `Backoff.CapMonotone` | src/config.rs:83-98 | delays never shrink with the attempt and never exceed the maximum |
| `Backoff.Delay` | src/config.rs:101-123 | without jitter the cap; else one number drawn from the whole range up to the cap, or for very long delays from 64 bits, stretched and cut at 64 bits; always at most the cap, and the product stays within 128 bits |

## Left out

- CoordinatorObject.Coordinator.DoSubmit: job ids are fresh, as random identifiers are taken to be.
- CoordinatorObject.Coordinator.Turn: ends before the wait; completing a shutdown and leaving the loop are not modelled, and a process that stops is a crash in `Runs`.
- Runs.CrashLosesNothing: the disk keeps every synced byte, and at most one record is in flight; writing on after a failed sync is treated in `RecoverableIffQuiet` only.
- WalFile.WriterThread.ProcessWrite: a write either puts down the whole frame or nothing; a process that dies while writing is a crash in `Runs`.
- Task scheduling, channels, replies and cancellation tokens: only the serial order of commands at the coordinator is kept. A lease handed to a worker that has gone is a lease that times out.
- Workers and handlers: any outcome may be reported for any job and lease at any time.
- The lock file, directories, opening and seeking: the file is a sequence of bytes.
- The serializer and the checksum: parameters, with no claim about collisions.
- Overflow of lease epochs, sequence numbers and timestamps while running. Recovery's own checks for exhausted numbers are modelled.
- Opening a log with the writer alone, without recovery: the production path goes through recovery.
- Status and statistics queries: sums and look-ups over fields that the invariant pins down.
- Startup.Start: the configuration has been validated, so that its queue names are distinct.
- Submissions made to a queue before the last start are not in its submission counter, because a restart does not rebuild it; jobs of queues no longer configured are in no per-queue counter.
- Validation of the configuration: checks of single fields, and names that are distinct.
- The command line, examples, error texts and logging.
