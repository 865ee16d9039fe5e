/** The coordinator object. Every method is proved against the step system: its effect is a
    run of steps, and it keeps the invariant whatever storage and the clocks do. */
module CoordinatorObject {
  import opened Types
  import opened Seqs
  import opened JobStore
  import opened Recovery
  import opened CoordSpec
  import opened RecoveryProc
  import opened CoordInv
  import opened CoordBoot
  import opened CoordLaws
  import opened RoundRobin
  import opened CoordSteps
  import opened Backoff

  datatype SubmitResult =
    | Accepted(job: Job)
    | QueueMissing
    | PayloadTooLarge
    | SubmitNotPersisted
    | ShuttingDown

  datatype AcquireResult = Acquired | QueueUnknown | QueueFull

  datatype CancelResult = CancelDone(job: Job) | JobMissing | NotCancellable(from: JobState) | CancelNotPersisted

  class Coordinator {
    const store: MemoryStore
    ghost var log: seq<Record>
    ghost var failures: nat                // how often storage has failed
    var ready: map<QueueName, seq<JobId>>
    var stats: map<QueueName, QueueStats>
    const order: seq<QueueName>
    var cursor: nat
    var permits: map<JobId, QueueName>
    var leases: map<JobId, Lease>
    var retry: multiset<RetryEntry>
    var parked: seq<Worker>
    var nextEpoch: nat
    var tally: Tally
    var stale: nat
    var shuttingDown: bool
    var shutdownDeadline: Option<Instant>
    var sems: map<QueueName, Sem>
    const visibilityTimeout: nat
    const shutdownTimeout: nat
    const retryConfig: RetryConfig
    const rng: Rng
    var clock: Instant                     // the environment's; it never goes back
    ghost const base: set<JobId>

    ghost function View(): State
      reads this, store
    {
      State(store.jobs, log, ready, stats, order, cursor, permits, leases, retry, parked,
            nextEpoch, tally, stale, shuttingDown, shutdownDeadline, sems, base)
    }

    ghost predicate Valid()
      reads this, store
    {
      Inv(View())
    }

    /** `with_rng_and_recovery`: rebuild deques, timers and counters from whatever was recovered; `sems`
        is what is left of the semaphores after the recovered jobs' permits were taken. */
    constructor (rec: RecoveredState, ghost log: seq<Record>, order: seq<QueueName>, sems: map<QueueName, Sem>,
                 now: Instant, wallNow: Millis, visibilityTimeout: nat, shutdownTimeout: nat, retryConfig: RetryConfig)
      ensures fresh(store) && fresh(rng) && clock == now && failures == 0
      ensures this.visibilityTimeout == visibilityTimeout && this.shutdownTimeout == shutdownTimeout
      ensures this.retryConfig == retryConfig
      ensures store.jobs == rec.store && this.order == order && this.sems == sems && nextEpoch == rec.nextEpoch
      ensures cursor == 0 && stale == 0 && permits == map[] && leases == map[] && parked == []
      ensures !shuttingDown && shutdownDeadline == None && tally == rec.tally
      ensures View() == StartState(rec, log, order, sems, now, wallNow)
    {
      hide HeapOf, StartStats, StillQueued, WaitingFor;
      var ready', stats', heap := BuildIndexes(rec, order, now, wallNow);
      this.store := new MemoryStore.FromRecovered(rec.store);
      this.log, this.ready, this.stats := log, ready', stats';
      this.order, this.cursor := order, 0;
      this.permits, this.leases, this.retry, this.parked := map[], map[], heap, [];
      this.nextEpoch, this.tally, this.stale := rec.nextEpoch, rec.tally, 0;
      this.shuttingDown, this.shutdownDeadline := false, None;
      this.sems := sems;
      this.visibilityTimeout, this.shutdownTimeout, this.retryConfig := visibilityTimeout, shutdownTimeout, retryConfig;
      this.clock, this.failures := now, 0;
      this.rng := new Rng();
      this.base := rec.store.Keys;
    }

    /** Storage appends and syncs the record, or fails and leaves the log as it is. */
    method Persist(r: Record) returns (ok: bool)
      modifies this`log, this`failures
      ensures log == if ok then old(log) + [r] else old(log)
      ensures failures == old(failures) + if ok then 0 else 1
    {
      ok := *;
      if ok {
        log := log + [r];
      } else {
        failures := failures + 1;
      }
    }

    /** The monotonic clock moves on by any amount. */
    method Clock() returns (now: Instant)
      modifies this`clock
      ensures View() == old(View()) && old(clock) <= clock == now
    {
      var elapsed := Elapsed();
      clock := clock + elapsed;
      now := clock;
    }

    method Elapsed() returns (d: nat)
    {
      d := *;
    }

    /** The wall clock may show anything. */
    method WallClock() returns (now: Millis)
    {
      now := *;
    }

    /** Dropping a permit returns it to its semaphore. */
    method ReleasePermit(id: JobId)
      modifies this`permits, this`sems
      ensures View() == Freed(old(View()), id)
    {
      if id in permits && permits[id] in sems {
        var sem := sems[permits[id]];
        sems := sems[permits[id] := sem.(available := sem.available + 1)];
      }
      permits := permits - {id};
    }

    method MoveStats(q: QueueName, from: JobState, to: JobState)
      modifies this`stats
      ensures stats == ShiftStats(old(stats), q, from, to)
    {
      if q in stats {
        stats := stats[q := stats[q].Shift(from, to)];
      }
    }

    // ----- submission -----

    /** `try_submit` takes a permit before it sends the command; shutdown has closed the semaphores. */
    method TryAcquire(q: QueueName) returns (res: AcquireResult)
      requires Valid()
      modifies this`sems
      ensures Valid()
      ensures res.QueueUnknown? <==> q !in old(sems)
      ensures res.QueueFull? <==> q in old(sems) && (old(shuttingDown) || old(sems)[q].available == 0)
      ensures res.Acquired? ==> Enabled(old(View()), AcquirePermit(q)) && View() == Exec(old(View()), AcquirePermit(q))
      ensures !res.Acquired? ==> View() == old(View())
    {
      hide Inv;
      if q !in sems {
        return QueueUnknown;
      }
      if shuttingDown || sems[q].available == 0 {
        return QueueFull;
      }
      StepKeepsInv(View(), AcquirePermit(q));
      var sem := sems[q];
      sems := sems[q := sem.(available := sem.available - 1, inFlight := sem.inFlight + 1)];
      return Acquired;
    }

    /** A submission that is turned away drops its permit. */
    method TurnAway(q: QueueName)
      requires Valid() && (q in sems ==> sems[q].inFlight > 0)
      modifies this`sems
      ensures Valid()
      ensures View() == Returned(old(View()), q)
    {
      hide Inv;
      if q in sems {
        StepKeepsInv(View(), ReturnPermit(q));
        var sem := sems[q];
        sems := sems[q := sem.(available := sem.available + 1, inFlight := sem.inFlight - 1)];
      }
    }

    /** `do_submit` up to the dispatch: validate, persist, apply, expose. */
    method Admit(q: QueueName, spec: JobSpec, id: JobId, at: Millis) returns (res: SubmitResult)
      requires Valid() && id !in store.jobs && (q in sems ==> sems[q].inFlight > 0)
      modifies this, store
      ensures Valid()
      ensures res.Accepted? ==>
                && Enabled(old(View()), Submit(q, spec, id, at))
                && View() == Exec(old(View()), Submit(q, spec, id, at))
                && id in store.jobs && res.job == store.jobs[id] == Job(id, q, spec, Queued, 0, at)
                && log == old(log) + [JobSubmitted(id, q, spec, at)]
      ensures !res.Accepted? ==> View() == Returned(old(View()), q)
      ensures clock == old(clock) && failures == old(failures) + if res.SubmitNotPersisted? then 1 else 0
      ensures res.ShuttingDown? <==> old(shuttingDown)
      ensures res.QueueMissing? <==> !old(shuttingDown) && q !in old(ready)
      ensures res.PayloadTooLarge? <==> !old(shuttingDown) && q in old(ready) && |spec.payload| > 1024 * 1024
    {
      hide Inv;
      ghost var s := View();
      ghost var e := Submit(q, spec, id, at);
      if shuttingDown {
        TurnAway(q);
        return ShuttingDown;
      }
      if q !in ready {
        TurnAway(q);
        return QueueMissing;
      }
      if |spec.payload| > MAX_PAYLOAD_SIZE {
        TurnAway(q);
        return PayloadTooLarge;
      }
      var r := JobSubmitted(id, q, spec, at);
      QueueHasAll(s, q);
      var job := ExposeSubmission(r);
      if job.None? {
        TurnAway(q);
        return SubmitNotPersisted;
      }
      StepKeepsInv(s, e);
      return Accepted(job.value);
    }

    /** The new job holds its permit, is ready, and is counted. */
    method CountSubmission(q: QueueName, id: JobId)
      requires q in ready && q in stats && q in sems && sems[q].inFlight > 0
      modifies this`permits, this`ready, this`stats, this`tally, this`sems
      ensures permits == old(permits)[id := q] && ready == old(ready)[q := old(ready)[q] + [id]]
      ensures stats == old(stats)[q := old(stats)[q].(submitted := old(stats)[q].submitted + 1,
                                                      queued := old(stats)[q].queued + 1)]
      ensures tally == old(tally).(submitted := old(tally).submitted + 1)
      ensures sems == old(sems)[q := old(sems)[q].(inFlight := old(sems)[q].inFlight - 1)]
    {
      permits := permits[id := q];
      ready := ready[q := ready[q] + [id]];
      stats := stats[q := stats[q].(submitted := stats[q].submitted + 1, queued := stats[q].queued + 1)];
      tally := tally.(submitted := tally.submitted + 1);
      sems := sems[q := sems[q].(inFlight := sems[q].inFlight - 1)];
    }

    /** Persist the submission; then apply it and make it visible. */
    method ExposeSubmission(r: Record) returns (job: Option<Job>)
      requires r.JobSubmitted? && r.queue in ready && r.queue in stats && r.queue in sems && sems[r.queue].inFlight > 0
      modifies this`log, this`failures, this`permits, this`ready, this`stats, this`tally, this`sems, store
      ensures failures == old(failures) + if job.Some? then 0 else 1
      ensures View() == if job.Some? then Submitted(old(View()), r) else old(View())
      ensures job.Some? ==> r.id in store.jobs && job.value == store.jobs[r.id]
    {
      hide SameFrame, Apply, OneRecordLater, Accepts, NewJob;
      SubmissionApplies(store.jobs, r);
      var q, id := r.queue, r.id;
      var ok := Persist(r);
      if !ok {
        return None;
      }
      var applied := store.ApplyRecord(r);
      CountSubmission(q, id);
      return Some(store.jobs[id]);
    }

    // ----- moving one job -----

    /** Persist a record, apply it, and update the counters: the part that leasing, completing,
        burying, retrying and cancelling share. */
    method PersistMove(r: Record) returns (ok: bool, applied: bool)
      requires r.id in store.jobs
      modifies this`log, this`failures, this`stats, this`tally, store
      ensures failures == old(failures) + if ok then 0 else 1
      ensures View() == if ok then Moved(old(View()), r) else old(View())
      ensures applied <==> ok && Apply(old(store.jobs), r).Applied?
    {
      hide SameFrame, OneRecordLater, Accepts, ShiftStats, CountRecord;
      var job := store.jobs[r.id];
      ok := Persist(r);
      if !ok {
        return false, false;
      }
      var res := store.ApplyRecord(r);
      applied := res.Applied?;
      if applied {
        MoveStats(job.queue, job.state, r.Target());
        tally := CountRecord(tally, r);
      }
    }

    /** `complete_job` and `dead_job`: the lease is already gone. */
    method CloseJob(r: Record) returns (ok: bool)
      requires r.id in store.jobs
      modifies this`log, this`failures, this`stats, this`tally, this`permits, this`sems, store
      ensures failures == old(failures) + if ok then 0 else 1
      ensures View() == if ok then ClosedBy(old(View()), r) else old(View())
    {
      hide SameFrame, Moved, Freed;
      var applied;
      ok, applied := PersistMove(r);
      if applied {
        ReleasePermit(r.id);
      }
    }

    /** `schedule_retry`: the timer is set from the persisted delay. */
    method RetryJob(r: Record, availableAt: Instant) returns (ok: bool)
      requires r.JobRetryScheduled? && r.id in store.jobs
      modifies this`log, this`failures, this`stats, this`tally, this`retry, store
      ensures failures == old(failures) + if ok then 0 else 1
      ensures View() == if ok then RetriedBy(old(View()), r, RetryEntry(availableAt, r.availableAt, r.id))
                        else old(View())
    {
      hide SameFrame, MovedStore, MovedStats, MovedTally;
      var applied;
      ok, applied := PersistMove(r);
      if applied {
        retry := retry + multiset{RetryEntry(availableAt, r.availableAt, r.id)};
      }
    }

    // ----- cancellation -----

    method Unindex(id: JobId, q: QueueName, from: JobState)
      modifies this`ready, this`leases
      ensures View() == Unindexed(old(View()), id, q, from)
    {
      if q in ready {
        match from {
          case Queued => ready := ready[q := Retain(ready[q], id)];
          case Running => leases := leases - {id};
          case _ =>
        }
      }
    }

    /** `do_cancel`. */
    method DoCancel(id: JobId, at: Millis) returns (res: CancelResult)
      requires Valid()
      modifies this, store
      ensures Valid()
      ensures res.JobMissing? <==> id !in old(store.jobs)
      ensures res.NotCancellable? <==> id in old(store.jobs) && old(store.jobs)[id].state.IsTerminal()
      ensures clock == old(clock) && failures == old(failures) + if res.CancelNotPersisted? then 1 else 0
      ensures !res.CancelDone? ==> View() == old(View())
      ensures res.CancelDone? ==>
                && Enabled(old(View()), Cancel(id, at)) && View() == Exec(old(View()), Cancel(id, at))
                && id in old(store.jobs) && id in store.jobs && res.job == store.jobs[id]
                && res.job == old(store.jobs)[id].(state := Cancelled)
                && log == old(log) + [JobCancelled(id, at)]
                && id !in leases && id !in permits && forall q :: q in ready ==> id !in ready[q]
    {
      hide Inv, Moved, Freed, Unindexed, Exec, Enabled, OthersStay;
      ghost var s := View();
      if id !in store.jobs {
        return JobMissing;
      }
      var from, q := store.jobs[id].state, store.jobs[id].queue;
      if from.IsTerminal() {
        return NotCancellable(from);
      }
      var ok, applied := PersistMove(JobCancelled(id, at));
      if !ok {
        return CancelNotPersisted;
      }
      CancelStep(s, id, at);
      Unindex(id, q, from);
      ReleasePermit(id);
      return CancelDone(store.jobs[id]);
    }

    // ----- leasing -----

    /** Lease the job at the head of a deque: persist, then commit. */
    method LeaseHead(q: QueueName, at: Millis, deadline: Instant) returns (job: Option<LeasedJob>)
      requires q in ready && ready[q] != [] && ready[q][0] in store.jobs && store.jobs[ready[q][0]].state.Queued?
      modifies this, store
      ensures clock == old(clock) && failures == old(failures) + if job.Some? then 0 else 1
      ensures job.None? ==> View() == old(View())
      ensures job.Some? ==>
                && var id := old(ready)[q][0];
                && var before := old(store.jobs)[id];
                && job.value == LeasedJob(id, before.queue, before.spec, before.attempts + 1, old(nextEpoch))
                && View() == LeasedBy(old(View()), q,
                                     JobLeased(job.value.id, job.value.epoch, job.value.attempt, at), deadline)
    {
      hide SameFrame, Moved;
      var id := ready[q][0];
      var job0, epoch := store.jobs[id], nextEpoch;
      var attempt := job0.attempts + 1;
      var ok, applied := PersistMove(JobLeased(id, epoch, attempt, at));
      if !ok {
        return None;
      }
      ready := ready[q := ready[q][1..]];
      nextEpoch := nextEpoch + 1;
      leases := leases[id := Lease(epoch, deadline)];
      return Some(LeasedJob(id, job0.queue, job0.spec, attempt, epoch));
    }

    /** One round of `try_lease_job`: the cursor moves on, and the queue it stood at is tried. Storage
        fails exactly when the queue has a ready job that is not leased. */
    method VisitQueue() returns (job: Option<LeasedJob>, ghost e: Event)
      requires Valid() && !shuttingDown && order != []
      modifies this, store
      ensures Valid() && e.LeaseJob? && e.skip == 0
      ensures old(clock) <= clock && e.deadline == clock + visibilityTimeout
      ensures failures == old(failures) + if job.None? && !Skipped(old(View()), 0) then 1 else 0
      ensures job.None? ==> View() == old(View()).(cursor := Wrap(old(cursor) + 1, |order|))
      ensures job.Some? ==>
                && WorksOn(store.jobs, leases, job.value, clock + visibilityTimeout, clock + visibilityTimeout)
                && job.value.id !in old(leases) && OthersStay(old(store.jobs), store.jobs, job.value.id)
                && leases == old(leases)[job.value.id := Lease(job.value.epoch, clock + visibilityTimeout)]
      ensures job.Some? ==>
                && Enabled(old(View()), e) && View() == Exec(old(View()), e)
                && RecordOf(old(View()), e) == Some(JobLeased(job.value.id, job.value.epoch, job.value.attempt, e.at))
    {
      hide Inv, SameFrame, LeasedBy, Exec, Enabled, RecordOf, WorksOn, OthersStay;
      ghost var s := View();
      CursorOk(s);
      var at := WallClock();
      var now := Clock();
      e, job := LeaseJob(0, at, now + visibilityTimeout), None;
      AtCursor(s);
      var q := order[cursor];
      cursor := (cursor + 1) % |order|;
      HeadIsQueued(s, q);
      ghost var c := cursor;
      CursorMoves(s, c);
      if q in ready && ready[q] != [] {
        var id := ready[q][0];
        if id in store.jobs && store.jobs[id].state.Queued? {
          job := LeaseHead(q, at, now + visibilityTimeout);
          if job.Some? {
            LeaseStep(s, q, at, e.deadline);
            LeaseEffect(s, e);
          }
        }
      }
    }

    /** `try_lease_job`: round robin over the queues, starting at the cursor. Every queue that is passed
        over although it has a ready job is one failure of storage. */
    method TryLeaseJob() returns (job: Option<LeasedJob>, ghost e: Event)
      requires Valid() && !shuttingDown
      modifies this, store
      ensures Valid() && old(clock) <= clock
      ensures job.None? ==> View() == old(View())
      ensures job.Some? ==> e.LeaseJob? && e.deadline == clock + visibilityTimeout
      ensures job.Some? ==>
                && WorksOn(store.jobs, leases, job.value, clock + visibilityTimeout, clock + visibilityTimeout)
                && job.value.id !in old(leases) && OthersStay(old(store.jobs), store.jobs, job.value.id)
                && leases == old(leases)[job.value.id := Lease(job.value.epoch, clock + visibilityTimeout)]
      ensures failures == old(failures) + Passed(old(View()), if job.Some? then e.skip else |order|)
      ensures job.Some? ==>
                && Enabled(old(View()), e) && View() == Exec(old(View()), e)
                && RecordOf(old(View()), e) == Some(JobLeased(job.value.id, job.value.epoch, job.value.attempt, e.at))
    {
      hide Inv, Exec, Enabled, RecordOf, Skipped, WorksOn, OthersStay;
      ghost var s := View();
      var n := |order|;
      e, job := Unpark, None;
      if n == 0 {
        return;
      }
      CursorOk(s);
      var i := 0;
      while i < n
        invariant 0 <= i <= n && cursor == Wrap(s.cursor + i, n) && job.None?
        invariant View() == s.(cursor := cursor) && Valid() && old(clock) <= clock
        invariant failures == old(failures) + Passed(s, i)
      {
        job, e := VisitQueue();
        SkipFrom(s, i, e);
        if job.Some? {
          e := LeaseJob(i, e.at, e.deadline);
          return;
        }
        i := i + 1;
      }
    }

    /** `try_dispatch_parked_workers`: the first parked workers get one job each, the one leased to them.
        Unless storage fails, it ends with no parked worker or no ready job, and every lease it makes is
        fair. */
    method TryDispatch() returns (sent: seq<(Worker, LeasedJob)>, ghost es: seq<Event>)
      requires Valid()
      modifies this, store
      ensures Valid() && old(clock) <= clock && old(failures) <= failures
      ensures DispatchDone(old(View()), View(), es, sent, old(clock) + visibilityTimeout, clock + visibilityTimeout,
                           failures == old(failures))
      ensures old(shuttingDown) ==> View() == old(View())
      ensures !old(shuttingDown) && failures == old(failures) ==> parked == [] || NothingReady(View())
    {
      hide Inv, Exec, Enabled, RecordOf, Skipped, NothingReady, WorksOn, OthersStay, DispatchDone;
      sent, es := [], [];
      ghost var s, first := View(), clock + visibilityTimeout;
      DispatchNone(s, first);
      if shuttingDown {
        return;
      }
      while parked != []
        invariant Valid() && !shuttingDown && old(clock) <= clock && old(failures) <= failures
        invariant DispatchDone(s, View(), es, sent, first, clock + visibilityTimeout, failures == old(failures))
        decreases |parked|
      {
        ghost var before, lastClock, n := View(), clock, failures;
        var job;
        ghost var e;
        job, e := TryLeaseJob();
        DispatchLater(s, before, es, sent, first, lastClock + visibilityTimeout, clock + visibilityTimeout,
                      n == old(failures), failures == old(failures));
        if job.None? {
          NonePassed(before, |order|);
          if failures == old(failures) { AllSkipped(before); }
          return;
        }
        NonePassed(before, e.skip);
        DispatchMore(s, before, e, es, sent, job.value, first, clock + visibilityTimeout, failures == old(failures));
        UnparkStep(View());
        LeaseStaysUp(before, e);
        sent, parked := sent + [(parked[0], job.value)], parked[1..];
        es := es + [e] + [Unpark];
      }
    }

    /** `do_submit`: admit, then hand the new job to a parked worker if there is one. */
    method DoSubmit(q: QueueName, spec: JobSpec, id: JobId, at: Millis)
      returns (res: SubmitResult, sent: seq<(Worker, LeasedJob)>, ghost es: seq<Event>)
      requires Valid() && id !in store.jobs && (q in sems ==> sems[q].inFlight > 0)
      modifies this, store
      ensures Valid() && Ran(old(View()), es, View()) && old(clock) <= clock && old(failures) <= failures
      ensures res.ShuttingDown? <==> old(shuttingDown)
      ensures res.QueueMissing? <==> !old(shuttingDown) && q !in old(ready)
      ensures res.PayloadTooLarge? <==> !old(shuttingDown) && q in old(ready) && |spec.payload| > 1024 * 1024
      ensures !res.Accepted? ==> failures == old(failures) + if res.SubmitNotPersisted? then 1 else 0
      ensures res.Accepted? ==> res.job == Job(id, q, spec, Queued, 0, at)
      ensures res.Accepted? ==> old(log) + [JobSubmitted(id, q, spec, at)] <= log
      ensures forall i :: 0 <= i < |sent| ==>
                sent[i].1.id in leases && leases[sent[i].1.id].epoch == sent[i].1.epoch
                && i < |old(parked)| && sent[i].0 == old(parked)[i]
      ensures res.Accepted? ==> es != [] && es[0] == Submit(q, spec, id, at)
                                && forall i :: 0 < i < |es| ==> es[i].LeaseJob? || es[i].Unpark?
      ensures !res.Accepted? ==> es == if q in old(sems) then [ReturnPermit(q)] else []
      ensures res.Accepted? && failures == old(failures) ==>
                FairRun(old(View()), es) && (parked == [] || NothingReady(View()))
    {
      hide Inv, Exec, Enabled, NothingReady, Fair;
      ghost var s := View();
      ghost var known := q in sems;
      PermitInFlight(s, q);
      sent := [];
      res := Admit(q, spec, id, at);
      if res.Accepted? {
        ghost var e := Submit(q, spec, id, at);
        OneStep(s, e);
        SubmitIsFair(s, e);
        NotShutdown(s, e);
        SubmitKeepsParked(s, e);
        sent, es := TryDispatch();
        RunConcat(s, [e], es);
        if failures == old(failures) { FairConcat(s, [e], es); }
        es := [e] + es;
      } else if known {
        OneStep(s, ReturnPermit(q));
        es := [ReturnPermit(q)];
      } else {
        es := [];
      }
    }

    /** `do_fetch_work`: a lease at once, or a parked worker; nothing during shutdown. A worker is parked
        only if nothing was ready or storage failed. */
    method DoFetchWork(worker: Worker) returns (job: Option<LeasedJob>, ghost e: Event)
      requires Valid()
      modifies this, store
      ensures Valid() && old(clock) <= clock && old(failures) <= failures
      ensures old(shuttingDown) ==> job.None? && View() == old(View()) && failures == old(failures)
      ensures !old(shuttingDown) ==>
                && Enabled(old(View()), e) && View() == Exec(old(View()), e)
                && (if job.Some? then e.LeaseJob? && e.deadline == clock + visibilityTimeout else e == Park(worker))
                && (failures == old(failures) ==> Fair(old(View()), e))
                && (job.None? ==> (failures == old(failures) <==> NothingReady(old(View()))))
      ensures job.Some? ==>
                var j := job.value;
                && j.id in leases && leases[j.id] == Lease(j.epoch, clock + visibilityTimeout) && j.id !in old(leases)
                && j.id in store.jobs && store.jobs[j.id].state == Running && store.jobs[j.id].attempts == j.attempt
                && store.jobs[j.id].queue == j.queue && store.jobs[j.id].spec == j.spec
                && parked == old(parked)
      ensures job.None? && !old(shuttingDown) ==> parked == old(parked) + [worker] && leases == old(leases)
    {
      hide Inv, Skipped, NothingReady, OthersStay;
      if shuttingDown {
        return None, Unpark;
      }
      ghost var s := View();
      job, e := TryLeaseJob();
      if job.None? {
        NonePassed(s, |order|);
        SkippedIffNothingReady(s);
        e := Park(worker);
        StepKeepsInv(s, e);
        parked := parked + [worker];
      } else {
        NonePassed(s, e.skip);
        ghost var r := LeaseKeepsParked(s, e);
      }
    }

    // ----- outcomes -----

    /** The lease is taken away; then the job is completed or buried, unless that cannot be persisted. */
    method EndFor(r: Record, ghost e: Event) returns (ok: bool)
      requires Valid() && (e.Complete? || e.Bury?) && Enabled(View(), e) && RecordOf(View(), e) == Some(r)
      modifies this, store
      ensures Enabled(old(View()), DropLease(r.id))
      ensures View() == Exec(old(View()), if ok then e else DropLease(r.id))
      ensures Valid() && leases == old(leases) - {r.id} && clock == old(clock)
      ensures failures == old(failures) + if ok then 0 else 1
    {
      hide Inv, SameFrame, ClosedBy, Exec, Enabled, RecordOf;
      ghost var s := View();
      EndStep(s, e, r);
      leases := leases - {r.id};
      ok := CloseJob(r);
      StepKeepsInv(s, if ok then e else DropLease(r.id));
    }

    /** The same for a job that will be retried. */
    method EndForRetry(r: Record, availableAt: Instant, ghost e: Event) returns (ok: bool)
      requires Valid() && r.JobRetryScheduled?
      requires e == ScheduleRetry(r.id, availableAt, r.availableAt)
      requires Enabled(View(), e) && RecordOf(View(), e) == Some(r)
      modifies this, store
      ensures Enabled(old(View()), DropLease(r.id))
      ensures View() == Exec(old(View()), if ok then e else DropLease(r.id))
      ensures Valid() && leases == old(leases) - {r.id} && clock == old(clock)
      ensures failures == old(failures) + if ok then 0 else 1
    {
      hide Inv, SameFrame, RetriedBy, Exec, Enabled, RecordOf;
      ghost var s := View();
      RetryStep(s, e, r);
      leases := leases - {r.id};
      ok := RetryJob(r, availableAt);
      StepKeepsInv(s, if ok then e else DropLease(r.id));
    }

    /** The lease is taken away and its job ended as the outcome asks, unless that cannot be persisted. */
    method EndAttempt(id: JobId, outcome: WorkerOutcome) returns (ok: bool, ghost times: Times)
      requires Valid() && id in leases && id in store.jobs && store.jobs[id].id == id
      modifies this, store, rng
      ensures Valid() && leases == old(leases) - {id} && old(clock) <= clock
      ensures var e := if ok then OutcomeStep(old(store.jobs)[id], outcome, times) else DropLease(id);
              Enabled(old(View()), e) && View() == Exec(old(View()), e)
      ensures failures == old(failures) + if ok then 0 else 1
      ensures TimesOk(times, old(clock), clock, retryConfig, old(store.jobs)[id].attempts)
      ensures var job := old(store.jobs)[id];
              if (outcome == Retryable || outcome == Panic) && job.attempts < job.spec.maxAttempts
              then DelayDrawn(retryConfig, job.attempts, old(rng.draws), rng.draws, times.delay)
              else rng.draws == old(rng.draws)
    {
      hide Inv, Exec, Enabled, RecordOf, IdealCap, DelayDrawn, OutcomeStep;
      ghost var s := View();
      var epoch, job := leases[id].epoch, store.jobs[id];
      var wallNow := WallClock();
      var now := Clock();
      if outcome.Success? || outcome.Fatal? || job.attempts >= job.spec.maxAttempts {
        times := Times(wallNow, now, IdealCap(retryConfig, job.attempts));
        OutcomeRecord(s, id, outcome, times);
        var r := if outcome.Success? then JobCompleted(id, epoch, wallNow) else JobDead(id, epoch, wallNow);
        ok := EndFor(r, OutcomeStep(job, outcome, times));
      } else {
        ok, times := EndWithRetry(id, outcome, wallNow, now);
      }
    }

    /** A failed attempt with attempts left: draw the delay, then schedule the retry. */
    method EndWithRetry(id: JobId, outcome: WorkerOutcome, wallNow: Millis, now: Instant)
      returns (ok: bool, ghost times: Times)
      requires Valid() && id in leases && id in store.jobs && store.jobs[id].id == id && now == clock
      requires outcome.Retryable? || outcome.Panic?
      requires store.jobs[id].attempts < store.jobs[id].spec.maxAttempts
      modifies this, store, rng
      ensures Valid() && leases == old(leases) - {id} && clock == old(clock)
      ensures var e := if ok then OutcomeStep(old(store.jobs)[id], outcome, times) else DropLease(id);
              Enabled(old(View()), e) && View() == Exec(old(View()), e)
      ensures failures == old(failures) + if ok then 0 else 1
      ensures TimesOk(times, old(clock), clock, retryConfig, old(store.jobs)[id].attempts)
      ensures DelayDrawn(retryConfig, old(store.jobs)[id].attempts, old(rng.draws), rng.draws, times.delay)
    {
      hide Inv, Exec, Enabled, RecordOf, IdealCap, DelayDrawn, OutcomeStep;
      var epoch, job := leases[id].epoch, store.jobs[id];
      var delay := Delay(retryConfig, job.attempts, rng);
      times := Times(wallNow, now, delay);
      OutcomeRecord(View(), id, outcome, times);
      ok := EndForRetry(JobRetryScheduled(id, epoch, job.attempts, wallNow + delay / NANOS_PER_MILLI),
                        now + delay, OutcomeStep(job, outcome, times));
    }

    /** What a reported outcome, or a timeout, does to a leased job. The times of a retry are the
        two clocks' readings plus the same delay. */
    method EndLease(id: JobId, outcome: WorkerOutcome) returns (ghost e: Event, ghost times: Times)
      requires Valid() && id in leases
      modifies this, store, rng
      ensures Valid() && Enabled(old(View()), e) && View() == Exec(old(View()), e)
      ensures id in old(store.jobs)
      ensures e == DropLease(id) || e == OutcomeStep(old(store.jobs)[id], outcome, times)
      ensures TimesOk(times, old(clock), clock, retryConfig, old(store.jobs)[id].attempts)
      ensures leases == old(leases) - {id} && old(clock) <= clock
      ensures failures == old(failures) + if e.DropLease? then 1 else 0
      ensures LeasesComplete(old(store.jobs), old(leases)) ==>
                (LeasesComplete(store.jobs, leases) <==> failures == old(failures))
      ensures id in store.jobs && OthersStay(old(store.jobs), store.jobs, id)
      ensures failures == old(failures) ==>
                && Ended(old(store.jobs)[id], store.jobs[id], outcome)
                && EndRecorded(old(View()), View(), id, old(leases)[id].epoch, times)
      ensures failures != old(failures) ==>
                store.jobs == old(store.jobs) && log == old(log) && retry == old(retry)
      ensures var job := old(store.jobs)[id];
              if (outcome == Retryable || outcome == Panic) && job.attempts < job.spec.maxAttempts
              then DelayDrawn(retryConfig, job.attempts, old(rng.draws), rng.draws, times.delay)
              else rng.draws == old(rng.draws)
    {
      hide Inv, Exec, Enabled, RecordOf, IdealCap, LeasesComplete, Ended, EndRecorded, DelayDrawn, OutcomeStep,
           OthersStay, TimesOk;
      ghost var s := View();
      LeasedRuns(s, id);
      JobKnowsItsId(s, id);
      LeaseDropped(s, id);
      var ok;
      ok, times := EndAttempt(id, outcome);
      OutcomeEffect(s, id, outcome, times);
      StepKinds(s.store[id], outcome, times);
      e := if ok then OutcomeStep(s.store[id], outcome, times) else DropLease(id);
      if LeasesComplete(s.store, s.leases) { LeasesStayComplete(s, e); }
    }

    /** `do_worker_outcome`: an outcome that does not carry the current lease changes only a counter. */
    method DoWorkerOutcome(id: JobId, epoch: nat, outcome: WorkerOutcome) returns (ghost e: Event, ghost times: Times)
      requires Valid()
      modifies this, store, rng
      ensures Valid() && old(clock) <= clock
      ensures !(id in old(leases) && old(leases)[id].epoch == epoch) ==> View() == old(View()).(stale := old(stale) + 1)
      ensures id in old(leases) && old(leases)[id].epoch == epoch ==>
                && Enabled(old(View()), e) && View() == Exec(old(View()), e) && id in old(store.jobs)
                && (e == DropLease(id) || e == OutcomeStep(old(store.jobs)[id], outcome, times))
                && TimesOk(times, old(clock), clock, retryConfig, old(store.jobs)[id].attempts)
                && failures == old(failures) + if e.DropLease? then 1 else 0
      ensures !(id in old(leases) && old(leases)[id].epoch == epoch) ==> failures == old(failures)
      ensures id in old(leases) && old(leases)[id].epoch == epoch && failures == old(failures) ==>
                && id in old(store.jobs) && id in store.jobs && id !in leases
                && OthersStay(old(store.jobs), store.jobs, id)
                && EndRecorded(old(View()), View(), id, epoch, times)
                && var before, after := old(store.jobs)[id], store.jobs[id];
                && after == before.(state := after.state)
                && (outcome == Success ==> after.state == Completed)
                && (outcome == Fatal ==> after.state == Dead)
                && ((outcome == Retryable || outcome == Panic) && before.attempts < before.spec.maxAttempts ==>
                      after.state == RetryWaiting)
                && ((outcome == Retryable || outcome == Panic) && before.attempts >= before.spec.maxAttempts ==>
                      after.state == Dead)
      ensures id in old(leases) && old(leases)[id].epoch == epoch && failures != old(failures) ==>
                store.jobs == old(store.jobs) && log == old(log) && retry == old(retry)
      ensures id in old(leases) && old(leases)[id].epoch == epoch && id in old(store.jobs) ==>
                var job := old(store.jobs)[id];
                if (outcome == Retryable || outcome == Panic) && job.attempts < job.spec.maxAttempts
                then DelayDrawn(retryConfig, job.attempts, old(rng.draws), rng.draws, times.delay)
                else rng.draws == old(rng.draws)
      ensures LeasesComplete(old(store.jobs), old(leases)) ==>
                (LeasesComplete(store.jobs, leases) <==> failures == old(failures))
    {
      hide Inv, IdealCap, LeasesComplete, EndRecorded, OthersStay, DelayDrawn;
      e, times := StaleOutcome, Times(0, 0, 0);
      if id !in leases || leases[id].epoch != epoch {
        StepKeepsInv(View(), StaleOutcome);
        stale := stale + 1;
        return;
      }
      e, times := EndLease(id, outcome);
    }

    // ----- timers -----

    /** A job that still waits becomes ready. */
    method Requeue(id: JobId)
      modifies this`stats, this`ready, store
      ensures View() == Requeued(old(View()), id)
    {
      hide ShiftStats;
      if id in store.jobs && store.jobs[id].state.RetryWaiting? {
        var q := store.jobs[id].queue;
        var ok := store.TransitionToQueued(id);
        if ok && q in ready {
          MoveStats(q, RetryWaiting, Queued);
          ready := ready[q := ready[q] + [id]];
        }
      }
    }

    /** A due entry leaves the heap. */
    method PromoteEntry(entry: RetryEntry)
      modifies this`retry, this`stats, this`ready, store
      ensures View() == Popped(old(View()), entry)
    {
      hide Requeued, SameFrame;
      retry := retry - multiset{entry};
      Requeue(entry.id);
    }

    /** `process_due_retries`: everything due at `now` leaves the heap, earliest first, and nothing else. */
    method ProcessDueRetries(now: Instant) returns (ghost es: seq<Event>)
      requires Valid()
      modifies this, store
      ensures Valid() && Ran(old(View()), es, View())
      ensures EarliestFirst(es, now) && OnlyLaterLeft(retry, old(retry), now)
      ensures forall x :: x in retry ==> x.availableAt > now
      ensures shuttingDown == old(shuttingDown) && leases == old(leases) && parked == old(parked)
      ensures clock == old(clock) && failures == old(failures) && log == old(log)
    {
      hide Inv, Exec, Enabled, Popped, EarliestFirst, OnlyLaterLeft, NoneLater;
      es := [];
      ghost var s := View();
      NoPopsYet(retry, now);
      while retry != multiset{}
        invariant Valid() && Ran(s, es, View())
        invariant EarliestFirst(es, now) && OnlyLaterLeft(retry, s.retry, now) && NoneLater(es, retry)
        invariant shuttingDown == s.shuttingDown && leases == s.leases && parked == s.parked && log == s.log
        invariant clock == old(clock) && failures == old(failures)
        decreases |retry|
      {
        var entry := Peek(retry);
        if entry.availableAt > now {
          return;
        }
        ghost var before := View();
        PopStep(before, entry);
        PromoteEntry(entry);
        ExtendRun(s, es, before, PopRetry(entry), View());
        PopEarliest(es, before.retry, s.retry, entry, now);
        es := es + [PopRetry(entry)];
      }
    }

    /** `check_lease_timeouts`: every lease whose deadline has passed at `now` is ended once, as a failed
        attempt, in any order; the others stay. */
    method CheckLeaseTimeouts(now: Instant)
      returns (ghost es: seq<Event>, ghost ids: seq<JobId>, ghost times: seq<Times>)
      requires Valid()
      modifies this, store, rng
      ensures Valid() && old(clock) <= clock
      ensures TimeoutsDone(old(View()), View(), es, ids, times, old(clock), clock, retryConfig,
                           failures != old(failures))
      ensures forall id :: id in ids <==> id in old(leases) && old(leases)[id].deadline <= now
      ensures leases == map id | id in old(leases) && old(leases)[id].deadline > now :: old(leases)[id]
      ensures failures == old(failures) + Drops(es)
    {
      hide Inv, Exec, Enabled, RecordOf, IdealCap, TimeoutsDone, LeasesComplete, Drops, Ended, EndRecorded, OthersStay,
           DelayDrawn;
      es, ids, times := [], [], [];
      ghost var s := View();
      NoTimeouts(s, clock, retryConfig);
      var expired := set id | id in leases && leases[id].deadline <= now;
      while expired != {}
        invariant expired <= leases.Keys && Valid() && old(clock) <= clock
        invariant TimeoutsDone(s, View(), es, ids, times, old(clock), clock, retryConfig, failures != old(failures))
        invariant forall id :: id in ids <==> id in s.leases && s.leases[id].deadline <= now && id !in expired
        invariant forall id :: id in leases <==> id in s.leases && (s.leases[id].deadline > now || id in expired)
        invariant forall id :: id in leases ==> leases[id] == s.leases[id]
        invariant failures == old(failures) + Drops(es)
      {
        var id :| id in expired;
        expired := expired - {id};
        ghost var before, lastClock, n := View(), clock, failures;
        ghost var e, t;
        e, t := EndLease(id, Retryable);
        OneMoreTimeout(s, before, es, ids, times, e, id, t, old(clock), lastClock, clock, retryConfig,
                       n != old(failures));
        es, ids, times := es + [e], ids + [id], times + [t];
      }
    }

    /** `next_deadline`: the earliest of all retry, lease and shutdown deadlines. */
    method NextDeadline() returns (d: Option<Instant>)
      ensures d.None? <==> forall t :: !Pending(View(), t)
      ensures d.Some? ==> Pending(View(), d.value) && forall t :: Pending(View(), t) ==> d.value <= t
    {
      d := None;
      if retry != multiset{} {
        var entry := Peek(retry);
        d := Some(entry.availableAt);
      }
      ghost var first := d;
      var todo := leases.Keys;
      while todo != {}
        invariant todo <= leases.Keys
        invariant d.Some? ==> first == d || exists id :: id in leases && leases[id].deadline == d.value
        invariant first.Some? ==> d.Some? && d.value <= first.value
        invariant d.None? ==> first.None? && todo == leases.Keys
        invariant forall id :: id in leases && id !in todo ==> d.Some? && d.value <= leases[id].deadline
      {
        var id :| id in todo;
        todo := todo - {id};
        d := Earlier(d, leases[id].deadline);
      }
      if shutdownDeadline.Some? {
        d := Earlier(d, shutdownDeadline.value);
      }
      assert d.Some? ==> Pending(View(), d.value);
      assert d.None? ==> retry == multiset{} && leases == map[] && shutdownDeadline.None?;
    }

    // ----- shutdown -----

    method WakeParked()
      modifies this`parked
      ensures parked == []
    {
      while parked != []
        decreases |parked|
      {
        parked := parked[1..];
      }
    }

    /** `start_shutdown`. */
    method StartShutdown()
      returns (ghost deadline: Instant)
      requires Valid()
      modifies this
      ensures Valid() && old(clock) <= clock && failures == old(failures)
      ensures old(shuttingDown) ==> View() == old(View())
      ensures !old(shuttingDown) ==>
                && deadline == clock + shutdownTimeout && View() == Exec(old(View()), BeginShutdown(deadline))
                && shuttingDown && parked == [] && leases == old(leases) && log == old(log)
                && shutdownDeadline == if old(leases) == map[] then None else Some(clock + shutdownTimeout)
    {
      hide Inv, Exec, Enabled;
      deadline := 0;
      if shuttingDown {
        return;
      }
      var now := Clock();
      deadline := now + shutdownTimeout;
      ShutdownBegins(View(), deadline);
      shuttingDown := true;
      WakeParked();
      shutdownDeadline := if leases == map[] then None else Some(now + shutdownTimeout);
    }

    /** `force_shutdown`: the remaining leases are cancelled and forgotten, and their jobs stay running
        in the log until the next start. */
    method ForceShutdown() returns (ghost es: seq<Event>)
      requires Valid()
      modifies this
      ensures Valid() && Ran(old(View()), es, View())
      ensures View() == old(View()).(leases := map[])
      ensures clock == old(clock) && failures == old(failures)
      ensures LeasesComplete(old(store.jobs), old(leases)) ==>
                (LeasesComplete(store.jobs, leases) <==> old(leases) == map[])
    {
      hide Inv, Exec, Enabled, LeasesComplete;
      AllDropped(View());
      es := [];
      ghost var s := View();
      while leases != map[]
        invariant Valid() && Ran(s, es, View()) && View() == s.(leases := leases)
        invariant clock == old(clock) && failures == old(failures)
        decreases leases.Keys
      {
        var id :| id in leases;
        ghost var before := View();
        leases := leases - {id};
        DropStep(before, id);
        ExtendRun(s, es, before, DropLease(id), View());
        es := es + [DropLease(id)];
      }
    }

    /** One turn of the main loop up to the point where it waits. The passes read the clock at
        `retryTime` and at `leaseTime`. */
    method Turn()
      returns (sent: seq<(Worker, LeasedJob)>, ghost es: seq<Event>, ghost retryTime: Instant, ghost leaseTime: Instant)
      requires Valid()
      modifies this, store, rng
      ensures Valid() && Ran(old(View()), es, View())
      ensures old(clock) <= retryTime <= leaseTime <= clock && old(failures) <= failures
      ensures !shuttingDown && failures == old(failures) ==> parked == [] || NothingReady(View())
      ensures failures == old(failures) ==> FairRun(old(View()), es)
      ensures NotBefore(es, old(clock))
      ensures forall i :: 0 <= i < |sent| ==>
                sent[i].1.id in leases && leases[sent[i].1.id].epoch == sent[i].1.epoch
      ensures forall x :: x in retry ==> x.availableAt > retryTime || ScheduledBy(es, x)
      ensures forall id :: id in leases ==>
                leases[id].deadline > leaseTime || LeasedSince(log, |old(log)|, id, leases[id].epoch)
    {
      hide Inv, Exec, Enabled, NothingReady, NotBefore, ScheduledBy, EarliestFirst, OnlyLaterLeft,
           TimedOut, LeasesComplete, LeasedSince, Fair;
      ghost var s := View();
      var now := Clock();
      retryTime := now;
      es := ProcessDueRetries(now);
      PopsOnly(s, es, now);
      ghost var more, ids, times;
      now := Clock();
      leaseTime := now;
      ghost var mid, n := View(), |log|;
      more, ids, times := CheckLeaseTimeouts(now);
      EndsOnly(mid, more, ids, times, leaseTime, clock, retryConfig);
      RunConcat(s, es, more);
      FairConcat(s, es, more);
      PartOfRun(es, more, old(clock), leaseTime);
      es := es + more;
      ghost var m := |log|;
      sent, more := TryDispatch();
      RunConcat(s, es, more);
      if failures == old(failures) { FairConcat(s, es, more); }
      LeasesOnly(more, old(clock));
      PartOfRun(es, more, old(clock), old(clock));
      es := es + more;
      SinceEarlier(log, n, m);
    }
  }

  /** The passes over the recovered lists and jobs. */
  method BuildIndexes(rec: RecoveredState, order: seq<QueueName>, now: Instant, wallNow: Millis)
    returns (ready: map<QueueName, seq<JobId>>, stats: map<QueueName, QueueStats>, heap: multiset<RetryEntry>)
    ensures ready == map q | q in Elems(order) :: StillQueued(rec.store, ListOf(rec.queuedJobs, q))
    ensures stats == map q | q in Elems(order) :: StartStats(rec, q)
    ensures heap == HeapOf(WaitingFor(rec.store, rec.retryJobs), now, wallNow)
  {
    hide HeapOf, StartStats, StillQueued, WaitingFor, CountsRetries, TerminalCounts;
    ready, stats := NewQueues(order);
    ready, stats := FillReady(rec, ready, stats);
    ghost var stats0 := stats;
    heap, stats := FillHeap(rec, now, wallNow, stats);
    ghost var stats1 := stats;
    NoTerminalYet(stats0, stats1, rec.store, WaitingFor(rec.store, rec.retryJobs));
    stats := CountTerminal(rec.store, stats);
    AllStartCounts(rec, ready, stats0, stats1, stats);
  }
}
