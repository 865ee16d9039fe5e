/** Facts about single steps and short runs that the coordinator's methods are made of: leases and
    who grants them, timeouts, timers, and fair runs. */
module CoordSteps {
  import opened Types
  import opened Seqs
  import opened JobStore
  import opened Tracker
  import opened History
  import opened CoordSpec
  import opened CoordLemmas
  import opened CoordInv
  import opened CoordLaws
  import opened RoundRobin
  import opened Backoff

  /** What a worker is told to run. */
  datatype LeasedJob = LeasedJob(id: JobId, queue: QueueName, spec: JobSpec, attempt: nat, epoch: nat)

  datatype WorkerOutcome = Success | Retryable | Fatal | Panic

  /** What was read from the clocks, and the delay, when a lease ended. */
  datatype Times = Times(at: Millis, now: Instant, delay: Duration)

  ghost predicate TimesOk(t: Times, first: Instant, last: Instant, c: RetryConfig, attempt: nat) {
    && first <= t.now <= last
    && t.delay <= IdealCap(c, attempt)
    && (c.jitter.NoJitter? ==> t.delay == IdealCap(c, attempt))
  }

  /** The step a reported outcome asks for. */
  ghost function OutcomeStep(job: Job, outcome: WorkerOutcome, t: Times): Event {
    match outcome
    case Success => Complete(job.id, t.at)
    case Fatal => Bury(job.id, t.at)
    case _ =>
      if job.attempts >= job.spec.maxAttempts then Bury(job.id, t.at)
      else ScheduleRetry(job.id, t.now + t.delay, t.at + t.delay / NANOS_PER_MILLI)
  }

  // ----- what an outcome means -----

  /** A success completes the job and a fatal error kills it; a failed or crashed attempt makes it wait
      for another, or kills it when its attempts are used up. Nothing else about it changes. */
  ghost predicate Ended(before: Job, after: Job, outcome: WorkerOutcome) {
    && after.id == before.id && after.queue == before.queue && after.spec == before.spec
    && after.createdAt == before.createdAt && after.attempts == before.attempts
    && (outcome == Success ==> after.state == Completed)
    && (outcome == Fatal ==> after.state == Dead)
    && ((outcome == Retryable || outcome == Panic) && before.attempts < before.spec.maxAttempts ==>
          after.state == RetryWaiting)
    && ((outcome == Retryable || outcome == Panic) && before.attempts >= before.spec.maxAttempts ==>
          after.state == Dead)
  }

  /** The record that ends the lease, and the timer of a retry: the persisted time is the wall clock's
      reading plus the delay in milliseconds, the timer's the monotonic clock's plus the delay. */
  ghost predicate EndRecorded(s: State, s': State, id: JobId, epoch: nat, t: Times)
    requires id in s.store && id in s'.store
  {
    var wall := t.at + t.delay / 1_000_000;
    && (s'.store[id].state == Completed ==> s'.log == s.log + [JobCompleted(id, epoch, t.at)] && s'.retry == s.retry)
    && (s'.store[id].state == Dead ==> s'.log == s.log + [JobDead(id, epoch, t.at)] && s'.retry == s.retry)
    && (s'.store[id].state == RetryWaiting ==>
          && s'.log == s.log + [JobRetryScheduled(id, epoch, s.store[id].attempts, wall)]
          && s'.retry == s.retry + multiset{RetryEntry(t.now + t.delay, wall, id)})
  }

  ghost predicate OthersStay(store: Store, store': Store, id: JobId) {
    forall x :: x in store && x != id ==> x in store' && store'[x] == store[x]
  }

  lemma MovedMeans(store: Store, r: Record)
    requires Apply(store, r).Applied? && !r.JobSubmitted?
    ensures OneRecordLater(store, MovedStore(store, r), r) && OthersStay(store, MovedStore(store, r), r.id)
  {
    ApplyMeans(store, r);
  }

  lemma StepKinds(job: Job, outcome: WorkerOutcome, t: Times)
    ensures !OutcomeStep(job, outcome, t).DropLease?
  {
  }

  /** Which record an outcome asks for. */
  lemma OutcomeRecord(s: State, id: JobId, outcome: WorkerOutcome, t: Times)
    requires id in s.leases && id in s.store && s.store[id].id == id
    ensures var e, job, epoch := OutcomeStep(s.store[id], outcome, t), s.store[id], s.leases[id].epoch;
            var again := (outcome == Retryable || outcome == Panic) && job.attempts < job.spec.maxAttempts;
            var wall := t.at + t.delay / 1_000_000;
            && Enabled(s, e)
            && (outcome == Success ==> e.Complete? && RecordOf(s, e) == Some(JobCompleted(id, epoch, t.at)))
            && (again ==> e == ScheduleRetry(id, t.now + t.delay, wall)
                          && RecordOf(s, e) == Some(JobRetryScheduled(id, epoch, job.attempts, wall)))
            && (outcome != Success && !again ==> e.Bury? && RecordOf(s, e) == Some(JobDead(id, epoch, t.at)))
  {
  }

  /** A step that ends a lease applies its record, and a retry also sets its timer. */
  lemma EndApplies(s: State, e: Event, r: Record)
    requires Inv(s) && Enabled(s, e) && RecordOf(s, e) == Some(r) && (e.Complete? || e.Bury? || e.ScheduleRetry?)
    ensures var s' := Exec(s, e);
            && OneRecordLater(s.store, s'.store, r) && OthersStay(s.store, s'.store, r.id) && s'.log == s.log + [r]
            && (e.ScheduleRetry? ==>
                  s'.retry == s.retry + multiset{RetryEntry(e.availableAt, e.wallAvailableAt, e.id)})
            && (!e.ScheduleRetry? ==> s'.retry == s.retry)
  {
    hide Inv, Legal, SameFrame, Exec, Enabled, RecordOf, MovedStore, Apply, ClosedBy, RetriedBy, OthersStay,
         OneRecordLater;
    PersistedIsLegal(s, e);
    RecordKind(s, e);
    MovedMeans(s.store, r);
    if e.ScheduleRetry? {
      RetryStep(s, e, r);
      RetriedParts(Unleased(s, r.id), r, RetryEntry(e.availableAt, e.wallAvailableAt, e.id));
    } else {
      EndStep(s, e, r);
      ClosedParts(Unleased(s, r.id), r);
    }
  }

  /** The step for an outcome can be taken, and means what the outcome says. */
  lemma OutcomeEffect(s: State, id: JobId, outcome: WorkerOutcome, t: Times)
    requires Inv(s) && id in s.leases && id in s.store && s.store[id].id == id
    ensures var e := OutcomeStep(s.store[id], outcome, t);
            && Enabled(s, e)
            && var s' := Exec(s, e);
            && id in s'.store && Ended(s.store[id], s'.store[id], outcome) && OthersStay(s.store, s'.store, id)
            && EndRecorded(s, s', id, s.leases[id].epoch, t)
  {
    hide Inv, Exec, Enabled, RecordOf, OthersStay, OutcomeStep;
    var e := OutcomeStep(s.store[id], outcome, t);
    OutcomeRecord(s, id, outcome, t);
    EndApplies(s, e, RecordOf(s, e).value);
  }

  lemma ClosedParts(s: State, r: Record)
    requires r.id in s.store && Apply(s.store, r).Applied?
    ensures var t := ClosedBy(s, r);
            t.store == MovedStore(s.store, r) && t.log == s.log + [r] && t.retry == s.retry
  {
    hide SameFrame, MovedStore, MovedStats, MovedTally, ReleasedSems, Apply;
  }

  lemma RetriedParts(s: State, r: Record, entry: RetryEntry)
    requires r.id in s.store && Apply(s.store, r).Applied?
    ensures var t := RetriedBy(s, r, entry);
            t.store == MovedStore(s.store, r) && t.log == s.log + [r] && t.retry == s.retry + multiset{entry}
  {
    hide SameFrame, MovedStore, MovedStats, MovedTally, Apply;
  }

  /** Expired leases: the jobs of `ids` have failed an attempt, or some persist has failed. */
  ghost predicate TimeoutStates(store: Store, store': Store, ids: seq<JobId>, failed: bool) {
    && (forall x :: x in store ==> x in store')
    && (forall x :: x in store && x !in ids ==> store'[x] == store[x])
    && (forall x :: x in ids ==> x in store && (store'[x] == store[x] || Ended(store[x], store'[x], Retryable)))
    && (!failed ==> forall x :: x in ids ==> Ended(store[x], store'[x], Retryable))
  }

  lemma OneMoreEnded(store: Store, mid: Store, after: Store, ids: seq<JobId>, id: JobId, failed: bool, fails: bool)
    requires TimeoutStates(store, mid, ids, failed) && id !in ids && id in mid && (id in store ==> mid[id] == store[id])
    requires id in store
    requires id in after && OthersStay(mid, after, id)
    requires if fails then after == mid else Ended(mid[id], after[id], Retryable)
    ensures TimeoutStates(store, after, ids + [id], failed || fails)
  {
    hide Ended;
  }

  lemma StillThere(s: State, now: State, ids: seq<JobId>, id: JobId, failed: bool)
    requires Inv(s) && id in s.leases && TimeoutStates(s.store, now.store, ids, failed) && id !in ids
    ensures id in s.store && id in now.store && now.store[id] == s.store[id]
  {
    hide Inv;
    LeasedRuns(s, id);
  }

  lemma LeaseDropped(s: State, id: JobId)
    requires id in s.leases
    ensures Enabled(s, DropLease(id)) && OthersStay(s.store, s.store, id)
    ensures var s' := Exec(s, DropLease(id)); s'.store == s.store && s'.log == s.log && s'.retry == s.retry
  {
  }

  lemma SubmitKeepsParked(s: State, e: Event)
    requires e.Submit? && Enabled(s, e)
    ensures Exec(s, e).parked == s.parked
  {
    hide SameFrame;
  }

  lemma NoneEnded(store: Store)
    ensures TimeoutStates(store, store, [], false)
  {
  }

  // ----- what a worker is handed -----

  /** The worker's job is running under the worker's lease, and is described as it is. */
  ghost predicate WorksOn(store: Store, leases: map<JobId, Lease>, j: LeasedJob, first: Instant, last: Instant) {
    && j.id in leases && leases[j.id].epoch == j.epoch && first <= leases[j.id].deadline <= last
    && j.id in store && store[j.id].state == Running && store[j.id].attempts == j.attempt
    && store[j.id].queue == j.queue && store[j.id].spec == j.spec
  }

  lemma LeaseEffect(s: State, e: Event)
    requires Inv(s) && e.LeaseJob? && Enabled(s, e) && RecordOf(s, e).Some?
    ensures var r, s' := RecordOf(s, e).value, Exec(s, e);
            && r.JobLeased? && r.id in s.store && s.store[r.id].state == Queued && r.id !in s.leases
            && s'.leases == s.leases[r.id := Lease(r.epoch, e.deadline)]
            && OthersStay(s.store, s'.store, r.id)
            && var job := s.store[r.id];
            WorksOn(s'.store, s'.leases, LeasedJob(r.id, job.queue, job.spec, r.attempt, r.epoch),
                    e.deadline, e.deadline)
  {
    hide Inv, Legal, SameFrame, Apply, OthersStay, MovedStore, MovedStats, MovedTally;
    var r := RecordOf(s, e).value;
    PersistedIsLegal(s, e);
    MovedMeans(s.store, r);
    if r.id in s.leases { LeasedRuns(s, r.id); }
  }

  /** The first parked workers have been handed one job each, and no job twice. */
  ghost predicate Dispatched(s: State, now: State, sent: seq<(Worker, LeasedJob)>, first: Instant, last: Instant) {
    && |sent| <= |s.parked| && now.parked == s.parked[|sent|..]
    && s.leases.Keys <= now.leases.Keys
    && (forall i :: 0 <= i < |sent| ==>
          && sent[i].0 == s.parked[i] && sent[i].1.id !in s.leases
          && WorksOn(now.store, now.leases, sent[i].1, first, last))
    && (forall i, j :: 0 <= i < j < |sent| ==> sent[i].1.id != sent[j].1.id)
  }

  lemma NothingSent(s: State, t: Instant)
    ensures Dispatched(s, s, [], t, t)
  {
  }

  lemma SentEarlier(s: State, now: State, sent: seq<(Worker, LeasedJob)>, first: Instant, last: Instant, last': Instant)
    requires Dispatched(s, now, sent, first, last) && last <= last'
    ensures Dispatched(s, now, sent, first, last')
  {
  }

  lemma OneMoreSent(s: State, before: State, now: State, sent: seq<(Worker, LeasedJob)>, j: LeasedJob,
                    deadline: Instant, first: Instant, last: Instant)
    requires Dispatched(s, before, sent, first, last) && before.parked != [] && first <= deadline <= last
    requires j.id !in before.leases && now.leases == before.leases[j.id := Lease(j.epoch, deadline)]
    requires OthersStay(before.store, now.store, j.id) && WorksOn(now.store, now.leases, j, deadline, deadline)
    requires now.parked == before.parked[1..]
    ensures Dispatched(s, now, sent + [(before.parked[0], j)], first, last)
  {
    var sent' := sent + [(before.parked[0], j)];
    assert now.parked == s.parked[|sent'|..];
    forall i | 0 <= i < |sent'|
      ensures sent'[i].0 == s.parked[i] && sent'[i].1.id !in s.leases
      ensures WorksOn(now.store, now.leases, sent'[i].1, first, last)
    {
      if i < |sent| { assert WorksOn(before.store, before.leases, sent[i].1, first, last); }
    }
  }

  // ----- runs -----

  ghost predicate Ran(s: State, es: seq<Event>, s': State) { CanRun(s, es) && s' == ExecAll(s, es) }

  lemma ExtendRun(s: State, es: seq<Event>, before: State, e: Event, after: State)
    requires Ran(s, es, before) && Enabled(before, e) && after == Exec(before, e)
    ensures Ran(s, es + [e], after)
  {
    hide Exec, Enabled;
    RunSnoc(s, es, e);
  }

  ghost predicate NothingReady(s: State) { forall q :: q in s.ready ==> s.ready[q] == [] }

  /** A full round that finds every queue empty has looked at all of them. */
  lemma AllSkipped(s: State)
    requires Inv(s) && forall i :: 0 <= i < |s.order| ==> Skipped(s, i)
    ensures NothingReady(s)
  {
    hide LogInv, LeaseInv, QueuesKnown, RetryInv, StatsInv, PermitInv, SemInv, ReadyAll, FifoInv;
    forall q | q in s.ready ensures s.ready[q] == [] {
      var n := |s.order|;
      assert q in Elems(s.order);
      var j :| 0 <= j < n && s.order[j] == q;
      var i := Distance(s.cursor, j, n);
      WrapIsMod(s.cursor + i, n);
      assert Skipped(s, i) && ServedQueue(s, i) == q;
    }
  }

  lemma SkippedIffNothingReady(s: State)
    requires Inv(s)
    ensures NothingReady(s) <==> forall i :: 0 <= i < |s.order| ==> Skipped(s, i)
  {
    hide Inv;
    if forall i :: 0 <= i < |s.order| ==> Skipped(s, i) { AllSkipped(s); }
  }

  lemma FairLease(s: State, es: seq<Event>, e: Event)
    requires FairRun(s, es) && e.LeaseJob? && Enabled(ExecAll(s, es), e)
    requires forall i :: 0 <= i < e.skip ==> Skipped(ExecAll(s, es), i)
    ensures FairRun(s, es + [e])
  {
    hide Enabled, Exec, FairRun;
    FairSnoc(s, es, e);
  }

  lemma FairUnpark(s: State, es: seq<Event>)
    requires FairRun(s, es) && Enabled(ExecAll(s, es), Unpark)
    ensures FairRun(s, es + [Unpark])
  {
    hide Enabled, Exec, FairRun;
    FairSnoc(s, es, Unpark);
  }

  lemma SubmissionApplies(store: Store, r: Record)
    requires r.JobSubmitted?
    ensures Apply(store, r) == Applied(store[r.id := NewJob(r.id, r.queue, r.spec, r.createdAt)])
  {
  }

  lemma SubmitIsFair(s: State, e: Event)
    requires !e.LeaseJob? && Enabled(s, e)
    ensures FairRun(s, [e])
  {
    hide Enabled, Exec;
    assert FairRun(s, []) && ExecAll(s, []) == s && [] + [e] == [e];
    FairSnoc(s, [], e);
  }

  lemma LeaseKeepsParked(s: State, e: Event) returns (r: Record)
    requires e.LeaseJob? && Enabled(s, e)
    ensures Exec(s, e).parked == s.parked && !Exec(s, e).shuttingDown && Exec(s, e).retry == s.retry
    ensures r.JobLeased? && Exec(s, e).log == s.log + [r]
    ensures Exec(s, e).leases == s.leases[r.id := Lease(r.epoch, e.deadline)]
  {
    hide SameFrame;
    r := RecordOf(s, e).value;
  }

  /** The log has a lease of this job and epoch since its length was `n`. */
  ghost predicate LeasedSince(log: seq<Record>, n: nat, id: JobId, epoch: nat) {
    exists k :: n <= k < |log| && log[k].JobLeased? && log[k].id == id && log[k].epoch == epoch
  }

  /** A lease that is new was granted since: it is in the log, and it ends within the given times. */
  ghost predicate OnlyGranted(before: map<JobId, Lease>, after: map<JobId, Lease>, log: seq<Record>, n: nat,
                              first: Instant, last: Instant)
  {
    forall id :: id in after ==>
      || (id in before && before[id] == after[id])
      || (first <= after[id].deadline <= last && LeasedSince(log, n, id, after[id].epoch))
  }

  lemma NothingGranted(leases: map<JobId, Lease>, log: seq<Record>, t: Instant)
    ensures OnlyGranted(leases, leases, log, |log|, t, t)
  {
  }

  lemma Later(before: map<JobId, Lease>, after: map<JobId, Lease>, log: seq<Record>, n: nat,
              first: Instant, t: Instant, t': Instant)
    requires OnlyGranted(before, after, log, n, first, t) && t <= t'
    ensures OnlyGranted(before, after, log, n, first, t')
  {
    hide LeasedSince;
  }

  lemma Granted(before: map<JobId, Lease>, after: map<JobId, Lease>, log: seq<Record>, n: nat, r: Record,
                deadline: Instant, first: Instant, last: Instant)
    requires OnlyGranted(before, after, log, n, first, last) && n <= |log|
    requires r.JobLeased? && first <= deadline <= last
    ensures OnlyGranted(before, after[r.id := Lease(r.epoch, deadline)], log + [r], n, first, last)
  {
    hide LeasedSince;
    forall id, epoch: nat | LeasedSince(log, n, id, epoch) ensures LeasedSince(log + [r], n, id, epoch) {
      LeasedEarlier(log, n, id, epoch, r);
    }
    LeasedNow(log, n, r);
  }

  lemma LeasedEarlier(log: seq<Record>, n: nat, id: JobId, epoch: nat, r: Record)
    requires LeasedSince(log, n, id, epoch)
    ensures LeasedSince(log + [r], n, id, epoch)
  {
    var k :| n <= k < |log| && log[k].JobLeased? && log[k].id == id && log[k].epoch == epoch;
    assert (log + [r])[k] == log[k];
  }

  lemma LeasedNow(log: seq<Record>, n: nat, r: Record)
    requires n <= |log| && r.JobLeased?
    ensures LeasedSince(log + [r], n, r.id, r.epoch)
  {
    assert (log + [r])[|log|] == r;
  }

  /** How far handing out jobs to parked workers has come. */
  ghost predicate DispatchDone(s: State, now: State, es: seq<Event>, sent: seq<(Worker, LeasedJob)>,
                               first: Instant, last: Instant, fair: bool)
  {
    && Ran(s, es, now) && (forall e :: e in es ==> e.LeaseJob? || e.Unpark?)
    && Dispatched(s, now, sent, first, last)
    && OnlyGranted(s.leases, now.leases, now.log, |s.log|, first, last)
    && now.retry == s.retry && s.log <= now.log && now.shuttingDown == s.shuttingDown
    && (fair ==> FairRun(s, es))
  }

  lemma DispatchNone(s: State, t: Instant)
    ensures DispatchDone(s, s, [], [], t, t, true)
  {
    NothingGranted(s.leases, s.log, t);
    NothingSent(s, t);
  }

  lemma DispatchLater(s: State, now: State, es: seq<Event>, sent: seq<(Worker, LeasedJob)>,
                      first: Instant, last: Instant, last': Instant, fair: bool, fair': bool)
    requires DispatchDone(s, now, es, sent, first, last, fair) && last <= last' && (fair' ==> fair)
    ensures DispatchDone(s, now, es, sent, first, last', fair')
  {
    hide Ran, Dispatched, OnlyGranted, FairRun;
    Later(s.leases, now.leases, now.log, |s.log|, first, last, last');
    SentEarlier(s, now, sent, first, last, last');
  }

  lemma UnparkOnly(s: State)
    requires s.parked != []
    ensures Enabled(s, Unpark) && Exec(s, Unpark) == s.(parked := s.parked[1..])
  {
  }

  lemma DispatchMore(s: State, before: State, e: Event, es: seq<Event>, sent: seq<(Worker, LeasedJob)>, j: LeasedJob,
                     first: Instant, last: Instant, fair: bool)
    requires DispatchDone(s, before, es, sent, first, last, fair) && before.parked != []
    requires e.LeaseJob? && Enabled(before, e) && first <= e.deadline <= last
    requires fair ==> forall i :: 0 <= i < e.skip ==> Skipped(before, i)
    requires j.id !in before.leases && Exec(before, e).leases == before.leases[j.id := Lease(j.epoch, e.deadline)]
    requires OthersStay(before.store, Exec(before, e).store, j.id)
    requires WorksOn(Exec(before, e).store, Exec(before, e).leases, j, e.deadline, e.deadline)
    ensures var mid := Exec(before, e);
            && mid.parked == before.parked
            && DispatchDone(s, mid.(parked := mid.parked[1..]), es + [e] + [Unpark],
                            sent + [(before.parked[0], j)], first, last, fair)
  {
    hide Exec, Enabled, Skipped, Ran, Dispatched, OnlyGranted, FairRun, WorksOn, OthersStay;
    var mid := Exec(before, e);
    var r := LeaseKeepsParked(before, e);
    var now := mid.(parked := mid.parked[1..]);
    assert s.log <= now.log && |s.log| <= |before.log|;
    assert !before.shuttingDown by { LeaseStaysUp(before, e); }
    RanIs(s, es, before);
    if fair { FairLease(s, es, e); }
    ExtendRun(s, es, before, e, mid);
    RanIs(s, es + [e], mid);
    UnparkOnly(mid);
    if fair { FairUnpark(s, es + [e]); }
    ExtendRun(s, es + [e], mid, Unpark, now);
    Granted(s.leases, before.leases, before.log, |s.log|, r, e.deadline, first, last);
    SameLease(before.leases, r, j, e.deadline, mid.leases);
    OneMoreSent(s, before, now, sent, j, e.deadline, first, last);
  }

  lemma LeaseStaysUp(s: State, e: Event)
    requires e.LeaseJob? && Enabled(s, e)
    ensures !Exec(s, e).shuttingDown && !s.shuttingDown
  {
    hide LeasedBy;
  }

  lemma RanIs(s: State, es: seq<Event>, s': State)
    requires Ran(s, es, s')
    ensures CanRun(s, es) && ExecAll(s, es) == s'
  {
  }

  lemma SameLease(leases: map<JobId, Lease>, r: Record, j: LeasedJob, deadline: Instant, after: map<JobId, Lease>)
    requires r.JobLeased? && j.id !in leases
    requires after == leases[r.id := Lease(r.epoch, deadline)] == leases[j.id := Lease(j.epoch, deadline)]
    ensures r.id == j.id && r.epoch == j.epoch
  {
    assert j.id in leases[r.id := Lease(r.epoch, deadline)];
  }

  lemma ShutdownBegins(s: State, deadline: Instant)
    requires Inv(s) && !s.shuttingDown
    ensures Enabled(s, BeginShutdown(deadline)) && Inv(Exec(s, BeginShutdown(deadline)))
    ensures Exec(s, BeginShutdown(deadline))
         == s.(shuttingDown := true, parked := [],
              shutdownDeadline := if s.leases == map[] then None else Some(deadline))
  {
    hide Inv;
    StepKeepsInv(s, BeginShutdown(deadline));
  }

  lemma UnparkStep(s: State)
    requires Inv(s) && s.parked != []
    ensures Enabled(s, Unpark) && Exec(s, Unpark) == s.(parked := s.parked[1..]) && Inv(s.(parked := s.parked[1..]))
  {
    hide Inv;
    StepKeepsInv(s, Unpark);
  }

  lemma JobKnowsItsId(s: State, id: JobId)
    requires Inv(s) && id in s.store
    ensures s.store[id].id == id
  {
    hide ReadyAll, QueuesKnown, RetryInv, StatsInv, PermitInv, SemInv, FifoInv, ConfigInv, LeaseInv, Replay, TrackAll;
    LiveJob(s, id);
  }

  lemma CancelStep(s: State, id: JobId, at: Millis)
    requires Inv(s) && id in s.store && !s.store[id].state.IsTerminal()
    ensures var e, s' := Cancel(id, at), CancelledBy(s, JobCancelled(id, at));
            && Enabled(s, e) && Exec(s, e) == s' && Inv(s')
            && id in s'.store && s'.store[id] == s.store[id].(state := Cancelled) && OthersStay(s.store, s'.store, id)
            && s'.log == s.log + [JobCancelled(id, at)]
            && id !in s'.leases && id !in s'.permits && forall q :: q in s'.ready ==> id !in s'.ready[q]
  {
    hide Inv, CancelledBy, Apply, MovedStore, OthersStay, Legal;
    var e, r := Cancel(id, at), JobCancelled(id, at);
    StepKeepsInv(s, e);
    CancelFrame(s, r);
    PersistedIsLegal(s, e);
    MovedMeans(s.store, r);
    CancelledStore(s, r);
    CancelledGone(CancelledBy(s, r), id);
  }

  lemma CancelledStore(s: State, r: Record)
    requires r.id in s.store
    ensures CancelledBy(s, r).store == MovedStore(s.store, r)
  {
    hide SameFrame, MovedStore, MovedStats, MovedTally, ReleasedSems, Retain;
  }

  lemma CancelledGone(s: State, id: JobId)
    requires Inv(s) && id in s.store && s.store[id].state == Cancelled
    ensures id !in s.leases && id !in s.permits && forall q :: q in s.ready ==> id !in s.ready[q]
  {
    hide LogInv, LeaseInv, QueuesKnown, RetryInv, StatsInv, SemInv, FifoInv, ConfigInv, Distinct;
    if id in s.leases { LeasedRuns(s, id); }
    forall q | q in s.ready ensures id !in s.ready[q] { assert ReadyInv(s.store, s.ready[q], q); }
  }

  lemma EndStep(s: State, e: Event, r: Record)
    requires (e.Complete? || e.Bury?) && Enabled(s, e) && RecordOf(s, e) == Some(r)
    ensures r.id in s.store && Exec(s, e) == ClosedBy(Unleased(s, r.id), r)
    ensures Enabled(s, DropLease(r.id)) && Exec(s, DropLease(r.id)) == Unleased(s, r.id)
  {
    hide ClosedBy;
  }

  lemma RetryStep(s: State, e: Event, r: Record)
    requires e.ScheduleRetry? && Enabled(s, e) && RecordOf(s, e) == Some(r)
    ensures r.id in s.store
    ensures Exec(s, e) == RetriedBy(Unleased(s, r.id), r, RetryEntry(e.availableAt, e.wallAvailableAt, e.id))
    ensures Enabled(s, DropLease(r.id)) && Exec(s, DropLease(r.id)) == Unleased(s, r.id)
  {
    hide RetriedBy;
  }

  predicate IsEarliest(e: RetryEntry, retry: multiset<RetryEntry>) {
    e in retry && forall x :: x in retry ==> e.availableAt <= x.availableAt
  }

  lemma {:induction false} EarliestExists(retry: multiset<RetryEntry>) returns (e: RetryEntry)
    requires retry != multiset{}
    ensures IsEarliest(e, retry)
    decreases |retry|
  {
    var first :| first in retry;
    var rest := retry - multiset{first};
    assert forall x :: x in retry ==> x == first || x in rest;
    e := first;
    if rest != multiset{} {
      var m := EarliestExists(rest);
      if m.availableAt < first.availableAt { e := m; }
    }
  }

  /** The top of the heap: some entry of least time. */
  method Peek(retry: multiset<RetryEntry>) returns (entry: RetryEntry)
    requires retry != multiset{}
    ensures IsEarliest(entry, retry)
  {
    ghost var e := EarliestExists(retry);
    assert e in retry && IsEarliest(e, retry);
    entry :| entry in retry && IsEarliest(entry, retry);
  }

  ghost predicate ScheduledBy(es: seq<Event>, x: RetryEntry) {
    ScheduleRetry(x.id, x.availableAt, x.wallAvailableAt) in es
  }

  /** A timer that is new was set by the run. */
  ghost predicate OnlyScheduled(before: multiset<RetryEntry>, after: multiset<RetryEntry>, es: seq<Event>) {
    forall x :: x in after ==> x in before || ScheduledBy(es, x)
  }

  /** No retry is scheduled into the past. */
  ghost predicate NotBefore(es: seq<Event>, t: Instant) {
    forall e :: e in es && e.ScheduleRetry? ==> t <= e.availableAt
  }

  lemma PartOfRun(a: seq<Event>, b: seq<Event>, t: Instant, t': Instant)
    requires NotBefore(a, t) && NotBefore(b, t') && t <= t'
    ensures forall x :: ScheduledBy(a, x) || ScheduledBy(b, x) ==> ScheduledBy(a + b, x)
    ensures NotBefore(a + b, t)
  {
    assert forall e :: e in a || e in b <==> e in a + b;
  }

  lemma LeasesOnly(es: seq<Event>, t: Instant)
    requires forall e :: e in es ==> e.LeaseJob? || e.Unpark?
    ensures NotBefore(es, t)
  {
  }

  lemma PopsOnly(s: State, es: seq<Event>, now: Instant)
    requires CanRun(s, es) && EarliestFirst(es, now)
    ensures FairRun(s, es) && forall t :: NotBefore(es, t)
  {
    hide CanRun, FairRun;
    assert forall e :: e in es ==> e.PopRetry?;
    NoLeasesIsFair(s, es);
  }

  lemma {:induction false} NoLeasesIsFair(s: State, es: seq<Event>)
    requires CanRun(s, es) && forall e :: e in es ==> !e.LeaseJob?
    ensures FairRun(s, es)
  {
    hide Exec, Enabled;
    if es != [] {
      NoLeasesIsFair(s, es[..|es| - 1]);
      assert !es[|es| - 1].LeaseJob?;
    }
  }

  lemma SinceEarlier(log: seq<Record>, n: nat, m: nat)
    requires n <= m
    ensures forall id, epoch: nat :: LeasedSince(log, m, id, epoch) ==> LeasedSince(log, n, id, epoch)
  {
  }

  // ----- timeouts -----

  /** One lease has timed out: its job is retried or buried by its budget, or only its lease is lost. */
  ghost predicate TimeoutStep(s: State, e: Event, id: JobId, t: Times, first: Instant, last: Instant,
                              c: RetryConfig) {
    && id in s.store && id in s.leases
    && (e == DropLease(id) || e == OutcomeStep(s.store[id], Retryable, t))
    && TimesOk(t, first, last, c, s.store[id].attempts)
  }

  /** A run that ends the leases of `ids`, one after the other, as failed attempts. */
  ghost predicate TimedOut(s: State, es: seq<Event>, ids: seq<JobId>, times: seq<Times>,
                           first: Instant, last: Instant, c: RetryConfig)
  {
    && |es| == |ids| == |times| && CanRun(s, es)
    && (es != [] ==>
          var n := |es| - 1;
          && TimedOut(s, es[..n], ids[..n], times[..n], first, last, c)
          && TimeoutStep(ExecAll(s, es[..n]), es[n], ids[n], times[n], first, last, c))
  }

  function Drops(es: seq<Event>): nat {
    if es == [] then 0 else Drops(es[..|es| - 1]) + if es[|es| - 1].DropLease? then 1 else 0
  }

  lemma DropsSnoc(es: seq<Event>, e: Event)
    ensures Drops(es + [e]) == Drops(es) + if e.DropLease? then 1 else 0
  {
    assert (es + [e])[..|es|] == es;
  }

  lemma DistinctSnoc(ids: seq<JobId>, id: JobId)
    requires Distinct(ids) && id !in ids
    ensures Distinct(ids + [id])
  {
  }

  lemma NothingTimedOut(s: State, t: Instant, c: RetryConfig)
    ensures TimedOut(s, [], [], [], t, t, c) && Distinct<JobId>([]) && Ran(s, [], s)
  {
  }

  lemma {:induction false} TimedOutLater(s: State, es: seq<Event>, ids: seq<JobId>, times: seq<Times>,
                                         first: Instant, t: Instant, t': Instant, c: RetryConfig)
    requires TimedOut(s, es, ids, times, first, t, c) && t <= t'
    ensures TimedOut(s, es, ids, times, first, t', c)
  {
    hide Exec, Enabled, IdealCap, OutcomeStep;
    if es != [] {
      var n := |es| - 1;
      TimedOutLater(s, es[..n], ids[..n], times[..n], first, t, t', c);
    }
  }

  lemma TimedOutMore(s: State, es: seq<Event>, ids: seq<JobId>, times: seq<Times>, before: State, e: Event,
                     id: JobId, t: Times,
                     first: Instant, last: Instant, last': Instant, c: RetryConfig)
    requires TimedOut(s, es, ids, times, first, last, c) && Ran(s, es, before) && Enabled(before, e)
    requires first <= last <= last' && TimeoutStep(before, e, id, t, last, last', c)
    ensures TimedOut(s, es + [e], ids + [id], times + [t], first, last', c)
  {
    hide Exec, Enabled, IdealCap, OutcomeStep;
    TimedOutLater(s, es, ids, times, first, last, last', c);
    RunSnoc(s, es, e);
    var n := |es|;
    assert (es + [e])[..n] == es && (ids + [id])[..n] == ids && (times + [t])[..n] == times;
  }

  /** How far the pass over the expired leases has come; `failed` says whether a persist has failed. */
  ghost predicate TimeoutsDone(s: State, now: State, es: seq<Event>, ids: seq<JobId>, times: seq<Times>,
                               first: Instant, last: Instant, c: RetryConfig, failed: bool)
  {
    && Ran(s, es, now) && TimedOut(s, es, ids, times, first, last, c) && Distinct(ids)
    && OnlyScheduled(s.retry, now.retry, es) && NotBefore(es, first)
    && TimeoutStates(s.store, now.store, ids, failed)
    && (LeasesComplete(s.store, s.leases) ==> (LeasesComplete(now.store, now.leases) <==> !failed))
    && now.shuttingDown == s.shuttingDown && |s.log| <= |now.log|
  }

  lemma NoTimeouts(s: State, t: Instant, c: RetryConfig)
    ensures TimeoutsDone(s, s, [], [], [], t, t, c, false) && Drops([]) == 0
  {
    NothingTimedOut(s, t, c);
    NothingScheduled(s.retry, t);
    NoneEnded(s.store);
  }

  lemma OneMoreTimeout(s: State, before: State, es: seq<Event>, ids: seq<JobId>, times: seq<Times>,
                       e: Event, id: JobId, t: Times, first: Instant, last: Instant, last': Instant, c: RetryConfig,
                       failed: bool)
    requires TimeoutsDone(s, before, es, ids, times, first, last, c, failed)
    requires Inv(s) && id in s.leases && Inv(before) && Enabled(before, e) && id !in ids
    requires first <= last <= last' && TimeoutStep(before, e, id, t, last, last', c)
    requires id in before.store && id in Exec(before, e).store && OthersStay(before.store, Exec(before, e).store, id)
    requires if e.DropLease? then Exec(before, e).store == before.store
             else Ended(before.store[id], Exec(before, e).store[id], Retryable)
    requires LeasesComplete(before.store, before.leases) ==>
               (LeasesComplete(Exec(before, e).store, Exec(before, e).leases) <==> !e.DropLease?)
    ensures TimeoutsDone(s, Exec(before, e), es + [e], ids + [id], times + [t], first, last', c, failed || e.DropLease?)
    ensures Drops(es + [e]) == Drops(es) + if e.DropLease? then 1 else 0
  {
    hide Exec, Enabled, TimedOut, Distinct, OnlyScheduled, NotBefore, Ran, IdealCap, Drops, Inv, LeasesComplete,
         TimeoutStates, Ended, OthersStay;
    ExtendRun(s, es, before, e, Exec(before, e));
    Scheduled(s.retry, before, es, e, first);
    TimedOutMore(s, es, ids, times, before, e, id, t, first, last, last', c);
    DistinctSnoc(ids, id);
    DropsSnoc(es, e);
    EndFacts(before, e);
    StillThere(s, before, ids, id, failed);
    OneMoreEnded(s.store, before.store, Exec(before, e).store, ids, id, failed, e.DropLease?);
  }

  /** None of these steps is a lease. */
  lemma {:induction false} EndsOnly(s: State, es: seq<Event>, ids: seq<JobId>, times: seq<Times>,
                                    first: Instant, last: Instant, c: RetryConfig)
    requires TimedOut(s, es, ids, times, first, last, c)
    ensures FairRun(s, es)
  {
    hide Exec, Enabled, IdealCap;
    if es != [] {
      var n := |es| - 1;
      EndsOnly(s, es[..n], ids[..n], times[..n], first, last, c);
    }
  }

  /** What every such step leaves alone; a running job without a lease stays one. */
  lemma EndFacts(s: State, e: Event)
    requires Inv(s) && Enabled(s, e) && (e.Bury? || e.ScheduleRetry? || e.DropLease?)
    ensures Exec(s, e).shuttingDown == s.shuttingDown && |s.log| <= |Exec(s, e).log|
    ensures LeasesComplete(Exec(s, e).store, Exec(s, e).leases) ==> LeasesComplete(s.store, s.leases) && !e.DropLease?
  {
    hide Inv, Exec, Enabled, RecordOf, LeasesComplete;
    NotShutdown(s, e);
    StepLog(s, e);
    OthersKeepRunning(s, e);
    if e.DropLease? { DroppedRuns(s, e); }
  }

  lemma OthersKeepRunning(s: State, e: Event)
    requires Enabled(s, e) && (e.Bury? || e.ScheduleRetry? || e.DropLease?)
    ensures LeasesComplete(Exec(s, e).store, Exec(s, e).leases) ==> LeasesComplete(s.store, s.leases)
  {
    hide Exec, Enabled, RecordOf;
    EndEffect(s, e);
    var s' := Exec(s, e);
    assert forall id :: id in s.store && id !in s.leases ==>
        id in s'.store && s'.store[id] == s.store[id] && id !in s'.leases;
  }

  lemma EndEffect(s: State, e: Event)
    requires Enabled(s, e) && (e.Bury? || e.ScheduleRetry? || e.DropLease?)
    ensures e.id in s.leases && Exec(s, e).leases == s.leases - {e.id}
    ensures e.DropLease? ==> Exec(s, e).store == s.store
    ensures !e.DropLease? ==>
              RecordOf(s, e).Some? && RecordOf(s, e).value.id == e.id
              && Exec(s, e).store == MovedStore(s.store, RecordOf(s, e).value)
  {
    hide SameFrame, MovedStore, ClosedBy, RetriedBy, Exec, Enabled, RecordOf;
    EndsLease(s, e);
    if e.Bury? {
      EndStep(s, e, RecordOf(s, e).value);
      ClosedStore(Unleased(s, e.id), RecordOf(s, e).value);
    } else if e.ScheduleRetry? {
      RetryStep(s, e, RecordOf(s, e).value);
      RetriedStore(Unleased(s, e.id), RecordOf(s, e).value, RetryEntry(e.availableAt, e.wallAvailableAt, e.id));
    }
  }

  lemma EndsLease(s: State, e: Event)
    requires Enabled(s, e) && (e.Bury? || e.ScheduleRetry? || e.DropLease?)
    ensures e.id in s.leases
    ensures !e.DropLease? ==> RecordOf(s, e).Some? && RecordOf(s, e).value.id == e.id
    ensures e.DropLease? ==> Exec(s, e) == Unleased(s, e.id)
  {
    hide ClosedBy, RetriedBy;
  }

  lemma AllDropped(s: State)
    requires Inv(s)
    ensures LeasesComplete(s.store, s.leases) ==> (LeasesComplete(s.store, map[]) <==> s.leases == map[])
  {
    hide Inv;
    if s.leases != map[] {
      var id :| id in s.leases;
      LeasedRuns(s, id);
    }
  }

  lemma NothingScheduled(retry: multiset<RetryEntry>, t: Instant)
    ensures OnlyScheduled(retry, retry, []) && NotBefore([], t)
  {
  }

  lemma Scheduled(first: multiset<RetryEntry>, s: State, es: seq<Event>, e: Event, t: Instant)
    requires Enabled(s, e) && (e.Bury? || e.ScheduleRetry? || e.DropLease?)
    requires OnlyScheduled(first, s.retry, es) && NotBefore(es, t) && (e.ScheduleRetry? ==> t <= e.availableAt)
    ensures OnlyScheduled(first, Exec(s, e).retry, es + [e]) && NotBefore(es + [e], t)
  {
    hide Exec, Enabled;
    TimerSet(s, e);
    assert forall x :: x in es + [e] <==> x in es || x == e;
  }

  lemma TimerSet(s: State, e: Event)
    requires Enabled(s, e) && (e.Bury? || e.ScheduleRetry? || e.DropLease?)
    ensures forall x :: x in Exec(s, e).retry ==>
              x in s.retry || (e.ScheduleRetry? && x == RetryEntry(e.availableAt, e.wallAvailableAt, e.id))
  {
    hide SameFrame, MovedStore, MovedStats, MovedTally, ReleasedSems;
  }

  /** A time at which the coordinator has something to do. */
  ghost predicate Pending(s: State, t: Instant) {
    || (exists e :: e in s.retry && e.availableAt == t)
    || (exists id :: id in s.leases && s.leases[id].deadline == t)
    || s.shutdownDeadline == Some(t)
  }

  function Earlier(d: Option<Instant>, t: Instant): Option<Instant> {
    if d.Some? && d.value <= t then d else Some(t)
  }

  lemma PopStep(s: State, entry: RetryEntry)
    requires Inv(s) && entry in s.retry
    ensures Enabled(s, PopRetry(entry)) && Exec(s, PopRetry(entry)) == Popped(s, entry) && Inv(Popped(s, entry))
    ensures Popped(s, entry).retry == s.retry - multiset{entry} && Popped(s, entry).log == s.log
  {
    hide Inv, SameFrame, ShiftStats;
    StepKeepsInv(s, PopRetry(entry));
  }

  /** The entries popped so far were due, and came out in order of their times. */
  ghost predicate EarliestFirst(es: seq<Event>, now: Instant) {
    && (forall i :: 0 <= i < |es| ==> es[i].PopRetry? && es[i].entry.availableAt <= now)
    && (forall i, j :: 0 <= i < j < |es| ==> es[i].entry.availableAt <= es[j].entry.availableAt)
  }

  /** Entries not yet due are all still there; nothing was added. */
  ghost predicate OnlyLaterLeft(retry: multiset<RetryEntry>, before: multiset<RetryEntry>, now: Instant) {
    retry <= before && forall x :: x in before && x.availableAt > now ==> retry[x] == before[x]
  }

  ghost predicate NoneLater(es: seq<Event>, retry: multiset<RetryEntry>) {
    forall i, x :: 0 <= i < |es| && es[i].PopRetry? && x in retry ==> es[i].entry.availableAt <= x.availableAt
  }

  lemma NoPopsYet(retry: multiset<RetryEntry>, now: Instant)
    ensures EarliestFirst([], now) && OnlyLaterLeft(retry, retry, now) && NoneLater([], retry)
  {
  }

  lemma PopEarliest(es: seq<Event>, retry: multiset<RetryEntry>, before: multiset<RetryEntry>, entry: RetryEntry,
                    now: Instant)
    requires EarliestFirst(es, now) && OnlyLaterLeft(retry, before, now) && NoneLater(es, retry)
    requires entry in retry && entry.availableAt <= now && forall x :: x in retry ==> entry.availableAt <= x.availableAt
    ensures EarliestFirst(es + [PopRetry(entry)], now)
    ensures OnlyLaterLeft(retry - multiset{entry}, before, now)
    ensures NoneLater(es + [PopRetry(entry)], retry - multiset{entry})
  {
  }

  lemma NotShutdown(s: State, e: Event)
    requires Enabled(s, e) && !e.BeginShutdown?
    ensures Exec(s, e).shuttingDown == s.shuttingDown
  {
    hide Submitted, CancelledBy, LeasedBy, ClosedBy, RetriedBy, Popped;
    if e.Cancel? { CancelFrame(s, RecordOf(s, e).value); }
  }

  lemma DropStep(s: State, id: JobId)
    requires Inv(s) && id in s.leases
    ensures Enabled(s, DropLease(id)) && Exec(s, DropLease(id)) == s.(leases := s.leases - {id})
    ensures Inv(s.(leases := s.leases - {id}))
  {
    hide Inv;
    StepKeepsInv(s, DropLease(id));
  }

  lemma OneStep(s: State, e: Event)
    requires Enabled(s, e)
    ensures CanRun(s, [e]) && ExecAll(s, [e]) == Exec(s, e)
  {
    hide Enabled, Exec;
    assert CanRun(s, []) && ExecAll(s, []) == s;
    RunSnoc(s, [], e);
    assert [] + [e] == [e];
  }

  lemma PermitInFlight(s: State, q: QueueName)
    requires q in s.sems ==> s.sems[q].inFlight > 0
    ensures q in s.sems ==> Enabled(s, ReturnPermit(q)) && Exec(s, ReturnPermit(q)) == Returned(s, q)
    ensures q !in s.sems ==> Returned(s, q) == s
  {
  }

  lemma AtCursor(s: State)
    requires s.cursor < |s.order|
    ensures ServedQueue(s, 0) == s.order[s.cursor] && (s.cursor + 1) % |s.order| == Wrap(s.cursor + 1, |s.order|)
  {
    WrapIsMod(s.cursor, |s.order|);
    WrapIsMod(s.cursor + 1, |s.order|);
  }

  /** Leasing from the queue at the cursor. */
  lemma LeaseStep(s: State, q: QueueName, at: Millis, deadline: Instant)
    requires Inv(s) && !s.shuttingDown && s.cursor < |s.order| && q == s.order[s.cursor]
    requires q in s.ready && s.ready[q] != [] && s.ready[q][0] in s.store && s.store[s.ready[q][0]].state.Queued?
    ensures var e := LeaseJob(0, at, deadline);
            var id := s.ready[q][0];
            && Enabled(s, e) && Inv(Exec(s, e))
            && RecordOf(s, e) == Some(JobLeased(id, s.nextEpoch, s.store[id].attempts + 1, at))
            && Exec(s, e) == LeasedBy(s.(cursor := (s.cursor + 1) % |s.order|), q, RecordOf(s, e).value, deadline)
  {
    hide Inv, LeasedBy;
    AtCursor(s);
    QueueHasAll(s, q);
    StepKeepsInv(s, LeaseJob(0, at, deadline));
  }

  lemma CursorOk(s: State)
    requires Inv(s)
    ensures s.order != [] ==> s.cursor < |s.order|
  {
  }

  /** A ready deque never starts with a job that cannot be leased. */
  lemma HeadIsQueued(s: State, q: QueueName)
    requires Inv(s)
    ensures q in s.ready && s.ready[q] != [] ==> s.ready[q][0] in s.store && s.store[s.ready[q][0]].state.Queued?
  {
    hide LogInv, LeaseInv, QueuesKnown, RetryInv, StatsInv, PermitInv, SemInv, ConfigInv, FifoInv;
    assert q in s.ready ==> ReadyInv(s.store, s.ready[q], q);
  }

  /** Leasing at the cursor after `i` rounds is leasing `i` queues further on. */
  lemma SkipFrom(s: State, i: nat, e: Event)
    requires i < |s.order| && s.cursor < |s.order| && e.LeaseJob? && e.skip == 0
    ensures var s' := s.(cursor := Wrap(s.cursor + i, |s.order|));
            && (Skipped(s', 0) <==> Skipped(s, i))
            && (Enabled(s', e) ==>
                  var e' := LeaseJob(i, e.at, e.deadline);
                  Enabled(s, e') && RecordOf(s', e) == RecordOf(s, e') && Exec(s', e) == Exec(s, e'))
  {
    hide SameFrame, LeasedBy;
    var n, s' := |s.order|, s.(cursor := Wrap(s.cursor + i, |s.order|));
    WrapIsMod(s.cursor + i, n);
    WrapIsMod(s'.cursor, n);
    WrapIsMod(s'.cursor + 1, n);
    assert Wrap(s'.cursor + 1, n) == Wrap(Wrap(s.cursor + i, n) + 1, n);
    if s.cursor + i + 1 < 2 * n {
      WrapIsMod(s.cursor + i + 1, n);
    }
  }

  lemma QueueHasAll(s: State, q: QueueName)
    requires Inv(s)
    ensures q in s.ready <==> q in s.stats
    ensures q in s.ready <==> q in s.sems
  {
  }
}
