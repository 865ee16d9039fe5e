/** The in-memory job store: strict application of a record (live path), relaxed
    application (recovery path), and how the two relate. */
module JobStore {
  import opened Types

  type Store = map<JobId, Job>

  predicate ValidTransition(from: JobState, to: JobState) {
    match from
    case Queued => to.Running? || to.Cancelled?
    case Running => to.Completed? || to.RetryWaiting? || to.Dead? || to.Cancelled?
    case RetryWaiting => to.Queued? || to.Dead? || to.Cancelled?
    case Completed => false
    case Dead => false
    case Cancelled => false
  }

  datatype ApplyResult = Applied(store: Store) | JobNotFound(id: JobId)
    | InvalidTransition(from: JobState, to: JobState)

  /** What any record that names an existing job writes into that job. */
  function Written(job: Job, r: Record): Job {
    match r
    case JobSubmitted(id, queue, spec, createdAt) => NewJob(id, queue, spec, createdAt)
    case JobLeased(_, _, attempt, _) => job.(state := Running, attempts := attempt)
    case _ => job.(state := r.Target())
  }

  /** `MemoryStore::apply_record`: validates the transition. */
  function Apply(store: Store, r: Record): ApplyResult {
    if r.JobSubmitted? then Applied(store[r.id := NewJob(r.id, r.queue, r.spec, r.createdAt)])
    else if r.id !in store then JobNotFound(r.id)
    else if !ValidTransition(store[r.id].state, r.Target()) then InvalidTransition(store[r.id].state, r.Target())
    else Applied(store[r.id := Written(store[r.id], r)])
  }

  /** `apply_record_for_recovery`: no validation, unknown jobs are ignored. */
  function ApplyRelaxed(store: Store, r: Record): Store {
    if r.JobSubmitted? then store[r.id := NewJob(r.id, r.queue, r.spec, r.createdAt)]
    else if r.id in store then store[r.id := Written(store[r.id], r)]
    else store
  }

  /** The store that recovery rebuilds from a log. */
  function Replay(log: seq<Record>): Store {
    if log == [] then map[] else ApplyRelaxed(Replay(log[..|log| - 1]), log[|log| - 1])
  }

  lemma ReplaySnoc(log: seq<Record>, r: Record)
    ensures Replay(log + [r]) == ApplyRelaxed(Replay(log), r)
  {
    assert (log + [r])[..|log|] == log;
  }

  // ----- what a record means -----

  /** What a record makes of its job, state by state: only a lease changes the attempt count, and
      nothing changes what was submitted. */
  ghost predicate Became(before: Job, after: Job, r: Record) {
    && after.id == before.id && after.queue == before.queue && after.spec == before.spec
    && after.createdAt == before.createdAt
    && (r.JobLeased? ==> after.state == Running && after.attempts == r.attempt)
    && (!r.JobLeased? ==> after.attempts == before.attempts)
    && (r.JobRetryScheduled? ==> after.state == RetryWaiting)
    && (r.JobCompleted? ==> after.state == Completed)
    && (r.JobDead? ==> after.state == Dead)
    && (r.JobCancelled? ==> after.state == Cancelled)
  }

  /** One record later: its job is new or has become what the record says; every other job is as before. */
  ghost predicate OneRecordLater(store: Store, store': Store, r: Record) {
    && r.id in store'
    && (r.JobSubmitted? ==> store'[r.id] == Job(r.id, r.queue, r.spec, Queued, 0, r.createdAt))
    && (!r.JobSubmitted? ==> r.id in store && Became(store[r.id], store'[r.id], r))
    && (forall id :: id != r.id ==> (id in store' <==> id in store))
    && (forall id :: id != r.id && id in store ==> store'[id] == store[id])
  }

  /** When the live store accepts a record that does not submit a job. */
  ghost predicate Accepts(state: JobState, r: Record) {
    && (r.JobLeased? ==> state == Queued)
    && (r.JobRetryScheduled? || r.JobCompleted? ==> state == Running)
    && (r.JobDead? ==> state == Running || state == RetryWaiting)
    && (r.JobCancelled? ==> state == Queued || state == Running || state == RetryWaiting)
  }

  lemma ApplyMeans(store: Store, r: Record)
    ensures Apply(store, r).Applied? <==> r.JobSubmitted? || (r.id in store && Accepts(store[r.id].state, r))
    ensures Apply(store, r).Applied? ==> OneRecordLater(store, Apply(store, r).store, r)
    ensures Apply(store, r).JobNotFound? <==> !r.JobSubmitted? && r.id !in store
  {
  }

  lemma ApplyRelaxedMeans(store: Store, r: Record)
    ensures r.JobSubmitted? || r.id in store ==> OneRecordLater(store, ApplyRelaxed(store, r), r)
    ensures !r.JobSubmitted? && r.id !in store ==> ApplyRelaxed(store, r) == store
  {
  }

  /** The part of a job that the log knows: moving a due retry back to `Queued` is not logged. */
  function DurableJob(job: Job): Job {
    if job.state.Queued? && job.attempts > 0 then job.(state := RetryWaiting) else job
  }

  function DurableView(store: Store): Store {
    map id | id in store :: DurableJob(store[id])
  }

  lemma DurableViewUpdate(store: Store, id: JobId, job: Job)
    ensures DurableView(store[id := job]) == DurableView(store)[id := DurableJob(job)]
  {
  }

  /** Whenever the live store accepts a record, replaying that record on the durable
      view gives the durable view of the new live store: for all stores and records. */
  lemma StrictRefinesRelaxed(store: Store, r: Record)
    requires Apply(store, r).Applied?
    ensures DurableView(Apply(store, r).store) == ApplyRelaxed(DurableView(store), r)
  {
    if r.JobSubmitted? {
      DurableViewUpdate(store, r.id, NewJob(r.id, r.queue, r.spec, r.createdAt));
    } else {
      DurableViewUpdate(store, r.id, Written(store[r.id], r));
    }
  }

  /** The unlogged move RetryWaiting -> Queued is invisible in the log exactly when the job has run before. */
  lemma RequeueIsInvisible(store: Store, id: JobId)
    requires id in store && store[id].state.RetryWaiting?
    ensures DurableView(store[id := store[id].(state := Queued)]) == DurableView(store) <==> store[id].attempts > 0
  {
    DurableViewUpdate(store, id, store[id].(state := Queued));
    assert DurableView(store)[id] == store[id];
  }

  class MemoryStore {
    var jobs: Store

    constructor ()
      ensures jobs == map[]
    {
      jobs := map[];
    }

    constructor FromRecovered(jobs: Store)
      ensures this.jobs == jobs
    {
      this.jobs := jobs;
    }

    method ApplyRecord(r: Record) returns (res: ApplyResult)
      modifies this
      ensures res == Apply(old(jobs), r)
      ensures jobs == if res.Applied? then res.store else old(jobs)
      ensures res.Applied? <==> r.JobSubmitted? || (r.id in old(jobs) && Accepts(old(jobs)[r.id].state, r))
      ensures res.Applied? ==> OneRecordLater(old(jobs), jobs, r)
      ensures res.JobNotFound? <==> !r.JobSubmitted? && r.id !in old(jobs)
      ensures res.JobNotFound? ==> res.id == r.id
      ensures res.InvalidTransition? ==> r.id in old(jobs) && res.from == old(jobs)[r.id].state
    {
      ApplyMeans(jobs, r);
      if r.JobSubmitted? {
        jobs := jobs[r.id := NewJob(r.id, r.queue, r.spec, r.createdAt)];
        return Applied(jobs);
      }
      if r.id !in jobs {
        return JobNotFound(r.id);
      }
      var job := jobs[r.id];
      if !ValidTransition(job.state, r.Target()) {
        return InvalidTransition(job.state, r.Target());
      }
      job := job.(state := r.Target());
      if r.JobLeased? {
        job := job.(attempts := r.attempt);
      }
      jobs := jobs[r.id := job];
      return Applied(jobs);
    }

    method ApplyRecordForRecovery(r: Record)
      modifies this
      ensures jobs == ApplyRelaxed(old(jobs), r)
      ensures r.JobSubmitted? || r.id in old(jobs) ==> OneRecordLater(old(jobs), jobs, r)
      ensures !r.JobSubmitted? && r.id !in old(jobs) ==> jobs == old(jobs)
    {
      ApplyRelaxedMeans(jobs, r);
      match r {
        case JobSubmitted(id, queue, spec, createdAt) =>
          jobs := jobs[id := NewJob(id, queue, spec, createdAt)];
        case JobLeased(id, _, attempt, _) =>
          if id in jobs {
            jobs := jobs[id := jobs[id].(state := Running, attempts := attempt)];
          }
        case _ =>
          if r.id in jobs {
            jobs := jobs[r.id := jobs[r.id].(state := r.Target())];
          }
      }
    }

    method TransitionToQueued(id: JobId) returns (ok: bool)
      modifies this
      ensures ok <==> id in old(jobs) && old(jobs)[id].state.RetryWaiting?
      ensures jobs == if ok then old(jobs)[id := old(jobs)[id].(state := Queued)] else old(jobs)
    {
      if id !in jobs || !ValidTransition(jobs[id].state, Queued) {
        return false;
      }
      jobs := jobs[id := jobs[id].(state := Queued)];
      return true;
    }
  }
}
