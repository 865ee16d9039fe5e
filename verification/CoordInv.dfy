/** Every step of the coordinator persists a legal record and keeps the invariant. */
module CoordInv {
  import opened Types
  import opened Seqs
  import opened JobStore
  import opened Tracker
  import opened History
  import opened Recovery
  import opened CoordSpec
  import opened CoordLemmas

  /** The job at the head of a ready deque. */
  lemma HeadOfReady(s: State, q: QueueName)
    requires q in s.ready && s.ready[q] != []
    requires ReadyAll(s.store, s.ready) && FifoInv(s.store, s.ready, TrackAll(s.log))
    ensures Distinct(s.ready[q])
    ensures s.ready[q][0] in s.store && s.store[s.ready[q][0]].queue == q
    ensures s.store[s.ready[q][0]].attempts == 0 ==> HeadOf(Order(TrackAll(s.log), q), s.ready[q][0])
  {
    assert ReadyInv(s.store, s.ready[q], q);
    assert Only(s.ready[q], NeverLeased(s.store)) == Order(TrackAll(s.log), q);
  }

  /** A leased job is running. */
  lemma LeasedRuns(s: State, id: JobId)
    requires Inv(s) && id in s.leases
    ensures id in s.store && s.store[id].state.Running?
  {
    hide LogInv, ReadyAll, QueuesKnown, RetryInv, StatsInv, PermitInv, SemInv, FifoInv, ConfigInv, Replay, TrackAll,
         SameFrame;
    LiveJob(s, id);
  }

  /** Whatever a step persists may follow the log, and the store never refuses it. */
  lemma PersistedIsLegal(s: State, e: Event)
    requires Inv(s) && Enabled(s, e) && RecordOf(s, e).Some?
    ensures Legal(Replay(s.log), TrackAll(s.log), RecordOf(s, e).value)
    ensures Apply(s.store, RecordOf(s, e).value).Applied?
  {
    hide ReadyAll, QueuesKnown, RetryInv, StatsInv, PermitInv, SemInv, FifoInv, ConfigInv, Replay, TrackAll,
         WellFormed, SameFrame;
    LiveJob(s, RecordOf(s, e).value.id);
    if e.LeaseJob? { HeadOfReady(s, ServedQueue(s, e.skip)); }
  }

  lemma KeepsSubmit(s: State, e: Event)
    requires Inv(s) && e.Submit? && Enabled(s, e)
    ensures Inv(Exec(s, e))
  {
    hide LogInv, ReadyAll, QueuesKnown, RetryInv, StatsInv, SemInv, FifoInv, ConfigInv, Replay, TrackAll, Legal,
         Track, LeaseInv, SameFrame;
    var r := RecordOf(s, e).value;
    var job := NewJob(e.id, e.queue, e.spec, e.at);
    PersistedIsLegal(s, e);
    LogStep(s.store, s.log, s.nextEpoch, s.tally, r);
    ReadyPush(s.store, s.ready, e.id, job);
    QueuesStay(s.store, s.ready.Keys, e.id, job);
    RetryStays(s.store, s.retry, e.id, job);
    StatsSubmit(s.store, s.stats, e.id, job);
    PermitInvSubmit(s.store, s.permits, s.base, job);
    SemsSubmit(s, job);
    FifoSubmit(s.store, s.ready, TrackAll(s.log), r);
    LeaseUntouched(s.leases, TrackAll(s.log), r);
    assert Exec(s, e).ready.Keys == s.ready.Keys;
  }

  lemma CursorMoves(s: State, cursor: nat)
    requires Inv(s) && cursor < |s.order|
    ensures Inv(s.(cursor := cursor))
  {
    hide LogInv, LeaseInv, QueuesKnown, RetryInv, StatsInv, PermitInv, SemInv, ReadyAll, FifoInv;
  }

  lemma LeasedKeeps(s: State, q: QueueName, r: Record, deadline: Instant)
    requires Inv(s) && r.JobLeased? && r.epoch == s.nextEpoch
    requires Legal(Replay(s.log), TrackAll(s.log), r) && Apply(s.store, r).Applied?
    requires q in s.ready && s.ready[q] != [] && s.ready[q][0] == r.id && r.id in s.store && s.store[r.id].state.Queued?
    ensures Inv(LeasedBy(s, q, r, deadline))
  {
    hide LogInv, ReadyAll, QueuesKnown, RetryInv, StatsInv, PermitInv, SemInv, FifoInv, ConfigInv, Replay, TrackAll,
         LeaseInv, IndexOk, ReadyInv, Track, Legal, Distinct, SameFrame;
    var job := Written(s.store[r.id], r);
    LogStep(s.store, s.log, s.nextEpoch, s.tally, r);
    LiveJob(s, r.id);
    HeadOfReady(s, q);
    RetainHead(s.ready[q]);
    ReadyDrop(s.store, s.ready, r.id, job);
    QueuesStay(s.store, s.ready.Keys, r.id, job);
    RetryStays(s.store, s.retry, r.id, job);
    StatsMove(s.store, s.stats, r.id, job);
    PermitsStay(s.store, s.permits, s.sems, s.base, r.id, job);
    FifoDrop(s.store, s.ready, TrackAll(s.log), r, job);
    LeaseTaken(s.leases, TrackAll(s.log), r, deadline);
    assert LeasedBy(s, q, r, deadline).ready.Keys == s.ready.Keys;
  }

  lemma KeepsLease(s: State, e: Event)
    requires Inv(s) && e.LeaseJob? && Enabled(s, e)
    ensures Inv(Exec(s, e))
  {
    hide Inv, LeasedBy, Legal;
    PersistedIsLegal(s, e);
    CursorMoves(s, (s.cursor + e.skip + 1) % |s.order|);
    LeasedKeeps(s.(cursor := (s.cursor + e.skip + 1) % |s.order|),
                ServedQueue(s, e.skip), RecordOf(s, e).value, e.deadline);
  }

  /** The parts of a terminal step that do not depend on which record ends the job: log and indexes. */
  lemma KeepsEndLog(s: State, r: Record)
    requires Inv(s) && r.IsTerminal() && Legal(Replay(s.log), TrackAll(s.log), r) && Apply(s.store, r).Applied?
    ensures var s' := Freed(Moved(s, r), r.id);
            && LogInv(s'.store, s'.log, s'.nextEpoch, s'.tally)
            && TrackAll(s'.log) == Track(TrackAll(s.log), r)
            && LeaseInv(s.leases - {r.id}, TrackAll(s'.log))
            && QueuesKnown(s'.store, s'.ready.Keys)
            && RetryInv(s'.store, s'.retry)
  {
    hide LogInv, ReadyAll, QueuesKnown, RetryInv, StatsInv, PermitInv, SemInv, FifoInv, ConfigInv, Replay, TrackAll,
         LeaseInv, Legal, Track, IndexOk, SameFrame;
    var job := Written(s.store[r.id], r);
    QueueOf(s, r.id);
    LogStep(s.store, s.log, s.nextEpoch, s.tally, r);
    LeaseGone(s.leases, TrackAll(s.log), r);
    QueuesStay(s.store, s.ready.Keys, r.id, job);
    RetryStays(s.store, s.retry, r.id, job);
  }

  /** The same for permits. */
  lemma KeepsEndPermits(s: State, r: Record)
    requires Inv(s) && r.IsTerminal() && r.id in s.store && Apply(s.store, r).Applied?
    ensures var s' := Freed(Moved(s, r), r.id);
            && s'.sems.Keys == s.sems.Keys
            && PermitInv(s'.store, s'.permits, s'.base)
            && SemInv(s'.store, s'.permits, s'.sems, s'.base)
  {
    hide LogInv, ReadyAll, QueuesKnown, RetryInv, StatsInv, PermitInv, SemInv, FifoInv, ConfigInv, Replay, TrackAll,
         LeaseInv, IndexOk, SameFrame, MovedTally, MovedStats;
    QueueOf(s, r.id);
    LiveJob(s, r.id);
    PermitsFreed(s, Written(s.store[r.id], r));
  }

  /** The same for the counters. */
  lemma KeepsEndStats(s: State, r: Record)
    requires Inv(s) && r.IsTerminal() && r.id in s.store && Apply(s.store, r).Applied?
    ensures MovedStats(s.stats, s.store, r).Keys == s.stats.Keys
    ensures StatsInv(MovedStore(s.store, r), MovedStats(s.stats, s.store, r))
  {
    hide LogInv, ReadyAll, QueuesKnown, RetryInv, StatsInv, PermitInv, SemInv, FifoInv, ConfigInv, Replay, TrackAll,
         LeaseInv, IndexOk, SameFrame;
    QueueOf(s, r.id);
    LiveJob(s, r.id);
    StatsMove(s.store, s.stats, r.id, Written(s.store[r.id], r));
  }

  lemma ClosedKeeps(s: State, r: Record)
    requires Inv(s) && (r.JobCompleted? || r.JobDead?) && r.id in s.leases
    requires Legal(Replay(s.log), TrackAll(s.log), r) && Apply(s.store, r).Applied?
    ensures Inv(ClosedBy(Unleased(s, r.id), r))
  {
    hide LogInv, ReadyAll, QueuesKnown, RetryInv, StatsInv, PermitInv, SemInv, FifoInv, ConfigInv, Replay, TrackAll,
         LeaseInv, Legal, Track, SameFrame, MovedStats, MovedTally, ReleasedSems;
    LeasedRuns(s, r.id);
    KeepsEndLog(s, r);
    KeepsEndPermits(s, r);
    KeepsEndStats(s, r);
    var job := Written(s.store[r.id], r);
    ReadyStays(s.store, s.ready, r.id, job);
    FifoStays(s.store, s.ready, TrackAll(s.log), r, job);
  }

  lemma KeepsClose(s: State, e: Event)
    requires Inv(s) && (e.Complete? || e.Bury?) && Enabled(s, e)
    ensures Inv(Exec(s, e))
  {
    hide Inv, ClosedBy, Legal;
    PersistedIsLegal(s, e);
    ClosedKeeps(s, RecordOf(s, e).value);
  }

  /** A cancelled job is in no index any more. */
  lemma CancelUnindexes(s: State, r: Record)
    requires Inv(s) && r.JobCancelled? && r.id in s.store
    requires Legal(Replay(s.log), TrackAll(s.log), r) && Apply(s.store, r).Applied?
    ensures var u := Unindexed(s, r.id, s.store[r.id].queue, s.store[r.id].state);
            && u == s.(ready := u.ready, leases := s.leases - {r.id})
            && u.ready.Keys == s.ready.Keys
            && ReadyAll(MovedStore(s.store, r), u.ready)
            && FifoInv(MovedStore(s.store, r), u.ready, Track(TrackAll(s.log), r))
  {
    hide LogInv, ReadyAll, QueuesKnown, RetryInv, StatsInv, PermitInv, SemInv, FifoInv, ConfigInv, Replay, TrackAll,
         LeaseInv, Legal, Track, IndexOk, SameFrame;
    LiveJob(s, r.id);
    QueueOf(s, r.id);
    var job := Written(s.store[r.id], r);
    if r.id in s.leases {
      LeasedRuns(s, r.id);
    } else {
      assert s.leases - {r.id} == s.leases;
    }
    if s.store[r.id].state.Queued? {
      ReadyDrop(s.store, s.ready, r.id, job);
      FifoDrop(s.store, s.ready, TrackAll(s.log), r, job);
    } else {
      ReadyStays(s.store, s.ready, r.id, job);
      FifoStays(s.store, s.ready, TrackAll(s.log), r, job);
    }
  }

  lemma CancelledKeeps(s: State, r: Record)
    requires Inv(s) && r.JobCancelled? && r.id in s.store
    requires Legal(Replay(s.log), TrackAll(s.log), r) && Apply(s.store, r).Applied?
    ensures Inv(CancelledBy(s, r))
  {
    hide LogInv, ReadyAll, QueuesKnown, RetryInv, StatsInv, PermitInv, SemInv, FifoInv, ConfigInv, Replay, TrackAll,
         LeaseInv, Legal, Track, IndexOk, SameFrame, MovedStore, MovedStats, MovedTally, ReleasedSems;
    KeepsEndLog(s, r);
    KeepsEndPermits(s, r);
    KeepsEndStats(s, r);
    CancelUnindexes(s, r);
  }

  lemma KeepsCancel(s: State, e: Event)
    requires Inv(s) && e.Cancel? && Enabled(s, e)
    ensures Inv(Exec(s, e))
  {
    hide Inv, CancelledBy, Legal;
    PersistedIsLegal(s, e);
    CancelledKeeps(s, RecordOf(s, e).value);
  }

  lemma KeepsRetry(s: State, e: Event)
    requires Inv(s) && e.ScheduleRetry? && Enabled(s, e)
    ensures Inv(Exec(s, e))
  {
    hide LogInv, ReadyAll, QueuesKnown, RetryInv, StatsInv, PermitInv, SemInv, FifoInv, ConfigInv, Replay, TrackAll,
         LeaseInv, Legal, Track, IndexOk, SameFrame;
    var r := RecordOf(s, e).value;
    var job := Written(s.store[r.id], r);
    PersistedIsLegal(s, e);
    LeasedRuns(s, r.id);
    QueueOf(s, r.id);
    LogStep(s.store, s.log, s.nextEpoch, s.tally, r);
    LeaseGone(s.leases, TrackAll(s.log), r);
    ReadyStays(s.store, s.ready, r.id, job);
    QueuesStay(s.store, s.ready.Keys, r.id, job);
    RetryPush(s.store, s.retry, RetryEntry(e.availableAt, e.wallAvailableAt, e.id), job);
    StatsMove(s.store, s.stats, r.id, job);
    PermitsStay(s.store, s.permits, s.sems, s.base, r.id, job);
    FifoStays(s.store, s.ready, TrackAll(s.log), r, job);
  }

  lemma PoppedEntry(s: State, e: Event)
    requires Inv(s) && e.PopRetry? && Enabled(s, e)
    ensures EntryOwned(s.store, e.entry.id)
    ensures s.store[e.entry.id].state.RetryWaiting? ==>
              && s.store[e.entry.id].queue in s.ready
              && s.store[e.entry.id].attempts > 0
              && LogInv(s.store[e.entry.id := s.store[e.entry.id].(state := Queued)], s.log, s.nextEpoch, s.tally)
  {
    hide ReadyAll, StatsInv, PermitInv, SemInv, FifoInv, ConfigInv, Replay, TrackAll, WellFormed, LeaseInv, SameFrame;
    assert EntryOwned(s.store, e.entry.id);
    LiveJob(s, e.entry.id);
    if s.store[e.entry.id].state.RetryWaiting? {
      QueueOf(s, e.entry.id);
      RequeueIsInvisible(s.store, e.entry.id);
    }
  }

  lemma KeepsPop(s: State, e: Event)
    requires Inv(s) && e.PopRetry? && Enabled(s, e)
    ensures Inv(Exec(s, e))
  {
    hide LogInv, ReadyAll, QueuesKnown, RetryInv, StatsInv, PermitInv, SemInv, FifoInv, ConfigInv, Replay, TrackAll,
         LeaseInv, SameFrame;
    var id := e.entry.id;
    PoppedEntry(s, e);
    if s.store[id].state.RetryWaiting? {
      var job := s.store[id].(state := Queued);
      ReadyPush(s.store, s.ready, id, job);
      QueuesStay(s.store, s.ready.Keys, id, job);
      RetryPop(s.store, s.retry, e.entry, job);
      StatsMove(s.store, s.stats, id, job);
      PermitsStay(s.store, s.permits, s.sems, s.base, id, job);
      FifoRequeue(s.store, s.ready, TrackAll(s.log), id, job);
      assert Exec(s, e).ready.Keys == s.ready.Keys;
    } else {
      RetryPop(s.store, s.retry, e.entry, s.store[id]);
      assert s.store[id := s.store[id]] == s.store;
    }
  }

  lemma KeepsPermits(s: State, e: Event)
    requires Inv(s) && (e.AcquirePermit? || e.ReturnPermit?) && Enabled(s, e)
    ensures Inv(Exec(s, e))
  {
    hide LogInv, ReadyAll, QueuesKnown, RetryInv, StatsInv, PermitInv, FifoInv, ConfigInv, Replay, TrackAll,
         LeaseInv, LiveJobs, Held, SameFrame;
    var s' := Exec(s, e);
    assert s'.sems.Keys == s.sems.Keys;
    forall q | q in s'.sems
      ensures SemAccount(s'.store, s'.permits, s'.sems[q], q, s'.base)
    {
      assert SemAccount(s.store, s.permits, s.sems[q], q, s.base);
    }
  }

  /** The invariant is kept by every step: every outcome for every lease at any time,
      and every persist that fails. */
  lemma StepKeepsInv(s: State, e: Event)
    requires Inv(s) && Enabled(s, e)
    ensures Inv(Exec(s, e))
  {
    hide LogInv, ReadyAll, QueuesKnown, RetryInv, StatsInv, PermitInv, SemInv, FifoInv, ConfigInv, SameFrame;
    match e
    case AcquirePermit(_) => KeepsPermits(s, e);
    case ReturnPermit(_) => KeepsPermits(s, e);
    case Submit(_, _, _, _) => KeepsSubmit(s, e);
    case Cancel(_, _) => KeepsCancel(s, e);
    case LeaseJob(_, _, _) => KeepsLease(s, e);
    case Complete(_, _) => KeepsClose(s, e);
    case Bury(_, _) => KeepsClose(s, e);
    case ScheduleRetry(_, _, _) => KeepsRetry(s, e);
    case PopRetry(_) => KeepsPop(s, e);
    case _ =>
  }
}
