/** Starting the runtime: recover the log, reserve the permits of the recovered jobs, build the
    coordinator. */
module Startup {
  import opened Types
  import opened Seqs
  import opened JobStore
  import opened Tracker
  import opened History
  import opened Reconcile
  import opened Recovery
  import opened RecoveryProc
  import opened CoordSpec
  import opened CoordBoot
  import opened CoordLaws
  import opened Codec
  import opened Scanner
  import opened WalFile
  import opened Runs
  import opened RecoverFile
  import opened Backoff
  import opened CoordinatorObject

  datatype Config = Config(
    order: seq<QueueName>, caps: map<QueueName, nat>, visibilityTimeout: nat, shutdownTimeout: nat, retry: RetryConfig)

  datatype StartResult = Started(coordinator: Coordinator) | StartFailed(failure: Failure)

  /** Semaphores of the configured sizes, of which reservation has left so many permits. */
  function Semaphores(caps: map<QueueName, nat>, left: map<QueueName, nat>): map<QueueName, Sem>
    requires left.Keys == caps.Keys && forall q :: q in caps ==> left[q] <= caps[q]
  {
    map q | q in caps :: Sem(caps[q], left[q], 0, caps[q] - left[q])
  }

  /** What reservation leaves is what the start state says. */
  lemma SemaphoresAtStart(rec: RecoveredState, log: seq<Record>, caps: map<QueueName, nat>, left: map<QueueName, nat>)
    requires RecoveredFrom(rec, log) && Fits(rec.store, rec.queuedJobs, rec.retryJobs, caps)
    requires left.Keys == caps.Keys && forall q :: q in caps ==> left[q] <= caps[q]
    requires forall q :: q in caps ==> left[q] + PermitsNeeded(rec, q) == caps[q]
    ensures forall q :: q in caps ==> Demand(rec.store, rec.queuedJobs, rec.retryJobs, q) <= caps[q]
    ensures Semaphores(caps, left) == map q | q in caps :: BootSem(rec, caps[q], q)
  {
    hide RecoveredFrom, Fits, PermitsNeeded, Demand;
    forall q | q in caps
      ensures PermitsNeeded(rec, q) == Demand(rec.store, rec.queuedJobs, rec.retryJobs, q) <= caps[q]
    {
      ReservationSucceeds(rec, log, caps, q);
    }
  }

  /** Every configured queue has the permits its recovered jobs need. */
  lemma EnoughPermits(rec: RecoveredState, log: seq<Record>, caps: map<QueueName, nat>)
    requires RecoveredFrom(rec, log) && Fits(rec.store, rec.queuedJobs, rec.retryJobs, caps)
    ensures forall q :: q in caps ==> PermitsNeeded(rec, q) <= caps[q]
  {
    hide RecoveredFrom, Fits, PermitsNeeded, Demand;
    forall q | q in caps ensures PermitsNeeded(rec, q) <= caps[q] { ReservationSucceeds(rec, log, caps, q); }
  }

  /** The log after a successful recovery. */
  ghost function RecoveredLog(f: Format, disk: seq<byte>, visit: seq<JobId>, wall: Millis): seq<Record>
    requires ScanFile(f, disk).Scanned? && Visits(visit, TrackAll(ScanFile(f, disk).records))
  {
    ScanFile(f, disk).records + Lost(ScanFile(f, disk).records, visit, wall)
  }

  /** On any file: what recovery returns is the state of the recovered log, and it fits. */
  lemma RecoveredFits(f: Format, disk: seq<byte>, wall: Millis, caps: map<QueueName, nat>, visit: seq<JobId>, k: nat,
                      disk': seq<byte>, rec: RecoveredState)
    requires RecoverSpec(f, disk, wall, caps, visit, k, disk', Recovered(rec))
    ensures ScanFile(f, disk).Scanned? && Visits(visit, TrackAll(ScanFile(f, disk).records))
    ensures RecoveredFrom(rec, RecoveredLog(f, disk, visit, wall))
    ensures Fits(rec.store, rec.queuedJobs, rec.retryJobs, caps)
  {
    hide ScanFile, Visits, TrackAll, Replay, LostLeases, Fits, IsQueuedLists, IsRetryList, EncodeLog;
  }

  /** A file that a coordinator wrote gives a coordinator that satisfies the invariant. */
  lemma SoundStart(f: Format, disk: seq<byte>, visit: seq<JobId>, wall: Millis, rec: RecoveredState,
                   order: seq<QueueName>, caps: map<QueueName, nat>, sems: map<QueueName, Sem>,
                   now: Instant, wallNow: Millis)
    requires ScanFile(f, disk).Scanned? && Visits(visit, TrackAll(ScanFile(f, disk).records))
    requires WellFormed(ScanFile(f, disk).records)
    requires RecoveredFrom(rec, RecoveredLog(f, disk, visit, wall))
    requires Fits(rec.store, rec.queuedJobs, rec.retryJobs, caps)
    requires Distinct(order) && caps.Keys == Elems(order)
    requires forall q :: q in caps ==> Demand(rec.store, rec.queuedJobs, rec.retryJobs, q) <= caps[q]
    requires sems == map q | q in caps :: BootSem(rec, caps[q], q)
    ensures var log, s := RecoveredLog(f, disk, visit, wall),
                          StartState(rec, RecoveredLog(f, disk, visit, wall), order, sems, now, wallNow);
            Inv(s) && s == Boot(rec, log, order, caps, now, wallNow)
  {
    hide ScanFile, WellFormed, Visits, TrackAll, Replay, LostLeases, Fits, IsQueuedLists, IsRetryList, Inv, Distinct,
         Demand, BootSem, StartState, Boot;
    FullyReconciled(ScanFile(f, disk).records, visit, wall, caps);
    StartIsBoot(rec, RecoveredLog(f, disk, visit, wall), order, caps, sems, now, wallNow);
  }

  /** `Runtime::start` on any file, up to the point where the tasks are spawned. A start fails exactly
      when recovery fails; else reservation succeeds and the coordinator is built from the recovered
      log. If a coordinator wrote that log, the invariant holds. */
  method Start(f: Format, file: LogFile, config: Config, wall: Millis, now: Instant, wallNow: Millis)
    returns (res: StartResult, ghost visit: seq<JobId>, ghost k: nat, ghost recovered: RecoverResult)
    requires Distinct(config.order) && config.caps.Keys == Elems(config.order)
    modifies file
    ensures RecoverSpec(f, old(file.bytes), wall, config.caps, visit, k, file.bytes, recovered)
    ensures recovered.RecoveryFailed? ==> res == StartFailed(recovered.failure)
    ensures recovered.Recovered? ==>
              && res.Started? && fresh(res.coordinator)
              && fresh(res.coordinator.store) && fresh(res.coordinator.rng)
              && res.coordinator.visibilityTimeout == config.visibilityTimeout
              && res.coordinator.shutdownTimeout == config.shutdownTimeout
              && res.coordinator.retryConfig == config.retry
              && res.coordinator.clock == now
              && ScanFile(f, old(file.bytes)).Scanned?
              && Visits(visit, TrackAll(ScanFile(f, old(file.bytes)).records))
              && (forall q :: q in config.caps ==>
                    Demand(recovered.state.store, recovered.state.queuedJobs, recovered.state.retryJobs, q)
                    <= config.caps[q])
    ensures recovered.Recovered? ==>
              var log := RecoveredLog(f, old(file.bytes), visit, wall);
              var sems := map q | q in config.caps :: BootSem(recovered.state, config.caps[q], q);
              && res.coordinator.View() == StartState(recovered.state, log, config.order, sems, now, wallNow)
              && (WellFormed(ScanFile(f, old(file.bytes)).records) ==>
                    && res.coordinator.Valid()
                    && res.coordinator.View() == Boot(recovered.state, log, config.order, config.caps, now, wallNow))
  {
    hide *;
    ghost var disk := file.bytes;
    var outcome;
    outcome, visit, k := file.Recover(f, wall, config.caps);
    recovered := outcome;
    if outcome.RecoveryFailed? {
      return StartFailed(outcome.failure), visit, k, recovered;
    }
    var rec := outcome.state;
    RecoveredFits(f, disk, wall, config.caps, visit, k, file.bytes, rec);
    ghost var log := RecoveredLog(f, disk, visit, wall);
    EnoughPermits(rec, log, config.caps);
    var ok, left := ReservePermits(rec, config.caps);
    SemaphoresAtStart(rec, log, config.caps, left);
    var sems := Semaphores(config.caps, left);
    var coordinator := new Coordinator(rec, log, config.order, sems, now, wallNow,
                                       config.visibilityTimeout, config.shutdownTimeout, config.retry);
    if WellFormed(ScanFile(f, disk).records) {
      SoundStart(f, disk, visit, wall, rec, config.order, config.caps, sems, now, wallNow);
      Validity(coordinator);
    }
    return Started(coordinator), visit, k, recovered;
  }

  /** At a start no submission has been counted yet. */
  lemma NoneSubmittedYet(rec: RecoveredState, log: seq<Record>, order: seq<QueueName>, sems: map<QueueName, Sem>,
                         now: Instant, wallNow: Millis)
    ensures SubmittedTrue(StartState(rec, log, order, sems, now, wallNow))
  {
    hide HeapOf, StillQueued, WaitingFor, RetryDemand;
    var s := StartState(rec, log, order, sems, now, wallNow);
    forall q | q in s.stats ensures s.stats[q].submitted == |NewJobs(s, q)| {
      assert NewJobs(s, q) == {};
    }
  }

  lemma Validity(c: Coordinator)
    ensures c.Valid() <==> Inv(c.View())
  {
  }
}
