/** A lease that is lost while its job runs. What that costs, and for how long. */
module LostLease {
  import opened Types
  import opened Seqs
  import opened History
  import opened Recovery
  import opened RecoveryProc
  import opened CoordSpec
  import opened CoordLemmas
  import opened CoordInv
  import opened CoordBoot
  import opened CoordLaws
  import opened PermitLeak

  /** The job runs, and no lease can end it. */
  ghost predicate LeaseLost(s: State, id: JobId) {
    id in s.store && s.store[id].state.Running? && id !in s.leases
  }

  predicate Cancels(e: Event, id: JobId) { e.Cancel? && e.id == id }

  ghost predicate NeverCancelled(es: seq<Event>, id: JobId) {
    forall e :: e in es ==> !Cancels(e, id)
  }

  /** The step neither persists a record of the job nor fires a timer for it while it waits. */
  ghost predicate Avoids(s: State, e: Event, id: JobId)
    requires Enabled(s, e)
  {
    && (RecordOf(s, e).Some? ==> RecordOf(s, e).value.id != id)
    && (e.PopRetry? && e.entry.id == id && id in s.store ==> !s.store[id].state.RetryWaiting?)
  }

  lemma SilentOther(s: State, e: Event, id: JobId)
    requires Enabled(s, e) && id in s.store && Avoids(s, e, id) && (RecordOf(s, e).None? || e.Submit?)
    ensures id in Exec(s, e).store && Exec(s, e).store[id] == s.store[id]
    ensures id in Exec(s, e).leases ==> id in s.leases
  {
    hide SameFrame, ShiftStats;
  }

  lemma OtherJob(s: State, e: Event, id: JobId)
    requires Enabled(s, e) && id in s.store && Avoids(s, e, id)
    ensures id in Exec(s, e).store && Exec(s, e).store[id] == s.store[id]
    ensures id in Exec(s, e).leases ==> id in s.leases
  {
    hide Exec, Enabled, RecordOf, MovedStore;
    if RecordOf(s, e).Some? && !e.Submit? {
      RecordedEffect(s, e);
      MovedOthers(s.store, RecordOf(s, e).value, id);
    } else {
      SilentOther(s, e, id);
    }
  }

  /** No step but a cancellation touches a job that has lost its lease. */
  lemma LostAvoided(s: State, e: Event, id: JobId)
    requires Enabled(s, e) && LeaseLost(s, id) && !Cancels(e, id)
    ensures Avoids(s, e, id)
  {
  }

  /** No step at all touches a cancelled job. */
  lemma CancelledAvoided(s: State, e: Event, id: JobId)
    requires Inv(s) && Enabled(s, e) && id in s.store && s.store[id].state.Cancelled?
    ensures Avoids(s, e, id)
  {
    hide Inv;
    if id in s.leases { LeasedRuns(s, id); }
  }

  lemma CancelledNow(s: State, e: Event)
    requires Inv(s) && e.Cancel? && Enabled(s, e)
    ensures e.id in Exec(s, e).store && Exec(s, e).store[e.id].state.Cancelled?
  {
    hide Inv, Legal, SameFrame, MovedStats, MovedTally, ReleasedSems, Retain;
    PersistedIsLegal(s, e);
  }

  lemma LostStep(s: State, e: Event, id: JobId)
    requires Inv(s) && Enabled(s, e)
    ensures LeaseLost(s, id) ==>
              if Cancels(e, id) then id in Exec(s, e).store && Exec(s, e).store[id].state.Cancelled?
              else LeaseLost(Exec(s, e), id)
    ensures id in s.store && s.store[id].state.Cancelled? ==>
              id in Exec(s, e).store && Exec(s, e).store[id].state.Cancelled?
  {
    hide Inv, Exec, Enabled, Avoids;
    if LeaseLost(s, id) {
      if Cancels(e, id) {
        CancelledNow(s, e);
      } else {
        LostAvoided(s, e, id);
        OtherJob(s, e, id);
      }
    } else if id in s.store && s.store[id].state.Cancelled? {
      CancelledAvoided(s, e, id);
      OtherJob(s, e, id);
    }
  }

  /** Its job keeps a slot of its queue. */
  lemma SlotTaken(s: State, id: JobId)
    requires Inv(s) && LeaseLost(s, id)
    ensures var q := s.store[id].queue;
            q in s.sems && s.sems[q].available + s.sems[q].inFlight < s.sems[q].capacity
  {
    hide Inv;
    QueueOf(s, id);
    QueueHasSem(s, s.store[id].queue);
    var q := s.store[id].queue;
    LiveWithinCapacity(s, q);
    assert id in LiveJobs(s.store, q);
  }

  lemma QueueHasSem(s: State, q: QueueName)
    requires Inv(s) && q in s.ready
    ensures q in s.sems
  {
  }

  /** A lost lease stays lost, and the slot of its job stays taken, in every run whatever until the
      next start, if and only if the run does not cancel the job. */
  lemma {:induction false} LostUntilCancelled(s: State, es: seq<Event>, id: JobId)
    requires Inv(s) && CanRun(s, es) && LeaseLost(s, id)
    ensures var s' := ExecAll(s, es);
            && (LeaseLost(s', id) <==> NeverCancelled(es, id))
            && (!NeverCancelled(es, id) ==> id in s'.store && s'.store[id].state.Cancelled?)
            && (LeaseLost(s', id) ==>
                  var q := s'.store[id].queue;
                  q in s'.sems && s'.sems[q].available + s'.sems[q].inFlight < s'.sems[q].capacity)
  {
    hide Inv, Exec, Enabled, Cancels;
    RunKeepsInv(s, es);
    if es != [] {
      var init, e := es[..|es| - 1], es[|es| - 1];
      LostUntilCancelled(s, init, id);
      RunKeepsInv(s, init);
      LostStep(ExecAll(s, init), e, id);
      assert forall x :: x in es <==> x in init || x == e;
    }
    if LeaseLost(ExecAll(s, es), id) { SlotTaken(ExecAll(s, es), id); }
  }

  /** From the start state of a log with one submitted job: lease the job, and let its closing record
      fail. Every job that runs is leased until then, and not after. */
  lemma LostLeaseReached(q: QueueName, spec: JobSpec)
    returns (log: seq<Record>, rec: RecoveredState, s: State, lease: Event, lose: Event)
    ensures WellFormed(log) && RecoveredFrom(rec, log) && Fits(rec.store, rec.queuedJobs, rec.retryJobs, map[q := 1])
    ensures Demand(rec.store, rec.queuedJobs, rec.retryJobs, q) == 1
    ensures s == Boot(rec, log, [q], map[q := 1], 0, 0)
    ensures Inv(s) && LeasesComplete(s.store, s.leases)
    ensures lease.LeaseJob? && Enabled(s, lease) && LeasesComplete(Exec(s, lease).store, Exec(s, lease).leases)
    ensures lose.DropLease? && Enabled(Exec(s, lease), lose) && LeaseLost(Exec(Exec(s, lease), lose), lose.id)
  {
    hide Inv, WellFormed, RecoveredFrom, Fits, Demand, Boot, LeasesComplete, Exec, Enabled;
    log, rec, s := StartWithOne(q, spec);
    lease, lose := LeaseJob(0, 0, 0), DropLease(0);
    NothingRuns(s, q, spec);
    LeaseOne(s, q, spec, lease);
    StepKeepsInv(s, lease);
    LeasesStayComplete(s, lease);
    LoseOne(Exec(s, lease), lose);
  }

  lemma NothingRuns(s: State, q: QueueName, spec: JobSpec)
    requires s.store == map[0 := NewJob(0, q, spec, 0)]
    ensures LeasesComplete(s.store, s.leases)
  {
  }

  lemma LeaseOne(s: State, q: QueueName, spec: JobSpec, e: Event)
    requires Inv(s) && s.store == map[0 := NewJob(0, q, spec, 0)] && e == LeaseJob(0, 0, 0)
    requires s.order == [q] && s.cursor == 0 && !s.shuttingDown && q in s.ready && s.ready[q] == [0]
    ensures Enabled(s, e) && 0 in Exec(s, e).leases
  {
    hide LogInv, LeaseInv, QueuesKnown, RetryInv, StatsInv, PermitInv, SemInv, ReadyAll, FifoInv, ConfigInv, SameFrame,
         MovedStore, MovedStats, MovedTally;
    assert ServedQueue(s, 0) == q;
  }

  lemma LoseOne(s: State, e: Event)
    requires Inv(s) && 0 in s.leases && e == DropLease(0)
    ensures Enabled(s, e) && LeaseLost(Exec(s, e), 0)
  {
    hide Inv;
    LeasedRuns(s, 0);
  }
}
