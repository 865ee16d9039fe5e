/** Consequences of the coordinator's invariant: capacity, and runs of many steps. */
module CoordLaws {
  import opened Types
  import opened Seqs
  import opened JobStore
  import opened Tracker
  import opened History
  import opened Recovery
  import opened RecoveryProc
  import opened CoordSpec
  import opened CoordInv

  // ----- capacity -----

  function Caps(s: State): map<QueueName, nat> { map q | q in s.sems :: s.sems[q].capacity }

  lemma LiveIsHeldOrRecovered(store: Store, permits: map<JobId, QueueName>, base: set<JobId>, q: QueueName)
    requires PermitInv(store, permits, base)
    ensures |LiveJobs(store, q)| == |LiveJobs(store, q) * base| + |Held(permits, q)|
  {
    var live := LiveJobs(store, q);
    assert live - base == Held(permits, q);
    assert live == (live * base) + (live - base);
  }

  /** The live jobs of a queue, and the submissions on their way, never exceed its capacity. */
  lemma LiveWithinCapacity(s: State, q: QueueName)
    requires Inv(s) && q in s.sems
    ensures |LiveJobs(s.store, q)| + s.sems[q].inFlight + s.sems[q].available <= s.sems[q].capacity
  {
    hide LogInv, ReadyAll, QueuesKnown, RetryInv, StatsInv, FifoInv, ConfigInv, LeaseInv, PermitInv, TrackAll,
         Replay, LiveJobs, Held;
    assert SemAccount(s.store, s.permits, s.sems[q], q, s.base);
    LiveIsHeldOrRecovered(s.store, s.permits, s.base, q);
  }

  /** A drained queue has its whole capacity back exactly when no job was recovered into it at
      start: the permits of recovered jobs are never returned, whatever becomes of the jobs. */
  lemma DrainedIffNothingRecovered(s: State, q: QueueName)
    requires Inv(s) && q in s.sems && LiveJobs(s.store, q) == {} && s.sems[q].inFlight == 0
    ensures s.sems[q].available == s.sems[q].capacity <==> s.sems[q].reserved == 0
  {
    hide LogInv, ReadyAll, QueuesKnown, RetryInv, StatsInv, FifoInv, ConfigInv, LeaseInv, TrackAll, Replay;
    assert SemAccount(s.store, s.permits, s.sems[q], q, s.base);
    assert forall id :: id in Held(s.permits, q) ==> id in LiveJobs(s.store, q);
    assert Held(s.permits, q) == {};
  }

  /** What the log knows is live is what the coordinator holds live. */
  lemma DurableLive(store: Store, q: QueueName)
    ensures LiveJobs(DurableView(store), q) == LiveJobs(store, q)
  {
  }

  /** Recovering the log under the same configuration will find room for every job. */
  lemma LogFits(s: State)
    requires Inv(s)
    ensures LiveFits(Replay(s.log), Caps(s))
  {
    hide ReadyAll, RetryInv, StatsInv, FifoInv, ConfigInv, LeaseInv, SemInv, PermitInv, Replay, TrackAll, WellFormed;
    forall q | LiveJobs(Replay(s.log), q) != {}
      ensures q in s.sems && |LiveJobs(Replay(s.log), q)| <= s.sems[q].capacity
    {
      DurableLive(s.store, q);
      var id :| id in LiveJobs(s.store, q);
      LiveWithinCapacity(s, q);
    }
  }

  // ----- runs of many steps -----

  ghost predicate CanRun(s: State, es: seq<Event>)
    decreases |es|, 0
  {
    es == [] ||
    var init := es[..|es| - 1];
    CanRun(s, init) && Enabled(ExecAll(s, init), es[|es| - 1])
  }

  ghost function ExecAll(s: State, es: seq<Event>): State
    requires CanRun(s, es)
    decreases |es|, 1
  {
    if es == [] then s else Exec(ExecAll(s, es[..|es| - 1]), es[|es| - 1])
  }

  lemma RunSnoc(s: State, es: seq<Event>, e: Event)
    requires CanRun(s, es) && Enabled(ExecAll(s, es), e)
    ensures CanRun(s, es + [e]) && ExecAll(s, es + [e]) == Exec(ExecAll(s, es), e)
  {
    assert (es + [e])[..|es|] == es;
  }

  lemma {:induction false} RunConcat(s: State, a: seq<Event>, b: seq<Event>)
    requires CanRun(s, a) && CanRun(ExecAll(s, a), b)
    ensures CanRun(s, a + b) && ExecAll(s, a + b) == ExecAll(ExecAll(s, a), b)
  {
    hide Enabled, Exec;
    if b == [] {
      assert a + b == a;
    } else {
      var init, e := b[..|b| - 1], b[|b| - 1];
      RunConcat(s, a, init);
      assert a + b == (a + init) + [e];
      RunSnoc(s, a + init, e);
    }
  }

  lemma {:induction false} RunKeepsInv(s: State, es: seq<Event>)
    requires Inv(s) && CanRun(s, es)
    ensures Inv(ExecAll(s, es))
  {
    hide Inv, Enabled, Exec;
    if es != [] {
      RunKeepsInv(s, es[..|es| - 1]);
      StepKeepsInv(ExecAll(s, es[..|es| - 1]), es[|es| - 1]);
    }
  }

  /** One step appends the record it persists, and nothing else; no step changes what a
      semaphore was created with or what recovery took from it. */
  lemma StepLog(s: State, e: Event)
    requires Enabled(s, e)
    ensures Exec(s, e).log == if RecordOf(s, e).Some? then s.log + [RecordOf(s, e).value] else s.log
    ensures Exec(s, e).sems.Keys == s.sems.Keys
    ensures forall q :: q in s.sems ==> SameReserve(s.sems[q], Exec(s, e).sems[q])
  {
    hide Submitted, CancelledBy, LeasedBy, ClosedBy, RetriedBy, Popped;
    if e.Cancel? { CancelFrame(s, RecordOf(s, e).value); }
  }

  /** Shutdown drains: once it has begun, no run submits or leases again, no worker is parked,
      and leases only disappear. */
  lemma {:induction false} ShutdownDrains(s: State, es: seq<Event>)
    requires Inv(s) && s.shuttingDown && CanRun(s, es)
    ensures var s' := ExecAll(s, es);
            && s'.shuttingDown && s'.parked == []
            && s'.leases.Keys <= s.leases.Keys
            && s.log <= s'.log
            && forall i :: |s.log| <= i < |s'.log| ==> !s'.log[i].JobSubmitted? && !s'.log[i].JobLeased?
  {
    hide Inv, Exec, Enabled, RecordOf;
    RunKeepsInv(s, es);
    ParkedEmpty(ExecAll(s, es));
    if es != [] {
      ShutdownDrains(s, es[..|es| - 1]);
      ShutdownStep(ExecAll(s, es[..|es| - 1]), es[|es| - 1]);
      StepLog(ExecAll(s, es[..|es| - 1]), es[|es| - 1]);
    }
  }

  lemma ParkedEmpty(s: State)
    requires Inv(s)
    ensures s.shuttingDown ==> s.parked == []
  {
  }

  lemma ShutdownStep(s: State, e: Event)
    requires s.shuttingDown && Enabled(s, e)
    ensures Exec(s, e).shuttingDown && Exec(s, e).leases.Keys <= s.leases.Keys
    ensures RecordOf(s, e).Some? ==> !RecordOf(s, e).value.JobSubmitted? && !RecordOf(s, e).value.JobLeased?
  {
    hide Submitted, CancelledBy, LeasedBy, ClosedBy, RetriedBy, Popped;
    if e.Cancel? { CancelFrame(s, RecordOf(s, e).value); }
  }

  // ----- what a step that persists a record does -----

  lemma MovedOthers(store: Store, r: Record, id: JobId)
    requires id in store && r.id != id
    ensures id in MovedStore(store, r) && MovedStore(store, r)[id] == store[id]
  {
  }

  lemma ClosedStore(s: State, r: Record)
    requires r.id in s.store
    ensures var t := ClosedBy(s, r);
            t.store == MovedStore(s.store, r) && t.stats == MovedStats(s.stats, s.store, r) && t.base == s.base
  {
    hide SameFrame, MovedStore, MovedStats, MovedTally, ReleasedSems, Apply;
  }

  lemma RetriedStore(s: State, r: Record, entry: RetryEntry)
    requires r.id in s.store
    ensures var t := RetriedBy(s, r, entry);
            t.store == MovedStore(s.store, r) && t.stats == MovedStats(s.stats, s.store, r) && t.base == s.base
  {
    hide SameFrame, MovedStore, MovedStats, MovedTally, Apply;
  }

  lemma RecordedEffect(s: State, e: Event)
    requires Enabled(s, e) && RecordOf(s, e).Some? && !e.Submit?
    ensures var r, t := RecordOf(s, e).value, Exec(s, e);
            && t.store == MovedStore(s.store, r) && t.stats == MovedStats(s.stats, s.store, r) && t.base == s.base
            && t.leases.Keys <= s.leases.Keys + {r.id}
  {
    hide SameFrame, MovedStore, MovedStats, MovedTally, ReleasedSems, Retain, ClosedBy, RetriedBy, Apply;
    if e.Complete? || e.Bury? {
      ClosedStore(Unleased(s, e.id), RecordOf(s, e).value);
    } else if e.ScheduleRetry? {
      RetriedStore(Unleased(s, e.id), RecordOf(s, e).value, RetryEntry(e.availableAt, e.wallAvailableAt, e.id));
    }
  }

  // ----- leases -----

  /** Every running job has a lease. */
  ghost predicate LeasesComplete(store: Store, leases: map<JobId, Lease>) {
    forall id :: id in store && store[id].state.Running? ==> id in leases
  }

  /** One job changes, and the other jobs' leases stay. */
  lemma CompleteAfter(store: Store, leases: map<JobId, Lease>, store': Store, leases': map<JobId, Lease>, id: JobId)
    requires LeasesComplete(store, leases) && leases.Keys - {id} <= leases'.Keys
    requires forall x :: x in store' && x != id ==> x in store && store'[x] == store[x]
    requires id in store' && store'[id].state.Running? ==> id in leases'
    ensures LeasesComplete(store', leases')
  {
  }

  /** The only steps that take a lease away and leave its job running are the lost leases: a
      closing record that could not be persisted, or a forced shutdown. */
  lemma LeasesStayComplete(s: State, e: Event)
    requires Inv(s) && LeasesComplete(s.store, s.leases) && Enabled(s, e)
    ensures LeasesComplete(Exec(s, e).store, Exec(s, e).leases) <==> !e.DropLease?
  {
    hide Inv, LeasesComplete, SameFrame, MovedStats, MovedTally, ReleasedSems, Legal, ShiftStats, Retain, Apply,
         Moved, Exec, Enabled, RecordOf;
    if e.DropLease? {
      DroppedRuns(s, e);
    } else if RecordOf(s, e).Some? {
      PersistedIsLegal(s, e);
      RecordedLeases(s, e);
      CompleteAfter(s.store, s.leases, Exec(s, e).store, Exec(s, e).leases, RecordOf(s, e).value.id);
    } else {
      var id := SilentLeases(s, e);
      CompleteAfter(s.store, s.leases, Exec(s, e).store, Exec(s, e).leases, id);
    }
  }

  lemma DroppedRuns(s: State, e: Event)
    requires Inv(s) && e.DropLease? && Enabled(s, e)
    ensures !LeasesComplete(Exec(s, e).store, Exec(s, e).leases)
  {
    hide Inv;
    LeasedRuns(s, e.id);
    assert e.id in Exec(s, e).store && e.id !in Exec(s, e).leases;
  }

  lemma RecordedLeases(s: State, e: Event)
    requires Inv(s) && Enabled(s, e) && RecordOf(s, e).Some? && Apply(s.store, RecordOf(s, e).value).Applied?
    ensures var id, s' := RecordOf(s, e).value.id, Exec(s, e);
            && s.leases.Keys - {id} <= s'.leases.Keys
            && (forall x :: x in s'.store && x != id ==> x in s.store && s'.store[x] == s.store[x])
            && (id in s'.store && s'.store[id].state.Running? ==> id in s'.leases)
  {
    hide Inv, SameFrame, MovedStats, MovedTally, ReleasedSems, Retain;
  }

  lemma SilentLeases(s: State, e: Event) returns (id: JobId)
    requires LeasesComplete(s.store, s.leases) && Enabled(s, e) && RecordOf(s, e).None? && !e.DropLease?
    ensures var s' := Exec(s, e);
            && s'.leases == s.leases
            && (forall x :: x in s'.store && x != id ==> x in s.store && s'.store[x] == s.store[x])
            && (id in s'.store && s'.store[id].state.Running? ==> id in s'.leases)
  {
    hide SameFrame, ShiftStats;
    id := if e.PopRetry? then e.entry.id else 0;
  }

  /** In a run without lost leases, exactly the running jobs are leased. */
  lemma {:induction false} LeasedIffRunning(s: State, es: seq<Event>, id: JobId)
    requires Inv(s) && LeasesComplete(s.store, s.leases) && CanRun(s, es)
    requires forall e :: e in es ==> !e.DropLease?
    ensures var s' := ExecAll(s, es);
            LeasesComplete(s'.store, s'.leases) && (id in s'.leases <==> id in s'.store && s'.store[id].state.Running?)
  {
    hide Inv, Exec, Enabled;
    RunKeepsInv(s, es);
    if es != [] {
      LeasedIffRunning(s, es[..|es| - 1], id);
      RunKeepsInv(s, es[..|es| - 1]);
      LeasesStayComplete(ExecAll(s, es[..|es| - 1]), es[|es| - 1]);
    }
    if id in ExecAll(s, es).leases { LeasedRuns(ExecAll(s, es), id); }
  }

  /** A counter is never zero when it is decremented: the saturating subtraction is exact. */
  lemma NeverSaturates(s: State, id: JobId)
    requires Inv(s) && id in s.store && s.store[id].queue in s.stats
    ensures s.stats[s.store[id].queue].Of(s.store[id].state) > 0
  {
    hide LogInv, ReadyAll, QueuesKnown, RetryInv, PermitInv, SemInv, FifoInv, ConfigInv, LeaseInv;
    assert id in Members(s.store, s.store[id].queue, s.store[id].state);
  }

  // ----- counters -----

  lemma DurableInState(store: Store, st: JobState)
    requires st.IsTerminal()
    ensures InState(DurableView(store), st) == InState(store, st)
  {
  }

  /** The global counters are the true counts, across all restarts. */
  lemma GlobalCounts(s: State)
    requires Inv(s)
    ensures TrueTally(s.tally, s.store, s.log)
  {
    hide ReadyAll, QueuesKnown, RetryInv, StatsInv, PermitInv, SemInv, FifoInv, ConfigInv, LeaseInv, Replay, TrackAll,
         WellFormed, InState, RetryRecords, TallyOf;
    TallyIsTrue(s.log);
    DurableInState(s.store, Completed);
    DurableInState(s.store, Dead);
    DurableInState(s.store, Cancelled);
    assert DurableView(s.store).Keys == s.store.Keys;
  }

  /** The jobs of a queue that were submitted since the start. */
  ghost function NewJobs(s: State, q: QueueName): set<JobId> {
    set id | id in s.store && id !in s.base && s.store[id].queue == q
  }

  ghost predicate SubmittedTrue(s: State) {
    forall q :: q in s.stats ==> s.stats[q].submitted == |NewJobs(s, q)|
  }

  /** What no step but a submission touches: which jobs there are, their queues, and the counters of
      submissions. */
  ghost predicate SameSubmissions(s: State, t: State) {
    && t.base == s.base && t.store.Keys == s.store.Keys
    && (forall id :: id in s.store ==> t.store[id].queue == s.store[id].queue)
    && t.stats.Keys == s.stats.Keys
    && (forall q :: q in s.stats ==> t.stats[q].submitted == s.stats[q].submitted)
  }

  lemma MovedKeepsQueues(s: State, r: Record)
    requires !r.JobSubmitted?
    ensures MovedStore(s.store, r).Keys == s.store.Keys
    ensures forall id :: id in s.store ==> MovedStore(s.store, r)[id].queue == s.store[id].queue
    ensures MovedStats(s.stats, s.store, r).Keys == s.stats.Keys
    ensures forall q :: q in s.stats ==> MovedStats(s.stats, s.store, r)[q].submitted == s.stats[q].submitted
  {
  }

  lemma OnlySubmitCounts(s: State, e: Event)
    requires Enabled(s, e) && !e.Submit?
    ensures SameSubmissions(s, Exec(s, e))
  {
    if RecordOf(s, e).Some? {
      hide Exec, Enabled, RecordOf, MovedStore, MovedStats;
      RecordedEffect(s, e);
      RecordKind(s, e);
      MovedKeepsQueues(s, RecordOf(s, e).value);
    } else {
      SilentCounts(s, e);
    }
  }

  lemma RecordKind(s: State, e: Event)
    requires Enabled(s, e) && RecordOf(s, e).Some?
    ensures RecordOf(s, e).value.JobSubmitted? <==> e.Submit?
  {
  }

  lemma SilentCounts(s: State, e: Event)
    requires Enabled(s, e) && RecordOf(s, e).None?
    ensures SameSubmissions(s, Exec(s, e))
  {
    hide SameFrame, Popped;
    if e.PopRetry? { PoppedCounts(s, e.entry); }
  }

  lemma ShiftKeepsSubmitted(stats: map<QueueName, QueueStats>, q: QueueName, from: JobState, to: JobState)
    ensures ShiftStats(stats, q, from, to).Keys == stats.Keys
    ensures forall x :: x in stats ==> ShiftStats(stats, q, from, to)[x].submitted == stats[x].submitted
  {
  }

  lemma PoppedCounts(s: State, entry: RetryEntry)
    ensures SameSubmissions(s, Popped(s, entry))
  {
    hide SameFrame, ShiftStats;
    if entry.id in s.store {
      ShiftKeepsSubmitted(s.stats, s.store[entry.id].queue, RetryWaiting, Queued);
    }
  }

  lemma SameNewJobs(s: State, t: State)
    requires SameSubmissions(s, t) && SubmittedTrue(s)
    ensures SubmittedTrue(t)
  {
    forall q | q in t.stats ensures t.stats[q].submitted == |NewJobs(t, q)| {
      assert NewJobs(t, q) == NewJobs(s, q);
    }
  }

  lemma SubmitCounts(s: State, e: Event)
    requires Enabled(s, e) && e.Submit? && SubmittedTrue(s) && s.base <= s.store.Keys
    ensures SubmittedTrue(Exec(s, e))
  {
    hide SameFrame;
    var t := Exec(s, e);
    forall q | q in t.stats ensures t.stats[q].submitted == |NewJobs(t, q)| {
      if q == e.queue {
        assert NewJobs(t, q) == NewJobs(s, q) + {e.id};
      } else {
        assert NewJobs(t, q) == NewJobs(s, q);
      }
    }
  }

  lemma BaseIsStored(s: State)
    requires Inv(s)
    ensures s.base <= s.store.Keys
  {
  }

  /** In every run, a queue's counter of submissions keeps counting the jobs submitted since the start. */
  lemma {:induction false} SubmissionsCounted(s: State, es: seq<Event>)
    requires Inv(s) && SubmittedTrue(s) && CanRun(s, es)
    ensures SubmittedTrue(ExecAll(s, es))
  {
    hide Inv, Exec, Enabled, SubmittedTrue, SameSubmissions;
    if es != [] {
      var init, e := es[..|es| - 1], es[|es| - 1];
      SubmissionsCounted(s, init);
      RunKeepsInv(s, init);
      var t := ExecAll(s, init);
      if e.Submit? {
        BaseIsStored(t);
        SubmitCounts(t, e);
      } else {
        OnlySubmitCounts(t, e);
        SameNewJobs(t, Exec(t, e));
      }
    }
  }
}
