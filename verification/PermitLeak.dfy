/** The permits that recovery takes for the jobs it finds are forgotten, not handed over, so
    they are never given back. What that costs, exactly. */
module PermitLeak {
  import opened Types
  import opened Seqs
  import opened JobStore
  import opened Tracker
  import opened History
  import opened Recovery
  import opened RecoveryProc
  import opened CoordSpec
  import opened CoordInv
  import opened CoordBoot
  import opened CoordLaws

  /** No run changes a semaphore's size or what recovery took from it. */
  lemma {:induction false} ReserveFixed(s: State, es: seq<Event>, q: QueueName)
    requires CanRun(s, es) && q in s.sems
    ensures q in ExecAll(s, es).sems && SameReserve(s.sems[q], ExecAll(s, es).sems[q])
  {
    hide Exec, Enabled;
    if es != [] {
      ReserveFixed(s, es[..|es| - 1], q);
      StepLog(ExecAll(s, es[..|es| - 1]), es[|es| - 1]);
    }
  }

  /** In any run from a start, a drained queue has its whole capacity back if and only if no live
      job of that queue was recovered at the start. */
  lemma FullAgainIff(rec: RecoveredState, log: seq<Record>, order: seq<QueueName>, caps: map<QueueName, nat>,
                     now: Instant, wallNow: Millis, es: seq<Event>, q: QueueName)
    requires WellFormed(log) && RecoveredFrom(rec, log)
    requires forall id :: id in rec.store ==> !rec.store[id].state.Running?
    requires Distinct(order) && caps.Keys == Elems(order) && q in caps
    requires Fits(rec.store, rec.queuedJobs, rec.retryJobs, caps)
    requires forall q :: q in caps ==> Demand(rec.store, rec.queuedJobs, rec.retryJobs, q) <= caps[q]
    requires CanRun(Boot(rec, log, order, caps, now, wallNow), es)
    ensures var s := ExecAll(Boot(rec, log, order, caps, now, wallNow), es);
            q in s.sems &&
            (LiveJobs(s.store, q) == {} && s.sems[q].inFlight == 0 ==>
               (s.sems[q].available == caps[q] <==> LiveJobs(rec.store, q) == {}))
  {
    hide Exec, Enabled, WellFormed, RecoveredFrom, Distinct, Fits, Inv, LiveJobs, Demand, HeapOf, BootStats, CanRun;
    var boot := Boot(rec, log, order, caps, now, wallNow);
    BootInv(rec, log, order, caps, now, wallNow);
    RunKeepsInv(boot, es);
    ReserveFixed(boot, es, q);
    DemandIsLive(rec, log, q);
    var s := ExecAll(boot, es);
    if LiveJobs(s.store, q) == {} && s.sems[q].inFlight == 0 {
      DrainedIffNothingRecovered(s, q);
    }
  }

  /** The start state with one recovered job. */
  lemma StartWithOne(q: QueueName, spec: JobSpec) returns (log: seq<Record>, rec: RecoveredState, s: State)
    ensures WellFormed(log) && RecoveredFrom(rec, log) && Fits(rec.store, rec.queuedJobs, rec.retryJobs, map[q := 1])
    ensures Demand(rec.store, rec.queuedJobs, rec.retryJobs, q) == 1
    ensures s == Boot(rec, log, [q], map[q := 1], 0, 0)
    ensures Inv(s) && s.sems.Keys == {q} && s.sems[q] == Sem(1, 0, 0, 1)
    ensures s.permits == map[] && s.store == map[0 := NewJob(0, q, spec, 0)]
    ensures s.leases == map[] && s.order == [q] && s.cursor == 0 && !s.shuttingDown
    ensures q in s.ready && s.ready[q] == [0]
  {
    hide *;
    log, rec := OneJob(q, spec);
    var order, caps := [q], map[q := 1];
    OneQueue(q);
    BootInv(rec, log, order, caps, 0, 0);
    s := Boot(rec, log, order, caps, 0, 0);
    BootParts(rec, log, order, caps, 0, 0);
    BootSemIs(rec, 1, q);
  }

  lemma OneQueue(q: QueueName)
    ensures Distinct([q]) && Elems([q]) == {q} == map[q := 1].Keys
  {
  }

  lemma BootParts(rec: RecoveredState, log: seq<Record>, order: seq<QueueName>, caps: map<QueueName, nat>,
                  now: Instant, wallNow: Millis)
    requires forall q :: q in caps ==> Demand(rec.store, rec.queuedJobs, rec.retryJobs, q) <= caps[q]
    ensures var s := Boot(rec, log, order, caps, now, wallNow);
            && s.permits == map[] && s.store == rec.store && s.leases == map[]
            && s.order == order && s.cursor == 0 && !s.shuttingDown
            && s.ready.Keys == caps.Keys && (forall q :: q in caps ==> s.ready[q] == ListOf(rec.queuedJobs, q))
            && s.sems.Keys == caps.Keys && forall q :: q in caps ==> s.sems[q] == BootSem(rec, caps[q], q)
  {
    hide HeapOf, BootStats, Demand, BootSem;
  }

  lemma BootSemIs(rec: RecoveredState, capacity: nat, q: QueueName)
    requires Demand(rec.store, rec.queuedJobs, rec.retryJobs, q) <= capacity
    ensures BootSem(rec, capacity, q)
         == Sem(capacity, capacity - Demand(rec.store, rec.queuedJobs, rec.retryJobs, q), 0,
               Demand(rec.store, rec.queuedJobs, rec.retryJobs, q))
  {
  }

  lemma CancelOne(s: State, q: QueueName, spec: JobSpec)
    requires s.permits == map[] && s.store == map[0 := NewJob(0, q, spec, 0)]
    ensures Enabled(s, Cancel(0, 0))
    ensures Exec(s, Cancel(0, 0)).sems == s.sems && LiveJobs(Exec(s, Cancel(0, 0)).store, q) == {}
  {
    hide MovedStats, MovedTally;
  }

  /** A single recovered job is enough: cancel it, and the queue is empty and closed for good. */
  lemma OneRecoveredJob(q: QueueName, spec: JobSpec)
    returns (log: seq<Record>, rec: RecoveredState, s: State, e: Event)
    ensures WellFormed(log) && RecoveredFrom(rec, log) && Fits(rec.store, rec.queuedJobs, rec.retryJobs, map[q := 1])
    ensures Demand(rec.store, rec.queuedJobs, rec.retryJobs, q) == 1
    ensures s == Boot(rec, log, [q], map[q := 1], 0, 0)
    ensures Inv(s) && Enabled(s, e) && LiveJobs(Exec(s, e).store, q) == {}
    ensures Exec(s, e).sems.Keys == {q} && Exec(s, e).sems[q] == Sem(1, 0, 0, 1)
    ensures forall es :: CanRun(Exec(s, e), es) ==>
              q in ExecAll(Exec(s, e), es).sems && ExecAll(Exec(s, e), es).sems[q].available == 0
  {
    hide Inv, Exec, Enabled, CanRun, ExecAll, LiveJobs, WellFormed, RecoveredFrom, Fits, Demand, Boot;
    log, rec, s := StartWithOne(q, spec);
    e := Cancel(0, 0);
    CancelOne(s, q, spec);
    var s' := Exec(s, e);
    StepKeepsInv(s, e);
    forall es | CanRun(s', es)
      ensures q in ExecAll(s', es).sems && ExecAll(s', es).sems[q].available == 0
    {
      ReserveFixed(s', es, q);
      RunKeepsInv(s', es);
      LeastTaken(ExecAll(s', es), q);
    }
  }

  lemma LeastTaken(s: State, q: QueueName)
    requires Inv(s) && q in s.sems
    ensures s.sems[q].available + s.sems[q].reserved <= s.sems[q].capacity
  {
    hide LogInv, ReadyAll, QueuesKnown, RetryInv, StatsInv, FifoInv, ConfigInv, LeaseInv, PermitInv, TrackAll, Replay;
    assert SemAccount(s.store, s.permits, s.sems[q], q, s.base);
  }

  lemma OneJob(q: QueueName, spec: JobSpec) returns (log: seq<Record>, rec: RecoveredState)
    ensures WellFormed(log) && RecoveredFrom(rec, log)
    ensures rec.store == map[0 := NewJob(0, q, spec, 0)] && NewJob(0, q, spec, 0).state.Queued?
    ensures Demand(rec.store, rec.queuedJobs, rec.retryJobs, q) == 1 && ListOf(rec.queuedJobs, q) == [0]
    ensures Fits(rec.store, rec.queuedJobs, rec.retryJobs, map[q := 1])
  {
    var r := JobSubmitted(0, q, spec, 0);
    log := [r];
    assert [] + [r] == log && Replay([]) == map[] && TrackAll([]) == EMPTY_TRACKER;
    WellFormedSnoc([], r);
    ReplaySnoc([], r);
    TrackSnoc([], r);
    assert Order(EMPTY_TRACKER, q) + [0] == [0];
    assert TrackAll(log) == Tracker(map[0 := (q, spec.maxAttempts)], map[], map[], map[q := [0]], 0);
    rec := RecoveredState(Replay(log), map[q := [0]], [], 2, 1, TallyOf(log));
    assert [0][..0] == [];
    assert StillQueued(rec.store, [0]) == [0];
  }
}
