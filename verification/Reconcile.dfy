/** Reconciliation of jobs that were running when the process died, and why recovery
    may itself crash at any point. */
module Reconcile {
  import opened Types
  import opened Seqs
  import opened JobStore
  import opened Tracker
  import opened History

  /** The record that settles a crash-lost lease. */
  function LostLeaseRecord(job: Job, id: JobId, epoch: nat, now: Millis): Record {
    if job.attempts < job.spec.maxAttempts then JobRetryScheduled(id, epoch, job.attempts, now)
    else JobDead(id, epoch, now)
  }

  /** `reconcile_running_jobs`, visiting the running jobs in the given order. */
  function LostLeases(st: Store, t: Tracker, order: seq<JobId>, now: Millis): seq<Record>
    requires forall id :: id in order ==> id in t.running
  {
    if order == [] then []
    else
      var recs, id := LostLeases(st, t, order[..|order| - 1], now), order[|order| - 1];
      if id in st && st[id].state.Running? then recs + [LostLeaseRecord(st[id], id, t.running[id].0, now)] else recs
  }

  /** A hash map may be visited in any order. */
  ghost predicate Visits(order: seq<JobId>, t: Tracker) {
    && Distinct(order)
    && forall id :: id in order <==> id in t.running
  }

  /** What a crash does to a job: a running one is retried or dies, by its budget. */
  function Settled(job: Job): Job {
    if !job.state.Running? then job
    else job.(state := if job.attempts < job.spec.maxAttempts then RetryWaiting else Dead)
  }

  function SettledAmong(st: Store, ids: set<JobId>): Store {
    map id | id in st :: if id in ids then Settled(st[id]) else st[id]
  }

  function SettledAll(st: Store): Store { map id | id in st :: Settled(st[id]) }

  lemma SettleOne(st: Store, ids: set<JobId>, id: JobId, epoch: nat, now: Millis)
    requires id !in ids
    ensures if id in st && st[id].state.Running?
            then ApplyRelaxed(SettledAmong(st, ids), LostLeaseRecord(st[id], id, epoch, now))
              == SettledAmong(st, ids + {id})
            else SettledAmong(st, ids) == SettledAmong(st, ids + {id})
  {
  }

  lemma {:induction false} ReplayLostLeases(log: seq<Record>, st: Store, t: Tracker, order: seq<JobId>, now: Millis)
    requires Replay(log) == st && Distinct(order) && forall id :: id in order ==> id in t.running
    ensures Replay(log + LostLeases(st, t, order, now)) == SettledAmong(st, Elems(order))
  {
    if order == [] {
      assert log + LostLeases(st, t, order, now) == log;
      assert SettledAmong(st, {}) == st;
    } else {
      var init, id := order[..|order| - 1], order[|order| - 1];
      ReplayLostLeases(log, st, t, init, now);
      var recs := LostLeases(st, t, init, now);
      ElemsSnoc(order);
      SettleOne(st, Elems(init), id, t.running[id].0, now);
      if id in st && st[id].state.Running? {
        var r := LostLeaseRecord(st[id], id, t.running[id].0, now);
        assert log + (recs + [r]) == (log + recs) + [r];
        ReplaySnoc(log + recs, r);
      }
    }
  }

  lemma VisitsAllRunning(log: seq<Record>, order: seq<JobId>)
    requires Visits(order, TrackAll(log))
    ensures SettledAmong(Replay(log), Elems(order)) == SettledAll(Replay(log))
  {
    TrackerCovers(log);
    forall id | id in Replay(log)
      ensures id in order || Settled(Replay(log)[id]) == Replay(log)[id]
    {
      assert Indexed(TrackAll(log), id, Replay(log)[id]);
    }
  }

  /** A prefix of the reconciliation records is the reconciliation of a prefix of the visit. */
  lemma {:induction false} LostLeasesPrefix(st: Store, t: Tracker, order: seq<JobId>, now: Millis, k: nat)
    returns (m: nat)
    requires forall id :: id in order ==> id in t.running
    requires k <= |LostLeases(st, t, order, now)|
    ensures m <= |order| && LostLeases(st, t, order, now)[..k] == LostLeases(st, t, order[..m], now)
  {
    var recs := LostLeases(st, t, order, now);
    if k == |recs| {
      m := |order|;
      assert order[..m] == order && recs[..k] == recs;
    } else {
      var init := order[..|order| - 1];
      m := LostLeasesPrefix(st, t, init, now, k);
      assert init[..m] == order[..m];
      assert recs[..k] == LostLeases(st, t, init, now)[..k];
    }
  }

  lemma SettlingTwice(st: Store, ids: set<JobId>)
    ensures SettledAll(SettledAmong(st, ids)) == SettledAll(st)
    ensures forall id :: id in SettledAll(st) ==> !SettledAll(st)[id].state.Running?
  {
  }

  lemma PrefixDistinct(order: seq<JobId>, m: nat)
    requires Distinct(order) && m <= |order|
    ensures Distinct(order[..m]) && forall id :: id in order[..m] ==> id in order
  {
  }

  /** Recovery converges, for every log whatever: let the first recovery write any prefix of
      its records in any order before it dies; the recovery after that, visiting in any order
      and at any time, ends in the state an undisturbed recovery gives, and none is running. */
  lemma RecoveryConverges(log: seq<Record>, order: seq<JobId>, now: Millis, k: nat, order': seq<JobId>, now': Millis)
    requires Visits(order, TrackAll(log))
    requires k <= |LostLeases(Replay(log), TrackAll(log), order, now)|
    requires var log' := log + LostLeases(Replay(log), TrackAll(log), order, now)[..k]; Visits(order', TrackAll(log'))
    ensures var log' := log + LostLeases(Replay(log), TrackAll(log), order, now)[..k];
            Replay(log' + LostLeases(Replay(log'), TrackAll(log'), order', now')) == SettledAll(Replay(log))
    ensures forall id :: id in SettledAll(Replay(log)) ==> !SettledAll(Replay(log))[id].state.Running?
  {
    var st, t := Replay(log), TrackAll(log);
    var log' := log + LostLeases(st, t, order, now)[..k];
    var m := LostLeasesPrefix(st, t, order, now, k);
    hide LostLeases, Replay, TrackAll, SettledAmong, SettledAll, Distinct;
    PrefixDistinct(order, m);
    ReplayLostLeases(log, st, t, order[..m], now);
    ReplayLostLeases(log', Replay(log'), TrackAll(log'), order', now');
    VisitsAllRunning(log', order');
    SettlingTwice(st, Elems(order[..m]));
  }

  /** Nothing is left to reconcile after a recovery. */
  lemma {:induction false} NothingLeft(st: Store, t: Tracker, order: seq<JobId>, now: Millis)
    requires forall id :: id in order ==> id in t.running
    requires forall id :: id in st ==> !st[id].state.Running?
    ensures LostLeases(st, t, order, now) == []
  {
    if order != [] { NothingLeft(st, t, order[..|order| - 1], now); }
  }

  /** A second recovery with no activity in between appends nothing. */
  lemma SecondRecoveryAppendsNothing(log: seq<Record>, order: seq<JobId>, now: Millis, order': seq<JobId>,
                                     now': Millis)
    requires Visits(order, TrackAll(log))
    requires var log' := log + LostLeases(Replay(log), TrackAll(log), order, now); Visits(order', TrackAll(log'))
    ensures var log' := log + LostLeases(Replay(log), TrackAll(log), order, now);
            LostLeases(Replay(log'), TrackAll(log'), order', now') == []
  {
    var log' := log + LostLeases(Replay(log), TrackAll(log), order, now);
    ReplayLostLeases(log, Replay(log), TrackAll(log), order, now);
    VisitsAllRunning(log, order);
    NothingLeft(Replay(log'), TrackAll(log'), order', now');
  }

  /** The tracker after the lost leases of `order` still holds the other jobs' leases. */
  lemma {:induction false} LostLeasesLegal(log: seq<Record>, order: seq<JobId>, now: Millis)
    requires WellFormed(log)
    requires Distinct(order) && forall id :: id in order ==> id in TrackAll(log).running
    ensures var log' := log + LostLeases(Replay(log), TrackAll(log), order, now);
            && WellFormed(log')
            && TrackAll(log').maxEpoch == TrackAll(log).maxEpoch
            && forall id :: id !in order && id in TrackAll(log).running ==>
                 id in TrackAll(log').running && TrackAll(log').running[id] == TrackAll(log).running[id]
  {
    var st, t := Replay(log), TrackAll(log);
    if order == [] {
      assert log + LostLeases(st, t, order, now) == log;
    } else {
      var init, id := order[..|order| - 1], order[|order| - 1];
      LostLeasesLegal(log, init, now);
      ReplayLostLeases(log, st, t, init, now);
      WellFormedSound(log);
      assert IndexOk(st, t, id) && id !in init;
      var recs := LostLeases(st, t, init, now);
      var r := LostLeaseRecord(st[id], id, t.running[id].0, now);
      assert log + (recs + [r]) == (log + recs) + [r];
      WellFormedSnoc(log + recs, r);
      TrackSnoc(log + recs, r);
    }
  }

  // ----- what recovery does to a job, and when the job is due -----

  /** For every log: recovery leaves a job that was not running as it is, and ends the attempt of one
      that was: with attempts left the job waits for a retry, else it is dead. */
  lemma RecoveredStates(log: seq<Record>, order: seq<JobId>, now: Millis, id: JobId)
    requires Visits(order, TrackAll(log))
    ensures var log' := log + LostLeases(Replay(log), TrackAll(log), order, now);
            && (id in Replay(log') <==> id in Replay(log))
            && (id in Replay(log) ==>
                  var a, b := Replay(log)[id], Replay(log')[id];
                  && b.id == a.id && b.queue == a.queue && b.spec == a.spec && b.createdAt == a.createdAt
                  && b.attempts == a.attempts
                  && (a.state != Running ==> b.state == a.state)
                  && (a.state == Running && a.attempts < a.spec.maxAttempts ==> b.state == RetryWaiting)
                  && (a.state == Running && a.attempts >= a.spec.maxAttempts ==> b.state == Dead))
  {
    hide LostLeases, Replay, TrackAll, Distinct;
    ReplayLostLeases(log, Replay(log), TrackAll(log), order, now);
    VisitsAllRunning(log, order);
  }

  /** Every record that recovery appends carries the time of recovery, so a retry is due at once; it
      names a running job, that job's attempt, and its lease. */
  lemma {:induction false} DueAtOnce(st: Store, t: Tracker, order: seq<JobId>, now: Millis)
    requires forall id :: id in order ==> id in t.running
    ensures forall r :: r in LostLeases(st, t, order, now) ==>
              && (r.JobRetryScheduled? || r.JobDead?)
              && r.id in order && r.id in st && st[r.id].state == Running
              && (r.JobRetryScheduled? ==>
                    r.availableAt == now && r.attempt == st[r.id].attempts && r.epoch == t.running[r.id].0)
              && (r.JobDead? ==> r.at == now && r.epoch == t.running[r.id].0)
  {
    if order != [] { DueAtOnce(st, t, order[..|order| - 1], now); }
  }
}
