/** The recovery procedure itself: loops over the records and over hash maps, whose
    visiting order is arbitrary. */
module RecoveryProc {
  import opened Types
  import opened Seqs
  import opened JobStore
  import opened Tracker
  import opened History
  import opened Reconcile
  import opened Recovery

  lemma LostLeasesSnoc(st: Store, t: Tracker, order: seq<JobId>, id: JobId, now: Millis)
    requires (forall x :: x in order ==> x in t.running) && id in t.running
    ensures LostLeases(st, t, order + [id], now)
         == LostLeases(st, t, order, now)
            + if id in st && st[id].state.Running? then [LostLeaseRecord(st[id], id, t.running[id].0, now)] else []
  {
    assert (order + [id])[..|order|] == order;
  }

  /** `reconcile_running_jobs`. */
  method ReconcileRunningJobs(store: MemoryStore, tracker: RecoveryTracker, now: Millis)
    returns (records: seq<Record>, ghost order: seq<JobId>)
    ensures Visits(order, tracker.View())
    ensures records == LostLeases(store.jobs, tracker.View(), order, now)
  {
    records, order := [], [];
    ghost var t := tracker.View();
    assert LostLeases(store.jobs, t, [], now) == [];
    hide LostLeases;
    var todo := tracker.running.Keys;
    while todo != {}
      invariant todo <= tracker.running.Keys
      invariant Distinct(order)
      invariant forall id :: id in order <==> id in tracker.running && id !in todo
      invariant records == LostLeases(store.jobs, t, order, now)
    {
      var id :| id in todo;
      todo := todo - {id};
      LostLeasesSnoc(store.jobs, t, order, id, now);
      if id in store.jobs && store.jobs[id].state.Running? {
        var job := store.jobs[id];
        var epoch := tracker.running[id].0;
        if job.attempts < job.spec.maxAttempts {
          records := records + [JobRetryScheduled(id, epoch, job.attempts, now)];
        } else {
          records := records + [JobDead(id, epoch, now)];
        }
      }
      order := order + [id];
    }
  }

  /** Every queue with recovered jobs is configured and large enough. */
  ghost predicate Fits(st: Store, queued: map<QueueName, seq<JobId>>, retry: RetryList, caps: map<QueueName, nat>) {
    forall q :: q in queued || RetryDemand(st, retry, q) > 0 ==> q in caps && Demand(st, queued, retry, q) <= caps[q]
  }

  /** Each queue with live jobs is configured, and has room for them. */
  ghost predicate LiveFits(st: Store, caps: map<QueueName, nat>) {
    forall q :: LiveJobs(st, q) != {} ==> q in caps && |LiveJobs(st, q)| <= caps[q]
  }

  /** What validation decides is a property of the recovered store alone. */
  lemma FitsIsLiveFits(rec: RecoveredState, log: seq<Record>, caps: map<QueueName, nat>)
    requires WellFormed(log) && RecoveredFrom(rec, log)
    requires forall id :: id in rec.store ==> !rec.store[id].state.Running?
    ensures Fits(rec.store, rec.queuedJobs, rec.retryJobs, caps) <==> LiveFits(rec.store, caps)
  {
    forall q
      ensures Demand(rec.store, rec.queuedJobs, rec.retryJobs, q) == |LiveJobs(rec.store, q)|
      ensures q in rec.queuedJobs ==> |rec.queuedJobs[q]| > 0
    {
      DemandIsLive(rec, log, q);
    }
  }

  function Get(m: map<QueueName, nat>, q: QueueName): nat { if q in m then m[q] else 0 }

  lemma RetryDemandStep(st: Store, retry: RetryList, i: nat)
    requires i < |retry|
    ensures forall q :: RetryDemand(st, retry[..i + 1], q)
                     == RetryDemand(st, retry[..i], q) + if retry[i].0 in st && st[retry[i].0].queue == q then 1 else 0
  {
    assert retry[..i + 1][..i] == retry[..i];
  }

  /** First pass of the demand count: the queued lists. */
  method CountQueued(queued: map<QueueName, seq<JobId>>) returns (live: map<QueueName, nat>)
    ensures live.Keys == queued.Keys
    ensures forall q :: q in queued ==> live[q] == |queued[q]|
  {
    live := map[];
    var todo := queued.Keys;
    while todo != {}
      invariant todo <= queued.Keys && live.Keys == queued.Keys - todo
      invariant forall q :: q in live ==> live[q] == |queued[q]|
    {
      var q :| q in todo;
      todo := todo - {q};
      live := live[q := Get(live, q) + |queued[q]|];
    }
  }

  /** Second pass: one more for each waiting job. */
  method CountRetries(st: Store, retry: RetryList, live0: map<QueueName, nat>) returns (live: map<QueueName, nat>)
    ensures forall q :: q in live <==> q in live0 || RetryDemand(st, retry, q) > 0
    ensures forall q :: Get(live, q) == Get(live0, q) + RetryDemand(st, retry, q)
  {
    live := live0;
    for i := 0 to |retry|
      invariant forall q :: q in live <==> q in live0 || RetryDemand(st, retry[..i], q) > 0
      invariant forall q :: Get(live, q) == Get(live0, q) + RetryDemand(st, retry[..i], q)
    {
      RetryDemandStep(st, retry, i);
      var id := retry[i].0;
      if id in st {
        var q := st[id].queue;
        live := live[q := Get(live, q) + 1];
      }
    }
    assert retry[..|retry|] == retry;
  }

  /** Why a recovered state is rejected: a configured queue is missing, and it is one with queued
      jobs if there is such; or all are there and one is too small for its jobs. */
  ghost predicate Explains(err: RecoverError, st: Store, queued: map<QueueName, seq<JobId>>, retry: RetryList,
                           caps: map<QueueName, nat>)
  {
    match err
    case QueueNotFound(q) =>
      q !in caps && (if queued.Keys <= caps.Keys then RetryDemand(st, retry, q) > 0 else q in queued)
    case CapacityExceeded(q, recovered, capacity) =>
      && (forall q :: q in queued || RetryDemand(st, retry, q) > 0 ==> q in caps)
      && q in caps && recovered == Demand(st, queued, retry, q) > capacity == caps[q]
    case _ => false
  }

  /** A queue with queued jobs that is not configured. */
  method FindUnknownQueued(queued: map<QueueName, seq<JobId>>, caps: map<QueueName, nat>)
    returns (q: Option<QueueName>)
    ensures q.None? <==> queued.Keys <= caps.Keys
    ensures q.Some? ==> q.value in queued && q.value !in caps
  {
    var todo := queued.Keys;
    while todo != {}
      invariant todo <= queued.Keys
      invariant forall x :: x in queued && x !in todo ==> x in caps
    {
      var x :| x in todo;
      todo := todo - {x};
      if x !in caps {
        return Some(x);
      }
    }
    return None;
  }

  /** The queue of a waiting job that is not configured. */
  method FindUnknownRetry(st: Store, retry: RetryList, caps: map<QueueName, nat>) returns (q: Option<QueueName>)
    ensures q.None? <==> forall x :: RetryDemand(st, retry, x) > 0 ==> x in caps
    ensures q.Some? ==> RetryDemand(st, retry, q.value) > 0 && q.value !in caps
  {
    for i := 0 to |retry|
      invariant forall x :: RetryDemand(st, retry[..i], x) > 0 ==> x in caps
    {
      RetryDemandStep(st, retry, i);
      var id := retry[i].0;
      if id in st && st[id].queue !in caps {
        RetryDemandGrows(st, retry, i + 1, st[id].queue);
        return Some(st[id].queue);
      }
    }
    assert retry[..|retry|] == retry;
    return None;
  }

  lemma {:induction false} RetryDemandGrows(st: Store, retry: RetryList, i: nat, q: QueueName)
    requires i <= |retry|
    ensures RetryDemand(st, retry[..i], q) <= RetryDemand(st, retry, q)
    decreases |retry| - i
  {
    if i == |retry| {
      assert retry[..i] == retry;
    } else {
      RetryDemandStep(st, retry, i);
      RetryDemandGrows(st, retry, i + 1, q);
    }
  }

  /** A queue with more recovered jobs than it has room for. */
  method FindOverfull(live: map<QueueName, nat>, caps: map<QueueName, nat>) returns (q: Option<QueueName>)
    requires live.Keys <= caps.Keys
    ensures q.None? <==> forall x :: x in live ==> live[x] <= caps[x]
    ensures q.Some? ==> q.value in live && live[q.value] > caps[q.value]
  {
    var todo := live.Keys;
    while todo != {}
      invariant todo <= live.Keys
      invariant forall x :: x in live && x !in todo ==> live[x] <= caps[x]
    {
      var x :| x in todo;
      todo := todo - {x};
      if live[x] > caps[x] {
        return Some(x);
      }
    }
    return None;
  }

  /** `validate_recovered_state`: succeeds exactly when everything fits, and else says what does not. */
  method ValidateRecoveredState(st: Store, queued: map<QueueName, seq<JobId>>, retry: RetryList,
                                caps: map<QueueName, nat>)
    returns (err: Option<RecoverError>)
    ensures err.None? <==> Fits(st, queued, retry, caps)
    ensures err.Some? ==> Explains(err.value, st, queued, retry, caps)
  {
    hide RetryDemand;
    var unknown := FindUnknownQueued(queued, caps);
    if unknown.Some? {
      return Some(QueueNotFound(unknown.value));
    }
    unknown := FindUnknownRetry(st, retry, caps);
    if unknown.Some? {
      return Some(QueueNotFound(unknown.value));
    }
    var live := CountQueued(queued);
    live := CountRetries(st, retry, live);
    assert forall q :: Get(live, q) == Demand(st, queued, retry, q);
    var full := FindOverfull(live, caps);
    if full.Some? {
      assert Get(live, full.value) == live[full.value];
      return Some(CapacityExceeded(full.value, live[full.value], caps[full.value]));
    }
    forall q | q in queued || RetryDemand(st, retry, q) > 0
      ensures q in caps && Demand(st, queued, retry, q) <= caps[q]
    {
      assert q in live && Get(live, q) == live[q];
    }
    return None;
  }

  /** The retry entries that reservation counts: those whose job still waits. */
  function WaitingFor(st: Store, retry: RetryList): RetryList {
    if retry == [] then []
    else
      var rest, last := WaitingFor(st, retry[..|retry| - 1]), retry[|retry| - 1];
      if StillWaits(st, last.0) then rest + [last] else rest
  }

  predicate StillWaits(st: Store, id: JobId) { id in st && st[id].state.RetryWaiting? }

  /** The permits that are reserved for a queue's recovered jobs. */
  function PermitsNeeded(rec: RecoveredState, q: QueueName): nat {
    Demand(rec.store, rec.queuedJobs, WaitingFor(rec.store, rec.retryJobs), q)
  }

  lemma {:induction false} WaitingMembers(st: Store, retry: RetryList)
    ensures forall e :: e in WaitingFor(st, retry) <==> e in retry && e.0 in st && st[e.0].state == RetryWaiting
  {
    if retry != [] { WaitingMembers(st, retry[..|retry| - 1]); }
  }

  lemma StillWaitsIs(st: Store, id: JobId)
    ensures StillWaits(st, id) <==> id in st && st[id].state.RetryWaiting?
  {
  }

  lemma WaitingStep(st: Store, retry: RetryList, last: (JobId, Millis))
    ensures WaitingFor(st, retry + [last])
         == WaitingFor(st, retry) + if last.0 in st && st[last.0].state.RetryWaiting? then [last] else []
  {
    assert (retry + [last])[..|retry|] == retry;
  }

  lemma {:induction false} AllWait(st: Store, retry: RetryList)
    requires forall e :: e in retry ==> StillWaits(st, e.0)
    ensures WaitingFor(st, retry) == retry
  {
    hide StillWaits;
    if retry == [] {
      assert WaitingFor(st, []) == [];
    } else {
      hide WaitingFor;
      var init, last := retry[..|retry| - 1], retry[|retry| - 1];
      assert retry == init + [last];
      AllWait(st, init);
      WaitingStep(st, init, last);
      StillWaitsIs(st, last.0);
    }
  }

  /** What recovery validated is what reservation takes: after a successful recovery, reserving
      the permits of the recovered jobs cannot fail. */
  lemma ReservationSucceeds(rec: RecoveredState, log: seq<Record>, caps: map<QueueName, nat>, q: QueueName)
    requires RecoveredFrom(rec, log) && Fits(rec.store, rec.queuedJobs, rec.retryJobs, caps) && q in caps
    ensures PermitsNeeded(rec, q) == Demand(rec.store, rec.queuedJobs, rec.retryJobs, q) <= caps[q]
  {
    AllWait(rec.store, rec.retryJobs);
  }

  method FilterWaiting(st: Store, retry: RetryList) returns (waiting: RetryList)
    ensures waiting == WaitingFor(st, retry)
  {
    waiting := [];
    for i := 0 to |retry|
      invariant waiting == WaitingFor(st, retry[..i])
    {
      assert retry[..i + 1][..i] == retry[..i];
      if retry[i].0 in st && st[retry[i].0].state.RetryWaiting? {
        waiting := waiting + [retry[i]];
      }
    }
    assert retry[..|retry|] == retry;
  }

  /** `reserve_permits_for_recovered`: takes one permit per recovered job from the semaphores,
      and fails exactly when some semaphore has too few. */
  method ReservePermits(rec: RecoveredState, sems: map<QueueName, nat>) returns (ok: bool, left: map<QueueName, nat>)
    ensures ok <==> forall q :: q in sems ==> PermitsNeeded(rec, q) <= sems[q]
    ensures ok ==> left.Keys == sems.Keys && forall q :: q in sems ==> left[q] <= sems[q]
    ensures ok ==> forall q :: q in sems ==> left[q] + PermitsNeeded(rec, q) == sems[q]
  {
    hide WaitingFor;
    var retry := FilterWaiting(rec.store, rec.retryJobs);
    var st, queued := rec.store, rec.queuedJobs;
    var needed := CountQueued(queued);
    needed := CountRetries(st, retry, needed);
    assert forall q :: Get(needed, q) == Demand(st, queued, retry, q);
    hide Demand;
    left := sems;
    var todo := needed.Keys;
    while todo != {}
      invariant todo <= needed.Keys && left.Keys == sems.Keys
      invariant forall q :: q in sems ==> left[q] + (if q in todo then 0 else Get(needed, q)) == sems[q]
    {
      var q :| q in todo;
      todo := todo - {q};
      if q in left {
        var taken := 0;
        while taken < needed[q]
          invariant taken <= needed[q] && left.Keys == sems.Keys
          invariant left[q] + taken == sems[q]
          invariant forall q' :: q' in sems && q' != q ==>
                      left[q'] + (if q' in todo then 0 else Get(needed, q')) == sems[q']
        {
          if left[q] == 0 {
            assert Get(needed, q) == Demand(st, queued, retry, q);
            return false, left;
          }
          left := left[q := left[q] - 1];
          taken := taken + 1;
        }
      }
    }
    return true, left;
  }

  // ----- from records to a recovered state -----

  /** The pass over the scanned records. */
  method ReplayRecords(records: seq<Record>) returns (store: MemoryStore, tracker: RecoveryTracker, tally: Tally)
    ensures fresh(store) && fresh(tracker)
    ensures store.jobs == Replay(records) && tracker.View() == TrackAll(records) && tally == TallyOf(records)
  {
    store := new MemoryStore();
    tracker := new RecoveryTracker();
    tally := Tally(0, 0, 0, 0, 0);
    for i := 0 to |records|
      invariant fresh(store) && fresh(tracker)
      invariant store.jobs == Replay(records[..i])
      invariant tracker.View() == TrackAll(records[..i])
      invariant tally == TallyOf(records[..i])
    {
      assert records[..i + 1][..i] == records[..i];
      tracker.TrackRecord(records[i]);
      tally := CountRecord(tally, records[i]);
      store.ApplyRecordForRecovery(records[i]);
    }
    assert records[..|records|] == records;
  }

  /** The pass over the reconciliation records, which counts only what they can be. */
  method ApplyReconciliation(store: MemoryStore, tracker: RecoveryTracker, tally0: Tally, ghost log: seq<Record>,
                             records: seq<Record>)
    returns (tally: Tally)
    requires store.jobs == Replay(log) && tracker.View() == TrackAll(log) && tally0 == TallyOf(log)
    requires forall i :: 0 <= i < |records| ==> records[i].JobRetryScheduled? || records[i].JobDead?
    modifies store, tracker
    ensures store.jobs == Replay(log + records) && tracker.View() == TrackAll(log + records)
    ensures tally == TallyOf(log + records)
  {
    tally := tally0;
    assert log + records[..0] == log;
    for i := 0 to |records|
      invariant store.jobs == Replay(log + records[..i])
      invariant tracker.View() == TrackAll(log + records[..i])
      invariant tally == TallyOf(log + records[..i])
    {
      var r := records[i];
      assert log + records[..i + 1] == log + records[..i] + [r];
      ReplaySnoc(log + records[..i], r);
      TrackSnoc(log + records[..i], r);
      TallySnoc(log + records[..i], r);
      tracker.TrackRecord(r);
      match r {
        case JobRetryScheduled(_, _, _, _) => tally := tally.(retried := tally.retried + 1);
        case JobDead(_, _, _) => tally := tally.(dead := tally.dead + 1);
        case _ =>
      }
      store.ApplyRecordForRecovery(r);
    }
    assert records[..|records|] == records;
  }

  method FilterQueued(st: Store, ids: seq<JobId>) returns (valid: seq<JobId>)
    ensures valid == StillQueued(st, ids)
  {
    valid := [];
    for i := 0 to |ids|
      invariant valid == StillQueued(st, ids[..i])
    {
      assert ids[..i + 1][..i] == ids[..i];
      if ids[i] in st && st[ids[i]].state.Queued? {
        valid := valid + [ids[i]];
      }
    }
    assert ids[..|ids|] == ids;
  }

  method BuildQueuedLists(st: Store, tracker: RecoveryTracker) returns (lists: map<QueueName, seq<JobId>>)
    ensures IsQueuedLists(st, tracker.View(), lists)
  {
    lists := map[];
    ghost var t := tracker.View();
    var todo := tracker.queuedOrder.Keys;
    while todo != {}
      invariant todo <= tracker.queuedOrder.Keys && lists.Keys <= tracker.queuedOrder.Keys - todo
      invariant forall q :: q in lists ==> lists[q] != []
      invariant forall q :: q !in todo ==> ListOf(lists, q) == StillQueued(st, Order(t, q))
    {
      var q :| q in todo;
      todo := todo - {q};
      var valid := FilterQueued(st, tracker.queuedOrder[q]);
      if valid != [] {
        lists := lists[q := valid];
      }
    }
  }

  method BuildRetryList(st: Store, tracker: RecoveryTracker) returns (list: RetryList)
    ensures IsRetryList(st, tracker.View(), list)
  {
    list := [];
    var waiting := tracker.retryWaiting;
    var todo := waiting.Keys;
    while todo != {}
      invariant todo <= waiting.Keys
      invariant forall i, j :: 0 <= i < j < |list| ==> list[i].0 != list[j].0
      invariant forall i :: 0 <= i < |list| ==>
                  list[i].0 in waiting && list[i].0 !in todo && list[i].1 == waiting[list[i].0]
      invariant forall i :: 0 <= i < |list| ==> list[i].0 in st && st[list[i].0].state.RetryWaiting?
      invariant forall id :: id in waiting && id !in todo && id in st && st[id].state.RetryWaiting? ==> Waits(list, id)
    {
      var id :| id in todo;
      todo := todo - {id};
      if id in st && st[id].state.RetryWaiting? {
        ghost var list0 := list;
        list := list + [(id, waiting[id])];
        assert list[|list0|].0 == id;
        forall x | Waits(list0, x)
          ensures Waits(list, x)
        {
          var i :| 0 <= i < |list0| && list0[i].0 == x;
          assert list[i].0 == x;
        }
      }
    }
  }

  lemma {:induction false} LostLeasesKinds(st: Store, t: Tracker, order: seq<JobId>, now: Millis)
    requires forall id :: id in order ==> id in t.running
    ensures forall r :: r in LostLeases(st, t, order, now) ==> r.JobRetryScheduled? || r.JobDead?
  {
    if order != [] { LostLeasesKinds(st, t, order[..|order| - 1], now); }
  }

  lemma {:induction false} EpochUnchanged(log: seq<Record>, recs: seq<Record>)
    requires forall r :: r in recs ==> !r.JobLeased?
    ensures TrackAll(log + recs).maxEpoch == TrackAll(log).maxEpoch
  {
    if recs == [] {
      assert log + recs == log;
    } else {
      var init, r := recs[..|recs| - 1], recs[|recs| - 1];
      EpochUnchanged(log, init);
      assert log + recs == (log + init) + [r];
      TrackSnoc(log + init, r);
    }
  }

  /** The state recovered from this log does not fit, for this reason. */
  ghost predicate Misfit(err: RecoverError, log: seq<Record>, caps: map<QueueName, nat>) {
    exists rec :: RecoveredFrom(rec, log) && !Fits(rec.store, rec.queuedJobs, rec.retryJobs, caps)
                  && Explains(err, rec.store, rec.queuedJobs, rec.retryJobs, caps)
  }

  datatype Rebuilt = Rebuilt(state: RecoveredState) | Failed(error: RecoverError)

  /** The pure part of `recover`: replay, reconcile, rebuild the lists, validate. The
      reconciliation records are appended to the file by the caller, also when validation
      then fails; `appended` is empty when recovery stops before reconciling. */
  method Rebuild(records: seq<Record>, lastSequence: nat, now: Millis, caps: map<QueueName, nat>)
    returns (res: Rebuilt, appended: seq<Record>, ghost order: seq<JobId>)
    requires lastSequence <= U64_MAX
    ensures Visits(order, TrackAll(records))
    ensures var early := lastSequence == U64_MAX || TrackAll(records).maxEpoch >= U64_MAX;
            && appended == (if early then [] else LostLeases(Replay(records), TrackAll(records), order, now))
            && (early ==> res.Failed? && (res.error.SequenceExhausted? || res.error.LeaseEpochExhausted?))
    ensures res.Rebuilt? ==>
              && RecoveredFrom(res.state, records + appended)
              && res.state.nextSequence == lastSequence + 1 + |appended| <= U64_MAX
              && Fits(res.state.store, res.state.queuedJobs, res.state.retryJobs, caps)
    ensures res.Failed? ==>
              match res.error
              case SequenceExhausted => lastSequence + 1 + |appended| > U64_MAX
              case LeaseEpochExhausted => TrackAll(records).maxEpoch >= U64_MAX
              case _ => Misfit(res.error, records + appended, caps)
  {
    var store, tracker, tally := ReplayRecords(records);
    var lost;
    lost, order := ReconcileRunningJobs(store, tracker, now);
    appended := [];
    if lastSequence == U64_MAX {
      return Failed(SequenceExhausted), [], order;
    }
    if tracker.maxEpoch >= U64_MAX {
      return Failed(LeaseEpochExhausted), [], order;
    }
    appended := lost;
    var nextEpoch := tracker.maxEpoch + 1;
    LostLeasesKinds(store.jobs, tracker.View(), order, now);
    EpochUnchanged(records, appended);
    var nextSequence := lastSequence + 1 + |appended|;
    if nextSequence > U64_MAX {
      return Failed(SequenceExhausted), appended, order;
    }
    tally := ApplyReconciliation(store, tracker, tally, records, appended);
    var lists := BuildQueuedLists(store.jobs, tracker);
    var retry := BuildRetryList(store.jobs, tracker);
    var state := RecoveredState(store.jobs, lists, retry, nextSequence, nextEpoch, tally);
    assert RecoveredFrom(state, records + appended);
    var err := ValidateRecoveredState(store.jobs, lists, retry, caps);
    if err.Some? {
      return Failed(err.value), appended, order;
    }
    return Rebuilt(state), appended, order;
  }
}
