/** Rebuilding the runtime state from a scanned log, and the checks made before it is used. */
module Recovery {
  import opened Types
  import opened Seqs
  import opened JobStore
  import opened Tracker
  import opened History

  datatype Tally = Tally(submitted: nat, completed: nat, dead: nat, cancelled: nat, retried: nat)

  function CountRecord(n: Tally, r: Record): Tally {
    match r
    case JobSubmitted(_, _, _, _) => n.(submitted := n.submitted + 1)
    case JobLeased(_, _, _, _) => n
    case JobRetryScheduled(_, _, _, _) => n.(retried := n.retried + 1)
    case JobCompleted(_, _, _) => n.(completed := n.completed + 1)
    case JobDead(_, _, _) => n.(dead := n.dead + 1)
    case JobCancelled(_, _) => n.(cancelled := n.cancelled + 1)
  }

  /** The global counters are a function of the log. */
  function TallyOf(log: seq<Record>): Tally {
    if log == [] then Tally(0, 0, 0, 0, 0) else CountRecord(TallyOf(log[..|log| - 1]), log[|log| - 1])
  }

  lemma TallySnoc(log: seq<Record>, r: Record)
    ensures TallyOf(log + [r]) == CountRecord(TallyOf(log), r)
  {
    assert (log + [r])[..|log|] == log;
  }

  type RetryList = seq<(JobId, Millis)>

  datatype RecoveredState = RecoveredState(
    store: Store,
    queuedJobs: map<QueueName, seq<JobId>>,
    retryJobs: RetryList,
    nextSequence: nat,
    nextEpoch: nat,
    tally: Tally)

  datatype RecoverError =
    | SequenceExhausted
    | LeaseEpochExhausted
    | QueueNotFound(queue: QueueName)
    | CapacityExceeded(queue: QueueName, recovered: nat, capacity: nat)

  function StillQueued(st: Store, ids: seq<JobId>): seq<JobId> {
    if ids == [] then []
    else
      var s, id := StillQueued(st, ids[..|ids| - 1]), ids[|ids| - 1];
      if id in st && st[id].state.Queued? then s + [id] else s
  }

  function ListOf(lists: map<QueueName, seq<JobId>>, q: QueueName): seq<JobId> {
    if q in lists then lists[q] else []
  }

  /** `queued_jobs`: the tracked orders, filtered by the store, without empty lists. */
  ghost predicate IsQueuedLists(st: Store, t: Tracker, lists: map<QueueName, seq<JobId>>) {
    forall q :: ListOf(lists, q) == StillQueued(st, Order(t, q)) && (q in lists ==> lists[q] != [])
  }

  /** `retry_jobs`: the waiting jobs with their times, in any order. */
  ghost predicate IsRetryList(st: Store, t: Tracker, list: RetryList) {
    && (forall i, j :: 0 <= i < j < |list| ==> list[i].0 != list[j].0)
    && (forall i :: 0 <= i < |list| ==> list[i].0 in t.retryWaiting && list[i].1 == t.retryWaiting[list[i].0])
    && (forall i :: 0 <= i < |list| ==> list[i].0 in st && st[list[i].0].state.RetryWaiting?)
    && (forall id :: id in t.retryWaiting && id in st && st[id].state.RetryWaiting? ==> Waits(list, id))
  }

  ghost predicate Waits(list: RetryList, id: JobId) {
    exists i :: 0 <= i < |list| && list[i].0 == id
  }

  /** The state recovered from a log that already holds the reconciliation records. */
  ghost predicate RecoveredFrom(rec: RecoveredState, log: seq<Record>) {
    && rec.store == Replay(log)
    && IsQueuedLists(rec.store, TrackAll(log), rec.queuedJobs)
    && IsRetryList(rec.store, TrackAll(log), rec.retryJobs)
    && rec.nextEpoch == TrackAll(log).maxEpoch + 1
    && rec.tally == TallyOf(log)
  }

  // ----- every live job is placed exactly once -----

  lemma {:induction false} StillQueuedAll(st: Store, ids: seq<JobId>)
    requires forall id :: id in ids ==> id in st && st[id].state.Queued?
    ensures StillQueued(st, ids) == ids
  {
    if ids != [] { StillQueuedAll(st, ids[..|ids| - 1]); }
  }

  lemma {:induction false} StillQueuedMembers(st: Store, ids: seq<JobId>)
    ensures forall id :: id in StillQueued(st, ids) <==> id in ids && id in st && st[id].state == Queued
    ensures Distinct(ids) ==> Distinct(StillQueued(st, ids))
  {
    if ids != [] { StillQueuedMembers(st, ids[..|ids| - 1]); }
  }

  lemma QueuedListExact(rec: RecoveredState, log: seq<Record>, q: QueueName)
    requires WellFormed(log) && RecoveredFrom(rec, log)
    ensures ListOf(rec.queuedJobs, q) == Order(TrackAll(log), q)
    ensures Distinct(ListOf(rec.queuedJobs, q))
    ensures forall id :: id in ListOf(rec.queuedJobs, q)
                    <==> (id in rec.store && rec.store[id].state.Queued? && rec.store[id].queue == q)
  {
    WellFormedSound(log);
    assert OrderOk(rec.store, TrackAll(log), q);
    StillQueuedAll(rec.store, Order(TrackAll(log), q));
  }

  lemma RetryListExact(rec: RecoveredState, log: seq<Record>, id: JobId)
    requires WellFormed(log) && RecoveredFrom(rec, log)
    ensures Waits(rec.retryJobs, id) <==> id in rec.store && rec.store[id].state.RetryWaiting?
  {
    WellFormedSound(log);
    assert IndexOk(rec.store, TrackAll(log), id);
  }

  /** How often a job stands in the recovered lists. */
  ghost predicate PlacedOnce(rec: RecoveredState, id: JobId, job: Job) {
    && (job.state.Queued? <==> id in ListOf(rec.queuedJobs, job.queue))
    && (forall q :: q != job.queue ==> id !in ListOf(rec.queuedJobs, q))
    && (job.state.RetryWaiting? <==> Waits(rec.retryJobs, id))
    && Distinct(ListOf(rec.queuedJobs, job.queue))
    && (forall i, j :: 0 <= i < j < |rec.retryJobs| ==> rec.retryJobs[i].0 != rec.retryJobs[j].0)
  }

  /** In a recovered state every live job stands exactly once in exactly one of the lists,
      and terminal jobs stand in none. */
  lemma LiveJobsPlacedOnce(rec: RecoveredState, log: seq<Record>, id: JobId)
    requires WellFormed(log) && RecoveredFrom(rec, log)
    requires id in rec.store
    ensures PlacedOnce(rec, id, rec.store[id])
  {
    RetryListExact(rec, log, id);
    forall q
      ensures id in ListOf(rec.queuedJobs, q) <==> rec.store[id].state.Queued? && rec.store[id].queue == q
    {
      QueuedListExact(rec, log, q);
    }
    QueuedListExact(rec, log, rec.store[id].queue);
  }

  // ----- capacity -----

  ghost function LiveJobs(st: Store, q: QueueName): set<JobId> {
    set id | id in st && st[id].queue == q && !st[id].state.IsTerminal()
  }

  function RetryDemand(st: Store, retry: RetryList, q: QueueName): nat {
    if retry == [] then 0
    else
      var id := retry[|retry| - 1].0;
      RetryDemand(st, retry[..|retry| - 1], q) + if id in st && st[id].queue == q then 1 else 0
  }

  /** The permits that the recovered jobs of a queue need. */
  function Demand(st: Store, queued: map<QueueName, seq<JobId>>, retry: RetryList, q: QueueName): nat {
    |ListOf(queued, q)| + RetryDemand(st, retry, q)
  }

  ghost function RetryIn(st: Store, retry: RetryList, q: QueueName): set<JobId> {
    if retry == [] then {}
    else
      var ids, id := RetryIn(st, retry[..|retry| - 1], q), retry[|retry| - 1].0;
      if id in st && st[id].queue == q then ids + {id} else ids
  }

  lemma WaitsSnoc(retry: RetryList, id: JobId)
    requires retry != []
    ensures Waits(retry, id) <==> Waits(retry[..|retry| - 1], id) || retry[|retry| - 1].0 == id
  {
  }

  lemma {:induction false} RetryDemandCounts(st: Store, retry: RetryList, q: QueueName)
    requires forall i, j :: 0 <= i < j < |retry| ==> retry[i].0 != retry[j].0
    ensures RetryDemand(st, retry, q) == |RetryIn(st, retry, q)|
    ensures forall id :: id in RetryIn(st, retry, q) <==> Waits(retry, id) && id in st && st[id].queue == q
  {
    if retry != [] {
      RetryDemandCounts(st, retry[..|retry| - 1], q);
      forall id ensures Waits(retry, id) <==> Waits(retry[..|retry| - 1], id) || retry[|retry| - 1].0 == id {
        WaitsSnoc(retry, id);
      }
      assert !Waits(retry[..|retry| - 1], retry[|retry| - 1].0);
    }
  }

  lemma {:induction false} DistinctCard(s: seq<JobId>)
    requires Distinct(s)
    ensures |Elems(s)| == |s|
  {
    if s != [] {
      DistinctCard(s[..|s| - 1]);
      ElemsSnoc(s);
    }
  }

  lemma RetryListDistinct(rec: RecoveredState, log: seq<Record>)
    requires RecoveredFrom(rec, log)
    ensures forall i, j :: 0 <= i < j < |rec.retryJobs| ==> rec.retryJobs[i].0 != rec.retryJobs[j].0
  {
  }

  /** The demand that validation and reservation compute is the number of live jobs. */
  lemma DemandIsLive(rec: RecoveredState, log: seq<Record>, q: QueueName)
    requires WellFormed(log) && RecoveredFrom(rec, log)
    requires forall id :: id in rec.store ==> !rec.store[id].state.Running?
    ensures Demand(rec.store, rec.queuedJobs, rec.retryJobs, q) == |LiveJobs(rec.store, q)|
  {
    hide Replay, TrackAll, WellFormed, IsQueuedLists, IsRetryList, RetryDemand, RetryIn, TallyOf, Distinct;
    var list, waiting := Elems(ListOf(rec.queuedJobs, q)), RetryIn(rec.store, rec.retryJobs, q);
    QueuedListExact(rec, log, q);
    DistinctCard(ListOf(rec.queuedJobs, q));
    RetryListDistinct(rec, log);
    RetryDemandCounts(rec.store, rec.retryJobs, q);
    forall id
      ensures id in LiveJobs(rec.store, q) <==> id in list || id in waiting
      ensures !(id in list && id in waiting)
    {
      RetryListExact(rec, log, id);
    }
    assert LiveJobs(rec.store, q) == list + waiting;
  }

  // ----- recovered times and counters -----

  /** Each recovered retry carries the time that was persisted with it: the one in the last record of
      its job. */
  lemma RetryTimesPersisted(rec: RecoveredState, log: seq<Record>, i: nat)
    requires WellFormed(log) && RecoveredFrom(rec, log) && i < |rec.retryJobs|
    ensures var (id, at) := rec.retryJobs[i];
            var h := Project(log, id);
            h != [] && h[|h| - 1].JobRetryScheduled? && h[|h| - 1].id == id && h[|h| - 1].availableAt == at
  {
    hide WellFormed, IsHistory, IsQueuedLists;
    HistoryOfJob(log, rec.retryJobs[i].0);
    ProjectIds(log, rec.retryJobs[i].0);
  }

  lemma {:induction false} ProjectIds(log: seq<Record>, id: JobId)
    ensures forall i :: 0 <= i < |Project(log, id)| ==> Project(log, id)[i].id == id
  {
    if log != [] { ProjectIds(log[..|log| - 1], id); }
  }

  function InState(st: Store, s: JobState): set<JobId> { set id | id in st && st[id].state == s }

  function RetryRecords(log: seq<Record>): nat {
    if log == [] then 0
    else RetryRecords(log[..|log| - 1]) + if log[|log| - 1].JobRetryScheduled? then 1 else 0
  }

  lemma InStateAfter(st: Store, id: JobId, job: Job, s: JobState)
    ensures |InState(st[id := job], s)|
         == |InState(st, s)| - (if id in st && st[id].state == s then 1 else 0) + if job.state == s then 1 else 0
  {
    var a, b := InState(st, s), InState(st[id := job], s);
    assert a - {id} == b - {id};
    assert |a - {id}| == |a| - if id in a then 1 else 0;
    assert |b - {id}| == |b| - if id in b then 1 else 0;
  }

  /** The global counters are the true counts: of jobs submitted and of jobs that ended each way, and
      of retries scheduled. */
  ghost predicate TrueTally(n: Tally, st: Store, log: seq<Record>) {
    && n.submitted == |st.Keys|
    && n.completed == |InState(st, Completed)|
    && n.dead == |InState(st, Dead)|
    && n.cancelled == |InState(st, Cancelled)|
    && n.retried == RetryRecords(log)
  }

  lemma TallyStep(st: Store, t: Tracker, n: Tally, log: seq<Record>, r: Record)
    requires Legal(st, t, r) && TrueTally(n, st, log)
    ensures TrueTally(CountRecord(n, r), ApplyRelaxed(st, r), log + [r])
  {
    hide InState;
    assert (log + [r])[..|log|] == log;
    ApplyRelaxedMeans(st, r);
    var st' := ApplyRelaxed(st, r);
    assert st' == st[r.id := st'[r.id]] && st'.Keys == st.Keys + {r.id};
    InStateAfter(st, r.id, st'[r.id], Completed);
    InStateAfter(st, r.id, st'[r.id], Dead);
    InStateAfter(st, r.id, st'[r.id], Cancelled);
  }

  lemma {:induction false} TallyIsTrue(log: seq<Record>)
    requires WellFormed(log)
    ensures TrueTally(TallyOf(log), Replay(log), log)
  {
    if log != [] {
      var init, r := log[..|log| - 1], log[|log| - 1];
      TallyIsTrue(init);
      TallyStep(Replay(init), TrackAll(init), TallyOf(init), init, r);
      assert init + [r] == log;
    }
  }
}
