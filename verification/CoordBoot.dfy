/** The coordinator's state at start, built from what recovery returns. */
module CoordBoot {
  import opened Types
  import opened Seqs
  import opened JobStore
  import opened Tracker
  import opened History
  import opened Recovery
  import opened RecoveryProc
  import opened CoordSpec

  /** The monotonic deadline of a recovered retry: what is left of its wall-clock delay. */
  function RecoveredEntry(id: JobId, at: Millis, now: Instant, wallNow: Millis): RetryEntry {
    RetryEntry(now + if at > wallNow then (at - wallNow) * NANOS_PER_MILLI else 0, at, id)
  }

  function HeapOf(retry: RetryList, now: Instant, wallNow: Millis): multiset<RetryEntry> {
    if retry == [] then multiset{}
    else
      var (id, at) := retry[|retry| - 1];
      HeapOf(retry[..|retry| - 1], now, wallNow) + multiset{RecoveredEntry(id, at, now, wallNow)}
  }

  ghost function BootStats(st: Store, q: QueueName): QueueStats {
    QueueStats(0, |Members(st, q, Queued)|, |Members(st, q, Running)|, |Members(st, q, RetryWaiting)|,
               |Members(st, q, Completed)|, |Members(st, q, Dead)|, |Members(st, q, Cancelled)|)
  }

  /** The permits of recovered jobs are taken from the semaphore and never handed to the coordinator. */
  function BootSem(rec: RecoveredState, capacity: nat, q: QueueName): Sem
    requires Demand(rec.store, rec.queuedJobs, rec.retryJobs, q) <= capacity
  {
    var n := Demand(rec.store, rec.queuedJobs, rec.retryJobs, q);
    Sem(capacity, capacity - n, 0, n)
  }

  ghost function Boot(rec: RecoveredState, log: seq<Record>, order: seq<QueueName>, caps: map<QueueName, nat>,
                      now: Instant, wallNow: Millis): State
    requires forall q :: q in caps ==> Demand(rec.store, rec.queuedJobs, rec.retryJobs, q) <= caps[q]
  {
    State(
      rec.store, log,
      map q | q in caps :: ListOf(rec.queuedJobs, q),
      map q | q in caps :: BootStats(rec.store, q),
      order, 0, map[], map[],
      HeapOf(rec.retryJobs, now, wallNow),
      [], rec.nextEpoch, rec.tally, 0, false, None,
      map q | q in caps :: BootSem(rec, caps[q], q),
      rec.store.Keys)
  }

  lemma {:induction false} HeapMembers(retry: RetryList, now: Instant, wallNow: Millis)
    requires forall i, j :: 0 <= i < j < |retry| ==> retry[i].0 != retry[j].0
    ensures OneEntryEach(HeapOf(retry, now, wallNow))
    ensures forall e :: e in HeapOf(retry, now, wallNow) ==> Waits(retry, e.id)
    ensures forall id :: Waits(retry, id) ==> HasEntry(HeapOf(retry, now, wallNow), id)
  {
    if retry != [] {
      var init := retry[..|retry| - 1];
      var (id, at) := retry[|retry| - 1];
      HeapMembers(init, now, wallNow);
      var h, e := HeapOf(init, now, wallNow), RecoveredEntry(id, at, now, wallNow);
      assert forall x :: x in h + multiset{e} <==> x in h || x == e;
      assert !Waits(init, id);
      forall x | Waits(retry, x)
        ensures HasEntry(h + multiset{e}, x)
      {
        WaitsSnoc(retry, x);
        if x == id {
          assert e in h + multiset{e};
        } else {
          var y :| y in h && y.id == x;
          assert y in h + multiset{e};
        }
      }
      forall x | x in h + multiset{e} ensures Waits(retry, x.id) { WaitsSnoc(retry, x.id); }
    }
  }

  /** Every timer belongs to a recovered retry. It fires at once if the persisted time has passed, and
      else when what is left of the wall-clock delay has gone by. */
  ghost predicate TimerFor(x: RetryEntry, retry: RetryList, now: Instant, wallNow: Millis) {
    && (x.id, x.wallAvailableAt) in retry
    && (x.wallAvailableAt <= wallNow ==> x.availableAt == now)
    && (x.wallAvailableAt > wallNow ==> x.availableAt - now == (x.wallAvailableAt - wallNow) * 1_000_000)
  }

  lemma {:induction false} HeapTimes(retry: RetryList, now: Instant, wallNow: Millis)
    ensures forall x :: x in HeapOf(retry, now, wallNow) ==> TimerFor(x, retry, now, wallNow)
    ensures |HeapOf(retry, now, wallNow)| == |retry|
  {
    if retry != [] {
      var init, last := retry[..|retry| - 1], retry[|retry| - 1];
      HeapTimes(init, now, wallNow);
      var e := RecoveredEntry(last.0, last.1, now, wallNow);
      assert retry == init + [last] && last in retry;
      assert forall x :: x in HeapOf(retry, now, wallNow) ==> x in HeapOf(init, now, wallNow) || x == e;
    }
  }

  lemma BootRetry(rec: RecoveredState, log: seq<Record>, now: Instant, wallNow: Millis)
    requires WellFormed(log) && RecoveredFrom(rec, log)
    ensures RetryInv(rec.store, HeapOf(rec.retryJobs, now, wallNow))
  {
    RetryListDistinct(rec, log);
    HeapMembers(rec.retryJobs, now, wallNow);
    hide Replay, TrackAll, WellFormed, HeapOf, OneEntryEach, IsQueuedLists, RecoveredFrom;
    forall id ensures Waits(rec.retryJobs, id) <==> id in rec.store && rec.store[id].state.RetryWaiting? {
      RetryListExact(rec, log, id);
    }
  }

  lemma BootLog(rec: RecoveredState, log: seq<Record>)
    requires WellFormed(log) && RecoveredFrom(rec, log)
    ensures LogInv(rec.store, log, rec.nextEpoch, rec.tally)
    ensures forall id :: id in rec.store && rec.store[id].state.Queued? ==> id in NeverLeased(rec.store)
  {
    WellFormedSound(log);
    forall id | id in rec.store
      ensures DurableJob(rec.store[id]) == rec.store[id]
      ensures rec.store[id].state.Queued? ==> id in NeverLeased(rec.store)
    {
      assert IndexOk(rec.store, TrackAll(log), id);
    }
    assert DurableView(rec.store) == rec.store;
  }

  lemma BootReady(rec: RecoveredState, log: seq<Record>, ready: map<QueueName, seq<JobId>>)
    requires WellFormed(log) && RecoveredFrom(rec, log)
    requires forall q :: q in ready ==> ready[q] == ListOf(rec.queuedJobs, q)
    ensures ReadyAll(rec.store, ready)
    ensures FifoInv(rec.store, ready, TrackAll(log))
  {
    BootLog(rec, log);
    hide Replay, TrackAll, WellFormed, RecoveredFrom, LogInv;
    forall q | q in ready
      ensures ReadyInv(rec.store, ready[q], q)
      ensures Only(ready[q], NeverLeased(rec.store)) == Order(TrackAll(log), q)
    {
      QueuedListExact(rec, log, q);
      OnlyAll(ready[q], NeverLeased(rec.store));
    }
  }

  lemma BootPermits(rec: RecoveredState, log: seq<Record>, caps: map<QueueName, nat>, q: QueueName)
    requires WellFormed(log) && RecoveredFrom(rec, log) && q in caps
    requires forall id :: id in rec.store ==> !rec.store[id].state.Running?
    requires Demand(rec.store, rec.queuedJobs, rec.retryJobs, q) <= caps[q]
    ensures SemAccount(rec.store, map[], BootSem(rec, caps[q], q), q, rec.store.Keys)
  {
    DemandIsLive(rec, log, q);
    assert LiveJobs(rec.store, q) * rec.store.Keys == LiveJobs(rec.store, q);
    assert Held(map[], q) == {};
  }

  /** Validation gave every queue room for its recovered jobs: reserving their permits cannot fail. */
  lemma ReservationFits(rec: RecoveredState, caps: map<QueueName, nat>, q: QueueName)
    requires Fits(rec.store, rec.queuedJobs, rec.retryJobs, caps) && q in caps
    ensures Demand(rec.store, rec.queuedJobs, rec.retryJobs, q) <= caps[q]
  {
  }

  lemma BootQueues(st: Store, caps: map<QueueName, nat>)
    requires LiveFits(st, caps)
    ensures QueuesKnown(st, caps.Keys)
    ensures StatsInv(st, map q | q in caps :: BootStats(st, q))
  {
    forall id | id in st && !st[id].state.IsTerminal()
      ensures st[id].queue in caps
    {
      assert id in LiveJobs(st, st[id].queue);
    }
  }

  /** A coordinator started from a recovered and validated state satisfies the invariant. */
  lemma BootInv(rec: RecoveredState, log: seq<Record>, order: seq<QueueName>, caps: map<QueueName, nat>,
                now: Instant, wallNow: Millis)
    requires WellFormed(log) && RecoveredFrom(rec, log)
    requires forall id :: id in rec.store ==> !rec.store[id].state.Running?
    requires Distinct(order) && caps.Keys == Elems(order)
    requires Fits(rec.store, rec.queuedJobs, rec.retryJobs, caps)
    ensures forall q :: q in caps ==> Demand(rec.store, rec.queuedJobs, rec.retryJobs, q) <= caps[q]
    ensures Inv(Boot(rec, log, order, caps, now, wallNow))
  {
    hide LogInv, RetryInv, ReadyAll, FifoInv, Replay, TrackAll, WellFormed, RecoveredFrom, HeapOf, Fits, SemAccount,
         StatsInv, QueuesKnown, LiveFits, Demand, BootStats, BootSem, Distinct;
    forall q | q in caps ensures Demand(rec.store, rec.queuedJobs, rec.retryJobs, q) <= caps[q] {
      ReservationFits(rec, caps, q);
    }
    var s := Boot(rec, log, order, caps, now, wallNow);
    BootLog(rec, log);
    BootRetry(rec, log, now, wallNow);
    BootReady(rec, log, s.ready);
    FitsIsLiveFits(rec, log, caps);
    BootQueues(rec.store, caps);
    forall q | q in s.sems
      ensures SemAccount(s.store, s.permits, s.sems[q], q, s.base)
    {
      BootPermits(rec, log, caps, q);
    }
    assert s.ready.Keys == s.stats.Keys == s.sems.Keys == caps.Keys;
  }

  // ----- building the start state -----

  function ZeroStats(): QueueStats { QueueStats(0, 0, 0, 0, 0, 0, 0) }

  /** An empty deque and zero counters for every configured queue. */
  method NewQueues(order: seq<QueueName>)
    returns (ready: map<QueueName, seq<JobId>>, stats: map<QueueName, QueueStats>)
    ensures ready.Keys == stats.Keys == Elems(order)
    ensures forall q :: q in ready ==> ready[q] == [] && stats[q] == ZeroStats()
  {
    ready, stats := map[], map[];
    for i := 0 to |order|
      invariant ready.Keys == stats.Keys == Elems(order[..i])
      invariant forall q :: q in ready ==> ready[q] == [] && stats[q] == ZeroStats()
    {
      ElemsSnoc(order[..i + 1]);
      assert order[..i + 1][..i] == order[..i];
      ready := ready[order[i] := []];
      stats := stats[order[i] := ZeroStats()];
    }
    assert order[..|order|] == order;
  }

  /** The deques of all queues but those in `todo` are filled. */
  ghost predicate Filled(rec: RecoveredState, ready: map<QueueName, seq<JobId>>, stats: map<QueueName, QueueStats>,
                         todo: set<QueueName>)
  {
    && ready.Keys == stats.Keys
    && forall q :: q in ready ==>
         && ready[q] == (if q in todo then [] else StillQueued(rec.store, ListOf(rec.queuedJobs, q)))
         && stats[q] == ZeroStats().(queued := |ready[q]|)
  }

  lemma NothingFilled(rec: RecoveredState, ready: map<QueueName, seq<JobId>>, stats: map<QueueName, QueueStats>)
    requires ready.Keys == stats.Keys && forall q :: q in ready ==> ready[q] == [] && stats[q] == ZeroStats()
    ensures Filled(rec, ready, stats, rec.queuedJobs.Keys)
  {
    assert StillQueued(rec.store, []) == [];
  }

  lemma FilledOne(rec: RecoveredState, ready: map<QueueName, seq<JobId>>, stats: map<QueueName, QueueStats>,
                  todo: set<QueueName>, q: QueueName)
    requires Filled(rec, ready, stats, todo) && q in todo && q in rec.queuedJobs
    ensures q !in ready ==> Filled(rec, ready, stats, todo - {q})
    ensures q in ready ==>
              var ids := StillQueued(rec.store, rec.queuedJobs[q]);
              Filled(rec, ready[q := ready[q] + ids],
                     stats[q := stats[q].(queued := stats[q].queued + |ids|)], todo - {q})
  {
    hide StillQueued;
    assert q in ready ==> ready[q] == [];
  }

  /** Fill the ready deques with the recovered queued jobs, in their order. */
  method FillReady(rec: RecoveredState, ready0: map<QueueName, seq<JobId>>, stats0: map<QueueName, QueueStats>)
    returns (ready: map<QueueName, seq<JobId>>, stats: map<QueueName, QueueStats>)
    requires ready0.Keys == stats0.Keys
    requires forall q :: q in ready0 ==> ready0[q] == [] && stats0[q] == ZeroStats()
    ensures ready.Keys == stats.Keys == ready0.Keys
    ensures forall q :: q in ready ==> ready[q] == StillQueued(rec.store, ListOf(rec.queuedJobs, q))
                                       && stats[q] == ZeroStats().(queued := |ready[q]|)
  {
    hide StillQueued;
    ready, stats := ready0, stats0;
    NothingFilled(rec, ready, stats);
    ready, stats := FillAll(rec, ready, stats);
  }

  method FillAll(rec: RecoveredState, ready0: map<QueueName, seq<JobId>>, stats0: map<QueueName, QueueStats>)
    returns (ready: map<QueueName, seq<JobId>>, stats: map<QueueName, QueueStats>)
    requires ready0.Keys == stats0.Keys && Filled(rec, ready0, stats0, rec.queuedJobs.Keys)
    ensures ready.Keys == stats.Keys == ready0.Keys && Filled(rec, ready, stats, {})
  {
    hide StillQueued, Filled;
    ready, stats := ready0, stats0;
    var todo := rec.queuedJobs.Keys;
    while todo != {}
      invariant todo <= rec.queuedJobs.Keys && ready.Keys == stats.Keys == ready0.Keys
      invariant Filled(rec, ready, stats, todo)
    {
      var q :| q in todo;
      FilledOne(rec, ready, stats, todo, q);
      todo := todo - {q};
      if q in ready {
        var ids := FilterQueued(rec.store, rec.queuedJobs[q]);
        ready := ready[q := ready[q] + ids];
        stats := stats[q := stats[q].(queued := stats[q].queued + |ids|)];
      }
    }
  }

  lemma HeapSnoc(list: RetryList, last: (JobId, Millis), now: Instant, wallNow: Millis)
    ensures HeapOf(list + [last], now, wallNow)
         == HeapOf(list, now, wallNow) + multiset{RecoveredEntry(last.0, last.1, now, wallNow)}
  {
    assert (list + [last])[..|list|] == list;
  }

  ghost predicate CountsRetries(stats: map<QueueName, QueueStats>, stats0: map<QueueName, QueueStats>, st: Store,
                                list: RetryList) {
    && stats.Keys == stats0.Keys
    && forall q :: q in stats ==> stats[q] == stats0[q].(retrying := RetryDemand(st, list, q))
  }

  lemma RetryCounted(stats: map<QueueName, QueueStats>, stats0: map<QueueName, QueueStats>, st: Store,
                     list: RetryList,
                     last: (JobId, Millis))
    requires CountsRetries(stats, stats0, st, list) && last.0 in st
    ensures var q := st[last.0].queue;
            var stats' := if q in stats then stats[q := stats[q].(retrying := stats[q].retrying + 1)] else stats;
            CountsRetries(stats', stats0, st, list + [last])
  {
    hide RetryDemand;
    var all := list + [last];
    RetryDemandStep(st, all, |list|);
    assert all[..|list|] == list && all[..|all|] == all;
  }

  /** Push a timer for every recovered retry whose job still waits. */
  method FillHeap(rec: RecoveredState, now: Instant, wallNow: Millis, stats0: map<QueueName, QueueStats>)
    returns (heap: multiset<RetryEntry>, stats: map<QueueName, QueueStats>)
    requires forall q :: q in stats0 ==> stats0[q].retrying == 0
    ensures heap == HeapOf(WaitingFor(rec.store, rec.retryJobs), now, wallNow)
    ensures CountsRetries(stats, stats0, rec.store, WaitingFor(rec.store, rec.retryJobs))
  {
    assert HeapOf([], now, wallNow) == multiset{} && CountsRetries(stats0, stats0, rec.store, []);
    assert WaitingFor(rec.store, []) == [];
    hide HeapOf, RecoveredEntry, CountsRetries, WaitingFor, StillWaits;
    heap, stats := multiset{}, stats0;
    var list := rec.retryJobs;
    ghost var done: RetryList := [];
    for i := 0 to |list|
      invariant done == WaitingFor(rec.store, list[..i])
      invariant heap == HeapOf(done, now, wallNow) && CountsRetries(stats, stats0, rec.store, done)
    {
      var (id, at) := list[i];
      assert list[..i + 1] == list[..i] + [list[i]];
      WaitingStep(rec.store, list[..i], list[i]);
      if id in rec.store && rec.store[id].state.RetryWaiting? {
        HeapSnoc(done, list[i], now, wallNow);
        RetryCounted(stats, stats0, rec.store, done, list[i]);
        done := done + [list[i]];
        heap := heap + multiset{RecoveredEntry(id, at, now, wallNow)};
        var q := rec.store[id].queue;
        if q in stats {
          stats := stats[q := stats[q].(retrying := stats[q].retrying + 1)];
        }
      }
    }
    assert list[..|list|] == list;
  }

  lemma MembersAmong(st: Store, done: set<JobId>, id: JobId, q: QueueName, s: JobState)
    requires id in st && id !in done
    ensures |Members(st, q, s) * (done + {id})|
         == |Members(st, q, s) * done| + if st[id].queue == q && st[id].state == s then 1 else 0
  {
    if st[id].queue == q && st[id].state == s {
      assert Members(st, q, s) * (done + {id}) == Members(st, q, s) * done + {id};
    } else {
      assert Members(st, q, s) * (done + {id}) == Members(st, q, s) * done;
    }
  }

  ghost predicate TerminalCounts(st: Store, done: set<JobId>, q: QueueName, before: QueueStats, now: QueueStats) {
    now == before.(completed := |Members(st, q, Completed) * done|,
                   dead := |Members(st, q, Dead) * done|,
                   cancelled := |Members(st, q, Cancelled) * done|)
  }

  function CountJob(n: QueueStats, job: Job): QueueStats {
    match job.state
    case Completed => n.(completed := n.completed + 1)
    case Dead => n.(dead := n.dead + 1)
    case Cancelled => n.(cancelled := n.cancelled + 1)
    case _ => n
  }

  lemma TerminalStep(st: Store, done: set<JobId>, id: JobId, q: QueueName, before: QueueStats, now: QueueStats)
    requires id in st && id !in done && TerminalCounts(st, done, q, before, now)
    ensures TerminalCounts(st, done + {id}, q, before, if st[id].queue == q then CountJob(now, st[id]) else now)
  {
    MembersAmong(st, done, id, q, Completed);
    MembersAmong(st, done, id, q, Dead);
    MembersAmong(st, done, id, q, Cancelled);
  }

  lemma TerminalNone(st: Store, q: QueueName, n: QueueStats)
    requires n.completed == n.dead == n.cancelled == 0
    ensures TerminalCounts(st, {}, q, n, n)
  {
    assert forall s :: Members(st, q, s) * {} == {};
  }

  /** Count the terminal jobs of the configured queues. */
  method CountTerminal(st: Store, stats0: map<QueueName, QueueStats>) returns (stats: map<QueueName, QueueStats>)
    requires forall q :: q in stats0 ==> stats0[q].completed == stats0[q].dead == stats0[q].cancelled == 0
    ensures stats.Keys == stats0.Keys
    ensures forall q :: q in stats ==> TerminalCounts(st, st.Keys, q, stats0[q], stats[q])
  {
    hide TerminalCounts, CountJob;
    stats := stats0;
    var todo := st.Keys;
    ghost var done: set<JobId> := {};
    forall q | q in stats ensures TerminalCounts(st, {}, q, stats0[q], stats[q]) { TerminalNone(st, q, stats[q]); }
    while todo != {}
      invariant todo <= st.Keys && done == st.Keys - todo && stats.Keys == stats0.Keys
      invariant forall q :: q in stats ==> TerminalCounts(st, done, q, stats0[q], stats[q])
    {
      var id :| id in todo;
      todo := todo - {id};
      forall q | q in stats
        ensures TerminalCounts(st, done + {id}, q, stats0[q],
                        if st[id].queue == q then CountJob(stats[q], st[id]) else stats[q])
      {
        TerminalStep(st, done, id, q, stats0[q], stats[q]);
      }
      if st[id].queue in stats {
        stats := stats[st[id].queue := CountJob(stats[st[id].queue], st[id])];
      }
      done := done + {id};
    }
    assert done == st.Keys;
  }

  /** The three passes together count every job of every configured queue. */
  lemma BootCounts(rec: RecoveredState, log: seq<Record>, q: QueueName, stats: QueueStats)
    requires WellFormed(log) && RecoveredFrom(rec, log)
    requires forall id :: id in rec.store ==> !rec.store[id].state.Running?
    requires TerminalCounts(rec.store, rec.store.Keys, q,
                            ZeroStats().(queued := |ListOf(rec.queuedJobs, q)|,
                                         retrying := RetryDemand(rec.store, rec.retryJobs, q)),
                            stats)
    ensures stats == BootStats(rec.store, q)
  {
    hide Replay, TrackAll, WellFormed, RecoveredFrom, IsQueuedLists, IsRetryList, RetryDemand, RetryIn, Distinct;
    var st := rec.store;
    QueuedListExact(rec, log, q);
    DistinctCard(ListOf(rec.queuedJobs, q));
    assert Members(st, q, Queued) == Elems(ListOf(rec.queuedJobs, q));
    RetryListDistinct(rec, log);
    RetryDemandCounts(st, rec.retryJobs, q);
    forall id ensures id in RetryIn(st, rec.retryJobs, q) <==> id in Members(st, q, RetryWaiting) {
      RetryListExact(rec, log, id);
    }
    assert Members(st, q, RetryWaiting) == RetryIn(st, rec.retryJobs, q);
    assert Members(st, q, Running) == {};
    assert forall s :: Members(st, q, s) * st.Keys == Members(st, q, s);
  }

  // ----- the state as it is built, from any recovered lists -----

  ghost function StartStats(rec: RecoveredState, q: QueueName): QueueStats {
    QueueStats(0, |StillQueued(rec.store, ListOf(rec.queuedJobs, q))|, 0,
               RetryDemand(rec.store, WaitingFor(rec.store, rec.retryJobs), q),
               |Members(rec.store, q, Completed)|, |Members(rec.store, q, Dead)|, |Members(rec.store, q, Cancelled)|)
  }

  /** Entries whose job has another state are skipped; running jobs are not counted. */
  ghost function StartState(rec: RecoveredState, log: seq<Record>, order: seq<QueueName>, sems: map<QueueName, Sem>,
                            now: Instant, wallNow: Millis): State
  {
    State(
      rec.store, log,
      map q | q in Elems(order) :: StillQueued(rec.store, ListOf(rec.queuedJobs, q)),
      map q | q in Elems(order) :: StartStats(rec, q),
      order, 0, map[], map[],
      HeapOf(WaitingFor(rec.store, rec.retryJobs), now, wallNow),
      [], rec.nextEpoch, rec.tally, 0, false, None, sems, rec.store.Keys)
  }

  /** After the first pass only the queued counters have moved, after the second the retrying ones too. */
  lemma NoTerminalYet(stats0: map<QueueName, QueueStats>, stats: map<QueueName, QueueStats>, st: Store, list: RetryList)
    requires CountsRetries(stats, stats0, st, list)
    requires forall q :: q in stats0 ==> exists n: nat :: stats0[q] == ZeroStats().(queued := n)
    ensures stats.Keys == stats0.Keys
    ensures forall q :: q in stats ==> stats[q].completed == stats[q].dead == stats[q].cancelled == 0
  {
    hide RetryDemand;
  }

  /** The three passes together count what the start state says. */
  lemma StartCounts(rec: RecoveredState, q: QueueName, stats0: QueueStats, stats1: QueueStats, stats: QueueStats)
    requires stats0 == ZeroStats().(queued := |StillQueued(rec.store, ListOf(rec.queuedJobs, q))|)
    requires stats1 == stats0.(retrying := RetryDemand(rec.store, WaitingFor(rec.store, rec.retryJobs), q))
    requires TerminalCounts(rec.store, rec.store.Keys, q, stats1, stats)
    ensures stats == StartStats(rec, q)
  {
    hide StillQueued, RetryDemand, WaitingFor;
    assert forall s :: Members(rec.store, q, s) * rec.store.Keys == Members(rec.store, q, s);
  }

  lemma AllStartCounts(rec: RecoveredState, ready: map<QueueName, seq<JobId>>, stats0: map<QueueName, QueueStats>,
                       stats1: map<QueueName, QueueStats>, stats: map<QueueName, QueueStats>)
    requires ready.Keys == stats0.Keys == stats.Keys
    requires forall q :: q in ready ==> ready[q] == StillQueued(rec.store, ListOf(rec.queuedJobs, q))
                                        && stats0[q] == ZeroStats().(queued := |ready[q]|)
    requires CountsRetries(stats1, stats0, rec.store, WaitingFor(rec.store, rec.retryJobs))
    requires stats1.Keys == stats0.Keys
    requires forall q :: q in stats ==> TerminalCounts(rec.store, rec.store.Keys, q, stats1[q], stats[q])
    ensures forall q :: q in stats ==> stats[q] == StartStats(rec, q)
  {
    hide StillQueued, RetryDemand, WaitingFor, StartStats, TerminalCounts, ZeroStats;
    forall q | q in stats ensures stats[q] == StartStats(rec, q) {
      StartCounts(rec, q, stats0[q], stats1[q], stats[q]);
    }
  }

  lemma RetryListStates(rec: RecoveredState, log: seq<Record>)
    requires RecoveredFrom(rec, log)
    ensures forall i :: 0 <= i < |rec.retryJobs| ==>
              rec.retryJobs[i].0 in rec.store && rec.store[rec.retryJobs[i].0].state.RetryWaiting?
  {
  }

  lemma ListIsQueued(rec: RecoveredState, log: seq<Record>, q: QueueName)
    requires WellFormed(log) && RecoveredFrom(rec, log)
    ensures StillQueued(rec.store, ListOf(rec.queuedJobs, q)) == ListOf(rec.queuedJobs, q)
  {
    hide WellFormed, RecoveredFrom, StillQueued, Distinct;
    QueuedListExact(rec, log, q);
    StillQueuedAll(rec.store, ListOf(rec.queuedJobs, q));
  }

  lemma StartStatsAreTrue(rec: RecoveredState, log: seq<Record>, q: QueueName)
    requires WellFormed(log) && RecoveredFrom(rec, log)
    requires forall id :: id in rec.store ==> !rec.store[id].state.Running?
    ensures StartStats(rec, q) == BootStats(rec.store, q)
  {
    hide WellFormed, RecoveredFrom, BootStats, StillQueued, RetryDemand, WaitingFor;
    ListIsQueued(rec, log, q);
    RetryListStates(rec, log);
    AllWait(rec.store, rec.retryJobs);
    assert forall s :: Members(rec.store, q, s) * rec.store.Keys == Members(rec.store, q, s);
    BootCounts(rec, log, q, StartStats(rec, q));
  }

  /** Started from what recovery makes of a well-formed log, nothing is skipped and every counter is
      true: the state as it is built is the start state that satisfies the invariant. */
  lemma StartIsBoot(rec: RecoveredState, log: seq<Record>, order: seq<QueueName>, caps: map<QueueName, nat>,
                    sems: map<QueueName, Sem>, now: Instant, wallNow: Millis)
    requires WellFormed(log) && RecoveredFrom(rec, log)
    requires forall id :: id in rec.store ==> !rec.store[id].state.Running?
    requires Distinct(order) && caps.Keys == Elems(order)
    requires Fits(rec.store, rec.queuedJobs, rec.retryJobs, caps)
    requires forall q :: q in caps ==> Demand(rec.store, rec.queuedJobs, rec.retryJobs, q) <= caps[q]
    requires sems == map q | q in caps :: BootSem(rec, caps[q], q)
    ensures StartState(rec, log, order, sems, now, wallNow) == Boot(rec, log, order, caps, now, wallNow)
    ensures Inv(StartState(rec, log, order, sems, now, wallNow))
  {
    hide Inv, Fits, WellFormed, Distinct, Demand, HeapOf, BootStats, BootSem, RecoveredFrom, StartStats, StillQueued,
         WaitingFor;
    BootInv(rec, log, order, caps, now, wallNow);
    RetryListStates(rec, log);
    AllWait(rec.store, rec.retryJobs);
    forall q | q in caps
      ensures StillQueued(rec.store, ListOf(rec.queuedJobs, q)) == ListOf(rec.queuedJobs, q)
      ensures StartStats(rec, q) == BootStats(rec.store, q)
    {
      ListIsQueued(rec, log, q);
      StartStatsAreTrue(rec, log, q);
    }
    var s, b := StartState(rec, log, order, sems, now, wallNow), Boot(rec, log, order, caps, now, wallNow);
    assert s.ready == b.ready && s.stats == b.stats;
  }

  /** From the log to the timer: after a start, every timer of the heap was set by the last record of
      its job, a scheduled retry, and fires at the time persisted there. */
  lemma StartTimers(rec: RecoveredState, log: seq<Record>, order: seq<QueueName>, sems: map<QueueName, Sem>,
                    now: Instant, wallNow: Millis, x: RetryEntry)
    requires WellFormed(log) && RecoveredFrom(rec, log)
    requires x in StartState(rec, log, order, sems, now, wallNow).retry
    ensures var h := Project(log, x.id);
            && h != [] && h[|h| - 1].JobRetryScheduled? && h[|h| - 1].availableAt == x.wallAvailableAt
            && (x.wallAvailableAt <= wallNow ==> x.availableAt == now)
            && (x.wallAvailableAt > wallNow ==> x.availableAt - now == (x.wallAvailableAt - wallNow) * 1_000_000)
  {
    hide WellFormed, RecoveredFrom, HeapOf, WaitingFor, Project;
    HeapTimes(WaitingFor(rec.store, rec.retryJobs), now, wallNow);
    WaitingMembers(rec.store, rec.retryJobs);
    var i :| 0 <= i < |rec.retryJobs| && rec.retryJobs[i] == (x.id, x.wallAvailableAt);
    RetryTimesPersisted(rec, log, i);
  }
}
