/** How each part of the coordinator's invariant survives the change of one job. */
module CoordLemmas {
  import opened Types
  import opened Seqs
  import opened JobStore
  import opened Tracker
  import opened History
  import opened Recovery
  import opened CoordSpec

  // ----- the log -----

  /** What a well-formed log says about a job of the live store. */
  lemma LiveJob(s: State, id: JobId)
    requires LogInv(s.store, s.log, s.nextEpoch, s.tally)
    ensures IndexOk(DurableView(s.store), TrackAll(s.log), id)
    ensures id in s.store ==>
              && JobOk(id, DurableJob(s.store[id]))
              && (s.store[id].state.Running? <==> id in TrackAll(s.log).running)
    ensures id !in s.store ==> id !in TrackAll(s.log).running
  {
    WellFormedSound(s.log);
    assert IndexOk(Replay(s.log), TrackAll(s.log), id);
  }

  /** Appending a legal record that the live store accepts keeps the log invariant. */
  lemma LogStep(store: Store, log: seq<Record>, nextEpoch: nat, tally: Tally, r: Record)
    requires LogInv(store, log, nextEpoch, tally)
    requires Legal(Replay(log), TrackAll(log), r) && Apply(store, r).Applied?
    ensures LogInv(Apply(store, r).store, log + [r],
                   if r.JobLeased? then r.epoch + 1 else nextEpoch, CountRecord(tally, r))
    ensures TrackAll(log + [r]) == Track(TrackAll(log), r)
  {
    WellFormedSnoc(log, r);
    ReplaySnoc(log, r);
    TrackSnoc(log, r);
    TallySnoc(log, r);
    StrictRefinesRelaxed(store, r);
  }

  // ----- counters -----

  lemma MembersAfter(store: Store, id: JobId, job: Job, q: QueueName, st: JobState)
    ensures Members(store[id := job], q, st)
         == if job.queue == q && job.state == st then Members(store, q, st) + {id} else Members(store, q, st) - {id}
  {
  }

  lemma MembersMove(store: Store, id: JobId, job: Job, q: QueueName, st: JobState)
    ensures |Members(store[id := job], q, st)|
            + (if id in store && store[id].queue == q && store[id].state == st then 1 else 0)
         == |Members(store, q, st)| + (if job.queue == q && job.state == st then 1 else 0)
  {
    MembersAfter(store, id, job, q, st);
    assert id in Members(store, q, st) <==> id in store && store[id].queue == q && store[id].state == st;
  }

  /** Moving one job between states is one decrement and one increment, and the
      decrement never saturates. */
  lemma StatsMove(store: Store, stats: map<QueueName, QueueStats>, id: JobId, job: Job)
    requires StatsInv(store, stats)
    requires id in store && job.queue == store[id].queue && job.state != store[id].state
    ensures StatsInv(store[id := job], ShiftStats(stats, job.queue, store[id].state, job.state))
    ensures job.queue in stats ==> stats[job.queue].Of(store[id].state) > 0
  {
    var stats' := ShiftStats(stats, job.queue, store[id].state, job.state);
    assert id in Members(store, job.queue, store[id].state);
    forall q, st | q in stats'
      ensures stats'[q].Of(st) == |Members(store[id := job], q, st)|
    {
      MembersMove(store, id, job, q, st);
      assert stats[q].Of(st) == |Members(store, q, st)|;
      assert stats[q].Of(store[id].state) == |Members(store, q, store[id].state)|;
    }
  }

  lemma StatsSubmit(store: Store, stats: map<QueueName, QueueStats>, id: JobId, job: Job)
    requires StatsInv(store, stats) && id !in store && job.state.Queued? && job.queue in stats
    ensures var before := stats[job.queue];
            StatsInv(store[id := job],
                     stats[job.queue := before.(submitted := before.submitted + 1, queued := before.queued + 1)])
  {
    var before := stats[job.queue];
    var stats' := stats[job.queue := before.(submitted := before.submitted + 1, queued := before.queued + 1)];
    forall q, st | q in stats'
      ensures stats'[q].Of(st) == |Members(store[id := job], q, st)|
    {
      MembersMove(store, id, job, q, st);
      assert stats[q].Of(st) == |Members(store, q, st)|;
    }
  }

  // ----- permits -----

  lemma LiveJobsMove(store: Store, id: JobId, job: Job, q: QueueName)
    requires id in store ==> job.queue == store[id].queue
    ensures LiveJobs(store[id := job], q)
         == if job.queue == q && !job.state.IsTerminal() then LiveJobs(store, q) + {id} else LiveJobs(store, q) - {id}
  {
  }

  /** A live job that stays live keeps its permit. */
  lemma PermitsStay(store: Store, permits: map<JobId, QueueName>, sems: map<QueueName, Sem>, base: set<JobId>,
                    id: JobId, job: Job)
    requires PermitInv(store, permits, base) && SemInv(store, permits, sems, base)
    requires id in store && job.queue == store[id].queue && !job.state.IsTerminal() && !store[id].state.IsTerminal()
    ensures PermitInv(store[id := job], permits, base) && SemInv(store[id := job], permits, sems, base)
  {
    forall q ensures LiveJobs(store[id := job], q) == LiveJobs(store, q) {
      LiveJobsMove(store, id, job, q);
    }
  }

  lemma HeldWithout(permits: map<JobId, QueueName>, id: JobId, q: QueueName)
    ensures Held(permits - {id}, q) == Held(permits, q) - {id}
  {
  }

  lemma HeldWith(permits: map<JobId, QueueName>, id: JobId, q0: QueueName, q: QueueName)
    requires id !in permits
    ensures Held(permits[id := q0], q) == if q == q0 then Held(permits, q) + {id} else Held(permits, q)
  {
  }

  lemma SemFreed(s: State, id: JobId, q: QueueName)
    requires q in s.sems && SemAccount(s.store, s.permits, s.sems[q], q, s.base)
    requires id in s.permits ==> s.permits[id] in s.sems
    ensures var sem := ReleasedSems(s.permits, s.sems, id)[q];
            sem.available + sem.inFlight + |Held(s.permits - {id}, q)| + sem.reserved == sem.capacity
            && sem.reserved == s.sems[q].reserved
  {
    HeldWithout(s.permits, id, q);
    assert id in Held(s.permits, q) <==> id in s.permits && s.permits[id] == q;
  }

  lemma PermitInvFreed(store: Store, permits: map<JobId, QueueName>, base: set<JobId>, job: Job)
    requires PermitInv(store, permits, base)
    requires job.id in store && job.queue == store[job.id].queue && job.state.IsTerminal()
    ensures PermitInv(store[job.id := job], permits - {job.id}, base)
    ensures job.id in permits ==> permits[job.id] == job.queue
  {
  }

  /** A job that ends gives its permit back, if it has one. */
  lemma PermitsFreed(s: State, job: Job)
    requires PermitInv(s.store, s.permits, s.base) && SemInv(s.store, s.permits, s.sems, s.base)
    requires job.id in s.store && job.queue == s.store[job.id].queue && job.queue in s.sems && job.state.IsTerminal()
    ensures PermitInv(s.store[job.id := job], s.permits - {job.id}, s.base)
    ensures SemInv(s.store[job.id := job], s.permits - {job.id}, ReleasedSems(s.permits, s.sems, job.id), s.base)
    ensures ReleasedSems(s.permits, s.sems, job.id).Keys == s.sems.Keys
  {
    PermitInvFreed(s.store, s.permits, s.base, job);
    hide PermitInv, LiveJobs, Held;
    forall q | q in s.sems
      ensures SemAccount(s.store[job.id := job], s.permits - {job.id},
                         ReleasedSems(s.permits, s.sems, job.id)[q], q, s.base)
    {
      assert SemAccount(s.store, s.permits, s.sems[q], q, s.base);
      SemFreed(s, job.id, q);
      LiveJobsMove(s.store, job.id, job, q);
      SubsetCard(LiveJobs(s.store[job.id := job], q) * s.base, LiveJobs(s.store, q) * s.base);
    }
  }

  lemma {:induction false} SubsetCard(a: set<JobId>, b: set<JobId>)
    requires a <= b
    ensures |a| <= |b|
  {
    assert b == a + (b - a);
  }

  lemma SemSubmit(s: State, job: Job, q: QueueName)
    requires q in s.sems && SemAccount(s.store, s.permits, s.sems[q], q, s.base)
    requires job.id !in s.permits && job.id !in s.base && job.id !in s.store
    requires q == job.queue ==> s.sems[q].inFlight > 0
    ensures var sem := if q == job.queue then s.sems[q].(inFlight := s.sems[q].inFlight - 1) else s.sems[q];
            SemAccount(s.store[job.id := job], s.permits[job.id := job.queue], sem, q, s.base)
  {
    HeldWith(s.permits, job.id, job.queue, q);
    LiveJobsMove(s.store, job.id, job, q);
    assert LiveJobs(s.store[job.id := job], q) * s.base == LiveJobs(s.store, q) * s.base;
  }

  lemma PermitInvSubmit(store: Store, permits: map<JobId, QueueName>, base: set<JobId>, job: Job)
    requires PermitInv(store, permits, base) && job.id !in store && job.state.Queued?
    ensures PermitInv(store[job.id := job], permits[job.id := job.queue], base)
  {
  }

  lemma SemsSubmit(s: State, job: Job)
    requires SemInv(s.store, s.permits, s.sems, s.base)
    requires job.id !in s.permits && job.id !in s.base && job.id !in s.store
    requires job.queue in s.sems && s.sems[job.queue].inFlight > 0
    ensures var sem := s.sems[job.queue];
            SemInv(s.store[job.id := job], s.permits[job.id := job.queue],
                   s.sems[job.queue := sem.(inFlight := sem.inFlight - 1)], s.base)
  {
    var sems' := s.sems[job.queue := s.sems[job.queue].(inFlight := s.sems[job.queue].inFlight - 1)];
    forall q | q in sems'
      ensures SemAccount(s.store[job.id := job], s.permits[job.id := job.queue], sems'[q], q, s.base)
    {
      SemSubmit(s, job, q);
    }
  }

  // ----- the retry heap -----

  lemma RetryStays(store: Store, retry: multiset<RetryEntry>, id: JobId, job: Job)
    requires RetryInv(store, retry)
    requires !job.state.RetryWaiting?
    requires id in store ==> job.state.IsTerminal() || (!store[id].state.RetryWaiting? && !store[id].state.IsTerminal())
    ensures RetryInv(store[id := job], retry)
  {
  }

  lemma HasEntryMore(retry: multiset<RetryEntry>, retry': multiset<RetryEntry>, id: JobId)
    requires HasEntry(retry, id)
    requires forall e :: e in retry && e.id == id ==> e in retry'
    ensures HasEntry(retry', id)
  {
    var e :| e in retry && e.id == id;
    assert e in retry';
  }

  lemma RetryPush(store: Store, retry: multiset<RetryEntry>, e: RetryEntry, job: Job)
    requires RetryInv(store, retry)
    requires e.id in store && store[e.id].state.Running? && job.state.RetryWaiting?
    ensures RetryInv(store[e.id := job], retry + multiset{e})
  {
    var retry' := retry + multiset{e};
    assert forall x :: x in retry' <==> x in retry || x == e;
    assert forall x :: x in retry ==> x.id != e.id;
    assert OneEntryEach(retry');
    forall id | id in store[e.id := job] && store[e.id := job][id].state.RetryWaiting?
      ensures HasEntry(retry', id)
    {
      if id == e.id {
        assert e in retry';
      } else {
        HasEntryMore(retry, retry', id);
      }
    }
  }

  lemma RetryPop(store: Store, retry: multiset<RetryEntry>, e: RetryEntry, job: Job)
    requires RetryInv(store, retry) && e in retry
    requires if store[e.id].state.RetryWaiting? then job.state.Queued? else job == store[e.id]
    ensures RetryInv(store[e.id := job], retry - multiset{e})
  {
    var retry' := retry - multiset{e};
    assert forall x :: x in retry' <==> x in retry && x != e;
    assert OneEntryEach(retry');
    forall x | x in retry'
      ensures EntryOwned(store[e.id := job], x.id)
    {
      assert EntryOwned(store, x.id) && x.id != e.id;
    }
    forall id | id in store[e.id := job] && store[e.id := job][id].state.RetryWaiting?
      ensures HasEntry(retry', id)
    {
      HasEntryMore(retry, retry', id);
    }
  }

  // ----- ready deques and first-come-first-served -----

  lemma ReadyStays(store: Store, ready: map<QueueName, seq<JobId>>, id: JobId, job: Job)
    requires ReadyAll(store, ready)
    requires id in store && !store[id].state.Queued? && !job.state.Queued?
    ensures ReadyAll(store[id := job], ready)
  {
    forall q | q in ready ensures ReadyInv(store[id := job], ready[q], q) {
      assert ReadyInv(store, ready[q], q);
    }
  }

  lemma ReadyPush(store: Store, ready: map<QueueName, seq<JobId>>, id: JobId, job: Job)
    requires ReadyAll(store, ready)
    requires id in store ==> !store[id].state.Queued?
    requires job.state.Queued? && job.queue in ready
    ensures ReadyAll(store[id := job], ready[job.queue := ready[job.queue] + [id]])
  {
    var ready' := ready[job.queue := ready[job.queue] + [id]];
    forall q | q in ready' ensures ReadyInv(store[id := job], ready'[q], q) {
      assert ReadyInv(store, ready[q], q);
    }
  }

  lemma ReadyDrop(store: Store, ready: map<QueueName, seq<JobId>>, id: JobId, job: Job)
    requires ReadyAll(store, ready)
    requires id in store && job.queue == store[id].queue && !job.state.Queued? && job.queue in ready
    ensures ReadyAll(store[id := job], ready[job.queue := Retain(ready[job.queue], id)])
  {
    var ready' := ready[job.queue := Retain(ready[job.queue], id)];
    forall q | q in ready' ensures ReadyInv(store[id := job], ready'[q], q) {
      assert ReadyInv(store, ready[q], q);
      RetainMembers(ready[q], id);
    }
  }

  lemma RetainHead(s: seq<JobId>)
    requires Distinct(s) && s != []
    ensures Retain(s, s[0]) == s[1..]
  {
    RetainMembers(s[1..], s[0]);
  }

  /** Dropping a queued job from its deque mirrors what the tracker does for the record. */
  lemma FifoDropOne(store: Store, list: seq<JobId>, t: Tracker, r: Record, job: Job, q: QueueName)
    requires ReadyInv(store, list, q) && Only(list, NeverLeased(store)) == Order(t, q)
    requires IndexOk(DurableView(store), t, r.id) && !r.JobSubmitted? && !r.JobRetryScheduled?
    requires r.id in store && store[r.id].state.Queued? && job.queue == store[r.id].queue
    ensures Only(Retain(list, r.id), NeverLeased(store[r.id := job])) == Order(Track(t, r), q)
  {
    var before, after := NeverLeased(store), NeverLeased(store[r.id := job]);
    RetainMembers(list, r.id);
    OrderRetained(store, list, t, r, q);
    hide Retain, Only, Track, IndexOk, Distinct;
    RetainOnly(list, before, r.id);
    OnlyAgree(Retain(list, r.id), before, after);
  }

  lemma OrderRetained(store: Store, list: seq<JobId>, t: Tracker, r: Record, q: QueueName)
    requires ReadyInv(store, list, q) && Only(list, NeverLeased(store)) == Order(t, q)
    requires IndexOk(DurableView(store), t, r.id) && !r.JobSubmitted? && !r.JobRetryScheduled?
    requires r.id in store
    ensures Order(Track(t, r), q) == Retain(Order(t, q), r.id)
  {
    assert t.submitted[r.id].0 == store[r.id].queue;
    if q != store[r.id].queue {
      OnlyMembers(list, NeverLeased(store));
      RetainMembers(Order(t, q), r.id);
    }
  }

  lemma FifoDrop(store: Store, ready: map<QueueName, seq<JobId>>, t: Tracker, r: Record, job: Job)
    requires ReadyAll(store, ready) && FifoInv(store, ready, t)
    requires IndexOk(DurableView(store), t, r.id) && !r.JobSubmitted? && !r.JobRetryScheduled?
    requires r.id in store && store[r.id].state.Queued? && job.queue == store[r.id].queue && job.queue in ready
    ensures FifoInv(store[r.id := job], ready[job.queue := Retain(ready[job.queue], r.id)], Track(t, r))
  {
    var ready' := ready[job.queue := Retain(ready[job.queue], r.id)];
    forall q | q in ready'
      ensures Only(ready'[q], NeverLeased(store[r.id := job])) == Order(Track(t, r), q)
    {
      assert ReadyInv(store, ready[q], q);
      FifoDropOne(store, ready[q], t, r, job, q);
      RetainMembers(ready[q], r.id);
    }
  }

  /** A record for a job that is not queued leaves the orders alone. */
  lemma FifoStays(store: Store, ready: map<QueueName, seq<JobId>>, t: Tracker, r: Record, job: Job)
    requires ReadyAll(store, ready) && FifoInv(store, ready, t)
    requires !r.JobSubmitted? && r.id in store && !store[r.id].state.Queued?
    ensures FifoInv(store[r.id := job], ready, Track(t, r))
  {
    var id, store' := r.id, store[r.id := job];
    forall q | q in ready
      ensures Only(ready[q], NeverLeased(store')) == Order(Track(t, r), q)
    {
      assert ReadyInv(store, ready[q], q);
      OnlyAgree(ready[q], NeverLeased(store), NeverLeased(store'));
      OnlyMembers(ready[q], NeverLeased(store));
      RetainMembers(Order(t, q), id);
    }
  }

  /** A job that has run before joins the deque behind the never-leased ones' view. */
  lemma FifoRequeue(store: Store, ready: map<QueueName, seq<JobId>>, t: Tracker, id: JobId, job: Job)
    requires FifoInv(store, ready, t)
    requires id in store && job.attempts == store[id].attempts > 0 && job.queue in ready
    ensures FifoInv(store[id := job], ready[job.queue := ready[job.queue] + [id]], t)
  {
    assert NeverLeased(store[id := job]) == NeverLeased(store);
    OnlyConcat(ready[job.queue], [id], NeverLeased(store));
  }

  lemma FifoSubmit(store: Store, ready: map<QueueName, seq<JobId>>, t: Tracker, r: Record)
    requires ReadyAll(store, ready) && FifoInv(store, ready, t)
    requires r.JobSubmitted? && r.id !in store && r.queue in ready
    ensures FifoInv(store[r.id := NewJob(r.id, r.queue, r.spec, r.createdAt)],
                    ready[r.queue := ready[r.queue] + [r.id]], Track(t, r))
  {
    var store' := store[r.id := NewJob(r.id, r.queue, r.spec, r.createdAt)];
    var before, after := NeverLeased(store), NeverLeased(store');
    var ready' := ready[r.queue := ready[r.queue] + [r.id]];
    forall q | q in ready'
      ensures Only(ready'[q], after) == Order(Track(t, r), q)
    {
      assert ReadyInv(store, ready[q], q);
      OnlyAgree(ready[q], before, after);
      OnlyConcat(ready[q], [r.id], after);
      assert Only([r.id], after) == [r.id];
    }
  }

  // ----- leases -----

  /** A closing or cancelling record takes its job out of the running ones. */
  lemma LeaseGone(leases: map<JobId, Lease>, t: Tracker, r: Record)
    requires LeaseInv(leases, t) && (r.ClosesLease() || r.JobCancelled?)
    ensures LeaseInv(leases - {r.id}, Track(t, r))
  {
  }

  lemma LeaseUntouched(leases: map<JobId, Lease>, t: Tracker, r: Record)
    requires LeaseInv(leases, t) && r.JobSubmitted?
    ensures LeaseInv(leases, Track(t, r))
  {
  }

  lemma LeaseTaken(leases: map<JobId, Lease>, t: Tracker, r: Record, deadline: Instant)
    requires LeaseInv(leases, t) && r.JobLeased?
    ensures LeaseInv(leases[r.id := Lease(r.epoch, deadline)], Track(t, r))
  {
  }

  lemma QueuesStay(store: Store, queues: set<QueueName>, id: JobId, job: Job)
    requires QueuesKnown(store, queues)
    requires job.queue in queues
    ensures QueuesKnown(store[id := job], queues)
  {
  }

  /** The queue of a live job is configured. */
  lemma QueueOf(s: State, id: JobId)
    requires Inv(s) && id in s.store && !s.store[id].state.IsTerminal()
    ensures s.store[id].queue in s.ready
  {
  }
}
