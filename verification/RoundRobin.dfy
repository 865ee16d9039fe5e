/** The round-robin cursor: cyclic distance, and why no ready job waits long. */
module RoundRobin {
  import opened Types
  import opened Seqs
  import opened CoordSpec
  import opened CoordLaws

  /** `i % n` for an index that wraps at most once. */
  function Wrap(i: nat, n: nat): nat { if i < n then i else i - n }

  lemma WrapIsMod(i: nat, n: nat)
    requires 0 < n && i < 2 * n
    ensures i % n == Wrap(i, n)
  {
    if i >= n { assert i == 1 * n + (i - n); }
  }

  /** How many queues the cursor passes before it reaches queue `i`. */
  function Distance(cursor: nat, i: nat, n: nat): nat
    requires cursor < n && i < n
  {
    if cursor <= i then i - cursor else i + n - cursor
  }

  /** The queue reached after `skip` others has no ready job. */
  ghost predicate Skipped(s: State, skip: nat) {
    s.order != [] && (ServedQueue(s, skip) in s.ready ==> s.ready[ServedQueue(s, skip)] == [])
  }

  /** A lease that passes over empty queues only, as when storage does not fail. */
  ghost predicate Fair(s: State, e: Event) {
    e.LeaseJob? ==> forall i :: 0 <= i < e.skip ==> Skipped(s, i)
  }

  /** How many of the first `n` queues from the cursor on have a ready job. */
  ghost function Passed(s: State, n: nat): nat {
    if n == 0 then 0 else Passed(s, n - 1) + if Skipped(s, n - 1) then 0 else 1
  }

  lemma {:induction false} NonePassed(s: State, n: nat)
    ensures Passed(s, n) == 0 <==> forall i :: 0 <= i < n ==> Skipped(s, i)
  {
    hide Skipped;
    if n > 0 { NonePassed(s, n - 1); }
  }

  /** A fair lease serves a non-empty queue, or brings the cursor nearer to it. */
  lemma LeaseApproaches(s: State, e: Event, i: nat)
    requires s.cursor < |s.order| && i < |s.order| && s.order[i] in s.ready && s.ready[s.order[i]] != []
    requires e.LeaseJob? && Enabled(s, e) && Fair(s, e)
    ensures var n := |s.order|;
            var cursor' := (s.cursor + e.skip + 1) % n;
            var d := Distance(s.cursor, i, n);
            && cursor' < n
            && (e.skip == d ==> ServedQueue(s, e.skip) == s.order[i] && Distance(cursor', i, n) <= n - 1)
            && (e.skip != d ==> Distance(cursor', i, n) < d)
  {
    var n, d := |s.order|, Distance(s.cursor, i, |s.order|);
    WrapIsMod(s.cursor + d, n);
    assert ServedQueue(s, d) == s.order[i];
    assert !Skipped(s, d);
    WrapIsMod(s.cursor + e.skip + 1, n);
  }

  // ----- waiting in a deque -----

  function IndexOf(s: seq<JobId>, x: JobId): (i: nat)
    requires x in s
    ensures i < |s| && s[i] == x
  {
    if s[0] == x then 0 else 1 + IndexOf(s[1..], x)
  }

  lemma {:induction false} IndexAfterPush(s: seq<JobId>, x: JobId, y: JobId)
    requires x in s
    ensures x in s + [y] && IndexOf(s + [y], x) == IndexOf(s, x)
  {
    assert (s + [y])[0] == s[0];
    if s[0] != x {
      assert (s + [y])[1..] == s[1..] + [y];
      IndexAfterPush(s[1..], x, y);
    }
  }

  lemma {:induction false} IndexAfterRetain(s: seq<JobId>, x: JobId, y: JobId)
    requires x in s && x in Retain(s, y)
    ensures IndexOf(Retain(s, y), x) <= IndexOf(s, x)
  {
    RetainMembers(s, y);
    RetainMembers(s[1..], y);
    var t := Retain(s[1..], y);
    if s[0] == y {
      assert Retain(s, y) == t;
      IndexAfterRetain(s[1..], x, y);
    } else if s[0] != x {
      assert Retain(s, y) == [s[0]] + t && ([s[0]] + t)[1..] == t;
      IndexAfterRetain(s[1..], x, y);
    }
  }

  ghost predicate Waiting(s: State, q: QueueName, id: JobId) { q in s.ready && id in s.ready[q] }

  /** What a step may do to a deque. */
  ghost predicate DequeStep(a: seq<JobId>, b: seq<JobId>) {
    b == a || (exists x :: b == a + [x]) || (exists x :: b == Retain(a, x))
  }

  lemma DequeMoves(a: seq<JobId>, b: seq<JobId>, id: JobId)
    requires DequeStep(a, b) && id in a && id in b
    ensures IndexOf(b, id) <= IndexOf(a, id)
  {
    if b != a {
      if x :| b == a + [x] {
        IndexAfterPush(a, id, x);
      } else {
        var x :| b == Retain(a, x);
        IndexAfterRetain(a, id, x);
      }
    }
  }

  lemma StepDeque(s: State, e: Event, q: QueueName)
    requires Enabled(s, e) && q in s.ready && (e.LeaseJob? ==> ServedQueue(s, e.skip) != q)
    ensures q in Exec(s, e).ready && DequeStep(s.ready[q], Exec(s, e).ready[q])
  {
    hide SameFrame, Submitted, CancelledBy, LeasedBy, ClosedBy, RetriedBy, Popped, IndexOf, Retain;
    if e.Cancel? { CancelFrame(s, RecordOf(s, e).value); }
  }

  /** No step moves a waiting job back; a lease from its own queue moves it forward. */
  lemma StepsForward(s: State, e: Event, q: QueueName, id: JobId)
    requires Enabled(s, e) && Waiting(s, q, id) && Waiting(Exec(s, e), q, id) && Distinct(s.ready[q])
    ensures IndexOf(Exec(s, e).ready[q], id) <= IndexOf(s.ready[q], id)
    ensures e.LeaseJob? && ServedQueue(s, e.skip) == q ==>
              IndexOf(Exec(s, e).ready[q], id) + 1 == IndexOf(s.ready[q], id)
  {
    if e.LeaseJob? && ServedQueue(s, e.skip) == q {
      hide SameFrame, LeasedBy;
    } else {
      hide Exec, Enabled, DequeStep;
      StepDeque(s, e, q);
      DequeMoves(s.ready[q], Exec(s, e).ready[q], id);
    }
  }

  /** Only leasing moves the cursor, and nothing changes the queues. */
  lemma StepCursor(s: State, e: Event)
    requires Enabled(s, e)
    ensures Exec(s, e).order == s.order
    ensures Exec(s, e).cursor == if e.LeaseJob? then (s.cursor + e.skip + 1) % |s.order| else s.cursor
  {
    hide SameReserve, Submitted, CancelledBy, LeasedBy, ClosedBy, RetriedBy, Popped;
    if e.Cancel? { CancelFrame(s, RecordOf(s, e).value); }
  }

  /** Turns left before the job's lease: whole rounds for those before it, then the way to its queue. */
  ghost function TurnsLeft(s: State, i: nat, id: JobId): nat
    requires s.cursor < |s.order| && i < |s.order| && Waiting(s, s.order[i], id)
  {
    IndexOf(s.ready[s.order[i]], id) * |s.order| + Distance(s.cursor, i, |s.order|)
  }

  lemma WholeRound(p: nat, n: nat)
    ensures (p + 1) * n == p * n + n
  {
  }

  lemma RoundsMonotone(p: nat, p': nat, n: nat)
    requires p <= p'
    ensures p * n <= p' * n
  {
  }

  lemma TurnTaken(s: State, e: Event, i: nat, id: JobId)
    requires s.cursor < |s.order| && i < |s.order| && Distinct(s.order)
    requires Enabled(s, e) && Fair(s, e) && Waiting(s, s.order[i], id) && Distinct(s.ready[s.order[i]])
    requires Exec(s, e).order == s.order && Exec(s, e).cursor < |s.order| && Waiting(Exec(s, e), s.order[i], id)
    ensures TurnsLeft(Exec(s, e), i, id) + (if e.LeaseJob? then 1 else 0) <= TurnsLeft(s, i, id)
  {
    hide Exec, Enabled, Fair, IndexOf;
    var n, q, s' := |s.order|, s.order[i], Exec(s, e);
    var p, p' := IndexOf(s.ready[q], id), IndexOf(s'.ready[q], id);
    StepsForward(s, e, q, id);
    StepCursor(s, e);
    RoundsMonotone(p', p, n);
    if e.LeaseJob? {
      LeaseApproaches(s, e, i);
      if e.skip == Distance(s.cursor, i, n) {
        WholeRound(p', n);
      }
    }
  }

  /** A run in which every lease is fair. */
  ghost predicate FairRun(s: State, es: seq<Event>) {
    && CanRun(s, es)
    && (es != [] ==>
          var init := es[..|es| - 1];
          FairRun(s, init) && Fair(ExecAll(s, init), es[|es| - 1]))
  }

  lemma FairSnoc(s: State, es: seq<Event>, e: Event)
    requires FairRun(s, es) && Enabled(ExecAll(s, es), e) && Fair(ExecAll(s, es), e)
    ensures FairRun(s, es + [e])
  {
    hide Exec, Enabled, Fair;
    RunSnoc(s, es, e);
    assert (es + [e])[..|es|] == es;
  }

  lemma {:induction false} FairConcat(s: State, a: seq<Event>, b: seq<Event>)
    requires FairRun(s, a) && FairRun(ExecAll(s, a), b)
    ensures FairRun(s, a + b)
  {
    hide Exec, Enabled, Fair;
    if b == [] {
      assert a + b == a;
    } else {
      var init, e := b[..|b| - 1], b[|b| - 1];
      FairConcat(s, a, init);
      RunConcat(s, a, init);
      assert a + b == (a + init) + [e];
      FairSnoc(s, a + init, e);
    }
  }

  /** A run during which a job waits all the time. */
  ghost predicate WaitsThroughout(s: State, es: seq<Event>, q: QueueName, id: JobId)
    requires CanRun(s, es)
  {
    Waiting(ExecAll(s, es), q, id) && (es != [] ==> WaitsThroughout(s, es[..|es| - 1], q, id))
  }

  function Leases(es: seq<Event>): nat {
    if es == [] then 0 else Leases(es[..|es| - 1]) + if es[|es| - 1].LeaseJob? then 1 else 0
  }

  lemma QueueShape(s: State, q: QueueName)
    requires Inv(s)
    ensures Distinct(s.order) && (s.order != [] ==> s.cursor < |s.order|)
    ensures q in s.ready ==> Distinct(s.ready[q])
  {
    hide LogInv, LeaseInv, QueuesKnown, RetryInv, StatsInv, PermitInv, SemInv, FifoInv;
    assert q in s.ready ==> ReadyInv(s.store, s.ready[q], q);
  }

  lemma {:induction false} OrderFixed(s: State, es: seq<Event>)
    requires CanRun(s, es)
    ensures ExecAll(s, es).order == s.order
  {
    hide Exec, Enabled;
    if es != [] {
      OrderFixed(s, es[..|es| - 1]);
      StepCursor(ExecAll(s, es[..|es| - 1]), es[|es| - 1]);
    }
  }

  lemma {:induction false} TurnsUsed(s: State, es: seq<Event>, i: nat, id: JobId)
    requires Inv(s) && i < |s.order| && FairRun(s, es) && WaitsThroughout(s, es, s.order[i], id)
    ensures s.cursor < |s.order| && Waiting(s, s.order[i], id)
    ensures ExecAll(s, es).order == s.order && ExecAll(s, es).cursor < |s.order|
    ensures TurnsLeft(ExecAll(s, es), i, id) + Leases(es) <= TurnsLeft(s, i, id)
  {
    hide Inv, Exec, Enabled, TurnsLeft, Waiting, Distinct, Fair;
    QueueShape(s, s.order[i]);
    OrderFixed(s, es);
    RunKeepsInv(s, es);
    QueueShape(ExecAll(s, es), s.order[i]);
    if es != [] {
      var init := es[..|es| - 1];
      TurnsUsed(s, init, i, id);
      var t := ExecAll(s, init);
      RunKeepsInv(s, init);
      QueueShape(t, s.order[i]);
      WaitingHasQueue(t, s.order[i], id);
      TurnTaken(t, es[|es| - 1], i, id);
    }
  }

  lemma WaitingHasQueue(s: State, q: QueueName, id: JobId)
    requires Waiting(s, q, id)
    ensures q in s.ready
  {
  }

  /** Bounded bypass: with `n` queues, a job with `p` others before it in its deque is leased
      within `(p + 1) * n` leases, whatever else happens in between; equivalently, while it
      still waits, fewer leases than that have been made. */
  lemma BoundedBypass(s: State, es: seq<Event>, i: nat, id: JobId)
    requires Inv(s) && i < |s.order| && FairRun(s, es) && WaitsThroughout(s, es, s.order[i], id)
    ensures Waiting(s, s.order[i], id)
    ensures Leases(es) < (IndexOf(s.ready[s.order[i]], id) + 1) * |s.order|
  {
    hide Inv, Exec, Enabled, FairRun, WaitsThroughout, CanRun, Leases, Distance;
    TurnsUsed(s, es, i, id);
    DistanceSmall(s.cursor, i, |s.order|);
    WholeRound(IndexOf(s.ready[s.order[i]], id), |s.order|);
  }

  lemma DistanceSmall(cursor: nat, i: nat, n: nat)
    requires cursor < n && i < n
    ensures Distance(cursor, i, n) < n
  {
  }
}
