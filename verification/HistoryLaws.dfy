/** Whole-log laws of well-formed logs: fencing, bounds and first-come-first-served. */
module HistoryLaws {
  import opened Types
  import opened Seqs
  import opened JobStore
  import opened Tracker
  import opened History

  // ----- lease fencing -----

  lemma {:induction false} EpochsBounded(log: seq<Record>)
    requires WellFormed(log)
    ensures forall i :: 0 <= i < |log| && log[i].JobLeased? ==> log[i].epoch <= TrackAll(log).maxEpoch
  {
    if log != [] { EpochsBounded(log[..|log| - 1]); }
  }

  /** Lease epochs strictly increase through the log. */
  lemma EpochsIncrease(log: seq<Record>, i: nat, j: nat)
    requires WellFormed(log) && i < j < |log| && log[i].JobLeased? && log[j].JobLeased?
    ensures log[i].epoch < log[j].epoch
  {
    WellFormedAt(log, j);
    EpochsBounded(log[..j]);
    assert log[..j][i] == log[i];
  }

  /** The lease the tracker holds for a running job is its last record. */
  lemma {:induction false} RunningSince(log: seq<Record>, id: JobId) returns (j: nat)
    requires WellFormed(log) && id in TrackAll(log).running
    ensures j < |log| && log[j].JobLeased? && log[j].id == id && log[j].epoch == TrackAll(log).running[id].0
    ensures forall k :: j < k < |log| ==> log[k].id != id
  {
    var init, r := log[..|log| - 1], log[|log| - 1];
    WellFormedSound(init);
    assert IndexOk(Replay(init), TrackAll(init), id);
    if r.id == id {
      j := |log| - 1;
    } else {
      j := RunningSince(init, id);
    }
  }

  /** A record that ends an execution names the job's latest lease, and nothing
      happened to the job in between. */
  lemma ClosesLatestLease(log: seq<Record>, i: nat) returns (j: nat)
    requires WellFormed(log) && i < |log| && log[i].ClosesLease()
    ensures j < i && log[j].JobLeased? && log[j].id == log[i].id && log[j].epoch == log[i].epoch
    ensures forall k :: j < k < i ==> log[k].id != log[i].id
  {
    WellFormedAt(log, i);
    j := RunningSince(log[..i], log[i].id);
    assert forall k :: j < k < i ==> log[..i][k] == log[k];
  }

  /** No lease is ended twice, not even under another job's name. */
  lemma ClosedOnce(log: seq<Record>, i: nat, i': nat)
    requires WellFormed(log) && i < i' < |log| && log[i].ClosesLease() && log[i'].ClosesLease()
    ensures log[i].epoch != log[i'].epoch
  {
    hide WellFormed;
    var j := ClosesLatestLease(log, i);
    var j' := ClosesLatestLease(log, i');
    if j < j' {
      EpochsIncrease(log, j, j');
    } else if j' < j {
      EpochsIncrease(log, j', j);
    }
  }

  // ----- bounds -----

  function LeaseCount(h: seq<Record>): nat {
    if h == [] then 0 else LeaseCount(h[..|h| - 1]) + if h[|h| - 1].JobLeased? then 1 else 0
  }

  /** A job's attempt counter is the number of its leases, and never exceeds its budget. */
  lemma {:induction false} AttemptsCountLeases(log: seq<Record>, id: JobId)
    requires WellFormed(log) && id in Replay(log)
    ensures LeaseCount(Project(log, id)) == Replay(log)[id].attempts <= Replay(log)[id].spec.Budget()
    ensures Replay(log)[id].attempts <= 1 || Replay(log)[id].attempts <= Replay(log)[id].spec.maxAttempts
  {
    WellFormedSound(log);
    assert IndexOk(Replay(log), TrackAll(log), id);
    var init, r := log[..|log| - 1], log[|log| - 1];
    if r.id == id {
      var h := Project(init, id);
      assert (h + [r])[..|h|] == h;
      if id in Replay(init) {
        AttemptsCountLeases(init, id);
      } else {
        HistoryOfJob(init, id);
      }
    } else {
      AttemptsCountLeases(init, id);
    }
  }

  /** What one submission may cost in log records. */
  function RecordAllowance(spec: JobSpec): nat { 1 + 2 * spec.Budget() }

  lemma HistoryLengthBounded(log: seq<Record>, id: JobId)
    requires WellFormed(log) && id in Replay(log)
    ensures |Project(log, id)| <= RecordAllowance(Replay(log)[id].spec)
    ensures |Project(log, id)| <= 3 || |Project(log, id)| <= 1 + 2 * Replay(log)[id].spec.maxAttempts
  {
    HistoryOfJob(log, id);
    WellFormedSound(log);
    assert IndexOk(Replay(log), TrackAll(log), id);
  }

  /** The submissions of a log, in order. */
  function Submissions(log: seq<Record>): seq<Record> {
    if log == [] then []
    else
      var s, r := Submissions(log[..|log| - 1]), log[|log| - 1];
      if r.JobSubmitted? then s + [r] else s
  }

  function TotalAllowance(subs: seq<Record>): nat {
    if subs == [] then 0
    else
      TotalAllowance(subs[..|subs| - 1])
      + if subs[|subs| - 1].JobSubmitted? then RecordAllowance(subs[|subs| - 1].spec) else 0
  }

  ghost function TotalHistory(subs: seq<Record>, log: seq<Record>): nat {
    if subs == [] then 0 else TotalHistory(subs[..|subs| - 1], log) + |Project(log, subs[|subs| - 1].id)|
  }

  ghost predicate Names(subs: seq<Record>, id: JobId) {
    exists i :: 0 <= i < |subs| && subs[i].id == id
  }

  lemma NamesSnoc(subs: seq<Record>, r: Record, id: JobId)
    ensures Names(subs + [r], id) <==> Names(subs, id) || r.id == id
  {
    assert (subs + [r])[|subs|] == r;
    if Names(subs, id) {
      var i :| 0 <= i < |subs| && subs[i].id == id;
      assert (subs + [r])[i].id == id;
    }
  }

  /** A job exists exactly when it was submitted, and it was submitted once. */
  lemma {:induction false} SubmittedOnce(log: seq<Record>)
    requires WellFormed(log)
    ensures forall id :: id in Replay(log) <==> Names(Submissions(log), id)
    ensures forall i, j :: 0 <= i < j < |Submissions(log)| ==> Submissions(log)[i].id != Submissions(log)[j].id
    ensures forall i :: 0 <= i < |Submissions(log)| ==>
              && Submissions(log)[i].JobSubmitted?
              && Submissions(log)[i].id in Replay(log)
              && Replay(log)[Submissions(log)[i].id].spec == Submissions(log)[i].spec
  {
    if log != [] {
      var init, r := log[..|log| - 1], log[|log| - 1];
      SubmittedOnce(init);
      forall id ensures id in Replay(log) <==> Names(Submissions(log), id) {
        NamesSnoc(Submissions(init), r, id);
      }
    }
  }

  /** One record adds one to the total when its job is among the distinct submissions, else nothing. */
  lemma {:induction false} TotalHistoryStep(subs: seq<Record>, log: seq<Record>, r: Record)
    requires forall i, j :: 0 <= i < j < |subs| ==> subs[i].id != subs[j].id
    ensures TotalHistory(subs, log + [r])
         == TotalHistory(subs, log) + if Names(subs, r.id) then 1 else 0
  {
    if subs != [] {
      var init, x := subs[..|subs| - 1], subs[|subs| - 1];
      TotalHistoryStep(init, log, r);
      assert (log + [r])[..|log|] == log;
      assert subs == init + [x];
      NamesSnoc(init, x, r.id);
    }
  }

  /** Every record belongs to the history of exactly one submission. */
  lemma {:induction false} LogIsItsHistories(log: seq<Record>)
    requires WellFormed(log)
    ensures |log| == TotalHistory(Submissions(log), log)
  {
    if log != [] {
      var init, r := log[..|log| - 1], log[|log| - 1];
      LogIsItsHistories(init);
      SubmittedOnce(init);
      assert log == init + [r];
      TotalHistoryStep(Submissions(init), init, r);
      if r.JobSubmitted? {
        var s := Submissions(init);
        assert (s + [r])[..|s|] == s;
        HistoryOfJob(init, r.id);
      }
    }
  }

  lemma {:induction false} TotalBounded(subs: seq<Record>, log: seq<Record>)
    requires forall i :: 0 <= i < |subs| ==>
               subs[i].JobSubmitted? && |Project(log, subs[i].id)| <= RecordAllowance(subs[i].spec)
    ensures TotalHistory(subs, log) <= TotalAllowance(subs)
  {
    if subs != [] { TotalBounded(subs[..|subs| - 1], log); }
  }

  /** The log is bounded by what was submitted, however often the process crashed. */
  lemma LogBounded(log: seq<Record>)
    requires WellFormed(log)
    ensures |log| <= TotalAllowance(Submissions(log))
  {
    LogIsItsHistories(log);
    SubmittedOnce(log);
    forall i | 0 <= i < |Submissions(log)|
      ensures |Project(log, Submissions(log)[i].id)| <= RecordAllowance(Submissions(log)[i].spec)
    {
      HistoryLengthBounded(log, Submissions(log)[i].id);
    }
    TotalBounded(Submissions(log), log);
  }

  // ----- first come, first served -----

  function SubmittedTo(log: seq<Record>, q: QueueName): seq<JobId> {
    if log == [] then []
    else
      var s, r := SubmittedTo(log[..|log| - 1], q), log[|log| - 1];
      if r.JobSubmitted? && r.queue == q then s + [r.id] else s
  }

  function QueuedJobs(st: Store): set<JobId> {
    set id | id in st && st[id].state.Queued?
  }

  lemma {:induction false} SubmittedToDistinct(log: seq<Record>, q: QueueName)
    requires WellFormed(log)
    ensures forall id :: id in SubmittedTo(log, q) <==> id in Replay(log) && Replay(log)[id].queue == q
    ensures Distinct(SubmittedTo(log, q))
  {
    if log != [] { SubmittedToDistinct(log[..|log| - 1], q); }
  }

  /** Any record but a submission takes its job out of the order, if it is there. */
  lemma OrderAfterRecord(st: Store, t: Tracker, r: Record, q: QueueName)
    requires IndexOk(st, t, r.id) && OrderOk(st, t, q) && Legal(st, t, r) && !r.JobSubmitted?
    ensures Order(Track(t, r), q) == Retain(Order(t, q), r.id)
    ensures QueuedJobs(ApplyRelaxed(st, r)) == QueuedJobs(st) - {r.id}
  {
    RetainMembers(Order(t, q), r.id);
  }

  lemma OrderSubmissionStep(st: Store, t: Tracker, r: Record, q: QueueName, subs: seq<JobId>)
    requires IndexOk(st, t, r.id) && OrderOk(st, t, q) && Legal(st, t, r)
    requires forall id :: id in subs <==> id in st && st[id].queue == q
    requires Order(t, q) == Only(subs, QueuedJobs(st))
    ensures var subs' := if r.JobSubmitted? && r.queue == q then subs + [r.id] else subs;
            Order(Track(t, r), q) == Only(subs', QueuedJobs(ApplyRelaxed(st, r)))
  {
    var keep, keep' := QueuedJobs(st), QueuedJobs(ApplyRelaxed(st, r));
    if r.JobSubmitted? {
      assert keep' == keep + {r.id};
      OnlyConcat(subs, [r.id], keep');
      OnlyAgree(subs, keep, keep');
      assert Only([r.id], keep') == [r.id];
    } else {
      OrderAfterRecord(st, t, r, q);
      RetainOnly(subs, keep, r.id);
    }
  }

  /** The tracker's order is submission order, restricted to the jobs still queued. */
  lemma {:induction false} OrderIsSubmissionOrder(log: seq<Record>, q: QueueName)
    requires WellFormed(log)
    ensures Order(TrackAll(log), q) == Only(SubmittedTo(log, q), QueuedJobs(Replay(log)))
  {
    if log != [] {
      var init, r := log[..|log| - 1], log[|log| - 1];
      OrderIsSubmissionOrder(init, q);
      WellFormedSound(init);
      SubmittedToDistinct(init, q);
      assert IndexOk(Replay(init), TrackAll(init), r.id) && OrderOk(Replay(init), TrackAll(init), q);
      OrderSubmissionStep(Replay(init), TrackAll(init), r, q, SubmittedTo(init, q));
    }
  }

  /** A job that has left the queue was leased or cancelled. */
  lemma {:induction false} LeftTheQueue(log: seq<Record>, id: JobId) returns (k: nat)
    requires WellFormed(log) && id in Replay(log) && !Replay(log)[id].state.Queued?
    ensures k < |log| && log[k].id == id && (log[k].JobLeased? || log[k].JobCancelled?)
  {
    var init, r := log[..|log| - 1], log[|log| - 1];
    if r.id == id && (r.JobLeased? || r.JobCancelled?) {
      k := |log| - 1;
    } else {
      k := LeftTheQueue(init, id);
    }
  }

  lemma {:induction false} SubmittedToPrefix(log: seq<Record>, q: QueueName, k: nat)
    requires k <= |log|
    ensures SubmittedTo(log[..k], q) <= SubmittedTo(log, q)
  {
    if k == |log| {
      assert log[..k] == log;
    } else {
      SubmittedToPrefix(log[..|log| - 1], q, k);
      assert log[..|log| - 1][..k] == log[..k];
    }
  }

  /** Where a submission stands among the submissions to its queue. */
  lemma SubmissionPosition(log: seq<Record>, q: QueueName, p: nat)
    requires p < |log| && log[p].JobSubmitted? && log[p].queue == q
    ensures var n := |SubmittedTo(log[..p], q)|;
            n < |SubmittedTo(log, q)| && SubmittedTo(log, q)[n] == log[p].id
            && |SubmittedTo(log[..p + 1], q)| == n + 1
  {
    assert log[..p + 1][..p] == log[..p];
    SubmittedToPrefix(log, q, p + 1);
  }

  /** Within a queue, first leases follow submission order: when `b` gets its first
      lease, every job submitted to the queue before `b` was leased or cancelled before. */
  lemma FirstLeasesAreFifo(log: seq<Record>, a: nat, b: nat, i: nat) returns (k: nat)
    requires WellFormed(log) && a < b < |log| && i < |log|
    requires log[a].JobSubmitted? && log[b].JobSubmitted? && log[a].queue == log[b].queue
    requires log[i].JobLeased? && log[i].attempt == 1 && log[i].id == log[b].id
    ensures k < i && log[k].id == log[a].id && (log[k].JobLeased? || log[k].JobCancelled?)
  {
    var q, l := log[a].queue, log[..i];
    WellFormedAt(log, i);
    WellFormedSound(l);
    var st, t := Replay(l), TrackAll(l);
    var id := log[i].id;
    assert IndexOk(st, t, id);
    if i <= b {
      // `b` already exists before its own submission
      WellFormedAt(log, b);
      JobsPersist(log, i, b);
      assert false;
    }
    assert l[a] == log[a] && l[b] == log[b];
    SubmissionQueue(l, b);
    OrderIsSubmissionOrder(l, q);
    SubmittedToDistinct(l, q);
    SubmissionPosition(l, q, a);
    SubmissionPosition(l, q, b);
    assert l[..b][..a + 1] == l[..a + 1];
    SubmittedToPrefix(l[..b], q, a + 1);
    OnlyFirst(SubmittedTo(l, q), QueuedJobs(st), |SubmittedTo(l[..a], q)|, |SubmittedTo(l[..b], q)|);
    SubmissionQueue(l, a);
    k := LeftTheQueue(l, log[a].id);
  }

  /** Jobs are never removed. */
  lemma {:induction false} JobsPersist(log: seq<Record>, i: nat, j: nat)
    requires i <= j <= |log|
    ensures Replay(log[..i]).Keys <= Replay(log[..j]).Keys
  {
    if i < j {
      JobsPersist(log, i, j - 1);
      assert log[..j][..j - 1] == log[..j - 1];
    }
  }

  lemma {:induction false} SubmissionQueue(log: seq<Record>, p: nat)
    requires WellFormed(log) && p < |log| && log[p].JobSubmitted?
    ensures log[p].id in Replay(log) && Replay(log)[log[p].id].queue == log[p].queue
  {
    if p < |log| - 1 { SubmissionQueue(log[..|log| - 1], p); }
  }

  // ----- the same laws as statements about one log -----

  /** Record `i` is the first lease of a job submitted at `b`, after another at `a` to the same queue. */
  ghost predicate Overtakes(log: seq<Record>, a: nat, b: nat, i: nat) {
    && a < b < |log| && i < |log|
    && log[a].JobSubmitted? && log[b].JobSubmitted? && log[a].queue == log[b].queue
    && log[i].JobLeased? && log[i].attempt == 1 && log[i].id == log[b].id
  }

  /** The job of submission `a` was leased or cancelled before record `i`. */
  ghost predicate GoneBefore(log: seq<Record>, a: nat, i: nat) {
    i < |log| && a < |log| &&
      exists k :: 0 <= k < i && log[k].id == log[a].id && (log[k].JobLeased? || log[k].JobCancelled?)
  }

  /** Record `i` ends the lease at `j`, and no record of its job lies in between. */
  ghost predicate Closes(log: seq<Record>, i: nat, j: nat) {
    && j < i < |log| && log[i].ClosesLease()
    && log[j].JobLeased? && log[j].id == log[i].id && log[j].epoch == log[i].epoch
    && forall k :: j < k < i ==> log[k].id != log[i].id
  }

  ghost predicate ClosesSome(log: seq<Record>, i: nat) { exists j :: Closes(log, i, j) }

  ghost predicate WithinBudget(log: seq<Record>, id: JobId) {
    id in Replay(log) ==>
      && LeaseCount(Project(log, id)) == Replay(log)[id].attempts
      && (Replay(log)[id].attempts <= 1 || Replay(log)[id].attempts <= Replay(log)[id].spec.maxAttempts)
  }

  ghost predicate LogLaws(log: seq<Record>) {
    && (forall id :: IsHistory(Project(log, id)) && WithinBudget(log, id))
    && (forall i, k :: 0 <= i < k < |log| && log[i].JobLeased? && log[k].JobLeased? ==> log[i].epoch < log[k].epoch)
    && (forall i :: 0 <= i < |log| && log[i].ClosesLease() ==> ClosesSome(log, i))
    && (forall i, k :: 0 <= i < k < |log| && log[i].ClosesLease() && log[k].ClosesLease() ==>
          log[i].epoch != log[k].epoch)
    && (forall a, b, i :: Overtakes(log, a, b, i) ==> GoneBefore(log, a, i))
    && |log| <= TotalAllowance(Submissions(log))
  }

  lemma WellFormedLaws(log: seq<Record>)
    requires WellFormed(log)
    ensures LogLaws(log)
  {
    hide WellFormed, IsHistory, Project, Overtakes, GoneBefore, Closes, WithinBudget, Replay, TotalAllowance,
         Submissions;
    forall id ensures IsHistory(Project(log, id)) && WithinBudget(log, id) { OneJobsLaws(log, id); }
    forall i, k | 0 <= i < k < |log| && log[i].JobLeased? && log[k].JobLeased? ensures log[i].epoch < log[k].epoch {
      EpochsIncrease(log, i, k);
    }
    forall i | 0 <= i < |log| && log[i].ClosesLease() ensures ClosesSome(log, i) { ClosesIt(log, i); }
    forall i, k | 0 <= i < k < |log| && log[i].ClosesLease() && log[k].ClosesLease()
      ensures log[i].epoch != log[k].epoch {
      ClosedOnce(log, i, k);
    }
    forall a: nat, b: nat, i: nat | Overtakes(log, a, b, i) ensures GoneBefore(log, a, i) { LeftEarlier(log, a, b, i); }
    LogBounded(log);
  }

  lemma OneJobsLaws(log: seq<Record>, id: JobId)
    requires WellFormed(log)
    ensures IsHistory(Project(log, id)) && WithinBudget(log, id)
  {
    hide WellFormed, IsHistory, Project;
    HistoryOfJob(log, id);
    if id in Replay(log) { AttemptsCountLeases(log, id); }
  }

  lemma ClosesIt(log: seq<Record>, i: nat)
    requires WellFormed(log) && i < |log| && log[i].ClosesLease()
    ensures ClosesSome(log, i)
  {
    hide WellFormed;
    var j := ClosesLatestLease(log, i);
    assert Closes(log, i, j);
  }

  lemma LeftEarlier(log: seq<Record>, a: nat, b: nat, i: nat)
    requires WellFormed(log) && Overtakes(log, a, b, i)
    ensures GoneBefore(log, a, i)
  {
    hide WellFormed;
    var k := FirstLeasesAreFifo(log, a, b, i);
    assert log[k].id == log[a].id;
  }

  // ----- the order that recovery finds -----

  lemma {:induction false} NoNewSubmissions(log: seq<Record>, recs: seq<Record>, q: QueueName)
    requires forall r :: r in recs ==> !r.JobSubmitted?
    ensures SubmittedTo(log + recs, q) == SubmittedTo(log, q)
  {
    if recs == [] {
      assert log + recs == log;
    } else {
      var init, r := recs[..|recs| - 1], recs[|recs| - 1];
      NoNewSubmissions(log, init, q);
      assert log + recs == (log + init) + [r] && ((log + init) + [r])[..|log + init|] == log + init;
    }
  }

  /** Records that submit nothing and leave the queued jobs queued do not change their order. */
  lemma OrderStays(log: seq<Record>, recs: seq<Record>, q: QueueName)
    requires WellFormed(log) && WellFormed(log + recs)
    requires forall r :: r in recs ==> !r.JobSubmitted?
    requires QueuedJobs(Replay(log + recs)) == QueuedJobs(Replay(log))
    ensures Order(TrackAll(log + recs), q) == Order(TrackAll(log), q)
  {
    hide WellFormed, Replay, TrackAll, QueuedJobs, SubmittedTo;
    OrderIsSubmissionOrder(log, q);
    OrderIsSubmissionOrder(log + recs, q);
    NoNewSubmissions(log, recs, q);
  }
}
