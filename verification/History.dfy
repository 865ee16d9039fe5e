/** Which record may follow which log, and what every log built that way looks like:
    the per-job history language, lease fencing, bounds, and first-come-first-served leasing. */
module History {
  import opened Types
  import opened Seqs
  import opened JobStore
  import opened Tracker

  predicate HeadOf(s: seq<JobId>, id: JobId) { s != [] && s[0] == id }

  /** `r` may be appended to a log that replays to `st` and `t`. */
  ghost predicate Legal(st: Store, t: Tracker, r: Record) {
    if r.JobSubmitted? then r.id !in st
    else
      && r.id in st
      && var job := st[r.id];
      if r.JobLeased? then
        && (job.state.Queued? || job.state.RetryWaiting?)
        && r.attempt == job.attempts + 1 <= job.spec.Budget()
        && r.epoch > t.maxEpoch
        && (job.state.Queued? ==> HeadOf(Order(t, job.queue), r.id))
      else if r.JobCancelled? then !job.state.IsTerminal()
      else
        && job.state.Running?
        && r.id in t.running && t.running[r.id].0 == r.epoch
        && (r.JobRetryScheduled? ==> r.attempt == job.attempts < job.spec.maxAttempts)
  }

  ghost predicate WellFormed(log: seq<Record>) {
    log == [] ||
    var init := log[..|log| - 1];
    WellFormed(init) && Legal(Replay(init), TrackAll(init), log[|log| - 1])
  }

  lemma WellFormedSnoc(log: seq<Record>, r: Record)
    requires WellFormed(log) && Legal(Replay(log), TrackAll(log), r)
    ensures WellFormed(log + [r])
  {
    assert (log + [r])[..|log|] == log;
  }

  lemma {:induction false} WellFormedPrefix(log: seq<Record>, k: nat)
    requires WellFormed(log) && k <= |log|
    ensures WellFormed(log[..k])
  {
    if k == |log| {
      assert log[..k] == log;
    } else {
      WellFormedPrefix(log[..|log| - 1], k);
      assert log[..|log| - 1][..k] == log[..k];
    }
  }

  /** The record at position `i` was legal when it was appended. */
  lemma WellFormedAt(log: seq<Record>, i: nat)
    requires WellFormed(log) && i < |log|
    ensures WellFormed(log[..i]) && Legal(Replay(log[..i]), TrackAll(log[..i]), log[i])
  {
    WellFormedPrefix(log, i + 1);
    assert log[..i + 1][..i] == log[..i];
  }

  // ----- what a well-formed log replays to -----

  /** The attempt counter fits the state. */
  predicate JobOk(id: JobId, job: Job) {
    && job.id == id
    && job.attempts <= job.spec.Budget()
    && (job.state.Queued? ==> job.attempts == 0)
    && (job.state.Running? ==> 1 <= job.attempts)
    && (job.state.RetryWaiting? ==> 1 <= job.attempts < job.spec.maxAttempts)
  }

  /** The queued order is, queue by queue, a duplicate-free list of the queued jobs. */
  ghost predicate OrderOk(st: Store, t: Tracker, q: QueueName) {
    && Distinct(Order(t, q))
    && forall id :: id in Order(t, q) <==> id in st && st[id].state.Queued? && st[id].queue == q
  }

  /** The other indexes agree with the store on one job. */
  ghost predicate IndexOk(st: Store, t: Tracker, id: JobId) {
    && (id in t.submitted <==> id in st)
    && (id in st ==> JobOk(id, st[id]) && t.submitted[id] == (st[id].queue, st[id].spec.maxAttempts))
    && (id in t.running <==> id in st && st[id].state.Running?)
    && (id in t.running ==> t.running[id].0 <= t.maxEpoch && t.running[id].1 == st[id].attempts)
    && (id in t.retryWaiting <==> id in st && st[id].state.RetryWaiting?)
  }

  /** The tracker's indexes are exactly the classes of the store. */
  ghost predicate Sound(st: Store, t: Tracker) {
    && (forall id :: IndexOk(st, t, id))
    && (forall q :: OrderOk(st, t, q))
  }

  lemma IndexStep(st: Store, t: Tracker, r: Record, id: JobId)
    requires IndexOk(st, t, id) && Legal(st, t, r)
    ensures IndexOk(ApplyRelaxed(st, r), Track(t, r), id)
  {
  }

  lemma OrderStep(st: Store, t: Tracker, r: Record, q: QueueName)
    requires IndexOk(st, t, r.id) && OrderOk(st, t, q) && Legal(st, t, r)
    ensures OrderOk(ApplyRelaxed(st, r), Track(t, r), q)
  {
    RetainMembers(Order(t, q), r.id);
  }

  lemma SoundStep(st: Store, t: Tracker, r: Record)
    requires Sound(st, t) && Legal(st, t, r)
    ensures Sound(ApplyRelaxed(st, r), Track(t, r))
  {
    forall id ensures IndexOk(ApplyRelaxed(st, r), Track(t, r), id) {
      IndexStep(st, t, r, id);
    }
    forall q ensures OrderOk(ApplyRelaxed(st, r), Track(t, r), q) {
      OrderStep(st, t, r, q);
    }
  }

  lemma {:induction false} WellFormedSound(log: seq<Record>)
    requires WellFormed(log)
    ensures Sound(Replay(log), TrackAll(log))
  {
    if log != [] {
      var init := log[..|log| - 1];
      WellFormedSound(init);
      SoundStep(Replay(init), TrackAll(init), log[|log| - 1]);
    }
  }

  // ----- the history of one job -----

  function Project(log: seq<Record>, id: JobId): seq<Record> {
    if log == [] then []
    else
      var h, r := Project(log[..|log| - 1], id), log[|log| - 1];
      if r.id == id then h + [r] else h
  }

  /** Position decides the kind: a submission, then leases at odd positions and their
      ends at even ones; the attempt number is counted by the position, an end names
      the lease just before it, and only the last record can be terminal. */
  ghost predicate HistoryAt(h: seq<Record>, i: nat)
    requires i < |h|
  {
    && h[0].JobSubmitted?
    && (i % 2 == 1 ==>
          || (h[i].JobLeased? && h[i].attempt == (i + 1) / 2 <= h[0].spec.Budget())
          || (h[i].JobCancelled? && i == |h| - 1))
    && (i % 2 == 0 && i > 0 ==>
          && h[i - 1].JobLeased?
          && (h[i].ClosesLease() ==> h[i].epoch == h[i - 1].epoch)
          && ( || (h[i].JobRetryScheduled? && h[i].attempt == i / 2 < h[0].spec.maxAttempts)
               || (h[i].IsTerminal() && i == |h| - 1)))
  }

  ghost predicate IsHistory(h: seq<Record>) {
    forall i :: 0 <= i < |h| ==> HistoryAt(h, i)
  }

  /** How far a job has come determines the length and the end of its history. */
  ghost predicate Summarizes(st: Store, t: Tracker, h: seq<Record>, id: JobId) {
    if id !in st then h == []
    else
      && var job := st[id];
      && h != [] && h[0].JobSubmitted? && h[0].id == id && h[0].spec == job.spec && h[0].queue == job.queue
      && match job.state
         case Queued => |h| == 1
         case Running => |h| == 2 * job.attempts && h[|h| - 1].JobLeased?
                         && id in t.running && h[|h| - 1].epoch == t.running[id].0
         case RetryWaiting => |h| == 2 * job.attempts + 1 && h[|h| - 1].JobRetryScheduled?
                              && id in t.retryWaiting && h[|h| - 1].availableAt == t.retryWaiting[id]
         case Cancelled => 2 * job.attempts + 1 <= |h| <= 2 * job.spec.Budget() + 1 && h[|h| - 1].JobCancelled?
                           && |h| <= 2 * job.attempts + 2
         case Completed => |h| == 2 * job.attempts + 1 && h[|h| - 1].JobCompleted?
         case Dead => |h| == 2 * job.attempts + 1 && h[|h| - 1].JobDead?
  }

  lemma HistoryGrows(st: Store, t: Tracker, h: seq<Record>, r: Record)
    requires IndexOk(st, t, r.id) && Legal(st, t, r)
    requires IsHistory(h) && Summarizes(st, t, h, r.id)
    ensures IsHistory(h + [r])
  {
    var h' := h + [r];
    assert h != [] ==> HistoryAt(h, |h| - 1);
    assert HistoryAt(h', |h|);
    forall i | 0 <= i < |h|
      ensures HistoryAt(h', i)
    {
      assert HistoryAt(h, i);
    }
  }

  lemma SummaryStep(st: Store, t: Tracker, h: seq<Record>, r: Record)
    requires IndexOk(st, t, r.id) && Legal(st, t, r) && Summarizes(st, t, h, r.id)
    ensures Summarizes(ApplyRelaxed(st, r), Track(t, r), h + [r], r.id)
  {
  }

  /** The history of every job, in every well-formed log, is in the language. */
  lemma {:induction false} HistoryOfJob(log: seq<Record>, id: JobId)
    requires WellFormed(log)
    ensures IsHistory(Project(log, id))
    ensures Summarizes(Replay(log), TrackAll(log), Project(log, id), id)
  {
    if log != [] {
      var init, r := log[..|log| - 1], log[|log| - 1];
      HistoryOfJob(init, id);
      WellFormedSound(init);
      var st, t, h := Replay(init), TrackAll(init), Project(init, id);
      if r.id == id {
        assert IndexOk(st, t, id);
        HistoryGrows(st, t, h, r);
        SummaryStep(st, t, h, r);
      }
    }
  }
}
