/** The indexes that recovery maintains while it replays the log. */
module Tracker {
  import opened Types
  import opened Seqs
  import opened JobStore

  datatype Tracker = Tracker(
    submitted: map<JobId, (QueueName, nat)>,   // queue, max attempts
    running: map<JobId, (nat, nat)>,           // lease epoch, attempt
    retryWaiting: map<JobId, Millis>,
    queuedOrder: map<QueueName, seq<JobId>>,
    maxEpoch: nat)

  const EMPTY_TRACKER := Tracker(map[], map[], map[], map[], 0)

  function Order(t: Tracker, q: QueueName): seq<JobId> {
    if q in t.queuedOrder then t.queuedOrder[q] else []
  }

  function Unqueue(t: Tracker, id: JobId): map<QueueName, seq<JobId>> {
    if id in t.submitted && t.submitted[id].0 in t.queuedOrder
    then t.queuedOrder[t.submitted[id].0 := Retain(t.queuedOrder[t.submitted[id].0], id)]
    else t.queuedOrder
  }

  function Track(t: Tracker, r: Record): Tracker {
    match r
    case JobSubmitted(id, queue, spec, _) =>
      t.(submitted := t.submitted[id := (queue, spec.maxAttempts)],
         queuedOrder := t.queuedOrder[queue := Order(t, queue) + [id]])
    case JobLeased(id, epoch, attempt, _) =>
      t.(maxEpoch := if epoch > t.maxEpoch then epoch else t.maxEpoch,
         running := t.running[id := (epoch, attempt)],
         queuedOrder := Unqueue(t, id),
         retryWaiting := t.retryWaiting - {id})
    case JobRetryScheduled(id, _, _, availableAt) =>
      t.(running := t.running - {id}, retryWaiting := t.retryWaiting[id := availableAt])
    case _ =>
      t.(running := t.running - {r.id}, retryWaiting := t.retryWaiting - {r.id}, queuedOrder := Unqueue(t, r.id))
  }

  function TrackAll(log: seq<Record>): Tracker {
    if log == [] then EMPTY_TRACKER else Track(TrackAll(log[..|log| - 1]), log[|log| - 1])
  }

  lemma TrackSnoc(log: seq<Record>, r: Record)
    ensures TrackAll(log + [r]) == Track(TrackAll(log), r)
  {
    assert (log + [r])[..|log|] == log;
  }

  /** A live job is found in the index that matches its state. */
  ghost predicate Indexed(t: Tracker, id: JobId, job: Job) {
    && (job.state.Running? ==> id in t.running)
    && (job.state.RetryWaiting? ==> id in t.retryWaiting)
    && (job.state.Queued? ==> id in Order(t, job.queue))
  }

  ghost predicate Covers(t: Tracker, st: Store) {
    forall id :: id in st ==> Indexed(t, id, st[id])
  }

  lemma UnqueueKeeps(t: Tracker, id: JobId, q: QueueName)
    ensures forall x :: x != id && x in Order(t, q) ==> x in Order(t.(queuedOrder := Unqueue(t, id)), q)
  {
    RetainMembers(Order(t, q), id);
  }

  /** For every record sequence whatever, also one no coordinator would write. */
  lemma {:induction false} TrackerCovers(log: seq<Record>)
    ensures Covers(TrackAll(log), Replay(log))
  {
    if log != [] {
      var init, r := log[..|log| - 1], log[|log| - 1];
      TrackerCovers(init);
      var t, st := TrackAll(init), Replay(init);
      forall id | id in ApplyRelaxed(st, r)
        ensures Indexed(Track(t, r), id, ApplyRelaxed(st, r)[id])
      {
        if id != r.id { UnqueueKeeps(t, r.id, st[id].queue); }
      }
    }
  }

  class RecoveryTracker {
    var submitted: map<JobId, (QueueName, nat)>
    var running: map<JobId, (nat, nat)>
    var retryWaiting: map<JobId, Millis>
    var queuedOrder: map<QueueName, seq<JobId>>
    var maxEpoch: nat

    ghost function View(): Tracker
      reads this
    {
      Tracker(submitted, running, retryWaiting, queuedOrder, maxEpoch)
    }

    constructor ()
      ensures View() == EMPTY_TRACKER
    {
      submitted, running, retryWaiting, queuedOrder, maxEpoch := map[], map[], map[], map[], 0;
    }

    method RemoveFromQueued(id: JobId)
      modifies this`queuedOrder
      ensures View() == old(View()).(queuedOrder := Unqueue(old(View()), id))
    {
      if id in submitted {
        var queue := submitted[id].0;
        if queue in queuedOrder {
          queuedOrder := queuedOrder[queue := Retain(queuedOrder[queue], id)];
        }
      }
    }

    method TrackRecord(r: Record)
      modifies this
      ensures View() == Track(old(View()), r)
    {
      match r {
        case JobSubmitted(id, queue, spec, _) =>
          submitted := submitted[id := (queue, spec.maxAttempts)];
          if queue !in queuedOrder {
            queuedOrder := queuedOrder[queue := []];
          }
          queuedOrder := queuedOrder[queue := queuedOrder[queue] + [id]];
        case JobLeased(id, epoch, attempt, _) =>
          if epoch > maxEpoch {
            maxEpoch := epoch;
          }
          running := running[id := (epoch, attempt)];
          RemoveFromQueued(id);
          retryWaiting := retryWaiting - {id};
        case JobRetryScheduled(id, _, _, availableAt) =>
          running := running - {id};
          retryWaiting := retryWaiting[id := availableAt];
        case _ =>
          running := running - {r.id};
          retryWaiting := retryWaiting - {r.id};
          RemoveFromQueued(r.id);
      }
    }
  }
}
