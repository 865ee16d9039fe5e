/** The entities shared by every part of the queue: jobs, their states, and the
    records of the write-ahead log. */
module Types {

  type byte = b: int | 0 <= b < 256

  type JobId = nat       // a UUID; only equality matters
  type QueueName = string
  type Millis = int      // persisted wall-clock time
  type Instant = nat     // monotonic time in nanoseconds

  const MAX_PAYLOAD_SIZE := 1024 * 1024
  const U64_MAX := 0xFFFF_FFFF_FFFF_FFFF
  const NANOS_PER_MILLI := 1_000_000

  datatype Option<+T> = None | Some(value: T)

  datatype JobState = Queued | Running | RetryWaiting | Completed | Dead | Cancelled {
    predicate IsTerminal() { Completed? || Dead? || Cancelled? }
  }

  datatype JobSpec = JobSpec(payload: seq<byte>, maxAttempts: nat) {
    /** How often a job may be leased. A job always runs once, even with `maxAttempts == 0`. */
    function Budget(): nat { if maxAttempts == 0 then 1 else maxAttempts }
  }

  datatype Job = Job(id: JobId, queue: QueueName, spec: JobSpec, state: JobState, attempts: nat, createdAt: Millis)

  function NewJob(id: JobId, queue: QueueName, spec: JobSpec, createdAt: Millis): Job {
    Job(id, queue, spec, Queued, 0, createdAt)
  }

  datatype Record =
    | JobSubmitted(id: JobId, queue: QueueName, spec: JobSpec, createdAt: Millis)
    | JobLeased(id: JobId, epoch: nat, attempt: nat, at: Millis)
    | JobRetryScheduled(id: JobId, epoch: nat, attempt: nat, availableAt: Millis)
    | JobCompleted(id: JobId, epoch: nat, at: Millis)
    | JobDead(id: JobId, epoch: nat, at: Millis)
    | JobCancelled(id: JobId, at: Millis)
  {
    function RecordType(): byte {
      match this
      case JobSubmitted(_, _, _, _) => 1
      case JobLeased(_, _, _, _) => 2
      case JobRetryScheduled(_, _, _, _) => 3
      case JobCompleted(_, _, _) => 4
      case JobDead(_, _, _) => 5
      case JobCancelled(_, _) => 6
    }

    /** The record ends its job's life. */
    predicate IsTerminal() { JobCompleted? || JobDead? || JobCancelled? }

    /** The record ends one execution and names the lease it ends. */
    predicate ClosesLease() { JobRetryScheduled? || JobCompleted? || JobDead? }

    /** The state a record puts its job in. */
    function Target(): JobState {
      match this
      case JobSubmitted(_, _, _, _) => Queued
      case JobLeased(_, _, _, _) => Running
      case JobRetryScheduled(_, _, _, _) => RetryWaiting
      case JobCompleted(_, _, _) => Completed
      case JobDead(_, _, _) => Dead
      case JobCancelled(_, _) => Cancelled
    }
  }
}
