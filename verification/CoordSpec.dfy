/** The coordinator as a step system: its state, its atomic steps, and the invariant
    that every step keeps. A durable step persists one record; a step whose record
    could not be persisted appears as the step that changes only what the code
    changes on that path (`DropLease`, `ReturnPermit`, or nothing). */
module CoordSpec {
  import opened Types
  import opened Seqs
  import opened JobStore
  import opened Tracker
  import opened History
  import opened Recovery

  datatype Lease = Lease(epoch: nat, deadline: Instant)

  datatype RetryEntry = RetryEntry(availableAt: Instant, wallAvailableAt: Millis, id: JobId)

  datatype QueueStats = QueueStats(
    submitted: nat, queued: nat, running: nat, retrying: nat, completed: nat, dead: nat, cancelled: nat)
  {
    function Of(st: JobState): nat {
      match st
      case Queued => queued
      case Running => running
      case RetryWaiting => retrying
      case Completed => completed
      case Dead => dead
      case Cancelled => cancelled
    }

    function With(st: JobState, n: nat): QueueStats {
      match st
      case Queued => this.(queued := n)
      case Running => this.(running := n)
      case RetryWaiting => this.(retrying := n)
      case Completed => this.(completed := n)
      case Dead => this.(dead := n)
      case Cancelled => this.(cancelled := n)
    }

    /** One job moves: a saturating decrement, then an increment. */
    function Shift(from: JobState, to: JobState): QueueStats {
      var s := With(from, if Of(from) == 0 then 0 else Of(from) - 1);
      s.With(to, s.Of(to) + 1)
    }
  }

  /** A queue's semaphore. `inFlight` permits travel with submissions not yet handled;
      `reserved` permits were taken at recovery and forgotten. */
  datatype Sem = Sem(capacity: nat, available: nat, inFlight: nat, reserved: nat)

  type Worker = nat

  datatype State = State(
    store: Store,
    log: seq<Record>,                      // records acknowledged by storage
    ready: map<QueueName, seq<JobId>>,
    stats: map<QueueName, QueueStats>,
    order: seq<QueueName>,
    cursor: nat,
    permits: map<JobId, QueueName>,        // a permit is identified by its semaphore
    leases: map<JobId, Lease>,
    retry: multiset<RetryEntry>,           // the heap: pops some entry of least time
    parked: seq<Worker>,
    nextEpoch: nat,
    tally: Tally,
    stale: nat,
    shuttingDown: bool,
    shutdownDeadline: Option<Instant>,
    sems: map<QueueName, Sem>,
    base: set<JobId>)                      // the jobs recovered at start

  datatype Event =
    | AcquirePermit(queue: QueueName)
    | ReturnPermit(queue: QueueName)
    | Submit(queue: QueueName, spec: JobSpec, id: JobId, at: Millis)
    | Cancel(id: JobId, at: Millis)
    | LeaseJob(skip: nat, at: Millis, deadline: Instant)
    | Complete(id: JobId, at: Millis)
    | Bury(id: JobId, at: Millis)
    | ScheduleRetry(id: JobId, availableAt: Instant, wallAvailableAt: Millis)
    | DropLease(id: JobId)
    | StaleOutcome
    | PopRetry(entry: RetryEntry)
    | Park(worker: Worker)
    | Unpark
    | BeginShutdown(deadline: Instant)

  /** The queue served when `skip` queues are passed over. */
  function ServedQueue(s: State, skip: nat): QueueName
    requires s.order != []
  {
    s.order[(s.cursor + skip) % |s.order|]
  }

  ghost predicate Enabled(s: State, e: Event) {
    match e
    case AcquirePermit(q) => q in s.sems && s.sems[q].available > 0 && !s.shuttingDown
    case ReturnPermit(q) => q in s.sems && s.sems[q].inFlight > 0
    case Submit(q, spec, id, _) =>
      && !s.shuttingDown && q in s.ready && q in s.stats && |spec.payload| <= MAX_PAYLOAD_SIZE
      && q in s.sems && s.sems[q].inFlight > 0
      && id !in s.store
    case Cancel(id, _) => id in s.store && !s.store[id].state.IsTerminal()
    case LeaseJob(skip, _, _) =>
      && !s.shuttingDown && skip < |s.order|
      && var q := ServedQueue(s, skip);
      && q in s.ready && q in s.stats && s.ready[q] != []
      && s.ready[q][0] in s.store && s.store[s.ready[q][0]].state.Queued?
    case Complete(id, _) => id in s.leases && id in s.store
    case Bury(id, _) => id in s.leases && id in s.store
    case ScheduleRetry(id, _, _) =>
      id in s.leases && id in s.store && s.store[id].attempts < s.store[id].spec.maxAttempts
    case DropLease(id) => id in s.leases
    case StaleOutcome => true
    case PopRetry(entry) => entry in s.retry
    case Park(_) => !s.shuttingDown
    case Unpark => s.parked != []
    case BeginShutdown(_) => !s.shuttingDown
  }

  /** The record that a durable step persists. */
  function RecordOf(s: State, e: Event): Option<Record>
    requires Enabled(s, e)
  {
    match e
    case Submit(q, spec, id, at) => Some(JobSubmitted(id, q, spec, at))
    case Cancel(id, at) => Some(JobCancelled(id, at))
    case LeaseJob(skip, at, _) =>
      var id := s.ready[ServedQueue(s, skip)][0];
      Some(JobLeased(id, s.nextEpoch, s.store[id].attempts + 1, at))
    case Complete(id, at) => Some(JobCompleted(id, s.leases[id].epoch, at))
    case Bury(id, at) => Some(JobDead(id, s.leases[id].epoch, at))
    case ScheduleRetry(id, _, wall) => Some(JobRetryScheduled(id, s.leases[id].epoch, s.store[id].attempts, wall))
    case _ => None
  }

  function ShiftStats(stats: map<QueueName, QueueStats>, q: QueueName, from: JobState,
                      to: JobState): map<QueueName, QueueStats> {
    if q in stats then stats[q := stats[q].Shift(from, to)] else stats
  }

  /** Dropping a job's permit gives it back to its semaphore. Recovered jobs have none. */
  function ReleasedSems(permits: map<JobId, QueueName>, sems: map<QueueName, Sem>, id: JobId): map<QueueName, Sem> {
    if id in permits && permits[id] in sems then
      var sem := sems[permits[id]];
      sems[permits[id] := sem.(available := sem.available + 1)]
    else sems
  }

  // What a record does to store and counters. A record that the store refuses changes neither; by
  // `CoordInv.PersistedIsLegal` no step persists such a record.

  function MovedStore(store: Store, r: Record): Store {
    match Apply(store, r)
    case Applied(store') => store'
    case _ => store
  }

  function MovedStats(stats: map<QueueName, QueueStats>, store: Store, r: Record): map<QueueName, QueueStats> {
    if Apply(store, r).Applied? && r.id in store
    then ShiftStats(stats, store[r.id].queue, store[r.id].state, r.Target()) else stats
  }

  function MovedTally(tally: Tally, store: Store, r: Record): Tally {
    if Apply(store, r).Applied? then CountRecord(tally, r) else tally
  }

  /** What no step but a start-up or a shutdown touches. */
  predicate SameFrame(s: State, t: State) {
    && t.order == s.order && t.shuttingDown == s.shuttingDown && t.shutdownDeadline == s.shutdownDeadline
    && t.base == s.base && t.sems.Keys == s.sems.Keys
    && (forall q :: q in s.sems ==> SameReserve(s.sems[q], t.sems[q]))
  }

  predicate SameReserve(a: Sem, b: Sem) { a.capacity == b.capacity && a.reserved == b.reserved }

  /** The common part of the steps that move one existing job by a record. */
  function Moved(s: State, r: Record): State {
    s.(log := s.log + [r],
       store := MovedStore(s.store, r),
       stats := MovedStats(s.stats, s.store, r),
       tally := MovedTally(s.tally, s.store, r))
  }

  function Freed(s: State, id: JobId): State {
    s.(permits := s.permits - {id}, sems := ReleasedSems(s.permits, s.sems, id))
  }

  function Submitted(s: State, r: Record): (t: State)
    requires r.JobSubmitted? && r.queue in s.ready && r.queue in s.stats
    requires r.queue in s.sems && s.sems[r.queue].inFlight > 0
    ensures t.log == s.log + [r] && SameFrame(s, t) && t.leases == s.leases && t.parked == s.parked
    ensures t.cursor == s.cursor && t.ready == s.ready[r.queue := s.ready[r.queue] + [r.id]]
  {
    var q, id := r.queue, r.id;
    s.(store := s.store[id := NewJob(id, q, r.spec, r.createdAt)],
       log := s.log + [r],
       ready := s.ready[q := s.ready[q] + [id]],
       stats := s.stats[q := s.stats[q].(submitted := s.stats[q].submitted + 1, queued := s.stats[q].queued + 1)],
       permits := s.permits[id := q],
       tally := s.tally.(submitted := s.tally.submitted + 1),
       sems := s.sems[q := s.sems[q].(inFlight := s.sems[q].inFlight - 1)])
  }

  /** A cancelled job leaves its deque, or loses its lease. */
  function Unindexed(s: State, id: JobId, q: QueueName, from: JobState): State {
    s.(ready := if q in s.ready && from.Queued? then s.ready[q := Retain(s.ready[q], id)] else s.ready,
       leases := if q in s.ready && from.Running? then s.leases - {id} else s.leases)
  }

  function CancelledBy(s: State, r: Record): State
    requires r.id in s.store
  {
    Freed(Unindexed(Moved(s, r), r.id, s.store[r.id].queue, s.store[r.id].state), r.id)
  }

  lemma CancelFrame(s: State, r: Record)
    requires r.id in s.store
    ensures var t := CancelledBy(s, r);
            && t.log == s.log + [r] && SameFrame(s, t) && t.leases.Keys <= s.leases.Keys && t.parked == s.parked
            && t.cursor == s.cursor && r.id in t.store
            && t.ready == Unindexed(s, r.id, s.store[r.id].queue, s.store[r.id].state).ready
  {
    hide MovedStore, MovedStats, MovedTally, Retain, ReleasedSems, SameFrame;
    MovedKeepsJobs(s.store, r);
    ReleaseFrame(s, CancelledBy(s, r), r.id);
  }

  lemma MovedKeepsJobs(store: Store, r: Record)
    ensures store.Keys <= MovedStore(store, r).Keys
  {
  }

  lemma ReleaseFrame(s: State, t: State, id: JobId)
    requires t.order == s.order && t.shuttingDown == s.shuttingDown
    requires t.shutdownDeadline == s.shutdownDeadline && t.base == s.base
    requires t.sems == ReleasedSems(s.permits, s.sems, id)
    ensures SameFrame(s, t)
  {
  }

  function LeasedBy(s: State, q: QueueName, r: Record, deadline: Instant): (t: State)
    requires r.JobLeased? && r.id in s.store && q in s.ready && s.ready[q] != []
    ensures t.log == s.log + [r] && SameFrame(s, t) && t.parked == s.parked
    ensures t.cursor == s.cursor && t.ready == s.ready[q := s.ready[q][1..]]
  {
    Moved(s, r).(
      ready := s.ready[q := s.ready[q][1..]],
      nextEpoch := s.nextEpoch + 1,
      leases := s.leases[r.id := Lease(r.epoch, deadline)])
  }

  function Unleased(s: State, id: JobId): State { s.(leases := s.leases - {id}) }

  /** Completing or burying a job whose lease is already gone. */
  function ClosedBy(s: State, r: Record): (t: State)
    requires r.id in s.store
    ensures t.log == s.log + [r] && SameFrame(s, t) && t.leases == s.leases && t.parked == s.parked
    ensures t.cursor == s.cursor && t.ready == s.ready
  {
    if Apply(s.store, r).Applied? then Freed(Moved(s, r), r.id) else Moved(s, r)
  }

  /** The same for a job that will be retried. */
  function RetriedBy(s: State, r: Record, entry: RetryEntry): (t: State)
    requires r.id in s.store
    ensures t.log == s.log + [r] && SameFrame(s, t) && t.leases == s.leases && t.parked == s.parked
    ensures t.cursor == s.cursor && t.ready == s.ready
  {
    Moved(s, r).(retry := if Apply(s.store, r).Applied? then s.retry + multiset{entry} else s.retry)
  }

  /** A job that waits for a retry becomes ready; any other job is left alone. */
  function Requeued(s: State, id: JobId): State {
    var due := id in s.store && s.store[id].state.RetryWaiting?;
    var known := due && s.store[id].queue in s.ready;
    s.(store := if due then s.store[id := s.store[id].(state := Queued)] else s.store,
       stats := if known then ShiftStats(s.stats, s.store[id].queue, RetryWaiting, Queued) else s.stats,
       ready := if known then s.ready[s.store[id].queue := s.ready[s.store[id].queue] + [id]] else s.ready)
  }

  /** A timer fires: its entry leaves the heap. */
  function Popped(s: State, entry: RetryEntry): (t: State)
    ensures t.log == s.log && SameFrame(s, t) && t.leases == s.leases && t.parked == s.parked
    ensures t.cursor == s.cursor
    ensures t.ready == s.ready || (entry.id in s.store && s.store[entry.id].queue in s.ready
                                   && var q := s.store[entry.id].queue;
                                   t.ready == s.ready[q := s.ready[q] + [entry.id]])
  {
    Requeued(s.(retry := s.retry - multiset{entry}), entry.id)
  }

  /** A submission that is turned away drops its permit. */
  function Returned(s: State, q: QueueName): State {
    if q in s.sems && s.sems[q].inFlight > 0 then WithSem(s, q, s.sems[q].available + 1, s.sems[q].inFlight - 1) else s
  }

  function WithSem(s: State, q: QueueName, available: nat, inFlight: nat): State
    requires q in s.sems
  {
    s.(sems := s.sems[q := s.sems[q].(available := available, inFlight := inFlight)])
  }

  function Exec(s: State, e: Event): State
    requires Enabled(s, e)
  {
    match e
    case AcquirePermit(q) => WithSem(s, q, s.sems[q].available - 1, s.sems[q].inFlight + 1)
    case ReturnPermit(q) => Returned(s, q)
    case Submit(_, _, _, _) => Submitted(s, RecordOf(s, e).value)
    case Cancel(_, _) => CancelledBy(s, RecordOf(s, e).value)
    case LeaseJob(skip, _, deadline) =>
      LeasedBy(s.(cursor := (s.cursor + skip + 1) % |s.order|), ServedQueue(s, skip), RecordOf(s, e).value, deadline)
    case Complete(id, _) => ClosedBy(Unleased(s, id), RecordOf(s, e).value)
    case Bury(id, _) => ClosedBy(Unleased(s, id), RecordOf(s, e).value)
    case ScheduleRetry(id, availableAt, wall) =>
      RetriedBy(Unleased(s, id), RecordOf(s, e).value, RetryEntry(availableAt, wall, id))
    case DropLease(id) => Unleased(s, id)
    case StaleOutcome => s.(stale := s.stale + 1)
    case PopRetry(entry) => Popped(s, entry)
    case Park(w) => s.(parked := s.parked + [w])
    case Unpark => s.(parked := s.parked[1..])
    case BeginShutdown(deadline) =>
      s.(shuttingDown := true, parked := [], shutdownDeadline := if s.leases == map[] then None else Some(deadline))
  }

  // ----- the invariant -----

  /** The configured queues. */
  ghost predicate ConfigInv(order: seq<QueueName>, cursor: nat, queues: set<QueueName>) {
    && Distinct(order)
    && queues == Elems(order)
    && (order != [] ==> cursor < |order|)
  }

  /** The log replays to the live store, up to due retries. */
  ghost predicate LogInv(store: Store, log: seq<Record>, nextEpoch: nat, tally: Tally) {
    && WellFormed(log)
    && Replay(log) == DurableView(store)
    && nextEpoch == TrackAll(log).maxEpoch + 1
    && tally == TallyOf(log)
  }

  /** A lease belongs to a running job and carries the epoch of its last lease record. */
  ghost predicate LeaseInv(leases: map<JobId, Lease>, t: Tracker) {
    forall id :: id in leases ==> id in t.running && leases[id].epoch == t.running[id].0
  }

  /** A ready deque holds exactly the queue's queued jobs, each once. */
  ghost predicate ReadyInv(store: Store, list: seq<JobId>, q: QueueName) {
    && Distinct(list)
    && forall id :: id in list <==> id in store && store[id].queue == q && store[id].state.Queued?
  }

  ghost predicate ReadyAll(store: Store, ready: map<QueueName, seq<JobId>>) {
    forall q :: q in ready ==> ReadyInv(store, ready[q], q)
  }

  ghost predicate QueuesKnown(store: Store, queues: set<QueueName>) {
    forall id :: id in store && !store[id].state.IsTerminal() ==> store[id].queue in queues
  }

  /** Every waiting job has exactly one heap entry; other entries belong to terminal jobs. */
  ghost predicate RetryInv(store: Store, retry: multiset<RetryEntry>) {
    && OneEntryEach(retry)
    && (forall e :: e in retry ==> EntryOwned(store, e.id))
    && (forall id :: id in store && store[id].state.RetryWaiting? ==> HasEntry(retry, id))
  }

  ghost predicate EntryOwned(store: Store, id: JobId) {
    id in store && (store[id].state.RetryWaiting? || store[id].state.IsTerminal())
  }

  ghost predicate OneEntryEach(retry: multiset<RetryEntry>) {
    && (forall e :: e in retry ==> retry[e] == 1)
    && (forall e, e' :: e in retry && e' in retry && e.id == e'.id ==> e == e')
  }

  ghost predicate HasEntry(retry: multiset<RetryEntry>, id: JobId) {
    exists e :: e in retry && e.id == id
  }

  ghost function Members(store: Store, q: QueueName, st: JobState): set<JobId> {
    set id | id in store && store[id].queue == q && store[id].state == st
  }

  /** The per-queue counters are the true counts. */
  ghost predicate StatsInv(store: Store, stats: map<QueueName, QueueStats>) {
    forall q, st :: q in stats ==> stats[q].Of(st) == |Members(store, q, st)|
  }

  ghost function Held(permits: map<JobId, QueueName>, q: QueueName): set<JobId> {
    set id | id in permits && permits[id] == q
  }

  /** Permits are held by exactly the live jobs submitted since start. */
  ghost predicate PermitInv(store: Store, permits: map<JobId, QueueName>, base: set<JobId>) {
    && base <= store.Keys
    && (forall id :: id in permits <==> id in store && !store[id].state.IsTerminal() && id !in base)
    && (forall id :: id in permits ==> permits[id] == store[id].queue)
  }

  /** No permit of a queue is lost or made up, and recovered live jobs are covered by the reserve. */
  ghost predicate SemAccount(store: Store, permits: map<JobId, QueueName>, sem: Sem, q: QueueName, base: set<JobId>) {
    && sem.available + sem.inFlight + |Held(permits, q)| + sem.reserved == sem.capacity
    && |LiveJobs(store, q) * base| <= sem.reserved
  }

  ghost predicate SemInv(store: Store, permits: map<JobId, QueueName>, sems: map<QueueName, Sem>, base: set<JobId>) {
    forall q :: q in sems ==> SemAccount(store, permits, sems[q], q, base)
  }

  ghost function NeverLeased(store: Store): set<JobId> {
    set id | id in store && store[id].attempts == 0
  }

  /** Restricted to jobs never leased, a ready deque is the order recovery would rebuild. */
  ghost predicate FifoInv(store: Store, ready: map<QueueName, seq<JobId>>, t: Tracker) {
    forall q :: q in ready ==> Only(ready[q], NeverLeased(store)) == Order(t, q)
  }

  ghost predicate Inv(s: State) {
    && ConfigInv(s.order, s.cursor, s.ready.Keys)
    && s.ready.Keys == s.stats.Keys == s.sems.Keys
    && LogInv(s.store, s.log, s.nextEpoch, s.tally)
    && LeaseInv(s.leases, TrackAll(s.log))
    && ReadyAll(s.store, s.ready)
    && QueuesKnown(s.store, s.ready.Keys)
    && RetryInv(s.store, s.retry)
    && StatsInv(s.store, s.stats)
    && PermitInv(s.store, s.permits, s.base)
    && SemInv(s.store, s.permits, s.sems, s.base)
    && FifoInv(s.store, s.ready, TrackAll(s.log))
    && (s.shuttingDown ==> s.parked == [])
  }
}
