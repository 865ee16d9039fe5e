/** Whole runs: coordinator steps, crashes that leave any byte prefix past the acknowledged
    records, crashes in the middle of recovery, and restarts. */
module Runs {
  import opened Types
  import opened Seqs
  import opened JobStore
  import opened Tracker
  import opened History
  import opened HistoryLaws
  import opened Reconcile
  import opened Recovery
  import opened RecoveryProc
  import opened CoordSpec
  import opened CoordInv
  import opened CoordBoot
  import opened CoordLaws
  import opened Codec
  import opened Scanner
  import opened WalFile

  /** Running, or dead with what is left on disk. `caps` is the configuration last in use. */
  datatype Sys = Up(s: State) | Down(disk: seq<byte>, caps: map<QueueName, nat>)

  datatype Action =
    | Step(e: Event)
    | Crash(pending: Option<Event>, cut: nat)
    | CrashInRecovery(visit: seq<JobId>, wall: Millis, cut: nat)
    | Restart(visit: seq<JobId>, wall: Millis, rec: RecoveredState,
              order: seq<QueueName>, caps: map<QueueName, nat>, now: Instant, wallNow: Millis)

  /** Sequence numbers have room for one more record. */
  ghost predicate Room(log: seq<Record>) { |log| + 1 < U64_MAX }

  /** Storage can take the step's record. */
  ghost predicate Storable(f: Format, s: State, e: Event)
    requires Enabled(s, e)
  {
    RecordOf(s, e).Some? ==> Encodable(f, RecordOf(s, e).value) && |s.log| + 2 < U64_MAX
  }

  /** The log a step leaves once its record is on disk. */
  ghost function LogWith(s: State, e: Option<Event>): seq<Record>
    requires e.Some? ==> Enabled(s, e.value)
  {
    if e.Some? then Exec(s, e.value).log else s.log
  }

  /** The reconciliation records of one visit. */
  ghost function Lost(log: seq<Record>, visit: seq<JobId>, wall: Millis): seq<Record>
    requires Visits(visit, TrackAll(log))
  {
    LostLeases(Replay(log), TrackAll(log), visit, wall)
  }

  /** What is on disk when recovery has repaired the tail and written its records. */
  ghost function RecoveryBytes(f: Format, disk: seq<byte>, scan: Scan, visit: seq<JobId>, wall: Millis): seq<byte>
    requires scan.Scanned? && Visits(visit, TrackAll(scan.records)) && AllEncodable(f, Lost(scan.records, visit, wall))
  {
    Repair(disk, scan.offset) + EncodeLog(f, Lost(scan.records, visit, wall), |scan.records| + 1)
  }

  ghost predicate Next(f: Format, x: Sys, a: Action, y: Sys) {
    match a
    case Step(e) =>
      x.Up? && Enabled(x.s, e) && Storable(f, x.s, e) && y == Up(Exec(x.s, e))
    case Crash(e, cut) =>
      // at most one record is in flight; every byte of the acknowledged ones is synced
      && x.Up?
      && (e.Some? ==> Enabled(x.s, e.value) && Storable(f, x.s, e.value))
      && AllEncodable(f, x.s.log) && AllEncodable(f, LogWith(x.s, e))
      && |FileBytes(f, x.s.log)| <= cut <= |FileBytes(f, LogWith(x.s, e))|
      && y == Down(FileBytes(f, LogWith(x.s, e))[..cut], Caps(x.s))
    case CrashInRecovery(visit, wall, cut) =>
      && x.Down? && x.disk != []
      && var scan := ScanFile(f, x.disk);
      && scan.Scanned?
      && Visits(visit, TrackAll(scan.records))
      && AllEncodable(f, Lost(scan.records, visit, wall))
      && Room(scan.records + Lost(scan.records, visit, wall))
      && var bytes := RecoveryBytes(f, x.disk, scan, visit, wall);
      && |Repair(x.disk, scan.offset)| <= cut <= |bytes|
      && y == Down(bytes[..cut], x.caps)
    case Restart(visit, wall, rec, order, caps, now, wallNow) =>
      && x.Down?
      && var scan := ScanFile(f, x.disk);
      && scan.Scanned?
      && Visits(visit, TrackAll(scan.records))
      && AllEncodable(f, Lost(scan.records, visit, wall))
      && var log := scan.records + Lost(scan.records, visit, wall);
      && Room(log) && RecoveredFrom(rec, log)
      && Distinct(order) && caps.Keys == Elems(order)
      && Fits(rec.store, rec.queuedJobs, rec.retryJobs, caps)
      && (forall q :: q in caps ==> Demand(rec.store, rec.queuedJobs, rec.retryJobs, q) <= caps[q])
      && y == Up(Boot(rec, log, order, caps, now, wallNow))
  }

  /** The records that a recovery would find now. */
  ghost function DurableLog(f: Format, x: Sys): seq<Record> {
    match x
    case Up(s) => s.log
    case Down(disk, _) => if ScanFile(f, disk).Scanned? then ScanFile(f, disk).records else []
  }

  ghost predicate LogOk(f: Format, log: seq<Record>) {
    WellFormed(log) && AllEncodable(f, log) && Room(log)
  }

  ghost predicate SysInv(f: Format, x: Sys) {
    match x
    case Up(s) => Inv(s) && LogOk(f, s.log)
    case Down(disk, caps) =>
      var scan := ScanFile(f, disk);
      && scan.Scanned?
      && LogOk(f, scan.records)
      && (disk != [] ==> Repair(disk, scan.offset) == FileBytes(f, scan.records))
      && LiveFits(Replay(scan.records), caps)
  }

  // ----- bytes -----

  lemma {:induction false} WholeFramesAtLeast(f: Format, log: seq<Record>, n: nat, k: nat, cut: nat)
    requires AllEncodable(f, log) && k <= |log| && |EncodeLog(f, log[..k], n)| <= cut
    ensures WholeFrames(f, log, n, cut) >= k
  {
    if k > 0 {
      assert log[..k][1..] == log[1..][..k - 1] && log[..k][0] == log[0];
      WholeFramesAtLeast(f, log[1..], n + 1, k - 1, cut - |FrameBytes(f, Frame(n, log[0]))|);
    }
  }

  lemma {:induction false} EncodeLogConcat(f: Format, a: seq<Record>, b: seq<Record>, n: nat)
    requires AllEncodable(f, a) && AllEncodable(f, b)
    ensures AllEncodable(f, a + b)
    ensures EncodeLog(f, a + b, n) == EncodeLog(f, a, n) + EncodeLog(f, b, n + |a|)
  {
    hide FrameBytes, Encodable;
    if a == [] {
      assert a + b == b && EncodeLog(f, a, n) == [];
    } else {
      EncodeLogConcat(f, a[1..], b, n + 1);
      assert (a + b)[0] == a[0] && (a + b)[1..] == a[1..] + b;
      Appended(FrameBytes(f, Frame(n, a[0])), EncodeLog(f, a[1..], n + 1), EncodeLog(f, b, n + |a|));
    }
  }

  /** A file cut somewhere behind the frames of `log[..k]` is recoverable, and recovery finds
      at least those `k` records, and only records of `log`. */
  lemma CutBehind(f: Format, log: seq<Record>, k: nat, cut: nat) returns (m: nat)
    requires Faithful(f) && AllEncodable(f, log) && |log| < U64_MAX && k <= |log|
    requires |FileBytes(f, log[..k])| <= cut <= |FileBytes(f, log)|
    ensures k <= m <= |log|
    ensures ScanFile(f, FileBytes(f, log)[..cut]).Scanned?
    ensures ScanFile(f, FileBytes(f, log)[..cut]).records == log[..m]
    ensures Repair(FileBytes(f, log)[..cut], ScanFile(f, FileBytes(f, log)[..cut]).offset) == FileBytes(f, log[..m])
    ensures m == WholeFrames(f, log, 1, cut - HEADER_SIZE)
  {
    hide ScanFile, WholeFrames, Repair, Faithful;
    ScanOfCutFile(f, log, cut);
    m := WholeFrames(f, log, 1, cut - HEADER_SIZE);
    WholeFramesAtLeast(f, log, 1, k, cut - HEADER_SIZE);
  }

  // ----- a crash while running -----

  /** After a crash, recovery finds all acknowledged records, plus at most the one in flight. */
  lemma CrashLosesNothing(f: Format, x: Sys, a: Action, y: Sys)
    requires Faithful(f) && SysInv(f, x) && a.Crash? && Next(f, x, a, y)
    ensures SysInv(f, y)
    ensures DurableLog(f, y) == x.s.log || (a.pending.Some? && DurableLog(f, y) == Exec(x.s, a.pending.value).log)
  {
    hide Inv, ScanFile, Repair, Faithful, EncodeLog, WellFormed, LiveFits, Enabled, Exec, RecordOf, AllEncodable;
    var s := x.s;
    var log := LogWith(s, a.pending);
    if a.pending.Some? {
      StepLog(s, a.pending.value);
      StepKeepsInv(s, a.pending.value);
      SameCaps(s, a.pending.value);
      LogFits(Exec(s, a.pending.value));
      InvLog(Exec(s, a.pending.value));
    }
    LogFits(s);
    assert s.log <= log && |log| <= |s.log| + 1;
    assert log[..|s.log|] == s.log;
    var m := CutBehind(f, log, |s.log|, a.cut);
    assert log[..m] == s.log || log[..m] == log;
    if log[..m] != [] { FileNotEmpty(f, log, a.cut); }
  }

  lemma FileNotEmpty(f: Format, log: seq<Record>, cut: nat)
    requires AllEncodable(f, log) && HEADER_SIZE <= cut <= |FileBytes(f, log)|
    ensures FileBytes(f, log)[..cut] != []
  {
  }

  lemma InvLog(s: State)
    requires Inv(s)
    ensures WellFormed(s.log)
  {
  }

  lemma SameCaps(s: State, e: Event)
    requires Enabled(s, e)
    ensures Caps(Exec(s, e)) == Caps(s)
  {
    hide Exec, Enabled;
    StepLog(s, e);
    assert forall q :: q in s.sems ==> SameReserve(s.sems[q], Exec(s, e).sems[q]);
  }

  // ----- recovery, complete or interrupted -----

  /** Repaired and reconciled, the file is exactly the file of the recovered log. */
  lemma RecoveryFile(f: Format, x: Sys, visit: seq<JobId>, wall: Millis)
    requires SysInv(f, x) && x.Down? && x.disk != []
    requires Visits(visit, TrackAll(ScanFile(f, x.disk).records))
    requires AllEncodable(f, Lost(ScanFile(f, x.disk).records, visit, wall))
    ensures var log := ScanFile(f, x.disk).records;
            var log' := log + Lost(log, visit, wall);
            && AllEncodable(f, log')
            && RecoveryBytes(f, x.disk, ScanFile(f, x.disk), visit, wall) == FileBytes(f, log')
            && |Repair(x.disk, ScanFile(f, x.disk).offset)| == |FileBytes(f, log'[..|log|])|
  {
    hide ScanFile, Repair, EncodeLog, WellFormed, LiveFits, TrackAll, Replay, LostLeases, Visits;
    var log := ScanFile(f, x.disk).records;
    var recs := Lost(log, visit, wall);
    EncodeLogConcat(f, log, recs, 1);
    assert EncodeHeader() + (EncodeLog(f, log, 1) + EncodeLog(f, recs, 1 + |log|))
        == (EncodeHeader() + EncodeLog(f, log, 1)) + EncodeLog(f, recs, 1 + |log|);
    assert (log + recs)[..|log|] == log;
  }

  lemma FewerLiveFits(st: Store, st': Store, caps: map<QueueName, nat>)
    requires LiveFits(st, caps)
    requires forall q :: LiveJobs(st', q) <= LiveJobs(st, q)
    ensures LiveFits(st', caps)
  {
    hide LiveJobs;
    forall q
      ensures |LiveJobs(st', q)| <= |LiveJobs(st, q)|
    {
      assert LiveJobs(st, q) == LiveJobs(st', q) + (LiveJobs(st, q) - LiveJobs(st', q));
    }
  }

  lemma SettledFits(st: Store, ids: set<JobId>, caps: map<QueueName, nat>)
    requires LiveFits(st, caps)
    ensures LiveFits(SettledAmong(st, ids), caps) && LiveFits(SettledAll(st), caps)
  {
    hide LiveFits;
    FewerLiveFits(st, SettledAmong(st, ids), caps);
    FewerLiveFits(st, SettledAll(st), caps);
  }

  /** Any part of the reconciliation records, behind a well-formed log. */
  lemma PartlyReconciled(log: seq<Record>, visit: seq<JobId>, wall: Millis, k: nat, caps: map<QueueName, nat>)
    requires WellFormed(log) && LiveFits(Replay(log), caps)
    requires Visits(visit, TrackAll(log)) && k <= |Lost(log, visit, wall)|
    ensures var log' := log + Lost(log, visit, wall)[..k];
            && WellFormed(log') && LiveFits(Replay(log'), caps)
            && SettledAll(Replay(log')) == SettledAll(Replay(log))
            && forall q :: Order(TrackAll(log'), q) == Order(TrackAll(log), q)
  {
    hide WellFormed, LiveFits, LostLeases, SettledAmong, SettledAll;
    var st, t := Replay(log), TrackAll(log);
    var m := LostLeasesPrefix(st, t, visit, wall, k);
    hide Replay, TrackAll;
    PrefixDistinct(visit, m);
    ReplayLostLeases(log, st, t, visit[..m], wall);
    LostLeasesLegal(log, visit[..m], wall);
    SettlingTwice(st, Elems(visit[..m]));
    SettledFits(st, Elems(visit[..m]), caps);
    SettledOrder(log, visit[..m], wall);
  }

  /** Settling lost leases leaves the queued jobs and their order alone. */
  lemma SettledOrder(log: seq<Record>, visit: seq<JobId>, wall: Millis)
    requires WellFormed(log) && Distinct(visit) && forall id :: id in visit ==> id in TrackAll(log).running
    ensures var log' := log + LostLeases(Replay(log), TrackAll(log), visit, wall);
            forall q :: Order(TrackAll(log'), q) == Order(TrackAll(log), q)
  {
    hide WellFormed, LostLeases, Replay, TrackAll, SettledAmong, QueuedJobs, Distinct;
    var st, t := Replay(log), TrackAll(log);
    var recs := LostLeases(st, t, visit, wall);
    ReplayLostLeases(log, st, t, visit, wall);
    LostLeasesLegal(log, visit, wall);
    LostLeasesKinds(st, t, visit, wall);
    SettledQueued(st, Elems(visit));
    forall q ensures Order(TrackAll(log + recs), q) == Order(TrackAll(log), q) {
      OrderStays(log, recs, q);
    }
  }

  lemma SettledQueued(st: Store, ids: set<JobId>)
    ensures QueuedJobs(SettledAmong(st, ids)) == QueuedJobs(st)
  {
  }

  /** A recovery that dies half way, in any visiting order and at any byte, changes neither
      what the next one finds recoverable nor the state it will end in. */
  lemma InterruptedRecovery(f: Format, x: Sys, a: Action, y: Sys)
    requires Faithful(f) && SysInv(f, x) && a.CrashInRecovery? && Next(f, x, a, y)
    ensures SysInv(f, y) && DurableLog(f, x) <= DurableLog(f, y)
    ensures SettledAll(Replay(DurableLog(f, y))) == SettledAll(Replay(DurableLog(f, x)))
    ensures forall q :: Order(TrackAll(DurableLog(f, y)), q) == Order(TrackAll(DurableLog(f, x)), q)
  {
    hide ScanFile, Repair, Faithful, EncodeLog, WellFormed, LiveFits, TrackAll, Replay, LostLeases, Visits,
         SettledAll;
    var log := ScanFile(f, x.disk).records;
    var recs := Lost(log, a.visit, a.wall);
    RecoveryFile(f, x, a.visit, a.wall);
    var m := CutBehind(f, log + recs, |log|, a.cut);
    assert (log + recs)[..m] == log + recs[..m - |log|];
    PartlyReconciled(log, a.visit, a.wall, m - |log|, x.caps);
  }

  lemma {:induction false} FullyReconciled(log: seq<Record>, visit: seq<JobId>, wall: Millis,
                                           caps: map<QueueName, nat>)
    requires WellFormed(log) && Visits(visit, TrackAll(log))
    ensures var log' := log + Lost(log, visit, wall);
            && WellFormed(log')
            && Replay(log') == SettledAll(Replay(log))
            && forall id :: id in Replay(log') ==> !Replay(log')[id].state.Running?
    ensures LiveFits(Replay(log), caps) ==> LiveFits(Replay(log + Lost(log, visit, wall)), caps)
  {
    hide WellFormed, LiveFits, LostLeases, SettledAmong, SettledAll, Replay, TrackAll;
    ReplayLostLeases(log, Replay(log), TrackAll(log), visit, wall);
    VisitsAllRunning(log, visit);
    LostLeasesLegal(log, visit, wall);
    SettlingTwice(Replay(log), {});
    if LiveFits(Replay(log), caps) { SettledFits(Replay(log), {}, caps); }
  }

  /** A restart brings up a coordinator that satisfies the invariant, whose store is what the
      log says with every lost lease settled. */
  lemma RestartRestores(f: Format, x: Sys, a: Action, y: Sys)
    requires SysInv(f, x) && a.Restart? && Next(f, x, a, y)
    ensures SysInv(f, y) && DurableLog(f, x) <= DurableLog(f, y)
    ensures y.s.store == SettledAll(Replay(DurableLog(f, x)))
    ensures forall id :: id in a.rec.store ==> PlacedOnce(a.rec, id, a.rec.store[id])
  {
    hide ScanFile, Repair, EncodeLog, WellFormed, LiveFits, TrackAll, Replay, LostLeases, Visits, SettledAll, Fits,
         Demand, Inv, Distinct, PlacedOnce, IsQueuedLists, IsRetryList;
    var log := ScanFile(f, x.disk).records;
    var log' := log + Lost(log, a.visit, a.wall);
    FullyReconciled(log, a.visit, a.wall, map[]);
    BootInv(a.rec, log', a.order, a.caps, a.now, a.wallNow);
    forall id | id in a.rec.store ensures PlacedOnce(a.rec, id, a.rec.store[id]) {
      LiveJobsPlacedOnce(a.rec, log', id);
    }
  }

  /** After any crash, starting again with the same configuration passes validation: every
      recovered job's queue is configured and has room. */
  lemma RestartAlwaysFits(f: Format, x: Sys, visit: seq<JobId>, wall: Millis, rec: RecoveredState)
    requires SysInv(f, x) && x.Down?
    requires Visits(visit, TrackAll(DurableLog(f, x)))
    requires RecoveredFrom(rec, DurableLog(f, x) + Lost(DurableLog(f, x), visit, wall))
    ensures Fits(rec.store, rec.queuedJobs, rec.retryJobs, x.caps)
  {
    hide ScanFile, Repair, EncodeLog, WellFormed, LiveFits, TrackAll, Replay, LostLeases, Visits, SettledAll, Fits,
         IsQueuedLists, IsRetryList;
    var log := DurableLog(f, x);
    FullyReconciled(log, visit, wall, x.caps);
    FitsIsLiveFits(rec, log + Lost(log, visit, wall), x.caps);
  }

  // ----- whole runs -----

  lemma StepGrowsLog(f: Format, x: Sys, a: Action, y: Sys)
    requires SysInv(f, x) && a.Step? && Next(f, x, a, y)
    ensures SysInv(f, y) && DurableLog(f, x) <= DurableLog(f, y)
  {
    hide Inv, WellFormed, Enabled, Exec, RecordOf;
    StepKeepsInv(x.s, a.e);
    StepLog(x.s, a.e);
    InvLog(Exec(x.s, a.e));
  }

  lemma NextKeepsInv(f: Format, x: Sys, a: Action, y: Sys)
    requires Faithful(f) && SysInv(f, x) && Next(f, x, a, y)
    ensures SysInv(f, y) && DurableLog(f, x) <= DurableLog(f, y)
  {
    match a
    case Step(_) => StepGrowsLog(f, x, a, y);
    case Crash(_, _) =>
      CrashLosesNothing(f, x, a, y);
      if DurableLog(f, y) != x.s.log { StepLog(x.s, a.pending.value); }
    case CrashInRecovery(_, _, _) => InterruptedRecovery(f, x, a, y);
    case Restart(_, _, _, _, _, _, _) => RestartRestores(f, x, a, y);
  }

  /** A run starts with an empty directory. */
  ghost predicate IsRun(f: Format, xs: seq<Sys>, acts: seq<Action>) {
    && |xs| == |acts| + 1
    && xs[0].Down? && xs[0].disk == []
    && forall i :: 0 <= i < |acts| ==> Next(f, xs[i], acts[i], xs[i + 1])
  }

  lemma {:induction false} RunInv(f: Format, xs: seq<Sys>, acts: seq<Action>, j: nat)
    requires Faithful(f) && IsRun(f, xs, acts) && j < |xs|
    ensures SysInv(f, xs[j])
  {
    hide Next, Faithful;
    if j == 0 {
      assert Replay([]) == map[];
    } else {
      hide SysInv;
      RunInv(f, xs, acts, j - 1);
      NextKeepsInv(f, xs[j - 1], acts[j - 1], xs[j]);
    }
  }

  /** Nothing acknowledged is ever lost: through any number of steps, crashes at any byte,
      interrupted recoveries and restarts, the durable log only grows. */
  lemma {:induction false} NothingAcknowledgedIsLost(f: Format, xs: seq<Sys>, acts: seq<Action>, i: nat, j: nat)
    requires Faithful(f) && IsRun(f, xs, acts) && i <= j < |xs|
    ensures DurableLog(f, xs[i]) <= DurableLog(f, xs[j])
  {
    hide Next, SysInv, Faithful, DurableLog;
    if i < j {
      NothingAcknowledgedIsLost(f, xs, acts, i, j - 1);
      RunInv(f, xs, acts, j - 1);
      NextKeepsInv(f, xs[j - 1], acts[j - 1], xs[j]);
    }
  }

  /** In every reachable state, across any number of restarts, the log obeys all its laws: each
      job's history is in the language, attempts count leases within the budget, each lease is
      ended once and by its own epoch, first leases follow submission order, and the log is
      bounded by what was submitted. */
  lemma ReachableLogs(f: Format, xs: seq<Sys>, acts: seq<Action>, j: nat)
    requires Faithful(f) && IsRun(f, xs, acts) && j < |xs|
    ensures WellFormed(DurableLog(f, xs[j])) && LogLaws(DurableLog(f, xs[j]))
  {
    RunInv(f, xs, acts, j);
    hide IsRun, Faithful, WellFormed, Inv, LogLaws;
    WellFormedLaws(DurableLog(f, xs[j]));
  }

  // ----- queues through a restart -----

  /** The system goes down at `i` and tries to recover until `j`. */
  ghost predicate DownFrom(acts: seq<Action>, i: nat, j: nat) {
    && i < j <= |acts|
    && acts[i].Crash?
    && forall k :: i < k < j ==> acts[k].CrashInRecovery?
  }

  /** The state that a crash preserves: the last one, or the one after the step in flight if the
      record of that step survived. */
  ghost function Survivor(f: Format, x: Sys, a: Action, y: Sys): State
    requires x.Up? && a.Crash?
  {
    if a.pending.Some? && Enabled(x.s, a.pending.value) && DurableLog(f, y) != x.s.log
    then Exec(x.s, a.pending.value) else x.s
  }

  lemma SurvivorSound(f: Format, x: Sys, a: Action, y: Sys)
    requires Faithful(f) && SysInv(f, x) && a.Crash? && Next(f, x, a, y)
    ensures Inv(Survivor(f, x, a, y)) && DurableLog(f, y) == Survivor(f, x, a, y).log
    ensures Survivor(f, x, a, y).ready.Keys == x.s.ready.Keys
  {
    hide Inv, Faithful, Exec, Enabled, DurableLog;
    CrashLosesNothing(f, x, a, y);
    if a.pending.Some? {
      StepKeepsInv(x.s, a.pending.value);
      SameQueues(x.s, a.pending.value);
    }
  }

  lemma SameQueues(s: State, e: Event)
    requires Inv(s) && Enabled(s, e)
    ensures Exec(s, e).ready.Keys == s.ready.Keys
  {
    hide Exec, Enabled, Inv;
    StepKeepsInv(s, e);
    StepLog(s, e);
    QueuesAreSems(s);
    QueuesAreSems(Exec(s, e));
  }

  lemma QueuesAreSems(s: State)
    requires Inv(s)
    ensures s.ready.Keys == s.sems.Keys
  {
  }

  lemma NextShape(f: Format, x: Sys, a: Action, y: Sys)
    requires Next(f, x, a, y)
    ensures a.Crash? ==> x.Up?
  {
  }

  lemma {:induction false} OrderThroughCrashes(f: Format, xs: seq<Sys>, acts: seq<Action>, i: nat, j: nat,
                                               q: QueueName)
    requires Faithful(f) && IsRun(f, xs, acts) && DownFrom(acts, i, j)
    ensures xs[i].Up?
    ensures Order(TrackAll(DurableLog(f, xs[j])), q) == Order(TrackAll(Survivor(f, xs[i], acts[i], xs[i + 1]).log), q)
    decreases j
  {
    hide Faithful, SysInv, DurableLog, TrackAll, Replay, SettledAll, Survivor, Next;
    RunInv(f, xs, acts, j - 1);
    assert Next(f, xs[j - 1], acts[j - 1], xs[j]);
    NextShape(f, xs[j - 1], acts[j - 1], xs[j]);
    if j == i + 1 {
      SurvivorSound(f, xs[i], acts[i], xs[j]);
    } else {
      assert acts[j - 1].CrashInRecovery?;
      OrderThroughCrashes(f, xs, acts, i, j - 1, q);
      InterruptedRecovery(f, xs[j - 1], acts[j - 1], xs[j]);
    }
  }

  /** A restart gives each queue its ready deque back, in the same order, without the jobs that had
      been leased before: those wait for their retry. */
  lemma DequesThroughRestart(f: Format, xs: seq<Sys>, acts: seq<Action>, i: nat, j: nat, q: QueueName)
    requires Faithful(f) && IsRun(f, xs, acts) && DownFrom(acts, i, j) && j < |acts| && acts[j].Restart?
    ensures xs[i].Up? && xs[j + 1].Up?
    ensures var s := Survivor(f, xs[i], acts[i], xs[i + 1]);
            s.ready.Keys == xs[i].s.ready.Keys &&
            (q in s.ready && q in acts[j].caps ==>
               q in xs[j + 1].s.ready && xs[j + 1].s.ready[q] == Only(s.ready[q], NeverLeased(s.store)))
  {
    hide Faithful, TrackAll, Replay, SettledAll, Only, NeverLeased, Inv, ScanFile, LostLeases, Visits, WellFormed,
         RecoveredFrom, Fits, Demand, Distinct, Survivor;
    OrderThroughCrashes(f, xs, acts, i, j, q);
    RunInv(f, xs, acts, i);
    RunInv(f, xs, acts, j);
    assert Next(f, xs[i], acts[i], xs[i + 1]);
    SurvivorSound(f, xs[i], acts[i], xs[i + 1]);
    var s := Survivor(f, xs[i], acts[i], xs[i + 1]);
    assert Next(f, xs[j], acts[j], xs[j + 1]);
    if q in s.ready && q in acts[j].caps {
      RestartedDeque(f, xs[j], acts[j], xs[j + 1], q);
      DequeOrder(s, q);
    }
  }

  /** A restart makes each deque from the order that recovery tracks. */
  lemma RestartedDeque(f: Format, x: Sys, a: Action, y: Sys, q: QueueName)
    requires SysInv(f, x) && a.Restart? && Next(f, x, a, y) && q in a.caps
    ensures q in y.s.ready && y.s.ready[q] == Order(TrackAll(DurableLog(f, x)), q)
  {
    hide TrackAll, Replay, SettledAll, Inv, ScanFile, LostLeases, Visits, WellFormed, RecoveredFrom, Fits, Demand,
         Distinct, LiveFits;
    var log := DurableLog(f, x);
    FullyReconciled(log, a.visit, a.wall, map[]);
    QueuedListExact(a.rec, log + Lost(log, a.visit, a.wall), q);
    VisitIsDistinct(a.visit, TrackAll(log));
    SettledOrder(log, a.visit, a.wall);
  }

  lemma VisitIsDistinct(visit: seq<JobId>, t: Tracker)
    requires Visits(visit, t)
    ensures Distinct(visit) && forall id :: id in visit ==> id in t.running
  {
  }

  lemma DequeOrder(s: State, q: QueueName)
    requires Inv(s) && q in s.ready
    ensures Only(s.ready[q], NeverLeased(s.store)) == Order(TrackAll(s.log), q)
  {
    hide LogInv, LeaseInv, QueuesKnown, RetryInv, StatsInv, PermitInv, SemInv, ReadyAll, ConfigInv, Only, TrackAll,
         Replay;
  }

  /** In every reachable running state, replaying the log gives the live store on every job and
      field, up to retries that have come due. */
  lemma ReachableReplay(f: Format, xs: seq<Sys>, acts: seq<Action>, j: nat)
    requires Faithful(f) && IsRun(f, xs, acts) && j < |xs| && xs[j].Up?
    ensures Replay(xs[j].s.log) == DurableView(xs[j].s.store)
  {
    RunInv(f, xs, acts, j);
  }
}
