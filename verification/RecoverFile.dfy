/** `recover` on the bytes of the log file: scan, repair, replay, reconcile, append, validate. */
module RecoverFile {
  import opened Types
  import opened Seqs
  import opened JobStore
  import opened Tracker
  import opened History
  import opened Reconcile
  import opened Recovery
  import opened RecoveryProc
  import opened CoordBoot
  import opened Codec
  import opened Scanner
  import opened WalFile
  import opened Runs

  datatype Failure = Wal(error: WalError) | Rejected(reason: RecoverError)

  datatype RecoverResult = Recovered(state: RecoveredState) | RecoveryFailed(failure: Failure)

  /** What the file starts with once its header is there and its tail is repaired. */
  ghost function Repaired(disk: seq<byte>, offset: nat): seq<byte> {
    if disk == [] then EncodeHeader() else Repair(disk, offset)
  }

  /** Everything a recovery may do to a file: `k` of its records are written when it returns. */
  ghost predicate RecoverSpec(f: Format, disk: seq<byte>, now: Millis, caps: map<QueueName, nat>,
                              visit: seq<JobId>, k: nat, disk': seq<byte>, res: RecoverResult)
  {
    var scan := ScanFile(f, disk);
    if scan.Corrupt? then disk' == disk && res == RecoveryFailed(Wal(scan.error))
    else
      && Visits(visit, TrackAll(scan.records))
      && var lost := Lost(scan.records, visit, now);
      && k <= |lost| && AllEncodable(f, lost[..k])
      && disk' == Repaired(disk, scan.offset) + EncodeLog(f, lost[..k], |scan.records| + 1)
      && match res
         case Recovered(state) =>
           && k == |lost| && RecoveredFrom(state, scan.records + lost)
           && state.nextSequence == |scan.records| + |lost| + 1 <= U64_MAX
           && Fits(state.store, state.queuedJobs, state.retryJobs, caps)
         case RecoveryFailed(Wal(e)) =>
           k < |lost| && EncodeFrame(f, Frame(|scan.records| + 1 + k, lost[k])) == Err(e)
         case RecoveryFailed(Rejected(reason)) => Justified(f, scan.records, lost, k, caps, reason)
  }

  ghost predicate Justified(f: Format, records: seq<Record>, lost: seq<Record>, k: nat, caps: map<QueueName, nat>,
                            reason: RecoverError) {
    match reason
    case SequenceExhausted => |records| + |lost| + 1 > U64_MAX
    case LeaseEpochExhausted => k == 0 && TrackAll(records).maxEpoch >= U64_MAX
    case _ => k == |lost| && Misfit(reason, records + lost, caps)
  }

  /** `scan_wal`. */
  method ScanWal(f: Format, file: seq<byte>) returns (res: Result<ScanResult>)
    ensures match ScanFile(f, file)
            case Corrupt(e) => res == Err(e)
            case Scanned(records, offset, truncated) =>
              && res == Ok(ScanResult(records, |records|, TrackAll(records).maxEpoch, offset, truncated))
              && |records| < U64_MAX
              && (!truncated ==> Repair(file, offset) == file)
  {
    assert TrackAll([]).maxEpoch == 0;
    hide ScanFrom, DecodeHeader, TrackAll;
    if file == [] {
      return Ok(ScanResult([], 0, 0, 0, false));
    }
    if |file| < HEADER_SIZE {
      return Err(InvalidWalHeader);
    }
    var header := DecodeHeader(file[..HEADER_SIZE]);
    if header.Err? {
      return Err(header.error);
    }
    res := ScanFrames(f, file[HEADER_SIZE..]);
    if res.Ok? {
      ScannersAgree(f, file[HEADER_SIZE..], 1);
    }
  }

  /** A new file: there is nothing to find. */
  lemma FreshSpec(f: Format, now: Millis, caps: map<QueueName, nat>, state: RecoveredState)
    requires state == RecoveredState(map[], map[], [], 1, 1, Tally(0, 0, 0, 0, 0))
    ensures RecoverSpec(f, [], now, caps, [], 0, EncodeHeader(), Recovered(state))
    ensures RecoveredFrom(state, [])
  {
    var none: seq<Record> := [];
    assert Visits([], TrackAll(none)) && Lost(none, [], now) == none;
    assert none[..0] == none && none + none == none && EncodeHeader() + [] == EncodeHeader();
    assert RecoveredFrom(state, none);
  }

  class LogFile {
    var bytes: seq<byte>

    constructor (bytes: seq<byte>)
      ensures this.bytes == bytes
    {
      this.bytes := bytes;
    }

    /** The loop that writes the reconciliation records. */
    method AppendRecords(f: Format, records: seq<Record>, start: nat) returns (err: Option<Failure>, ghost k: nat)
      requires start <= U64_MAX
      modifies this
      ensures k <= |records| && AllEncodable(f, records[..k])
      ensures bytes == old(bytes) + EncodeLog(f, records[..k], start)
      ensures match err
              case None => k == |records| && start + |records| <= U64_MAX
              case Some(Wal(e)) => k < |records| && EncodeFrame(f, Frame(start + k, records[k])) == Err(e)
              case Some(Rejected(e)) => e == SequenceExhausted && start + |records| > U64_MAX
    {
      hide FrameBytes;
      k := 0;
      var next := start;
      assert bytes + [] == bytes && records[..0] == [];
      for i := 0 to |records|
        invariant k == i && next == start + i <= U64_MAX && AllEncodable(f, records[..i])
        invariant bytes == old(bytes) + EncodeLog(f, records[..i], start)
      {
        var frame := AppendFields(f, Frame(next, records[i]));
        if frame.Err? {
          return Some(Wal(frame.error)), k;
        }
        assert records[..i + 1] == records[..i] + [records[i]];
        EncodeLogSnoc(f, records[..i], records[i], start);
        bytes := bytes + frame.value;
        k := i + 1;
        if next == U64_MAX {
          return Some(Rejected(SequenceExhausted)), k;
        }
        next := next + 1;
      }
      assert records[..|records|] == records;
      return None, k;
    }

    /** `recover`. */
    method Recover(f: Format, now: Millis, caps: map<QueueName, nat>)
      returns (res: RecoverResult, ghost visit: seq<JobId>, ghost k: nat)
      modifies this
      ensures RecoverSpec(f, old(bytes), now, caps, visit, k, bytes, res)
    {
      hide ScanFrom, Repair, EncodeLog, Visits, TrackAll, Replay, LostLeases, RecoveredFrom, Fits, ScanFile;
      if bytes == [] {
        var header := FillHeader();
        bytes := header[..];
        visit, k := [], 0;
        res := Recovered(RecoveredState(map[], map[], [], 1, 1, Tally(0, 0, 0, 0, 0)));
        FreshSpec(f, now, caps, res.state);
        return;
      }
      ghost var disk := bytes;
      var scan := ScanWal(f, bytes);
      if scan.Err? {
        visit, k := [], 0;
        res := RecoveryFailed(Wal(scan.error));
        return;
      }
      var records := scan.value.records;
      if scan.value.hadTruncatedTail {
        bytes := Repair(bytes, scan.value.lastValidOffset);
      }
      var rebuilt, lost;
      rebuilt, lost, visit := Rebuild(records, scan.value.lastSequence, now, caps);
      var err;
      err, k := AppendRecords(f, lost, |records| + 1);
      res := match err
        case Some(e) => RecoveryFailed(e)
        case None =>
          match rebuilt
          case Failed(e) => RecoveryFailed(Rejected(e))
          case Rebuilt(state) => Recovered(state);
      ghost var all := Lost(records, visit, now);
      assert all[..k] == lost[..k];
    }
  }

  // ----- what follows -----

  /** Enough room for the sequence numbers and the epoch that recovery needs, and records that
      can be framed. */
  ghost predicate Recoverable(f: Format, log: seq<Record>, visit: seq<JobId>, now: Millis)
    requires Visits(visit, TrackAll(log))
  {
    && AllEncodable(f, Lost(log, visit, now))
    && Room(log + Lost(log, visit, now))
    && TrackAll(log).maxEpoch < U64_MAX
  }

  /** After any crash, `recover` with the configuration last in use succeeds, leaves exactly the
      file of the log with every lost lease settled, and what it returns is what a restart needs. */
  lemma RecoverSucceeds(f: Format, x: Sys, now: Millis, visit: seq<JobId>, k: nat, disk': seq<byte>,
                        res: RecoverResult)
    requires SysInv(f, x) && x.Down? && RecoverSpec(f, x.disk, now, x.caps, visit, k, disk', res)
    requires Visits(visit, TrackAll(DurableLog(f, x))) && Recoverable(f, DurableLog(f, x), visit, now)
    ensures res.Recovered?
    ensures var log' := DurableLog(f, x) + Lost(DurableLog(f, x), visit, now);
            && AllEncodable(f, log') && disk' == FileBytes(f, log')
            && RecoveredFrom(res.state, log') && res.state.nextSequence == |log'| + 1
            && Fits(res.state.store, res.state.queuedJobs, res.state.retryJobs, x.caps)
  {
    hide ScanFile, Repair, EncodeLog, WellFormed, LiveFits, TrackAll, Replay, LostLeases, Visits, RecoveredFrom, Fits;
    var log := DurableLog(f, x);
    var lost := Lost(log, visit, now);
    if res.RecoveryFailed? && res.failure.Rejected? &&
       (res.failure.reason.QueueNotFound? || res.failure.reason.CapacityExceeded?) {
      var rec :| RecoveredFrom(rec, log + lost) && !Fits(rec.store, rec.queuedJobs, rec.retryJobs, x.caps);
      RestartAlwaysFits(f, x, visit, now, rec);
    }
    assert lost[..|lost|] == lost;
    assert forall i :: 0 <= i < |lost| ==> lost[i] in lost && Encodable(f, lost[i]);
    if x.disk != [] {
      RecoveryFile(f, x, visit, now);
    } else {
      FreshFile(f, x, visit, now);
    }
  }

  lemma Inhabited(s: seq<JobId>)
    requires s != []
    ensures exists x :: x in s
  {
    assert s[0] in s;
  }

  lemma FreshFile(f: Format, x: Sys, visit: seq<JobId>, now: Millis)
    requires x.Down? && x.disk == [] && Visits(visit, TrackAll(DurableLog(f, x)))
    ensures var log' := DurableLog(f, x) + Lost(DurableLog(f, x), visit, now);
            && log' == [] && AllEncodable(f, log')
            && Repaired(x.disk, ScanFile(f, x.disk).offset) + EncodeLog(f, [], 1) == FileBytes(f, log')
  {
    assert DurableLog(f, x) == [];
    assert TrackAll([]).running == map[];
    if visit != [] { Inhabited(visit); }
    assert Lost([], [], now) == [];
  }

  /** The successful recovery is the restart step of the system, for every order of the queues. */
  lemma RecoverIsRestart(f: Format, x: Sys, now: Millis, visit: seq<JobId>, k: nat, disk': seq<byte>,
                         res: RecoverResult,
                         order: seq<QueueName>, start: Instant, wallNow: Millis)
    requires SysInv(f, x) && x.Down? && RecoverSpec(f, x.disk, now, x.caps, visit, k, disk', res)
    requires Visits(visit, TrackAll(DurableLog(f, x))) && Recoverable(f, DurableLog(f, x), visit, now)
    requires Distinct(order) && x.caps.Keys == Elems(order)
    ensures res.Recovered?
    ensures forall q :: q in x.caps ==>
              Demand(res.state.store, res.state.queuedJobs, res.state.retryJobs, q) <= x.caps[q]
    ensures var log' := DurableLog(f, x) + Lost(DurableLog(f, x), visit, now);
            Next(f, x, Restart(visit, now, res.state, order, x.caps, start, wallNow),
                 Up(Boot(res.state, log', order, x.caps, start, wallNow)))
  {
    hide ScanFile, Repair, EncodeLog, WellFormed, LiveFits, TrackAll, Replay, LostLeases, Visits, RecoveredFrom,
         Fits, Demand, RecoverSpec, Distinct, FileBytes;
    RecoverSucceeds(f, x, now, visit, k, disk', res);
    forall q | q in x.caps ensures Demand(res.state.store, res.state.queuedJobs, res.state.retryJobs, q) <= x.caps[q] {
      ReservationFits(res.state, x.caps, q);
    }
  }

  /** Recovering the recovered file again leaves every byte as it is and gives the same store. */
  lemma RecoverTwice(f: Format, x: Sys, now: Millis, visit: seq<JobId>, k: nat, disk': seq<byte>, res: RecoverResult,
                     now': Millis, visit': seq<JobId>, k': nat, disk'': seq<byte>, res': RecoverResult)
    requires Faithful(f) && SysInv(f, x) && x.Down? && RecoverSpec(f, x.disk, now, x.caps, visit, k, disk', res)
    requires Visits(visit, TrackAll(DurableLog(f, x))) && Recoverable(f, DurableLog(f, x), visit, now)
    requires RecoverSpec(f, disk', now', x.caps, visit', k', disk'', res')
    ensures res.Recovered? && res'.Recovered? && disk'' == disk' && res'.state.store == res.state.store
  {
    hide ScanFile, Repair, EncodeLog, WellFormed, LiveFits, TrackAll, Replay, LostLeases, Visits, Fits,
         IsQueuedLists, IsRetryList, Faithful, FileBytes, AllEncodable;
    RecoverSucceeds(f, x, now, visit, k, disk', res);
    var log := DurableLog(f, x);
    var log' := log + Lost(log, visit, now);
    var y := RecoveredDisk(f, x, visit, now, disk');
    SecondRecoveryAppendsNothing(log, visit, now, visit', now');
    SameEpoch(log, visit, now);
    assert log' + [] == log';
    NothingToEncode(f);
    RecoverSucceeds(f, y, now', visit', k', disk'', res');
  }

  lemma NothingToEncode(f: Format)
    ensures AllEncodable(f, [])
  {
  }

  lemma SameEpoch(log: seq<Record>, visit: seq<JobId>, now: Millis)
    requires WellFormed(log) && Visits(visit, TrackAll(log))
    ensures TrackAll(log + Lost(log, visit, now)).maxEpoch == TrackAll(log).maxEpoch
  {
    hide WellFormed, Replay, TrackAll, LostLeases;
    LostLeasesLegal(log, visit, now);
  }

  /** The recovered file is itself recoverable, and holds exactly the recovered log. */
  lemma RecoveredDisk(f: Format, x: Sys, visit: seq<JobId>, now: Millis, disk': seq<byte>) returns (y: Sys)
    requires Faithful(f) && SysInv(f, x) && x.Down? && Visits(visit, TrackAll(DurableLog(f, x)))
    requires Recoverable(f, DurableLog(f, x), visit, now)
    requires AllEncodable(f, DurableLog(f, x) + Lost(DurableLog(f, x), visit, now))
    requires disk' == FileBytes(f, DurableLog(f, x) + Lost(DurableLog(f, x), visit, now))
    ensures y == Down(disk', x.caps) && SysInv(f, y)
    ensures DurableLog(f, y) == DurableLog(f, x) + Lost(DurableLog(f, x), visit, now)
    ensures disk' != []
  {
    hide ScanFile, Repair, EncodeLog, WellFormed, LiveFits, TrackAll, Replay, LostLeases, Visits, Faithful;
    y := Down(disk', x.caps);
    var log' := DurableLog(f, x) + Lost(DurableLog(f, x), visit, now);
    assert log'[..|log'|] == log' && FileBytes(f, log')[..|disk'|] == disk';
    var m := CutBehind(f, log', |log'|, |disk'|);
    FullyReconciled(DurableLog(f, x), visit, now, x.caps);
    FileNotEmpty(f, log', |disk'|);
  }

  /** A file whose scan fails is refused with that error, and not a byte of it is touched. */
  lemma CorruptFileRefused(f: Format, disk: seq<byte>, e: WalError, now: Millis, caps: map<QueueName, nat>,
                           visit: seq<JobId>, k: nat, disk': seq<byte>, res: RecoverResult)
    requires |disk| >= HEADER_SIZE && disk[..HEADER_SIZE] == EncodeHeader()
    requires ScanFrom(f, disk[HEADER_SIZE..], 1) == Corrupt(e)
    requires RecoverSpec(f, disk, now, caps, visit, k, disk', res)
    ensures disk' == disk && res == RecoveryFailed(Wal(e))
  {
    hide ScanFrom, DecodeHeader, Fits, RecoveredFrom, LostLeases, EncodeLog, AllEncodable, Justified;
    HeaderAccepted(EncodeHeader());
  }

  /** A file with a damaged checksum anywhere, in front of anything, is refused. */
  lemma DamagedFileRefused(f: Format, log: seq<Record>, r: Record, c: seq<byte>, rest: seq<byte>,
                           now: Millis, caps: map<QueueName, nat>, visit: seq<JobId>, k: nat, disk: seq<byte>,
                           disk': seq<byte>, res: RecoverResult)
    requires Faithful(f) && AllEncodable(f, log) && Encodable(f, r) && |log| + 1 < U64_MAX
    requires |c| == 4 && c != ToLE(f.crc(FrameBody(f, Frame(|log| + 1, r))), 4)
    requires disk == FileBytes(f, log) + (FrameBody(f, Frame(|log| + 1, r)) + c + rest)
    requires RecoverSpec(f, disk, now, caps, visit, k, disk', res)
    ensures disk' == disk
    ensures res == RecoveryFailed(Wal(ChecksumMismatch(FromLE(c), f.crc(FrameBody(f, Frame(|log| + 1, r))))))
  {
    hide ScanFrom, EncodeLog, FrameBody, Faithful, Encodable, RecoverSpec, ToLE, FromLE, EncodeHeader;
    var bad := FrameBody(f, Frame(|log| + 1, r)) + c + rest;
    DamagedFrame(f, log, r, c, rest);
    assert disk == EncodeHeader() + (EncodeLog(f, log, 1) + bad);
    assert disk[..HEADER_SIZE] == EncodeHeader() && disk[HEADER_SIZE..] == EncodeLog(f, log, 1) + bad;
    CorruptFileRefused(f, disk, ChecksumMismatch(FromLE(c), f.crc(FrameBody(f, Frame(|log| + 1, r)))),
                       now, caps, visit, k, disk', res);
  }
}
