/** The log file: the scan loop of recovery, the writer's own scan loop, repair, and the
    writer thread with its possible failures. */
module WalFile {
  import opened Types
  import opened Tracker
  import opened Codec
  import opened Scanner

  datatype ScanResult = ScanResult(
    records: seq<Record>, lastSequence: nat, maxLeaseEpoch: nat, lastValidOffset: nat, hadTruncatedTail: bool)

  datatype Round = Stop | Fail(error: WalError) | Take(record: Record, size: nat)

  /** One round of the scan loop on what remains of the buffer. */
  method ReadFrame(f: Format, remaining: seq<byte>, expectedSeq: nat) returns (round: Round)
    requires remaining != []
    ensures match round
            case Stop => ScanFrom(f, remaining, expectedSeq) == Scanned([], 0, true)
            case Fail(e) => ScanFrom(f, remaining, expectedSeq) == Corrupt(e)
            case Take(r, size) =>
              && 0 < size <= |remaining|
              && ScanFrom(f, remaining, expectedSeq)
                 == Prepend([r], size, ScanFrom(f, remaining[size..], expectedSeq + 1))
  {
    hide DecodeFrame, FromLE;
    if |remaining| < 4 {
      return Stop;
    }
    var len := FromLE(remaining[..4]);
    if len > MAX_RECORD_SIZE {
      return Fail(RecordTooLarge(len));
    }
    if |remaining| < FRAME_OVERHEAD + len {
      return Stop;
    }
    var decoded := DecodeFrame(f, remaining);
    match decoded {
      case Ok((frame, consumed)) =>
        if frame.sequence != expectedSeq {
          return Fail(SequenceViolation(expectedSeq, frame.sequence));
        }
        if expectedSeq >= U64_MAX {
          return Fail(SequenceViolation(U64_MAX, 0));
        }
        return Take(frame.record, consumed);
      case Err(TruncatedFrame) =>
        return Stop;
      case Err(e) =>
        return Fail(e);
    }
  }

  lemma PrependTwice(records: seq<Record>, offset: nat, r: Record, size: nat, rest: Scan)
    ensures Prepend(records, offset, Prepend([r], size, rest)) == Prepend(records + [r], offset + size, rest)
  {
    assert rest.Scanned? ==> records + ([r] + rest.records) == (records + [r]) + rest.records;
  }

  lemma PrependNothing(records: seq<Record>, offset: nat, rest: Scan)
    ensures Prepend([], 0, rest) == rest
    ensures forall t :: Prepend(records, offset, Scanned([], 0, t)) == Scanned(records, offset, t)
  {
    assert rest.Scanned? ==> [] + rest.records == rest.records;
    assert records + [] == records;
  }

  lemma EpochSnoc(records: seq<Record>, r: Record)
    ensures TrackAll(records + [r]).maxEpoch
         == if r.JobLeased? && r.epoch > TrackAll(records).maxEpoch then r.epoch else TrackAll(records).maxEpoch
  {
    TrackSnoc(records, r);
  }

  /** After `offset` bytes, what has been read and what remains make up the scan. */
  ghost predicate Progress(f: Format, buf: seq<byte>, records: seq<Record>, offset: nat, maxLeaseEpoch: nat) {
    && offset <= |buf|
    && maxLeaseEpoch == TrackAll(records).maxEpoch
    && ScanFrom(f, buf, 1) == Prepend(records, offset, ScanFrom(f, buf[offset..], |records| + 1))
  }

  lemma NoProgress(f: Format, buf: seq<byte>)
    ensures Progress(f, buf, [], 0, 0)
  {
    assert buf[0..] == buf;
    PrependNothing([], 0, ScanFrom(f, buf, 1));
  }

  lemma MoreProgress(f: Format, buf: seq<byte>, records: seq<Record>, offset: nat, maxLeaseEpoch: nat, r: Record,
                     size: nat)
    requires Progress(f, buf, records, offset, maxLeaseEpoch) && offset + size <= |buf|
    requires ScanFrom(f, buf[offset..], |records| + 1)
             == Prepend([r], size, ScanFrom(f, buf[offset..][size..], |records| + 2))
    ensures Progress(f, buf, records + [r], offset + size,
                     if r.JobLeased? && r.epoch > maxLeaseEpoch then r.epoch else maxLeaseEpoch)
  {
    hide ScanFrom, Prepend, TrackAll;
    assert buf[offset..][size..] == buf[offset + size..];
    PrependTwice(records, offset, r, size, ScanFrom(f, buf[offset + size..], |records| + 2));
    EpochSnoc(records, r);
  }

  /** The scan ends at the end of the buffer, or where a frame is not whole. */
  lemma ScanEnds(f: Format, buf: seq<byte>, records: seq<Record>, offset: nat, maxLeaseEpoch: nat, truncated: bool)
    requires Progress(f, buf, records, offset, maxLeaseEpoch)
    requires if truncated then ScanFrom(f, buf[offset..], |records| + 1) == Scanned([], 0, true) else offset == |buf|
    ensures ScanFrom(f, buf, 1) == Scanned(records, offset, truncated) && maxLeaseEpoch == TrackAll(records).maxEpoch
  {
    hide ScanFrom, TrackAll;
    ScanNothing(f, |records| + 1);
    assert !truncated ==> buf[offset..] == [];
    PrependNothing(records, offset, Scanned([], 0, truncated));
  }

  /** `scan_frames`: the loop computes the scan; the last sequence number is the number of
      records, and the greatest lease epoch is the one the recovery tracker finds. */
  method ScanFrames(f: Format, buf: seq<byte>) returns (res: Result<ScanResult>)
    ensures match ScanFrom(f, buf, 1)
            case Corrupt(e) => res == Err(e)
            case Scanned(records, offset, truncated) =>
              res == Ok(ScanResult(records, |records|, TrackAll(records).maxEpoch, offset, truncated))
  {
    hide ScanFrom, TrackAll, Prepend, Progress;
    NoProgress(f, buf);
    var records: seq<Record> := [];
    var lastSequence, maxLeaseEpoch: nat, offset, expectedSeq := 0, 0, 0, 1;
    var truncated := false;
    while offset < |buf| && !truncated
      invariant offset <= |buf| && expectedSeq == |records| + 1 && lastSequence == |records|
      invariant Progress(f, buf, records, offset, maxLeaseEpoch)
      invariant truncated ==> ScanFrom(f, buf[offset..], expectedSeq) == Scanned([], 0, true)
      decreases |buf| - offset, !truncated
    {
      var round := ReadFrame(f, buf[offset..], expectedSeq);
      match round {
        case Stop =>
          truncated := true;
        case Fail(e) =>
          ScanFails(f, buf, records, offset, maxLeaseEpoch, e);
          return Err(e);
        case Take(record, size) =>
          MoreProgress(f, buf, records, offset, maxLeaseEpoch, record, size);
          if record.JobLeased? && record.epoch > maxLeaseEpoch {
            maxLeaseEpoch := record.epoch;
          }
          lastSequence := expectedSeq;
          expectedSeq := expectedSeq + 1;
          records := records + [record];
          offset := offset + size;
      }
    }
    ScanEnds(f, buf, records, offset, maxLeaseEpoch, truncated);
    return Ok(ScanResult(records, lastSequence, maxLeaseEpoch, offset, truncated));
  }

  lemma ScanFails(f: Format, buf: seq<byte>, records: seq<Record>, offset: nat, maxLeaseEpoch: nat, e: WalError)
    requires Progress(f, buf, records, offset, maxLeaseEpoch)
    requires ScanFrom(f, buf[offset..], |records| + 1) == Corrupt(e)
    ensures ScanFrom(f, buf, 1) == Corrupt(e)
  {
    hide ScanFrom;
  }

  // ----- the writer's own scan -----

  function MaxSequence(f: Format, buf: seq<byte>, m: nat): Result<nat>
    decreases |buf|
  {
    if buf == [] then Ok(m)
    else
      match DecodeFrame(f, buf)
      case Ok((frame, size)) => MaxSequence(f, buf[size..], if frame.sequence > m then frame.sequence else m)
      case Err(TruncatedFrame) => Ok(m)
      case Err(e) => Err(e)
  }

  /** `scan_for_next_sequence`. */
  method NextSequence(f: Format, buf: seq<byte>) returns (res: Result<nat>)
    ensures match MaxSequence(f, buf, 0) case Ok(m) => res == Ok(m + 1) case Err(e) => res == Err(e)
  {
    hide DecodeFrame;
    var offset, maxSeq: nat := 0, 0;
    assert buf[0..] == buf;
    while offset < |buf|
      invariant offset <= |buf|
      invariant MaxSequence(f, buf, 0) == MaxSequence(f, buf[offset..], maxSeq)
      decreases |buf| - offset
    {
      var decoded := DecodeFrame(f, buf[offset..]);
      match decoded {
        case Ok((frame, consumed)) =>
          assert buf[offset..][consumed..] == buf[offset + consumed..];
          if frame.sequence > maxSeq {
            maxSeq := frame.sequence;
          }
          offset := offset + consumed;
        case Err(TruncatedFrame) =>
          break;
        case Err(e) =>
          return Err(e);
      }
    }
    return Ok(maxSeq + 1);
  }

  lemma ScanStops(f: Format, buf: seq<byte>, n: nat)
    requires ScanFrom(f, buf, n).Scanned? && ScanFrom(f, buf, n).records == [] && buf != []
    ensures DecodeFrame(f, buf) == Err(TruncatedFrame)
  {
  }

  /** The two scanners agree: wherever recovery's scan succeeds, the writer's succeeds, and the
      sequence number it continues with is the one after the last record, and fits 64 bits. */
  lemma {:induction false} ScannersAgree(f: Format, buf: seq<byte>, n: nat)
    requires 1 <= n <= U64_MAX && ScanFrom(f, buf, n).Scanned?
    ensures MaxSequence(f, buf, n - 1) == Ok(n - 1 + |ScanFrom(f, buf, n).records|)
    ensures n + |ScanFrom(f, buf, n).records| <= U64_MAX
    decreases |buf|
  {
    hide DecodeFrame, ScanFrom;
    ScanInversion(f, buf, n);
    var s := ScanFrom(f, buf, n);
    if s.records == [] {
      if buf != [] { ScanStops(f, buf, n); }
    } else {
      var (frame, size) := DecodeFrame(f, buf).value;
      ScanFrame(f, buf, n);
      ScannersAgree(f, buf[size..], n + 1);
    }
  }

  // ----- the whole file -----

  ghost predicate AllEncodable(f: Format, log: seq<Record>) {
    forall r :: r in log ==> Encodable(f, r)
  }

  ghost function FileBytes(f: Format, log: seq<Record>): seq<byte>
    requires AllEncodable(f, log)
  {
    EncodeHeader() + EncodeLog(f, log, 1)
  }

  /** `scan_wal` on the file's contents. */
  function ScanFile(f: Format, file: seq<byte>): Scan {
    if file == [] then Scanned([], 0, false)
    else if |file| < HEADER_SIZE then Corrupt(InvalidWalHeader)
    else
      match DecodeHeader(file[..HEADER_SIZE])
      case Err(e) => Corrupt(e)
      case Ok(_) => ScanFrom(f, file[HEADER_SIZE..], 1)
  }

  /** `repair_truncated_tail`. */
  function Repair(file: seq<byte>, offset: nat): seq<byte> {
    if |file| <= HEADER_SIZE + offset then file else file[..HEADER_SIZE + offset]
  }

  /** A file cut at any byte behind its header scans to the whole frames before the cut,
      and repair leaves exactly the file of those records. */
  lemma ScanOfCutFile(f: Format, log: seq<Record>, cut: nat)
    requires Faithful(f) && AllEncodable(f, log) && |log| < U64_MAX
    requires HEADER_SIZE <= cut <= |FileBytes(f, log)|
    ensures var m := WholeFrames(f, log, 1, cut - HEADER_SIZE);
            var file := FileBytes(f, log)[..cut];
            var s := ScanFile(f, file);
            && s == Scanned(log[..m], |EncodeLog(f, log[..m], 1)|, file != FileBytes(f, log[..m]))
            && Repair(file, s.offset) == FileBytes(f, log[..m])
  {
    hide ScanFrom, WholeFrames, Faithful, EncodeLog, FrameBytes, Encodable;
    var frames := EncodeLog(f, log, 1);
    var m, file := WholeFrames(f, log, 1, cut - HEADER_SIZE), FileBytes(f, log)[..cut];
    assert file[..HEADER_SIZE] == EncodeHeader();
    HeaderAccepted(EncodeHeader());
    assert file[HEADER_SIZE..] == frames[..cut - HEADER_SIZE];
    ScanOfCutLog(f, log, 1, cut - HEADER_SIZE);
    EncodeLogPrefix(f, log, m, 1);
    var kept := EncodeLog(f, log[..m], 1);
    WholeFramesFit(f, log, 1, cut - HEADER_SIZE);
    assert frames[..|kept|] == kept;
    assert FileBytes(f, log)[..HEADER_SIZE + |kept|] == FileBytes(f, log[..m]);
    assert file[..HEADER_SIZE + |kept|] == FileBytes(f, log[..m]);
    if cut == HEADER_SIZE + |kept| {
      assert file == FileBytes(f, log[..m]);
    }
  }

  lemma {:induction false} EncodeLogPrefix(f: Format, log: seq<Record>, m: nat, n: nat)
    requires AllEncodable(f, log) && m <= |log|
    ensures EncodeLog(f, log[..m], n) <= EncodeLog(f, log, n)
  {
    if m > 0 {
      EncodeLogPrefix(f, log[1..], m - 1, n + 1);
      assert log[..m][1..] == log[1..][..m - 1];
    }
  }

  /** A file cut inside its header is lost: exactly the cuts that leave between one and nine
      bytes cannot be recovered. */
  lemma CutInsideHeader(f: Format, log: seq<Record>, cut: nat)
    requires Faithful(f) && AllEncodable(f, log) && |log| < U64_MAX && cut <= |FileBytes(f, log)|
    ensures ScanFile(f, FileBytes(f, log)[..cut]).Scanned? <==> cut == 0 || cut >= HEADER_SIZE
  {
    if cut >= HEADER_SIZE { ScanOfCutFile(f, log, cut); }
  }

  // ----- the writer thread -----

  /** How an append may end: acknowledged; refused with nothing written; written in full but
      not acknowledged, because the sync failed. */
  datatype Outcome = Acked | Refused | Unsynced

  datatype Attempt = Attempt(record: Record, outcome: Outcome)

  class WriterThread {
    var file: seq<byte>
    var nextSeq: nat

    constructor (file: seq<byte>, nextSeq: nat)
      ensures this.file == file && this.nextSeq == nextSeq
    {
      this.file, this.nextSeq := file, nextSeq;
    }

    /** `process_write`, where the environment decides whether the append or the sync fails. The
        sequence number advances only when the record is synced. */
    method ProcessWrite(f: Format, r: Record, failAppend: bool, failSync: bool)
      returns (res: Option<nat>, ghost outcome: Outcome)
      modifies this
      ensures outcome == if failAppend || !Encodable(f, r) then Refused else if failSync then Unsynced else Acked
      ensures res == if outcome.Acked? then Some(old(nextSeq)) else None
      ensures nextSeq == old(nextSeq) + if outcome.Acked? then 1 else 0
      ensures file == old(file) + if outcome.Refused? then [] else FrameBytes(f, Frame(old(nextSeq), r))
    {
      if failAppend {
        return None, Refused;
      }
      var seqNo := nextSeq;
      var encoded := AppendFields(f, Frame(seqNo, r));
      if encoded.Err? {
        return None, Refused;
      }
      file := file + encoded.value;
      if failSync {
        return None, Unsynced;
      }
      nextSeq := nextSeq + 1;
      return Some(seqNo), Acked;
    }

    /** The thread's loop over its requests; the two flags of a request are the faults it meets. */
    method Run(f: Format, requests: seq<(Record, bool, bool)>, ghost past: seq<Attempt>)
      returns (replies: seq<Option<nat>>, ghost attempts: seq<Attempt>)
      requires Wrote(f, past, file, nextSeq)
      modifies this
      ensures |attempts| == |replies| == |requests| && Wrote(f, past + attempts, file, nextSeq)
      ensures forall i :: 0 <= i < |requests| ==> Answers(requests[i].0, attempts[i], replies[i])
    {
      hide Encodable, FrameBytes, Wrote;
      replies, attempts := [], [];
      assert past + [] == past;
      for i := 0 to |requests|
        invariant |attempts| == |replies| == i && Wrote(f, past + attempts, file, nextSeq)
        invariant forall k :: 0 <= k < i ==> Answers(requests[k].0, attempts[k], replies[k])
      {
        var reply;
        ghost var outcome, before, n := Acked, file, nextSeq;
        reply, outcome := ProcessWrite(f, requests[i].0, requests[i].1, requests[i].2);
        ghost var a := Attempt(requests[i].0, outcome);
        WroteMore(f, past + attempts, before, n, a);
        assert past + (attempts + [a]) == (past + attempts) + [a];
        attempts, replies := attempts + [a], replies + [reply];
      }
    }
  }

  ghost predicate Answers(r: Record, a: Attempt, reply: Option<nat>) {
    a.record == r && (a.outcome.Acked? <==> reply.Some?)
  }

  /** A file and a sequence number are what the attempts so far have made of them. */
  ghost predicate Wrote(f: Format, past: seq<Attempt>, file: seq<byte>, nextSeq: nat) {
    Writable(f, past) && file == EncodeHeader() + Disk(f, past) && nextSeq == |AckedRecords(past)| + 1
  }

  lemma WroteMore(f: Format, past: seq<Attempt>, file: seq<byte>, nextSeq: nat, a: Attempt)
    requires Wrote(f, past, file, nextSeq) && (a.outcome.Refused? || Encodable(f, a.record))
    ensures Wrote(f, past + [a],
                  file + if a.outcome.Refused? then [] else FrameBytes(f, Frame(nextSeq, a.record)),
                  nextSeq + if a.outcome.Acked? then 1 else 0)
  {
    hide Encodable, FrameBytes, Writable, Disk, AckedRecords;
    DiskSnoc(f, past, a);
    Appended(EncodeHeader(), Disk(f, past), if a.outcome.Refused? then [] else FrameBytes(f, Frame(nextSeq, a.record)));
  }

  lemma DiskSnoc(f: Format, attempts: seq<Attempt>, a: Attempt)
    requires Writable(f, attempts) && (a.outcome.Refused? || Encodable(f, a.record))
    ensures Writable(f, attempts + [a])
    ensures AckedRecords(attempts + [a]) == AckedRecords(attempts) + if a.outcome.Acked? then [a.record] else []
    ensures Disk(f, attempts + [a])
         == Disk(f, attempts) +
            if a.outcome.Refused? then [] else FrameBytes(f, Frame(|AckedRecords(attempts)| + 1, a.record))
  {
    hide Encodable, FrameBytes;
    var all := attempts + [a];
    assert all[..|attempts|] == attempts && all[|attempts|] == a;
    assert forall x :: x in all ==> x in attempts || x == a;
    if a.outcome.Refused? {
      assert Disk(f, all) == Disk(f, attempts) == Disk(f, attempts) + [];
    }
  }

  lemma Appended(header: seq<byte>, a: seq<byte>, b: seq<byte>)
    ensures header + (a + b) == (header + a) + b
  {
  }

  function AckedRecords(attempts: seq<Attempt>): seq<Record> {
    if attempts == [] then []
    else
      var recs, a := AckedRecords(attempts[..|attempts| - 1]), attempts[|attempts| - 1];
      if a.outcome.Acked? then recs + [a.record] else recs
  }

  function WrittenRecords(attempts: seq<Attempt>): seq<Record> {
    if attempts == [] then []
    else
      var recs, a := WrittenRecords(attempts[..|attempts| - 1]), attempts[|attempts| - 1];
      if a.outcome.Refused? then recs else recs + [a.record]
  }

  ghost predicate Writable(f: Format, attempts: seq<Attempt>) {
    forall a :: a in attempts && !a.outcome.Refused? ==> Encodable(f, a.record)
  }

  /** The frames on disk after a sequence of appends to a fresh log, as `ProcessWrite` leaves them. */
  ghost function Disk(f: Format, attempts: seq<Attempt>): seq<byte>
    requires Writable(f, attempts)
  {
    if attempts == [] then []
    else
      var init, a := attempts[..|attempts| - 1], attempts[|attempts| - 1];
      if a.outcome.Refused? then Disk(f, init)
      else Disk(f, init) + FrameBytes(f, Frame(|AckedRecords(init)| + 1, a.record))
  }

  ghost predicate HasUnsynced(attempts: seq<Attempt>) {
    exists i :: 0 <= i < |attempts| && attempts[i].outcome.Unsynced?
  }

  /** Nothing is written after a failed sync. */
  ghost predicate Quiet(attempts: seq<Attempt>) {
    forall i, j :: 0 <= i < j < |attempts| && attempts[i].outcome.Unsynced? ==> attempts[j].outcome.Refused?
  }

  lemma {:induction false} QuietDisk(f: Format, attempts: seq<Attempt>)
    requires Writable(f, attempts) && Quiet(attempts)
    ensures AllEncodable(f, WrittenRecords(attempts))
    ensures Disk(f, attempts) == EncodeLog(f, WrittenRecords(attempts), 1)
    ensures AckedRecords(attempts) <= WrittenRecords(attempts)
    ensures |WrittenRecords(attempts)| == |AckedRecords(attempts)| + if HasUnsynced(attempts) then 1 else 0
  {
    hide EncodeLog, FrameBytes, Encodable, HasUnsynced, Quiet;
    if attempts == [] {
      NothingWritten(f);
    } else {
      var init, a := attempts[..|attempts| - 1], attempts[|attempts| - 1];
      QuietInit(attempts);
      QuietDisk(f, init);
      UnsyncedSnoc(attempts);
      if !a.outcome.Refused? {
        QuietBefore(attempts);
        EncodeLogSnoc(f, WrittenRecords(init), a.record, 1);
      }
    }
  }

  lemma NothingWritten(f: Format)
    ensures EncodeLog(f, [], 1) == [] && !HasUnsynced([])
  {
  }

  lemma QuietInit(attempts: seq<Attempt>)
    requires attempts != [] && Quiet(attempts)
    ensures Quiet(attempts[..|attempts| - 1])
  {
  }

  lemma QuietBefore(attempts: seq<Attempt>)
    requires attempts != [] && Quiet(attempts) && !attempts[|attempts| - 1].outcome.Refused?
    ensures !HasUnsynced(attempts[..|attempts| - 1])
  {
  }

  lemma UnsyncedSnoc(attempts: seq<Attempt>)
    requires attempts != []
    ensures HasUnsynced(attempts) <==>
              HasUnsynced(attempts[..|attempts| - 1]) || attempts[|attempts| - 1].outcome.Unsynced?
  {
  }

  lemma {:induction false} NoisyDisk(f: Format, attempts: seq<Attempt>, rest: seq<byte>)
    requires Faithful(f) && Writable(f, attempts) && !Quiet(attempts) && |attempts| < U64_MAX
    ensures ScanFrom(f, Disk(f, attempts) + rest, 1).Corrupt?
  {
    hide ScanFrom, FrameBytes, Encodable, EncodeLog, Faithful;
    var init, a := attempts[..|attempts| - 1], attempts[|attempts| - 1];
    if !Quiet(init) {
      if a.outcome.Refused? {
        NoisyDisk(f, init, rest);
      } else {
        var frame := FrameBytes(f, Frame(|AckedRecords(init)| + 1, a.record));
        NoisyDisk(f, init, frame + rest);
        assert Disk(f, init) + (frame + rest) == (Disk(f, init) + frame) + rest;
      }
    } else {
      QuietDisk(f, init);
      WrittenLength(init);
      DuplicateSequence(f, WrittenRecords(init), a.record, rest);
      var frame := FrameBytes(f, Frame(|WrittenRecords(init)|, a.record));
      assert Disk(f, init) + (frame + rest) == (Disk(f, init) + frame) + rest;
    }
  }

  lemma {:induction false} WrittenLength(attempts: seq<Attempt>)
    ensures |AckedRecords(attempts)| <= |attempts| && |WrittenRecords(attempts)| <= |attempts|
  {
    if attempts != [] { WrittenLength(attempts[..|attempts| - 1]); }
  }

  /** A frame that repeats the last sequence number is corruption. */
  lemma DuplicateSequence(f: Format, log: seq<Record>, r: Record, rest: seq<byte>)
    requires Faithful(f) && AllEncodable(f, log) && Encodable(f, r) && 0 < |log| < U64_MAX
    ensures ScanFrom(f, EncodeLog(f, log, 1) + (FrameBytes(f, Frame(|log|, r)) + rest), 1).Corrupt?
  {
    hide EncodeLog;
    ScanOfLog(f, log, 1);
    ScanConcat(f, EncodeLog(f, log, 1), FrameBytes(f, Frame(|log|, r)) + rest, 1);
    FrameRoundTrip(f, Frame(|log|, r), rest);
  }

  /** The writer does not advance its sequence number after a failed sync, so the next append
      repeats it. The log can be recovered exactly when nothing was written after a failed sync;
      it then holds every acknowledged record and at most the one that failed to sync. */
  lemma RecoverableIffQuiet(f: Format, attempts: seq<Attempt>)
    requires Faithful(f) && Writable(f, attempts) && |attempts| + 1 < U64_MAX
    ensures ScanFrom(f, Disk(f, attempts), 1).Scanned? <==> Quiet(attempts)
    ensures Quiet(attempts) ==>
              && ScanFrom(f, Disk(f, attempts), 1).records == WrittenRecords(attempts)
              && AckedRecords(attempts) <= WrittenRecords(attempts)
              && |WrittenRecords(attempts)| == |AckedRecords(attempts)| + if HasUnsynced(attempts) then 1 else 0
  {
    hide ScanFrom, EncodeLog;
    if Quiet(attempts) {
      QuietDisk(f, attempts);
      WrittenLength(attempts);
      ScanOfLog(f, WrittenRecords(attempts), 1);
    } else {
      NoisyDisk(f, attempts, []);
      assert Disk(f, attempts) + [] == Disk(f, attempts);
    }
  }

  /** One failed sync followed by one acknowledged append: the acknowledged record is lost with
      the whole log. */
  lemma AckedButUnrecoverable(f: Format, r: Record, r': Record)
    requires Faithful(f) && Encodable(f, r) && Encodable(f, r')
    ensures var attempts := [Attempt(r, Unsynced), Attempt(r', Acked)];
            AckedRecords(attempts) == [r'] && ScanFrom(f, Disk(f, attempts), 1).Corrupt?
  {
    hide ScanFrom, Disk;
    var attempts := [Attempt(r, Unsynced), Attempt(r', Acked)];
    assert attempts[..1] == [Attempt(r, Unsynced)] && attempts[..1][..0] == [];
    assert AckedRecords(attempts[..1]) == [];
    assert attempts[0].outcome.Unsynced? && !attempts[1].outcome.Refused?;
    RecoverableIffQuiet(f, attempts);
  }

  // ----- the writer on a recovered file -----

  function AllAcked(log: seq<Record>): seq<Attempt> {
    if log == [] then [] else AllAcked(log[..|log| - 1]) + [Attempt(log[|log| - 1], Acked)]
  }

  lemma AllAckedSnoc(log: seq<Record>, r: Record)
    ensures AllAcked(log + [r]) == AllAcked(log) + [Attempt(r, Acked)]
  {
    assert (log + [r])[..|log|] == log;
  }

  lemma FileSnoc(f: Format, log: seq<Record>, r: Record)
    requires AllEncodable(f, log) && Encodable(f, r)
    ensures AllEncodable(f, log + [r])
    ensures FileBytes(f, log + [r]) == FileBytes(f, log) + FrameBytes(f, Frame(|log| + 1, r))
  {
    hide EncodeLog, FrameBytes, Encodable;
    EncodeLogSnoc(f, log, r, 1);
    Appended(EncodeHeader(), EncodeLog(f, log, 1), FrameBytes(f, Frame(|log| + 1, r)));
  }

  lemma FreshlyWritten(f: Format)
    ensures Wrote(f, [], FileBytes(f, []), 1) && !HasUnsynced([])
  {
  }

  /** The file of a log is what a writer has left that wrote the log and never failed. */
  lemma {:induction false} LogAsWritten(f: Format, log: seq<Record>)
    requires AllEncodable(f, log)
    ensures Wrote(f, AllAcked(log), FileBytes(f, log), |log| + 1)
    ensures AckedRecords(AllAcked(log)) == log && !HasUnsynced(AllAcked(log))
  {
    if log == [] {
      FreshlyWritten(f);
    } else {
      hide Encodable, FrameBytes, FileBytes, Wrote, AckedRecords, HasUnsynced, AllAcked;
      var init, r := log[..|log| - 1], log[|log| - 1];
      LogAsWritten(f, init);
      assert log == init + [r];
      var a := Attempt(r, Acked);
      AllAckedSnoc(init, r);
      FileSnoc(f, init, r);
      WroteMore(f, AllAcked(init), FileBytes(f, init), |init| + 1, a);
      DiskSnocAcked(AllAcked(init), a);
      NoFailure(AllAcked(init), [a]);
      OneAcked(r);
    }
  }

  lemma OneAcked(r: Record)
    ensures !HasUnsynced([Attempt(r, Acked)])
  {
  }

  lemma DiskSnocAcked(attempts: seq<Attempt>, a: Attempt)
    ensures AckedRecords(attempts + [a]) == AckedRecords(attempts) + if a.outcome.Acked? then [a.record] else []
  {
    assert (attempts + [a])[..|attempts|] == attempts;
  }

  lemma NoFailure(a: seq<Attempt>, b: seq<Attempt>)
    ensures HasUnsynced(a + b) <==> HasUnsynced(a) || HasUnsynced(b)
  {
    if i :| 0 <= i < |a| && a[i].outcome.Unsynced? { assert (a + b)[i] == a[i]; }
    if i :| 0 <= i < |b| && b[i].outcome.Unsynced? { assert (a + b)[|a| + i] == b[i]; }
  }

  lemma {:induction false} AckedConcat(a: seq<Attempt>, b: seq<Attempt>)
    ensures AckedRecords(a + b) == AckedRecords(a) + AckedRecords(b)
  {
    if b == [] {
      assert a + b == a;
    } else {
      var init, last := b[..|b| - 1], b[|b| - 1];
      AckedConcat(a, init);
      assert a + b == (a + init) + [last];
      DiskSnocAcked(a + init, last);
    }
  }

  /** A writer started on the file of a log, with the next sequence number, holds after any
      requests without a failed sync exactly the file of that log and the acknowledged records. */
  lemma WriterHoldsLog(f: Format, log: seq<Record>, attempts: seq<Attempt>, file: seq<byte>, nextSeq: nat)
    requires AllEncodable(f, log) && !HasUnsynced(attempts)
    requires Wrote(f, AllAcked(log) + attempts, file, nextSeq)
    ensures var log' := log + AckedRecords(attempts);
            AllEncodable(f, log') && file == FileBytes(f, log') && nextSeq == |log'| + 1
  {
    hide EncodeLog, FrameBytes, Encodable, Disk, HasUnsynced, AckedRecords, AllAcked, WrittenRecords, Writable;
    LogAsWritten(f, log);
    var all := AllAcked(log) + attempts;
    NoFailure(AllAcked(log), attempts);
    AckedConcat(AllAcked(log), attempts);
    SyncedIsQuiet(all);
    QuietDisk(f, all);
    assert AckedRecords(all) == WrittenRecords(all);
  }

  lemma SyncedIsQuiet(attempts: seq<Attempt>)
    requires !HasUnsynced(attempts)
    ensures Quiet(attempts)
  {
  }
}
