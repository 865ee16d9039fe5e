/** Scanning a log file: which bytes are whole frames, what a cut leaves, and why
    appending after a repair always scans again. */
module Scanner {
  import opened Types
  import opened Codec

  /** What a scan of a buffer finds: the records, the bytes they take, and whether more bytes follow. */
  datatype Scan = Scanned(records: seq<Record>, offset: nat, truncated: bool) | Corrupt(error: WalError)

  function Prepend(records: seq<Record>, size: nat, rest: Scan): Scan {
    match rest
    case Scanned(more, offset, truncated) => Scanned(records + more, size + offset, truncated)
    case Corrupt(e) => rest
  }

  /** `scan_frames`, from the expected sequence number `n` on. */
  function ScanFrom(f: Format, buf: seq<byte>, n: nat): (s: Scan)
    ensures s.Scanned? ==> s.offset <= |buf| && (s.truncated <==> s.offset < |buf|)
    decreases |buf|
  {
    if buf == [] then Scanned([], 0, false)
    else if |buf| < 4 then Scanned([], 0, true)
    else
      var len := FromLE(buf[..4]);
      if len > MAX_RECORD_SIZE then Corrupt(RecordTooLarge(len))
      else if |buf| < FRAME_OVERHEAD + len then Scanned([], 0, true)
      else
        match DecodeFrame(f, buf)
        case Err(TruncatedFrame) => Scanned([], 0, true)
        case Err(e) => Corrupt(e)
        case Ok((frame, size)) =>
          if frame.sequence != n then Corrupt(SequenceViolation(n, frame.sequence))
          else if n >= U64_MAX then Corrupt(SequenceViolation(U64_MAX, 0))
          else Prepend([frame.record], size, ScanFrom(f, buf[size..], n + 1))
  }

  /** The whole frames of a log, numbered from `n`. */
  function EncodeLog(f: Format, log: seq<Record>, n: nat): seq<byte>
    requires forall r :: r in log ==> Encodable(f, r)
  {
    if log == [] then []
    else FrameBytes(f, Frame(n, log[0])) + EncodeLog(f, log[1..], n + 1)
  }

  lemma {:induction false} EncodeLogSnoc(f: Format, log: seq<Record>, r: Record, n: nat)
    requires (forall x :: x in log ==> Encodable(f, x)) && Encodable(f, r)
    ensures EncodeLog(f, log + [r], n) == EncodeLog(f, log, n) + FrameBytes(f, Frame(n + |log|, r))
  {
    if log == [] {
      assert log + [r] == [r] && [r][1..] == [];
    } else {
      assert (log + [r])[0] == log[0] && (log + [r])[1..] == log[1..] + [r];
      EncodeLogSnoc(f, log[1..], r, n + 1);
    }
  }

  /** One frame in front: the scan takes it and goes on. */
  lemma ScanFrame(f: Format, buf: seq<byte>, n: nat)
    requires DecodeFrame(f, buf).Ok? && DecodeFrame(f, buf).value.0.sequence == n < U64_MAX
    ensures var (frame, size) := DecodeFrame(f, buf).value;
            ScanFrom(f, buf, n) == Prepend([frame.record], size, ScanFrom(f, buf[size..], n + 1))
  {
  }

  /** What a successful scan says about the first bytes. */
  lemma ScanInversion(f: Format, buf: seq<byte>, n: nat)
    requires ScanFrom(f, buf, n).Scanned?
    ensures ScanFrom(f, buf, n).records == [] ==> ScanFrom(f, buf, n).offset == 0
    ensures ScanFrom(f, buf, n).records != [] ==>
              DecodeFrame(f, buf).Ok? && DecodeFrame(f, buf).value.0.sequence == n < U64_MAX
  {
  }

  lemma ScanNothing(f: Format, n: nat)
    ensures ScanFrom(f, [], n) == Scanned([], 0, false)
  {
  }

  /** A clean stretch of frames scans the same in front of anything. */
  lemma {:induction false} ScanConcat(f: Format, a: seq<byte>, b: seq<byte>, n: nat)
    requires ScanFrom(f, a, n).Scanned? && !ScanFrom(f, a, n).truncated
    ensures var s := ScanFrom(f, a, n);
            ScanFrom(f, a + b, n) == Prepend(s.records, |a|, ScanFrom(f, b, n + |s.records|))
    decreases |a|
  {
    hide ScanFrom, DecodeFrame;
    ScanNothing(f, n);
    ScanInversion(f, a, n);
    if a == [] {
      assert a + b == b;
      var rest := ScanFrom(f, b, n);
      assert rest.Scanned? ==> [] + rest.records == rest.records;
    } else {
      var (frame, size) := DecodeFrame(f, a).value;
      assert (a + b)[..size] == a[..size] && (a + b)[size..] == a[size..] + b;
      DecodeIsLocal(f, a, a + b);
      ScanFrame(f, a + b, n);
      ScanFrame(f, a, n);
      ScanConcat(f, a[size..], b, n + 1);
      var tail := ScanFrom(f, a[size..], n + 1);
      var rest := ScanFrom(f, b, n + 1 + |tail.records|);
      assert rest.Scanned? ==>
               [frame.record] + (tail.records + rest.records) == ([frame.record] + tail.records) + rest.records;
    }
  }

  /** Scanning is stable under repair, on arbitrary bytes: cut at the last whole frame, the
      buffer scans to the same records with a clean tail. */
  lemma {:induction false} ScanOfRepaired(f: Format, buf: seq<byte>, n: nat)
    requires ScanFrom(f, buf, n).Scanned?
    ensures var s := ScanFrom(f, buf, n);
            ScanFrom(f, buf[..s.offset], n) == Scanned(s.records, s.offset, false)
    ensures n <= U64_MAX ==> n + |ScanFrom(f, buf, n).records| <= U64_MAX
    decreases |buf|
  {
    hide ScanFrom, DecodeFrame;
    var s := ScanFrom(f, buf, n);
    ScanInversion(f, buf, n);
    if s.records == [] {
      assert buf[..0] == [];
      ScanNothing(f, n);
    } else {
      var (frame, size) := DecodeFrame(f, buf).value;
      ScanFrame(f, buf, n);
      var tail := ScanFrom(f, buf[size..], n + 1);
      assert s.offset == size + tail.offset;
      var cut := buf[..s.offset];
      ScanOfRepaired(f, buf[size..], n + 1);
      assert cut[..size] == buf[..size] && cut[size..] == buf[size..][..tail.offset];
      DecodeIsLocal(f, buf, cut);
      ScanFrame(f, cut, n);
    }
  }

  /** After repair, appending the next frame scans to the records plus the new one. */
  lemma AppendAfterRepair(f: Format, buf: seq<byte>, r: Record)
    requires Faithful(f) && Encodable(f, r) && ScanFrom(f, buf, 1).Scanned?
    requires |ScanFrom(f, buf, 1).records| + 1 < U64_MAX
    ensures var s := ScanFrom(f, buf, 1);
            var frame := FrameBytes(f, Frame(|s.records| + 1, r));
            ScanFrom(f, buf[..s.offset] + frame, 1) == Scanned(s.records + [r], s.offset + |frame|, false)
  {
    hide ScanFrom, DecodeFrame, FrameBytes, Faithful, Encodable;
    var s := ScanFrom(f, buf, 1);
    var frame := FrameBytes(f, Frame(|s.records| + 1, r));
    ScanOfRepaired(f, buf, 1);
    ScanConcat(f, buf[..s.offset], frame, 1);
    FrameRoundTrip(f, Frame(|s.records| + 1, r), []);
    assert frame + [] == frame;
    ScanFrame(f, frame, |s.records| + 1);
    assert frame[|frame|..] == [];
    ScanNothing(f, |s.records| + 2);
  }

  /** The frames of a log scan back to it. */
  lemma {:induction false} ScanOfLog(f: Format, log: seq<Record>, n: nat)
    requires Faithful(f) && (forall r :: r in log ==> Encodable(f, r)) && n + |log| <= U64_MAX
    ensures ScanFrom(f, EncodeLog(f, log, n), n) == Scanned(log, |EncodeLog(f, log, n)|, false)
  {
    hide ScanFrom, DecodeFrame, FrameBytes, Faithful;
    ScanNothing(f, n);
    if log != [] {
      var rest := EncodeLog(f, log[1..], n + 1);
      var frame := FrameBytes(f, Frame(n, log[0]));
      FrameRoundTrip(f, Frame(n, log[0]), rest);
      ScanFrame(f, frame + rest, n);
      assert (frame + rest)[|frame|..] == rest;
      ScanOfLog(f, log[1..], n + 1);
      assert [log[0]] + log[1..] == log;
    }
  }

  /** A proper prefix of one frame is a truncated tail, never an error. */
  lemma ScanOfCutFrame(f: Format, frame: Frame, cut: nat, n: nat)
    requires Faithful(f) && Encodable(f, frame.record) && cut < |FrameBytes(f, frame)|
    ensures ScanFrom(f, FrameBytes(f, frame)[..cut], n) == Scanned([], 0, cut > 0)
  {
    var bytes := FrameBytes(f, frame);
    var len := |f.ser(frame.record).value|;
    FrameFields(f, frame, []);
    assert bytes + [] == bytes;
    Powers();
    LERoundTrip(len, 4);
    if cut >= 4 { assert bytes[..cut][..4] == bytes[..4]; }
  }

  /** How many whole frames of a log lie before byte `cut`. */
  ghost function WholeFrames(f: Format, log: seq<Record>, n: nat, cut: nat): (m: nat)
    requires forall r :: r in log ==> Encodable(f, r)
    ensures m <= |log|
    ensures m == 0 || cut >= FRAME_OVERHEAD
  {
    if log == [] then 0
    else
      var size := |FrameBytes(f, Frame(n, log[0]))|;
      if cut < size then 0 else 1 + WholeFrames(f, log[1..], n + 1, cut - size)
  }

  /** The count is the largest that fits. */
  lemma {:induction false} WholeFramesFit(f: Format, log: seq<Record>, n: nat, cut: nat)
    requires forall r :: r in log ==> Encodable(f, r)
    ensures var m := WholeFrames(f, log, n, cut);
            && |EncodeLog(f, log[..m], n)| <= cut
            && (m < |log| ==> cut < |EncodeLog(f, log[..m + 1], n)|)
  {
    var m := WholeFrames(f, log, n, cut);
    if log != [] {
      var size := |FrameBytes(f, Frame(n, log[0]))|;
      if cut < size {
        assert log[..1] == [log[0]] && log[..1][1..] == [];
      } else {
        WholeFramesFit(f, log[1..], n + 1, cut - size);
        assert log[..m][1..] == log[1..][..m - 1];
        if m < |log| { assert log[..m + 1][1..] == log[1..][..m]; }
      }
    }
  }

  /** Cut the frames of a log at any byte: the scan finds exactly the whole frames before
      the cut, ends at their end, and reports a truncated tail exactly when the cut lies
      inside a frame. */
  lemma {:induction false} ScanOfCutLog(f: Format, log: seq<Record>, n: nat, cut: nat)
    requires Faithful(f) && (forall r :: r in log ==> Encodable(f, r)) && n + |log| <= U64_MAX
    requires cut <= |EncodeLog(f, log, n)|
    ensures var m := WholeFrames(f, log, n, cut);
            var size := |EncodeLog(f, log[..m], n)|;
            ScanFrom(f, EncodeLog(f, log, n)[..cut], n) == Scanned(log[..m], size, cut != size)
  {
    hide ScanFrom, DecodeFrame, FrameBytes, Faithful;
    ScanNothing(f, n);
    if log == [] {
      assert EncodeLog(f, log, n)[..cut] == [];
    } else {
      var frame := FrameBytes(f, Frame(n, log[0]));
      var rest := EncodeLog(f, log[1..], n + 1);
      if cut < |frame| {
        assert (frame + rest)[..cut] == frame[..cut];
        ScanOfCutFrame(f, Frame(n, log[0]), cut, n);
      } else {
        var tail := rest[..cut - |frame|];
        assert (frame + rest)[..cut] == frame + tail;
        FrameRoundTrip(f, Frame(n, log[0]), tail);
        ScanFrame(f, frame + tail, n);
        assert (frame + tail)[|frame|..] == tail;
        ScanOfCutLog(f, log[1..], n + 1, cut - |frame|);
        var m := WholeFrames(f, log, n, cut);
        assert log[..m] == [log[0]] + log[1..][..m - 1];
        assert log[..m][1..] == log[1..][..m - 1];
      }
    }
  }

  // ----- corruption -----

  /** A frame behind a log that cannot be taken, and is not just cut short, makes the whole scan fail. */
  lemma ScanFailsAt(f: Format, log: seq<Record>, bad: seq<byte>, e: WalError)
    requires Faithful(f) && (forall r :: r in log ==> Encodable(f, r)) && |log| + 1 < U64_MAX
    requires ScanFrom(f, bad, |log| + 1) == Corrupt(e)
    ensures ScanFrom(f, EncodeLog(f, log, 1) + bad, 1) == Corrupt(e)
  {
    hide ScanFrom, EncodeLog, Encodable;
    ScanOfLog(f, log, 1);
    ScanConcat(f, EncodeLog(f, log, 1), bad, 1);
  }

  /** A damaged checksum anywhere in the file is corruption, not a truncated tail. */
  lemma DamagedFrame(f: Format, log: seq<Record>, r: Record, c: seq<byte>, rest: seq<byte>)
    requires Faithful(f) && (forall x :: x in log ==> Encodable(f, x)) && Encodable(f, r) && |log| + 1 < U64_MAX
    requires |c| == 4 && c != ToLE(f.crc(FrameBody(f, Frame(|log| + 1, r))), 4)
    ensures ScanFrom(f, EncodeLog(f, log, 1) + (FrameBody(f, Frame(|log| + 1, r)) + c + rest), 1)
         == Corrupt(ChecksumMismatch(FromLE(c), f.crc(FrameBody(f, Frame(|log| + 1, r)))))
  {
    hide EncodeLog;
    var frame := Frame(|log| + 1, r);
    var bad := FrameBody(f, frame) + c + rest;
    DamagedChecksum(f, frame, c, rest);
    LengthField(f, frame, c + rest);
    assert FrameBody(f, frame) + (c + rest) == bad;
    ScanFailsAt(f, log, bad, ChecksumMismatch(FromLE(c), f.crc(FrameBody(f, frame))));
  }

  lemma LengthField(f: Format, frame: Frame, rest: seq<byte>)
    requires Encodable(f, frame.record)
    ensures FromLE((FrameBody(f, frame) + rest)[..4]) == |f.ser(frame.record).value|
  {
    BodyFields(f, frame, rest);
  }

  /** A frame with any number but the next one is corruption. */
  lemma WrongNumber(f: Format, log: seq<Record>, frame: Frame, rest: seq<byte>)
    requires Faithful(f) && (forall x :: x in log ==> Encodable(f, x)) && Encodable(f, frame.record)
    requires |log| + 1 < U64_MAX && frame.sequence <= U64_MAX && frame.sequence != |log| + 1
    ensures ScanFrom(f, EncodeLog(f, log, 1) + (FrameBytes(f, frame) + rest), 1)
         == Corrupt(SequenceViolation(|log| + 1, frame.sequence))
  {
    hide EncodeLog;
    FrameRoundTrip(f, frame, rest);
    LengthField(f, frame, []);
    FrameFields(f, frame, rest);
    FrameFields(f, frame, []);
    Powers();
    LERoundTrip(|f.ser(frame.record).value|, 4);
    ScanFailsAt(f, log, FrameBytes(f, frame) + rest, SequenceViolation(|log| + 1, frame.sequence));
  }
}
