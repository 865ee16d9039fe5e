/** The byte format of the write-ahead log: little-endian integers, the file header and
    the record frame. The record serializer and the checksum are parameters. */
module Codec {
  import opened Types

  const HEADER_SIZE := 10
  const FRAME_OVERHEAD := 18
  const MAX_RECORD_SIZE := 1024 * 1024
  const RECORD_VERSION: byte := 1
  const WAL_VERSION := 1
  const WAL_MAGIC: seq<byte> := [0x52, 0x44, 0x51, 0x55, 0x45, 0x55, 0x45, 0x00]

  datatype WalError =
    | InvalidWalHeader
    | UnsupportedWalVersion(version: nat)
    | UnsupportedRecordVersion(recordVersion: byte)
    | RecordTooLarge(size: nat)
    | Serialization
    | ChecksumMismatch(stored: nat, computed: nat)
    | SequenceViolation(expected: nat, got: nat)
    | TruncatedFrame

  datatype Result<+T> = Ok(value: T) | Err(error: WalError)

  // ----- little-endian integers -----

  function Power256(k: nat): nat {
    if k == 0 then 1 else 256 * Power256(k - 1)
  }

  function ToLE(n: nat, k: nat): (s: seq<byte>)
    ensures |s| == k
  {
    if k == 0 then [] else [n % 256] + ToLE(n / 256, k - 1)
  }

  function FromLE(s: seq<byte>): nat {
    if s == [] then 0 else s[0] + 256 * FromLE(s[1..])
  }

  lemma {:induction false} LERoundTrip(n: nat, k: nat)
    requires n < Power256(k)
    ensures FromLE(ToLE(n, k)) == n
  {
    if k > 0 {
      LERoundTrip(n / 256, k - 1);
      assert ToLE(n, k)[1..] == ToLE(n / 256, k - 1);
    }
  }

  /** The other way round, for any bytes. */
  lemma {:induction false} LEBytes(s: seq<byte>)
    ensures ToLE(FromLE(s), |s|) == s && FromLE(s) < Power256(|s|)
  {
    if s != [] {
      LEBytes(s[1..]);
      assert FromLE(s) % 256 == s[0] && FromLE(s) / 256 == FromLE(s[1..]);
      assert s == [s[0]] + s[1..];
    }
  }

  /** The least significant byte comes first: two bytes are `s[0] + 256 * s[1]`, and so on. */
  lemma LittleEndian(s: seq<byte>)
    ensures |s| == 2 ==> FromLE(s) == (s[0] as int) + 0x100 * (s[1] as int)
    ensures |s| == 4 ==>
              FromLE(s) == (s[0] as int) + 0x100 * (s[1] as int) + 0x1_0000 * (s[2] as int) + 0x100_0000 * (s[3] as int)
    ensures |s| > 0 ==> FromLE(s) == (s[0] as int) + 0x100 * FromLE(s[1..])
  {
    if |s| == 2 || |s| == 4 {
      var t := s[1..];
      assert FromLE(t) == t[0] + 256 * FromLE(t[1..]) && t[0] == s[1];
      if |s| == 2 {
        assert t[1..] == [];
      } else {
        var u := t[1..];
        assert FromLE(u) == u[0] + 256 * FromLE(u[1..]) && u[0] == s[2];
        var v := u[1..];
        assert FromLE(v) == v[0] + 256 * FromLE(v[1..]) && v[0] == s[3] && v[1..] == [];
      }
    }
  }

  // ----- the header -----

  function EncodeHeader(): (s: seq<byte>)
    ensures |s| == HEADER_SIZE
  {
    WAL_MAGIC + ToLE(WAL_VERSION, 2)
  }

  function DecodeHeader(s: seq<byte>): Result<()>
    requires |s| == HEADER_SIZE
  {
    if s[..8] != WAL_MAGIC then Err(InvalidWalHeader)
    else if FromLE(s[8..]) != WAL_VERSION then Err(UnsupportedWalVersion(FromLE(s[8..])))
    else Ok(())
  }

  /** The header byte by byte: "RDQUEUE", a zero, and version 1. */
  lemma HeaderBytes()
    ensures EncodeHeader() == [0x52, 0x44, 0x51, 0x55, 0x45, 0x55, 0x45, 0x00, 0x01, 0x00]
  {
    assert ToLE(0, 1) == [0] && ToLE(WAL_VERSION, 2) == [1] + ToLE(0, 1);
  }

  /** Exactly the header that is written is accepted; other magic bytes and other versions are told
      apart. */
  lemma HeaderAccepted(s: seq<byte>)
    requires |s| == HEADER_SIZE
    ensures DecodeHeader(s).Ok? <==> s == EncodeHeader()
    ensures s[..8] != EncodeHeader()[..8] ==> DecodeHeader(s) == Err(InvalidWalHeader)
    ensures s[..8] == EncodeHeader()[..8] && s != EncodeHeader() ==>
              DecodeHeader(s) == Err(UnsupportedWalVersion((s[8] as int) + 0x100 * (s[9] as int)))
  {
    var h := EncodeHeader();
    assert h[..8] == WAL_MAGIC && h[8..] == ToLE(WAL_VERSION, 2);
    LERoundTrip(WAL_VERSION, 2);
    assert s == s[..8] + s[8..];
    var t := s[8..];
    LittleEndian(t);
    LEBytes(t);
  }

  // ----- frames -----

  /** The serializer and checksum in use. */
  datatype Format = Format(
    ser: Record -> Option<seq<byte>>,
    de: seq<byte> -> Option<Record>,
    crc: seq<byte> -> nat)

  /** What is assumed of them: decoding inverts encoding, and a checksum has 32 bits. */
  ghost predicate Faithful(f: Format) {
    && (forall r :: f.ser(r).Some? ==> f.de(f.ser(r).value) == Some(r))
    && (forall s :: f.crc(s) < Power256(4))
  }

  datatype Frame = Frame(sequence: nat, record: Record)

  /** The record can be framed. */
  predicate Encodable(f: Format, r: Record) {
    f.ser(r).Some? && |f.ser(r).value| <= MAX_RECORD_SIZE
  }

  function FrameBody(f: Format, frame: Frame): (s: seq<byte>)
    requires Encodable(f, frame.record)
    ensures |s| == 14 + |f.ser(frame.record).value|
  {
    var payload := f.ser(frame.record).value;
    ToLE(|payload|, 4) + [RECORD_VERSION] + [frame.record.RecordType()] + ToLE(frame.sequence, 8) + payload
  }

  function FrameBytes(f: Format, frame: Frame): (s: seq<byte>)
    requires Encodable(f, frame.record)
    ensures |s| == FRAME_OVERHEAD + |f.ser(frame.record).value|
  {
    var body := FrameBody(f, frame);
    body + ToLE(f.crc(body), 4)
  }

  /** `WalFrame::encode`. */
  function EncodeFrame(f: Format, frame: Frame): Result<seq<byte>> {
    if f.ser(frame.record).None? then Err(Serialization)
    else if |f.ser(frame.record).value| > MAX_RECORD_SIZE then Err(RecordTooLarge(|f.ser(frame.record).value|))
    else Ok(FrameBytes(f, frame))
  }

  /** `WalFrame::decode`: the frame and the number of bytes it takes. */
  function DecodeFrame(f: Format, buf: seq<byte>): (res: Result<(Frame, nat)>)
    ensures res.Ok? ==> FRAME_OVERHEAD <= res.value.1 <= |buf|
  {
    if |buf| < FRAME_OVERHEAD then Err(TruncatedFrame)
    else
      var len := FromLE(buf[..4]);
      if len > MAX_RECORD_SIZE then Err(RecordTooLarge(len))
      else if |buf| < FRAME_OVERHEAD + len then Err(TruncatedFrame)
      else if buf[4] != RECORD_VERSION then Err(UnsupportedRecordVersion(buf[4]))
      else
        var stored := FromLE(buf[14 + len..18 + len]);
        var computed := f.crc(buf[..14 + len]);
        if stored != computed then Err(ChecksumMismatch(stored, computed))
        else if f.de(buf[14..14 + len]).None? then Err(Serialization)
        else Ok((Frame(FromLE(buf[6..14]), f.de(buf[14..14 + len]).value), FRAME_OVERHEAD + len))
  }

  lemma Powers()
    ensures Power256(4) == 0x1_0000_0000
    ensures Power256(8) == 0x1_0000_0000_0000_0000
  {
    assert Power256(2) == 0x1_0000;
    assert Power256(3) == 0x100_0000;
    assert Power256(4) == 0x1_0000_0000;
    assert Power256(6) == 0x1_0000_0000_0000;
  }

  /** The fields of an encoded frame, wherever the buffer goes on: length, version, kind of record,
      number, payload, and the checksum of everything before it. */
  lemma FrameFields(f: Format, frame: Frame, rest: seq<byte>)
    requires Encodable(f, frame.record)
    ensures var payload, buf := f.ser(frame.record).value, FrameBytes(f, frame) + rest;
            && buf[..4] == ToLE(|payload|, 4)
            && buf[4] == 1
            && buf[5] == frame.record.RecordType()
            && buf[6..14] == ToLE(frame.sequence, 8)
            && buf[14..14 + |payload|] == payload
            && buf[..14 + |payload|] == FrameBody(f, frame)
            && buf[14 + |payload|..18 + |payload|] == ToLE(f.crc(FrameBody(f, frame)), 4)
  {
    var payload, body := f.ser(frame.record).value, FrameBody(f, frame);
    var buf := FrameBytes(f, frame) + rest;
    assert buf[..14 + |payload|] == body;
    assert buf[..4] == body[..4] && buf[4] == body[4] && buf[5] == body[5] && buf[6..14] == body[6..14];
    assert buf[14..14 + |payload|] == body[14..];
  }

  /** The kinds of record are numbered 1 to 6. */
  lemma KindByte(r: Record)
    ensures r.JobSubmitted? ==> r.RecordType() == 1
    ensures r.JobLeased? ==> r.RecordType() == 2
    ensures r.JobRetryScheduled? ==> r.RecordType() == 3
    ensures r.JobCompleted? ==> r.RecordType() == 4
    ensures r.JobDead? ==> r.RecordType() == 5
    ensures r.JobCancelled? ==> r.RecordType() == 6
  {
  }

  /** Decoding inverts encoding in front of any suffix, and consumes exactly the frame. */
  lemma FrameRoundTrip(f: Format, frame: Frame, rest: seq<byte>)
    requires Faithful(f) && Encodable(f, frame.record) && frame.sequence <= U64_MAX
    ensures DecodeFrame(f, FrameBytes(f, frame) + rest) == Ok((frame, |FrameBytes(f, frame)|))
  {
    hide ToLE, FromLE, FrameBody, FrameBytes, Power256;
    FrameFields(f, frame, rest);
    Powers();
    LERoundTrip(|f.ser(frame.record).value|, 4);
    LERoundTrip(frame.sequence, 8);
    LERoundTrip(f.crc(FrameBody(f, frame)), 4);
  }

  lemma SamePart(buf: seq<byte>, buf': seq<byte>, n: nat, i: nat, j: nat)
    requires i <= j <= n <= |buf| && n <= |buf'| && buf[..n] == buf'[..n]
    ensures buf[i..j] == buf'[i..j]
  {
    assert buf[i..j] == buf[..n][i..j] && buf'[i..j] == buf'[..n][i..j];
  }

  /** Decoding looks at nothing behind the frame it returns. */
  lemma DecodeIsLocal(f: Format, buf: seq<byte>, buf': seq<byte>)
    requires DecodeFrame(f, buf).Ok?
    requires var n := DecodeFrame(f, buf).value.1; n <= |buf'| && buf[..n] == buf'[..n]
    ensures DecodeFrame(f, buf') == DecodeFrame(f, buf)
  {
    hide FromLE;
    var n := DecodeFrame(f, buf).value.1;
    SamePart(buf, buf', n, 0, 4);
    assert buf[..n][4] == buf[4] && buf'[..n][4] == buf'[4];
    SamePart(buf, buf', n, 6, 14);
    SamePart(buf, buf', n, 14, n - 4);
    SamePart(buf, buf', n, 0, n - 4);
    SamePart(buf, buf', n, n - 4, n);
  }

  // ----- what is refused -----

  /** On any bytes: a frame is taken exactly when its length is allowed, all its bytes are there, its
      version is 1, its checksum is that of the bytes before, and its payload decodes. */
  lemma TakenIff(f: Format, buf: seq<byte>)
    ensures DecodeFrame(f, buf).Ok? <==>
              && |buf| >= 18
              && var len := FromLE(buf[..4]);
              && len <= 1024 * 1024 && |buf| >= 18 + len
              && buf[4] == 1
              && FromLE(buf[14 + len..18 + len]) == f.crc(buf[..14 + len])
              && f.de(buf[14..14 + len]).Some?
    ensures DecodeFrame(f, buf).Ok? ==>
              var (frame, n) := DecodeFrame(f, buf).value;
              && n == 18 + FromLE(buf[..4])
              && FromLE(buf[n - 4..n]) == f.crc(buf[..n - 4])
              && frame.sequence == FromLE(buf[6..14])
              && Some(frame.record) == f.de(buf[14..n - 4])
  {
  }

  /** The fields in front of the checksum. */
  lemma BodyFields(f: Format, frame: Frame, rest: seq<byte>)
    requires Encodable(f, frame.record)
    ensures var len, buf := |f.ser(frame.record).value|, FrameBody(f, frame) + rest;
            && FromLE(buf[..4]) == len && buf[4] == RECORD_VERSION
            && buf[..14 + len] == FrameBody(f, frame) && buf[14 + len..] == rest
  {
    var len, body := |f.ser(frame.record).value|, FrameBody(f, frame);
    var buf := body + rest;
    assert buf[..4] == body[..4] == ToLE(len, 4) && buf[4] == body[4] == RECORD_VERSION;
    Powers();
    LERoundTrip(len, 4);
  }

  /** A frame with any other checksum is refused, whatever follows it. */
  lemma DamagedChecksum(f: Format, frame: Frame, c: seq<byte>, rest: seq<byte>)
    requires Faithful(f) && Encodable(f, frame.record) && |c| == 4
    requires c != ToLE(f.crc(FrameBody(f, frame)), 4)
    ensures DecodeFrame(f, FrameBody(f, frame) + c + rest)
         == Err(ChecksumMismatch(FromLE(c), f.crc(FrameBody(f, frame))))
  {
    hide FrameBody, ToLE, FromLE;
    var body, len := FrameBody(f, frame), |f.ser(frame.record).value|;
    var buf := body + c + rest;
    assert buf == body + (c + rest);
    BodyFields(f, frame, c + rest);
    assert buf[14 + len..18 + len] == buf[14 + len..][..4] == c;
    LEBytes(c);
  }

  /** What is wrong with bytes that are no frame, in the order of the checks. */
  lemma RefusedBecause(f: Format, buf: seq<byte>)
    ensures |buf| < 18 ==> DecodeFrame(f, buf) == Err(TruncatedFrame)
    ensures |buf| >= 18 && FromLE(buf[..4]) > 1024 * 1024 ==>
              DecodeFrame(f, buf) == Err(RecordTooLarge(FromLE(buf[..4])))
    ensures |buf| >= 18 && FromLE(buf[..4]) <= 1024 * 1024 && |buf| < 18 + FromLE(buf[..4]) ==>
              DecodeFrame(f, buf) == Err(TruncatedFrame)
  {
  }

  /** A frame of another version is refused. */
  lemma OtherVersion(f: Format, buf: seq<byte>)
    requires |buf| >= 18 && FromLE(buf[..4]) <= 1024 * 1024 && |buf| >= 18 + FromLE(buf[..4]) && buf[4] != 1
    ensures DecodeFrame(f, buf) == Err(UnsupportedRecordVersion(buf[4]))
  {
  }

  // ----- the encoders as they run -----

  /** `WalHeader::encode` fills a fixed buffer. */
  method FillHeader() returns (buf: array<byte>)
    ensures fresh(buf) && buf[..] == EncodeHeader()
  {
    buf := new byte[HEADER_SIZE](_ => 0);
    for i := 0 to 8
      invariant buf[..i] == WAL_MAGIC[..i]
    {
      buf[i] := WAL_MAGIC[i];
    }
    var version := ToLE(WAL_VERSION, 2);
    buf[8] := version[0];
    buf[9] := version[1];
    assert buf[..8] == WAL_MAGIC;
    assert buf[..] == buf[..8] + [buf[8], buf[9]];
  }

  /** `WalFrame::encode` appends field by field to a growing buffer. */
  method AppendFields(f: Format, frame: Frame) returns (res: Result<seq<byte>>)
    ensures res == EncodeFrame(f, frame)
    ensures f.ser(frame.record).None? ==> res == Err(Serialization)
    ensures f.ser(frame.record).Some? && |f.ser(frame.record).value| > 1024 * 1024 ==>
              res == Err(RecordTooLarge(|f.ser(frame.record).value|))
    ensures f.ser(frame.record).Some? && |f.ser(frame.record).value| <= 1024 * 1024 ==>
              Encodable(f, frame.record) && res == Ok(FrameBytes(f, frame))
  {
    var payload := f.ser(frame.record);
    if payload.None? {
      return Err(Serialization);
    }
    if |payload.value| > MAX_RECORD_SIZE {
      return Err(RecordTooLarge(|payload.value|));
    }
    var buf := ToLE(|payload.value|, 4);
    buf := buf + [RECORD_VERSION];
    buf := buf + [frame.record.RecordType()];
    buf := buf + ToLE(frame.sequence, 8);
    buf := buf + payload.value;
    buf := buf + ToLE(f.crc(buf), 4);
    return Ok(buf);
  }
}
