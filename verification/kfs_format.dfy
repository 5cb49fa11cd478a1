/** The KFS1 encoding: little-endian integers, framed records and their payloads. The
    checksum is a parameter: nothing here depends on which one it is. */
module KfsFormat {
  import opened Options
  import opened Words
  import opened KfsLog

  const LOG_START_SECTOR: nat := 1
  const ROOT_INO: nat := 1
  const KIND_DIR: Byte := 1
  const REC_INODE: Byte := 1
  const REC_CHECKPOINT: Byte := 4
  const FORMAT_VERSION: nat := 1
  const MAGIC: seq<Byte> := [0x4b, 0x46, 0x53, 0x31] // "KFS1"

  // ---- integers ----

  lemma {:induction false} Four()
    ensures Pow256(4) == TWO32
  {
    assert Pow256(2) == 65536;
  }

  // ---- records ----

  type Checksum = seq<Byte> -> nat

  function Crc(crc: Checksum, payload: seq<Byte>): nat { crc(payload) % 0x1_0000_0000 }

  function Encode(crc: Checksum, r: Record): (raw: seq<Byte>)
    ensures |raw| == HEADER + |r.payload|
  {
    ToLittle(|r.payload| % 0x1_0000_0000, 4) + ToLittle(Crc(crc, r.payload), 4) + [r.typ] + r.payload
  }

  /** The record whose header starts at `pos` and where it ends; None at a torn tail. */
  function DecodeAt(crc: Checksum, v: seq<Byte>, pos: nat): (r: Option<(Record, nat)>)
    ensures r.Some? ==> pos < r.value.1 <= |v| && r.value.1 == pos + HEADER + |r.value.0.payload|
  {
    if pos + HEADER > |v| then None
    else
      var plen := Little(v[pos..pos + 4]);
      if plen > MAX_PAYLOAD || pos + HEADER + plen > |v| then None
      else
        var payload := v[pos + HEADER..pos + HEADER + plen];
        if Crc(crc, payload) != Little(v[pos + 4..pos + 8]) then None
        else Some((Record(v[pos + 8], payload), pos + HEADER + plen))
  }

  /** The framing of records under a checksum, and the reader of a volume. */
  function Framing(crc: Checksum): Record -> seq<Byte> {
    (r: Record) => Encode(crc, r)
  }

  function Decoder(crc: Checksum, v: seq<Byte>): nat -> Option<(Record, nat)> {
    (pos: nat) => DecodeAt(crc, v, pos)
  }

  /** All records from `pos` up to the first torn one. */
  function ReplayFrom(crc: Checksum, v: seq<Byte>, pos: nat): seq<Record> {
    Scan(Decoder(crc, v), pos, |v|)
  }

  lemma {:induction false} EncodeParts(crc: Checksum, r: Record)
    ensures var raw, n := Encode(crc, r), |r.payload|;
      && raw[0..4] == ToLittle(n % 0x1_0000_0000, 4) && raw[4..8] == ToLittle(Crc(crc, r.payload), 4) && raw[8] == r.typ
      && raw[HEADER..HEADER + n] == r.payload
  {
  }

  /** A reader finds a header field where the writer put it. */
  lemma {:induction false} FieldAt(v: seq<Byte>, pos: nat, raw: seq<Byte>, lo: nat, value: nat)
    requires At(v, pos, raw) && lo + 4 <= |raw| && raw[lo..lo + 4] == ToLittle(value, 4) && value < TWO32
    ensures pos + lo + 4 <= |v| && Little(v[pos + lo..pos + lo + 4]) == value
  {
    Four();
    ReadBack(value, 4);
    AtSlice(v, pos, raw, lo, lo + 4);
  }

  /** What a reader sees of a frame's header and payload. */
  lemma {:induction false} FrameAt(crc: Checksum, v: seq<Byte>, pos: nat, r: Record)
    requires At(v, pos, Encode(crc, r)) && |r.payload| < TWO32
    ensures var n := |r.payload|;
      && pos + HEADER + n <= |v| && Little(v[pos..pos + 4]) == n && Little(v[pos + 4..pos + 8]) == Crc(crc, r.payload)
      && v[pos + 8] == r.typ && v[pos + HEADER..pos + HEADER + n] == r.payload
  {
    var raw, n := Encode(crc, r), |r.payload|;
    EncodeParts(crc, r);
    FieldAt(v, pos, raw, 0, n);
    FieldAt(v, pos, raw, 4, Crc(crc, r.payload));
    AtSlice(v, pos, raw, HEADER, HEADER + n);
    assert v[pos + 8] == raw[8];
  }

  /** A framed record is read back. */
  lemma {:induction false} DecodeEncode(crc: Checksum, v: seq<Byte>, pos: nat, r: Record)
    requires At(v, pos, Encode(crc, r)) && |r.payload| <= MAX_PAYLOAD
    ensures DecodeAt(crc, v, pos) == Some((r, pos + HEADER + |r.payload|))
  {
    FrameAt(crc, v, pos, r);
  }

  /** A payload over the limit is written but never read. */
  lemma {:induction false} Oversized(crc: Checksum, v: seq<Byte>, pos: nat, r: Record)
    requires At(v, pos, Encode(crc, r)) && MAX_PAYLOAD < |r.payload| < TWO32
    ensures DecodeAt(crc, v, pos).None?
  {
    FrameAt(crc, v, pos, r);
  }

  lemma {:induction false} FramesAreRead(crc: Checksum, v: seq<Byte>)
    ensures Inverse(Framing(crc), Decoder(crc, v), v) && Sized(Framing(crc))
  {
    forall pos: nat, r: Record | At(v, pos, Framing(crc)(r)) && |r.payload| <= MAX_PAYLOAD
      ensures Decoder(crc, v)(pos) == Some((r, pos + |Framing(crc)(r)|))
    {
      DecodeEncode(crc, v, pos, r);
    }
  }

  /** A volume that holds a log is replayed as that log followed by whatever the bytes after
      it happen to decode to. */
  lemma {:induction false} ReplayLog(crc: Checksum, v: seq<Byte>, pos: nat, log: seq<Record>)
    requires Readable(log) && At(v, pos, Bytes(Framing(crc), log))
    ensures ReplayFrom(crc, v, pos) == log + ReplayFrom(crc, v, pos + |Bytes(Framing(crc), log)|)
  {
    FramesAreRead(crc, v);
    ScanReads(Framing(crc), Decoder(crc, v), v, pos, log);
  }

  /** So exactly this log is read back if and only if nothing decodes right after it. */
  lemma {:induction false} ReplayExact(crc: Checksum, v: seq<Byte>, pos: nat, log: seq<Record>)
    requires Readable(log) && At(v, pos, Bytes(Framing(crc), log))
    ensures ReplayFrom(crc, v, pos) == log <==> DecodeAt(crc, v, pos + |Bytes(Framing(crc), log)|).None?
  {
    ReplayLog(crc, v, pos, log);
  }

  /** Replay stops before the first record over the limit. */
  lemma {:induction false} StopsAtOversized(crc: Checksum, v: seq<Byte>, pos: nat, log: seq<Record>, i: nat)
    requires At(v, pos, Bytes(Framing(crc), log)) && i < |log| && Readable(log[..i])
    requires MAX_PAYLOAD < |log[i].payload| < TWO32
    ensures ReplayFrom(crc, v, pos) == log[..i]
  {
    LogAt(Framing(crc), v, pos, log, i);
    Oversized(crc, v, pos + |Bytes(Framing(crc), log[..i])|, log[i]);
    ReplayExact(crc, v, pos, log[..i]);
  }

  /** A log comes back as a prefix exactly when none of its payloads is over the limit. */
  lemma {:induction false} PrefixIffReadable(crc: Checksum, v: seq<Byte>, pos: nat, log: seq<Record>)
    requires At(v, pos, Bytes(Framing(crc), log)) && forall i :: 0 <= i < |log| ==> |log[i].payload| < TWO32
    ensures log <= ReplayFrom(crc, v, pos) <==> Readable(log)
  {
    if Readable(log) {
      ReplayLog(crc, v, pos, log);
    } else {
      var i := FirstUnreadable(log);
      StopsAtOversized(crc, v, pos, log, i);
    }
  }

  /** Zeroed space after a log does decode, because the checksum of nothing is zero. */
  lemma {:induction false} ZerosDecode(crc: Checksum, v: seq<Byte>, pos: nat)
    requires crc([]) == 0 && pos + HEADER <= |v| && forall i :: pos <= i < pos + HEADER ==> v[i] == 0
    ensures DecodeAt(crc, v, pos) == Some((Record(0, []), pos + HEADER))
  {
    assert v[pos..pos + 4] == [0, 0, 0, 0] && v[pos + 4..pos + 8] == [0, 0, 0, 0];
    assert Little([0]) == 0 && Little([0, 0]) == 0 && Little([0, 0, 0]) == 0;
    assert [0, 0, 0, 0][1..] == [0, 0, 0] && [0, 0, 0][1..] == [0, 0] && [0, 0][1..] == [0];
    assert v[pos + HEADER..pos + HEADER] == [];
  }

  // ---- the superblock ----

  datatype Superblock = Superblock(blockSize: nat, numBlocks: nat, logSector: nat, version: nat)

  function EncodeSuperblock(sb: Superblock): (r: seq<Byte>)
    ensures |r| == 512
  {
    MAGIC + ToLittle(sb.blockSize, 4) + ToLittle(sb.numBlocks, 8) + ToLittle(sb.logSector, 4) + ToLittle(sb.version, 4) + Zeros(488)
  }

  function ParseSuperblock(b: seq<Byte>): Option<Superblock> {
    if |b| < 24 || b[..4] != MAGIC then None
    else
      var sb := Superblock(Little(b[4..8]), Little(b[8..16]), Little(b[16..20]), Little(b[20..24]));
      if sb.logSector != LOG_START_SECTOR then None else Some(sb)
  }

  lemma {:induction false} SuperblockRoundTrip(sb: Superblock, rest: seq<Byte>)
    requires sb.blockSize < TWO32 && sb.numBlocks < Pow256(8) && sb.version < TWO32 && sb.logSector == LOG_START_SECTOR
    ensures ParseSuperblock(EncodeSuperblock(sb) + rest) == Some(sb)
  {
    var b := EncodeSuperblock(sb) + rest;
    Four();
    ReadBack(sb.blockSize, 4);
    ReadBack(sb.numBlocks, 8);
    ReadBack(sb.logSector, 4);
    ReadBack(sb.version, 4);
    assert b[..4] == MAGIC && b[4..8] == ToLittle(sb.blockSize, 4) && b[8..16] == ToLittle(sb.numBlocks, 8);
    assert b[16..20] == ToLittle(sb.logSector, 4) && b[20..24] == ToLittle(sb.version, 4);
  }

  /** Whatever else it says, an encoded superblock with the fixed log sector is accepted. */
  lemma {:induction false} SuperblockParses(sb: Superblock)
    requires sb.logSector == LOG_START_SECTOR
    ensures ParseSuperblock(EncodeSuperblock(sb)).Some?
  {
    var b := EncodeSuperblock(sb);
    Four();
    ReadBack(sb.logSector, 4);
    assert b[..4] == MAGIC && b[16..20] == ToLittle(sb.logSector, 4);
  }

  /** Replay of a whole volume; None without a superblock. */
  function Replay(crc: Checksum, v: seq<Byte>): Option<seq<Record>> {
    if |v| < 512 then None
    else
      var sb :- ParseSuperblock(v[..512]);
      Some(ReplayFrom(crc, v, sb.logSector * 512))
  }

  // ---- payloads ----

  function InodePayload(ino: nat, uid: nat, kind: Byte, size: nat): seq<Byte> {
    ToLittle(ino, 4) + ToLittle(uid, 4) + [kind] + ToLittle(size, 4)
  }

  function DecodeInode(p: seq<Byte>): Option<(nat, nat, Byte, nat)> {
    if |p| < 13 then None else Some((Little(p[..4]), Little(p[4..8]), p[8], Little(p[9..13])))
  }

  lemma {:induction false} InodeRoundTrip(ino: nat, uid: nat, kind: Byte, size: nat)
    requires ino < TWO32 && uid < TWO32 && size < TWO32
    ensures DecodeInode(InodePayload(ino, uid, kind, size)) == Some((ino, uid, kind, size))
  {
    var p := InodePayload(ino, uid, kind, size);
    Four();
    ReadBack(ino, 4);
    ReadBack(uid, 4);
    ReadBack(size, 4);
    assert p[..4] == ToLittle(ino, 4) && p[4..8] == ToLittle(uid, 4) && p[9..13] == ToLittle(size, 4);
  }

  function CheckpointPayload(nextIno: nat): (r: seq<Byte>)
    ensures |r| == 4
  {
    ToLittle(nextIno, 4)
  }

  function Checkpoint(nextIno: nat): Record { Record(REC_CHECKPOINT, CheckpointPayload(nextIno)) }
}
