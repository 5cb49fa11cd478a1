/** The KFS1 log writer on a volume of a disk that may lose power. */
module KfsFormatter {
  import opened Options
  import opened Words
  import opened KfsLog
  import opened KfsFormat
  import opened KfsDisk

  datatype Status = Ok | NoSpace | BadSuperblock

  // ---- writing ----

  /** How much of `n` bytes at `si` lies in one sector. */
  function TakeAt(si: nat, n: nat): (take: nat)
    requires n > 0
    ensures 0 < take <= n && si % 512 + take <= 512 && (take == n || (si + take) % 512 == 0)
  {
    Min(512 - si % 512, n)
  }

  /** What one append adds: the record, and a checkpoint after every 64th that is not one
      itself. */
  function Paced(recs: nat, cp: Record, r: Record): seq<Record> {
    if r.typ != REC_CHECKPOINT && (recs + 1) % 64 == 0 then [r, cp] else [r]
  }

  /** Checkpoints are records with four bytes of payload. */
  ghost predicate Marks(checkpoint: nat -> Record) {
    forall n: nat {:trigger checkpoint(n)} :: checkpoint(n).typ == REC_CHECKPOINT && |checkpoint(n).payload| == 4
  }

  /** What a caller asks of a writer: a record, a new inode, or another watermark. */
  datatype Request =
    | Put(r: Record)
    | NewInode(uid: nat, kind: Byte, size: nat)
    | SetNext(ino: nat)

  function Inode(ino: nat, uid: nat, kind: Byte, size: nat): Record {
    Record(REC_INODE, InodePayload(ino, uid, kind, size))
  }

  /** The watermark after a request; it is a 32-bit counter. */
  function NextAfter(next: nat, q: Request): nat {
    match q
    case Put(_) => next
    case NewInode(_, _, _) => (next + 1) % 0x1_0000_0000
    case SetNext(ino) => ino
  }

  /** How far a request moves the count that paces checkpoints. */
  function Weight(q: Request): nat {
    match q
    case Put(r) => if r.typ != REC_CHECKPOINT then 1 else 0
    case NewInode(_, _, _) => 1
    case SetNext(_) => 0
  }

  /** What a request adds to the log; its checkpoint shows the watermark before it. */
  function Adds(checkpoint: nat -> Record, recs: nat, next: nat, q: Request): seq<Record> {
    match q
    case Put(r) => Paced(recs, checkpoint(next), r)
    case NewInode(uid, kind, size) => Paced(recs, checkpoint(next), Inode(next, uid, kind, size))
    case SetNext(_) => []
  }

  function Weights(qs: seq<Request>): nat {
    if qs == [] then 0 else Weights(qs[..|qs| - 1]) + Weight(qs[|qs| - 1])
  }

  function Watermark(next: nat, qs: seq<Request>): nat {
    if qs == [] then next else NextAfter(Watermark(next, qs[..|qs| - 1]), qs[|qs| - 1])
  }

  /** What a sequence of requests adds to the log. */
  function AddsAll(checkpoint: nat -> Record, recs: nat, next: nat, qs: seq<Request>): seq<Record> {
    if qs == [] then []
    else
      var front := qs[..|qs| - 1];
      AddsAll(checkpoint, recs, next, front)
      + Adds(checkpoint, recs + Weights(front), Watermark(next, front), qs[|qs| - 1])
  }

  /** The state of a volume under a writer: the log is on it, and while the power holds the
      writer stands right after it. */
  predicate Logged(frame: Record -> seq<Byte>, v: seq<Byte>, log: seq<Record>, wOff: nat, left: nat) {
    && At(v, 512, Bytes(frame, log))
    && 512 + |Bytes(frame, log)| <= wOff <= |v| && (left > 0 ==> wOff == 512 + |Bytes(frame, log)|)
  }

  lemma {:induction false} AtSplice(v: seq<Byte>, pos: nat, raw: seq<Byte>, off: nat, t: seq<Byte>)
    requires At(v, pos, raw) && pos + |raw| <= off && off + |t| <= |v|
    ensures At(Splice(v, off, t), pos, raw)
  {
  }

  lemma {:induction false} AtNew(v: seq<Byte>, off: nat, t: seq<Byte>)
    requires off + |t| <= |v|
    ensures At(Splice(v, off, t), off, t)
  {
  }

  /** Writing a record at the end of the log: whatever part of it reaches the medium, the log
      stays; all of it makes the log one record longer. */
  lemma {:induction false} WriteKeepsLog(frame: Record -> seq<Byte>, v: seq<Byte>, log: seq<Record>, wOff: nat, left: nat, r: Record, d: nat, left1: nat)
    requires Logged(frame, v, log, wOff, left) && wOff + |frame(r)| <= |v| && d <= |frame(r)|
    requires left1 <= left && (left1 > 0 ==> d == |frame(r)|)
    ensures var raw := frame(r);
      var log1 := if left1 > 0 then log + [r] else log;
      Logged(frame, Splice(v, wOff, raw[..d]), log1, wOff + |raw|, left1)
  {
    var raw := frame(r);
    var v1 := Splice(v, wOff, raw[..d]);
    AtSplice(v, 512, Bytes(frame, log), wOff, raw[..d]);
    if left1 > 0 {
      assert raw[..d] == raw;
      AtNew(v, wOff, raw);
      BytesAppend(frame, log, r);
      AtSplit(v1, 512, Bytes(frame, log), raw);
    }
  }

  lemma {:induction false} SpliceKeepsHead(v: seq<Byte>, off: nat, t: seq<Byte>)
    requires 512 <= off && off + |t| <= |v|
    ensures FirstSector(Splice(v, off, t)) == FirstSector(v)
  {
  }

  class Formatter {
    const disk: Disk
    const base: nat
    const frame: Record -> seq<Byte>
    const checkpoint: nat -> Record
    const logEnd: nat
    var wOff: nat
    var recs: nat
    var nextIno: nat
    ghost var log: seq<Record>

    ghost function View(): seq<Byte>
      reads disk.data
    {
      VolumeOf(disk.data[..], base)
    }

    /** The sectors of the disk below the volume. */
    ghost function Below(): seq<Byte>
      reads disk.data
    {
      PartBelow(disk.data[..], base)
    }

    ghost function Head(): seq<Byte>
      reads disk.data
    {
      FirstSector(View())
    }

    ghost predicate Valid()
      reads this, disk, disk.data
    {
      && disk.Valid() && Sized(frame) && Marks(checkpoint) && base < disk.sectors && logEnd == 512 * (disk.sectors - base)
      && Logged(frame, View(), log, wOff, disk.left)
    }

    /** A volume must have at least one sector. */
    constructor (disk: Disk, base: nat, frame: Record -> seq<Byte>, checkpoint: nat -> Record)
      requires disk.Valid() && base < disk.sectors && Sized(frame) && Marks(checkpoint)
      ensures Valid() && this.disk == disk && this.base == base && this.frame == frame && this.checkpoint == checkpoint
      ensures log == [] && recs == 0 && nextIno == ROOT_INO + 1 && wOff == 512
    {
      this.disk := disk;
      this.base := base;
      this.frame := frame;
      this.checkpoint := checkpoint;
      logEnd := 512 * (disk.sectors - base);
      wOff := 512;
      recs := 0;
      nextIno := ROOT_INO + 1;
      log := [];
    }

    /** The part of `buf` that reached the medium. */
    twostate predicate Wrote(off: nat, buf: seq<Byte>, d: nat)
      reads disk, disk.data
    {
      && d <= |buf| && off + |buf| <= |old(View())|
      && View() == Splice(old(View()), off, buf[..d]) && (disk.left > 0 ==> d == |buf|) && disk.left <= old(disk.left)
      && Below() == old(Below())
    }

    /** Whole sectors go out in one write. */
    method WriteAligned(off: nat, buf: seq<Byte>) returns (ghost d: nat)
      requires disk.Valid() && base < disk.sectors && off % 512 == 0 && |buf| % 512 == 0 && |buf| > 0
      requires off + |buf| <= |View()|
      modifies disk, disk.data
      ensures Wrote(off, buf, d)
    {
      ghost var before, had := disk.data[..], disk.left;
      var ok := disk.Write(base + off / 512, buf);
      d := Min(|buf|, 512 * had);
      assert 512 * (base + off / 512) == 512 * base + off;
      SpliceVolume(before, base, off, buf[..d]);
    }

    /** One sector of a partial write: read it, replace a part, write it back. */
    method RewriteSector(si: nat, piece: seq<Byte>)
      requires disk.Valid() && base < disk.sectors && si % 512 + |piece| <= 512 && piece != []
      requires si + |piece| <= |View()|
      modifies disk, disk.data
      ensures disk.left == if old(disk.left) > 0 then old(disk.left) - 1 else 0
      ensures View() == if old(disk.left) > 0 then Splice(old(View()), si, piece) else old(View())
      ensures Below() == old(Below())
    {
      ghost var before := disk.data[..];
      var lba, within := base + si / 512, si % 512;
      assert 512 * (si / 512) + within == si;
      var sec := disk.Read(lba);
      var changed := Splice(sec.value, within, piece);
      SpliceWithin(before, 512 * lba, 512, within, piece);
      SpliceVolume(before, base, si, piece);
      disk.WriteSector(lba, changed);
    }

    /** One round of the read-modify-write loop: `d` bytes are on the medium, `done` were
        sent. */
    method WritePiece(off: nat, buf: seq<Byte>, done: nat, ghost v: seq<Byte>, ghost d: nat)
        returns (take: nat, ghost d1: nat)
      requires disk.Valid() && base < disk.sectors && off + |buf| <= |v|
      requires d <= done < |buf| && (disk.left > 0 ==> d == done) && View() == Splice(v, off, buf[..d])
      modifies disk, disk.data
      ensures 0 < take && d <= d1 <= done + take <= |buf| && (disk.left > 0 ==> d1 == done + take)
      ensures View() == Splice(v, off, buf[..d1]) && Below() == old(Below()) && disk.left <= old(disk.left)
    {
      take := TakeAt(off + done, |buf| - done);
      SpliceMore(v, off, buf, done, done + take);
      d1 := if disk.left > 0 then done + take else d;
      RewriteSector(off + done, buf[done..done + take]);
    }

    /** The read-modify-write loop. */
    method WritePieces(off: nat, buf: seq<Byte>) returns (ghost d: nat)
      requires disk.Valid() && base < disk.sectors && off + |buf| <= |View()|
      modifies disk, disk.data
      ensures Wrote(off, buf, d)
    {
      ghost var v := View();
      d := 0;
      assert buf[..0] == [];
      SpliceNothing(v, off);
      var done := 0;
      while done < |buf|
        invariant 0 <= d <= done <= |buf| && (disk.left > 0 ==> d == done) && disk.left <= old(disk.left)
        invariant View() == Splice(v, off, buf[..d]) && Below() == old(Below())
      {
        var take;
        take, d := WritePiece(off, buf, done, v, d);
        done := done + take;
      }
    }

    /** Bytes anywhere in the volume: what reaches the medium is a prefix of them, and
        nothing else changes. */
    method WriteAt(off: nat, buf: seq<Byte>) returns (ghost d: nat)
      requires disk.Valid() && base < disk.sectors && buf != [] && off + |buf| <= |View()|
      modifies disk, disk.data
      ensures Wrote(off, buf, d)
    {
      if off % 512 == 0 && |buf| % 512 == 0 {
        d := WriteAligned(off, buf);
      } else {
        d := WritePieces(off, buf);
      }
    }

    /** One framed record at the end of the log. */
    method AppendOne(r: Record) returns (status: Status)
      requires Valid()
      modifies this, disk, disk.data
      ensures Valid() && recs == old(recs) && nextIno == old(nextIno) && disk.left <= old(disk.left)
      ensures Below() == old(Below())
      ensures Head() == old(Head())
      ensures status == if old(wOff) + 9 + |r.payload| > logEnd then NoSpace else Ok
      ensures log == if status.Ok? && disk.left > 0 then old(log) + [r] else old(log)
      ensures status.NoSpace? ==> disk.left == old(disk.left) && View() == old(View())
      ensures wOff == old(wOff) + if status.Ok? then 9 + |r.payload| else 0
    {
      var raw := frame(r);
      if wOff + |raw| > logEnd {
        return NoSpace;
      }
      ghost var v, left := View(), disk.left;
      ghost var d := WriteAt(wOff, raw);
      WriteKeepsLog(frame, v, log, wOff, left, r, d, disk.left);
      SpliceKeepsHead(v, wOff, raw[..d]);
      wOff := wOff + |raw|;
      if disk.left > 0 {
        log := log + [r];
      }
      return Ok;
    }

    /** The checkpoint that is due after every 64th record. */
    method Pace() returns (status: Status)
      requires Valid()
      modifies this, disk, disk.data
      ensures Valid() && recs == old(recs) && nextIno == old(nextIno) && disk.left <= old(disk.left)
      ensures Below() == old(Below()) && Head() == old(Head()) && !status.BadSuperblock?
      ensures log == if status.Ok? && disk.left > 0 && recs % 64 == 0 then old(log) + [checkpoint(nextIno)] else old(log)
      ensures wOff <= old(wOff) + 13 && (old(wOff) + 13 <= logEnd ==> status.Ok?)
    {
      if recs % 64 != 0 {
        return Ok;
      }
      status := AppendOne(checkpoint(nextIno));
    }

    /** A record, and the checkpoint that is due after it. */
    method Append(r: Record) returns (status: Status)
      requires Valid()
      modifies this, disk, disk.data
      ensures Valid() && nextIno == old(nextIno) && disk.left <= old(disk.left)
      ensures Below() == old(Below()) && Head() == old(Head()) && !status.BadSuperblock?
      ensures log == old(log) || log == old(log) + [r] || log == old(log) + Paced(old(recs), checkpoint(nextIno), r)
      ensures status.Ok? && disk.left > 0 ==> log == old(log) + Paced(old(recs), checkpoint(nextIno), r)
      ensures status.Ok? ==> recs == old(recs) + if r.typ != REC_CHECKPOINT then 1 else 0
      ensures wOff <= old(wOff) + |r.payload| + 22 && (old(wOff) + |r.payload| + 22 <= logEnd ==> status.Ok?)
    {
      ghost var log0, recs0 := log, recs;
      PacedParts(log0, recs0, checkpoint(nextIno), r);
      status := AppendOne(r);
      if !status.Ok? || r.typ == REC_CHECKPOINT {
        return;
      }
      recs := recs + 1;
      status := Pace();
    }

    /** Any request. A new inode takes the watermark's number, and moves it if all went well. */
    method Serve(q: Request) returns (status: Status)
      requires Valid()
      modifies this, disk, disk.data
      ensures Valid() && disk.left <= old(disk.left) && old(log) <= log
      ensures Below() == old(Below()) && Head() == old(Head()) && !status.BadSuperblock?
      ensures status.Ok? && disk.left > 0 ==> log == old(log) + Adds(checkpoint, old(recs), old(nextIno), q)
      ensures status.Ok? ==> recs == old(recs) + Weight(q) && nextIno == NextAfter(old(nextIno), q)
    {
      match q {
        case Put(r) =>
          status := Append(r);
        case NewInode(uid, kind, size) =>
          status := Append(Inode(nextIno, uid, kind, size));
          if status.Ok? {
            nextIno := (nextIno + 1) % 0x1_0000_0000;
          }
        case SetNext(ino) =>
          nextIno := ino;
          status := Ok;
          assert old(log) + [] == log;
      }
    }
  }

  lemma {:induction false} PacedParts(log: seq<Record>, recs: nat, cp: Record, r: Record)
    ensures log + Paced(recs, cp, r) ==
      if r.typ != REC_CHECKPOINT && (recs + 1) % 64 == 0 then log + [r] + [cp] else log + [r]
  {
  }
}
