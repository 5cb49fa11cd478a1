/** Formatting, appending, crashing and mounting: the promises of the KFS1 package as runs
    of its writer and reader on one disk. */
module KfsVolumes {
  import opened Options
  import opened Words
  import opened KfsLog
  import opened KfsFormat
  import opened KfsDisk
  import opened KfsReplay
  import opened KfsFormatter

  /** A writer needs a volume with at least one sector. */
  method NewFormatter(disk: Disk, base: nat, crc: Checksum) returns (f: Formatter?)
    requires disk.Valid()
    ensures f == null <==> base >= disk.sectors
    ensures f != null ==>
      && fresh(f) && f.Valid() && f.disk == disk && f.base == base && f.frame == Framing(crc) && f.checkpoint == Checkpoints()
      && f.log == [] && f.recs == 0 && f.nextIno == ROOT_INO + 1
  {
    if base >= disk.sectors {
      return null;
    }
    FramesSized(crc);
    f := new Formatter(disk, base, Framing(crc), Checkpoints());
  }

  function Checkpoints(): nat -> Record { (n: nat) => Checkpoint(n) }

  /** The first i requests have been served on a log that was `log0`. */
  ghost predicate Served(f: Formatter, qs: seq<Request>, i: nat, log0: seq<Record>, recs0: nat, next0: nat)
    requires i <= |qs|
    reads f, f.disk, f.disk.data
  {
    && f.Valid() && f.nextIno == Watermark(next0, qs[..i]) && log0 <= f.log && f.recs == recs0 + Weights(qs[..i])
    && (f.disk.left > 0 ==> f.log == log0 + AddsAll(f.checkpoint, recs0, next0, qs[..i]))
  }

  method ServeNext(f: Formatter, qs: seq<Request>, i: nat, ghost log0: seq<Record>, ghost recs0: nat, ghost next0: nat)
      returns (status: Status)
    requires i < |qs| && Served(f, qs, i, log0, recs0, next0)
    modifies f, f.disk, f.disk.data
    ensures f.Valid() && log0 <= f.log && f.disk.left <= old(f.disk.left)
    ensures f.Below() == old(f.Below()) && f.Head() == old(f.Head())
    ensures status.Ok? ==> Served(f, qs, i + 1, log0, recs0, next0)
  {
    AddsStep(f.checkpoint, recs0, next0, qs, i, log0);
    status := f.Serve(qs[i]);
  }

  /** Any number of requests on one writer. */
  method ServeAll(f: Formatter, qs: seq<Request>) returns (status: Status)
    requires f.Valid()
    modifies f, f.disk, f.disk.data
    ensures f.Valid() && f.disk.left <= old(f.disk.left)
    ensures f.Below() == old(f.Below()) && f.Head() == old(f.Head())
    ensures old(f.log) <= f.log
    ensures status.Ok? && f.disk.left > 0 ==>
      f.log == old(f.log) + AddsAll(f.checkpoint, old(f.recs), old(f.nextIno), qs)
  {
    ghost var log0, recs0, next0 := f.log, f.recs, f.nextIno;
    var i := 0;
    assert log0 + AddsAll(f.checkpoint, recs0, next0, qs[..0]) == log0;
    while i < |qs|
      invariant 0 <= i <= |qs| && Served(f, qs, i, log0, recs0, next0) && f.disk.left <= old(f.disk.left)
      invariant f.Below() == old(f.Below()) && f.Head() == old(f.Head())
    {
      status := ServeNext(f, qs, i, log0, recs0, next0);
      if !status.Ok? {
        return;
      }
      i := i + 1;
    }
    assert qs[..i] == qs;
    return Ok;
  }

  lemma {:induction false} AddsStep(checkpoint: nat -> Record, recs: nat, next: nat, qs: seq<Request>, i: nat, log: seq<Record>)
    requires i < |qs|
    ensures Weights(qs[..i + 1]) == Weights(qs[..i]) + Weight(qs[i])
    ensures Watermark(next, qs[..i + 1]) == NextAfter(Watermark(next, qs[..i]), qs[i])
    ensures log + AddsAll(checkpoint, recs, next, qs[..i + 1]) ==
      log + AddsAll(checkpoint, recs, next, qs[..i])
      + Adds(checkpoint, recs + Weights(qs[..i]), Watermark(next, qs[..i]), qs[i])
  {
    assert qs[..i + 1][..i] == qs[..i];
  }

  // ---- what replay returns ----

  predicate HasSuperblock(v: seq<Byte>) { |v| >= 512 && ParseSuperblock(v[..512]).Some? }

  /** A logged volume is replayed with its log as a prefix. */
  lemma {:induction false} LoggedIsReplayed(crc: Checksum, v: seq<Byte>, log: seq<Record>, wOff: nat, left: nat)
    requires Logged(Framing(crc), v, log, wOff, left) && Readable(log) && HasSuperblock(v)
    ensures Replay(crc, v).Some? && log <= Replay(crc, v).value
  {
    ReplayLog(crc, v, 512, log);
  }

  /** Power may fail during an append, at any of its sector writes: every record appended
      before it is still replayed, in order and from the start. */
  method AppendAndCrash(f: Formatter, crc: Checksum, r: Record) returns (found: seq<Record>)
    requires f.Valid() && f.frame == Framing(crc) && Readable(f.log) && HasSuperblock(f.View())
    modifies f, f.disk, f.disk.data
    ensures old(f.log) <= found
  {
    ghost var before := f.log;
    SameHead(f.View());
    var status := f.Append(r);
    SameHead(f.View());
    var replayed := ReplayVolume(f.disk, f.base, crc);
    PrefixIsLogged(f.frame, f.View(), before, f.log);
    ReplayLog(crc, f.View(), 512, before);
    found := replayed.value;
  }

  lemma {:induction false} SameHead(v: seq<Byte>)
    ensures |v| >= 512 ==> FirstSector(v) == v[..512]
  {
  }

  lemma {:induction false} PrefixIsLogged(frame: Record -> seq<Byte>, v: seq<Byte>, part: seq<Record>, log: seq<Record>)
    requires At(v, 512, Bytes(frame, log)) && part <= log
    ensures At(v, 512, Bytes(frame, part))
  {
    assert log[..|log|] == log && log[..|part|] == part;
    PrefixAt(frame, v, 512, log, |part|, |log|);
  }

  /** While the power holds, replay returns what was asked for, a checkpoint of the watermark
      after every 64th record included, whatever sector boundaries the records cross. */
  method AppendAndReplay(f: Formatter, crc: Checksum, qs: seq<Request>) returns (status: Status, found: seq<Record>)
    requires f.Valid() && f.frame == Framing(crc) && HasSuperblock(f.View())
    requires Readable(f.log) && Modest(qs)
    modifies f, f.disk, f.disk.data
    ensures status.Ok? && f.disk.left > 0 ==>
      old(f.log) + AddsAll(f.checkpoint, old(f.recs), old(f.nextIno), qs) <= found
  {
    SameHead(f.View());
    status := ServeAll(f, qs);
    SameHead(f.View());
    var replayed := ReplayVolume(f.disk, f.base, crc);
    if status.Ok? && f.disk.left > 0 {
      AddsReadable(f.checkpoint, old(f.recs), old(f.nextIno), qs);
      ReadableJoin(old(f.log), AddsAll(f.checkpoint, old(f.recs), old(f.nextIno), qs));
      LoggedIsReplayed(crc, f.View(), f.log, f.wOff, f.disk.left);
    }
    found := replayed.value;
  }

  /** No record asked for is over the payload limit. */
  predicate Modest(qs: seq<Request>) {
    forall i :: 0 <= i < |qs| && qs[i].Put? ==> |qs[i].r.payload| <= MAX_PAYLOAD
  }

  lemma {:induction false} ReadableJoin(a: seq<Record>, b: seq<Record>)
    requires Readable(a) && Readable(b)
    ensures Readable(a + b)
  {
    forall i | 0 <= i < |a + b| ensures Fits(a + b, i) {
      if i < |a| { assert Fits(a, i); } else { assert Fits(b, i - |a|); }
    }
  }

  lemma {:induction false} AddsReadable(checkpoint: nat -> Record, recs: nat, next: nat, qs: seq<Request>)
    requires Modest(qs) && Marks(checkpoint)
    ensures Readable(AddsAll(checkpoint, recs, next, qs))
  {
    if qs != [] {
      var n := |qs| - 1;
      var front := qs[..n];
      AddsReadable(checkpoint, recs, next, front);
      var last := Adds(checkpoint, recs + Weights(front), Watermark(next, front), qs[n]);
      forall i | 0 <= i < |last| ensures Fits(last, i) {}
      ReadableJoin(AddsAll(checkpoint, recs, next, front), last);
    }
  }

  /** How many requests add a record. */
  function Records(qs: seq<Request>): nat {
    if qs == [] then 0 else Records(qs[..|qs| - 1]) + if qs[|qs| - 1].SetNext? then 0 else 1
  }

  /** How many checkpoints the pacing inserts. */
  lemma {:induction false} AddsLength(checkpoint: nat -> Record, recs: nat, next: nat, qs: seq<Request>)
    ensures |AddsAll(checkpoint, recs, next, qs)| == Records(qs) + (recs + Weights(qs)) / 64 - recs / 64
  {
    if qs != [] { AddsLength(checkpoint, recs, next, qs[..|qs| - 1]); }
  }

  // ---- two volumes on one disk ----

  function RootInode(): Record { Inode(ROOT_INO, 0, KIND_DIR, 0) }

  /** What a fresh volume's log holds. */
  function FreshLog(): seq<Record> { [RootInode(), Checkpoint(ROOT_INO + 1)] }

  /** A fresh volume: superblock, root inode, checkpoint. Nothing below it changes. */
  method Format(disk: Disk, base: nat, crc: Checksum) returns (status: Status)
    requires disk.Valid()
    modifies disk, disk.data
    ensures PartBelow(disk.data[..], base) == old(PartBelow(disk.data[..], base)) && disk.left <= old(disk.left)
    ensures status.BadSuperblock? <==> disk.sectors < base + 16
    ensures status.BadSuperblock? ==> disk.data[..] == old(disk.data[..])
    ensures !status.BadSuperblock? ==> status.Ok?
    ensures status.Ok? && disk.left > 0 ==>
      var v := VolumeOf(disk.data[..], base);
      HasSuperblock(v) && Replay(crc, v).Some? && FreshLog() <= Replay(crc, v).value
  {
    if disk.sectors < base + 16 {
      return BadSuperblock;
    }
    var sb := Superblock(512, disk.sectors - base, LOG_START_SECTOR, FORMAT_VERSION);
    WriteSuperblock(disk, base, sb);
    FramesSized(crc);
    var f := new Formatter(disk, base, Framing(crc), Checkpoints());
    status := Begin(f);
    if disk.left > 0 {
      SameHead(f.View());
      FreshIsReadable();
      LoggedIsReplayed(crc, f.View(), f.log, f.wOff, f.disk.left);
    }
  }

  /** The first two records of a volume. */
  method Begin(f: Formatter) returns (status: Status)
    requires f.Valid() && f.checkpoint == Checkpoints()
    requires f.log == [] && f.recs == 0 && f.nextIno == ROOT_INO + 1 && f.wOff == 512 && f.logEnd >= 8192
    modifies f, f.disk, f.disk.data
    ensures f.Valid() && f.disk.left <= old(f.disk.left) && f.Below() == old(f.Below()) && f.Head() == old(f.Head())
    ensures status.Ok? && (f.disk.left > 0 ==> f.log == FreshLog())
  {
    PacedTwice();
    status := f.Append(RootInode());
    status := f.Append(f.checkpoint(f.nextIno));
  }

  lemma {:induction false} PacedTwice()
    ensures var c := Checkpoint(ROOT_INO + 1);
      |RootInode().payload| <= 64 && |c.payload| <= 64 && RootInode().typ != REC_CHECKPOINT
      && Paced(0, c, RootInode()) == [RootInode()] && Paced(1, c, c) == [c] && FreshLog() == [RootInode(), c]
  {
  }

  lemma {:induction false} FramesSized(crc: Checksum)
    ensures Sized(Framing(crc)) && Marks(Checkpoints())
  {
  }

  lemma {:induction false} FreshIsReadable()
    ensures Readable(FreshLog())
  {
    forall i | 0 <= i < 2 ensures Fits(FreshLog(), i) {}
  }

  method WriteSuperblock(disk: Disk, base: nat, sb: Superblock)
    requires disk.Valid() && base < disk.sectors && sb.logSector == LOG_START_SECTOR
    modifies disk, disk.data
    ensures PartBelow(disk.data[..], base) == old(PartBelow(disk.data[..], base)) && disk.left <= old(disk.left)
    ensures disk.left > 0 ==> HasSuperblock(VolumeOf(disk.data[..], base))
  {
    ghost var before := disk.data[..];
    var raw := EncodeSuperblock(sb);
    SuperblockParses(sb);
    disk.WriteSector(base, raw);
    if disk.left > 0 {
      SpliceVolume(before, base, 0, raw);
      assert VolumeOf(disk.data[..], base)[..512] == raw;
    } else {
      SpliceBelow(before, base, raw);
    }
  }

  lemma {:induction false} SpliceBelow(data: seq<Byte>, base: nat, raw: seq<Byte>)
    requires 512 * base + |raw| <= |data|
    ensures PartBelow(Splice(data, 512 * base, raw), base) == PartBelow(data, base)
  {
  }

  /** The sector at which the data volume of an image begins: half of it, in whole sectors. */
  function SplitSectors(imageBytes: nat): Option<nat> {
    if imageBytes < 2 * 512 then None
    else
      var half := imageBytes / 2 - (imageBytes / 2) % 512;
      if half == 0 then None else Some(half / 512)
  }

  /** On an image of whole sectors the boundary leaves each volume half of it. */
  lemma {:induction false} SplitIsHalf(sectors: nat)
    ensures SplitSectors(512 * sectors) == if sectors < 2 then None else Some(sectors / 2)
  {
    assert (512 * sectors) / 2 == 256 * sectors;
    assert (256 * sectors) % 512 == if sectors % 2 == 0 then 0 else 256;
  }

  function HasSuperblockAt(data: seq<Byte>, lba: nat): bool {
    512 * lba + 512 <= |data| && ParseSuperblock(data[512 * lba..512 * lba + 512]).Some?
  }

  method SectorIsSuperblock(disk: Disk, lba: nat) returns (yes: bool)
    requires disk.Valid()
    ensures yes == HasSuperblockAt(disk.data[..], lba)
  {
    var sec := disk.Read(lba);
    yes := sec.Some? && ParseSuperblock(sec.value).Some?;
  }

  /** Where the volume is: at sector 0 of a bare image, else at the boundary. */
  method FindVolume(disk: Disk) returns (base: Option<nat>)
    requires disk.Valid()
    ensures base == if HasSuperblockAt(disk.data[..], 0) then Some(0)
                    else if disk.sectors >= 2 && HasSuperblockAt(disk.data[..], disk.sectors / 2) then Some(disk.sectors / 2)
                    else None
  {
    var bare := SectorIsSuperblock(disk, 0);
    if bare {
      return Some(0);
    }
    SplitIsHalf(disk.sectors);
    var split := SplitSectors(512 * disk.sectors);
    if split.None? {
      return None;
    }
    var data := SectorIsSuperblock(disk, split.value);
    return if data then split else None;
  }

  lemma {:induction false} SuperblockOfVolume(data: seq<Byte>, base: nat)
    requires HasSuperblock(VolumeOf(data, base))
    ensures HasSuperblockAt(data, base)
  {
    assert data[512 * base..512 * base + 512] == VolumeOf(data, base)[..512];
  }

  lemma {:induction false} SectorBelow(a: seq<Byte>, b: seq<Byte>, base: nat, lba: nat)
    requires |a| == |b| && 512 * base <= |a| && PartBelow(a, base) == PartBelow(b, base) && lba < base
    ensures a[512 * lba..512 * lba + 512] == b[512 * lba..512 * lba + 512]
  {
    assert forall i :: 0 <= i < 512 * base ==> a[i] == PartBelow(a, base)[i] == b[i];
  }

  /** Formatting the data half of an image: no sector of the other half changes. When sector 0
      holds no superblock the volume is found and starts with the root inode and its checkpoint;
      a superblock there hides it. An image whose half has fewer than 16 sectors is left alone. */
  method FormatAndMount(disk: Disk, crc: Checksum) returns (base: Option<nat>, found: seq<Record>)
    requires disk.Valid()
    modifies disk, disk.data
    ensures PartBelow(disk.data[..], disk.sectors / 2) == old(PartBelow(disk.data[..], disk.sectors / 2))
    ensures disk.sectors < 31 ==> disk.data[..] == old(disk.data[..])
    ensures disk.sectors >= 31 && old(HasSuperblockAt(disk.data[..], 0)) ==> base == Some(0)
    ensures disk.sectors >= 31 && !old(HasSuperblockAt(disk.data[..], 0)) && disk.left > 0 ==>
      base == Some(disk.sectors / 2) && FreshLog() <= found
  {
    found := [];
    ghost var before := disk.data[..];
    var half := disk.sectors / 2;
    var status := Format(disk, half, crc);
    if disk.sectors >= 31 { SectorBelow(before, disk.data[..], half, 0); }
    base := FindVolume(disk);
    if base.Some? {
      var replayed := ReplayVolume(disk, base.value, crc);
      if replayed.Some? {
        found := replayed.value;
      }
    }
    if disk.sectors >= 31 && disk.left > 0 {
      SuperblockOfVolume(disk.data[..], half);
    }
  }
}
