/** A disk of 512-byte sectors, and a volume that starts at some sector of it. A power cut
    is modelled by `left`: so many sector writes still reach the medium, the rest are lost. */
module KfsDisk {
  import opened Options
  import opened Words
  import opened KfsLog

  /** `t` written over `s` at `off`. */
  function Splice(s: seq<Byte>, off: nat, t: seq<Byte>): (r: seq<Byte>)
    requires off + |t| <= |s|
    ensures |r| == |s|
  {
    s[..off] + t + s[off + |t|..]
  }

  lemma {:induction false} SpliceAt(s: seq<Byte>, off: nat, t: seq<Byte>, i: nat)
    requires off + |t| <= |s| && i < |s|
    ensures Splice(s, off, t)[i] == if off <= i < off + |t| then t[i - off] else s[i]
  {
  }

  lemma {:induction false} SpliceNothing(s: seq<Byte>, off: nat)
    requires off <= |s|
    ensures Splice(s, off, []) == s
  {
  }

  /** Writing on where the last write ended is one longer write. */
  lemma {:induction false} SpliceMore(s: seq<Byte>, off: nat, t: seq<Byte>, d: nat, e: nat)
    requires d <= e <= |t| && off + |t| <= |s|
    ensures Splice(Splice(s, off, t[..d]), off + d, t[d..e]) == Splice(s, off, t[..e])
  {
    var a, b := Splice(Splice(s, off, t[..d]), off + d, t[d..e]), Splice(s, off, t[..e]);
    forall i | 0 <= i < |s| ensures a[i] == b[i] {
      SpliceAt(s, off, t[..d], i);
      SpliceAt(Splice(s, off, t[..d]), off + d, t[d..e], i);
      SpliceAt(s, off, t[..e], i);
    }
  }

  /** Rewriting a whole sector with a part of it replaced is replacing that part. */
  lemma {:induction false} SpliceWithin(s: seq<Byte>, base: nat, n: nat, within: nat, t: seq<Byte>)
    requires base + n <= |s| && within + |t| <= n
    ensures Splice(s, base, Splice(s[base..base + n], within, t)) == Splice(s, base + within, t)
  {
    var sec := Splice(s[base..base + n], within, t);
    var a, b := Splice(s, base, sec), Splice(s, base + within, t);
    forall i | 0 <= i < |s| ensures a[i] == b[i] {
      SpliceAt(s, base, sec, i);
      SpliceAt(s, base + within, t, i);
      if base <= i < base + n { SpliceAt(s[base..base + n], within, t, i - base); }
    }
  }

  /** A write inside a suffix of the disk, seen from the suffix. */
  lemma {:induction false} SpliceSuffix(s: seq<Byte>, base: nat, off: nat, t: seq<Byte>)
    requires base + off + |t| <= |s|
    ensures Splice(s, base + off, t)[base..] == Splice(s[base..], off, t)
    ensures Splice(s, base + off, t)[..base] == s[..base]
  {
  }

  /** The bytes of the volume that starts at sector `base`. */
  function VolumeOf(data: seq<Byte>, base: nat): seq<Byte> {
    if 512 * base <= |data| then data[512 * base..] else []
  }

  /** The bytes of the disk before that volume. */
  function PartBelow(data: seq<Byte>, base: nat): seq<Byte> {
    if 512 * base <= |data| then data[..512 * base] else data
  }

  function FirstSector(v: seq<Byte>): seq<Byte> {
    if |v| < 512 then v else v[..512]
  }

  /** A write into the volume, seen from the volume and from below it. */
  lemma {:induction false} SpliceVolume(data: seq<Byte>, base: nat, off: nat, t: seq<Byte>)
    requires 512 * base <= |data| && off + |t| <= |VolumeOf(data, base)|
    ensures 512 * base + off + |t| <= |data|
    ensures var after := Splice(data, 512 * base + off, t);
      VolumeOf(after, base) == Splice(VolumeOf(data, base), off, t) && PartBelow(after, base) == PartBelow(data, base)
  {
    SpliceSuffix(data, 512 * base, off, t);
  }

  function Min(a: nat, b: nat): nat { if a < b then a else b }

  class Disk {
    const sectors: nat
    const data: array<Byte>
    var left: nat

    ghost predicate Valid()
      reads this
    {
      data.Length == 512 * sectors
    }

    constructor (sectors: nat, left: nat)
      ensures Valid() && this.sectors == sectors && this.left == left && fresh(data)
    {
      this.sectors := sectors;
      this.left := left;
      data := new Byte[512 * sectors](_ => 0);
    }

    method Read(lba: nat) returns (r: Option<seq<Byte>>)
      requires Valid()
      ensures r == if lba < sectors then Some(data[512 * lba..512 * lba + 512]) else None
    {
      if lba >= sectors {
        return None;
      }
      r := Some(data[512 * lba..512 * lba + 512]);
    }

    /** One sector, if the power still holds. */
    method WriteSector(lba: nat, p: seq<Byte>)
      requires Valid() && lba < sectors && |p| == 512
      modifies this`left, data
      ensures if old(left) > 0
              then data[..] == Splice(old(data[..]), 512 * lba, p) && left == old(left) - 1
              else data[..] == old(data[..]) && left == 0
    {
      if left > 0 {
        left := left - 1;
        forall i | 0 <= i < 512 {
          data[512 * lba + i] := p[i];
        }
        assert data[..] == Splice(old(data[..]), 512 * lba, p);
      }
    }

    /** The first k sectors of a write have been issued. */
    ghost predicate Reached(before: seq<Byte>, lba: nat, buf: seq<Byte>, k: nat, had: nat)
      reads this, data
    {
      && 512 * k <= |buf| && 512 * lba + |buf| <= |before|
      && left == (if k < had then had - k else 0)
      && data[..] == Splice(before, 512 * lba, buf[..512 * Min(k, had)])
    }

    method WriteNth(lba: nat, buf: seq<Byte>, k: nat, ghost before: seq<Byte>, ghost had: nat)
      requires Valid() && |buf| % 512 == 0 && 512 * k < |buf| && 512 * lba + |buf| <= data.Length
      requires Reached(before, lba, buf, k, had)
      modifies this`left, data
      ensures Reached(before, lba, buf, k + 1, had)
    {
      if left > 0 { SpliceMore(before, 512 * lba, buf, 512 * k, 512 * (k + 1)); }
      WriteSector(lba + k, buf[512 * k..512 * (k + 1)]);
    }

    /** A write of whole sectors, which reach the medium in order. */
    method Write(lba: nat, buf: seq<Byte>) returns (ok: bool)
      requires Valid() && |buf| % 512 == 0 && 512 * lba + |buf| <= data.Length
      modifies this`left, data
      ensures ok <==> lba < sectors
      ensures var d := Min(|buf|, 512 * old(left));
        data[..] == Splice(old(data[..]), 512 * lba, buf[..d]) && 512 * left == 512 * old(left) - d
    {
      SpliceNothing(data[..], 512 * lba);
      assert buf[..0] == [];
      if lba >= sectors {
        return false;
      }
      ghost var before, had := data[..], left;
      var k := 0;
      while 512 * k < |buf|
        invariant 0 <= 512 * k <= |buf| && Reached(before, lba, buf, k, had)
      {
        WriteNth(lba, buf, k, before, had);
        k := k + 1;
      }
      return true;
    }
  }
}
