/** Reading a volume back: ranges across sectors, and the scan of the log. */
module KfsReplay {
  import opened Options
  import opened Words
  import opened KfsLog
  import opened KfsFormat
  import opened KfsDisk

  // ---- reading ----

  /** Part of a sector is a stretch of the volume. */
  lemma {:induction false} SectorPart(data: seq<Byte>, base: nat, si: nat, take: nat)
    requires 512 * (base + si / 512) + 512 <= |data| && si % 512 + take <= 512
    ensures var v, start := VolumeOf(data, base), 512 * (base + si / 512);
      && start + si % 512 == 512 * base + si && si + take <= |v|
      && data[start..start + 512][si % 512..si % 512 + take] == v[si..si + take]
  {
    var v, start, w := VolumeOf(data, base), 512 * (base + si / 512), si % 512;
    assert 512 * (si / 512) + w == si;
    var a, b := data[start..start + 512][w..w + take], v[si..si + take];
    forall i | 0 <= i < take ensures a[i] == b[i] {
      assert data[start + w + i] == v[si + i];
    }
    assert a == b;
  }

  /** A piece of the range has been read. */
  predicate Piece(v: seq<Byte>, off: nat, n: nat, out: seq<Byte>) {
    |out| <= n && (out != [] ==> off + |out| <= |v|) && (off + |out| <= |v| ==> out == v[off..off + |out|])
  }

  lemma {:induction false} PieceMore(v: seq<Byte>, off: nat, n: nat, out: seq<Byte>, more: seq<Byte>)
    requires Piece(v, off, n, out) && |out| + |more| <= n && off + |out| + |more| <= |v|
    requires more == v[off + |out|..off + |out| + |more|]
    ensures Piece(v, off, n, out + more)
  {
    var si := off + |out|;
    assert v[off..si + |more|] == v[off..si] + v[si..si + |more|];
  }

  /** Any range of the volume, sector by sector. */
  method ReadBytes(disk: Disk, base: nat, off: nat, n: nat, ghost v: seq<Byte>) returns (r: Option<seq<Byte>>)
    requires disk.Valid() && base <= disk.sectors && v == VolumeOf(disk.data[..], base)
    ensures if off + n <= |v| then r == Some(v[off..off + n]) else n > 0 ==> r.None?
  {
    var out: seq<Byte> := [];
    while |out| < n
      invariant Piece(v, off, n, out)
    {
      var si := off + |out|;
      var sec := disk.Read(base + si / 512);
      if sec.None? {
        return None;
      }
      var within := si % 512;
      var take := 512 - within;
      if take > n - |out| {
        take := n - |out|;
      }
      SectorPart(disk.data[..], base, si, take);
      PieceMore(v, off, n, out, sec.value[within..within + take]);
      out := out + sec.value[within..within + take];
    }
    return Some(out);
  }

  /** The scan of a volume's log. */
  method ReplayVolume(disk: Disk, base: nat, crc: Checksum) returns (r: Option<seq<Record>>)
    requires disk.Valid() && base <= disk.sectors
    ensures r == Replay(crc, VolumeOf(disk.data[..], base))
  {
    ghost var v := VolumeOf(disk.data[..], base);
    var sec := disk.Read(base);
    if sec.None? {
      return None;
    }
    assert sec.value == v[..512];
    var sb := ParseSuperblock(sec.value);
    if sb.None? {
      return None;
    }
    var recs := ScanFrom(disk, base, crc, sb.value.logSector * 512, v);
    return Some(recs);
  }

  method ScanFrom(disk: Disk, base: nat, crc: Checksum, start: nat, ghost v: seq<Byte>) returns (recs: seq<Record>)
    requires disk.Valid() && base <= disk.sectors && v == VolumeOf(disk.data[..], base)
    ensures recs == ReplayFrom(crc, v, start)
  {
    var logEnd := 512 * (disk.sectors - base);
    var pos := start;
    recs := [];
    assert recs + ReplayFrom(crc, v, pos) == ReplayFrom(crc, v, pos);
    while pos + 9 <= logEnd
      invariant ReplayFrom(crc, v, start) == recs + ReplayFrom(crc, v, pos)
      decreases logEnd - pos
    {
      var next := ReadRecord(disk, base, crc, pos, logEnd, v);
      if next.None? {
        break;
      }
      Onward(crc, v, pos, next.value, recs);
      recs := recs + [next.value];
      pos := pos + 9 + |next.value.payload|;
    }
    assert recs + [] == recs;
  }

  lemma {:induction false} Onward(crc: Checksum, v: seq<Byte>, pos: nat, r: Record, recs: seq<Record>)
    requires DecodeAt(crc, v, pos) == Some((r, pos + 9 + |r.payload|))
    ensures recs + ReplayFrom(crc, v, pos) == (recs + [r]) + ReplayFrom(crc, v, pos + 9 + |r.payload|)
  {
  }

  lemma {:induction false} HeaderFields(v: seq<Byte>, pos: nat, h: seq<Byte>)
    requires pos + 9 <= |v| && h == v[pos..pos + 9]
    ensures h[..4] == v[pos..pos + 4] && h[4..8] == v[pos + 4..pos + 8] && h[8] == v[pos + 8]
  {
    SliceOfSlice(v, pos, pos + 9, 0, 4);
    SliceOfSlice(v, pos, pos + 9, 4, 8);
  }

  /** One round of the scan: header, payload, checksum. */
  method ReadRecord(disk: Disk, base: nat, crc: Checksum, pos: nat, logEnd: nat, ghost v: seq<Byte>) returns (r: Option<Record>)
    requires disk.Valid() && base <= disk.sectors && logEnd == 512 * (disk.sectors - base) && pos + 9 <= logEnd
    requires v == VolumeOf(disk.data[..], base)
    ensures var d := DecodeAt(crc, v, pos);
      if d.None? then r.None? else r == Some(d.value.0) && d.value.1 == pos + 9 + |d.value.0.payload|
  {
    var hdr := ReadBytes(disk, base, pos, 9, v);
    var h := hdr.value;
    HeaderFields(v, pos, h);
    var plen := Little(h[..4]);
    if plen > MAX_PAYLOAD || pos + 9 + plen > logEnd {
      return None;
    }
    var payload := ReadBytes(disk, base, pos + 9, plen, v);
    if Crc(crc, payload.value) != Little(h[4..8]) {
      return None;
    }
    return Some(Record(h[8], payload.value));
  }
}
