/** Linear memory: little-endian access, memory.grow and the host's growth request. */
module LinearMemory {
  import opened Options
  import opened Words

  /** No allocation reaches the x86-64 virtual address space limit. */
  const ADDRESS_LIMIT: nat := 0x1_0000_0000_0000

  /** `bytes` is the visible memory, `capacity` the size of the buffer behind it,
      `limit` the configured ceiling and `maxPages` the module's declared maximum. */
  datatype Memory = Memory(bytes: seq<nat>, capacity: nat, limit: nat, maxPages: Option<nat>)

  predicate IsBytes(s: seq<nat>) { forall i :: 0 <= i < |s| ==> s[i] < 256 }

  predicate Valid(m: Memory) {
    && IsBytes(m.bytes)
    && |m.bytes| % 65536 == 0
    && |m.bytes| <= m.capacity < ADDRESS_LIMIT
    && (m.maxPages.Some? ==> |m.bytes| <= m.maxPages.value * 65536)
  }

  predicate InBounds(m: Memory, address: nat, size: nat) { address + size <= |m.bytes| }

  function Read(m: Memory, address: nat, size: nat): nat
    requires InBounds(m, address, size)
  {
    Little(m.bytes[address..address + size])
  }

  function Write(m: Memory, address: nat, size: nat, v: nat): (r: Memory)
    requires InBounds(m, address, size)
    ensures |r.bytes| == |m.bytes|
    ensures Valid(m) ==> Valid(r)
  {
    m.(bytes := m.bytes[..address] + ToLittle(v, size) + m.bytes[address + size..])
  }

  /** A load gives back the stored low bytes, and a store reaches no other byte. */
  lemma {:induction false} StoreThenLoad(m: Memory, address: nat, size: nat, v: nat)
    requires InBounds(m, address, size)
    ensures Read(Write(m, address, size, v), address, size) == v % Pow256(size)
    ensures forall i :: 0 <= i < |m.bytes| && !(address <= i < address + size) ==> Write(m, address, size, v).bytes[i] == m.bytes[i]
  {
    LowBytes(v, size);
    assert Write(m, address, size, v).bytes[address..address + size] == ToLittle(v, size);
  }

  /** memory.copy: the bytes arrive as they were before. */
  function Copy(m: Memory, to: nat, from: nat, n: nat): (r: Memory)
    requires InBounds(m, to, n) && InBounds(m, from, n)
    ensures |r.bytes| == |m.bytes|
    ensures Valid(m) ==> Valid(r)
  {
    m.(bytes := m.bytes[..to] + m.bytes[from..from + n] + m.bytes[to + n..])
  }

  function Fill(m: Memory, to: nat, v: nat, n: nat): (r: Memory)
    requires InBounds(m, to, n) && v < 256
    ensures |r.bytes| == |m.bytes|
    ensures Valid(m) ==> Valid(r)
  {
    m.(bytes := m.bytes[..to] + seq(n, _ => v) + m.bytes[to + n..])
  }

  /** memory.grow. `granted` is the allocator's answer, asked only when the
      buffer behind the memory is too small. */
  function Grow(m: Memory, pages: nat, granted: bool): (r: Option<Memory>)
  {
    var grown := |m.bytes| + pages * 65536;
    if grown > m.limit || (m.maxPages.Some? && grown > m.maxPages.value * 65536) then None
    else if grown <= m.capacity then Some(m.(bytes := m.bytes + Zeros(pages * 65536)))
    else if granted then Some(m.(bytes := m.bytes + Zeros(pages * 65536), capacity := grown))
    else None
  }
}
