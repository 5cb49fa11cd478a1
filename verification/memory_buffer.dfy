/** The buffer behind a linear memory: how it is set up, how memory.grow and the host's growth
    request move it, and what every sequence of such requests keeps. */
module MemoryBuffer {
  import opened Options
  import opened Words
  import opened LM = LinearMemory

  /** Rounds up to a page in 64 bits; zero when the sum would not fit. */
  function AlignUp(v: nat): nat {
    if v > 0xffff_ffff_ffff_0000 then 0 else (v + 65535) / 65536 * 65536
  }

  lemma {:induction false} AlignUpFacts(v: nat)
    requires v < 0x1_0000_0000_0000_0000
    ensures AlignUp(v) % 65536 == 0 && (AlignUp(v) == 0 || v <= AlignUp(v) < v + 65536)
    ensures AlignUp(v) == 0 <==> v == 0 || v > 0xffff_ffff_ffff_0000
  {
  }

  /** The invariant of a memory that has been set up. */
  predicate Sized(m: Memory) {
    && IsBytes(m.bytes)
    && |m.bytes| % 65536 == 0
    && |m.bytes| <= m.capacity
    && |m.bytes| <= m.limit
    && (m.maxPages.Some? ==> |m.bytes| <= m.maxPages.value * 65536)
  }

  /** The host's request for at least `bytes` bytes. */
  function Ensure(m: Memory, bytes: nat, granted: bool): (bool, Memory) {
    var want := AlignUp(bytes);
    if want == 0 then (false, m)
    else if want <= |m.bytes| then (true, m)
    else if m.maxPages.Some? && want > m.maxPages.value * 65536 then (false, m)
    else if want + 8388608 > 0xffff_ffff_fffe_ffff then (false, m)
    else
      var capacity := AlignUp(want + 8388608);
      var m1 := m.(limit := if capacity > m.limit then capacity else m.limit);
      if want <= m.capacity then (true, m1.(bytes := m.bytes + Zeros(want - |m.bytes|)))
      else if granted then (true, m1.(bytes := m.bytes + Zeros(want - |m.bytes|), capacity := capacity))
      else (false, m1)
  }

  /** A growth request together with the allocator's answer, should it be asked. */
  datatype Request = ByPages(pages: nat, granted: bool) | ToBytes(bytes: nat, granted: bool)

  function Serve(m: Memory, req: Request): (bool, Memory) {
    match req
    case ByPages(pages, granted) => (match Grow(m, pages, granted) case Some(r) => (true, r) case None => (false, m))
    case ToBytes(bytes, granted) => Ensure(m, bytes, granted)
  }

  function Served(m: Memory, reqs: seq<Request>): Memory {
    if reqs == [] then m else Serve(Served(m, reqs[..|reqs| - 1]), reqs[|reqs| - 1]).1
  }

  /** The old bytes, then zeros, under the same declared maximum. */
  predicate Grew(m: Memory, r: Memory) {
    && |m.bytes| <= |r.bytes| && r.bytes == m.bytes + Zeros(|r.bytes| - |m.bytes|)
    && m.capacity <= r.capacity && m.limit <= r.limit && r.maxPages == m.maxPages
  }

  lemma {:induction false} ServeKeeps(m: Memory, req: Request)
    requires Sized(m) && (req.ToBytes? ==> req.bytes < 0x1_0000_0000_0000_0000)
    ensures var (ok, r) := Serve(m, req);
      && Sized(r) && Grew(m, r)
      && (!ok ==> r.bytes == m.bytes && r.capacity == m.capacity)
      && (ok && req.ToBytes? ==> req.bytes <= |r.bytes|)
      && (ok && req.ByPages? ==> |r.bytes| == |m.bytes| + req.pages * 65536)
  {
    assert m.bytes == m.bytes + Zeros(0);
    if req.ToBytes? {
      AlignUpFacts(req.bytes);
      var want := AlignUp(req.bytes);
      if want + 8388608 <= 0xffff_ffff_fffe_ffff { AlignUpFacts(want + 8388608); }
    } else {
      assert (|m.bytes| + req.pages * 65536) % 65536 == 0;
    }
  }

  lemma {:induction false} GrewTwice(a: Memory, b: Memory, c: Memory)
    requires Grew(a, b) && Grew(b, c)
    ensures Grew(a, c)
  {
    assert c.bytes == a.bytes + Zeros(|c.bytes| - |a.bytes|);
  }

  /** Whatever is requested, in whatever order and with whatever answers from the allocator,
      the size stays a page multiple within the capacity, the ceiling and the declared maximum,
      no byte is lost and every new byte is zero. */
  lemma {:induction false} ServedKeeps(m: Memory, reqs: seq<Request>)
    requires Sized(m) && forall i :: 0 <= i < |reqs| && reqs[i].ToBytes? ==> reqs[i].bytes < 0x1_0000_0000_0000_0000
    ensures Sized(Served(m, reqs)) && Grew(m, Served(m, reqs))
  {
    if reqs == [] {
      assert m.bytes == m.bytes + Zeros(0);
    } else {
      ServedKeeps(m, reqs[..|reqs| - 1]);
      ServeKeeps(Served(m, reqs[..|reqs| - 1]), reqs[|reqs| - 1]);
      GrewTwice(m, Served(m, reqs[..|reqs| - 1]), Served(m, reqs));
    }
  }

  /** A request that leaves the configured ceiling where it is: one that is refused before the
      capacity is computed, one that is met already, or one whose capacity is under it. */
  predicate UnderCeiling(m: Memory, req: Request) {
    req.ToBytes? ==>
      var want := AlignUp(req.bytes);
      || want == 0 || want <= |m.bytes|
      || (m.maxPages.Some? && want > m.maxPages.value * 65536)
      || want + 8388608 > 0xffff_ffff_fffe_ffff
      || AlignUp(want + 8388608) <= m.limit
  }

  lemma {:induction false} CeilingKeptIff(m: Memory, req: Request)
    ensures Serve(m, req).1.limit >= m.limit
    ensures Serve(m, req).1.limit == m.limit <==> UnderCeiling(m, req)
  {
  }

  /** Every request of a run stays under the ceiling when it is made. */
  predicate AllUnderCeiling(m: Memory, reqs: seq<Request>) {
    reqs == [] ||
    (AllUnderCeiling(m, reqs[..|reqs| - 1]) && UnderCeiling(Served(m, reqs[..|reqs| - 1]), reqs[|reqs| - 1]))
  }

  /** Over a run, the configured ceiling is kept exactly when every request stays under it. */
  lemma {:induction false} CeilingKeptOverRuns(m: Memory, reqs: seq<Request>)
    ensures Served(m, reqs).limit >= m.limit
    ensures Served(m, reqs).limit == m.limit <==> AllUnderCeiling(m, reqs)
  {
    if reqs != [] {
      CeilingKeptOverRuns(m, reqs[..|reqs| - 1]);
      CeilingKeptIff(Served(m, reqs[..|reqs| - 1]), reqs[|reqs| - 1]);
    }
  }

  /** So a refused memory.grow can succeed after a host's request that failed as well. */
  lemma {:induction false} CeilingIsRaised(bytes: seq<nat>)
    requires |bytes| == 65536 && IsBytes(bytes)
    ensures var m := Memory(bytes, 65536, 65536, None);
      && Grow(m, 1, true).None?
      && !Ensure(m, 131072, false).0
      && Grow(Ensure(m, 131072, false).1, 1, true).Some?
  {
    assert AlignUp(131072) == 131072 && AlignUp(131072 + 8388608) == 131072 + 8388608;
  }

  // ---- setting up ----

  /** Room for the first growths: half as much again, at least 4 MiB, under the ceiling. */
  function Reserve(minimum: nat, limit: nat): nat {
    var reserve := if minimum + minimum / 2 < 4194304 then 4194304 else minimum + minimum / 2;
    if reserve > limit then limit else reserve
  }

  function InitialCapacity(minimum: nat, limit: nat): (c: nat)
    ensures minimum <= c && c >= 1
  {
    var initial := if minimum == 0 then 65536 else minimum;
    if minimum > 1048576 && initial < Reserve(minimum, limit) then Reserve(minimum, limit) else initial
  }

  datatype Segment = Segment(offset: nat, bytes: seq<nat>)

  /** The data segments, written in order; nothing when one does not fit. */
  function Filled(s: seq<nat>, segs: seq<Segment>): (r: Option<seq<nat>>)
    ensures r.Some? ==> |r.value| == |s|
  {
    if segs == [] then Some(s) else
    var d := segs[|segs| - 1];
    match Filled(s, segs[..|segs| - 1])
    case None => None
    case Some(t) =>
      if d.offset + |d.bytes| > |s| then None
      else Some(t[..d.offset] + d.bytes + t[d.offset + |d.bytes|..])
  }

  class Buffer {
    var memory: array<nat>
    var size: nat
    var limit: nat
    const maxPages: Option<nat>

    ghost predicate Valid()
      reads this, memory
    {
      size <= memory.Length && Sized(View())
    }

    ghost function View(): Memory
      requires size <= memory.Length
      reads this, memory
    {
      Memory(memory[..size], memory.Length, limit, maxPages)
    }

    constructor (minimum: nat, limit: nat, maxPages: Option<nat>)
      requires minimum % 65536 == 0 && minimum <= limit && (maxPages.Some? ==> minimum <= maxPages.value * 65536)
      ensures Valid() && fresh(memory) && View() == Memory(Zeros(minimum), InitialCapacity(minimum, limit), limit, maxPages)
    {
      memory := new nat[InitialCapacity(minimum, limit)](_ => 0);
      size, this.limit, this.maxPages := minimum, limit, maxPages;
      new;
      assert memory[..size] == Zeros(minimum);
    }

    method Check(offset: nat, n: nat) returns (ok: bool)
      requires Valid()
      ensures ok <==> InBounds(View(), offset, n)
    {
      ok := offset <= size && n <= size - offset;
    }

    /** Writes the data segments; stops at the first that is out of bounds. */
    method Fill(segs: seq<Segment>) returns (ok: bool)
      requires Valid() && forall i :: 0 <= i < |segs| ==> IsBytes(segs[i].bytes)
      modifies memory
      ensures Valid()
      ensures ok <==> Filled(old(View()).bytes, segs).Some?
      ensures ok ==> View() == old(View()).(bytes := Filled(old(View()).bytes, segs).value)
    {
      for i := 0 to |segs|
        invariant Valid() && Filled(old(View()).bytes, segs[..i]) == Some(View().bytes)
      {
        var d := segs[i];
        assert segs[..i + 1][..i] == segs[..i];
        var fits := Check(d.offset, |d.bytes|);
        if !fits {
          FilledFails(old(View()).bytes, segs, i + 1);
          return false;
        }
        Put(d.offset, d.bytes);
      }
      assert segs[..|segs|] == segs;
      return true;
    }

    method Put(offset: nat, bytes: seq<nat>)
      requires Valid() && IsBytes(bytes) && offset + |bytes| <= size
      modifies memory
      ensures Valid() && View() == old(View()).(bytes := old(View().bytes[..offset]) + bytes + old(View().bytes[offset + |bytes|..]))
    {
      forall i | 0 <= i < |bytes| { memory[offset + i] := bytes[i]; }
      assert memory[..size] == old(memory[..size][..offset]) + bytes + old(memory[..size][offset + |bytes|..]);
    }

    /** Copies the visible bytes to a new buffer whose rest is zero. */
    method Reallocate(capacity: nat)
      requires Valid() && size <= capacity
      modifies this
      ensures Valid() && fresh(memory) && memory.Length == capacity && size == old(size) && limit == old(limit)
      ensures View().bytes == old(View().bytes)
    {
      var bigger := new nat[capacity](_ => 0);
      forall i | 0 <= i < size { bigger[i] := memory[i]; }
      assert bigger[..size] == memory[..size];
      memory := bigger;
    }

    /** Zeroes the buffer up to the new size. */
    method Extend(grown: nat)
      requires Valid() && size <= grown <= memory.Length && grown % 65536 == 0 && grown <= limit
      requires maxPages.Some? ==> grown <= maxPages.value * 65536
      modifies this`size, memory
      ensures Valid() && View() == old(View()).(bytes := old(View().bytes) + Zeros(grown - old(size)))
    {
      forall i | size <= i < grown { memory[i] := 0; }
      assert memory[..grown] == old(memory[..size]) + Zeros(grown - size);
      size := grown;
    }

    /** memory.grow. */
    method GrowBy(pages: nat, granted: bool) returns (ok: bool, oldPages: nat)
      requires Valid()
      modifies this, memory
      ensures Valid() && oldPages == old(size) / 65536
      ensures (ok, View()) == Serve(old(View()), ByPages(pages, granted))
    {
      oldPages := size / 65536;
      ghost var v := View();
      assert v.bytes + Zeros(0) == v.bytes;
      ServeKeeps(v, ByPages(pages, granted));
      var grown := size + pages * 65536;
      if grown > limit || (maxPages.Some? && grown > maxPages.value * 65536) { return false, oldPages; }
      if grown == size { return true, oldPages; }
      if grown <= memory.Length {
        Extend(grown);
        return true, oldPages;
      }
      if !granted { return false, oldPages; }
      Reallocate(grown);
      Extend(grown);
      ok := true;
    }

    /** The host's request. */
    method AtLeast(bytes: nat, granted: bool) returns (ok: bool)
      requires Valid() && bytes < 0x1_0000_0000_0000_0000
      modifies this, memory
      ensures Valid() && (ok, View()) == Serve(old(View()), ToBytes(bytes, granted))
    {
      ghost var v := View();
      ServeKeeps(v, ToBytes(bytes, granted));
      AlignUpFacts(bytes);
      var want := AlignUp(bytes);
      if want == 0 { return false; }
      if want <= size { return true; }
      if maxPages.Some? && want > maxPages.value * 65536 { return false; }
      if want + 8388608 > 0xffff_ffff_fffe_ffff { return false; }
      var capacity := AlignUp(want + 8388608);
      AlignUpFacts(want + 8388608);
      if capacity > limit { limit := capacity; }
      if want > memory.Length {
        if !granted { return false; }
        Reallocate(capacity);
      }
      Extend(want);
      ok := true;
    }
  }

  lemma {:induction false} FilledFails(s: seq<nat>, segs: seq<Segment>, k: nat)
    requires k <= |segs| && Filled(s, segs[..k]).None?
    ensures Filled(s, segs).None?
    decreases |segs| - k
  {
    if k == |segs| {
      assert segs[..k] == segs;
    } else {
      assert segs[..k + 1][..k] == segs[..k];
      FilledFails(s, segs, k + 1);
    }
  }
}
