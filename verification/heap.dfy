/** The kernel heap: power-of-two bins and a first-fit list of large blocks over a pool that
    only grows. Sizes are 64-bit and wrap. */
module Heap {
  import opened Options
  import opened Words

  const LARGE: nat := 0xffff_ffff_ffff_ffff

  /** A block's header. */
  datatype Hdr = Hdr(size: nat, nextFree: Option<nat>, cls: nat)

  // ---- sizes ----

  /** The block size for a request: header added, rounded up to 16, in 64 bits. */
  function Need(n: nat): nat {
    var m := if n == 0 then 1 else n;
    (m + 47) % 0x1_0000_0000_0000_0000 / 16 * 16
  }

  function Align16(p: nat): (q: nat)
    ensures q % 16 == 0 && p <= q < p + 16
  {
    (p + 15) / 16 * 16
  }

  /** The rounded size covers the request exactly when the sum does not wrap. */
  lemma {:induction false} NeedCoversIff(n: nat)
    requires 0 < n < 0x1_0000_0000_0000_0000
    ensures Need(n) >= n + 32 <==> n + 47 < 0x1_0000_0000_0000_0000
  {
    if n + 47 < 0x1_0000_0000_0000_0000 {
      assert (n + 47) % 0x1_0000_0000_0000_0000 == n + 47;
    } else {
      assert (n + 47) % 0x1_0000_0000_0000_0000 == n + 47 - 0x1_0000_0000_0000_0000;
    }
  }

  /** mm_alloc: the aligned address and the new pool pointer, or nothing. */
  function Carve(ptr: nat, end: nat, n: nat): Option<(nat, nat)> {
    var p := Align16(ptr);
    var q := (p + n) % 0x1_0000_0000_0000_0000;
    if q > end then None else Some((p, q))
  }

  /** What is carved lies inside the pool exactly when the address does not wrap. */
  lemma {:induction false} CarveInsideIff(ptr: nat, end: nat, n: nat)
    requires ptr <= end <= 0x1_0000_0000 && n < 0x1_0000_0000_0000_0000 && Carve(ptr, end, n).Some?
    ensures var (p, q) := Carve(ptr, end, n).value;
      (p + n <= end && q == p + n) <==> p + n < 0x1_0000_0000_0000_0000
  {
    var (p, q) := Carve(ptr, end, n).value;
    if p + n < 0x1_0000_0000_0000_0000 {
      assert (p + n) % 0x1_0000_0000_0000_0000 == p + n;
    }
  }

  /** The largest request is given a block of 32 bytes, all of it header, and one that reaches
      past the address space moves the pool pointer back to zero. */
  lemma {:induction false} WrapExamples()
    ensures Need(0xffff_ffff_ffff_ffff) == 32 && !Fine(0, 0xffff_ffff_ffff_ffff)
    ensures Need(0xffff_ffff_ffef_ffe0) == 0xffff_ffff_fff0_0000
    ensures Carve(0x10_0000, 0x20_0000, 0xffff_ffff_fff0_0000) == Some((0x10_0000, 0))
  {
    var n := 0xffff_ffff_ffef_ffe0;
    assert (n + 47) % 0x1_0000_0000_0000_0000 == n + 47;
    assert (0x10_0000 + 0xffff_ffff_fff0_0000) % 0x1_0000_0000_0000_0000 == 0;
  }

  /** The request wraps neither when rounded nor when added to the pool pointer. */
  predicate Fine(ptr: nat, n: nat) {
    n + 47 < 0x1_0000_0000_0000_0000 && Align16(ptr) + Need(n) < 0x1_0000_0000_0000_0000
  }

  lemma {:induction false} NeedOf(n: nat)
    requires n + 47 < 0x1_0000_0000_0000_0000
    ensures Need(n) % 16 == 0 && 48 <= Need(n) && n + 32 <= Need(n) <= n + 48
  {
    var m := if n == 0 then 1 else n;
    assert (m + 47) % 0x1_0000_0000_0000_0000 == m + 47;
  }

  lemma {:induction false} NeedFacts(n: nat, ptr: nat)
    requires ptr <= 0x1_0000_0000 && n < 0x1_0000_0000_0000_0000
    ensures Need(n) < 0x1_0000_0000_0000_0000
    ensures n + 47 < 0x1_0000_0000_0000_0000 ==> Need(n) % 16 == 0 && 48 <= Need(n) && n + 32 <= Need(n) <= n + 48
    ensures n + 47 >= 0x1_0000_0000_0000_0000 ==> Need(n) <= 32
    ensures Need(n) < 1048576 && n + 47 < 0x1_0000_0000_0000_0000 ==> Fine(ptr, n)
  {
    if n + 47 < 0x1_0000_0000_0000_0000 {
      NeedOf(n);
    } else {
      assert (n + 47) % 0x1_0000_0000_0000_0000 == n + 47 - 0x1_0000_0000_0000_0000;
    }
  }

  /** The smallest class whose size covers n, or 21 when there is none. */
  method ClsOf(n: nat) returns (c: nat)
    ensures n <= 1048576 ==> ClassOf(n, c)
    ensures n > 1048576 ==> c == 21
  {
    c := 4;
    while c < 21 && Pow2(c) < n
      invariant 4 <= c <= 21 && forall k :: 4 <= k < c ==> Pow2(k) < n
    {
      c := c + 1;
    }
    ClassSizes();
    if c < 21 { Pow2Grows(c, 20); }
  }

  /** c is the smallest class that covers n. */
  predicate ClassOf(n: nat, c: nat) {
    4 <= c <= 20 && n <= Pow2(c) && forall k :: 4 <= k < c ==> Pow2(k) < n
  }

  lemma {:induction false} ClassSizes()
    ensures Pow2(19) == 524288 && Pow2(20) == 1048576
  {
    assert Pow2(5) == 32 && Pow2(10) == 1024 && Pow2(15) == 32768;
  }

  lemma {:induction false} ClassFacts(n: nat, c: nat)
    requires ClassOf(n, c)
    ensures Pow2(c) <= 1048576
    ensures n >= 48 ==> Pow2(c) % 16 == 0 && Pow2(c) >= 64
    ensures n <= 32 ==> c <= 5 && Pow2(c) <= 32
  {
    ClassSizes();
    Pow2Grows(c, 20);
    assert Pow2(5) == 32 && Pow2(4) == 16;
    if c > 5 {
      assert Pow2(5) < n;
      Pow2Sixteen(c);
      Pow2Grows(6, c);
    }
  }

  lemma {:induction false} Pow2Sixteen(c: nat)
    requires c >= 4
    ensures Pow2(c) % 16 == 0
  {
    if c > 4 { Pow2Sixteen(c - 1); } else { assert Pow2(2) == 4; }
  }

  // ---- the invariant ----

  /** The list a block is freed to: its bin, or 21 for the large list. */
  function Home(h: Hdr): nat {
    if h.cls == LARGE || h.size >= 1048576 then 21 else h.cls
  }

  predicate SizeOk(h: Hdr) {
    && h.size % 16 == 0 && h.size > 32
    && (if h.cls == LARGE then h.size >= 1048576 else 4 <= h.cls <= 20 && h.size == Pow2(h.cls))
  }

  /** Block a lies in the used part of the pool. */
  predicate Placed(base: nat, ptr: nat, hdrs: map<nat, Hdr>, a: nat)
    requires a in hdrs
  {
    base <= a && a % 16 == 0 && a + hdrs[a].size <= ptr && SizeOk(hdrs[a])
  }

  predicate Apart(hdrs: map<nat, Hdr>, a: nat, b: nat)
    requires a in hdrs && b in hdrs
  {
    a + hdrs[a].size <= b || b + hdrs[b].size <= a
  }

  ghost predicate BlocksOk(base: nat, ptr: nat, hdrs: map<nat, Hdr>) {
    && (forall a {:trigger Placed(base, ptr, hdrs, a)} :: a in hdrs ==> Placed(base, ptr, hdrs, a))
    && (forall a, b {:trigger Apart(hdrs, a, b)} :: a in hdrs && b in hdrs && a != b ==> Apart(hdrs, a, b))
  }

  predicate NoDup(list: seq<nat>) {
    forall i, j {:trigger list[i], list[j]} :: 0 <= i < j < |list| ==> list[i] != list[j]
  }

  function After(list: seq<nat>, i: nat): Option<nat> {
    if i < |list| then Some(list[i]) else None
  }

  predicate Link(hdrs: map<nat, Hdr>, list: seq<nat>, i: nat)
    requires i < |list|
  {
    list[i] in hdrs && hdrs[list[i]].nextFree == After(list, i + 1)
  }

  /** The links from `head` on spell out the list. */
  ghost predicate Linked(hdrs: map<nat, Hdr>, head: Option<nat>, list: seq<nat>) {
    head == After(list, 0) && NoDup(list) && forall i {:trigger Link(hdrs, list, i)} :: 0 <= i < |list| ==> Link(hdrs, list, i)
  }

  /** List c, reached from its head: its blocks are free and at home there. */
  ghost predicate Chain(hdrs: map<nat, Hdr>, live: set<nat>, head: Option<nat>, list: seq<nat>, c: nat) {
    && Linked(hdrs, head, list)
    && forall a {:trigger a in list} :: a in list ==> a in hdrs && a !in live && Home(hdrs[a]) == c
  }

  /** A block is live or on its home list, never both. */
  ghost predicate Accounted(hdrs: map<nat, Hdr>, live: set<nat>, free: seq<seq<nat>>, a: nat)
    requires a in hdrs && |free| == 22
  {
    Home(hdrs[a]) < 22 && (a in live <==> a !in free[Home(hdrs[a])])
  }

  ghost predicate Sorted(hdrs: map<nat, Hdr>, live: set<nat>, heads: seq<Option<nat>>, free: seq<seq<nat>>) {
    && |heads| == |free| == 22
    && live <= hdrs.Keys
    && (forall c {:trigger free[c]} :: 0 <= c < 22 ==> Chain(hdrs, live, heads[c], free[c], c))
    && (forall a {:trigger Accounted(hdrs, live, free, a)} :: a in hdrs ==> Accounted(hdrs, live, free, a))
  }

  predicate SameSizes(h0: map<nat, Hdr>, h1: map<nat, Hdr>) {
    h0.Keys == h1.Keys && forall a :: a in h0 ==> h1[a].size == h0[a].size && h1[a].cls == h0[a].cls
  }

  // ---- list surgery ----

  lemma {:induction false} LinkedElsewhere(h0: map<nat, Hdr>, h1: map<nat, Hdr>, head: Option<nat>, list: seq<nat>)
    requires Linked(h0, head, list) && forall a :: a in list && a in h0 ==> a in h1 && h1[a] == h0[a]
    ensures Linked(h1, head, list)
  {
    forall i | 0 <= i < |list| ensures Link(h1, list, i) { assert Link(h0, list, i); }
  }

  function Without(list: seq<nat>, i: nat): seq<nat>
    requires i < |list|
  {
    list[..i] + list[i + 1..]
  }

  lemma {:induction false} WithoutHas(list: seq<nat>, i: nat, a: nat)
    requires i < |list| && NoDup(list)
    ensures a in Without(list, i) <==> a in list && a != list[i]
  {
    if a in list && a != list[i] {
      var k :| 0 <= k < |list| && list[k] == a;
      assert Without(list, i)[if k < i then k else k - 1] == a;
    }
  }

  /** The first block comes off by moving the head. */
  lemma {:induction false} LinkedTail(hdrs: map<nat, Hdr>, head: Option<nat>, list: seq<nat>)
    requires Linked(hdrs, head, list) && list != []
    ensures list[0] in hdrs && Linked(hdrs, hdrs[list[0]].nextFree, Without(list, 0))
  {
    var rest := Without(list, 0);
    assert Link(hdrs, list, 0) && rest == list[1..];
    forall i | 0 <= i < |rest| ensures Link(hdrs, rest, i) { assert Link(hdrs, list, i + 1); }
  }

  /** A later block comes off by pointing its predecessor past it. */
  lemma {:induction false} LinkedPast(hdrs: map<nat, Hdr>, head: Option<nat>, list: seq<nat>, i: nat)
    requires Linked(hdrs, head, list) && 0 < i < |list|
    ensures list[i - 1] in hdrs && list[i] in hdrs
    ensures Linked(hdrs[list[i - 1] := hdrs[list[i - 1]].(nextFree := hdrs[list[i]].nextFree)], head, Without(list, i))
  {
    assert Link(hdrs, list, i - 1) && Link(hdrs, list, i);
    var h1 := hdrs[list[i - 1] := hdrs[list[i - 1]].(nextFree := hdrs[list[i]].nextFree)];
    var rest := Without(list, i);
    assert forall k :: 0 <= k < |rest| ==> rest[k] == list[if k < i then k else k + 1];
    forall k | 0 <= k < |rest| ensures Link(h1, rest, k) {
      assert Link(hdrs, list, if k < i then k else k + 1);
    }
  }

  lemma {:induction false} LinkedPush(hdrs: map<nat, Hdr>, head: Option<nat>, list: seq<nat>, a: nat)
    requires Linked(hdrs, head, list) && a in hdrs && a !in list
    ensures Linked(hdrs[a := hdrs[a].(nextFree := head)], Some(a), [a] + list)
  {
    var h1 := hdrs[a := hdrs[a].(nextFree := head)];
    var l1 := [a] + list;
    forall k | 0 <= k < |l1| ensures Link(h1, l1, k) {
      if k > 0 { assert Link(hdrs, list, k - 1); }
    }
  }

  // ---- what the steps keep ----

  lemma {:induction false} SizesKeepBlocks(base: nat, ptr: nat, h0: map<nat, Hdr>, h1: map<nat, Hdr>)
    requires BlocksOk(base, ptr, h0) && SameSizes(h0, h1)
    ensures BlocksOk(base, ptr, h1)
  {
    forall a | a in h1 ensures Placed(base, ptr, h1, a) { assert Placed(base, ptr, h0, a); }
    forall a, b | a in h1 && b in h1 && a != b ensures Apart(h1, a, b) { assert Apart(h0, a, b); }
  }

  /** A block moves between the live set and its home list. */
  lemma {:induction false} Moved(h0: map<nat, Hdr>, h1: map<nat, Hdr>, live0: set<nat>, live1: set<nat>,
              heads: seq<Option<nat>>, free: seq<seq<nat>>, a: nat, head: Option<nat>, list: seq<nat>)
    requires Sorted(h0, live0, heads, free) && SameSizes(h0, h1) && a in h0
    requires live1 == live0 + {a} || live1 == live0 - {a}
    requires Home(h0[a]) < 22 && Linked(h1, head, list)
    requires forall b :: b in h0 && b != a && b !in free[Home(h0[a])] ==> h1[b] == h0[b]
    requires forall b {:trigger b in list} :: b in list <==> if b == a then a !in live1 else b in free[Home(h0[a])]
    ensures Sorted(h1, live1, heads[Home(h0[a]) := head], free[Home(h0[a]) := list])
  {
    var c := Home(h0[a]);
    var f1, g1 := free[c := list], heads[c := head];
    forall k | 0 <= k < 22 ensures Chain(h1, live1, g1[k], f1[k], k) {
      assert Chain(h0, live0, heads[k], free[k], k);
      assert Chain(h0, live0, heads[c], free[c], c);
      if k != c { LinkedElsewhere(h0, h1, heads[k], free[k]); }
    }
    forall b | b in h1 ensures Accounted(h1, live1, f1, b) { assert Accounted(h0, live0, free, b); }
  }

  /** A fresh block at the end of the used pool. */
  lemma {:induction false} CarvedOk(base: nat, ptr: nat, p: nat, h0: map<nat, Hdr>, live: set<nat>, heads: seq<Option<nat>>, free: seq<seq<nat>>, h: Hdr)
    requires base <= ptr <= p && p % 16 == 0 && SizeOk(h)
    requires BlocksOk(base, ptr, h0) && Sorted(h0, live, heads, free)
    ensures p !in h0
    ensures BlocksOk(base, p + h.size, h0[p := h]) && Sorted(h0[p := h], live + {p}, heads, free)
  {
    var h1, live1 := h0[p := h], live + {p};
    assert p in h0 ==> Placed(base, ptr, h0, p);
    forall a | a in h1 ensures Placed(base, p + h.size, h1, a) { assert a != p ==> Placed(base, ptr, h0, a); }
    forall a, b | a in h1 && b in h1 && a != b ensures Apart(h1, a, b) {
      if a == p { assert Placed(base, ptr, h0, b); }
      else if b == p { assert Placed(base, ptr, h0, a); }
      else { assert Apart(h0, a, b); }
    }
    forall k | 0 <= k < 22 ensures Chain(h1, live1, heads[k], free[k], k) {
      assert Chain(h0, live, heads[k], free[k], k);
      LinkedElsewhere(h0, h1, heads[k], free[k]);
    }
    forall a | a in h1 ensures Accounted(h1, live1, free, a) {
      if a != p { assert Accounted(h0, live, free, a); }
      else { assert Chain(h0, live, heads[Home(h)], free[Home(h)], Home(h)); }
    }
  }

  /** A free block that a request of this rounded size is served from. */
  ghost predicate Reusable(hdrs: map<nat, Hdr>, free: seq<seq<nat>>, need: nat)
    requires |free| == 22
  {
    if need >= 1048576 then exists a :: a in free[21] && a in hdrs && hdrs[a].size >= need
    else exists c: nat {:trigger free[c]} :: ClassOf(need, c) && free[c] != []
  }

  /** A block that was made for requests of this rounded size, or for larger ones. */
  predicate Suits(h: Hdr, need: nat) {
    if need >= 1048576 then h.size >= need else h.cls != LARGE && ClassOf(need, h.cls)
  }

  /** The free block that a request takes: first fit in the large list, the head of a bin. */
  ghost predicate Chosen(hdrs: map<nat, Hdr>, free: seq<seq<nat>>, need: nat, a: nat)
    requires |free| == 22
  {
    if need >= 1048576 then FirstFit(hdrs, free[21], need, a)
    else exists c: nat {:trigger free[c]} :: ClassOf(need, c) && free[c] != [] && free[c][0] == a
  }

  ghost predicate FirstFit(hdrs: map<nat, Hdr>, list: seq<nat>, need: nat, a: nat) {
    exists i :: 0 <= i < |list| && list[i] == a && a in hdrs && hdrs[a].size >= need
      && forall k :: 0 <= k < i ==> list[k] in hdrs && hdrs[list[k]].size < need
  }

  lemma {:induction false} ClassUnique(n: nat, c: nat, d: nat)
    requires ClassOf(n, c) && ClassOf(n, d)
    ensures c == d
  {
    assert c < d ==> Pow2(c) < n;
    assert d < c ==> Pow2(d) < n;
  }

  /** The bytes taken from the pool when nothing is reused. */
  ghost predicate FreshSize(need: nat, h: Hdr) {
    h.nextFree == None
    && if need >= 1048576 then h.size == need && h.cls == LARGE else ClassOf(need, h.cls) && h.size == Pow2(h.cls)
  }

  lemma {:induction false} NothingIn(list: seq<nat>)
    ensures list == [] || exists a :: a in list
  {
    if list != [] { assert list[0] in list; }
  }

  lemma {:induction false} ReusableFits(base: nat, ptr: nat, hdrs: map<nat, Hdr>, free: seq<seq<nat>>, need: nat)
    requires BlocksOk(base, ptr, hdrs) && |free| == 22 && need >= 1048576 && Reusable(hdrs, free, need)
    ensures need <= ptr
  {
    var a :| a in free[21] && a in hdrs && hdrs[a].size >= need;
    assert Placed(base, ptr, hdrs, a);
  }

  /** Requests just under 1 MiB are never served from a free list: their blocks are freed to the
      large list, which only requests of 1 MiB and more look at. */
  lemma {:induction false} JustUnderNeverReused(base: nat, ptr: nat, hdrs: map<nat, Hdr>, live: set<nat>, heads: seq<Option<nat>>, free: seq<seq<nat>>, need: nat)
    requires BlocksOk(base, ptr, hdrs) && Sorted(hdrs, live, heads, free)
    requires 524288 < need < 1048576 || need <= 32
    ensures !Reusable(hdrs, free, need)
  {
    forall c: nat | ClassOf(need, c) ensures free[c] == [] {
      assert Chain(hdrs, live, heads[c], free[c], c);
      ClassSizes();
      ClassFacts(need, c);
      if need > 524288 && c < 20 { Pow2Grows(c, 19); }
      forall a | a in hdrs ensures Home(hdrs[a]) != c { assert Placed(base, ptr, hdrs, a); }
      NothingIn(free[c]);
    }
  }

  /** Sizes for which a free block does not help. */
  predicate NeverReused(need: nat) { 524288 < need < 1048576 }

  /** A request is served from a free list exactly when some free block suits it and its size
      is not just under 1 MiB. */
  lemma {:induction false} ReusedIff(base: nat, ptr: nat, hdrs: map<nat, Hdr>, live: set<nat>, heads: seq<Option<nat>>, free: seq<seq<nat>>, need: nat)
    requires BlocksOk(base, ptr, hdrs) && Sorted(hdrs, live, heads, free) && need > 32
    ensures Reusable(hdrs, free, need) <==>
      !NeverReused(need) && exists a :: a in hdrs && a !in live && Suits(hdrs[a], need)
  {
    if NeverReused(need) {
      JustUnderNeverReused(base, ptr, hdrs, live, heads, free, need);
    } else if Reusable(hdrs, free, need) {
      var a := ReusedSuits(hdrs, live, heads, free, need);
      assert a in hdrs && a !in live && Suits(hdrs[a], need);
    } else if a :| a in hdrs && a !in live && Suits(hdrs[a], need) {
      SuitableReused(base, ptr, hdrs, live, heads, free, a, need);
    }
  }

  lemma {:induction false} ReusedSuits(hdrs: map<nat, Hdr>, live: set<nat>, heads: seq<Option<nat>>, free: seq<seq<nat>>, need: nat) returns (a: nat)
    requires Sorted(hdrs, live, heads, free) && Reusable(hdrs, free, need)
    ensures a in hdrs && a !in live && Suits(hdrs[a], need)
  {
    if need >= 1048576 {
      assert Chain(hdrs, live, heads[21], free[21], 21);
      a :| a in free[21] && a in hdrs && hdrs[a].size >= need;
    } else {
      var c: nat :| ClassOf(need, c) && free[c] != [];
      assert Chain(hdrs, live, heads[c], free[c], c);
      a := free[c][0];
      assert a in free[c];
    }
  }

  lemma {:induction false} SuitableReused(base: nat, ptr: nat, hdrs: map<nat, Hdr>, live: set<nat>, heads: seq<Option<nat>>, free: seq<seq<nat>>, a: nat, need: nat)
    requires BlocksOk(base, ptr, hdrs) && Sorted(hdrs, live, heads, free)
    requires a in hdrs && a !in live && Suits(hdrs[a], need) && !NeverReused(need)
    ensures Reusable(hdrs, free, need)
  {
    assert Accounted(hdrs, live, free, a) && Placed(base, ptr, hdrs, a);
    if need < 1048576 {
      BelowBand(need, hdrs[a].cls);
      assert free[hdrs[a].cls] != [];
    }
  }

  lemma {:induction false} BelowBand(need: nat, c: nat)
    requires need <= 524288 && ClassOf(need, c)
    ensures c < 20 && Pow2(c) < 1048576
  {
    ClassSizes();
    var below := Pow2(19);
    assert c == 20 ==> below < need;
    Pow2Grows(c, 19);
  }

  /** A block at the head of its home list is the one that the next request it suits takes, or
      none is taken. */
  lemma {:induction false} FreedFirst(base: nat, ptr: nat, hdrs: map<nat, Hdr>, live: set<nat>, heads: seq<Option<nat>>, free: seq<seq<nat>>, a: nat, need: nat)
    requires BlocksOk(base, ptr, hdrs) && Sorted(hdrs, live, heads, free) && need > 32
    requires a in hdrs && a !in live && Suits(hdrs[a], need) && Home(hdrs[a]) < 22
    requires free[Home(hdrs[a])] != [] && free[Home(hdrs[a])][0] == a
    ensures Reusable(hdrs, free, need) <==> !NeverReused(need)
    ensures !NeverReused(need) ==> forall b :: Chosen(hdrs, free, need, b) ==> b == a
    ensures NeverReused(need) ==> forall h :: FreshSize(need, h) ==> h.size == 1048576
  {
    ReusedIff(base, ptr, hdrs, live, heads, free, need);
    if NeverReused(need) {
      BandIsMegabyte(need);
    } else {
      forall b | Chosen(hdrs, free, need, b) ensures b == a { FreedChosen(base, ptr, hdrs, free, a, need, b); }
    }
  }

  lemma {:induction false} BandIsMegabyte(need: nat)
    requires NeverReused(need)
    ensures forall h :: FreshSize(need, h) ==> h.size == 1048576
  {
    forall h | FreshSize(need, h) ensures h.size == 1048576 { InBand(need, h.cls); }
  }

  lemma {:induction false} InBand(need: nat, c: nat)
    requires NeverReused(need) && ClassOf(need, c)
    ensures Pow2(c) == 1048576
  {
    ClassSizes();
    if c < 20 { Pow2Grows(c, 19); }
  }

  lemma {:induction false} FreedChosen(base: nat, ptr: nat, hdrs: map<nat, Hdr>, free: seq<seq<nat>>, a: nat, need: nat, b: nat)
    requires BlocksOk(base, ptr, hdrs) && |free| == 22 && !NeverReused(need)
    requires a in hdrs && Suits(hdrs[a], need) && Home(hdrs[a]) < 22
    requires free[Home(hdrs[a])] != [] && free[Home(hdrs[a])][0] == a && Chosen(hdrs, free, need, b)
    ensures b == a
  {
    assert Placed(base, ptr, hdrs, a);
    if need < 1048576 {
      var c: nat :| ClassOf(need, c) && free[c] != [] && free[c][0] == b;
      ClassUnique(need, c, hdrs[a].cls);
      BelowBand(need, c);
    }
  }

  /** Every block is live, or on exactly one free list and there once. */
  lemma {:induction false} Partition(hdrs: map<nat, Hdr>, live: set<nat>, heads: seq<Option<nat>>, free: seq<seq<nat>>, a: nat)
    requires Sorted(hdrs, live, heads, free) && a in hdrs
    ensures a in live <==> forall c {:trigger free[c]} :: 0 <= c < 22 ==> a !in free[c]
    ensures a !in live ==> exists c, i :: 0 <= c < 22 && 0 <= i < |free[c]| && free[c][i] == a
    ensures forall c, d, i, j ::
      0 <= c < 22 && 0 <= i < |free[c]| && 0 <= d < 22 && 0 <= j < |free[d]| && free[c][i] == a && free[d][j] == a
      ==> c == d && i == j
  {
    assert Accounted(hdrs, live, free, a);
    forall c | 0 <= c < 22 ensures Chain(hdrs, live, heads[c], free[c], c) {}
    forall c, d, i, j | 0 <= c < 22 && 0 <= i < |free[c]| && 0 <= d < 22 && 0 <= j < |free[d]|
      && free[c][i] == a && free[d][j] == a ensures c == d && i == j
    {
      assert a in free[c] && a in free[d];
    }
  }

  predicate StartsWith(s: seq<Byte>, t: seq<Byte>) { |t| <= |s| && s[..|t|] == t }

  /** m1 is m0 with n bytes copied from p to q. */
  predicate Copied(m0: seq<Byte>, m1: seq<Byte>, q: nat, p: nat, n: nat)
    requires q + n <= |m0| && p + n <= |m0|
  {
    |m1| == |m0| && forall k :: 0 <= k < |m1| ==> m1[k] == m0[if q <= k < q + n then k - q + p else k]
  }

  lemma {:induction false} CopiedInto(m0: seq<Byte>, m1: seq<Byte>, q: nat, p: nat, n: nat, hi: nat)
    requires q + n <= hi <= |m0| && p + n <= |m0| && Copied(m0, m1, q, p, n)
    ensures StartsWith(m1[q..hi], m0[p..p + n])
  {
    assert m1[q..hi][..n] == m0[p..p + n];
  }

  lemma {:induction false} CopiedBeside(m0: seq<Byte>, m1: seq<Byte>, q: nat, p: nat, n: nat, lo: nat, hi: nat)
    requires q + n <= |m0| && p + n <= |m0| && Copied(m0, m1, q, p, n)
    requires lo <= hi <= |m0| && (hi <= q || q + n <= lo)
    ensures m1[lo..hi] == m0[lo..hi]
  {
  }

  ghost predicate Inside(hdrs: map<nat, Hdr>, m: seq<Byte>) {
    forall a :: a in hdrs ==> hdrs[a].size >= 32 && a + hdrs[a].size <= |m|
  }

  /** The bytes a block's owner sees. */
  ghost function Payload(hdrs: map<nat, Hdr>, m: seq<Byte>, a: nat): seq<Byte>
    requires Inside(hdrs, m) && a in hdrs
  {
    m[a + 32..a + hdrs[a].size]
  }

  lemma {:induction false} AllInside(base: nat, ptr: nat, hdrs: map<nat, Hdr>, m: seq<Byte>)
    requires BlocksOk(base, ptr, hdrs) && ptr <= |m|
    ensures Inside(hdrs, m)
  {
    forall a | a in hdrs ensures hdrs[a].size >= 32 && a + hdrs[a].size <= |m| { assert Placed(base, ptr, hdrs, a); }
  }

  /** Copying one block's bytes into another leaves every other block's bytes alone. */
  lemma {:induction false} BlockCopied(base: nat, ptr: nat, hdrs: map<nat, Hdr>, m0: seq<Byte>, m1: seq<Byte>, a: nat, b: nat)
    requires BlocksOk(base, ptr, hdrs) && a in hdrs && b in hdrs && a != b && hdrs[a].size <= hdrs[b].size
    requires Inside(hdrs, m0) && Copied(m0, m1, b + 32, a + 32, hdrs[a].size - 32)
    ensures StartsWith(Payload(hdrs, m1, b), Payload(hdrs, m0, a))
    ensures forall d :: d in hdrs && d != b ==> Payload(hdrs, m1, d) == Payload(hdrs, m0, d)
  {
    CopiedInto(m0, m1, b + 32, a + 32, hdrs[a].size - 32, b + hdrs[b].size);
    forall d | d in hdrs && d != b ensures Payload(hdrs, m1, d) == Payload(hdrs, m0, d) {
      assert Apart(hdrs, d, b);
      CopiedBeside(m0, m1, b + 32, a + 32, hdrs[a].size - 32, d + 32, d + hdrs[d].size);
    }
  }

  class Allocator {
    const base: nat
    const end: nat
    const mem: array<Byte>
    var ptr: nat
    var hdrs: map<nat, Hdr>
    var heads: seq<Option<nat>>
    ghost var live: set<nat>
    ghost var free: seq<seq<nat>>

    ghost predicate Valid()
      reads this
    {
      && base <= ptr <= end <= 0x1_0000_0000 && mem.Length == end
      && BlocksOk(base, ptr, hdrs) && Sorted(hdrs, live, heads, free)
    }

    constructor (base: nat, mem: array<Byte>)
      requires base <= mem.Length <= 0x1_0000_0000
      ensures Valid() && live == {} && this.mem == mem && this.base == ptr == base && end == mem.Length
    {
      this.base, this.end, this.mem, ptr := base, mem.Length, mem, base;
      hdrs, heads, live, free := map[], seq(22, _ => None), {}, seq(22, _ => []);
    }

    /** First fit over the large list. */
    method LargeFit(need: nat) returns (r: Option<nat>)
      requires Valid()
      modifies `hdrs, `heads, `live, `free
      ensures Valid() && SameSizes(old(hdrs), hdrs)
      ensures r.None? <==> forall a :: a in old(free[21]) && a in old(hdrs) ==> old(hdrs)[a].size < need
      ensures r.None? ==> hdrs == old(hdrs) && heads == old(heads) && live == old(live) && free == old(free)
      ensures r.Some? ==> r.value in old(free[21]) && r.value in hdrs && hdrs[r.value].size >= need
      ensures r.Some? ==> live == old(live) + {r.value} && FirstFit(old(hdrs), old(free[21]), need, r.value)
    {
      ghost var list := free[21];
      assert Chain(hdrs, live, heads[21], list, 21);
      ghost var i := 0;
      var prev, h: Option<nat> := None, heads[21];
      while h.Some?
        invariant 0 <= i <= |list| && h == After(list, i) && prev == (if i == 0 then None else Some(list[i - 1]))
        invariant forall k :: 0 <= k < i ==> list[k] in hdrs && hdrs[list[k]].size < need
        decreases |list| - i
      {
        assert Link(hdrs, list, i);
        if hdrs[h.value].size >= need {
          Unlink(prev, h.value, i);
          return h;
        }
        prev, h, i := h, hdrs[h.value].nextFree, i + 1;
      }
      return None;
    }

    /** Takes the i-th block off the large list. */
    method Unlink(prev: Option<nat>, h: nat, ghost i: nat)
      requires Valid() && i < |free[21]| && free[21][i] == h && prev == if i == 0 then None else Some(free[21][i - 1])
      modifies `hdrs, `heads, `live, `free
      ensures Valid() && SameSizes(old(hdrs), hdrs) && live == old(live) + {h}
      ensures free == old(free)[21 := Without(old(free[21]), i)]
    {
      ghost var h0, list := hdrs, free[21];
      assert Chain(hdrs, live, heads[21], list, 21);
      assert Link(hdrs, list, i) && h in list;
      assert prev.Some? ==> prev.value in list;
      if prev.Some? {
        LinkedPast(hdrs, heads[21], list, i);
        hdrs := hdrs[prev.value := hdrs[prev.value].(nextFree := hdrs[h].nextFree)];
      } else {
        LinkedTail(hdrs, heads[21], list);
        heads := heads[21 := hdrs[h].nextFree];
      }
      ghost var h1, rest := hdrs, Without(list, i);
      hdrs := hdrs[h := hdrs[h].(nextFree := None)];
      forall a ensures a in rest <==> a in list && a != h { WithoutHas(list, i, a); }
      LinkedElsewhere(h1, hdrs, heads[21], rest);
      Moved(h0, hdrs, live, live + {h}, old(heads), free, h, heads[21], rest);
      SizesKeepBlocks(base, ptr, h0, hdrs);
      assert heads == old(heads)[21 := heads[21]];
      live, free := live + {h}, free[21 := rest];
    }

    /** Pops bin c. */
    method Pop(c: nat) returns (h: nat)
      requires Valid() && c < 21 && heads[c].Some?
      modifies `heads, `live, `free
      ensures Valid() && old(free[c]) != [] && h == old(free[c])[0] && h in hdrs && h !in old(live) && Home(hdrs[h]) == c
      ensures live == old(live) + {h}
    {
      ghost var list := free[c];
      assert Chain(hdrs, live, heads[c], list, c);
      h := heads[c].value;
      assert Link(hdrs, list, 0) && h in list;
      LinkedTail(hdrs, heads[c], list);
      ghost var rest := Without(list, 0);
      forall a ensures a in rest <==> a in list && a != h { WithoutHas(list, 0, a); }
      Moved(hdrs, hdrs, live, live + {h}, heads, free, h, hdrs[h].nextFree, rest);
      heads := heads[c := hdrs[h].nextFree];
      live, free := live + {h}, free[c := rest];
    }

    /** A new block from the pool. */
    method Fresh(size: nat, cls: nat) returns (r: Option<nat>)
      requires Valid() && size < 0x1_0000_0000_0000_0000
      modifies this
      ensures r.None? <==> Carve(old(ptr), end, size).None?
      ensures r.None? ==> unchanged(this)
      ensures r.Some? ==> r.value == Align16(old(ptr)) && hdrs == old(hdrs)[r.value := Hdr(size, None, cls)]
      ensures r.Some? ==> live == old(live) + {r.value} && r.value !in old(hdrs)
      ensures r.Some? ==> ptr == (r.value + size) % 0x1_0000_0000_0000_0000
      ensures r.Some? ==> (Valid() <==> SizeOk(Hdr(size, None, cls)) && r.value + size < 0x1_0000_0000_0000_0000)
    {
      var p := Align16(ptr);
      var q := (p + size) % 0x1_0000_0000_0000_0000;
      if q > end { return None; }
      CarveInsideIff(ptr, end, size);
      var h := Hdr(size, None, cls);
      assert p in hdrs ==> Placed(base, ptr, hdrs, p);
      if SizeOk(h) && p + size < 0x1_0000_0000_0000_0000 {
        CarvedOk(base, ptr, p, hdrs, live, heads, free, h);
      }
      ptr, hdrs, live := q, hdrs[p := h], live + {p};
      assert Valid() ==> Placed(base, ptr, hdrs, p);
      return Some(p);
    }

    /** How a block (its header address) is handed out for a rounded size. */
    twostate predicate Outcome(new r: Option<nat>, need: nat, new h: Hdr)
      reads this
    {
      && (r.None? ==> unchanged(this))
      && |old(free)| == 22
      && (Reusable(old(hdrs), old(free), need) ==>
            && Valid() && ptr == old(ptr) && SameSizes(old(hdrs), hdrs)
            && r.Some? && r.value in hdrs && hdrs[r.value].size >= need
            && Suits(hdrs[r.value], need) && Chosen(old(hdrs), old(free), need, r.value)
            && r.value !in old(live) && live == old(live) + {r.value})
      && (!Reusable(old(hdrs), old(free), need) ==>
            && FreshSize(need, h)
            && (r.None? <==> Carve(old(ptr), end, h.size).None?)
            && (r.Some? ==>
                  && r.value == Align16(old(ptr)) && r.value !in old(hdrs) && hdrs == old(hdrs)[r.value := h]
                  && live == old(live) + {r.value} && ptr == (r.value + h.size) % 0x1_0000_0000_0000_0000
                  && (Valid() <==> SizeOk(h) && r.value + h.size < 0x1_0000_0000_0000_0000)))
    }

    method TakeLarge(need: nat) returns (r: Option<nat>)
      requires Valid() && 1048576 <= need < 0x1_0000_0000_0000_0000
      modifies this
      ensures Outcome(r, need, Hdr(need, None, LARGE))
    {
      assert Chain(hdrs, live, heads[21], free[21], 21);
      r := LargeFit(need);
      if r.None? { r := Fresh(need, LARGE); }
    }

    method TakeBinned(need: nat) returns (r: Option<nat>, ghost c: nat)
      requires Valid() && need < 1048576
      modifies this
      ensures ClassOf(need, c) && Outcome(r, need, Hdr(Pow2(c), None, c))
    {
      var k := ClsOf(need);
      c := k;
      ClassFacts(need, k);
      forall d: nat | ClassOf(need, d) ensures d == k { ClassUnique(need, d, k); }
      assert Chain(hdrs, live, heads[k], free[k], k);
      if heads[k].Some? {
        var h := Pop(k);
        assert Placed(base, ptr, hdrs, h);
        r := Some(h);
      } else {
        r := Fresh(Pow2(k), k);
      }
    }

    /** Either path, and when what it hands out is sound: the size must be a real one and the
        pool address must not wrap. */
    method Take(need: nat) returns (r: Option<nat>, ghost h: Hdr)
      requires Valid() && need < 0x1_0000_0000_0000_0000 && need % 16 == 0
      modifies this
      ensures Outcome(r, need, h)
      ensures r.Some? ==> r.value in hdrs && hdrs[r.value].size >= need
      ensures r.Some? && !Valid() ==> hdrs[r.value].size <= 32 || r.value + hdrs[r.value].size > ptr
      ensures r.Some? ==> (Valid() <==> need > 32 && (need < 1048576 || Align16(old(ptr)) + need < 0x1_0000_0000_0000_0000))
    {
      if need >= 1048576 {
        if Reusable(hdrs, free, need) { ReusableFits(base, ptr, hdrs, free, need); }
        r := TakeLarge(need);
        h := Hdr(need, None, LARGE);
      } else {
        ghost var c;
        if need <= 32 { JustUnderNeverReused(base, ptr, hdrs, live, heads, free, need); }
        r, c := TakeBinned(need);
        ClassFacts(need, c);
        h := Hdr(Pow2(c), None, c);
      }
    }

    /** A pointer to at least n bytes inside its own block, which lies in the used pool. */
    predicate Serves(r: Option<nat>, n: nat)
      reads this
    {
      r.Some? ==>
        && r.value >= 32 && r.value - 32 in hdrs && n + 32 <= hdrs[r.value - 32].size
        && r.value - 32 + hdrs[r.value - 32].size <= ptr
    }

    /** A new block at the pool pointer, or none when the pool has no room for it. */
    twostate predicate FromPool(new r: Option<nat>, new h: Hdr)
      reads this
    {
      && (r.None? <==> Carve(old(ptr), end, h.size).None?)
      && (r.Some? ==>
            && r.value == Align16(old(ptr)) + 32 && r.value - 32 !in old(hdrs) && hdrs == old(hdrs)[r.value - 32 := h]
            && ptr == (r.value - 32 + h.size) % 0x1_0000_0000_0000_0000)
    }

    /** The heap stays sound and the block is large enough exactly when the request does not wrap.
        A free block that will do is used before the pool grows. */
    method Malloc(n: nat) returns (r: Option<nat>)
      requires Valid() && n < 0x1_0000_0000_0000_0000
      modifies this
      ensures Valid() <==> r.None? || Fine(old(ptr), n)
      ensures Serves(r, n) <==> r.None? || Fine(old(ptr), n)
      ensures r.None? ==> unchanged(this)
      ensures r.Some? ==> live == old(live) + {r.value - 32} && r.value - 32 !in old(live)
      ensures forall a :: a in old(hdrs) ==> a in hdrs && hdrs[a].size == old(hdrs)[a].size
      ensures Reusable(old(hdrs), old(free), Need(n)) ==> r.Some? && ptr == old(ptr) && r.value - 32 in old(hdrs)
      ensures Reusable(old(hdrs), old(free), Need(n)) ==> Chosen(old(hdrs), old(free), Need(n), r.value - 32)
      ensures !Reusable(old(hdrs), old(free), Need(n)) ==>
        exists h: Hdr :: FreshSize(Need(n), h) && FromPool(r, h)
      ensures r.Some? ==> r.value >= 32 && r.value - 32 in hdrs && Suits(hdrs[r.value - 32], Need(n))
    {
      var need := Need(n);
      NeedFacts(n, ptr);
      var a, h := Take(need);
      if a.None? { return None; }
      assert Valid() ==> Placed(base, ptr, hdrs, a.value);
      return Some(a.value + 32);
    }

    /** The pointer has one of this heap's headers before it. */
    predicate Ours(p: Option<nat>)
      reads this
    {
      p.Some? && p.value >= 32 && p.value - 32 in hdrs
    }

    /** Null and foreign pointers are ignored; a live block goes to the head of its home list. */
    method Free(p: Option<nat>)
      requires Valid() && (Ours(p) ==> p.value - 32 in live)
      modifies this
      ensures Valid() && ptr == old(ptr) && SameSizes(old(hdrs), hdrs)
      ensures old(Ours(p)) ==> live == old(live) - {p.value - 32}
      ensures old(Ours(p)) ==> var a := p.value - 32; var c := Home(hdrs[a]);
        c < |old(free)| && free == old(free)[c := [a] + old(free)[c]]
      ensures !old(Ours(p)) ==> unchanged(this)
    {
      if !Ours(p) { return; }
      var a := p.value - 32;
      var h := hdrs[a];
      assert Accounted(hdrs, live, free, a) && Placed(base, ptr, hdrs, a);
      var c := if h.cls == LARGE || h.size >= 1048576 then 21 else h.cls;
      ghost var h0, list := hdrs, [a] + free[c];
      assert Chain(hdrs, live, heads[c], free[c], c);
      LinkedPush(hdrs, heads[c], free[c], a);
      forall b ensures b in list <==> b == a || b in free[c] {}
      hdrs := hdrs[a := h.(nextFree := heads[c])];
      Moved(h0, hdrs, live, live - {a}, heads, free, a, Some(a), list);
      SizesKeepBlocks(base, ptr, h0, hdrs);
      heads, live, free := heads[c := Some(a)], live - {a}, free[c := list];
    }

    /** A request just under 1 MiB takes a megabyte from the pool, whatever was freed before. */
    method TakeJustUnder(n: nat) returns (r: Option<nat>)
      requires Valid() && n < 1048576 && NeverReused(Need(n))
      modifies this
      ensures Valid() && (r.None? <==> Align16(old(ptr)) + 1048576 > end)
      ensures r.Some? ==>
        && r.value == Align16(old(ptr)) + 32 && ptr == Align16(old(ptr)) + 1048576
        && r.value - 32 in hdrs && live == old(live) + {r.value - 32}
    {
      JustUnderNeverReused(base, ptr, hdrs, live, heads, free, Need(n));
      BandIsMegabyte(Need(n));
      r := Malloc(n);
    }

    /** Asking again for what was just freed gives the same block back, unless the rounded size is
        just under 1 MiB: then the block stays unused and the pool grows. */
    method Cycle(n: nat) returns (p: Option<nat>, q: Option<nat>, mid: nat)
      requires Valid() && Fine(ptr, n)
      modifies this
      ensures Valid()
      ensures p.Some? ==> (q == p <==> !NeverReused(Need(n)))
      ensures p.Some? && !NeverReused(Need(n)) ==> ptr == mid
      ensures p.Some? && NeverReused(Need(n)) ==>
        q == if Carve(mid, end, 1048576).None? then None else Some(Align16(mid) + 32)
      ensures p.None? ==> q.None? && unchanged(this)
    {
      p := Malloc(n);
      mid := ptr;
      if p.None? { return p, None, mid; }
      NeedOf(n);
      assert Fine(ptr, n);
      Free(p);
      FreedFirst(base, ptr, hdrs, live, heads, free, p.value - 32, Need(n));
      q := Malloc(n);
    }

    ghost function Bytes(a: nat): seq<Byte>
      requires Valid() && a in hdrs
      reads this, mem
    {
      AllInside(base, ptr, hdrs, mem[..]);
      Payload(hdrs, mem[..], a)
    }

    /** The copy loop. */
    method Copy(q: nat, p: nat, n: nat)
      requires q + n <= mem.Length && p + n <= mem.Length && (q + n <= p || p + n <= q)
      modifies mem
      ensures Copied(old(mem[..]), mem[..], q, p, n)
    {
      for i := 0 to n
        invariant Copied(old(mem[..]), mem[..], q, p, i)
      {
        assert mem[..][p + i] == mem[p + i];
        mem[q + i] := mem[p + i];
      }
    }

    /** A block that already has room stays; otherwise its bytes move to a new block. The
        bytes of every other live block stay. */
    method Realloc(p: Option<nat>, n: nat) returns (r: Option<nat>)
      requires Valid() && n < 0x1_0000_0000_0000_0000 && (Ours(p) ==> p.value - 32 in live)
      modifies this, mem
      ensures p.Some? && !old(Ours(p)) ==> r == p && unchanged(this) && unchanged(mem)
      ensures r.None? ==> unchanged(this) && unchanged(mem)
      ensures p.None? || old(Ours(p)) ==>
        (Valid() && Serves(r, n) <==> r.None? || Fine(old(ptr), n) || (p.Some? && n + 32 <= old(hdrs[p.value - 32].size)))
      ensures Valid() && r.Some? && old(Ours(p)) ==> live == old(live) - {p.value - 32} + {r.value - 32}
      ensures r.Some? && old(Ours(p)) ==> (r == p <==> n + 32 <= old(hdrs[p.value - 32].size))
      ensures Valid() && r.Some? && old(Ours(p)) ==> StartsWith(Bytes(r.value - 32), old(Bytes(p.value - 32)))
      ensures Valid() ==> forall a :: a in old(live) && p != Some(a + 32) ==> a in hdrs && Bytes(a) == old(Bytes(a))
    {
      if p.None? {
        r := Malloc(n);
        return;
      }
      if !Ours(p) { return p; }
      assert Placed(base, ptr, hdrs, p.value - 32);
      if n <= hdrs[p.value - 32].size - 32 { return p; }
      r := Grow(p.value - 32, n);
    }

    /** The bytes that the code copies past the end of a block that does not serve are not
        modelled: the method stops there. */
    method Grow(a: nat, n: nat) returns (r: Option<nat>)
      requires Valid() && n < 0x1_0000_0000_0000_0000 && a in live && hdrs[a].size < n + 32
      modifies this, mem
      ensures Valid() <==> r.None? || Fine(old(ptr), n)
      ensures Serves(r, n) <==> r.None? || Fine(old(ptr), n)
      ensures r.None? ==> unchanged(this) && unchanged(mem)
      ensures r.Some? ==> r.value - 32 !in old(live)
      ensures Valid() && r.Some? ==> live == old(live) - {a} + {r.value - 32}
      ensures Valid() && r.Some? ==> StartsWith(Bytes(r.value - 32), old(Bytes(a)))
      ensures Valid() ==> forall d :: d in old(live) && d != a ==> d in hdrs && Bytes(d) == old(Bytes(d))
    {
      r := Malloc(n);
      if r.None? || !Serves(r, n) { return; }
      Move(a, r.value - 32);
    }

    /** Copies a block's bytes into another at least as large. */
    method CopyBlock(a: nat, b: nat)
      requires Valid() && a in live && b in live && a != b && hdrs[a].size <= hdrs[b].size
      modifies mem
      ensures StartsWith(Bytes(b), old(Bytes(a)))
      ensures forall d :: d in live && d != b ==> Bytes(d) == old(Bytes(d))
    {
      ghost var m := mem[..];
      AllInside(base, ptr, hdrs, m);
      assert Apart(hdrs, a, b);
      Copy(b + 32, a + 32, hdrs[a].size - 32);
      BlockCopied(base, ptr, hdrs, m, mem[..], a, b);
    }

    method Move(a: nat, b: nat)
      requires Valid() && a in live && b in live && a != b && hdrs[a].size <= hdrs[b].size
      modifies this, mem
      ensures Valid() && live == old(live) - {a} && SameSizes(old(hdrs), hdrs) && ptr == old(ptr)
      ensures StartsWith(Bytes(b), old(Bytes(a)))
      ensures forall d :: d in live && d != b ==> Bytes(d) == old(Bytes(d))
    {
      CopyBlock(a, b);
      Free(Some(a + 32));
    }
  }

  /** 600000 bytes, freed and asked for again: the second block is a new one. */
  method FreedNotReused() returns (p: Option<nat>, q: Option<nat>)
    ensures p == Some(0x10_0020) && q == Some(0x20_0020)
  {
    var mem := new Byte[0x40_0000];
    var heap := new Allocator(0x10_0000, mem);
    p := heap.TakeJustUnder(600000);
    heap.Free(p);
    q := heap.TakeJustUnder(600000);
  }
}
