/** SHA-256 of FIPS 180-4, and the kernel's block function and streaming interface. */
module Sha256 {
  import opened Sha256Words
  import opened BlockStream

  /** Section 4.2.2. */
  const K: seq<bv32> := [
    0x428a2f98, 0x71374491, 0xb5c0fbcf, 0xe9b5dba5, 0x3956c25b, 0x59f111f1,
    0x923f82a4, 0xab1c5ed5, 0xd807aa98, 0x12835b01, 0x243185be, 0x550c7dc3,
    0x72be5d74, 0x80deb1fe, 0x9bdc06a7, 0xc19bf174, 0xe49b69c1, 0xefbe4786,
    0x0fc19dc6, 0x240ca1cc, 0x2de92c6f, 0x4a7484aa, 0x5cb0a9dc, 0x76f988da,
    0x983e5152, 0xa831c66d, 0xb00327c8, 0xbf597fc7, 0xc6e00bf3, 0xd5a79147,
    0x06ca6351, 0x14292967, 0x27b70a85, 0x2e1b2138, 0x4d2c6dfc, 0x53380d13,
    0x650a7354, 0x766a0abb, 0x81c2c92e, 0x92722c85, 0xa2bfe8a1, 0xa81a664b,
    0xc24b8b70, 0xc76c51a3, 0xd192e819, 0xd6990624, 0xf40e3585, 0x106aa070,
    0x19a4c116, 0x1e376c08, 0x2748774c, 0x34b0bcb5, 0x391c0cb3, 0x4ed8aa4a,
    0x5b9cca4f, 0x682e6ff3, 0x748f82ee, 0x78a5636f, 0x84c87814, 0x8cc70208,
    0x90befffa, 0xa4506ceb, 0xbef9a3f7, 0xc67178f2]

  function KAt(t: nat): bv32
    requires t < 64
  {
    K[t]
  }

  datatype Hash = Hash(a: bv32, b: bv32, c: bv32, d: bv32, e: bv32, f: bv32, g: bv32, h: bv32)

  /** Section 5.3.3. */
  const INITIAL: Hash := Hash(
    0x6a09e667, 0xbb67ae85, 0x3c6ef372, 0xa54ff53a, 0x510e527f, 0x9b05688c, 0x1f83d9ab, 0x5be0cd19)

  // ---- section 6.2.2 ----

  /** The message schedule, step 1. */
  function W(m: Block, t: nat): bv32 {
    if t < 16 then Word(m[4 * t], m[4 * t + 1], m[4 * t + 2], m[4 * t + 3])
    else Extend(W(m, t - 2), W(m, t - 7), W(m, t - 15), W(m, t - 16))
  }

  /** One round, step 3. */
  function Round(r: Hash, k: bv32, w: bv32): Hash {
    var t1 := T1(r.e, r.f, r.g, r.h, k, w);
    var t2 := T2(r.a, r.b, r.c);
    Hash(Add2(t1, t2), r.a, r.b, r.c, Add2(r.d, t1), r.e, r.f, r.g)
  }

  function Rounds(r: Hash, m: Block, n: nat): Hash
    requires n <= 64
  {
    if n == 0 then r else Round(Rounds(r, m, n - 1), KAt(n - 1), W(m, n - 1))
  }

  function Sum(x: Hash, y: Hash): Hash {
    Hash(Add2(x.a, y.a), Add2(x.b, y.b), Add2(x.c, y.c), Add2(x.d, y.d),
         Add2(x.e, y.e), Add2(x.f, y.f), Add2(x.g, y.g), Add2(x.h, y.h))
  }

  /** Steps 2 to 4. */
  function Compress(h: Hash, m: Block): Hash { Sum(Rounds(h, m, 64), h) }

  function Serialize(h: Hash): seq<bv8> {
    Bytes(h.a) + Bytes(h.b) + Bytes(h.c) + Bytes(h.d) + Bytes(h.e) + Bytes(h.f) + Bytes(h.g) + Bytes(h.h)
  }

  function Digest(msg: seq<bv8>): seq<bv8> {
    Serialize(Hashed(Compress, INITIAL, msg))
  }

  // ---- the block function as the kernel computes it ----

  /** The first loop: the block's words. */
  method LoadWords(p: Block, w: array<bv32>)
    requires w.Length == 64
    modifies w
    ensures forall t :: 0 <= t < 16 ==> w[t] == W(p, t)
  {
    var i := 0;
    while i < 16
      invariant 0 <= i <= 16 && forall t :: 0 <= t < i ==> w[t] == W(p, t)
    {
      w[i] := Word(p[4 * i], p[4 * i + 1], p[4 * i + 2], p[4 * i + 3]);
      i := i + 1;
    }
  }

  method NextWord(w2: bv32, w7: bv32, w15: bv32, w16: bv32, ghost p: Block, ghost t: nat) returns (x: bv32)
    requires t >= 16 && w2 == W(p, t - 2) && w7 == W(p, t - 7) && w15 == W(p, t - 15) && w16 == W(p, t - 16)
    ensures x == W(p, t)
  {
    ExtendAgrees(w2, w7, w15, w16);
    x := KernelExtend(w2, w7, w15, w16);
  }

  /** The second loop: the rest of the schedule. */
  method Schedule(p: Block, w: array<bv32>)
    requires w.Length == 64
    modifies w
    ensures forall t :: 0 <= t < 64 ==> w[t] == W(p, t)
  {
    LoadWords(p, w);
    var i := 16;
    while i < 64
      invariant 16 <= i <= 64 && forall t :: 0 <= t < i ==> w[t] == W(p, t)
    {
      w[i] := NextWord(w[i - 2], w[i - 7], w[i - 15], w[i - 16], p, i);
      i := i + 1;
    }
  }

  /** The body of the round loop: the eight variables shift by one. */
  method OneRound(r: Hash, k: bv32, w: bv32) returns (q: Hash)
    ensures q == Round(r, k, w)
  {
    T1Agrees(r.e, r.f, r.g, r.h, k, w);
    T2Agrees(r.a, r.b, r.c);
    var t1 := KernelT1(r.e, r.f, r.g, r.h, k, w);
    var t2 := KernelT2(r.a, r.b, r.c);
    q := Hash(Add2(t1, t2), r.a, r.b, r.c, Add2(r.d, t1), r.e, r.f, r.g);
  }

  method RunRounds(h: Hash, p: Block, w: array<bv32>) returns (r: Hash)
    requires w.Length == 64 && forall t :: 0 <= t < 64 ==> w[t] == W(p, t)
    ensures r == Rounds(h, p, 64)
  {
    r := h;
    var i := 0;
    while i < 64
      invariant 0 <= i <= 64 && r == Rounds(h, p, i)
    {
      r := OneRound(r, KAt(i), w[i]);
      i := i + 1;
    }
  }

  function HashOf(h: seq<bv32>): Hash
    requires |h| == 8
  {
    Hash(h[0], h[1], h[2], h[3], h[4], h[5], h[6], h[7])
  }

  method AddInto(h: array<bv32>, r: Hash)
    requires h.Length == 8
    modifies h
    ensures HashOf(h[..]) == Sum(old(HashOf(h[..])), r)
  {
    var q := Sum(Hash(h[0], h[1], h[2], h[3], h[4], h[5], h[6], h[7]), r);
    h[0], h[1], h[2], h[3], h[4], h[5], h[6], h[7] := q.a, q.b, q.c, q.d, q.e, q.f, q.g, q.h;
  }

  lemma {:induction false} AddingCommutes(x: Hash, y: Hash)
    ensures Sum(x, y) == Sum(y, x)
  {
    SumCommutes(x.a, y.a);
    SumCommutes(x.b, y.b);
    SumCommutes(x.c, y.c);
    SumCommutes(x.d, y.d);
    SumCommutes(x.e, y.e);
    SumCommutes(x.f, y.f);
    SumCommutes(x.g, y.g);
    SumCommutes(x.h, y.h);
  }

  /** sha256_block: the eight words of the context, updated in place. */
  method HashBlock(h: array<bv32>, p: Block)
    requires h.Length == 8
    modifies h
    ensures HashOf(h[..]) == Compress(old(HashOf(h[..])), p)
  {
    var w := new bv32[64];
    Schedule(p, w);
    var before := HashOf(h[..]);
    var r := RunRounds(before, p, w);
    AddInto(h, r);
    AddingCommutes(before, r);
  }

  // ---- streaming ----

  function Joined(chunks: seq<seq<bv8>>): seq<bv8> {
    if chunks == [] then [] else Joined(chunks[..|chunks| - 1]) + chunks[|chunks| - 1]
  }

  /** init, any number of updates, final: the digest of the message, however it was cut. */
  method HashStream(chunks: seq<seq<bv8>>) returns (out: seq<bv8>)
    requires |Joined(chunks)| < LIMIT
    ensures out == Digest(Joined(chunks))
  {
    var c := new Stream<Hash>(Compress, INITIAL);
    var i := 0;
    while i < |chunks|
      invariant 0 <= i <= |chunks| && c.Valid() && fresh(c) && fresh(c.buf) && c.msg == Joined(chunks[..i])
    {
      c.Update(chunks[i]);
      assert chunks[..i + 1][..i] == chunks[..i];
      i := i + 1;
    }
    assert chunks[..i] == chunks;
    c.Finish();
    out := Serialize(c.state);
  }
}
