/** The word operations of SHA-256: as section 4.1.2 of FIPS 180-4 defines them, and as the
    kernel computes them. */
module Sha256Words {

  function Word(b0: bv8, b1: bv8, b2: bv8, b3: bv8): bv32 {
    ((b0 as bv32) << 24) | ((b1 as bv32) << 16) | ((b2 as bv32) << 8) | (b3 as bv32)
  }

  function Bytes(x: bv32): (r: seq<bv8>)
    ensures |r| == 4
  {
    [((x >> 24) & 0xff) as bv8, ((x >> 16) & 0xff) as bv8, ((x >> 8) & 0xff) as bv8, (x & 0xff) as bv8]
  }

  /** The low k bytes of a number, most significant first. */
  function BigEndian(n: nat, k: nat): (r: seq<bv8>)
    ensures |r| == k
  {
    if k == 0 then [] else BigEndian(n / 256, k - 1) + [(n % 256) as bv8]
  }

  function Pow256(k: nat): (p: nat)
    ensures p > 0
  {
    if k == 0 then 1 else 256 * Pow256(k - 1)
  }

  /** Byte i is what a right shift by the bytes after it leaves. */
  lemma {:induction false} BigEndianAt(n: nat, k: nat, i: nat)
    requires i < k
    ensures BigEndian(n, k)[i] == ((n / Pow256(k - 1 - i)) % 256) as bv8
  {
    if i < k - 1 {
      BigEndianAt(n / 256, k - 1, i);
      DivideTwice(n, Pow256(k - 2 - i));
    }
  }

  lemma {:induction false} DivideTwice(n: nat, b: nat)
    requires b > 0
    ensures n / 256 / b == n / (256 * b)
  {
    var u := n / 256;
    var q := u / b;
    var p := b * q;
    assert p <= u < p + b;
    assert (256 * b) * q == 256 * p;
    Quotient(n, 256 * b, q, n - 256 * p);
  }

  lemma {:induction false} Quotient(n: nat, d: nat, q: nat, r: nat)
    requires n == d * q + r && r < d
    ensures n / d == q
  {
    var x := n / d - q;
    assert d * x == r - n % d by {
      assert n == d * (n / d) + n % d;
      assert d * x == d * (n / d) - d * q;
    }
    Gap(d, x);
  }

  lemma {:induction false} Gap(d: int, x: int)
    requires d > 0
    ensures x >= 1 ==> d * x >= d
    ensures x <= -1 ==> d * x <= -d
  {
  }

  /** Sums modulo 2^32, from left to right. */
  function Add2(a: bv32, b: bv32): bv32 { a + b }
  function Add4(a: bv32, b: bv32, c: bv32, d: bv32): bv32 { a + b + c + d }
  function Add5(a: bv32, b: bv32, c: bv32, d: bv32, e: bv32): bv32 { a + b + c + d + e }

  // ---- FIPS 180-4 ----

  function Ch(x: bv32, y: bv32, z: bv32): bv32 { (x & y) ^ (!x & z) }
  function Maj(x: bv32, y: bv32, z: bv32): bv32 { (x & y) ^ (x & z) ^ (y & z) }
  function BigSigma0(x: bv32): bv32 { x.RotateRight(2) ^ x.RotateRight(13) ^ x.RotateRight(22) }
  function BigSigma1(x: bv32): bv32 { x.RotateRight(6) ^ x.RotateRight(11) ^ x.RotateRight(25) }
  function SmallSigma0(x: bv32): bv32 { x.RotateRight(7) ^ x.RotateRight(18) ^ (x >> 3) }
  function SmallSigma1(x: bv32): bv32 { x.RotateRight(17) ^ x.RotateRight(19) ^ (x >> 10) }

  /** The sums of section 6.2.2: step 1, and T1 and T2 of step 3. */
  function Extend(w2: bv32, w7: bv32, w15: bv32, w16: bv32): bv32 { Add4(SmallSigma1(w2), w7, SmallSigma0(w15), w16) }
  function T1(e: bv32, f: bv32, g: bv32, h: bv32, k: bv32, w: bv32): bv32 { Add5(h, BigSigma1(e), Ch(e, f, g), k, w) }
  function T2(a: bv32, b: bv32, c: bv32): bv32 { Add2(BigSigma0(a), Maj(a, b, c)) }

  // ---- the kernel: rotations by two shifts and an or, its own order of additions ----

  function KernelSmall0(x: bv32): bv32 { ((x >> 7) | (x << 25)) ^ ((x >> 18) | (x << 14)) ^ (x >> 3) }
  function KernelSmall1(x: bv32): bv32 { ((x >> 17) | (x << 15)) ^ ((x >> 19) | (x << 13)) ^ (x >> 10) }
  function KernelBig0(x: bv32): bv32 { ((x >> 2) | (x << 30)) ^ ((x >> 13) | (x << 19)) ^ ((x >> 22) | (x << 10)) }
  function KernelBig1(x: bv32): bv32 { ((x >> 6) | (x << 26)) ^ ((x >> 11) | (x << 21)) ^ ((x >> 25) | (x << 7)) }

  function KernelExtend(w2: bv32, w7: bv32, w15: bv32, w16: bv32): bv32 { Add4(w16, KernelSmall0(w15), w7, KernelSmall1(w2)) }
  function KernelT1(e: bv32, f: bv32, g: bv32, h: bv32, k: bv32, w: bv32): bv32 {
    Add5(h, KernelBig1(e), (e & f) ^ (!e & g), k, w)
  }
  function KernelT2(a: bv32, b: bv32, c: bv32): bv32 { Add2(KernelBig0(a), (a & b) ^ (a & c) ^ (b & c)) }

  // ---- they agree ----

  lemma {:induction false} RotationsAgree(x: bv32)
    ensures KernelSmall0(x) == SmallSigma0(x) && KernelSmall1(x) == SmallSigma1(x)
    ensures KernelBig0(x) == BigSigma0(x) && KernelBig1(x) == BigSigma1(x)
  {
  }

  lemma {:induction false} Reversed(a: bv32, b: bv32, c: bv32, d: bv32)
    ensures Add4(a, b, c, d) == Add4(d, c, b, a)
  {
  }

  lemma {:induction false} ExtendAgrees(w2: bv32, w7: bv32, w15: bv32, w16: bv32)
    ensures KernelExtend(w2, w7, w15, w16) == Extend(w2, w7, w15, w16)
  {
    RotationsAgree(w2);
    RotationsAgree(w15);
    Reversed(w16, SmallSigma0(w15), w7, SmallSigma1(w2));
  }

  lemma {:induction false} T1Agrees(e: bv32, f: bv32, g: bv32, h: bv32, k: bv32, w: bv32)
    ensures KernelT1(e, f, g, h, k, w) == T1(e, f, g, h, k, w)
  {
    RotationsAgree(e);
  }

  lemma {:induction false} T2Agrees(a: bv32, b: bv32, c: bv32)
    ensures KernelT2(a, b, c) == T2(a, b, c)
  {
    RotationsAgree(a);
  }

  lemma {:induction false} SumCommutes(x: bv32, y: bv32)
    ensures Add2(x, y) == Add2(y, x)
  {
  }
}
