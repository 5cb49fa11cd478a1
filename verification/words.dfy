/** Bytes, powers of two and little-endian words. */
module Words {
  type Byte = b: nat | b < 256

  const TWO32: nat := 0x1_0000_0000
  const TWO64: nat := 0x1_0000_0000_0000_0000

  function Pow2(n: nat): (p: nat)
    ensures p > 0
  {
    if n == 0 then 1 else 2 * Pow2(n - 1)
  }

  lemma {:induction false} Pow2Grows(a: nat, b: nat)
    ensures a <= b ==> Pow2(a) <= Pow2(b)
  {
    if a < b { Pow2Grows(a, b - 1); }
  }

  function Zeros(n: nat): (z: seq<Byte>)
    ensures |z| == n && forall i :: 0 <= i < n ==> z[i] == 0
  {
    seq(n, _ => 0)
  }

  /** The number whose bytes are given, the lowest first. */
  function Little(bytes: seq<nat>): nat {
    if bytes == [] then 0 else bytes[0] + 256 * Little(bytes[1..])
  }

  /** The lowest n bytes of v. */
  function ToLittle(v: nat, n: nat): (bytes: seq<Byte>)
    ensures |bytes| == n
  {
    if n == 0 then [] else [v % 256] + ToLittle(v / 256, n - 1)
  }

  function Pow256(n: nat): (p: nat)
    ensures p > 0
  {
    if n == 0 then 1 else 256 * Pow256(n - 1)
  }

  /** Words survive their encoding. */
  lemma {:induction false} ReadBack(v: nat, n: nat)
    requires v < Pow256(n)
    ensures Little(ToLittle(v, n)) == v
  {
    if n > 0 { ReadBack(v / 256, n - 1); }
  }

  /** A word that is too long for n bytes loses its upper part. */
  lemma {:induction false} LowBytes(v: nat, n: nat)
    ensures Little(ToLittle(v, n)) == v % Pow256(n)
  {
    if n > 0 {
      var q, p := v / 256, Pow256(n - 1);
      LowBytes(q, n - 1);
      Regroup(q, p, v % 256);
    }
  }

  lemma {:induction false} Regroup(q: nat, p: nat, low: nat)
    requires p > 0 && low < 256
    ensures low + 256 * (q % p) == (256 * q + low) % (256 * p)
  {
    assert 256 * q + low == (256 * p) * (q / p) + (low + 256 * (q % p)) by { assert q == p * (q / p) + q % p; }
    Remainder(256 * q + low, 256 * p, q / p, low + 256 * (q % p));
  }

  lemma {:induction false} Remainder(x: nat, m: nat, k: nat, r: nat)
    requires r < m && x == m * k + r
    ensures x % m == r
  {
    var d := x / m;
    assert x == m * d + x % m;
    assert d > k ==> m * d >= m * (k + 1);
    assert d < k ==> m * k >= m * (d + 1);
  }

  lemma {:induction false} AfterPrefix<T>(a: seq<T>, b: seq<T>)
    ensures (a + b)[|a|..|a| + |b|] == b
  {
  }

  lemma {:induction false} SliceOfSlice<T>(s: seq<T>, a: nat, b: nat, lo: nat, hi: nat)
    requires a <= b <= |s| && lo <= hi <= b - a
    ensures s[a..b][lo..hi] == s[a + lo..a + hi]
  {
    var x, y := s[a..b][lo..hi], s[a + lo..a + hi];
    forall k | 0 <= k < |x| ensures x[k] == y[k] {}
  }
}
