/** LEB128 integers: the engine's byte reader against the grammar of section 5.2.2 of
    the WebAssembly Core Specification 1.0. */
module Leb128 {
  import opened Options
  import opened Words

  function Pow128(n: nat): (p: nat)
    ensures p > 0
  {
    if n == 0 then 1 else 128 * Pow128(n - 1)
  }

  lemma {:induction false} Pow2AtLeast128(n: nat)
    requires n >= 7
    ensures Pow2(n) >= 128
  {
    if n == 7 {
      assert Pow2(4) == 16;
    } else {
      Pow2AtLeast128(n - 1);
    }
  }

  // ---- the grammar ----

  /** uN: a value below 2^N in groups of seven bits, low group first, and the number of
      bytes it took. */
  function GrammarU(n: nat, s: seq<Byte>): Option<(nat, nat)> {
    if s == [] then None
    else if s[0] < 128 then
      if s[0] < Pow2(n) then Some((s[0], 1)) else None
    else if n <= 7 then None
    else
      var (v, k) :- GrammarU(n - 7, s[1..]);
      Some((128 * v + (s[0] - 128), k + 1))
  }

  /** sN: two's complement, the sign taken from bit 6 of the last byte. */
  function GrammarS(n: nat, s: seq<Byte>): Option<(int, nat)>
    requires n > 0
  {
    if s == [] then None
    else
      var b: int := s[0];
      if b < 64 then
        if b < Pow2(n - 1) then Some((b, 1)) else None
      else if b < 128 then
        if b >= 128 - Pow2(n - 1) then Some((b - 128, 1)) else None
      else if n <= 7 then None
      else
        var (v, k) :- GrammarS(n - 7, s[1..]);
        Some((128 * v + (b - 128), k + 1))
  }

  /** The signed reading of the low n bits. */
  function SignOf(n: nat, b: nat): int
    requires n > 0
  {
    var low := b % Pow2(n);
    if low < Pow2(n - 1) then low else low - Pow2(n)
  }

  /** What the engine reads for sN: the same groups, but in the last byte it may take
      the unused bits need only agree with each other, not with the sign bit below. */
  function EngineS(n: nat, s: seq<Byte>): Option<(int, nat)>
    requires n > 0
  {
    if s == [] then None
    else
      var b: int := s[0];
      if n <= 7 then
        if b < Pow2(n) || 128 - Pow2(n) <= b < 128 then Some((SignOf(n, b), 1)) else None
      else if b < 64 then Some((b, 1))
      else if b < 128 then Some((b - 128, 1))
      else
        var (v, k) :- EngineS(n - 7, s[1..]);
        Some((128 * v + (b - 128), k + 1))
  }

  // ---- reading group by group ----

  /** `acc` holds the first `index` groups, and the encoding means what the unread rest
      means on top of them. */
  ghost predicate PendingU(n: nat, s: seq<Byte>, index: nat, acc: nat) {
    7 * index <= n && index <= |s| &&
    var g := GrammarU(n - 7 * index, s[index..]);
    GrammarU(n, s) == if g.Some? then Some((acc + Pow128(index) * g.value.0, index + g.value.1)) else None
  }

  ghost predicate PendingS(n: nat, s: seq<Byte>, index: nat, acc: int) {
    7 * index < n && index <= |s| &&
    var g := EngineS(n - 7 * index, s[index..]);
    EngineS(n, s) == if g.Some? then Some((acc + Pow128(index) * g.value.0, index + g.value.1)) else None
  }

  /** One group moved from the unread part into the accumulator. */
  lemma {:induction false} MoveGroup(acc: int, p: int, b: int, v: int)
    ensures acc + p * (128 * v + (b - 128)) == (acc + p * (b - 128)) + (128 * p) * v
  {
  }

  lemma {:induction false} MoreU(n: nat, s: seq<Byte>, index: nat, acc: nat)
    requires PendingU(n, s, index, acc) && index < |s| && s[index] >= 128 && n - 7 * index > 7
    ensures PendingU(n, s, index + 1, acc + Pow128(index) * (s[index] - 128))
  {
    assert s[index..][1..] == s[index + 1..];
    var g := GrammarU(n - 7 * (index + 1), s[index + 1..]);
    if g.Some? { MoveGroup(acc, Pow128(index), s[index], g.value.0); }
  }

  lemma {:induction false} MoreS(n: nat, s: seq<Byte>, index: nat, acc: int)
    requires PendingS(n, s, index, acc) && index < |s| && s[index] >= 128 && n - 7 * index > 7
    ensures PendingS(n, s, index + 1, Grown(acc, index, s[index]))
  {
    assert s[index..][1..] == s[index + 1..];
    var g := EngineS(n - 7 * (index + 1), s[index + 1..]);
    if g.Some? { MoveGroup(acc, Pow128(index), s[index], g.value.0); }
  }

  lemma {:induction false} LastU(n: nat, s: seq<Byte>, index: nat, acc: nat)
    requires PendingU(n, s, index, acc) && index < |s| && s[index] < 128 && s[index] < Pow2(n - 7 * index)
    ensures GrammarU(n, s) == Some((acc + Pow128(index) * s[index], index + 1))
  {
  }

  /** The value when `byte` ends the encoding before its last group: the sign is bit 6. */
  function Ended(acc: int, index: nat, byte: Byte): int {
    acc + Pow128(index) * byte - if byte < 64 then 0 else Pow128(index + 1)
  }

  /** The value so far when `byte` says that more follow. */
  function Grown(acc: int, index: nat, byte: Byte): int { acc + Pow128(index) * (byte - 128) }

  lemma {:induction false} LastS(n: nat, s: seq<Byte>, index: nat, acc: int)
    requires PendingS(n, s, index, acc) && index < |s| && s[index] < 128 && n - 7 * index > 7
    ensures EngineS(n, s) == Some((Ended(acc, index, s[index]), index + 1))
  {
  }

  /** Numbers that differ by a multiple of the modulus have one residue. */
  lemma {:induction false} SameResidue(x: int, y: int, c: int, m: nat)
    requires m > 0 && x == y + c * m
    ensures x % m == y % m
  {
    var q := x / m - c - y / m;
    assert y % m - x % m == m * q by {
      assert x == m * (x / m) + x % m;
      assert y == m * (y / m) + y % m;
      assert m * q == m * (x / m) - m * c - m * (y / m);
    }
    Grows(m, q);
  }

  lemma {:induction false} Grows(m: int, q: int)
    requires m > 0
    ensures q >= 1 ==> m * q >= m
    ensures q <= -1 ==> m * q <= -m
  {
  }

  /** In the last group of an s32 every bit above the fourth is lost modulo 2^32. */
  lemma {:induction false} Final32(s: seq<Byte>, acc: int)
    requires PendingS(32, s, 4, acc) && |s| > 4 && (s[4] < 16 || 112 <= s[4] < 128)
    ensures EngineS(32, s).Some? && EngineS(32, s).value.1 == 5
    ensures EngineS(32, s).value.0 % 0x1_0000_0000 == (acc + Pow128(4) * s[4]) % 0x1_0000_0000
  {
    var b: int := s[4];
    assert Pow2(4) == 16 && Pow2(3) == 8 && Pow128(4) == 0x1000_0000;
    var c := if b % 16 < 8 then -(b / 16) else -(b / 16) - 1;
    assert SignOf(4, b) == b + 16 * c;
    assert EngineS(4, s[4..]) == Some((SignOf(4, b), 1));
    SameResidue(EngineS(32, s).value.0, acc + Pow128(4) * b, c, TWO32);
  }

  /** The last group of an s64 has one bit. */
  lemma {:induction false} Final64(s: seq<Byte>, acc: int)
    requires PendingS(64, s, 9, acc) && |s| > 9 && (s[9] < 2 || 126 <= s[9] < 128)
    ensures EngineS(64, s).Some? && EngineS(64, s).value.1 == 10
    ensures EngineS(64, s).value.0 % 0x1_0000_0000_0000_0000 == (acc + Pow128(9) * s[9]) % 0x1_0000_0000_0000_0000
  {
    var b: int := s[9];
    assert Pow2(1) == 2 && Pow2(0) == 1 && Pow128(9) == 0x8000_0000_0000_0000;
    var c := if b % 2 < 1 then -(b / 2) else -(b / 2) - 1;
    assert SignOf(1, b) == b + 2 * c;
    assert EngineS(1, s[9..]) == Some((SignOf(1, b), 1));
    SameResidue(EngineS(64, s).value.0, acc + Pow128(9) * b, c, TWO64);
  }

  // ---- the reader ----

  class Reader {
    const data: seq<Byte>
    var position: nat

    ghost predicate Valid()
      reads this
    {
      position <= |data|
    }

    constructor (bytes: seq<Byte>)
      ensures Valid() && data == bytes && position == 0
    {
      data := bytes;
      position := 0;
    }

    method U8() returns (r: Option<Byte>)
      requires Valid()
      modifies this
      ensures Valid()
      ensures if old(position) < |data| then r == Some(data[old(position)]) && position == old(position) + 1
              else r.None? && position == old(position)
    {
      if position == |data| {
        return None;
      }
      r := Some(data[position]);
      position := position + 1;
    }

    method Bytes(amount: nat) returns (r: Option<seq<Byte>>)
      requires Valid()
      modifies this
      ensures Valid()
      ensures if amount <= |data| - old(position)
              then r == Some(data[old(position)..old(position) + amount]) && position == old(position) + amount
              else r.None? && position == old(position)
    {
      if amount > |data| - position {
        return None;
      }
      r := Some(data[position..position + amount]);
      position := position + amount;
    }

    /** uleb32 accepts exactly the u32 encodings of the grammar. */
    method ULeb32() returns (r: Option<nat>)
      requires Valid()
      modifies this
      ensures Valid()
      ensures var g := GrammarU(32, data[old(position)..]);
        if g.Some? then r == Some(g.value.0) && position == old(position) + g.value.1 else r.None?
    {
      ghost var s, start := data[position..], position;
      var result: nat := 0;
      var index := 0;
      while index < 5
        invariant 0 <= index < 5 && Valid() && position == start + index
        invariant PendingU(32, s, index, result)
      {
        var b := U8();
        if b.None? {
          return None;
        }
        var byte := b.value;
        assert s[index] == byte;
        assert Pow2(4) == 16;
        if index == 4 && byte >= 16 {
          return None;
        }
        if byte < 128 {
          if index < 4 { Pow2AtLeast128(32 - 7 * index); }
          LastU(32, s, index, result);
          return Some(result + Pow128(index) * byte);
        }
        MoreU(32, s, index, result);
        result := result + Pow128(index) * (byte - 128);
        index := index + 1;
      }
      return None;
    }

    /** sleb32: the engine's reading of an s32, as a 32-bit word. */
    method SLeb32() returns (r: Option<nat>)
      requires Valid()
      modifies this
      ensures Valid()
      ensures var g := EngineS(32, data[old(position)..]);
        if g.Some? then r == Some(g.value.0 % 0x1_0000_0000) && position == old(position) + g.value.1 else r.None?
    {
      ghost var s, start := data[position..], position;
      var result: int := 0;
      var index := 0;
      while index < 5
        invariant 0 <= index < 5 && Valid() && position == start + index
        invariant PendingS(32, s, index, result)
      {
        var b := U8();
        if b.None? {
          return None;
        }
        var byte: int := b.value;
        assert s[index] == byte;
        if index == 4 {
          assert Pow2(4) == 16;
          if !(byte < 16 || 112 <= byte < 128) {
            return None;
          }
          Final32(s, result);
          return Some((result + Pow128(4) * byte) % 0x1_0000_0000);
        }
        if byte < 128 {
          LastS(32, s, index, result);
          return Some(Ended(result, index, byte) % 0x1_0000_0000);
        }
        MoreS(32, s, index, result);
        result := Grown(result, index, byte);
        index := index + 1;
      }
      return None;
    }

    method SLeb64() returns (r: Option<nat>)
      requires Valid()
      modifies this
      ensures Valid()
      ensures var g := EngineS(64, data[old(position)..]);
        if g.Some? then r == Some(g.value.0 % 0x1_0000_0000_0000_0000) && position == old(position) + g.value.1 else r.None?
    {
      ghost var s, start := data[position..], position;
      var result: int := 0;
      var index := 0;
      while index < 10
        invariant 0 <= index < 10 && Valid() && position == start + index
        invariant PendingS(64, s, index, result)
      {
        var b := U8();
        if b.None? {
          return None;
        }
        var byte: int := b.value;
        assert s[index] == byte;
        if index == 9 {
          assert Pow2(1) == 2;
          if !(byte < 2 || 126 <= byte < 128) {
            return None;
          }
          Final64(s, result);
          return Some((result + Pow128(9) * byte) % 0x1_0000_0000_0000_0000);
        }
        if byte < 128 {
          LastS(64, s, index, result);
          return Some(Ended(result, index, byte) % 0x1_0000_0000_0000_0000);
        }
        MoreS(64, s, index, result);
        result := Grown(result, index, byte);
        index := index + 1;
      }
      return None;
    }
  }

  // ---- how far the engine agrees with the grammar ----

  /** A full-length encoding whose last byte the grammar refuses and the engine takes: the
      unused bits agree with each other but not with the sign bit below them. */
  predicate Loose(n: nat, s: seq<Byte>)
    requires n > 0
  {
    s != [] &&
    if n <= 7 then
      (Pow2(n - 1) <= s[0] < Pow2(n)) || (128 - Pow2(n) <= s[0] < 128 - Pow2(n - 1))
    else s[0] >= 128 && Loose(n - 7, s[1..])
  }

  lemma {:induction false} LastFour(s: seq<Byte>)
    ensures EngineS(4, s) == GrammarS(4, s) <==> !Loose(4, s)
    ensures Loose(4, s) ==> EngineS(4, s).Some? && GrammarS(4, s).None?
  {
    assert Pow2(4) == 16 && Pow2(3) == 8;
  }

  lemma {:induction false} LastOne(s: seq<Byte>)
    ensures EngineS(1, s) == GrammarS(1, s) <==> !Loose(1, s)
    ensures Loose(1, s) ==> EngineS(1, s).Some? && GrammarS(1, s).None?
  {
    assert Pow2(1) == 2 && Pow2(0) == 1;
  }

  lemma {:induction false} GroupsMeetGrammar(groups: nat, last: nat, s: seq<Byte>)
    requires last == 4 || last == 1
    ensures var n := 7 * groups + last;
      && (EngineS(n, s) == GrammarS(n, s) <==> !Loose(n, s))
      && (Loose(n, s) ==> EngineS(n, s).Some? && GrammarS(n, s).None?)
  {
    var n := 7 * groups + last;
    if groups > 0 {
      Pow2AtLeast128(n - 1);
      if s != [] && s[0] >= 128 { GroupsMeetGrammar(groups - 1, last, s[1..]); }
    } else if last == 4 {
      LastFour(s);
    } else {
      LastOne(s);
    }
  }

  /** The engine reads what the grammar says exactly when the encoding is not loose. */
  lemma {:induction false} EngineMeetsGrammar(n: nat, s: seq<Byte>)
    requires n == 32 || n == 64
    ensures EngineS(n, s) == GrammarS(n, s) <==> !Loose(n, s)
    ensures Loose(n, s) ==> EngineS(n, s).Some? && GrammarS(n, s).None?
  {
    if n == 32 { GroupsMeetGrammar(4, 4, s); } else { GroupsMeetGrammar(9, 1, s); }
  }

  /** A concrete loose encoding: the engine takes it as the least 32-bit integer. */
  lemma {:induction false} LooseExample()
    ensures var s: seq<Byte> := [0x80, 0x80, 0x80, 0x80, 0x08];
      EngineS(32, s) == Some((-0x8000_0000, 5)) && GrammarS(32, s).None?
  {
    var s: seq<Byte> := [0x80, 0x80, 0x80, 0x80, 0x08];
    assert Pow2(4) == 16 && Pow2(3) == 8;
    assert s[1..] == [0x80, 0x80, 0x80, 0x08] && s[1..][1..] == [0x80, 0x80, 0x08];
    assert s[1..][1..][1..] == [0x80, 0x08] && s[1..][1..][1..][1..] == [0x08];
    assert EngineS(4, [0x08]) == Some((-8, 1));
    assert EngineS(11, [0x80, 0x08]) == Some((-1024, 2));
    assert EngineS(18, [0x80, 0x80, 0x08]) == Some((-131072, 3));
    assert EngineS(25, [0x80, 0x80, 0x80, 0x08]) == Some((-16777216, 4));
    EngineMeetsGrammar(32, s);
    assert Loose(4, [0x08]) && Loose(11, [0x80, 0x08]) && Loose(18, [0x80, 0x80, 0x08]);
  }

  // ---- the writers ----

  /** The canonical unsigned encoding, as the stamping script's `leb` writes it. */
  function EncodeU(v: nat): (s: seq<Byte>)
    ensures s != []
  {
    if v < 128 then [v] else [v % 128 + 128] + EncodeU(v / 128)
  }

  /** The canonical signed encoding: the shortest whose last byte carries the sign. */
  function EncodeS(v: int): (s: seq<Byte>)
    ensures s != []
    decreases if v < 0 then -v else v
  {
    if -64 <= v < 64 then [v % 128] else [v % 128 + 128] + EncodeS(v / 128)
  }

  /** Reading what was written gives the value back and consumes exactly the encoding,
      whatever follows it. */
  lemma {:induction false} UnsignedRoundTrip(n: nat, v: nat, rest: seq<Byte>)
    requires v < Pow2(n)
    ensures GrammarU(n, EncodeU(v) + rest) == Some((v, |EncodeU(v)|))
  {
    var s := EncodeU(v) + rest;
    if v >= 128 {
      assert Pow2(7) == 128;
      Pow2Grows(n, 7);
      Pow2Shift(n);
      assert s[1..] == EncodeU(v / 128) + rest;
      UnsignedRoundTrip(n - 7, v / 128, rest);
    }
  }

  lemma {:induction false} SignedRoundTrip(n: nat, v: int, rest: seq<Byte>)
    requires n > 0 && 0 <= v + Pow2(n - 1) && v < Pow2(n - 1)
    ensures GrammarS(n, EncodeS(v) + rest) == Some((v, |EncodeS(v)|))
    decreases n
  {
    var s := EncodeS(v) + rest;
    if !(-64 <= v < 64) {
      assert Pow2(6) == 64;
      Pow2Grows(n - 1, 6);
      Pow2Shift(n - 1);
      assert s[1..] == EncodeS(v / 128) + rest;
      SignedRoundTrip(n - 7, v / 128, rest);
    }
  }

  lemma {:induction false} Pow2Shift(n: nat)
    requires n >= 7
    ensures Pow2(n) == 128 * Pow2(n - 7)
  {
    assert Pow2(6) == 64 && Pow2(7) == 128;
    assert Pow2(n) == 2 * Pow2(n - 1) == 4 * Pow2(n - 2) == 8 * Pow2(n - 3) == 16 * Pow2(n - 4)
        == 32 * Pow2(n - 5) == 64 * Pow2(n - 6) == 128 * Pow2(n - 7);
  }

  /** So the engine inverts the canonical encoding of every 32-bit and 64-bit integer. */
  lemma {:induction false} SignedReadBack(n: nat, v: int, rest: seq<Byte>)
    requires n == 32 || n == 64
    requires 0 <= v + Pow2(n - 1) && v < Pow2(n - 1)
    ensures EngineS(n, EncodeS(v) + rest) == Some((v, |EncodeS(v)|))
  {
    SignedRoundTrip(n, v, rest);
    EngineMeetsGrammar(n, EncodeS(v) + rest);
  }
}
