/** Hashing block by block through a 64-byte buffer, whatever the block function: the
    update and final of the kernel's SHA-256 against the padded message. */
module BlockStream {
  import opened Sha256Words

  type Block = s: seq<bv8> | |s| == 64 witness seq(64, _ => 0)

  const LIMIT: nat := 0x2000_0000_0000_0000

  /** The state after the first n blocks of s. */
  function Fold<H>(step: (H, Block) -> H, init: H, s: seq<bv8>, n: nat): H
    requires 64 * n <= |s|
  {
    if n == 0 then init else step(Fold(step, init, s, n - 1), s[64 * (n - 1)..64 * n])
  }

  /** Section 5.1.1 of FIPS 180-4: a one bit, the fewest zero bits that leave 64 for the
      length, and the length in bits. */
  function ZeroCount(n: nat): (k: nat)
    ensures k < 64 && (n + 1 + k) % 64 == 56
  {
    (119 - n % 64) % 64
  }

  /** No fewer zeros will do. */
  lemma {:induction false} FewestZeros(n: nat, j: nat)
    requires j < ZeroCount(n)
    ensures (n + 1 + j) % 64 != 56
  {
  }

  function ZeroBytes(k: nat): (r: seq<bv8>)
    ensures |r| == k
  {
    seq(k, _ => 0)
  }

  function Pad(msg: seq<bv8>): seq<bv8> {
    msg + [0x80] + ZeroBytes(ZeroCount(|msg|)) + BigEndian(8 * |msg|, 8)
  }

  lemma {:induction false} PadIsWhole(msg: seq<bv8>)
    ensures |Pad(msg)| % 64 == 0 && |Pad(msg)| == |msg| + 1 + ZeroCount(|msg|) + 8
  {
    EightMore(|msg| + 1 + ZeroCount(|msg|));
  }

  lemma {:induction false} EightMore(n: nat)
    requires n % 64 == 56
    ensures (n + 8) % 64 == 0
  {
  }

  /** The hash of a message: the fold over all blocks of its padded form. */
  function Hashed<H>(step: (H, Block) -> H, init: H, msg: seq<bv8>): H {
    Fold(step, init, Pad(msg), |Pad(msg)| / 64)
  }

  // ---- positions in the stream ----

  lemma {:induction false} FoldPrefix<H>(step: (H, Block) -> H, init: H, a: seq<bv8>, b: seq<bv8>, n: nat)
    requires 64 * n <= |a|
    ensures Fold(step, init, a + b, n) == Fold(step, init, a, n)
  {
    if n > 0 {
      FoldPrefix(step, init, a, b, n - 1);
      assert (a + b)[64 * (n - 1)..64 * n] == a[64 * (n - 1)..64 * n];
    }
  }

  /** What is hashed and what is buffered, after more bytes that fit into the buffer. */
  lemma {:induction false} Filled<H>(step: (H, Block) -> H, init: H, m: seq<bv8>, chunk: seq<bv8>, n: nat)
    requires 64 * n <= |m| && |m| + |chunk| <= 64 * n + 64
    ensures var all := m + chunk;
      && Fold(step, init, all, n) == Fold(step, init, m, n) && all[64 * n..] == m[64 * n..] + chunk
      && (|all| == 64 * n + 64 ==>
            Fold(step, init, all, n + 1) == step(Fold(step, init, m, n), m[64 * n..] + chunk) && all[64 * (n + 1)..] == [])
  {
    var all := m + chunk;
    FoldPrefix(step, init, m, chunk, n);
    assert all[64 * n..] == m[64 * n..] + chunk;
    if |all| == 64 * n + 64 {
      assert all[64 * n..64 * (n + 1)] == all[64 * n..];
    }
  }

  lemma {:induction false} NoWrap(a: nat, b: nat)
    ensures a + b < 0x1_0000_0000_0000_0000 ==> (a + b) % 0x1_0000_0000_0000_0000 == a + b
  {
  }

  lemma {:induction false} OneZeroMore(m: seq<bv8>, k: nat)
    ensures m + ZeroBytes(k) + [0] == m + ZeroBytes(k + 1)
  {
    assert ZeroBytes(k) + [0] == ZeroBytes(k + 1);
  }

  /** How many zeros are missing at a position of the block: (56 - position) mod 64. */
  function Missing(position: nat): nat
    requires position < 64
  {
    if position <= 56 then 56 - position else 120 - position
  }

  lemma {:induction false} MissingAtFirst(n: nat, blocks: nat, position: nat)
    requires n + 1 == 64 * blocks + position && position < 64
    ensures ZeroCount(n) == Missing(position)
  {
    assert n % 64 == if position == 0 then 63 else position - 1;
  }

  class Stream<H> {
    const step: (H, Block) -> H
    const init: H
    const buf: array<bv8>
    var state: H
    var len: nat
    var buflen: nat
    ghost var msg: seq<bv8>
    ghost var blocks: nat

    /** What was fed so far is the hashed blocks and the bytes in the buffer. */
    ghost predicate Fed()
      reads this, buf
    {
      && buf.Length == 64 && buflen < 64 && |msg| == 64 * blocks + buflen
      && state == Fold(step, init, msg, blocks) && buf[..buflen] == msg[64 * blocks..]
    }

    ghost predicate Valid()
      reads this, buf
    {
      Fed() && (|msg| < 0x1_0000_0000_0000_0000 ==> len == |msg|)
    }

    constructor (step: (H, Block) -> H, init: H)
      ensures Valid() && msg == [] && fresh(buf) && this.step == step && this.init == init
    {
      this.step := step;
      this.init := init;
      buf := new bv8[64];
      state := init;
      len := 0;
      buflen := 0;
      msg := [];
      blocks := 0;
    }

    method CopyIn(chunk: seq<bv8>)
      requires buf.Length == 64 && buflen + |chunk| <= 64
      modifies buf
      ensures buf[..buflen + |chunk|] == old(buf[..buflen]) + chunk
    {
      var i := 0;
      while i < |chunk|
        invariant 0 <= i <= |chunk| && buf[..buflen] == old(buf[..buflen]) && buf[buflen..buflen + i] == chunk[..i]
      {
        buf[buflen + i] := chunk[i];
        i := i + 1;
      }
      assert buf[..buflen + i] == buf[..buflen] + buf[buflen..buflen + i];
    }

    /** One round of update's loop: fill the buffer, and hash it when it is full. */
    method Feed(chunk: seq<bv8>)
      requires Fed() && |chunk| <= 64 - buflen
      modifies this`state, this`buflen, this`msg, this`blocks, buf
      ensures Fed() && msg == old(msg) + chunk
      ensures buflen == if old(buflen) + |chunk| == 64 then 0 else old(buflen) + |chunk|
    {
      Filled(step, init, msg, chunk, blocks);
      CopyIn(chunk);
      msg := msg + chunk;
      buflen := buflen + |chunk|;
      if buflen == 64 {
        assert buf[..] == buf[..64];
        state := step(state, buf[..]);
        buflen := 0;
        blocks := blocks + 1;
      }
    }

    method FeedAll(data: seq<bv8>)
      requires Fed()
      modifies this`state, this`buflen, this`msg, this`blocks, buf
      ensures Fed() && msg == old(msg) + data
      ensures |data| == 1 ==> buflen == if old(buflen) == 63 then 0 else old(buflen) + 1
    {
      ghost var m0 := msg;
      var off := 0;
      assert m0 + data[..0] == m0;
      while off < |data|
        invariant 0 <= off <= |data| && Fed() && msg == m0 + data[..off]
        invariant off == 0 ==> buflen == old(buflen)
        invariant |data| == 1 && off == 1 ==> buflen == if old(buflen) == 63 then 0 else old(buflen) + 1
      {
        var take := 64 - buflen;
        if take > |data| - off {
          take := |data| - off;
        }
        assert data[..off + take] == data[..off] + data[off..off + take];
        Feed(data[off..off + take]);
        off := off + take;
      }
      assert data[..off] == data;
    }

    /** Any number of bytes at once. */
    method Update(data: seq<bv8>)
      requires Valid()
      modifies this, buf
      ensures Valid() && msg == old(msg) + data
      ensures |data| == 1 ==> buflen == if old(buflen) == 63 then 0 else old(buflen) + 1
    {
      NoWrap(len, |data|);
      len := (len + |data|) % 0x1_0000_0000_0000_0000;
      FeedAll(data);
    }

    method PadZero(ghost m: seq<bv8>, ghost k: nat)
      requires Valid() && msg == m + ZeroBytes(k)
      modifies this, buf
      ensures Valid() && msg == m + ZeroBytes(k + 1)
      ensures buflen == if old(buflen) == 63 then 0 else old(buflen) + 1
    {
      Update([0]);
      OneZeroMore(m, k);
    }

    /** Zero bytes until eight are left in the block; the position measures what is left. */
    method PadZeros(ghost m: seq<bv8>, ghost n: nat)
      requires Valid() && msg == m && |m| == n + 1
      modifies this, buf
      ensures Valid() && msg == m + ZeroBytes(ZeroCount(n)) && buflen == 56
    {
      ghost var k := 0;
      assert msg == m + ZeroBytes(0);
      MissingAtFirst(n, blocks, buflen);
      ghost var zeros := ZeroCount(n);
      while buflen != 56
        invariant Valid() && msg == m + ZeroBytes(k) && k + Missing(buflen) == zeros
        decreases if buflen <= 56 then 56 - buflen else 120 - buflen
      {
        PadZero(m, k);
        k := k + 1;
      }
    }

    /** The length goes into the last eight bytes of the buffer directly. */
    method PadLength(bitlen: nat)
      requires Fed() && buflen == 56
      modifies this, buf
      ensures var all := old(msg) + BigEndian(bitlen, 8);
        |all| == 64 * (old(blocks) + 1) && state == Fold(step, init, all, old(blocks) + 1)
    {
      ghost var tail := BigEndian(bitlen, 8);
      Filled(step, init, msg, tail, blocks);
      var i := 0;
      while i < 8
        invariant 0 <= i <= 8 && buf[..56] == old(buf[..56]) && buf[56..56 + i] == tail[..i]
        modifies buf
      {
        BigEndianAt(bitlen, 8, i);
        buf[56 + i] := ((bitlen / Pow256(7 - i)) % 256) as bv8;
        i := i + 1;
      }
      assert buf[..] == old(buf[..56]) + tail;
      state := step(state, buf[..]);
      buflen := 0;
    }

    /** Padding and the last block: the state is the fold over the padded message. */
    method Finish()
      requires Valid() && |msg| < LIMIT
      modifies this, buf
      ensures state == Hashed(step, init, old(msg))
    {
      ghost var m0 := msg;
      var bitlen := (len * 8) % 0x1_0000_0000_0000_0000;
      NoWrap(8 * len, 0);
      Update([0x80]);
      PadZeros(m0 + [0x80], |m0|);
      ghost var n := blocks + 1;
      PadLength(bitlen);
      PadIsWhole(m0);
      assert |Pad(m0)| / 64 == n;
    }
  }
}
