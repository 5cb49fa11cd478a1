/** The decoder's chunked vector. */
module TempVectors {
  import opened Options

  const CHUNK_CAPACITY: nat := 64
  const MAX_COUNT: nat := 0xffff_ffff

  /** A chunk: the values in use and how many it can hold. */
  datatype Chunk<T> = Chunk(values: seq<T>, capacity: nat)

  /** Where a forward walk has got to: a chunk and the number of values before it. */
  datatype Cursor = Cursor(chunk: Option<nat>, base: nat)

  function Flat<T>(chunks: seq<Chunk<T>>): seq<T> {
    if chunks == [] then [] else Flat(chunks[..|chunks| - 1]) + chunks[|chunks| - 1].values
  }

  lemma {:induction false} FlatLast<T>(chunks: seq<Chunk<T>>, c: Chunk<T>)
    ensures Flat(chunks + [c]) == Flat(chunks) + c.values
  {
    assert (chunks + [c])[..|chunks|] == chunks;
  }

  lemma {:induction false} FlatAt<T>(chunks: seq<Chunk<T>>, k: nat)
    requires k < |chunks|
    ensures var before := |Flat(chunks[..k])|;
      && before + |chunks[k].values| <= |Flat(chunks)|
      && Flat(chunks)[before..before + |chunks[k].values|] == chunks[k].values
      && |Flat(chunks[..k + 1])| == before + |chunks[k].values|
  {
    assert chunks[..k + 1][..k] == chunks[..k];
    if k == |chunks| - 1 {
      assert chunks[..k + 1] == chunks;
    } else {
      var front := chunks[..|chunks| - 1];
      FlatAt(front, k);
      assert front[..k] == chunks[..k] && front[..k + 1] == chunks[..k + 1];
    }
  }

  lemma {:induction false} FlatEmptyTail<T>(chunks: seq<Chunk<T>>, k: nat)
    requires k <= |chunks| && forall i :: k <= i < |chunks| ==> chunks[i].values == []
    ensures Flat(chunks) == Flat(chunks[..k])
  {
    if k == |chunks| {
      assert chunks[..k] == chunks;
    } else {
      var front := chunks[..|chunks| - 1];
      FlatEmptyTail(front, k);
      assert front[..k] == chunks[..k];
    }
  }

  lemma {:induction false} FlatPrefix<T>(a: seq<Chunk<T>>, b: seq<Chunk<T>>)
    ensures Flat(a + b) == Flat(a) + Flat(b)
  {
    if b == [] {
      assert a + b == a;
    } else {
      var n := |b| - 1;
      assert (a + b)[..|a| + n] == a + b[..n];
      FlatPrefix(a, b[..n]);
    }
  }

  /** Changing one chunk's values changes just its stretch of the contents. */
  lemma {:induction false} FlatUpdate<T>(chunks: seq<Chunk<T>>, k: nat, c: Chunk<T>)
    requires k < |chunks|
    ensures var before := Flat(chunks[..k]);
      Flat(chunks[k := c]) == before + c.values + Flat(chunks[k + 1..])
      && Flat(chunks) == before + chunks[k].values + Flat(chunks[k + 1..])
  {
    var front, back := chunks[..k], chunks[k + 1..];
    assert chunks == (front + [chunks[k]]) + back;
    assert chunks[k := c] == (front + [c]) + back;
    FlatPrefix(front + [chunks[k]], back);
    FlatPrefix(front + [c], back);
    FlatLast(front, chunks[k]);
    FlatLast(front, c);
  }

  lemma {:induction false} SetInMiddle<T>(a: seq<T>, b: seq<T>, c: seq<T>, i: nat, value: T)
    requires i < |b|
    ensures a + b[i := value] + c == (a + b + c)[|a| + i := value]
  {
  }

  /** While the values up to chunk k end at or before `index`, another chunk follows. */
  lemma {:induction false} MoreChunks<T>(chunks: seq<Chunk<T>>, k: nat, index: nat)
    requires k < |chunks| && |Flat(chunks[..k])| + |chunks[k].values| <= index < |Flat(chunks)|
    ensures k + 1 < |chunks| && |Flat(chunks[..k + 1])| == |Flat(chunks[..k])| + |chunks[k].values|
  {
    FlatAt(chunks, k);
    assert chunks[..|chunks|] == chunks;
  }

  lemma {:induction false} FlatSet<T>(chunks: seq<Chunk<T>>, k: nat, offset: nat, value: T)
    requires k < |chunks| && offset < |chunks[k].values|
    ensures var at := |Flat(chunks[..k])| + offset;
      var c := chunks[k].(values := chunks[k].values[offset := value]);
      at < |Flat(chunks)| && Flat(chunks[k := c]) == Flat(chunks)[at := value]
  {
    var c := chunks[k].(values := chunks[k].values[offset := value]);
    FlatUpdate(chunks, k, c);
    SetInMiddle(Flat(chunks[..k]), chunks[k].values, Flat(chunks[k + 1..]), offset, value);
  }

  /** Other values in the newest chunk that holds anything. */
  lemma {:induction false} FlatReplaced<T>(chunks: seq<Chunk<T>>, k: nat, values: seq<T>)
    requires k < |chunks| && forall i :: k < i < |chunks| ==> chunks[i].values == []
    ensures var before := Flat(chunks[..k]);
      && Flat(chunks) == before + chunks[k].values
      && Flat(chunks[k := chunks[k].(values := values)]) == before + values
  {
    FlatUpdate(chunks, k, chunks[k].(values := values));
    FlatEmptyTail(chunks[k + 1..], 0);
    assert Flat(chunks[k + 1..]) == [];
  }

  /** Where `at` lands: it counts chunks from the newest, but values in a chunk from the
      oldest. */
  function Position<T>(chunks: seq<Chunk<T>>, index: nat): (p: nat)
    requires index < |Flat(chunks)|
    ensures p < |Flat(chunks)|
  {
    var front, last := chunks[..|chunks| - 1], chunks[|chunks| - 1].values;
    if index < |last| then |Flat(front)| + index else Position(front, index - |last|)
  }

  /** Still, asking `at` for every index visits every value exactly once. */
  lemma {:induction false} AtVisitsOnce<T>(chunks: seq<Chunk<T>>, i: nat, j: nat)
    requires i < j < |Flat(chunks)|
    ensures Position(chunks, i) != Position(chunks, j)
  {
    var front, last := chunks[..|chunks| - 1], chunks[|chunks| - 1].values;
    if i >= |last| { AtVisitsOnce(front, i - |last|, j - |last|); }
  }

  lemma {:induction false} AtReaches<T>(chunks: seq<Chunk<T>>, p: nat) returns (i: nat)
    requires p < |Flat(chunks)|
    ensures i < |Flat(chunks)| && Position(chunks, i) == p
  {
    var front, last := chunks[..|chunks| - 1], chunks[|chunks| - 1].values;
    if p >= |Flat(front)| {
      i := p - |Flat(front)|;
    } else {
      i := AtReaches(front, p);
      i := i + |last|;
    }
  }

  class TempVector<T> {
    var chunks: seq<Chunk<T>>
    var count: nat

    ghost predicate Valid()
      reads this
    {
      && count == |Flat(chunks)| <= MAX_COUNT
      && forall k :: 0 <= k < |chunks| ==> |chunks[k].values| <= chunks[k].capacity && chunks[k].capacity > 0
    }

    ghost function Contents(): seq<T>
      reads this
    {
      Flat(chunks)
    }

    /** How many more values the newest chunk takes. */
    function Slack(): nat
      requires Valid()
      reads this
    {
      if chunks == [] then 0 else chunks[|chunks| - 1].capacity - |chunks[|chunks| - 1].values|
    }

    constructor ()
      ensures Valid() && Contents() == [] && chunks == []
    {
      chunks := [];
      count := 0;
    }

    method Reserve(capacity: nat) returns (ok: bool)
      requires Valid()
      modifies this
      ensures Valid() && Contents() == old(Contents())
      ensures ok ==> capacity > 0 && old(chunks) == [] && Slack() == capacity
    {
      if capacity == 0 || chunks != [] {
        return false;
      }
      ok := *;
      if ok {
        FlatLast(chunks, Chunk([], capacity));
        chunks := chunks + [Chunk([], capacity)];
      }
    }

    /** The arena may refuse a new chunk; then nothing changes. */
    method Append(value: T) returns (ok: bool)
      requires Valid()
      modifies this
      ensures Valid() && Contents() == if ok then old(Contents()) + [value] else old(Contents())
      ensures old(count) == MAX_COUNT ==> !ok
      ensures old(Slack()) > 0 && old(count) < MAX_COUNT ==> ok && Slack() == old(Slack()) - 1
    {
      if count == MAX_COUNT {
        return false;
      }
      if chunks == [] || |chunks[|chunks| - 1].values| == chunks[|chunks| - 1].capacity {
        ok := *;
        if !ok {
          return;
        }
        FlatLast(chunks, Chunk([], CHUNK_CAPACITY));
        chunks := chunks + [Chunk([], CHUNK_CAPACITY)];
      }
      var n := |chunks| - 1;
      var last := chunks[n];
      var grown := last.(values := last.values + [value]);
      assert chunks == chunks[..n] + [last];
      FlatLast(chunks[..n], last);
      FlatLast(chunks[..n], grown);
      chunks := chunks[..n] + [grown];
      count := count + 1;
      ok := true;
    }

    /** The newest chunk that holds anything. */
    method LastUsed() returns (k: Option<nat>)
      requires Valid()
      ensures k.None? <==> Contents() == []
      ensures k.Some? ==>
        && k.value < |chunks| && chunks[k.value].values != []
        && forall i :: k.value < i < |chunks| ==> chunks[i].values == []
    {
      var n := |chunks|;
      while n > 0
        invariant 0 <= n <= |chunks| && forall i :: n <= i < |chunks| ==> chunks[i].values == []
      {
        if chunks[n - 1].values != [] {
          FlatAt(chunks, n - 1);
          return Some(n - 1);
        }
        n := n - 1;
      }
      FlatEmptyTail(chunks, 0);
      return None;
    }

    method Top() returns (r: Option<T>)
      requires Valid()
      ensures r == if Contents() == [] then None else Some(Contents()[|Contents()| - 1])
    {
      var k := LastUsed();
      if k.None? {
        return None;
      }
      var values := chunks[k.value].values;
      FlatAt(chunks, k.value);
      FlatEmptyTail(chunks, k.value + 1);
      r := Some(values[|values| - 1]);
    }

    /** Writes through the pointer that `top` returned. */
    method SetTop(value: T)
      requires Valid() && Contents() != []
      modifies this
      ensures Valid() && Contents() == old(Contents())[|old(Contents())| - 1 := value]
    {
      var k := LastUsed();
      var values := chunks[k.value].values;
      ReplaceChunk(k.value, values[|values| - 1 := value]);
    }

    method Pop()
      requires Valid()
      modifies this
      ensures Valid()
      ensures Contents() == if old(Contents()) == [] then [] else old(Contents())[..|old(Contents())| - 1]
    {
      var k := LastUsed();
      if k.None? {
        return;
      }
      var values := chunks[k.value].values;
      ReplaceChunk(k.value, values[..|values| - 1]);
    }

    method ReplaceChunk(k: nat, values: seq<T>)
      requires Valid() && k < |chunks| && |values| <= |chunks[k].values|
      requires forall i :: k < i < |chunks| ==> chunks[i].values == []
      modifies this
      ensures Valid()
      ensures |old(Contents())| >= |old(chunks[k].values)|
      ensures var before := old(Contents())[..|old(Contents())| - |old(chunks[k].values)|];
        old(Contents()) == before + old(chunks[k].values) && Contents() == before + values
    {
      FlatReplaced(chunks, k, values);
      count := count - (|chunks[k].values| - |values|);
      chunks := chunks[k := chunks[k].(values := values)];
    }

    /** Writes through a pointer kept to the value at `index`. */
    method Patch(index: nat, value: T)
      requires Valid() && index < |Contents()|
      modifies this
      ensures Valid() && Contents() == old(Contents())[index := value]
    {
      var k, base := 0, 0;
      while index >= base + |chunks[k].values|
        invariant chunks == old(chunks) && count == old(count) && k < |chunks| && base == |Flat(chunks[..k])| <= index
        decreases |chunks| - k
      {
        MoreChunks(chunks, k, index);
        base := base + |chunks[k].values|;
        k := k + 1;
      }
      var chunk := chunks[k].(values := chunks[k].values[index - base := value]);
      FlatSet(chunks, k, index - base, value);
      chunks := chunks[k := chunk];
    }

    ghost predicate Follows(c: Cursor)
      reads this
    {
      match c.chunk
      case None => c.base == 0
      case Some(k) => k < |chunks| && c.base == |Flat(chunks[..k])|
    }

    /** Forward lookup: with a cursor at or before `index` it finds exactly that value, and
        leaves a cursor for the next higher index. */
    method NthFrom(index: nat, c: Cursor) returns (r: Option<T>, next: Cursor)
      requires Valid() && Follows(c) && c.base <= index
      ensures r == if index < count then Some(Contents()[index]) else None
      ensures r.Some? ==> Follows(next) && next.base <= index
    {
      var k, base := if c.chunk.None? then 0 else c.chunk.value, c.base;
      while k < |chunks| && index >= base + |chunks[k].values|
        invariant k <= |chunks| && base == |Flat(chunks[..k])| <= index
      {
        FlatAt(chunks, k);
        base := base + |chunks[k].values|;
        k := k + 1;
      }
      if k == |chunks| {
        assert chunks[..k] == chunks;
        return None, Cursor(None, base);
      }
      FlatAt(chunks, k);
      assert chunks[k].values[index - base] == Flat(chunks)[base..base + |chunks[k].values|][index - base];
      r := Some(chunks[k].values[index - base]);
      next := Cursor(Some(k), base);
    }

    method At(index: nat) returns (r: Option<T>)
      requires Valid()
      ensures r == if index < count then Some(Contents()[Position(chunks, index)]) else None
    {
      var rest, i: nat := chunks, index;
      while rest != [] && i >= |rest[|rest| - 1].values|
        invariant rest <= chunks && (index < count <==> i < |Flat(rest)|)
        invariant index < count ==> Position(chunks, index) == Position(rest, i)
        decreases |rest|
      {
        i := i - |rest[|rest| - 1].values|;
        rest := rest[..|rest| - 1];
      }
      if rest == [] {
        return None;
      }
      assert chunks == rest + chunks[|rest|..];
      FlatPrefix(rest, chunks[|rest|..]);
      r := Some(rest[|rest| - 1].values[i]);
    }

    /** Copies everything into one block, oldest first, and gives the chunks back. */
    method Finish() returns (r: Option<seq<T>>)
      requires Valid()
      modifies this
      ensures Valid() && Contents() == [] && chunks == []
      ensures r.Some? ==> r.value == old(Contents()) && r.value != []
    {
      var granted := *;
      if count == 0 || !granted {
        r := None;
      } else {
        var out: seq<T> := [];
        var k := 0;
        while k < |chunks|
          invariant 0 <= k <= |chunks| && chunks == old(chunks) && out == Flat(chunks[..k])
        {
          assert chunks[..k + 1] == chunks[..k] + [chunks[k]];
          FlatLast(chunks[..k], chunks[k]);
          out := out + chunks[k].values;
          k := k + 1;
        }
        assert chunks[..k] == chunks;
        r := Some(out);
      }
      chunks := [];
      count := 0;
    }

    method Release()
      modifies this
      ensures Valid() && Contents() == [] && chunks == []
    {
      chunks := [];
      count := 0;
    }
  }
}
