/** A port's ring of 32 slots, and the first-in first-out queue it stands for. */
module PortRing {
  import opened Options
  import opened Words

  /** A datagram and the session it came from. */
  datatype Msg = Msg(from: nat, data: seq<Byte>)

  datatype Ring = Ring(slots: seq<Option<Msg>>, qn: nat, qh: nat, qt: nat)

  function Empty(): Ring { Ring(seq(32, _ => None), 0, 0, 0) }

  /** The slot of the i-th datagram in line. */
  function Slot(r: Ring, i: nat): (k: nat)
    requires r.qh < 32 && i <= 32
    ensures k < 32
  {
    if r.qh + i < 32 then r.qh + i else r.qh + i - 32
  }

  /** Slot k is one of the qn slots from qh on, around the end. */
  predicate Live(r: Ring, k: nat)
    requires r.qh < 32
  {
    (r.qh <= k < r.qh + r.qn) || k + 32 < r.qh + r.qn
  }

  /** Exactly the live slots hold datagrams. */
  predicate Valid(r: Ring) {
    && |r.slots| == 32 && r.qn <= 32 && r.qh < 32 && r.qt == (r.qh + r.qn) % 32
    && forall k {:trigger r.slots[k]} :: 0 <= k < 32 ==> (r.slots[k].Some? <==> Live(r, k))
  }

  predicate Holds(r: Ring, i: nat)
    requires |r.slots| == 32 && r.qh < 32 && i < 32
  {
    r.slots[Slot(r, i)].Some?
  }

  lemma {:induction false} SlotIsLive(r: Ring, i: nat)
    requires Valid(r) && i < r.qn
    ensures Holds(r, i)
  {
    assert Live(r, Slot(r, i));
  }

  /** The queue a ring stands for. */
  ghost function Queue(r: Ring): (q: seq<Msg>)
    requires Valid(r)
    ensures |q| == r.qn
  {
    forall i | 0 <= i < r.qn ensures Holds(r, i) { SlotIsLive(r, i); }
    seq(r.qn, i requires 0 <= i < r.qn && Holds(r, i) => r.slots[Slot(r, i)].value)
  }

  lemma {:induction false} QueueAt(r: Ring, i: nat)
    requires Valid(r) && i < r.qn
    ensures Holds(r, i) && Queue(r)[i] == r.slots[Slot(r, i)].value
  {
    SlotIsLive(r, i);
  }

  function Put(r: Ring, m: Msg): Ring
    requires Valid(r) && r.qn < 32
  {
    Ring(r.slots[r.qt := Some(m)], r.qn + 1, r.qh, (r.qt + 1) % 32)
  }

  function Take(r: Ring): Ring
    requires Valid(r) && r.qn > 0
  {
    Ring(r.slots[r.qh := None], r.qn - 1, (r.qh + 1) % 32, r.qt)
  }

  /** Putting adds at the back of the queue. */
  lemma {:induction false} PutIsEnqueue(r: Ring, m: Msg)
    requires Valid(r) && r.qn < 32
    ensures Valid(Put(r, m)) && Queue(Put(r, m)) == Queue(r) + [m]
  {
    var p := Put(r, m);
    assert r.qt == Slot(r, r.qn);
    forall k | 0 <= k < 32 ensures p.slots[k].Some? <==> Live(p, k) {
      assert r.slots[k].Some? <==> Live(r, k);
    }
    forall i | 0 <= i < p.qn ensures Queue(p)[i] == (Queue(r) + [m])[i] {
      QueueAt(p, i);
      if i < r.qn { QueueAt(r, i); }
    }
  }

  /** Taking removes the front of the queue. */
  lemma {:induction false} TakeIsDequeue(r: Ring)
    requires Valid(r) && r.qn > 0
    ensures r.slots[r.qh].Some? && Valid(Take(r)) && [r.slots[r.qh].value] + Queue(Take(r)) == Queue(r)
  {
    var t := Take(r);
    QueueAt(r, 0);
    forall k | 0 <= k < 32 ensures t.slots[k].Some? <==> Live(t, k) {
      assert r.slots[k].Some? <==> Live(r, k);
    }
    forall i | 0 <= i < r.qn ensures ([r.slots[r.qh].value] + Queue(t))[i] == Queue(r)[i] {
      QueueAt(r, i);
      if i > 0 { QueueAt(t, i - 1); }
    }
  }

  lemma {:induction false} EmptyIsEmpty()
    ensures Valid(Empty()) && Queue(Empty()) == []
  {
  }
}
