/** The round-robin scheduler loop over twelve session slots, of which slot 0 is the
    kernel's and never runs. */
module Scheduler {
  import opened Options

  datatype State = Free | Runnable | Running | Zombie

  // ---- one scan ----

  /** The k-th slot the scan looks at. */
  function SlotAt(next: nat, k: nat): (i: nat)
    requires next < 12 && k < 12
    ensures i < 12
  {
    if next + k < 12 then next + k else next + k - 12
  }

  predicate Pickable(states: seq<State>, i: nat)
    requires i < |states|
  {
    i != 0 && states[i].Runnable?
  }

  /** i is the first slot from `next` on, around the end, that can run. */
  ghost predicate FirstFrom(states: seq<State>, next: nat, i: nat)
    requires |states| == 12 && next < 12
  {
    && i < 12 && Pickable(states, i)
    && forall k {:trigger SlotAt(next, k)} :: 0 <= k < Distance(next, i) ==> !Pickable(states, SlotAt(next, k))
  }

  /** How far i is ahead of `next`: (i - next) mod 12. */
  function Distance(next: nat, i: nat): (d: nat)
    requires next < 12 && i < 12
    ensures d < 12 && SlotAt(next, d) == i
  {
    if next <= i then i - next else i + 12 - next
  }

  class Pool {
    const states: array<State>
    var nextRr: nat

    ghost predicate Valid()
      reads this
    {
      states.Length == 12 && nextRr < 12
    }

    constructor ()
      ensures Valid() && fresh(states) && nextRr == 0 && forall i :: 0 <= i < 12 ==> states[i].Free?
    {
      states := new State[12](_ => Free);
      nextRr := 0;
    }

    /** Zombies become free slots. */
    method Reap()
      requires Valid()
      modifies states
      ensures states[..] == Reaped(old(states[..]))
    {
      var i := 1;
      while i < 12
        invariant 1 <= i <= 12
        invariant forall j :: 0 <= j < i ==> states[j] == Reaped(old(states[..]))[j]
        invariant forall j :: i <= j < 12 ==> states[j] == old(states[j])
      {
        if states[i].Zombie? {
          states[i] := Free;
        }
        i := i + 1;
      }
    }

    /** The scan: the first runnable slot from next_rr on is picked and becomes running, and
        the next scan starts after it. */
    method Pick() returns (picked: Option<nat>)
      requires Valid()
      modifies this, states
      ensures Valid()
      ensures picked.None? ==>
        nextRr == old(nextRr) && states[..] == old(states[..]) && forall i :: 0 <= i < 12 ==> !Pickable(states[..], i)
      ensures picked.Some? ==>
        && FirstFrom(old(states[..]), old(nextRr), picked.value) && nextRr == (picked.value + 1) % 12
        && states[..] == old(states[..])[picked.value := Running]
    {
      var k := 0;
      while k < 12
        invariant 0 <= k <= 12 && nextRr == old(nextRr) && states[..] == old(states[..])
        invariant forall j {:trigger SlotAt(nextRr, j)} :: 0 <= j < k ==> !Pickable(states[..], SlotAt(nextRr, j))
      {
        var i := SlotAt(nextRr, k);
        if i != 0 && states[i].Runnable? {
          assert Distance(nextRr, i) == k;
          states[i] := Running;
          nextRr := (i + 1) % 12;
          return Some(i);
        }
        k := k + 1;
      }
      forall i | 0 <= i < 12 ensures !Pickable(states[..], i) {
        assert SlotAt(nextRr, Distance(nextRr, i)) == i;
      }
      return None;
    }
  }

  function Reaped(states: seq<State>): (r: seq<State>)
    ensures |r| == |states|
  {
    seq(|states|, i requires 0 <= i < |states| => if i != 0 && states[i].Zombie? then Free else states[i])
  }

  // ---- whole runs ----

  /** The scheduler between two steps: in its own loop, or inside a session. */
  datatype Machine = Machine(states: seq<State>, next: nat, current: Option<nat>)

  datatype Step =
    | Scan(picked: Option<nat>)   // reap, then look for a session to run
    | Yield                       // the running session gives up the processor
    | Exit                        // the running session ends
    | Spawn(slot: nat)            // the running session starts another
    | Kill(slot: nat)             // the running session ends another

  ghost predicate Next(m: Machine, step: Step, m1: Machine) {
    && |m.states| == 12 && m.next < 12
    && match step
       case Scan(picked) =>
         && m.current.None?
         && var reaped := Reaped(m.states);
         if picked.None? then
           (forall i :: 0 <= i < 12 ==> !Pickable(reaped, i)) && m1 == m.(states := reaped)
         else
           && FirstFrom(reaped, m.next, picked.value)
           && m1 == Machine(reaped[picked.value := Running], (picked.value + 1) % 12, picked)
       case Yield =>
         && m.current.Some? && m.current.value < 12
         && m1 == m.(states := m.states[m.current.value := Runnable], current := None)
       case Exit =>
         && m.current.Some? && m.current.value < 12
         && m1 == m.(states := m.states[m.current.value := Zombie], current := None)
       case Spawn(i) =>
         && m.current.Some? && 0 < i < 12 && m.states[i].Free?
         && m1 == m.(states := m.states[i := Runnable])
       case Kill(i) =>
         && m.current.Some? && 0 < i < 12 && Some(i) != m.current && m.states[i].Runnable?
         && m1 == m.(states := m.states[i := Zombie])
  }

  ghost predicate Run(ms: seq<Machine>, steps: seq<Step>) {
    |ms| == |steps| + 1 && forall k {:trigger steps[k]} :: 0 <= k < |steps| ==> Next(ms[k], steps[k], ms[k + 1])
  }

  /** A session is running exactly while control is inside it. */
  ghost predicate Ok(m: Machine) {
    && |m.states| == 12 && m.next < 12 && (m.current.Some? ==> 0 < m.current.value < 12)
    && forall i :: 0 <= i < 12 ==> (m.states[i].Running? <==> m.current == Some(i))
  }

  lemma {:induction false} StepKeeps(m: Machine, step: Step, m1: Machine)
    requires Ok(m) && Next(m, step, m1)
    ensures Ok(m1)
  {
  }

  /** In every run no session is running when the loop starts a scan, and exactly the picked
      one runs afterwards. */
  lemma {:induction false} NobodyRunsAtScan(ms: seq<Machine>, steps: seq<Step>, k: nat)
    requires Run(ms, steps) && Ok(ms[0]) && k <= |steps|
    ensures Ok(ms[k])
    ensures k < |steps| && steps[k].Scan? ==> forall i :: 0 <= i < 12 ==> !ms[k].states[i].Running?
  {
    if k > 0 {
      NobodyRunsAtScan(ms, steps, k - 1);
      assert Next(ms[k - 1], steps[k - 1], ms[k]);
      StepKeeps(ms[k - 1], steps[k - 1], ms[k]);
    }
    if k < |steps| { assert Next(ms[k], steps[k], ms[k + 1]); }
  }

  // ---- bounded waiting ----

  /** How many other sessions the scan can still come to before `sid`. */
  function Ahead(next: nat, sid: nat): (n: nat)
    requires next < 12 && 0 < sid < 12
    ensures n <= 10
  {
    if next == 0 then sid - 1 else if next <= sid then sid - next else 11 - next + sid
  }

  function Picks(steps: seq<Step>, n: nat): nat
    requires n <= |steps|
  {
    if n == 0 then 0 else Picks(steps, n - 1) + if steps[n - 1].Scan? && steps[n - 1].picked.Some? then 1 else 0
  }

  /** The session is runnable all along and is passed over. */
  ghost predicate Waits(ms: seq<Machine>, steps: seq<Step>, sid: nat) {
    && 0 < sid < 12 && |ms| == |steps| + 1
    && (forall k {:trigger ms[k]} :: 0 <= k < |ms| ==> |ms[k].states| == 12 && ms[k].states[sid].Runnable?)
  }

  /** Picking another session brings the scan closer. */
  lemma {:induction false} PickComesCloser(states: seq<State>, next: nat, i: nat, sid: nat)
    requires |states| == 12 && next < 12 && 0 < sid < 12 && states[sid].Runnable? && i != sid && FirstFrom(states, next, i)
    ensures Ahead((i + 1) % 12, sid) < Ahead(next, sid)
  {
    var d, e := Distance(next, i), Distance(next, sid);
    assert Pickable(states, SlotAt(next, e)) && SlotAt(next, d) == i;
  }

  lemma {:induction false} WaitingCounts(ms: seq<Machine>, steps: seq<Step>, sid: nat, n: nat)
    requires Run(ms, steps) && Ok(ms[0]) && Waits(ms, steps, sid) && n <= |steps|
    ensures ms[n].next < 12 && Picks(steps, n) + Ahead(ms[n].next, sid) <= Ahead(ms[0].next, sid)
  {
    if n > 0 {
      WaitingCounts(ms, steps, sid, n - 1);
      var m, step, m1 := ms[n - 1], steps[n - 1], ms[n];
      assert Next(m, step, m1) && m.states[sid].Runnable? && m1.states[sid].Runnable?;
      if step.Scan? && step.picked.Some? {
        PickComesCloser(Reaped(m.states), m.next, step.picked.value, sid);
      }
    }
  }

  /** A session that stays runnable is passed over at most ten times: it is picked within
      eleven picks. */
  lemma {:induction false} BoundedWaiting(ms: seq<Machine>, steps: seq<Step>, sid: nat)
    requires Run(ms, steps) && Ok(ms[0]) && Waits(ms, steps, sid)
    ensures Picks(steps, |steps|) <= 10
  {
    WaitingCounts(ms, steps, sid, |steps|);
  }
}
