/** Preemption: `request_preempt` may arrive at any moment, the loop yields before its next
    instruction, and `resume` enters it again, possibly with another result buffer. */
module WasmPreemption {
  import opened Options
  import opened WasmSyntax
  import opened WasmExec
  import opened WasmMachine
  import opened WasmLabels
  import opened WasmTypeSoundness

  /** The engine between two events: the machine, the pending request, whether control is
      outside the loop, and the capacity of the caller's result buffer. */
  datatype Engine = Engine(out: Outcome, pending: bool, parked: bool, capacity: nat)

  datatype Event =
    | Request
    | Resume(capacity: nat)
    | Tick

  function Next(env: Env, lim: Limits, e: Engine, ev: Event): Engine {
    match ev
    case Request => if e.out.Running? then e.(pending := true) else e
    case Resume(capacity) => if e.out.Running? && e.parked then e.(parked := false, capacity := capacity) else e
    case Tick =>
      if !e.out.Running? || e.parked then e
      else if e.pending then e.(pending := false, parked := true)
      else e.(out := Step(env, lim, e.capacity, e.out.next))
  }

  function After(env: Env, lim: Limits, e: Engine, evs: seq<Event>): Engine {
    if evs == [] then e else Next(env, lim, After(env, lim, e, evs[..|evs| - 1]), evs[|evs| - 1])
  }

  /** The instruction is executed by this event. */
  predicate Executes(e: Engine, ev: Event) { ev.Tick? && e.out.Running? && !e.parked && !e.pending }

  predicate Yields(e: Engine, ev: Event) { ev.Tick? && e.out.Running? && !e.parked && e.pending }

  /** Every state the machine goes through, the first one included. */
  function States(env: Env, lim: Limits, e: Engine, evs: seq<Event>): (r: seq<Outcome>)
    ensures |r| > 0
  {
    if evs == [] then [e.out]
    else
      var before := After(env, lim, e, evs[..|evs| - 1]);
      var rest := States(env, lim, e, evs[..|evs| - 1]);
      if Executes(before, evs[|evs| - 1]) then rest + [Next(env, lim, before, evs[|evs| - 1]).out] else rest
  }

  function Requests(evs: seq<Event>): nat {
    if evs == [] then 0 else Requests(evs[..|evs| - 1]) + if evs[|evs| - 1].Request? then 1 else 0
  }

  function Yielded(env: Env, lim: Limits, e: Engine, evs: seq<Event>): nat {
    if evs == [] then 0
    else
      var before := After(env, lim, e, evs[..|evs| - 1]);
      Yielded(env, lim, e, evs[..|evs| - 1]) + if Yields(before, evs[|evs| - 1]) then 1 else 0
  }

  /** Every buffer handed over can hold that many results. */
  predicate Roomy(evs: seq<Event>, n: nat) {
    forall i :: 0 <= i < |evs| && evs[i].Resume? ==> evs[i].capacity >= n
  }

  /** The buffer's size matters only when it is too small for the invoked function. */
  lemma {:induction false} AnyCapacity(env: Env, lim: Limits, mach: Machine, a: nat, b: nat)
    requires a >= |EntryResults(env.m, mach)| && b >= |EntryResults(env.m, mach)|
    ensures Step(env, lim, a, mach) == Step(env, lim, b, mach)
  {
    if mach.acts != [] {
      var act := mach.acts[|mach.acts| - 1];
      var body, ty := env.m.Body(act.func), env.m.TypeOf(act.func);
      if body.Some? && ty.Some? {
        StepAdvances(env, lim, a, mach, body.value, ty.value);
        StepAdvances(env, lim, b, mach, body.value, ty.value);
        FinishLength(env, body.value, ty.value, Room(lim, mach), act, mach.store);
      }
    }
  }

  lemma {:induction false} FinishLength(env: Env, fn: Func, ft: FuncType, room: nat, act: Act, s: Store)
    ensures var r := StepLocal(env, fn, ft, room, act, s); r.Finish? ==> |r.results| == |ft.results|
  {
    if act.pc < |fn.code| {
      if fn.code[act.pc].Do? {
        NoFinish(act.(pc := act.pc + 1), ExecPlain(env, fn.code[act.pc].op, act.locals, act.operands, s));
      } else {
        FinishControl(env, fn, ft, room, fn.code[act.pc], act.(pc := act.pc + 1), s);
      }
    }
  }

  lemma {:induction false} NoFinish(a: Act, r: PlainOut)
    ensures !Operation(a, r).Finish?
  {
  }

  lemma {:induction false} FinishControl(env: Env, fn: Func, ft: FuncType, room: nat, i: Instr, a: Act, s: Store)
    requires !i.Do?
    ensures var r := Execute(env, fn, ft, room, i, a, s); r.Finish? ==> |r.results| == |ft.results|
  {
  }

  ghost predicate SameStates(step: Machine -> Outcome, mach: Machine, states: seq<Outcome>) {
    forall i :: 0 <= i < |states| ==> states[i] == Iterate(step, mach, i)
  }

  lemma {:induction false} StatesMore(step: Machine -> Outcome, mach: Machine, states: seq<Outcome>, next: Outcome)
    requires SameStates(step, mach, states) && next == Iterate(step, mach, |states|)
    ensures SameStates(step, mach, states + [next])
  {
  }

  /** The states so far are those of the uninterrupted run, the engine is in the last one,
      and its buffer is large enough. */
  ghost predicate InStep(env: Env, lim: Limits, mach: Machine, cap: nat, states: seq<Outcome>, e: Engine) {
    && states != [] && SameStates(Stepper(env, lim, cap), mach, states)
    && e.out == states[|states| - 1] && e.capacity >= |EntryResults(env.m, mach)|
    && (e.out.Running? ==> EntryResults(env.m, e.out.next) == EntryResults(env.m, mach))
  }

  /** Steps of engine and uninterrupted run agree. */
  lemma {:induction false} SameStep(env: Env, lim: Limits, mach: Machine, cap: nat, n: nat, capacity: nat, last: Machine)
    requires Run(env, lim, cap, mach, n) == Running(last) && EntryResults(env.m, last) == EntryResults(env.m, mach)
    requires cap >= |EntryResults(env.m, mach)| && capacity >= |EntryResults(env.m, mach)|
    ensures var next := Step(env, lim, capacity, last);
      && next == Run(env, lim, cap, mach, n + 1)
      && (next.Running? ==> EntryResults(env.m, next.next) == EntryResults(env.m, mach))
  {
    AnyCapacity(env, lim, last, capacity, cap);
    StepKeepsEntry(env, lim, capacity, last);
    RunStep(env, lim, cap, mach, n);
  }

  lemma {:induction false} OneMore(env: Env, lim: Limits, mach: Machine, cap: nat, states: seq<Outcome>, e: Engine, next: Outcome)
    requires InStep(env, lim, mach, cap, states, e) && cap >= |EntryResults(env.m, mach)| && e.out.Running?
    requires next == Step(env, lim, e.capacity, e.out.next)
    ensures InStep(env, lim, mach, cap, states + [next], e.(out := next))
  {
    SameStep(env, lim, mach, cap, |states| - 1, e.capacity, e.out.next);
    StatesMore(Stepper(env, lim, cap), mach, states, next);
  }

  /** For every schedule of requests, yields and resumes with sufficient buffers, the
      machine goes through exactly the states of the uninterrupted run, in order. */
  lemma {:induction false} Transparent(env: Env, lim: Limits, mach: Machine, cap: nat, evs: seq<Event>)
    requires cap >= |EntryResults(env.m, mach)| && Roomy(evs, |EntryResults(env.m, mach)|)
    ensures var e := Engine(Running(mach), false, false, cap);
      InStep(env, lim, mach, cap, States(env, lim, e, evs), After(env, lim, e, evs))
  {
    var e := Engine(Running(mach), false, false, cap);
    if evs != [] {
      var front, ev := evs[..|evs| - 1], evs[|evs| - 1];
      assert forall i :: 0 <= i < |front| ==> front[i] == evs[i];
      Transparent(env, lim, mach, cap, front);
      var before := After(env, lim, e, front);
      if Executes(before, ev) {
        OneMore(env, lim, mach, cap, States(env, lim, e, front), before, Next(env, lim, before, ev).out);
      }
    }
  }

  /** A request costs at most one round of the loop: the engine never yields more often than
      it was asked to. */
  lemma {:induction false} YieldsAreAskedFor(env: Env, lim: Limits, mach: Machine, cap: nat, evs: seq<Event>)
    ensures var e := Engine(Running(mach), false, false, cap);
      Yielded(env, lim, e, evs) + (if After(env, lim, e, evs).pending then 1 else 0) <= Requests(evs)
  {
    if evs != [] { YieldsAreAskedFor(env, lim, mach, cap, evs[..|evs| - 1]); }
  }

  /** If the interrupted run ends, it ends as the uninterrupted one does. */
  lemma {:induction false} SameEnd(env: Env, lim: Limits, mach: Machine, cap: nat, evs: seq<Event>, n: nat)
    requires cap >= |EntryResults(env.m, mach)| && Roomy(evs, |EntryResults(env.m, mach)|)
    requires !After(env, lim, Engine(Running(mach), false, false, cap), evs).out.Running?
    requires !Run(env, lim, cap, mach, n).Running?
    ensures After(env, lim, Engine(Running(mach), false, false, cap), evs).out == Run(env, lim, cap, mach, n)
  {
    Transparent(env, lim, mach, cap, evs);
    var k := |States(env, lim, Engine(Running(mach), false, false, cap), evs)| - 1;
    if k <= n { RunStopped(env, lim, cap, mach, k, n); } else { RunStopped(env, lim, cap, mach, n, k); }
  }
}
