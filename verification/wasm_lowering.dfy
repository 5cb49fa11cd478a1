/** The flat code runs like the structured code it was lowered from. */
module WasmLowering {
  import opened Options
  import opened WasmSyntax
  import opened WasmExec
  import opened WasmMachine
  import S = WasmStructured

  /** A module with the structured form of its bodies, and the machine's limits.
      `leads(mach, k, out)`: at least k iterations lead from mach to `out`, unless a
      stack runs out first; `long(mach, k)`: the machine is still running after at
      least k iterations, unless a stack runs out. The simulation uses only that these
      two relations are closed under running (`Closed`). */
  datatype Prog = Prog(env: Env, lim: Limits, cap: nat, asts: seq<S.Code>,
                       leads: (Machine, nat, Outcome) -> bool,
                       long: (Machine, nat) -> bool)

  /** Every body is the flat form of its structured code. */
  predicate Lowered(m: Module, asts: seq<S.Code>) {
    && |asts| == |m.funcs|
    && forall k :: 0 <= k < |asts| ==> S.FlatBody(m, m.funcs[k], asts[k])
  }

  /** Only the machine, not the program, can be out of these. */
  predicate Exhausted(r: Outcome) {
    r.Failed? && r.why in {StackOverflow, LabelOverflow, LoweringFailed}
  }

  function StepP(p: Prog, mach: Machine): Outcome { Step(p.env, p.lim, p.cap, mach) }

  // ---- what the simulation needs of runs ----

  predicate ByStep(p: Prog, m: Machine, out: Outcome) {
    StepP(p, m) == out || Exhausted(StepP(p, m)) ==> p.leads(m, 1, out)
  }

  predicate ByExhaustion(p: Prog, m: Machine, k: nat, out: Outcome) {
    Exhausted(StepP(p, m)) ==> p.leads(m, k, out) && p.long(m, k)
  }

  predicate ByTrans(p: Prog, m0: Machine, m1: Machine, k: nat, l: nat, out: Outcome) {
    p.leads(m0, k, Running(m1)) && p.leads(m1, l, out) ==> p.leads(m0, k + l, out)
  }

  predicate ByLong(p: Prog, m0: Machine, m1: Machine, k: nat, l: nat) {
    p.leads(m0, k, Running(m1)) && p.long(m1, l) ==> p.long(m0, k + l)
  }

  predicate ByWeaken(p: Prog, m: Machine, k: nat, l: nat, out: Outcome) {
    l <= k ==> (p.leads(m, k, out) ==> p.leads(m, l, out)) && (p.long(m, k) ==> p.long(m, l))
  }

  predicate ByNothing(p: Prog, m: Machine) { p.leads(m, 0, Running(m)) && p.long(m, 0) }

  ghost predicate Closed(p: Prog) {
    && (forall m, out {:trigger ByStep(p, m, out)} :: ByStep(p, m, out))
    && (forall m, k, out {:trigger ByExhaustion(p, m, k, out)} :: ByExhaustion(p, m, k, out))
    && (forall m0, m1, k, l, out {:trigger ByTrans(p, m0, m1, k, l, out)} :: ByTrans(p, m0, m1, k, l, out))
    && (forall m0, m1, k, l {:trigger ByLong(p, m0, m1, k, l)} :: ByLong(p, m0, m1, k, l))
    && (forall m, k, l, out {:trigger ByWeaken(p, m, k, l, out)} :: ByWeaken(p, m, k, l, out))
    && (forall m {:trigger ByNothing(p, m)} :: ByNothing(p, m))
  }

  // ---- configurations ----

  function Mach(outer: seq<Act>, act: Act, store: Store): Machine { Machine(outer + [act], store) }

  /** Returning from the innermost activation above `outer`. */
  function ReturnTo(p: Prog, outer: seq<Act>, results: seq<nat>, store: Store): Outcome {
    if outer != [] then Running(Machine(PushResults(outer, results), store))
    else if p.cap < |results| then Failed(ResultBufferSmall)
    else Completed(results, store)
  }

  function BranchFrom(outer: seq<Act>, act: Act, st: S.State, depth: nat, len: nat): Outcome {
    match BranchTo(act.(locals := st.locals, operands := st.operands), depth, len)
    case None => StuckState
    case Some(a) => Running(Mach(outer, a, st.store))
  }

  /** The configuration the flat machine must reach for a structured result, when the
      evaluated code ends at pc `end` of a body of length `len`. */
  function After(p: Prog, outer: seq<Act>, act: Act, end: nat, len: nat, r: S.Result): Outcome
    requires !r.OutOfFuel?
  {
    match r
    case Normal(st) => Running(Mach(outer, act.(pc := end, locals := st.locals, operands := st.operands), st.store))
    case Branching(d, st) => BranchFrom(outer, act, st, d, len)
    case Returning(results, store) => ReturnTo(p, outer, results, store)
    case Trapping(trap) => Trap(trap)
    case HostTrapping => HostTrap
    case Exiting => Exited
    case ImportFailing => Failed(ImportFailed)
    case Wrong => StuckState
  }

  /** A branch takes at least the branch instruction's own iteration. */
  function AtLeast(r: S.Result): nat { if r.Branching? then 1 else 0 }

  /** Started from activation `act`, the flat machine simulates an evaluation with
      result r, seen from activation `ref` (the same one with fewer labels). */
  predicate Sim(p: Prog, outer: seq<Act>, act: Act, store: Store, ref: Act, end: nat, len: nat,
                      r: S.Result, fuel: nat)
  {
    if r.OutOfFuel? then p.long(Mach(outer, act, store), fuel)
    else p.leads(Mach(outer, act, store), AtLeast(r), After(p, outer, ref, end, len, r))
  }

  /** fn and ft are the activation's function. */
  predicate Runs(p: Prog, fn: Func, ft: FuncType, act: Act) {
    p.env.m.Body(act.func) == Some(fn) && p.env.m.TypeOf(act.func) == Some(ft)
  }

  function StateOf(act: Act, store: Store): S.State { S.State(act.locals, act.operands, store) }

  function LocalOutcome(p: Prog, outer: seq<Act>, store: Store, l: Local): Outcome {
    match l
    case Next(a, s) => Running(Mach(outer, a, s))
    case Invoke(f, args, a, s) => CallFunction(p.env, p.lim, outer + [a], s, f, args)
    case Finish(results) => ReturnTo(p, outer, results, store)
    case Trapped(trap) => Trap(trap)
    case NoLabels => Failed(LabelOverflow)
    case Stuck => StuckState
  }

  /** One iteration in this notation. */
  lemma {:induction false} StepMach(p: Prog, outer: seq<Act>, act: Act, store: Store, fn: Func, ft: FuncType) returns (room: nat)
    requires Runs(p, fn, ft, act)
    ensures StepP(p, Mach(outer, act, store)) ==
      LocalOutcome(p, outer, store, StepLocal(p.env, fn, ft, room, act, store))
  {
    var mach := Mach(outer, act, store);
    var n := |mach.acts| - 1;
    room := Room(p.lim, mach);
    assert mach.acts[n] == act && mach.acts[..n] == outer;
    forall a: Act ensures mach.acts[n := a] == outer + [a] { }
  }
}
