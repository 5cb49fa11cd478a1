/** The whole machine: a stack of activations over one store. */
module WasmMachine {
  import opened Options
  import opened Words
  import opened WasmSyntax
  import opened WasmExec

  /** Sizes of the three preallocated stacks. */
  datatype Limits = Limits(maxValues: nat, maxFrames: nat, maxLabels: nat)

  datatype Machine = Machine(acts: seq<Act>, store: Store)

  datatype Failure = StackOverflow | LabelOverflow | LoweringFailed | ImportFailed | ResultBufferSmall

  datatype Outcome =
    | Running(next: Machine)
    | Completed(results: seq<nat>, store: Store)
    | Trap(trap: TrapKind)
    | HostTrap
    | Exited
    | Failed(why: Failure)
    | StuckState

  /** How many value slots a stack of activations occupies. */
  function Values(acts: seq<Act>): nat {
    if acts == [] then 0 else
    var top := acts[|acts| - 1];
    Values(acts[..|acts| - 1]) + |top.locals| + |top.operands|
  }

  function Labels(acts: seq<Act>): nat {
    if acts == [] then 0 else Labels(acts[..|acts| - 1]) + |acts[|acts| - 1].labels|
  }

  /** enter_frame: lower the body on its first call, reserve its locals and its
      whole operand stack, then push the frame. */
  function EnterFrame(env: Env, lim: Limits, acts: seq<Act>, store: Store, f: nat, args: seq<nat>): Outcome
  {
    match env.m.Body(f)
    case None => StuckState
    case Some(fn) =>
      if !env.lowers(f) then Failed(LoweringFailed) else
      var valuesBase := Values(acts) + |args| + |fn.locals|;
      if valuesBase > lim.maxValues || fn.maxStack > lim.maxValues - valuesBase
         || |acts| >= lim.maxFrames then Failed(StackOverflow)
      else Running(Machine(acts + [Act(f, 0, args + Zeros(|fn.locals|), [], [])], store))
  }

  function PushResults(acts: seq<Act>, results: seq<nat>): seq<Act>
    requires acts != []
  {
    var n := |acts| - 1;
    acts[n := acts[n].(operands := acts[n].operands + results)]
  }

  /** Calls an import or enters a defined function from the innermost activation. */
  function CallFunction(env: Env, lim: Limits, acts: seq<Act>, store: Store, f: nat, args: seq<nat>): Outcome
    requires acts != []
  {
    if f < |env.m.imports| then
      match env.host(f, args, store)
      case HostCompleted(results, store1) => Running(Machine(PushResults(acts, results), store1))
      case HostExited => Exited
      case HostTrapped => HostTrap
      case HostError => Failed(ImportFailed)
    else EnterFrame(env, lim, acts, store, f, args)
  }

  function Return(mach: Machine, results: seq<nat>, capacity: nat): Outcome
    requires mach.acts != []
  {
    var outer := mach.acts[..|mach.acts| - 1];
    if outer != [] then Running(mach.(acts := PushResults(outer, results)))
    else if capacity < |results| then Failed(ResultBufferSmall)
    else Completed(results, mach.store)
  }

  /** How many labels the innermost activation may hold. */
  function Room(lim: Limits, mach: Machine): nat
    requires mach.acts != []
  {
    var below := Labels(mach.acts[..|mach.acts| - 1]);
    if below <= lim.maxLabels then lim.maxLabels - below else 0
  }

  /** One iteration of the interpreter loop. `capacity` is the caller's result buffer. */
  function Step(env: Env, lim: Limits, capacity: nat, mach: Machine): Outcome {
    if mach.acts == [] then StuckState else
    var n := |mach.acts| - 1;
    var act := mach.acts[n];
    match (env.m.Body(act.func), env.m.TypeOf(act.func))
    case (Some(fn), Some(ft)) =>
      (match StepLocal(env, fn, ft, Room(lim, mach), act, mach.store)
       case Next(a, s) => Running(mach.(acts := mach.acts[n := a], store := s))
       case Invoke(f, args, a, s) =>
         CallFunction(env, lim, mach.acts[n := a], s, f, args)
       case Finish(results) => Return(mach, results, capacity)
       case Trapped(trap) => Trap(trap)
       case NoLabels => Failed(LabelOverflow)
       case Stuck => StuckState)
    case _ => StuckState
  }

  /** n iterations of a step function, stopping at the first outcome that is not `Running`. */
  function Iterate(step: Machine -> Outcome, mach: Machine, n: nat): Outcome {
    if n == 0 then Running(mach) else
    match Iterate(step, mach, n - 1)
    case Running(next) => step(next)
    case other => other
  }

  lemma {:induction false} RunMore(step: Machine -> Outcome, mach: Machine, n: nat)
    ensures Iterate(step, mach, 0) == Running(mach)
    ensures Iterate(step, mach, n + 1) ==
      match Iterate(step, mach, n)
      case Running(next) => step(next)
      case other => other
  {
  }

  /** A run that has stopped stays as it is. */
  lemma {:induction false} RunStays(step: Machine -> Outcome, mach: Machine, i: nat, j: nat)
    requires !Iterate(step, mach, i).Running? && i <= j
    ensures Iterate(step, mach, j) == Iterate(step, mach, i)
    decreases j
  {
    if i < j { RunStays(step, mach, i, j - 1); }
  }

  function Stepper(env: Env, lim: Limits, capacity: nat): Machine -> Outcome {
    (m: Machine) => Step(env, lim, capacity, m)
  }

  /** n iterations of the interpreter loop. */
  function Run(env: Env, lim: Limits, capacity: nat, mach: Machine, n: nat): Outcome {
    Iterate(Stepper(env, lim, capacity), mach, n)
  }

  lemma {:induction false} RunStep(env: Env, lim: Limits, capacity: nat, mach: Machine, n: nat)
    ensures Run(env, lim, capacity, mach, 0) == Running(mach)
    ensures Run(env, lim, capacity, mach, n + 1) ==
      match Run(env, lim, capacity, mach, n)
      case Running(next) => Step(env, lim, capacity, next)
      case other => other
  {
    RunMore(Stepper(env, lim, capacity), mach, n);
  }

  lemma {:induction false} RunStopped(env: Env, lim: Limits, capacity: nat, mach: Machine, i: nat, n: nat)
    requires i <= n && (i == n || !Run(env, lim, capacity, mach, i).Running?)
    ensures Run(env, lim, capacity, mach, n) == Run(env, lim, capacity, mach, i)
  {
    if i < n { RunStays(Stepper(env, lim, capacity), mach, i, n); }
  }
}
