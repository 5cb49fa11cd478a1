/** Running the lowered code and evaluating the structured code give the same answer. */
module WasmEquivalence {
  import opened Options
  import opened Words
  import opened WasmSyntax
  import opened WasmExec
  import opened WasmMachine
  import opened WasmLowering
  import opened WasmSimulation
  import S = WasmStructured

  /** The machine as invoke leaves it: one fresh activation. */
  function Start(fn: Func, f: nat, args: seq<nat>, store: Store): Machine {
    Machine([Act(f, 0, args + Zeros(|fn.locals|), [], [])], store)
  }

  predicate Ends(step: Machine -> Outcome, mach: Machine, n: nat, out: Outcome) {
    Iterate(step, mach, n) == out || Exhausted(Iterate(step, mach, n))
  }

  predicate Alive(step: Machine -> Outcome, mach: Machine, n: nat) {
    Iterate(step, mach, n).Running? || Exhausted(Iterate(step, mach, n))
  }

  ghost predicate Leads(step: Machine -> Outcome, mach: Machine, k: nat, out: Outcome) {
    exists n: nat :: n >= k && Ends(step, mach, n, out)
  }

  ghost predicate Long(step: Machine -> Outcome, mach: Machine, k: nat) {
    exists n: nat :: n >= k && Alive(step, mach, n)
  }

  // ---- runs compose ----

  lemma {:induction false} RunAdd(step: Machine -> Outcome, m0: Machine, m1: Machine, i: nat, j: nat)
    requires Iterate(step, m0, i) == Running(m1)
    ensures Iterate(step, m0, i + j) == Iterate(step, m1, j)
  {
    if j > 0 {
      RunAdd(step, m0, m1, i, j - 1);
      assert i + j - 1 == i + (j - 1);
    }
  }

  lemma {:induction false} RunOne(step: Machine -> Outcome, mach: Machine)
    ensures Iterate(step, mach, 1) == step(mach)
  {
    assert Iterate(step, mach, 0) == Running(mach);
  }

  lemma {:induction false} LeadsTrans(step: Machine -> Outcome, m0: Machine, m1: Machine, k: nat, l: nat, out: Outcome)
    requires Leads(step, m0, k, Running(m1)) && Leads(step, m1, l, out)
    ensures Leads(step, m0, k + l, out)
  {
    var i: nat :| i >= k && Ends(step, m0, i, Running(m1));
    var j: nat :| j >= l && Ends(step, m1, j, out);
    if Exhausted(Iterate(step, m0, i)) {
      RunStays(step, m0, i, i + l);
      assert Ends(step, m0, i + l, out);
    } else {
      RunAdd(step, m0, m1, i, j);
      assert Ends(step, m0, i + j, out);
    }
  }

  lemma {:induction false} LeadsLong(step: Machine -> Outcome, m0: Machine, m1: Machine, k: nat, l: nat)
    requires Leads(step, m0, k, Running(m1)) && Long(step, m1, l)
    ensures Long(step, m0, k + l)
  {
    var i: nat :| i >= k && Ends(step, m0, i, Running(m1));
    var j: nat :| j >= l && Alive(step, m1, j);
    if Exhausted(Iterate(step, m0, i)) {
      RunStays(step, m0, i, i + l);
      assert Alive(step, m0, i + l);
    } else {
      RunAdd(step, m0, m1, i, j);
      assert Alive(step, m0, i + j);
    }
  }

  lemma {:induction false} StepLeads(step: Machine -> Outcome, mach: Machine, out: Outcome)
    requires step(mach) == out || Exhausted(step(mach))
    ensures Leads(step, mach, 1, out)
  {
    RunOne(step, mach);
    assert Ends(step, mach, 1, out);
  }

  lemma {:induction false} StepExhausted(step: Machine -> Outcome, mach: Machine, k: nat, out: Outcome)
    requires Exhausted(step(mach))
    ensures Long(step, mach, k) && Leads(step, mach, k, out)
  {
    RunOne(step, mach);
    RunStays(step, mach, 1, 1 + k);
    assert Alive(step, mach, 1 + k) && Ends(step, mach, 1 + k, out);
  }

  lemma {:induction false} NoSteps(step: Machine -> Outcome, mach: Machine)
    ensures Leads(step, mach, 0, Running(mach)) && Long(step, mach, 0)
  {
    assert Ends(step, mach, 0, Running(mach)) && Alive(step, mach, 0);
  }

  lemma {:induction false} Weaken(step: Machine -> Outcome, mach: Machine, k: nat, l: nat, out: Outcome)
    requires l <= k
    ensures Leads(step, mach, k, out) ==> Leads(step, mach, l, out)
    ensures Long(step, mach, k) ==> Long(step, mach, l)
  {
    if Leads(step, mach, k, out) {
      var n: nat :| n >= k && Ends(step, mach, n, out);
      assert n >= l && Ends(step, mach, n, out);
    }
    if Long(step, mach, k) {
      var n: nat :| n >= k && Alive(step, mach, n);
      assert n >= l && Alive(step, mach, n);
    }
  }

  ghost function ProgOf(env: Env, lim: Limits, cap: nat, asts: seq<S.Code>): Prog {
    Prog(env, lim, cap, asts,
         (m: Machine, k: nat, o: Outcome) => Leads(Stepper(env, lim, cap), m, k, o),
         (m: Machine, k: nat) => Long(Stepper(env, lim, cap), m, k))
  }

  lemma {:induction false} ProgIsClosed(env: Env, lim: Limits, cap: nat, asts: seq<S.Code>)
    ensures Closed(ProgOf(env, lim, cap, asts))
  {
    var p := ProgOf(env, lim, cap, asts);
    forall m, out ensures ByStep(p, m, out) {
      if StepP(p, m) == out || Exhausted(StepP(p, m)) { StepLeads(Stepper(env, lim, cap), m, out); }
    }
    forall m, k, out ensures ByExhaustion(p, m, k, out) {
      if Exhausted(StepP(p, m)) { StepExhausted(Stepper(env, lim, cap), m, k, out); }
    }
    forall m0, m1, k, l, out ensures ByTrans(p, m0, m1, k, l, out) {
      if p.leads(m0, k, Running(m1)) && p.leads(m1, l, out) { LeadsTrans(Stepper(env, lim, cap), m0, m1, k, l, out); }
    }
    forall m0, m1, k, l ensures ByLong(p, m0, m1, k, l) {
      if p.leads(m0, k, Running(m1)) && p.long(m1, l) { LeadsLong(Stepper(env, lim, cap), m0, m1, k, l); }
    }
    forall m, k, l, out ensures ByWeaken(p, m, k, l, out) {
      if l <= k { Weaken(Stepper(env, lim, cap), m, k, l, out); }
    }
    forall m ensures ByNothing(p, m) { NoSteps(Stepper(env, lim, cap), m); }
  }

  // ---- the two directions ----

  /** What an invocation reports when the structured call ends with r. */
  function Report(cap: nat, r: S.FuncResult): Outcome
    requires ProperStop(r) && r != S.Stopped(S.OutOfFuel)
  {
    match r
    case Returned(results, store) =>
      if cap < |results| then Failed(ResultBufferSmall) else Completed(results, store)
    case Stopped(why) =>
      match why
      case Trapping(trap) => Trap(trap)
      case HostTrapping => HostTrap
      case Exiting => Exited
      case ImportFailing => Failed(ImportFailed)
      case Wrong => StuckState
  }

  /** Whatever the structured call does, the flat machine does: it ends with the same
      results, store, trap or exit, and it runs on as long as the structured call does. */
  lemma {:induction false} MeaningIsRun(env: Env, lim: Limits, cap: nat, asts: seq<S.Code>, f: nat, fn: Func, ft: FuncType,
                     args: seq<nat>, store: Store, fuel: nat)
    requires Lowered(env.m, asts) && env.m.Body(f) == Some(fn) && env.m.TypeOf(f) == Some(ft)
    ensures var r := S.EvalFunc(env, asts, f, args, store, fuel);
      && ProperStop(r)
      && if r == S.Stopped(S.OutOfFuel) then Long(Stepper(env, lim, cap), Start(fn, f, args, store), fuel)
         else Leads(Stepper(env, lim, cap), Start(fn, f, args, store), 0, Report(cap, r))
  {
    var p := ProgOf(env, lim, cap, asts);
    ProgIsClosed(env, lim, cap, asts);
    SimFunc(p, fn, ft, f, args, [], store, fuel);
    var b := Act(f, 0, args + Zeros(|fn.locals|), [], []);
    assert Mach([], b, store) == Start(fn, f, args, store);
  }

  /** Whatever the flat machine ends with, other than a full stack, is the answer of
      the structured call. */
  lemma {:induction false} RunIsMeaning(env: Env, lim: Limits, cap: nat, asts: seq<S.Code>, f: nat, fn: Func, ft: FuncType,
                     args: seq<nat>, store: Store, n: nat)
    requires Lowered(env.m, asts) && env.m.Body(f) == Some(fn) && env.m.TypeOf(f) == Some(ft)
    requires !Alive(Stepper(env, lim, cap), Start(fn, f, args, store), n)
    ensures var r := S.EvalFunc(env, asts, f, args, store, n + 1);
      && ProperStop(r) && r != S.Stopped(S.OutOfFuel)
      && Run(env, lim, cap, Start(fn, f, args, store), n) == Report(cap, r)
  {
    var m0 := Start(fn, f, args, store);
    MeaningIsRun(env, lim, cap, asts, f, fn, ft, args, store, n + 1);
    var r := S.EvalFunc(env, asts, f, args, store, n + 1);
    NotLong(Stepper(env, lim, cap), m0, n);
    OneAnswer(Stepper(env, lim, cap), m0, n, Report(cap, r));
  }

  /** A run that stops within n steps is not a long one. */
  lemma {:induction false} NotLong(step: Machine -> Outcome, m0: Machine, n: nat)
    requires !Alive(step, m0, n)
    ensures !Long(step, m0, n + 1)
  {
    forall k: nat | k >= n ensures !Alive(step, m0, k) { RunStays(step, m0, n, k); }
  }

  lemma {:induction false} OneAnswer(step: Machine -> Outcome, m0: Machine, n: nat, out: Outcome)
    requires !Alive(step, m0, n) && Leads(step, m0, 0, out) && !out.Running?
    ensures Iterate(step, m0, n) == out
  {
    var k: nat :| k >= 0 && Ends(step, m0, k, out);
    if n <= k { RunStays(step, m0, n, k); } else { RunStays(step, m0, k, n); }
  }
}
