/** Type soundness over whole runs. */
module WasmTypeSoundness {
  import opened Options
  import opened Words
  import opened WasmSyntax
  import opened WasmStructure
  import opened WasmValidation
  import opened WasmValidationFacts
  import opened WasmStatic
  import opened WasmExec
  import opened WasmSoundness
  import opened WasmPlainSoundness
  import opened WasmStepSoundness
  import opened WasmControlSoundness
  import opened WasmMachine
  import opened WasmLabels

  /** Every body of the module is accepted and correctly resolved; `tr` holds the
      checker's states, one sequence per body. */
  predicate ModuleOk(m: Module, tr: seq<seq<VState>>) {
    && |tr| == |m.funcs|
    && (forall i :: 0 <= i < |m.imports| ==> m.imports[i] < |m.types|)
    && (forall k :: 0 <= k < |m.funcs| ==>
          m.funcs[k].typeIdx < |m.types| && CheckedAt(m, tr, k).Ok())
  }

  function CheckedAt(m: Module, tr: seq<seq<VState>>, k: nat): Checked
    requires k < |m.funcs| && k < |tr| && m.funcs[k].typeIdx < |m.types|
  {
    Checked(m, m.types[m.funcs[k].typeIdx], m.funcs[k], tr[k])
  }

  predicate Defined(m: Module, f: nat) { |m.imports| <= f < |m.imports| + |m.funcs| }

  function CheckedFunc(m: Module, tr: seq<seq<VState>>, f: nat): (c: Checked)
    requires ModuleOk(m, tr) && Defined(m, f)
    ensures c.Ok() && c.m == m && m.Body(f) == Some(c.fn) && m.TypeOf(f) == Some(c.ft)
  {
    CheckedAt(m, tr, f - |m.imports|)
  }

  /** Imports return values of their declared types and leave the store well typed. */
  ghost predicate HostOk(env: Env) {
    forall f: nat, args: seq<nat>, s: Store ::
      f < |env.m.imports| && env.m.TypeOf(f).Some? && StoreOk(env.m, s)
      && env.host(f, args, s).HostCompleted? ==>
        && AllTyped(env.host(f, args, s).results, env.m.TypeOf(f).value.results)
        && StoreOk(env.m, env.host(f, args, s).store)
  }

  ghost predicate EnvOk(env: Env, tr: seq<seq<VState>>) {
    ModuleOk(env.m, tr) && AllocOk(env) && HostOk(env)
  }

  /** The activation's slots, filled to its declared maximum, end below the limit. */
  predicate Reserved(m: Module, lim: Limits, acts: seq<Act>, k: nat)
    requires k < |acts|
  {
    && Defined(m, acts[k].func)
    && Values(acts[..k]) + |acts[k].locals| + m.funcs[acts[k].func - |m.imports|].maxStack <= lim.maxValues
  }

  /** Frame k waits for the results of frame k + 1. */
  ghost predicate Waiting(m: Module, tr: seq<seq<VState>>, acts: seq<Act>, k: nat)
    requires ModuleOk(m, tr) && k + 1 < |acts|
  {
    && Defined(m, acts[k].func) && Defined(m, acts[k + 1].func)
    && Resumable(CheckedFunc(m, tr, acts[k].func), acts[k], CheckedFunc(m, tr, acts[k + 1].func).ft.results)
  }

  predicate AllReserved(m: Module, lim: Limits, acts: seq<Act>) {
    forall k {:trigger Reserved(m, lim, acts, k)} :: 0 <= k < |acts| ==> Reserved(m, lim, acts, k)
  }

  ghost predicate AllWaiting(m: Module, tr: seq<seq<VState>>, acts: seq<Act>)
    requires ModuleOk(m, tr)
  {
    forall k {:trigger Waiting(m, tr, acts, k)} :: 0 <= k && k + 1 < |acts| ==> Waiting(m, tr, acts, k)
  }

  ghost predicate FramesOk(m: Module, tr: seq<seq<VState>>, lim: Limits, acts: seq<Act>)
    requires ModuleOk(m, tr)
  {
    |acts| <= lim.maxFrames && AllReserved(m, lim, acts) && AllWaiting(m, tr, acts)
  }

  ghost predicate Sound(env: Env, tr: seq<seq<VState>>, lim: Limits, mach: Machine)
    requires ModuleOk(env.m, tr)
  {
    && mach.acts != [] && FramesOk(env.m, tr, lim, mach.acts)
    && StoreOk(env.m, mach.store)
    && var top := mach.acts[|mach.acts| - 1];
       Defined(env.m, top.func) && ActOk(CheckedFunc(env.m, tr, top.func), top)
  }

  /** Result types of the function that was invoked. */
  function EntryResults(m: Module, mach: Machine): seq<ValType> {
    if mach.acts == [] || m.TypeOf(mach.acts[0].func).None? then []
    else m.TypeOf(mach.acts[0].func).value.results
  }

  /** What one iteration may lead to from a sound state. */
  ghost predicate OutcomeOk(env: Env, tr: seq<seq<VState>>, lim: Limits, results: seq<ValType>, r: Outcome)
    requires ModuleOk(env.m, tr)
  {
    match r
    case Running(next) => Sound(env, tr, lim, next)
    case Completed(rs, s) => AllTyped(rs, results) && StoreOk(env.m, s)
    case StuckState => false
    case _ => true
  }

  // ---- frames ----

  /** Replacing the innermost activation by another one of the same function and
      number of locals keeps the frames below. */
  lemma {:induction false} ReplaceTop(m: Module, tr: seq<seq<VState>>, lim: Limits, acts: seq<Act>, a: Act)
    requires ModuleOk(m, tr) && acts != [] && FramesOk(m, tr, lim, acts)
    requires var top := acts[|acts| - 1]; a.func == top.func && |a.locals| == |top.locals|
    ensures FramesOk(m, tr, lim, acts[|acts| - 1 := a])
  {
    var n := |acts| - 1;
    var acts1 := acts[n := a];
    forall k | 0 <= k < |acts1| ensures Reserved(m, lim, acts1, k) {
      assert acts1[..k] == acts[..k];
      assert Reserved(m, lim, acts, k);
    }
    forall k | 0 <= k && k + 1 < |acts1| ensures Waiting(m, tr, acts1, k) {
      assert Waiting(m, tr, acts, k);
    }
  }

  lemma {:induction false} DropTop(m: Module, tr: seq<seq<VState>>, lim: Limits, acts: seq<Act>)
    requires ModuleOk(m, tr) && |acts| > 1 && FramesOk(m, tr, lim, acts)
    ensures FramesOk(m, tr, lim, acts[..|acts| - 1])
    ensures Waiting(m, tr, acts, |acts| - 2)
    ensures Defined(m, acts[0].func)
  {
    assert Reserved(m, lim, acts, 0);
    var outer := acts[..|acts| - 1];
    assert Waiting(m, tr, acts, |acts| - 2);
    forall k | 0 <= k < |outer| ensures Reserved(m, lim, outer, k) {
      assert outer[..k] == acts[..k];
      assert Reserved(m, lim, acts, k);
    }
    forall k | 0 <= k && k + 1 < |outer| ensures Waiting(m, tr, outer, k) {
      assert Waiting(m, tr, acts, k);
    }
  }

  lemma {:induction false} ReservePush(m: Module, lim: Limits, acts: seq<Act>, a: Act)
    requires AllReserved(m, lim, acts) && Defined(m, a.func)
    requires Values(acts) + |a.locals| + m.funcs[a.func - |m.imports|].maxStack <= lim.maxValues
    ensures AllReserved(m, lim, acts + [a])
  {
    var acts1 := acts + [a];
    forall k | 0 <= k < |acts1| ensures Reserved(m, lim, acts1, k) {
      if k < |acts| {
        assert acts1[..k] == acts[..k];
        assert Reserved(m, lim, acts, k);
      } else {
        assert acts1[..k] == acts;
      }
    }
  }

  lemma {:induction false} PushTop(m: Module, tr: seq<seq<VState>>, lim: Limits, acts: seq<Act>, a: Act)
    requires ModuleOk(m, tr) && FramesOk(m, tr, lim, acts) && |acts| < lim.maxFrames
    requires Defined(m, a.func)
    requires Values(acts) + |a.locals| + CheckedFunc(m, tr, a.func).fn.maxStack <= lim.maxValues
    requires acts != [] ==> Waiting(m, tr, acts + [a], |acts| - 1)
    ensures FramesOk(m, tr, lim, acts + [a])
  {
    var acts1 := acts + [a];
    ReservePush(m, lim, acts, a);
    forall k | 0 <= k && k + 1 < |acts1| ensures Waiting(m, tr, acts1, k) {
      if k + 1 < |acts| { assert Waiting(m, tr, acts, k); }
    }
  }

  // ---- calls and returns ----

  lemma {:induction false} EntryOk(c: Checked, f: nat, args: seq<nat>)
    requires c.Ok() && AllTyped(args, c.ft.params)
    ensures ActOk(c, Act(f, 0, args + Zeros(|c.fn.locals|), [], []))
  {
    var a := Act(f, 0, args + Zeros(|c.fn.locals|), [], []);
    assert AllTyped(a.locals, c.Locals());
    assert Reachable(c.ss[0]) && LabelsOk(c.fn, OpenStack(c.fn.code, 0), c.ss[0], []);
    FlowIsOk(c, a);
  }

  lemma {:induction false} EnterSound(env: Env, tr: seq<seq<VState>>, lim: Limits, acts: seq<Act>, s: Store,
                   f: nat, args: seq<nat>, results: seq<ValType>)
    requires EnvOk(env, tr) && FramesOk(env.m, tr, lim, acts) && StoreOk(env.m, s)
    requires Defined(env.m, f) && AllTyped(args, CheckedFunc(env.m, tr, f).ft.params)
    requires acts != [] ==>
      var top := acts[|acts| - 1];
      Defined(env.m, top.func) && Resumable(CheckedFunc(env.m, tr, top.func), top, CheckedFunc(env.m, tr, f).ft.results)
    ensures OutcomeOk(env, tr, lim, results, EnterFrame(env, lim, acts, s, f, args))
  {
    var c := CheckedFunc(env.m, tr, f);
    var r := EnterFrame(env, lim, acts, s, f, args);
    if r.Running? {
      var a := Act(f, 0, args + Zeros(|c.fn.locals|), [], []);
      EntryOk(c, f, args);
      PushTop(env.m, tr, lim, acts, a);
    }
  }

  lemma {:induction false} ImportSound(env: Env, tr: seq<seq<VState>>, lim: Limits, acts: seq<Act>, s: Store,
                    f: nat, args: seq<nat>, results: seq<ValType>)
    requires EnvOk(env, tr) && acts != [] && FramesOk(env.m, tr, lim, acts) && StoreOk(env.m, s)
    requires f < |env.m.imports| && env.m.TypeOf(f).Some?
    requires var top := acts[|acts| - 1];
      Defined(env.m, top.func) && Resumable(CheckedFunc(env.m, tr, top.func), top, env.m.TypeOf(f).value.results)
    ensures OutcomeOk(env, tr, lim, results, CallFunction(env, lim, acts, s, f, args))
  {
    var h := env.host(f, args, s);
    if h.HostCompleted? {
      var top := acts[|acts| - 1];
      var a := top.(operands := top.operands + h.results);
      assert ActOk(CheckedFunc(env.m, tr, top.func), a);
      ReplaceTop(env.m, tr, lim, acts, a);
    }
  }

  lemma {:induction false} ReturnSound(env: Env, tr: seq<seq<VState>>, lim: Limits, mach: Machine, rs: seq<nat>, capacity: nat)
    requires EnvOk(env, tr) && Sound(env, tr, lim, mach)
    requires AllTyped(rs, CheckedFunc(env.m, tr, mach.acts[|mach.acts| - 1].func).ft.results)
    ensures OutcomeOk(env, tr, lim, EntryResults(env.m, mach),
                      WasmMachine.Return(mach, rs, capacity))
  {
    var n := |mach.acts| - 1;
    if n > 0 {
      var outer := mach.acts[..n];
      DropTop(env.m, tr, lim, mach.acts);
      var top := outer[n - 1];
      var a := top.(operands := top.operands + rs);
      assert ActOk(CheckedFunc(env.m, tr, top.func), a);
      ReplaceTop(env.m, tr, lim, outer, a);
    }
  }

  // ---- the machine ----

  lemma {:induction false} StepLocalFunc(env: Env, fn: Func, ft: FuncType, room: nat, act: Act, s: Store)
    ensures match StepLocal(env, fn, ft, room, act, s)
      case Next(a, _) => a.func == act.func
      case Invoke(_, _, a, _) => a.func == act.func && a.locals == act.locals
      case _ => true
  {
  }

  /** The `Next` outcome of the innermost activation. */
  lemma {:induction false} AdvanceSound(env: Env, tr: seq<seq<VState>>, lim: Limits, mach: Machine, a: Act, s: Store)
    requires EnvOk(env, tr) && Sound(env, tr, lim, mach)
    requires a.func == mach.acts[|mach.acts| - 1].func
    requires ActOk(CheckedFunc(env.m, tr, a.func), a) && StoreOk(env.m, s)
    ensures Sound(env, tr, lim, mach.(acts := mach.acts[|mach.acts| - 1 := a], store := s))
  {
    ReplaceTop(env.m, tr, lim, mach.acts, a);
  }

  /** The `Invoke` outcome of the innermost activation. */
  lemma {:induction false} InvokeSound(env: Env, tr: seq<seq<VState>>, lim: Limits, mach: Machine, f: nat, args: seq<nat>,
                    a: Act, s: Store, results: seq<ValType>)
    requires EnvOk(env, tr) && Sound(env, tr, lim, mach) && StoreOk(env.m, s)
    requires var top := mach.acts[|mach.acts| - 1]; a.func == top.func && a.locals == top.locals
    requires env.m.TypeOf(f).Some? && AllTyped(args, env.m.TypeOf(f).value.params)
    requires Resumable(CheckedFunc(env.m, tr, a.func), a, env.m.TypeOf(f).value.results)
    ensures OutcomeOk(env, tr, lim, results,
              CallFunction(env, lim, mach.acts[|mach.acts| - 1 := a], s, f, args))
  {
    var acts := mach.acts[|mach.acts| - 1 := a];
    ReplaceTop(env.m, tr, lim, mach.acts, a);
    if f < |env.m.imports| {
      ImportSound(env, tr, lim, acts, s, f, args, results);
    } else {
      EnterSound(env, tr, lim, acts, s, f, args, results);
    }
  }

  /** Progress and preservation of one iteration: no ill-typed step is possible, and
      the next state is sound again. */
  lemma {:induction false} StepIsSound(env: Env, tr: seq<seq<VState>>, lim: Limits, capacity: nat, mach: Machine)
    requires EnvOk(env, tr) && Sound(env, tr, lim, mach)
    ensures OutcomeOk(env, tr, lim, EntryResults(env.m, mach),
                      Step(env, lim, capacity, mach))
  {
    var n := |mach.acts| - 1;
    var act := mach.acts[n];
    var c := CheckedFunc(env.m, tr, act.func);
    var room := Room(lim, mach);
    WasmControlSoundness.StepSound(c, env, act, room, mach.store);
    StepLocalFunc(env, c.fn, c.ft, room, act, mach.store);
    StepAdvances(env, lim, capacity, mach, c.fn, c.ft);
    match StepLocal(env, c.fn, c.ft, room, act, mach.store)
    case Next(a, s) => AdvanceSound(env, tr, lim, mach, a, s);
    case Invoke(f, args, a, s) => InvokeSound(env, tr, lim, mach, f, args, a, s, EntryResults(env.m, mach));
    case Finish(rs) => ReturnSound(env, tr, lim, mach, rs, capacity);
    case _ =>
  }

  /** The invoked function stays at the bottom. */
  lemma {:induction false} StepKeepsEntry(env: Env, lim: Limits, capacity: nat, mach: Machine)
    ensures var r := Step(env, lim, capacity, mach);
      r.Running? ==> EntryResults(env.m, r.next) == EntryResults(env.m, mach)
  {
    if mach.acts != [] {
      var n := |mach.acts| - 1;
      var act := mach.acts[n];
      var body, ty := env.m.Body(act.func), env.m.TypeOf(act.func);
      if body.Some? && ty.Some? {
        StepAdvances(env, lim, capacity, mach, body.value, ty.value);
        StepLocalFunc(env, body.value, ty.value, Room(lim, mach), act, mach.store);
      }
    }
  }

  /** No run from a sound state ever reaches an ill-typed step; it stops only with
      well-typed results, a trap, an exit, or one of the named failures. */
  lemma {:induction false} RunIsSound(env: Env, tr: seq<seq<VState>>, lim: Limits, capacity: nat, mach: Machine, n: nat)
    requires EnvOk(env, tr) && Sound(env, tr, lim, mach)
    ensures var r := Run(env, lim, capacity, mach, n);
      && OutcomeOk(env, tr, lim, EntryResults(env.m, mach), r)
      && (r.Running? ==> EntryResults(env.m, r.next) == EntryResults(env.m, mach))
  {
    if n > 0 {
      RunIsSound(env, tr, lim, capacity, mach, n - 1);
      var before := Run(env, lim, capacity, mach, n - 1);
      if before.Running? {
        StepIsSound(env, tr, lim, capacity, before.next);
        StepKeepsEntry(env, lim, capacity, before.next);
      }
    }
  }

  /** The value slots in use never exceed the preallocated stack: what enter_frame reserved
      covers every later push. */
  lemma {:induction false} ReservedIsEnough(env: Env, tr: seq<seq<VState>>, lim: Limits, mach: Machine)
    requires EnvOk(env, tr) && Sound(env, tr, lim, mach)
    ensures Values(mach.acts) <= lim.maxValues && |mach.acts| <= lim.maxFrames
  {
    var n := |mach.acts| - 1;
    var c := CheckedFunc(env.m, tr, mach.acts[n].func);
    OperandBound(c, mach.acts[n]);
    assert Reserved(env.m, lim, mach.acts, n);
  }

  /** At every moment of every run all three preallocated stacks are large enough. */
  lemma {:induction false} WithinLimits(env: Env, tr: seq<seq<VState>>, lim: Limits, capacity: nat, mach: Machine, n: nat)
    requires EnvOk(env, tr) && Sound(env, tr, lim, mach) && Labels(mach.acts) <= lim.maxLabels
    ensures var r := Run(env, lim, capacity, mach, n);
      r.Running? ==>
        Values(r.next.acts) <= lim.maxValues && |r.next.acts| <= lim.maxFrames && Labels(r.next.acts) <= lim.maxLabels
  {
    RunIsSound(env, tr, lim, capacity, mach, n);
    RunLabels(env, lim, capacity, mach, n);
    var r := Run(env, lim, capacity, mach, n);
    if r.Running? { ReservedIsEnough(env, tr, lim, r.next); }
  }
}
