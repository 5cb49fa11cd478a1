/** The label stack stays within its size over every run: each opening construct asks for room
    first, and nothing else adds a label. */
module WasmLabels {
  import opened Options
  import opened Words
  import opened WasmSyntax
  import opened WasmExec
  import opened WasmMachine

  /** What one instruction leaves of the innermost activation's labels. */
  lemma {:induction false} LocalLabels(env: Env, fn: Func, ft: FuncType, room: nat, act: Act, s: Store)
    ensures var r := StepLocal(env, fn, ft, room, act, s);
      && (r.Next? ==> |r.act.labels| <= |act.labels| || |r.act.labels| <= room)
      && (r.Invoke? ==> r.act.labels == act.labels)
  {
    if act.pc < |fn.code| {
      if fn.code[act.pc].Do? {
        OperationLabels(act.(pc := act.pc + 1), ExecPlain(env, fn.code[act.pc].op, act.locals, act.operands, s));
      } else {
        ExecuteLabels(env, fn, ft, room, fn.code[act.pc], act.(pc := act.pc + 1), s);
      }
    }
  }

  lemma {:induction false} OperationLabels(a: Act, r: PlainOut)
    ensures !Operation(a, r).Invoke? && (Operation(a, r).Next? ==> Operation(a, r).act.labels == a.labels)
  {
  }

  lemma {:induction false} ExecuteLabels(env: Env, fn: Func, ft: FuncType, room: nat, i: Instr, a: Act, s: Store)
    requires !i.Do?
    ensures var r := Execute(env, fn, ft, room, i, a, s);
      && (r.Next? ==> |r.act.labels| <= |a.labels| || |r.act.labels| <= room)
      && (r.Invoke? ==> r.act.labels == a.labels)
  {
  }

  predicate Within(lim: Limits, r: Outcome) { r.Running? ==> Labels(r.next.acts) <= lim.maxLabels }

  lemma {:induction false} LabelsPush(acts: seq<Act>, a: Act)
    ensures Labels(acts + [a]) == Labels(acts) + |a.labels|
  {
    assert (acts + [a])[..|acts|] == acts;
  }

  lemma {:induction false} LabelsTop(acts: seq<Act>, a: Act)
    requires acts != []
    ensures var n := |acts| - 1;
      Labels(acts[n := a]) == Labels(acts[..n]) + |a.labels| && Labels(acts) == Labels(acts[..n]) + |acts[n].labels|
  {
    var n := |acts| - 1;
    assert acts[n := a][..n] == acts[..n];
  }

  /** The machine's step, given what the innermost activation does. */
  function Advance(env: Env, lim: Limits, capacity: nat, mach: Machine, l: Local): Outcome
    requires mach.acts != []
  {
    var n := |mach.acts| - 1;
    match l
    case Next(a, s) => Running(mach.(acts := mach.acts[n := a], store := s))
    case Invoke(f, args, a, s) => CallFunction(env, lim, mach.acts[n := a], s, f, args)
    case Finish(results) => WasmMachine.Return(mach, results, capacity)
    case Trapped(trap) => Trap(trap)
    case NoLabels => Failed(LabelOverflow)
    case Stuck => StuckState
  }

  lemma {:induction false} StepAdvances(env: Env, lim: Limits, capacity: nat, mach: Machine, fn: Func, ft: FuncType)
    requires mach.acts != []
    requires var f := mach.acts[|mach.acts| - 1].func; env.m.Body(f) == Some(fn) && env.m.TypeOf(f) == Some(ft)
    ensures Step(env, lim, capacity, mach) ==
      Advance(env, lim, capacity, mach, StepLocal(env, fn, ft, Room(lim, mach), mach.acts[|mach.acts| - 1], mach.store))
  {
  }

  lemma {:induction false} AdvanceLabels(env: Env, lim: Limits, capacity: nat, mach: Machine, l: Local)
    requires mach.acts != [] && Labels(mach.acts) <= lim.maxLabels
    requires var act := mach.acts[|mach.acts| - 1];
      && (l.Next? ==> |l.act.labels| <= |act.labels| || |l.act.labels| <= Room(lim, mach))
      && (l.Invoke? ==> l.act.labels == act.labels)
    ensures Within(lim, Advance(env, lim, capacity, mach, l))
  {
    var n := |mach.acts| - 1;
    LabelsTop(mach.acts, mach.acts[n]);
    match l
    case Next(a, _) => LabelsTop(mach.acts, a);
    case Invoke(f, args, a, s) =>
      LabelsTop(mach.acts, a);
      CallLabels(env, lim, mach.acts[n := a], s, f, args);
    case Finish(results) =>
      if n > 0 { LabelsTop(mach.acts[..n], PushResults(mach.acts[..n], results)[n - 1]); }
    case _ =>
  }

  lemma {:induction false} StepLabels(env: Env, lim: Limits, capacity: nat, mach: Machine)
    requires Labels(mach.acts) <= lim.maxLabels
    ensures Within(lim, Step(env, lim, capacity, mach))
  {
    if mach.acts != [] {
      var act := mach.acts[|mach.acts| - 1];
      var fn, ft := env.m.Body(act.func), env.m.TypeOf(act.func);
      if fn.Some? && ft.Some? {
        StepAdvances(env, lim, capacity, mach, fn.value, ft.value);
        LocalLabels(env, fn.value, ft.value, Room(lim, mach), act, mach.store);
        AdvanceLabels(env, lim, capacity, mach, StepLocal(env, fn.value, ft.value, Room(lim, mach), act, mach.store));
      }
    }
  }

  lemma {:induction false} CallLabels(env: Env, lim: Limits, acts: seq<Act>, store: Store, f: nat, args: seq<nat>)
    requires acts != []
    ensures var r := CallFunction(env, lim, acts, store, f, args); r.Running? ==> Labels(r.next.acts) == Labels(acts)
  {
    var r := CallFunction(env, lim, acts, store, f, args);
    if r.Running? {
      if f < |env.m.imports| {
        LabelsTop(acts, r.next.acts[|acts| - 1]);
      } else {
        LabelsPush(acts, r.next.acts[|acts|]);
      }
    }
  }

  lemma {:induction false} IterateWithin(step: Machine -> Outcome, lim: Limits, mach: Machine, n: nat)
    requires Labels(mach.acts) <= lim.maxLabels
    requires forall m: Machine {:trigger step(m)} :: Labels(m.acts) <= lim.maxLabels ==> Within(lim, step(m))
    ensures Within(lim, Iterate(step, mach, n))
  {
    if n > 0 { IterateWithin(step, lim, mach, n - 1); }
  }

  lemma {:induction false} RunLabels(env: Env, lim: Limits, capacity: nat, mach: Machine, n: nat)
    requires Labels(mach.acts) <= lim.maxLabels
    ensures Within(lim, Run(env, lim, capacity, mach, n))
  {
    var step := Stepper(env, lim, capacity);
    forall m: Machine | Labels(m.acts) <= lim.maxLabels ensures Within(lim, step(m)) { StepLabels(env, lim, capacity, m); }
    IterateWithin(step, lim, mach, n);
  }
}
