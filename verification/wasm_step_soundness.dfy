/** Type soundness of one interpreter iteration, instruction by instruction. */
module WasmStepSoundness {
  import opened Options
  import opened WasmSyntax
  import opened WasmStructure
  import opened WasmValidation
  import opened WasmValidationFacts
  import opened WasmStatic
  import opened WasmJumps
  import opened WasmExec
  import opened WasmSoundness
  import opened WasmPlainSoundness

  // ---- branches ----

  /** A branch that the checker admits lands in a sound activation. `rest` is the
      operand stack below what the label carries. */
  lemma {:induction false} BranchSound(c: Checked, pc: nat, act: Act, depth: nat, rest: seq<StackType>, ts: seq<ValType>)
    requires c.Ok() && pc < |c.fn.code| && AllTyped(act.locals, c.Locals())
    requires Reachable(c.ss[pc])
    requires LabelsOk(c.fn, OpenStack(c.fn.code, pc), c.ss[pc], act.labels)
    requires depth < |c.ss[pc].ctrls|
    requires ts == c.ss[pc].ctrls[|c.ss[pc].ctrls| - 1 - depth].LabelTypes()
    requires c.ss[pc].Top().height <= |rest| <= |c.ss[pc].stack| && rest == c.ss[pc].stack[..|rest|]
    requires Matches(act.operands, rest + Knowns(ts)) && |act.operands| <= c.fn.maxStack
    ensures BranchTo(act, depth, |c.fn.code|).Some?
    ensures ActOk(c, BranchTo(act, depth, |c.fn.code|).value)
  {
    if depth == |act.labels| {
      CtrlFacts(c.m, c.ft, c.fn, c.ss, pc, 0);
      MatchesKnowns(act.operands, rest, ts);
      LeaveSound(c, act.(pc := |c.fn.code|, labels := []), rest);
    } else {
      BranchOutSound(c, pc, act, |act.labels| - 1 - depth, rest, ts);
    }
  }

  lemma {:induction false} LeaveSound(c: Checked, act: Act, rest: seq<StackType>)
    requires c.Ok() && AllTyped(act.locals, c.Locals()) && act.pc == |c.fn.code| && act.labels == []
    requires |rest| + |c.ft.results| == |act.operands| <= c.fn.maxStack
    requires AllTyped(act.operands[|rest|..], c.ft.results)
    ensures ActOk(c, act)
  {
  }

  /** What the operands look like after unwinding to a label. */
  lemma {:induction false} Unwind(c: Checked, pc: nat, i: nat, operands: seq<nat>, rest: seq<StackType>, ts: seq<ValType>)
    requires c.Ok() && pc < |c.fn.code| && i < |OpenStack(c.fn.code, pc)|
    requires |c.ss[pc].ctrls| == |OpenStack(c.fn.code, pc)| + 1
    requires c.ss[pc].Top().height <= |rest| <= |c.ss[pc].stack| && rest == c.ss[pc].stack[..|rest|]
    requires Matches(operands, rest + Knowns(ts))
    ensures var h := c.ss[pc].ctrls[i + 1].height;
      var o := OpenStack(c.fn.code, pc)[i];
      && o + 1 < |c.ss|
      && h + |ts| <= |operands|
      && Matches(operands[..h] + operands[|operands| - |ts|..], c.ss[o + 1].stack + Knowns(ts))
  {
    Around(c.m, c.ft, c.fn, c.ss, pc, i);
    CtrlFacts(c.m, c.ft, c.fn, c.ss, pc, i + 1);
    var h := c.ss[pc].ctrls[i + 1].height;
    var o := OpenStack(c.fn.code, pc)[i];
    MatchesKnowns(operands, rest, ts);
    MatchesPrefix(operands[..|rest|], rest, h);
    assert operands[..|rest|][..h] == operands[..h];
    assert rest[..h] == c.ss[o + 1].stack;
    assert operands[|operands| - |ts|..] == operands[|rest|..];
    MatchesJoin(operands[..h], c.ss[o + 1].stack, operands[|rest|..], ts);
  }

  lemma {:induction false} BranchOutSound(c: Checked, pc: nat, act: Act, i: nat, rest: seq<StackType>, ts: seq<ValType>)
    requires c.Ok() && pc < |c.fn.code| && AllTyped(act.locals, c.Locals())
    requires Reachable(c.ss[pc])
    requires LabelsOk(c.fn, OpenStack(c.fn.code, pc), c.ss[pc], act.labels)
    requires i < |act.labels| && ts == c.ss[pc].ctrls[i + 1].LabelTypes()
    requires c.ss[pc].Top().height <= |rest| <= |c.ss[pc].stack| && rest == c.ss[pc].stack[..|rest|]
    requires Matches(act.operands, rest + Knowns(ts))
    ensures var depth := |act.labels| - 1 - i;
      BranchTo(act, depth, |c.fn.code|).Some? && ActOk(c, BranchTo(act, depth, |c.fn.code|).value)
  {
    var o := OpenStack(c.fn.code, pc)[i];
    var ctrl := c.ss[pc].ctrls[i + 1];
    Around(c.m, c.ft, c.fn, c.ss, pc, i);
    Unwind(c, pc, i, act.operands, rest, ts);
    assert act.labels[i] == LabelOf(c.fn, o, ctrl);
    BranchToLabel(act, i, ctrl.height, |ts|, |c.fn.code|);
    Land(c, pc, i, BranchTo(act, |act.labels| - 1 - i, |c.fn.code|).value, act.labels);
  }

  lemma {:induction false} BranchToLabel(act: Act, i: nat, height: nat, keep: nat, codeLen: nat)
    requires i < |act.labels| && act.labels[i].height == height && height + keep <= |act.operands|
    requires keep == if act.labels[i].kind == LoopK then 0 else act.labels[i].arity
    ensures var l := act.labels[i];
      BranchTo(act, |act.labels| - 1 - i, codeLen) == Some(act.(
        pc := if l.kind == LoopK then l.startPc else l.endPc + 1,
        operands := act.operands[..height] + act.operands[|act.operands| - keep..],
        labels := if l.kind == LoopK then act.labels[..i + 1] else act.labels[..i]))
  {
  }

  /** Landing at a loop's start or after a block's `end`. */
  lemma {:induction false} Land(c: Checked, pc: nat, i: nat, a: Act, labels: seq<Label>)
    requires c.Ok() && pc < |c.fn.code| && AllTyped(a.locals, c.Locals())
    requires Reachable(c.ss[pc])
    requires LabelsOk(c.fn, OpenStack(c.fn.code, pc), c.ss[pc], labels) && i < |labels|
    requires var o := OpenStack(c.fn.code, pc)[i];
      && o + 1 < |c.ss|
      && Matches(a.operands, c.ss[o + 1].stack + Knowns(c.ss[pc].ctrls[i + 1].LabelTypes()))
      && c.ss[pc].ctrls[i + 1].block == Some(c.fn.code[o].kind)
      && c.ss[pc].ctrls[i + 1].ends == BlockResults(c.fn.code[o].bt)
      && if c.fn.code[o].kind == LoopK then a.pc == o + 1 && a.labels == labels[..i + 1]
         else a.pc == c.fn.code[o].endPc + 1 && a.labels == labels[..i]
    ensures ActOk(c, a)
  {
    var o := OpenStack(c.fn.code, pc)[i];
    if c.fn.code[o].kind == LoopK {
      LoopTarget(c, pc, i, labels);
      assert c.ss[o + 1].stack + Knowns([]) == c.ss[o + 1].stack;
    } else {
      BlockTarget(c, pc, i, labels);
    }
    FlowIsOk(c, a);
  }

  lemma {:induction false} LoopTarget(c: Checked, pc: nat, i: nat, labels: seq<Label>)
    requires c.Ok() && pc < |c.fn.code| && Reachable(c.ss[pc])
    requires LabelsOk(c.fn, OpenStack(c.fn.code, pc), c.ss[pc], labels) && i < |labels|
    ensures var o := OpenStack(c.fn.code, pc)[i];
      && o < pc && Reachable(c.ss[o + 1])
      && LabelsOk(c.fn, OpenStack(c.fn.code, o + 1), c.ss[o + 1], labels[..i + 1])
  {
    var s, st := c.ss[pc], OpenStack(c.fn.code, pc);
    var o := st[i];
    Around(c.m, c.ft, c.fn, c.ss, pc, i);
    LabelsCut(c.fn, st, s, labels, i, c.ss[o]);
    ReachableCut(s, i + 1, c.ss[o]);
    ReachableExtend(c.ss[o], c.ss[o + 1]);
    LabelsExtend(c.fn, st[..i], c.ss[o], labels[..i], o, labels[i], c.ss[o + 1]);
    assert labels[..i + 1] == labels[..i] + [labels[i]];
  }

  lemma {:induction false} BlockTarget(c: Checked, pc: nat, i: nat, labels: seq<Label>)
    requires c.Ok() && pc < |c.fn.code| && Reachable(c.ss[pc])
    requires LabelsOk(c.fn, OpenStack(c.fn.code, pc), c.ss[pc], labels) && i < |labels|
    ensures var o := OpenStack(c.fn.code, pc)[i];
      && o < pc && c.fn.code[o].Open?
      && var e := c.fn.code[o].endPc;
      && e + 1 < |c.fn.code| && Reachable(c.ss[e + 1])
      && LabelsOk(c.fn, OpenStack(c.fn.code, e + 1), c.ss[e + 1], labels[..i])
      && c.ss[e + 1].stack == c.ss[o + 1].stack + Knowns(BlockResults(c.fn.code[o].bt))
  {
    var s, st := c.ss[pc], OpenStack(c.fn.code, pc);
    var o := st[i];
    Around(c.m, c.ft, c.fn, c.ss, pc, i);
    ResolvedEnd(c.fn.code, o);
    var e := c.fn.code[o].endPc;
    AfterEnd(c.m, c.ft, c.fn, c.ss, o, e);
    LabelsCut(c.fn, st, s, labels, i, c.ss[e + 1]);
    ReachableCut(s, i + 1, c.ss[e + 1]);
  }

  // ---- straight-line code ----

  /** What one iteration may produce from a sound activation: never `Stuck`, and
      a call leaves an activation that any well-typed results make sound again. */
  ghost predicate LocalOk(c: Checked, r: Local)
    requires c.Ok()
  {
    match r
    case Next(a, s) => ActOk(c, a) && StoreOk(c.m, s)
    case Invoke(f, args, a, s) =>
      && c.m.TypeOf(f).Some? && AllTyped(args, c.m.TypeOf(f).value.params) && StoreOk(c.m, s)
      && Resumable(c, a, c.m.TypeOf(f).value.results)
    case Finish(results) => AllTyped(results, c.ft.results)
    case Trapped(_) => true
    case NoLabels => true
    case Stuck => false
  }

  /** Pushing results of these types gives a sound activation. */
  ghost predicate Resumable(c: Checked, a: Act, ts: seq<ValType>)
    requires c.Ok()
  {
    forall rs :: AllTyped(rs, ts) ==> ActOk(c, a.(operands := a.operands + rs))
  }

  /** Moving on to the next instruction of the same construct. */
  lemma {:induction false} NextOk(c: Checked, pc: nat, labels: seq<Label>, a: Act)
    requires c.Ok() && pc < |c.fn.code| && AllTyped(a.locals, c.Locals())
    requires Reachable(c.ss[pc]) && LabelsOk(c.fn, OpenStack(c.fn.code, pc), c.ss[pc], labels)
    requires !c.fn.code[pc].Open? && !c.fn.code[pc].End?
    requires a.pc == pc + 1 && a.labels == labels && c.ss[pc + 1].ctrls == c.ss[pc].ctrls
    requires Matches(a.operands, c.ss[pc + 1].stack)
    ensures ActOk(c, a)
  {
    NotEnded(c.m, c.ft, c.fn, c.ss, pc);
    assert pc + 1 < |c.fn.code|;
    FlowIsOk(c, a);
  }

  /** A pop-push instruction in reachable code replaces the popped types on top. */
  lemma {:induction false} PopPushReachable(s: VState, ins: seq<ValType>, outs: seq<ValType>) returns (rest: seq<StackType>)
    requires WF(s) && s.ctrls != [] && !s.Top().unreachable && AllKnown(s.stack)
    requires PopPush(s, ins, outs).Some?
    ensures s.stack == rest + Knowns(ins)
    ensures PopPush(s, ins, outs).value.stack == rest + Knowns(outs)
    ensures PopPush(s, ins, outs).value.ctrls == s.ctrls
  {
    PopAllReachable(s, ins);
    rest := PopAll(s, ins).value.stack;
    PushAllFrame(PopAll(s, ins).value, outs);
  }

  lemma {:induction false} PlainStep(m: Module, locals: seq<ValType>, p: Plain, s: VState) returns (rest: seq<StackType>)
    requires WF(s) && s.ctrls != [] && !s.Top().unreachable && AllKnown(s.stack)
    requires !p.Drop? && !p.Select? && ValidatePlain(m, locals, p, s).Some?
    ensures Signature(m, locals, p).Some?
    ensures s.stack == rest + Knowns(Signature(m, locals, p).value.0)
    ensures ValidatePlain(m, locals, p, s).value.stack == rest + Knowns(Signature(m, locals, p).value.1)
    ensures ValidatePlain(m, locals, p, s).value.ctrls == s.ctrls
  {
    var sig := Signature(m, locals, p).value;
    rest := PopPushReachable(s, sig.0, sig.1);
  }

  lemma {:induction false} SelectStep(s: VState) returns (rest: seq<StackType>, t: ValType)
    requires WF(s) && s.ctrls != [] && !s.Top().unreachable && AllKnown(s.stack)
    requires ValidateSelect(s).Some?
    ensures s.stack == rest + Knowns([t, t, I32])
    ensures ValidateSelect(s).value.stack == rest + Knowns([t])
    ensures ValidateSelect(s).value.ctrls == s.ctrls
  {
    var n := |s.stack|;
    rest, t := s.stack[..n - 3], s.stack[n - 3].t;
  }

  lemma {:induction false} DropStep(s: VState) returns (rest: seq<StackType>, t: ValType)
    requires WF(s) && s.ctrls != [] && !s.Top().unreachable && AllKnown(s.stack)
    requires Pop(s, Bottom).Some?
    ensures s.stack == rest + Knowns([t])
    ensures Pop(s, Bottom).value.stack == rest + Knowns([])
    ensures Pop(s, Bottom).value.ctrls == s.ctrls
  {
    var n := |s.stack|;
    rest, t := s.stack[..n - 1], s.stack[n - 1].t;
  }

  /** A plain instruction, once its operands are separated from the rest. */
  lemma {:induction false} PlainApply(env: Env, locals: seq<ValType>, p: Plain, ls: seq<nat>, operands: seq<nat>, s: Store,
                   rest: seq<StackType>, ins: seq<ValType>, outs: seq<ValType>)
    requires Matches(operands, rest + Knowns(ins)) && Arity(p) == |ins|
    requires AllTyped(operands[|rest|..], ins) ==>
      PlainOk(env.m, locals, outs, Compute(env, p, ls, operands[|rest|..], s))
    ensures var r := ExecPlain(env, p, ls, operands, s);
      && !r.PlainStuck?
      && (r.Done? ==> AllTyped(r.locals, locals) && StoreOk(env.m, r.store)
                      && Matches(r.operands, rest + Knowns(outs)))
  {
    MatchesKnowns(operands, rest, ins);
    assert |operands| - Arity(p) == |rest|;
    match Compute(env, p, ls, operands[|rest|..], s)
    case Done(ls1, outs1, s1) => MatchesJoin(operands[..|rest|], rest, outs1, outs);
    case PlainTrap(_) =>
  }

  lemma {:induction false} DoStep(env: Env, fn: Func, ft: FuncType, room: nat, act: Act, s: Store)
    requires act.pc < |fn.code| && fn.code[act.pc].Do?
    ensures StepLocal(env, fn, ft, room, act, s) ==
      Operation(act.(pc := act.pc + 1), ExecPlain(env, fn.code[act.pc].op, act.locals, act.operands, s))
  {
  }

  lemma {:induction false} PlainSound(c: Checked, env: Env, act: Act, room: nat, s: Store)
    requires c.Ok() && env.m == c.m && act.pc < |c.fn.code| && AllTyped(act.locals, c.Locals())
    requires Flow(c, act) && c.fn.code[act.pc].Do? && StoreOk(c.m, s) && AllocOk(env)
    ensures LocalOk(c, StepLocal(env, c.fn, c.ft, room, act, s))
  {
    DoStep(env, c.fn, c.ft, room, act, s);
    PlainResult(c, env, act, s);
  }

  lemma {:induction false} PlainResult(c: Checked, env: Env, act: Act, s: Store)
    requires c.Ok() && env.m == c.m && act.pc < |c.fn.code| && AllTyped(act.locals, c.Locals())
    requires Flow(c, act) && c.fn.code[act.pc].Do? && StoreOk(c.m, s) && AllocOk(env)
    ensures LocalOk(c, Operation(act.(pc := act.pc + 1), ExecPlain(env, c.fn.code[act.pc].op, act.locals, act.operands, s)))
  {
    var pc, p := act.pc, c.fn.code[act.pc].op;
    assert Steps(c.m, c.ft, c.fn, pc, c.ss[pc], c.ss[pc + 1]);
    StatesMirror(c.m, c.ft, c.fn, c.ss, pc);
    KnownStack(act.operands, c.ss[pc].stack);
    var rest, ins, outs := PlainTypes(c, act, env, s);
    PlainApply(env, c.Locals(), p, act.locals, act.operands, s, rest, ins, outs);
    PlainOnward(c, act, ExecPlain(env, p, act.locals, act.operands, s));
  }

  /** The activation after a plain instruction. */
  lemma {:induction false} PlainOnward(c: Checked, act: Act, r: PlainOut)
    requires c.Ok() && act.pc < |c.fn.code| && Flow(c, act) && c.fn.code[act.pc].Do?
    requires c.ss[act.pc + 1].ctrls == c.ss[act.pc].ctrls && !r.PlainStuck?
    requires r.Done? ==> AllTyped(r.locals, c.Locals()) && StoreOk(c.m, r.store) && Matches(r.operands, c.ss[act.pc + 1].stack)
    ensures LocalOk(c, Operation(act.(pc := act.pc + 1), r))
  {
    if r.Done? {
      NextOk(c, act.pc, act.labels, act.(pc := act.pc + 1, locals := r.locals, operands := r.operands));
    }
  }

  lemma {:induction false} PlainTypes(c: Checked, act: Act, env: Env, s: Store)
    returns (rest: seq<StackType>, ins: seq<ValType>, outs: seq<ValType>)
    requires c.Ok() && env.m == c.m && act.pc < |c.fn.code| && c.fn.code[act.pc].Do?
    requires AllTyped(act.locals, c.Locals()) && StoreOk(c.m, s) && AllocOk(env)
    requires var st := c.ss[act.pc]; WF(st) && st.ctrls != [] && !st.Top().unreachable && AllKnown(st.stack)
    requires |act.operands| == |c.ss[act.pc].stack|
    ensures var st, nx := c.ss[act.pc], c.ss[act.pc + 1];
      st.stack == rest + Knowns(ins) && nx.stack == rest + Knowns(outs) && nx.ctrls == st.ctrls
    ensures var p := c.fn.code[act.pc].op;
      && Arity(p) == |ins| && |rest| <= |act.operands|
      && (AllTyped(act.operands[|rest|..], ins) ==>
            PlainOk(env.m, c.Locals(), outs, Compute(env, p, act.locals, act.operands[|rest|..], s)))
  {
    var p, st := c.fn.code[act.pc].op, c.ss[act.pc];
    assert Steps(c.m, c.ft, c.fn, act.pc, st, c.ss[act.pc + 1]);
    if p.Drop? {
      var t;
      rest, t := DropStep(st);
      ins, outs := [t], [];
    } else if p.Select? {
      var t;
      rest, t := SelectStep(st);
      ins, outs := [t, t, I32], [t];
    } else {
      rest := PlainStep(c.m, c.Locals(), p, st);
      var sig := Signature(c.m, c.Locals(), p).value;
      ins, outs := sig.0, sig.1;
      ArityOk(env, c.Locals(), p);
      if AllTyped(act.operands[|rest|..], ins) {
        ComputeSound(env, c.Locals(), p, act.locals, act.operands[|rest|..], s);
      }
    }
  }

  lemma {:induction false} ArityOk(env: Env, locals: seq<ValType>, p: Plain)
    requires Signature(env.m, locals, p).Some?
    ensures Arity(p) == |Signature(env.m, locals, p).value.0|
  {
  }
}
