/** Control instructions and calls, and the soundness of one interpreter iteration. */
module WasmControlSoundness {
  import opened Options
  import opened WasmSyntax
  import opened WasmStructure
  import opened WasmValidation
  import opened WasmValidationFacts
  import opened WasmStatic
  import opened WasmJumps
  import opened WasmExec
  import opened WasmSoundness
  import opened WasmPlainSoundness
  import opened WasmStepSoundness

  /** A sound activation in the middle of reachable code. */
  predicate InFlow(c: Checked, act: Act) {
    c.Ok() && act.pc < |c.fn.code| && AllTyped(act.locals, c.Locals()) && Flow(c, act)
  }

  /** Facts every instruction of reachable code starts from. */
  lemma {:induction false} FlowFacts(c: Checked, act: Act)
    requires InFlow(c, act)
    ensures var s := c.ss[act.pc];
      && WF(s) && s.ctrls != [] && !s.Top().unreachable && AllKnown(s.stack)
      && |act.operands| == |s.stack| <= c.fn.maxStack
  {
    StatesMirror(c.m, c.ft, c.fn, c.ss, act.pc);
    KnownStack(act.operands, c.ss[act.pc].stack);
    HeightBound(c.m, c.ft, c.fn, c.ss, act.pc);
  }

  /** Popping the i32 on top, as a branch condition or selector. */
  lemma {:induction false} PopCondition(operands: seq<nat>, s: VState)
    requires WF(s) && s.ctrls != [] && !s.Top().unreachable && Matches(operands, s.stack)
    requires Pop(s, Known(I32)).Some?
    ensures var s1, n := Pop(s, Known(I32)).value, |operands|;
      && n > 0 && s1.ctrls == s.ctrls && WF(s1) && s1.stack == s.stack[..n - 1]
      && Matches(operands[..n - 1], s1.stack) && s.Top().height <= n - 1
      && Typed(operands[n - 1], I32) && AllKnown(s1.stack)
  {
    KnownStack(operands, s.stack);
    MatchesPrefix(operands, s.stack, |operands| - 1);
  }

  // ---- block, loop, if, else, end ----

  /** Entering the body, or the `else` arm, of the construct at act.pc. */
  lemma {:induction false} EnterSound(c: Checked, act: Act, a: Act, target: nat)
    requires InFlow(c, act) && c.fn.code[act.pc].Open?
    requires target < |c.fn.code|
    requires var pc, n := act.pc, |c.ss[act.pc].ctrls|;
      && |c.ss[pc + 1].ctrls| == n + 1
      && |c.ss[target].ctrls| == n + 1
      && c.ss[target].ctrls[..n] == c.ss[pc].ctrls && !c.ss[target].ctrls[n].unreachable
      && SameConstruct(c.ss[target].ctrls[n], c.ss[pc + 1].ctrls[n])
      && c.ss[target].stack == c.ss[pc + 1].stack
      && OpenStack(c.fn.code, target) == OpenStack(c.fn.code, pc) + [pc]
    requires a.pc == target && a.locals == act.locals && Matches(a.operands, c.ss[act.pc + 1].stack)
    requires a.labels == act.labels + [LabelOf(c.fn, act.pc, c.ss[act.pc + 1].ctrls[|c.ss[act.pc].ctrls|])]
    ensures ActOk(c, a)
  {
    var pc, st := act.pc, OpenStack(c.fn.code, act.pc);
    ReachableExtend(c.ss[pc], c.ss[target]);
    LabelsExtend(c.fn, st, c.ss[pc], act.labels, pc, a.labels[|act.labels|], c.ss[target]);
    FlowIsOk(c, a);
  }

  /** Skipping an `if` without `else`: straight to its `end`, label pushed. */
  lemma {:induction false} SkipSound(c: Checked, act: Act, a: Act)
    requires InFlow(c, act) && c.fn.code[act.pc].Open?
    requires c.fn.code[act.pc].kind == IfK && c.fn.code[act.pc].elsePc.None?
    requires |c.ss[act.pc + 1].ctrls| == |c.ss[act.pc].ctrls| + 1
    requires a.pc == c.fn.code[act.pc].endPc && a.locals == act.locals
    requires Matches(a.operands, c.ss[act.pc + 1].stack)
    requires a.labels == act.labels + [LabelOf(c.fn, act.pc, c.ss[act.pc + 1].ctrls[|c.ss[act.pc].ctrls|])]
    ensures ActOk(c, a)
  {
    var pc, st := act.pc, OpenStack(c.fn.code, act.pc);
    SkipTarget(c, pc);
    LabelsExtend(c.fn, st, c.ss[pc], act.labels, pc, a.labels[|act.labels|], c.ss[a.pc]);
  }

  /** An `if` without `else` ends in the state it was entered with. */
  lemma {:induction false} SkipTarget(c: Checked, pc: nat)
    requires c.Ok() && pc < |c.fn.code| && c.fn.code[pc].Open?
    requires c.fn.code[pc].kind == IfK && c.fn.code[pc].elsePc.None?
    ensures var e, n := c.fn.code[pc].endPc, |c.ss[pc].ctrls|;
      && e + 1 < |c.fn.code| && c.fn.code[e].End?
      && c.ss[e + 1].ctrls == c.ss[pc].ctrls && c.ss[e + 1].stack == c.ss[pc + 1].stack
      && |c.ss[e].ctrls| == n + 1 && |c.ss[pc + 1].ctrls| == n + 1 && c.ss[e].ctrls[..n] == c.ss[pc].ctrls
      && SameConstruct(c.ss[e].ctrls[n], c.ss[pc + 1].ctrls[n])
      && OpenStack(c.fn.code, e) == OpenStack(c.fn.code, pc) + [pc]
  {
    var e, k := c.fn.code[pc].endPc, |OpenStack(c.fn.code, pc)|;
    ResolvedEnd(c.fn.code, pc);
    assert Resolved(c.fn.code, pc);
    SkippedIf(c.m, c.ft, c.fn, c.ss, pc);
    AfterEnd(c.m, c.ft, c.fn, c.ss, pc, e);
    assert OpenStack(c.fn.code, e)[k] == pc;
    Around(c.m, c.ft, c.fn, c.ss, e, k);
    assert c.ss[pc + 1].stack + Knowns([]) == c.ss[pc + 1].stack;
  }

  lemma {:induction false} OpenSound(c: Checked, env: Env, act: Act, room: nat, s: Store)
    requires InFlow(c, act) && c.fn.code[act.pc].Open? && StoreOk(c.m, s)
    ensures LocalOk(c, StepLocal(env, c.fn, c.ft, room, act, s))
  {
    var pc, i, n := act.pc, c.fn.code[act.pc], |act.operands|;
    FlowFacts(c, act);
    AfterOpen(c.m, c.ft, c.fn, c.ss, pc);
    CtrlFacts(c.m, c.ft, c.fn, c.ss, pc, 0);
    OpenedCtrl(c, pc);
    if i.kind == IfK {
      PopCondition(act.operands, c.ss[pc]);
      var a := act.(pc := pc + 1, operands := act.operands[..n - 1]);
      OpenLabelSound(c, act, a, i, room, Low32(act.operands[n - 1]) != 0, s);
    } else {
      OpenLabelSound(c, act, act.(pc := pc + 1), i, room, true, s);
    }
  }

  lemma {:induction false} OpenedCtrl(c: Checked, pc: nat)
    requires c.Ok() && pc < |c.fn.code| && c.fn.code[pc].Open?
    requires |c.ss[pc + 1].ctrls| == |c.ss[pc].ctrls| + 1
    ensures c.ss[pc + 1].ctrls[|c.ss[pc].ctrls|].ends == BlockResults(c.fn.code[pc].bt)
    ensures c.fn.code[pc].kind == IfK ==>
      Pop(c.ss[pc], Known(I32)).Some? && Pop(c.ss[pc], Known(I32)).value.stack == c.ss[pc + 1].stack
    ensures pc + 1 < |c.fn.code|
  {
    assert Steps(c.m, c.ft, c.fn, pc, c.ss[pc], c.ss[pc + 1]);
  }

  lemma {:induction false} OpenLabelSound(c: Checked, act: Act, a: Act, i: Instr, room: nat, taken: bool, s: Store)
    requires InFlow(c, act) && c.fn.code[act.pc].Open? && StoreOk(c.m, s) && i == c.fn.code[act.pc]
    requires a == act.(pc := act.pc + 1, operands := a.operands)
    requires i.kind != IfK ==> taken
    requires var pc, n := act.pc, |c.ss[act.pc].ctrls|;
      && n == |OpenStack(c.fn.code, pc)| + 1 && pc + 1 < |c.fn.code|
      && |c.ss[pc + 1].ctrls| == n + 1 && c.ss[pc + 1].ctrls[..n] == c.ss[pc].ctrls
      && c.ss[pc + 1].ctrls[n].height == |c.ss[pc + 1].stack|
      && c.ss[pc + 1].ctrls[n].ends == BlockResults(i.bt)
      && !c.ss[pc + 1].ctrls[n].unreachable
      && Matches(a.operands, c.ss[pc + 1].stack)
    ensures LocalOk(c, OpenLabel(a, i, room, taken, s))
  {
    var pc, n := act.pc, |c.ss[act.pc].ctrls|;
    if |a.labels| < room {
      var a1 := OpenLabel(a, i, room, taken, s).act;
      assert a1.labels[|act.labels|] == LabelOf(c.fn, pc, c.ss[pc + 1].ctrls[n]);
      if taken {
        EnterSound(c, act, a1, pc + 1);
      } else if i.elsePc.Some? {
        ResolvedElse(c.fn.code, pc);
        AfterElse(c.m, c.ft, c.fn, c.ss, pc, i.elsePc.value);
        EnterSound(c, act, a1, i.elsePc.value + 1);
      } else {
        SkipSound(c, act, a1);
      }
    }
  }

  /** The `then` arm is done: jump to `end`. */
  lemma {:induction false} ElseSound(c: Checked, env: Env, act: Act, room: nat, s: Store)
    requires InFlow(c, act) && c.fn.code[act.pc].Else? && StoreOk(c.m, s)
    ensures LocalOk(c, StepLocal(env, c.fn, c.ft, room, act, s))
  {
    var pc, st := act.pc, OpenStack(c.fn.code, act.pc);
    FlowFacts(c, act);
    ElseTarget(c, pc);
    var e := c.fn.code[st[|st| - 1]].endPc;
    ReachableCut(c.ss[pc], |st|, c.ss[e + 1]);
    SameLabelsAt(c, pc, e, act.labels);
  }

  /** Falling out of the `then` arm: its results are what `end` leaves. */
  lemma {:induction false} ElseTarget(c: Checked, pc: nat)
    requires c.Ok() && pc < |c.fn.code| && c.fn.code[pc].Else?
    requires c.ss[pc].ctrls != [] && !c.ss[pc].Top().unreachable && AllKnown(c.ss[pc].stack)
    ensures var st := OpenStack(c.fn.code, pc);
      && st != [] && st[|st| - 1] < |c.fn.code| && c.fn.code[st[|st| - 1]].Open?
      && var e := c.fn.code[st[|st| - 1]].endPc;
      && e + 1 < |c.fn.code| && c.fn.code[e].End? && OpenStack(c.fn.code, e) == st
      && |c.ss[pc].ctrls| == |st| + 1 && c.ss[e + 1].ctrls == c.ss[pc].ctrls[..|st|]
      && c.ss[e + 1].stack == c.ss[pc].stack
      && |c.ss[e].ctrls| == |st| + 1 && c.ss[e].ctrls[..|st|] == c.ss[pc].ctrls[..|st|]
      && SameConstruct(c.ss[e].ctrls[|st|], c.ss[pc].ctrls[|st|])
  {
    InsideIf(c, pc);
    var st := OpenStack(c.fn.code, pc);
    var o := st[|st| - 1];
    StaysOpen(c.fn.code, pc, |st| - 1);
    EndIsAhead(c.fn.code, pc, |st| - 1);
    assert st[..|st|] == st && st == OpenStack(c.fn.code, o) + [o];
    ElseMeetsEnd(c, pc, o, c.fn.code[o].endPc);
  }

  lemma {:induction false} ElseMeetsEnd(c: Checked, pc: nat, o: nat, e: nat)
    requires c.Ok() && o < pc < |c.fn.code| && c.fn.code[pc].Else? && c.fn.code[o].Open?
    requires o < e < |c.fn.code| && c.fn.code[e].End?
    requires DirectlyIn(c.fn.code, o, pc) && DirectlyIn(c.fn.code, o, e)
    requires c.ss[pc].ctrls != [] && !c.ss[pc].Top().unreachable && AllKnown(c.ss[pc].stack)
    ensures var n := |OpenStack(c.fn.code, o)| + 1;
      && e + 1 < |c.fn.code|
      && |c.ss[pc].ctrls| == n + 1 && c.ss[e + 1].ctrls == c.ss[pc].ctrls[..n]
      && c.ss[e + 1].stack == c.ss[pc].stack
      && |c.ss[e].ctrls| == n + 1 && c.ss[e].ctrls[..n] == c.ss[pc].ctrls[..n]
      && SameConstruct(c.ss[e].ctrls[n], c.ss[pc].ctrls[n])
  {
    var k := |OpenStack(c.fn.code, o)|;
    assert OpenStack(c.fn.code, pc)[k] == o && OpenStack(c.fn.code, e)[k] == o;
    Around(c.m, c.ft, c.fn, c.ss, pc, k);
    Around(c.m, c.ft, c.fn, c.ss, e, k);
    AfterEnd(c.m, c.ft, c.fn, c.ss, o, e);
    ElseStep(c.m, c.ft, c.fn, c.ss, pc);
  }

  lemma {:induction false} InsideIf(c: Checked, pc: nat)
    requires c.Ok() && pc < |c.fn.code| && c.fn.code[pc].Else?
    ensures OpenStack(c.fn.code, pc) != []
  {
    assert Steps(c.m, c.ft, c.fn, pc, c.ss[pc], c.ss[pc + 1]);
    CtrlFacts(c.m, c.ft, c.fn, c.ss, pc, 0);
  }

  lemma {:induction false} SameLabelsAt(c: Checked, pc: nat, e: nat, labels: seq<Label>)
    requires c.Ok() && pc < |c.fn.code| && e < |c.fn.code|
    requires LabelsOk(c.fn, OpenStack(c.fn.code, pc), c.ss[pc], labels)
    requires OpenStack(c.fn.code, e) == OpenStack(c.fn.code, pc) != []
    requires var k := |OpenStack(c.fn.code, pc)| - 1;
      && |c.ss[e].ctrls| == k + 2 && c.ss[e].ctrls[..k + 1] == c.ss[pc].ctrls[..k + 1]
      && SameConstruct(c.ss[e].ctrls[k + 1], c.ss[pc].ctrls[k + 1])
    ensures LabelsOk(c.fn, OpenStack(c.fn.code, e), c.ss[e], labels)
  {
    var st := OpenStack(c.fn.code, pc);
    var k := |st| - 1;
    forall i | 0 <= i < |st| ensures labels[i] == LabelOf(c.fn, st[i], c.ss[e].ctrls[i + 1]) {
      if i < k { assert c.ss[e].ctrls[i + 1] == c.ss[e].ctrls[..k + 1][i + 1]; }
    }
  }

  lemma {:induction false} EndSound(c: Checked, env: Env, act: Act, room: nat, s: Store)
    requires c.Ok() && ActOk(c, act) && act.pc < |c.fn.code| && c.fn.code[act.pc].End? && StoreOk(c.m, s)
    ensures LocalOk(c, StepLocal(env, c.fn, c.ft, room, act, s))
  {
    var pc, st := act.pc, OpenStack(c.fn.code, act.pc);
    if st == [] {
      FlowFacts(c, act);
      CtrlFacts(c.m, c.ft, c.fn, c.ss, pc, 0);
      assert Steps(c.m, c.ft, c.fn, pc, c.ss[pc], c.ss[pc + 1]);
      FinishSound(c, act, c.ss[pc], c.ft.results);
    } else {
      EndStep(c.m, c.ft, c.fn, c.ss, pc);
      LabelsCut(c.fn, st, c.ss[pc], act.labels, |st| - 1, c.ss[pc + 1]);
      FlowIsOk(c, act.(pc := pc + 1, labels := act.labels[..|st| - 1]));
    }
  }

  /** Returning: the results are the top of the operands. */
  lemma {:induction false} FinishSound(c: Checked, act: Act, s: VState, ts: seq<ValType>)
    requires c.Ok() && ts == c.ft.results
    requires WF(s) && s.ctrls != [] && !s.Top().unreachable && Matches(act.operands, s.stack)
    requires PopAll(s, ts).Some?
    ensures LocalOk(c, FinishWith(c.ft, act))
  {
    KnownStack(act.operands, s.stack);
    PopAllReachable(s, ts);
    MatchesKnowns(act.operands, PopAll(s, ts).value.stack, ts);
  }

  // ---- branches and return ----

  /** A branch whose label types the checker popped from `s`. */
  lemma {:induction false} TakeBranch(c: Checked, pc: nat, act: Act, depth: nat, s: VState, st: Store)
    requires c.Ok() && pc < |c.fn.code| && AllTyped(act.locals, c.Locals()) && Reachable(c.ss[pc])
    requires LabelsOk(c.fn, OpenStack(c.fn.code, pc), c.ss[pc], act.labels)
    requires WF(s) && s.ctrls == c.ss[pc].ctrls && depth < |s.ctrls|
    requires |s.stack| <= |c.ss[pc].stack| && s.stack == c.ss[pc].stack[..|s.stack|]
    requires Matches(act.operands, s.stack) && |act.operands| <= c.fn.maxStack && StoreOk(c.m, st)
    requires PopAll(s, s.ctrls[|s.ctrls| - 1 - depth].LabelTypes()).Some?
    ensures LocalOk(c, Branch(act, depth, |c.fn.code|, st))
  {
    var ts := s.ctrls[|s.ctrls| - 1 - depth].LabelTypes();
    KnownStack(act.operands, s.stack);
    PopAllReachable(s, ts);
    PopAllFrame(s, ts);
    var rest := PopAll(s, ts).value.stack;
    assert rest == c.ss[pc].stack[..|rest|];
    BranchSound(c, pc, act, depth, rest, ts);
  }

  lemma {:induction false} BrSound(c: Checked, env: Env, act: Act, room: nat, s: Store)
    requires InFlow(c, act) && StoreOk(c.m, s) && c.fn.code[act.pc].Br?
    ensures LocalOk(c, StepLocal(env, c.fn, c.ft, room, act, s))
  {
    FlowFacts(c, act);
    BrTypes(c, act.pc);
    TakeBranch(c, act.pc, act.(pc := act.pc + 1), c.fn.code[act.pc].depth, c.ss[act.pc], s);
    BrStep(env, c.fn, c.ft, room, act, s);
  }

  lemma {:induction false} BrStep(env: Env, fn: Func, ft: FuncType, room: nat, act: Act, s: Store)
    requires act.pc < |fn.code| && fn.code[act.pc].Br?
    ensures StepLocal(env, fn, ft, room, act, s) ==
      Branch(act.(pc := act.pc + 1), fn.code[act.pc].depth, |fn.code|, s)
  {
  }

  lemma {:induction false} BrTypes(c: Checked, pc: nat)
    requires c.Ok() && pc < |c.fn.code| && c.fn.code[pc].Br?
    ensures var depth, s := c.fn.code[pc].depth, c.ss[pc];
      depth < |s.ctrls| && PopAll(s, s.ctrls[|s.ctrls| - 1 - depth].LabelTypes()).Some?
  {
    assert Steps(c.m, c.ft, c.fn, pc, c.ss[pc], c.ss[pc + 1]);
  }

  /** What the checker demanded of a br_if. */
  lemma {:induction false} BrIfTypes(c: Checked, pc: nat)
    requires c.Ok() && pc < |c.fn.code| && c.fn.code[pc].BrIf?
    ensures var depth, s := c.fn.code[pc].depth, c.ss[pc];
      && depth < |s.ctrls| && Pop(s, Known(I32)).Some?
      && var ts := s.ctrls[|s.ctrls| - 1 - depth].LabelTypes();
      && PopAll(Pop(s, Known(I32)).value, ts).Some?
      && PopPush(Pop(s, Known(I32)).value, ts, ts) == Some(c.ss[pc + 1])
  {
    assert Steps(c.m, c.ft, c.fn, pc, c.ss[pc], c.ss[pc + 1]);
  }

  lemma {:induction false} BrIfSound(c: Checked, env: Env, act: Act, room: nat, s: Store)
    requires InFlow(c, act) && StoreOk(c.m, s) && c.fn.code[act.pc].BrIf?
    ensures LocalOk(c, StepLocal(env, c.fn, c.ft, room, act, s))
  {
    Conditional(c, act, s);
    BrIfStep(env, c.fn, c.ft, room, act, s);
  }

  /** Both ways out of a br_if. */
  lemma {:induction false} Conditional(c: Checked, act: Act, s: Store)
    requires InFlow(c, act) && StoreOk(c.m, s) && c.fn.code[act.pc].BrIf?
    ensures act.operands != []
    ensures var a := act.(pc := act.pc + 1, operands := act.operands[..|act.operands| - 1]);
      ActOk(c, a) && LocalOk(c, Branch(a, c.fn.code[act.pc].depth, |c.fn.code|, s))
  {
    var pc, n := act.pc, |act.operands|;
    FlowFacts(c, act);
    BrIfTypes(c, pc);
    PopCondition(act.operands, c.ss[pc]);
    var s1 := Pop(c.ss[pc], Known(I32)).value;
    var a := act.(pc := pc + 1, operands := act.operands[..n - 1]);
    FallThrough(c, act, s1, a);
    TakeBranch(c, pc, a, c.fn.code[pc].depth, s1, s);
  }

  /** A branch not taken leaves the condition's stack as it is. */
  lemma {:induction false} FallThrough(c: Checked, act: Act, s1: VState, a: Act)
    requires InFlow(c, act) && c.fn.code[act.pc].BrIf? && Pop(c.ss[act.pc], Known(I32)) == Some(s1)
    requires a == act.(pc := act.pc + 1, operands := a.operands) && Matches(a.operands, s1.stack)
    ensures ActOk(c, a)
  {
    var pc := act.pc;
    FlowFacts(c, act);
    BrIfTypes(c, pc);
    PopCondition(act.operands, c.ss[pc]);
    var ts := s1.ctrls[|s1.ctrls| - 1 - c.fn.code[pc].depth].LabelTypes();
    var rest := PopPushReachable(s1, ts, ts);
    NextOk(c, pc, act.labels, a);
  }

  lemma {:induction false} BrIfStep(env: Env, fn: Func, ft: FuncType, room: nat, act: Act, s: Store)
    requires act.pc < |fn.code| && fn.code[act.pc].BrIf? && act.operands != []
    ensures var a := act.(pc := act.pc + 1, operands := act.operands[..|act.operands| - 1]);
      StepLocal(env, fn, ft, room, act, s) ==
        if Low32(act.operands[|act.operands| - 1]) == 0 then Next(a, s)
        else Branch(a, fn.code[act.pc].depth, |fn.code|, s)
  {
  }

  /** Every entry of an accepted br_table may be taken. */
  lemma {:induction false} BrTableTypes(c: Checked, pc: nat, k: nat)
    requires c.Ok() && pc < |c.fn.code| && c.fn.code[pc].BrTable?
    ensures c.m.Targets(c.fn, c.fn.code[pc].first, c.fn.code[pc].count).Some?
    ensures var targets, s := c.m.Targets(c.fn, c.fn.code[pc].first, c.fn.code[pc].count).value, c.ss[pc];
      && targets != [] && Pop(s, Known(I32)).Some?
      && var s1 := Pop(s, Known(I32)).value;
      k < |targets| ==>
        targets[k] < |s1.ctrls| && PopAll(s1, s1.ctrls[|s1.ctrls| - 1 - targets[k]].LabelTypes()).Some?
  {
    assert Steps(c.m, c.ft, c.fn, pc, c.ss[pc], c.ss[pc + 1]);
    var targets := c.m.Targets(c.fn, c.fn.code[pc].first, c.fn.code[pc].count).value;
    BranchTableTypes(c.ss[pc], targets, k);
  }

  lemma {:induction false} BranchTableTypes(s: VState, targets: seq<nat>, k: nat)
    requires targets != [] && ValidateBranchTable(s, targets).Some?
    ensures Pop(s, Known(I32)).Some?
    ensures var s1 := Pop(s, Known(I32)).value;
      k < |targets| ==>
        targets[k] < |s1.ctrls| && PopAll(s1, s1.ctrls[|s1.ctrls| - 1 - targets[k]].LabelTypes()).Some?
  {
  }

  lemma {:induction false} BrTableSound(c: Checked, env: Env, act: Act, room: nat, s: Store)
    requires InFlow(c, act) && StoreOk(c.m, s) && c.fn.code[act.pc].BrTable? && env.m == c.m
    ensures LocalOk(c, StepLocal(env, c.fn, c.ft, room, act, s))
  {
    var targets, k := Chosen(c, act, s);
    BrTableStep(env, c.fn, c.ft, room, act, s, targets, k);
  }

  /** The entry that a br_table picks may be taken. */
  lemma {:induction false} Chosen(c: Checked, act: Act, s: Store) returns (targets: seq<nat>, k: nat)
    requires InFlow(c, act) && StoreOk(c.m, s) && c.fn.code[act.pc].BrTable?
    ensures act.operands != [] && c.m.Targets(c.fn, c.fn.code[act.pc].first, c.fn.code[act.pc].count) == Some(targets)
    ensures targets != []
    ensures k == var selector := Low32(act.operands[|act.operands| - 1]); if selector < |targets| - 1 then selector else |targets| - 1
    ensures var a := act.(pc := act.pc + 1, operands := act.operands[..|act.operands| - 1]);
      LocalOk(c, Branch(a, targets[k], |c.fn.code|, s))
  {
    var pc, n := act.pc, |act.operands|;
    FlowFacts(c, act);
    BrTableTypes(c, pc, 0);
    PopCondition(act.operands, c.ss[pc]);
    targets := c.m.Targets(c.fn, c.fn.code[pc].first, c.fn.code[pc].count).value;
    var selector := Low32(act.operands[n - 1]);
    k := if selector < |targets| - 1 then selector else |targets| - 1;
    BrTableTypes(c, pc, k);
    TakeBranch(c, pc, act.(pc := pc + 1, operands := act.operands[..n - 1]), targets[k], Pop(c.ss[pc], Known(I32)).value, s);
  }

  lemma {:induction false} BrTableStep(env: Env, fn: Func, ft: FuncType, room: nat, act: Act, s: Store, targets: seq<nat>, k: nat)
    requires act.pc < |fn.code| && fn.code[act.pc].BrTable? && act.operands != [] && targets != []
    requires env.m.Targets(fn, fn.code[act.pc].first, fn.code[act.pc].count) == Some(targets)
    requires var selector := Low32(act.operands[|act.operands| - 1]);
      k == if selector < |targets| - 1 then selector else |targets| - 1
    ensures StepLocal(env, fn, ft, room, act, s) ==
      Branch(act.(pc := act.pc + 1, operands := act.operands[..|act.operands| - 1]), targets[k], |fn.code|, s)
  {
  }

  lemma {:induction false} ReturnSound(c: Checked, env: Env, act: Act, room: nat, s: Store)
    requires InFlow(c, act) && c.fn.code[act.pc].Return?
    ensures LocalOk(c, StepLocal(env, c.fn, c.ft, room, act, s))
  {
    FlowFacts(c, act);
    CtrlFacts(c.m, c.ft, c.fn, c.ss, act.pc, 0);
    assert Steps(c.m, c.ft, c.fn, act.pc, c.ss[act.pc], c.ss[act.pc + 1]);
    FinishSound(c, act, c.ss[act.pc], c.ft.results);
  }

  // ---- calls ----

  /** Popping the arguments of a call leaves an activation that waits for the results. */
  lemma {:induction false} CallSound(c: Checked, act: Act, a: Act, s: VState, f: nat, ct: FuncType, st: Store)
    requires InFlow(c, act) && StoreOk(c.m, st) && c.m.TypeOf(f) == Some(ct)
    requires !c.fn.code[act.pc].Open? && !c.fn.code[act.pc].End?
    requires WF(s) && s.ctrls != [] && s.ctrls == c.ss[act.pc].ctrls && !s.Top().unreachable
    requires PopPush(s, ct.params, ct.results) == Some(c.ss[act.pc + 1])
    requires a == act.(pc := act.pc + 1, operands := a.operands) && Matches(a.operands, s.stack)
    ensures LocalOk(c, PopArgs(a, f, |ct.params|, st))
  {
    KnownStack(a.operands, s.stack);
    var rest := PopPushReachable(s, ct.params, ct.results);
    MatchesKnowns(a.operands, rest, ct.params);
    var a1 := a.(operands := a.operands[..|rest|]);
    forall rs | AllTyped(rs, ct.results) ensures ActOk(c, a1.(operands := a1.operands + rs)) {
      MatchesJoin(a1.operands, rest, rs, ct.results);
      NextOk(c, act.pc, act.labels, a1.(operands := a1.operands + rs));
    }
    assert Resumable(c, a1, ct.results);
  }

  lemma {:induction false} DirectCallSound(c: Checked, env: Env, act: Act, room: nat, s: Store)
    requires InFlow(c, act) && StoreOk(c.m, s) && c.fn.code[act.pc].Call? && env.m == c.m
    ensures LocalOk(c, StepLocal(env, c.fn, c.ft, room, act, s))
  {
    FlowFacts(c, act);
    assert Steps(c.m, c.ft, c.fn, act.pc, c.ss[act.pc], c.ss[act.pc + 1]);
    var f := c.fn.code[act.pc].func;
    CallSound(c, act, act.(pc := act.pc + 1), c.ss[act.pc], f, c.m.TypeOf(f).value, s);
    CallStep(env, c.fn, c.ft, room, act, s, c.m.TypeOf(f).value);
  }

  lemma {:induction false} CallStep(env: Env, fn: Func, ft: FuncType, room: nat, act: Act, s: Store, ct: FuncType)
    requires act.pc < |fn.code| && fn.code[act.pc].Call? && env.m.TypeOf(fn.code[act.pc].func) == Some(ct)
    ensures StepLocal(env, fn, ft, room, act, s) ==
      PopArgs(act.(pc := act.pc + 1), fn.code[act.pc].func, |ct.params|, s)
  {
  }

  lemma {:induction false} IndirectTypes(c: Checked, pc: nat)
    requires c.Ok() && pc < |c.fn.code| && c.fn.code[pc].CallIndirect?
    ensures var ti, s := c.fn.code[pc].typeIdx, c.ss[pc];
      && ti < |c.m.types| && c.fn.code[pc].table == 0 && Pop(s, Known(I32)).Some?
      && PopPush(Pop(s, Known(I32)).value, c.m.types[ti].params, c.m.types[ti].results) == Some(c.ss[pc + 1])
  {
    assert Steps(c.m, c.ft, c.fn, pc, c.ss[pc], c.ss[pc + 1]);
  }

  lemma {:induction false} IndirectCallSound(c: Checked, env: Env, act: Act, room: nat, s: Store)
    requires InFlow(c, act) && StoreOk(c.m, s) && c.fn.code[act.pc].CallIndirect? && env.m == c.m
    ensures LocalOk(c, StepLocal(env, c.fn, c.ft, room, act, s))
  {
    var pc, n := act.pc, |act.operands|;
    FlowFacts(c, act);
    IndirectTypes(c, pc);
    PopCondition(act.operands, c.ss[pc]);
    var ti := c.fn.code[pc].typeIdx;
    var found := Indirect(env, ti, Low32(act.operands[n - 1]));
    if found.Some? {
      var a := act.(pc := pc + 1, operands := act.operands[..n - 1]);
      CallSound(c, act, a, Pop(c.ss[pc], Known(I32)).value, found.value, c.m.types[ti], s);
    }
    IndirectStep(env, c.fn, c.ft, room, act, s);
  }

  lemma {:induction false} IndirectStep(env: Env, fn: Func, ft: FuncType, room: nat, act: Act, s: Store)
    requires act.pc < |fn.code| && fn.code[act.pc].CallIndirect? && act.operands != []
    requires fn.code[act.pc].table == 0 && fn.code[act.pc].typeIdx < |env.m.types|
    ensures var ti, n := fn.code[act.pc].typeIdx, |act.operands|;
      var found := Indirect(env, ti, Low32(act.operands[n - 1]));
      StepLocal(env, fn, ft, room, act, s) ==
        if found.None? then Trapped(TrapIndirectCall)
        else PopArgs(act.(pc := act.pc + 1, operands := act.operands[..n - 1]),
                     found.value, |env.m.types[ti].params|, s)
  {
  }

  // ---- one iteration ----

  /** From a sound activation one iteration never gets stuck, and every way it can
      continue is sound. */
  lemma {:induction false} StepSound(c: Checked, env: Env, act: Act, room: nat, s: Store)
    requires c.Ok() && ActOk(c, act) && env.m == c.m && StoreOk(c.m, s) && AllocOk(env)
    ensures LocalOk(c, StepLocal(env, c.fn, c.ft, room, act, s))
  {
    if act.pc < |c.fn.code| {
      match c.fn.code[act.pc] {
        case Unreachable =>
        case Open(_, _, _, _) => OpenSound(c, env, act, room, s);
        case Else => ElseSound(c, env, act, room, s);
        case End => EndSound(c, env, act, room, s);
        case Br(_) => BrSound(c, env, act, room, s);
        case BrIf(_) => BrIfSound(c, env, act, room, s);
        case BrTable(_, _) => BrTableSound(c, env, act, room, s);
        case Return => ReturnSound(c, env, act, room, s);
        case Call(_) => DirectCallSound(c, env, act, room, s);
        case CallIndirect(_, _) => IndirectCallSound(c, env, act, room, s);
        case Do(_) => PlainSound(c, env, act, room, s);
      }
    }
  }
}
