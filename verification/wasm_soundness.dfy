/** Type soundness of one activation: the checker's state at a pc describes the
    operands, locals and labels of every activation that reaches it. */
module WasmSoundness {
  import opened Options
  import opened WasmSyntax
  import opened WasmStructure
  import opened WasmValidation
  import opened WasmValidationFacts
  import opened WasmStatic
  import opened WasmJumps
  import opened WasmExec

  /** A function together with the checker's states over its code. */
  datatype Checked = Checked(m: Module, ft: FuncType, fn: Func, ss: seq<VState>) {
    predicate Ok() { Trace(m, ft, fn, ss) && WellResolved(fn.code) }
    function Locals(): seq<ValType> { ft.params + fn.locals }
  }

  predicate Matches(operands: seq<nat>, st: seq<StackType>) {
    |operands| == |st| && forall i :: 0 <= i < |st| ==> st[i].Known? && Typed(operands[i], st[i].t)
  }

  predicate Reachable(s: VState) { forall i :: 0 <= i < |s.ctrls| ==> !s.ctrls[i].unreachable }

  /** The label that the opening at `o` pushes at run time. */
  function LabelOf(fn: Func, o: nat, c: Ctrl): Label
    requires o < |fn.code| && fn.code[o].Open?
  {
    Label(fn.code[o].kind, o + 1, fn.code[o].endPc, c.height, |c.ends|)
  }

  predicate LabelsOk(fn: Func, st: seq<nat>, s: VState, labels: seq<Label>) {
    && |labels| == |st| && |s.ctrls| == |st| + 1
    && forall i :: 0 <= i < |st| ==>
         st[i] < |fn.code| && fn.code[st[i]].Open? && labels[i] == LabelOf(fn, st[i], s.ctrls[i + 1])
  }

  /** The activation is where the checker was, in reachable code. */
  predicate Flow(c: Checked, act: Act)
    requires c.Ok() && act.pc < |c.fn.code|
  {
    && Reachable(c.ss[act.pc])
    && Matches(act.operands, c.ss[act.pc].stack)
    && LabelsOk(c.fn, OpenStack(c.fn.code, act.pc), c.ss[act.pc], act.labels)
  }

  /** The activation is at a construct's `end`, reached from inside, from the other
      arm of an `if`, or by skipping the `if`. */
  predicate AtEnd(c: Checked, act: Act)
    requires c.Ok() && act.pc < |c.fn.code|
  {
    && Reachable(c.ss[act.pc + 1])
    && Matches(act.operands, c.ss[act.pc + 1].stack)
    && LabelsOk(c.fn, OpenStack(c.fn.code, act.pc), c.ss[act.pc], act.labels)
  }

  /** The results are on top of the operands and the function is about to return. */
  predicate Leaving(c: Checked, act: Act) {
    var n, k := |act.operands|, |c.ft.results|;
    act.labels == [] && k <= n <= c.fn.maxStack && AllTyped(act.operands[n - k..], c.ft.results)
  }

  predicate ActOk(c: Checked, act: Act)
    requires c.Ok()
  {
    && AllTyped(act.locals, c.Locals())
    && act.pc <= |c.fn.code|
    && if act.pc == |c.fn.code| then Leaving(c, act)
       else if c.fn.code[act.pc].End? && OpenStack(c.fn.code, act.pc) != [] then AtEnd(c, act)
       else Flow(c, act)
  }

  lemma {:induction false} FlowIsOk(c: Checked, act: Act)
    requires c.Ok() && act.pc < |c.fn.code| && AllTyped(act.locals, c.Locals()) && Flow(c, act)
    ensures ActOk(c, act)
  {
    if c.fn.code[act.pc].End? && OpenStack(c.fn.code, act.pc) != [] {
      EndStep(c.m, c.ft, c.fn, c.ss, act.pc);
    }
  }

  /** `max_stack` bounds the operands of every sound activation. */
  lemma {:induction false} OperandBound(c: Checked, act: Act)
    requires c.Ok() && ActOk(c, act)
    ensures |act.operands| <= c.fn.maxStack
  {
    if act.pc < |c.fn.code| {
      HeightBound(c.m, c.ft, c.fn, c.ss, act.pc);
      HeightBound(c.m, c.ft, c.fn, c.ss, act.pc + 1);
    }
  }

  lemma {:induction false} MatchesKnowns(operands: seq<nat>, st: seq<StackType>, ts: seq<ValType>)
    requires Matches(operands, st + Knowns(ts))
    ensures Matches(operands[..|st|], st) && AllTyped(operands[|st|..], ts)
    ensures operands == operands[..|st|] + operands[|st|..]
  {
    var both := st + Knowns(ts);
    forall i | 0 <= i < |st| ensures st[i].Known? && Typed(operands[i], st[i].t) {
      assert both[i] == st[i];
    }
    forall i | 0 <= i < |ts| ensures Typed(operands[|st| + i], ts[i]) {
      assert both[|st| + i] == Known(ts[i]);
    }
  }

  lemma {:induction false} MatchesJoin(operands: seq<nat>, st: seq<StackType>, outs: seq<nat>, ts: seq<ValType>)
    requires Matches(operands, st) && AllTyped(outs, ts)
    ensures Matches(operands + outs, st + Knowns(ts))
  {
  }

  lemma {:induction false} MatchesPrefix(operands: seq<nat>, st: seq<StackType>, h: nat)
    requires Matches(operands, st) && h <= |st|
    ensures Matches(operands[..h], st[..h])
  {
  }

  lemma {:induction false} KnownStack(operands: seq<nat>, st: seq<StackType>)
    requires Matches(operands, st)
    ensures AllKnown(st)
  {
  }

  /** Labels of an enclosing construct survive leaving the inner ones. */
  lemma {:induction false} LabelsCut(fn: Func, st: seq<nat>, s: VState, labels: seq<Label>, i: nat, r: VState)
    requires LabelsOk(fn, st, s, labels) && i <= |st|
    requires r.ctrls == s.ctrls[..i + 1]
    ensures LabelsOk(fn, st[..i], r, labels[..i])
  {
  }

  lemma {:induction false} LabelsExtend(fn: Func, st: seq<nat>, s: VState, labels: seq<Label>, o: nat, l: Label, r: VState)
    requires LabelsOk(fn, st, s, labels)
    requires |r.ctrls| == |s.ctrls| + 1 && r.ctrls[..|s.ctrls|] == s.ctrls
    requires o < |fn.code| && fn.code[o].Open? && l == LabelOf(fn, o, r.ctrls[|s.ctrls|])
    ensures LabelsOk(fn, st + [o], r, labels + [l])
  {
    var n := |s.ctrls|;
    forall i | 0 <= i < |st|
      ensures (labels + [l])[i] == LabelOf(fn, (st + [o])[i], r.ctrls[i + 1])
    {
      assert r.ctrls[i + 1] == r.ctrls[..n][i + 1];
    }
  }

  lemma {:induction false} ReachableCut(s: VState, i: nat, r: VState)
    requires Reachable(s) && i <= |s.ctrls| && r.ctrls == s.ctrls[..i]
    ensures Reachable(r)
  {
  }

  lemma {:induction false} ReachableExtend(s: VState, r: VState)
    requires Reachable(s) && |r.ctrls| == |s.ctrls| + 1 && r.ctrls[..|s.ctrls|] == s.ctrls
    requires !r.ctrls[|s.ctrls|].unreachable
    ensures Reachable(r)
  {
    forall i | 0 <= i < |s.ctrls| ensures !r.ctrls[i].unreachable {
      assert r.ctrls[i] == r.ctrls[..|s.ctrls|][i];
    }
  }
}
