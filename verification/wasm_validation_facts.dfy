/** What one validated instruction may change, and what the checker knows at the
    ends of a construct from its state at the opening. */
module WasmValidationFacts {
  import opened Options
  import opened WasmSyntax
  import opened WasmStructure
  import opened WasmValidation

  function Knowns(ts: seq<ValType>): (r: seq<StackType>)
    ensures |r| == |ts|
  {
    seq(|ts|, i requires 0 <= i < |ts| => Known(ts[i]))
  }

  /** Control heights grow inward and the operand stack covers the innermost one. */
  predicate WF(s: VState) {
    && (forall i, j :: 0 <= i <= j < |s.ctrls| ==> s.ctrls[i].height <= s.ctrls[j].height)
    && (s.ctrls != [] ==> s.Top().height <= |s.stack|)
    && |s.stack| <= s.maxStack
  }

  predicate SameConstruct(a: Ctrl, b: Ctrl) {
    a.block == b.block && a.height == b.height && a.ends == b.ends
  }

  lemma {:induction false} PopAllFrame(s: VState, ts: seq<ValType>)
    requires WF(s) && s.ctrls != [] && PopAll(s, ts).Some?
    ensures var r := PopAll(s, ts).value;
      && WF(r) && r.ctrls == s.ctrls && r.maxStack == s.maxStack
      && s.Top().height <= |r.stack| <= |s.stack| && r.stack == s.stack[..|r.stack|]
    decreases |ts|
  {
    if ts != [] {
      var s1 := Pop(s, Known(ts[|ts| - 1])).value;
      PopAllFrame(s1, ts[..|ts| - 1]);
    }
  }

  lemma {:induction false} PushAllFrame(s: VState, ts: seq<ValType>)
    requires WF(s) && s.ctrls != [] && PushAll(s, ts).Some?
    ensures var r := PushAll(s, ts).value;
      && WF(r) && r.ctrls == s.ctrls && r.stack == s.stack + Knowns(ts) && s.maxStack <= r.maxStack
    decreases |ts|
  {
    if ts == [] {
      assert s.stack + Knowns(ts) == s.stack;
    } else {
      var s1 := Push(s, Known(ts[0])).value;
      PushAllFrame(s1, ts[1..]);
      assert s.stack + Knowns(ts) == s1.stack + Knowns(ts[1..]);
    }
  }

  predicate AllKnown(st: seq<StackType>) { forall i :: 0 <= i < |st| ==> st[i].Known? }

  /** In reachable code popping is exact: the types were on the stack. */
  lemma {:induction false} PopAllReachable(s: VState, ts: seq<ValType>)
    requires WF(s) && s.ctrls != [] && !s.Top().unreachable && AllKnown(s.stack)
    requires PopAll(s, ts).Some?
    ensures var r := PopAll(s, ts).value;
      WF(r) && r.ctrls == s.ctrls && AllKnown(r.stack) && s.stack == r.stack + Knowns(ts)
    decreases |ts|
  {
    if ts == [] {
      assert s.stack == s.stack + Knowns(ts);
    } else {
      var n := |ts| - 1;
      var s1 := Pop(s, Known(ts[n])).value;
      assert s.stack == s1.stack + [Known(ts[n])];
      PopAllReachable(s1, ts[..n]);
      var r := PopAll(s, ts).value;
      assert Knowns(ts) == Knowns(ts[..n]) + [Known(ts[n])];
      assert s.stack == r.stack + Knowns(ts);
    }
  }

  /** The step keeps the innermost construct's identity, everything around it, and
      the operands below it. */
  predicate Keeps(s: VState, r: VState) {
    var n := |s.ctrls| - 1;
    && WF(r) && s.maxStack <= r.maxStack
    && 0 <= n < |r.ctrls| && r.ctrls[..n] == s.ctrls[..n] && SameConstruct(r.ctrls[n], s.ctrls[n])
    && s.Top().height <= |s.stack| && s.Top().height <= |r.stack|
    && r.stack[..s.Top().height] == s.stack[..s.Top().height]
  }

  predicate SameElse(s: VState, r: VState) {
    0 < |s.ctrls| <= |r.ctrls| && r.ctrls[|s.ctrls| - 1].hasElse == s.ctrls[|s.ctrls| - 1].hasElse
  }

  lemma {:induction false} PopPushFrame(s: VState, ins: seq<ValType>, outs: seq<ValType>)
    requires WF(s) && s.ctrls != [] && PopPush(s, ins, outs).Some?
    ensures var r := PopPush(s, ins, outs).value; r.ctrls == s.ctrls && Keeps(s, r) && SameElse(s, r)
  {
    PopAllFrame(s, ins);
    PushAllFrame(PopAll(s, ins).value, outs);
  }

  lemma {:induction false} SelectFrame(s: VState)
    requires WF(s) && s.ctrls != [] && ValidateSelect(s).Some?
    ensures var r := ValidateSelect(s).value; r.ctrls == s.ctrls && Keeps(s, r) && SameElse(s, r)
  {
  }

  lemma {:induction false} PlainFrame(m: Module, locals: seq<ValType>, p: Plain, s: VState)
    requires WF(s) && s.ctrls != [] && ValidatePlain(m, locals, p, s).Some?
    ensures var r := ValidatePlain(m, locals, p, s).value; r.ctrls == s.ctrls && Keeps(s, r) && SameElse(s, r)
  {
    if p.Select? {
      SelectFrame(s);
    } else if !p.Drop? {
      var sig := Signature(m, locals, p).value;
      PopPushFrame(s, sig.0, sig.1);
    }
  }

  lemma {:induction false} PopAndMarkFrame(s: VState, ts: seq<ValType>)
    requires WF(s) && s.ctrls != [] && PopAndMark(s, ts).Some?
    ensures var r := PopAndMark(s, ts).value; |r.ctrls| == |s.ctrls| && Keeps(s, r) && SameElse(s, r)
  {
    PopAllFrame(s, ts);
  }

  /** `End` restores the operands below the construct and pushes its results. */
  lemma {:induction false} EndFrame(s: VState)
    requires WF(s) && EndCtrl(s).Some?
    ensures var r := EndCtrl(s).value;
      && s.ctrls != [] && WF(r) && s.maxStack <= r.maxStack
      && r.ctrls == s.ctrls[..|s.ctrls| - 1]
      && (s.Top().block.Some? && |s.ctrls| > 1 ==>
            s.Top().height <= |s.stack| && r.stack == s.stack[..s.Top().height] + Knowns(s.Top().ends))
  {
    var c := s.Top();
    PopAllFrame(s, c.ends);
    var s2 := FinishCtrl(s).value.(ctrls := s.ctrls[..|s.ctrls| - 1]);
    if |s.ctrls| > 1 {
      assert s2.Top().height <= c.height;
      if c.block.Some? { PushAllFrame(s2, c.ends); }
    }
  }

  lemma {:induction false} ElseFrame(s: VState)
    requires WF(s) && EnterElse(s).Some?
    ensures var r := EnterElse(s).value;
      && Keeps(s, r) && |r.ctrls| == |s.ctrls|
      && r.Top().hasElse && !s.Top().hasElse && s.Top().block == Some(IfK)
      && r.stack == s.stack[..s.Top().height]
  {
    PopAllFrame(s, s.Top().ends);
  }

  lemma {:induction false} PopKeeps(s: VState, t: StackType, r: VState)
    requires WF(s) && s.ctrls != [] && Pop(s, t).Some? && Keeps(Pop(s, t).value, r)
    ensures Keeps(s, r) && Pop(s, t).value.ctrls == s.ctrls && WF(Pop(s, t).value)
  {
    var s1, h := Pop(s, t).value, s.Top().height;
    assert s1.stack[..h] == s.stack[..h];
  }

  lemma {:induction false} BranchTableKeeps(s: VState, targets: seq<nat>)
    requires WF(s) && s.ctrls != [] && targets != [] && ValidateBranchTable(s, targets).Some?
    ensures var r := ValidateBranchTable(s, targets).value;
      |r.ctrls| == |s.ctrls| && Keeps(s, r) && SameElse(s, r)
  {
    var s1 := Pop(s, Known(I32)).value;
    var ts := LabelCtrl(s1, targets[|targets| - 1]).value.LabelTypes();
    PopAndMarkFrame(s1, ts);
    PopKeeps(s, Known(I32), PopAndMark(s1, ts).value);
  }

  lemma {:induction false} PopPopPushFrame(s: VState, t: StackType, ins: seq<ValType>, outs: seq<ValType>)
    requires WF(s) && s.ctrls != [] && Pop(s, t).Some? && PopPush(Pop(s, t).value, ins, outs).Some?
    ensures var r := PopPush(Pop(s, t).value, ins, outs).value;
      r.ctrls == s.ctrls && Keeps(s, r) && SameElse(s, r)
  {
    PopPushFrame(Pop(s, t).value, ins, outs);
    PopKeeps(s, t, PopPush(Pop(s, t).value, ins, outs).value);
  }

  /** A branch, a call or a plain instruction. */
  lemma {:induction false} FlatStepKeeps(m: Module, ft: FuncType, fn: Func, i: Instr, s: VState)
    requires WF(s) && ValidateInstr(m, ft, fn, i, s).Some?
    requires !i.End? && !i.Else? && !i.Open?
    ensures var r := ValidateInstr(m, ft, fn, i, s).value;
      |r.ctrls| == |s.ctrls| && Keeps(s, r) && SameElse(s, r)
  {
    match i
    case Unreachable => PopAndMarkFrame(s, []);
    case Br(depth) => PopAndMarkFrame(s, LabelCtrl(s, depth).value.LabelTypes());
    case BrIf(depth) =>
      var ts := LabelCtrl(s, depth).value.LabelTypes();
      PopPopPushFrame(s, Known(I32), ts, ts);
    case BrTable(first, count) => BranchTableKeeps(s, m.Targets(fn, first, count).value);
    case Return => PopAndMarkFrame(s, s.ctrls[0].ends);
    case Call(f) =>
      var callee := m.TypeOf(f).value;
      PopPushFrame(s, callee.params, callee.results);
    case CallIndirect(ti, _) =>
      PopPopPushFrame(s, Known(I32), m.types[ti].params, m.types[ti].results);
    case Do(p) => PlainFrame(m, ft.params + fn.locals, p, s);
  }

  lemma {:induction false} OpenKeeps(s: VState, kind: BlockKind, bt: BlockType)
    requires WF(s) && s.ctrls != []
    requires kind == IfK ==> Pop(s, Known(I32)).Some?
    requires PushCtrl(if kind == IfK then Pop(s, Known(I32)).value else s, kind, bt).Some?
    ensures var s1 := if kind == IfK then Pop(s, Known(I32)).value else s;
      var r := PushCtrl(s1, kind, bt).value;
      && Keeps(s, r) && SameElse(s, r) && r.stack == s1.stack
      && r.ctrls == s.ctrls + [Ctrl(Some(kind), |s1.stack|, BlockResults(bt), s.Top().unreachable, false)]
  {
  }

  /** What a step keeps of the construct at index d of the control stack. */
  predicate KeepsAt(s: VState, r: VState, d: nat)
    requires d < |s.ctrls|
  {
    var h := s.ctrls[d].height;
    && d < |r.ctrls| && r.ctrls[..d] == s.ctrls[..d] && SameConstruct(r.ctrls[d], s.ctrls[d])
    && h <= |s.stack| && h <= |r.stack| && r.stack[..h] == s.stack[..h]
  }

  lemma {:induction false} KeepsOuter(s: VState, r: VState, d: nat)
    requires WF(s) && Keeps(s, r) && d < |s.ctrls|
    ensures KeepsAt(s, r, d)
    ensures d + 1 < |s.ctrls| ==> r.ctrls[d] == s.ctrls[d]
  {
    var n, h := |s.ctrls| - 1, s.ctrls[d].height;
    assert s.stack[..h] == s.stack[..s.Top().height][..h];
    assert r.stack[..h] == r.stack[..s.Top().height][..h];
    if d < n {
      assert r.ctrls[..n][..d] == r.ctrls[..d] && s.ctrls[..n][..d] == s.ctrls[..d];
      assert r.ctrls[d] == r.ctrls[..n][d] == s.ctrls[..n][d] == s.ctrls[d];
    }
  }

  /** An instruction keeps every construct that encloses it: its identity, and the
      operands below it. Only its own `else` sets its else flag. */
  lemma {:induction false} StepKeeps(m: Module, ft: FuncType, fn: Func, i: Instr, s: VState, d: nat)
    requires WF(s) && ValidateInstr(m, ft, fn, i, s).Some? && d < |s.ctrls|
    requires i.End? ==> d + 1 < |s.ctrls|
    ensures var r := ValidateInstr(m, ft, fn, i, s).value;
      && WF(r) && s.maxStack <= r.maxStack && KeepsAt(s, r, d)
      && (r.ctrls[d].hasElse ==> s.ctrls[d].hasElse || (i.Else? && |s.ctrls| == d + 1))
  {
    var r := ValidateInstr(m, ft, fn, i, s).value;
    match i {
      case End =>
        EndFrame(s);
        assert r.ctrls[..d] == s.ctrls[..d];
        var h := s.ctrls[d].height;
        assert h <= s.Top().height;
        if s.Top().block.Some? {
          assert r.stack[..h] == s.stack[..h];
        }
      case Else => ElseFrame(s); KeepsOuter(s, r, d);
      case Open(kind, bt, _, _) => OpenKeeps(s, kind, bt); KeepsOuter(s, r, d);
      case _ => FlatStepKeeps(m, ft, fn, i, s); KeepsOuter(s, r, d);
    }
  }
}
