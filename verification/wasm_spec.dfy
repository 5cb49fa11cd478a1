/** The validation algorithm in the appendix of the WebAssembly specification, which knows no
    limits, against the engine's: where the limits and the inherited flag make them differ. */
module WasmSpec {
  import opened Options
  import opened WasmSyntax
  import opened WasmValidation
  import opened WasmValidationFacts
  import opened WasmStrict

  // ---- the specification's algorithm ----

  function SpecPop(s: VState, t: StackType): Option<VState>
    requires s.ctrls != []
  {
    if |s.stack| <= s.Top().height then
      if s.Top().unreachable then Some(s) else None
    else if !Compatible(s.stack[|s.stack| - 1], t) then None
    else Some(s.(stack := s.stack[..|s.stack| - 1]))
  }

  function SpecPopAll(s: VState, ts: seq<ValType>): (r: Option<VState>)
    requires s.ctrls != []
    ensures r.Some? ==> r.value.ctrls == s.ctrls
    decreases |ts|
  {
    if ts == [] then Some(s) else
    var s1 :- SpecPop(s, Known(ts[|ts| - 1]));
    SpecPopAll(s1, ts[..|ts| - 1])
  }

  /** `maxStack` records the highest stack so far. */
  function SpecPush(s: VState, ts: seq<StackType>): VState {
    if ts == [] then s else s.(stack := s.stack + ts, maxStack := Max(s.maxStack, |s.stack| + |ts|))
  }

  function SpecPopPush(s: VState, ins: seq<ValType>, outs: seq<ValType>): Option<VState>
    requires s.ctrls != []
  {
    var s1 :- SpecPopAll(s, ins);
    Some(SpecPush(s1, Knowns(outs)))
  }

  /** The operand on top; `Bottom` stands for an operand that unreachable code makes up. */
  function SpecTop(s: VState): StackType
    requires s.ctrls != []
  {
    if |s.stack| <= s.Top().height then Bottom else s.stack[|s.stack| - 1]
  }

  function SpecSelect(s: VState): Option<VState>
    requires s.ctrls != []
  {
    var s1 :- SpecPop(s, Known(I32));
    var right := SpecTop(s1);
    var s2 :- SpecPop(s1, Bottom);
    var left := SpecTop(s2);
    var s3 :- SpecPop(s2, Bottom);
    if left.Known? && right.Known? && left != right then None
    else Some(SpecPush(s3, [if left.Known? then left else right]))
  }

  /** Pops the results of the innermost construct, which must then have nothing left. */
  function SpecFinish(s: VState): Option<VState>
    requires s.ctrls != []
  {
    var s1 :- SpecPopAll(s, s.Top().ends);
    if |s1.stack| != s.Top().height then None else Some(s1)
  }

  function SpecEnd(s: VState): Option<VState>
    requires s.ctrls != []
  {
    var c := s.Top();
    if c.block == Some(IfK) && !c.hasElse && c.ends != [] then None else
    var s1 :- SpecFinish(s);
    var s2 := s1.(ctrls := s.ctrls[..|s.ctrls| - 1]);
    Some(if c.block.None? then s2 else SpecPush(s2, Knowns(c.ends)))
  }

  function SpecElse(s: VState): Option<VState>
    requires s.ctrls != []
  {
    var c := s.Top();
    if c.block != Some(IfK) || c.hasElse then None else
    var s1 :- SpecFinish(s);
    Some(s1.(ctrls := s.ctrls[|s.ctrls| - 1 := c.(hasElse := true, unreachable := false)]))
  }

  function SpecOpen(s: VState, kind: BlockKind, bt: BlockType): Option<VState>
    requires s.ctrls != []
  {
    var s1 :- (if kind == IfK then SpecPop(s, Known(I32)) else Some(s));
    Some(s1.(ctrls := s1.ctrls + [Ctrl(Some(kind), |s1.stack|, BlockResults(bt), false, false)]))
  }

  function SpecJump(s: VState, ts: seq<ValType>): Option<VState>
    requires s.ctrls != []
  {
    var s1 :- SpecPopAll(s, ts);
    Some(MarkUnreachable(s1))
  }

  function SpecTable(s: VState, targets: seq<nat>): Option<VState>
    requires s.ctrls != [] && targets != []
  {
    var s1 :- SpecPop(s, Known(I32));
    var dflt :- LabelCtrl(s1, targets[|targets| - 1]);
    if !SameLabels(s1, targets, dflt.LabelTypes()) then None else SpecJump(s1, dflt.LabelTypes())
  }

  function SpecInstr(m: Module, ft: FuncType, fn: Func, i: Instr, s: VState): Option<VState> {
    if s.ctrls == [] then None else
    match i
    case Unreachable => Some(MarkUnreachable(s))
    case Open(kind, bt, _, _) => SpecOpen(s, kind, bt)
    case Else => SpecElse(s)
    case End => SpecEnd(s)
    case Br(depth) =>
      var c :- LabelCtrl(s, depth);
      SpecJump(s, c.LabelTypes())
    case BrIf(depth) =>
      var c :- LabelCtrl(s, depth);
      var s1 :- SpecPop(s, Known(I32));
      SpecPopPush(s1, c.LabelTypes(), c.LabelTypes())
    case BrTable(first, count) =>
      var targets :- m.Targets(fn, first, count);
      SpecTable(s, targets)
    case Return => SpecJump(s, s.ctrls[0].ends)
    case Call(f) =>
      var callee :- m.TypeOf(f);
      SpecPopPush(s, callee.params, callee.results)
    case CallIndirect(ti, table) =>
      if table != 0 || !m.hasTable || ti >= |m.types| then None else
      var s1 :- SpecPop(s, Known(I32));
      SpecPopPush(s1, m.types[ti].params, m.types[ti].results)
    case Do(p) =>
      if p.Drop? then SpecPop(s, Bottom)
      else if p.Select? then SpecSelect(s)
      else
        var sig :- Signature(m, ft.params + fn.locals, p);
        SpecPopPush(s, sig.0, sig.1)
  }

  function SpecAt(m: Module, ft: FuncType, fn: Func, pc: nat): Option<VState>
    requires pc <= |fn.code|
  {
    if pc == 0 then Some(InitialState(ft)) else
    var s :- SpecAt(m, ft, fn, pc - 1);
    SpecInstr(m, ft, fn, fn.code[pc - 1], s)
  }

  predicate SpecAccepts(m: Module, ft: FuncType, fn: Func) {
    SpecAt(m, ft, fn, |fn.code|).Some? && SpecAt(m, ft, fn, |fn.code|).value.ctrls == []
  }

  // ---- the engine's limits ----

  /** At most 16384 operands and 4096 open constructs. */
  predicate Fits(s: VState) { |s.stack| <= MAX_TYPE_STACK && |s.ctrls| <= MAX_CONTROL_DEPTH }

  predicate FitsAt(m: Module, ft: FuncType, fn: Func, pc: nat)
    requires pc <= |fn.code|
  {
    SpecAt(m, ft, fn, pc).Some? ==> Fits(SpecAt(m, ft, fn, pc).value)
  }

  /** What the engine reports for a strict outcome. */
  function Limited(r: Option<VState>): Option<VState> {
    if r.Some? && Fits(r.value) then r else None
  }

  /** Control heights grow inward, and the function is the outermost construct and the only one
      without a block. */
  predicate Nested(s: VState) {
    && (forall i, j :: 0 <= i <= j < |s.ctrls| ==> s.ctrls[i].height <= s.ctrls[j].height)
    && (s.ctrls != [] ==> s.Top().height <= |s.stack|)
    && (forall k {:trigger s.ctrls[k]} :: 0 <= k < |s.ctrls| ==> (s.ctrls[k].block.None? <==> k == 0))
  }

  /** r is s with operands taken off. */
  predicate Lower(s: VState, r: VState)
    requires s.ctrls != []
  {
    r.ctrls == s.ctrls && r.maxStack == s.maxStack && s.Top().height <= |r.stack| <= |s.stack|
  }

  lemma {:induction false} PopIs(s: VState, t: StackType)
    requires s.ctrls != [] && s.Top().height <= |s.stack|
    ensures SpecPop(s, t) == Pop(s, t) && (Pop(s, t).Some? ==> Lower(s, Pop(s, t).value))
  {
  }

  lemma {:induction false} PopAllIs(s: VState, ts: seq<ValType>)
    requires s.ctrls != [] && s.Top().height <= |s.stack|
    ensures SpecPopAll(s, ts) == PopAll(s, ts) && (PopAll(s, ts).Some? ==> Lower(s, PopAll(s, ts).value))
    decreases |ts|
  {
    if ts != [] {
      PopIs(s, Known(ts[|ts| - 1]));
      if Pop(s, Known(ts[|ts| - 1])).Some? { PopAllIs(Pop(s, Known(ts[|ts| - 1])).value, ts[..|ts| - 1]); }
    }
  }

  lemma {:induction false} PushAllIs(s: VState, ts: seq<ValType>)
    requires s.ctrls != [] && s.Top().height <= |s.stack| <= MAX_TYPE_STACK
    ensures PushAll(s, ts) == if |s.stack| + |ts| <= MAX_TYPE_STACK then Some(SpecPush(s, Knowns(ts))) else None
    decreases |ts|
  {
    if ts != [] && |s.stack| < MAX_TYPE_STACK {
      var s1 := Push(s, Known(ts[0])).value;
      PushAllIs(s1, ts[1..]);
      assert Knowns(ts) == [Known(ts[0])] + Knowns(ts[1..]);
      assert s.stack + Knowns(ts) == s1.stack + Knowns(ts[1..]);
      assert |Knowns(ts[1..])| == |ts| - 1;
      assert SpecPush(s, Knowns(ts)) == SpecPush(s1, Knowns(ts[1..]));
    }
  }

  lemma {:induction false} PopPushIs(s: VState, ins: seq<ValType>, outs: seq<ValType>)
    requires s.ctrls != [] && s.Top().height <= |s.stack| && Fits(s)
    ensures PopPush(s, ins, outs) == Limited(SpecPopPush(s, ins, outs))
    ensures PopPush(s, ins, outs).Some? ==> Above(s, PopPush(s, ins, outs).value)
  {
    PopAllIs(s, ins);
    if PopAll(s, ins).Some? { PushAllIs(PopAll(s, ins).value, outs); }
  }

  /** The constructs stay and nothing below the innermost was touched. */
  predicate Above(s: VState, r: VState)
    requires s.ctrls != []
  {
    r.ctrls == s.ctrls && s.Top().height <= |r.stack|
  }

  lemma {:induction false} SelectIs(s: VState)
    requires s.ctrls != [] && s.Top().height <= |s.stack| && Fits(s)
    ensures ValidateSelect(s) == Limited(SpecSelect(s))
    ensures ValidateSelect(s).Some? ==> Above(s, ValidateSelect(s).value)
  {
    PopIs(s, Known(I32));
    if Pop(s, Known(I32)).Some? {
      var s1 := Pop(s, Known(I32)).value;
      PopAnyIs(s1);
      if PopAny(s1).Some? {
        var s2 := PopAny(s1).value.0;
        PopAnyIs(s2);
      }
    }
  }

  lemma {:induction false} PopAnyIs(s: VState)
    requires s.ctrls != [] && s.Top().height <= |s.stack|
    ensures PopAny(s) == if SpecPop(s, Bottom).Some? then Some((SpecPop(s, Bottom).value, SpecTop(s))) else None
    ensures PopAny(s).Some? ==> Lower(s, PopAny(s).value.0)
  {
  }

  lemma {:induction false} JumpIs(s: VState, ts: seq<ValType>)
    requires s.ctrls != [] && s.Top().height <= |s.stack|
    ensures PopAndMark(s, ts) == SpecJump(s, ts)
    ensures PopAndMark(s, ts).Some? ==> Marked(s, PopAndMark(s, ts).value)
  {
    PopAllIs(s, ts);
  }

  /** The innermost construct has become unreachable. */
  predicate Marked(s: VState, r: VState)
    requires s.ctrls != []
  {
    var n := |s.ctrls| - 1;
    r.ctrls == s.ctrls[n := s.ctrls[n].(unreachable := true)] && s.Top().height == |r.stack| <= |s.stack|
  }

  lemma {:induction false} MarkNests(s: VState, r: VState)
    requires s.ctrls != [] && Nested(s) && Fits(s) && (Marked(s, r) || (Above(s, r) && Fits(r)))
    ensures Nested(r) && Fits(r)
  {
    assert forall k :: 0 <= k < |s.ctrls| ==> r.ctrls[k].height == s.ctrls[k].height && r.ctrls[k].block == s.ctrls[k].block;
  }

  lemma {:induction false} FinishIs(s: VState)
    requires s.ctrls != [] && s.Top().height <= |s.stack|
    ensures FinishCtrl(s) == SpecFinish(s)
    ensures FinishCtrl(s).Some? ==> Lower(s, FinishCtrl(s).value) && |FinishCtrl(s).value.stack| == s.Top().height
  {
    PopAllIs(s, s.Top().ends);
  }

  lemma {:induction false} EndIs(s: VState)
    requires s.ctrls != [] && Nested(s) && Fits(s)
    ensures EndCtrl(s) == Limited(SpecEnd(s))
    ensures EndCtrl(s).Some? ==> Nested(EndCtrl(s).value)
  {
    FinishIs(s);
    if FinishCtrl(s).Some? && s.Top().block.Some? {
      var s2 := FinishCtrl(s).value.(ctrls := s.ctrls[..|s.ctrls| - 1]);
      assert s2.ctrls != [] && s2.Top() == s.ctrls[|s.ctrls| - 2];
      PushAllIs(s2, s.Top().ends);
    }
  }

  lemma {:induction false} ElseIs(s: VState)
    requires s.ctrls != [] && Nested(s) && Fits(s)
    ensures StrictElse(s) == Limited(SpecElse(s))
    ensures StrictElse(s).Some? ==> Nested(StrictElse(s).value)
  {
    FinishIs(s);
    if StrictElse(s).Some? {
      var r := StrictElse(s).value;
      assert forall k :: 0 <= k < |s.ctrls| ==> r.ctrls[k].height == s.ctrls[k].height && r.ctrls[k].block == s.ctrls[k].block;
    }
  }

  lemma {:induction false} OpenIs(s: VState, kind: BlockKind, bt: BlockType)
    requires s.ctrls != [] && Nested(s) && Fits(s)
    ensures StrictOpen(s, kind, bt) == Limited(SpecOpen(s, kind, bt))
    ensures StrictOpen(s, kind, bt).Some? ==> Nested(StrictOpen(s, kind, bt).value)
  {
    PopIs(s, Known(I32));
  }

  lemma {:induction false} TableIs(s: VState, targets: seq<nat>)
    requires s.ctrls != [] && s.Top().height <= |s.stack| && targets != []
    ensures ValidateBranchTable(s, targets) == SpecTable(s, targets)
    ensures ValidateBranchTable(s, targets).Some? ==> Marked(s, ValidateBranchTable(s, targets).value)
  {
    PopIs(s, Known(I32));
    if Pop(s, Known(I32)).Some? {
      var s1 := Pop(s, Known(I32)).value;
      var c := LabelCtrl(s1, targets[|targets| - 1]);
      if c.Some? { JumpIs(s1, c.value.LabelTypes()); }
    }
  }

  // ---- one instruction ----

  predicate StepIs(m: Module, ft: FuncType, fn: Func, i: Instr, s: VState) {
    var r := StrictInstr(m, ft, fn, i, s);
    r == Limited(SpecInstr(m, ft, fn, i, s)) && (r.Some? ==> Nested(r.value))
  }

  lemma {:induction false} LeaveIs(m: Module, ft: FuncType, fn: Func, i: Instr, s: VState)
    requires s.ctrls != [] && Nested(s) && Fits(s) && (i.Unreachable? || i.Br? || i.BrTable? || i.Return?)
    ensures StepIs(m, ft, fn, i, s)
  {
    match i
    case Unreachable => MarkNests(s, MarkUnreachable(s));
    case Br(depth) =>
      var c := LabelCtrl(s, depth);
      if c.Some? { JumpsTo(s, c.value.LabelTypes()); }
    case BrTable(first, count) =>
      var targets := m.Targets(fn, first, count);
      if targets.Some? {
        TableIs(s, targets.value);
        var r := ValidateBranchTable(s, targets.value);
        if r.Some? { MarkNests(s, r.value); }
      }
    case Return => JumpsTo(s, s.ctrls[0].ends);
  }

  lemma {:induction false} JumpsTo(s: VState, ts: seq<ValType>)
    requires s.ctrls != [] && Nested(s) && Fits(s)
    ensures PopAndMark(s, ts) == Limited(SpecJump(s, ts)) && (PopAndMark(s, ts).Some? ==> Nested(PopAndMark(s, ts).value))
  {
    JumpIs(s, ts);
    if PopAndMark(s, ts).Some? { MarkNests(s, PopAndMark(s, ts).value); }
  }

  lemma {:induction false} ThenIs(s: VState, ins: seq<ValType>, outs: seq<ValType>)
    requires s.ctrls != [] && Nested(s) && Fits(s)
    ensures var s1, r1 := Pop(s, Known(I32)), SpecPop(s, Known(I32));
      && s1 == r1
      && (s1.Some? ==> s1.value.ctrls == s.ctrls && PopPush(s1.value, ins, outs) == Limited(SpecPopPush(s1.value, ins, outs)))
      && (s1.Some? && PopPush(s1.value, ins, outs).Some? ==> Nested(PopPush(s1.value, ins, outs).value))
  {
    PopIs(s, Known(I32));
    if Pop(s, Known(I32)).Some? { ReplacesOf(Pop(s, Known(I32)).value, ins, outs); }
  }

  lemma {:induction false} ReplacesOf(s: VState, ins: seq<ValType>, outs: seq<ValType>)
    requires s.ctrls != [] && Nested(s) && Fits(s)
    ensures PopPush(s, ins, outs) == Limited(SpecPopPush(s, ins, outs))
    ensures PopPush(s, ins, outs).Some? ==> Nested(PopPush(s, ins, outs).value)
  {
    PopPushIs(s, ins, outs);
    if PopPush(s, ins, outs).Some? { MarkNests(s, PopPush(s, ins, outs).value); }
  }

  lemma {:induction false} CallIs(m: Module, ft: FuncType, fn: Func, i: Instr, s: VState)
    requires s.ctrls != [] && Nested(s) && Fits(s) && (i.BrIf? || i.Call? || i.CallIndirect?)
    ensures StepIs(m, ft, fn, i, s)
  {
    match i
    case BrIf(depth) =>
      var c := LabelCtrl(s, depth);
      if c.Some? { ThenIs(s, c.value.LabelTypes(), c.value.LabelTypes()); }
    case Call(f) =>
      var callee := m.TypeOf(f);
      if callee.Some? { ReplacesOf(s, callee.value.params, callee.value.results); }
    case CallIndirect(ti, _) =>
      if ti < |m.types| { ThenIs(s, m.types[ti].params, m.types[ti].results); }
  }

  lemma {:induction false} PlainIs(m: Module, ft: FuncType, fn: Func, i: Instr, s: VState)
    requires s.ctrls != [] && Nested(s) && Fits(s) && i.Do?
    ensures StepIs(m, ft, fn, i, s)
  {
    if i.op.Drop? {
      PopIs(s, Bottom);
      if Pop(s, Bottom).Some? { MarkNests(s, Pop(s, Bottom).value); }
    } else if i.op.Select? {
      SelectIs(s);
      if ValidateSelect(s).Some? { MarkNests(s, ValidateSelect(s).value); }
    } else {
      var sig := Signature(m, ft.params + fn.locals, i.op);
      if sig.Some? { ReplacesOf(s, sig.value.0, sig.value.1); }
    }
  }

  /** The strict rule is the specification's, cut off at the engine's limits. */
  lemma {:induction false} InstrIs(m: Module, ft: FuncType, fn: Func, i: Instr, s: VState)
    requires Nested(s) && Fits(s)
    ensures StepIs(m, ft, fn, i, s)
  {
    if s.ctrls != [] {
      match i
      case Open(kind, bt, _, _) => OpenIs(s, kind, bt);
      case Else => ElseIs(s);
      case End => EndIs(s);
      case Do(_) => PlainIs(m, ft, fn, i, s);
      case BrIf(_) => CallIs(m, ft, fn, i, s);
      case Call(_) => CallIs(m, ft, fn, i, s);
      case CallIndirect(_, _) => CallIs(m, ft, fn, i, s);
      case _ => LeaveIs(m, ft, fn, i, s);
    }
  }

  // ---- whole bodies ----

  function FittingAt(m: Module, ft: FuncType, fn: Func): nat -> bool {
    (pc: nat) => pc <= |fn.code| && !FitsAt(m, ft, fn, pc)
  }

  lemma {:induction false} StrictIsSpec(m: Module, ft: FuncType, fn: Func, pc: nat)
    requires pc <= |fn.code|
    ensures StrictAt(m, ft, fn, pc) == if Never(FittingAt(m, ft, fn), pc + 1) then SpecAt(m, ft, fn, pc) else None
    ensures StrictAt(m, ft, fn, pc).Some? ==> Nested(StrictAt(m, ft, fn, pc).value) && Fits(StrictAt(m, ft, fn, pc).value)
  {
    if pc > 0 {
      StrictIsSpec(m, ft, fn, pc - 1);
      var s := StrictAt(m, ft, fn, pc - 1);
      if s.Some? { InstrIs(m, ft, fn, fn.code[pc - 1], s.value); }
    }
  }

  /** The engine's limits: 16 parameters, 4 results, a million instructions, 16384 operands and
      4096 open constructs at every point. */
  predicate Small(m: Module, ft: FuncType, fn: Func) {
    FuncTypeOk(ft) && |fn.code| <= MAX_INSTRUCTIONS && forall pc :: 0 <= pc <= |fn.code| ==> FitsAt(m, ft, fn, pc)
  }

  /** The engine accepts a body and nothing in it borrows, exactly when the specification accepts
      it and it is within the engine's limits; the recorded bound is then the highest stack. */
  lemma {:induction false} SpecIff(m: Module, ft: FuncType, fn: Func)
    ensures (Accepts(m, ft, fn) && forall pc :: 0 <= pc < |fn.code| ==> !Borrows(m, ft, fn, pc)) <==>
      (SpecAccepts(m, ft, fn) && Small(m, ft, fn) && fn.maxStack == SpecAt(m, ft, fn, |fn.code|).value.maxStack)
  {
    StrictIff(m, ft, fn);
    StrictIsSpec(m, ft, fn, |fn.code|);
    NeverIff(FittingAt(m, ft, fn), |fn.code| + 1);
    assert forall pc: nat :: pc <= |fn.code| ==> FittingAt(m, ft, fn)(pc) == !FitsAt(m, ft, fn, pc);
  }

  /** Once the specification has rejected an instruction, the body is rejected. */
  lemma {:induction false} Rejected(m: Module, ft: FuncType, fn: Func, pc: nat, n: nat)
    requires pc <= n <= |fn.code| && SpecAt(m, ft, fn, pc).None?
    ensures SpecAt(m, ft, fn, n).None?
    decreases n
  {
    if pc < n { Rejected(m, ft, fn, pc, n - 1); }
  }

  /** `unreachable block i32.add drop end end`, in any module: the engine accepts it, the
      specification does not. */
  lemma {:induction false} SpecRejectsExample(m: Module, fn: Func)
    requires fn.code == EXAMPLE && fn.maxStack == 1
    ensures Accepts(m, FuncType([], []), fn) && !SpecAccepts(m, FuncType([], []), fn)
  {
    var ft := FuncType([], []);
    BorrowExample(m, fn);
    var body, inner := Ctrl(None, 0, [], true, false), Ctrl(Some(BlockK), 0, [], false, false);
    assert InitialState(ft).ctrls[0 := body] == [body];
    assert SpecAt(m, ft, fn, 0) == Some(InitialState(ft)) && SpecAt(m, ft, fn, 1) == Some(VState([], [body], 0));
    assert [body] + [inner] == [body, inner];
    assert SpecAt(m, ft, fn, 2) == Some(VState([], [body, inner], 0));
    AddRejected(m, ft, fn, VState([], [body, inner], 0));
    assert SpecAt(m, ft, fn, 3) == None;
    Rejected(m, ft, fn, 3, 6);
  }

  lemma {:induction false} AddRejected(m: Module, ft: FuncType, fn: Func, s: VState)
    requires s.ctrls != [] && !s.Top().unreachable && s.stack == []
    ensures SpecInstr(m, ft, fn, EXAMPLE[2], s) == None
  {
    assert SpecPopAll(s, [I32, I32]) == None;
  }
}
