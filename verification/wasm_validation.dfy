/** The one-pass type checker of function bodies (`ValidationContext`). */
module WasmValidation {
  import opened Options
  import opened WasmNumerics
  import opened WasmSyntax

  const MAX_TYPE_STACK: nat := 16384
  const MAX_CONTROL_DEPTH: nat := 4096
  const MAX_INSTRUCTIONS: nat := 1000000

  /** An operand type; `Bottom` only appears in unreachable code. */
  datatype StackType = Bottom | Known(t: ValType)

  /** An open control construct. `block` is None for the function itself. */
  datatype Ctrl = Ctrl(
    block: Option<BlockKind>,
    height: nat,
    ends: seq<ValType>,
    unreachable: bool,
    hasElse: bool)
  {
    /** What a branch to this label carries: nothing for a loop. */
    function LabelTypes(): seq<ValType> { if block == Some(LoopK) then [] else ends }
  }

  datatype VState = VState(stack: seq<StackType>, ctrls: seq<Ctrl>, maxStack: nat) {
    function Top(): Ctrl
      requires ctrls != []
    { ctrls[|ctrls| - 1] }
  }

  function Compatible(actual: StackType, expected: StackType): bool {
    actual.Bottom? || expected.Bottom? || actual == expected
  }

  function Max(a: nat, b: nat): nat { if a < b then b else a }

  function Push(s: VState, t: StackType): Option<VState> {
    if s.ctrls == [] || |s.stack| < s.Top().height || |s.stack| >= MAX_TYPE_STACK then None
    else Some(s.(stack := s.stack + [t], maxStack := Max(s.maxStack, |s.stack| + 1)))
  }

  function Pop(s: VState, expected: StackType): Option<VState> {
    if s.ctrls == [] || |s.stack| < s.Top().height then None
    else if |s.stack| == s.Top().height then
      if s.Top().unreachable then Some(s) else None
    else if !Compatible(s.stack[|s.stack| - 1], expected) then None
    else Some(s.(stack := s.stack[..|s.stack| - 1]))
  }

  /** Pops the types of `ts`, the last one first. */
  function PopAll(s: VState, ts: seq<ValType>): Option<VState>
    decreases |ts|
  {
    if ts == [] then Some(s) else
    var s1 :- Pop(s, Known(ts[|ts| - 1]));
    PopAll(s1, ts[..|ts| - 1])
  }

  function PushAll(s: VState, ts: seq<ValType>): Option<VState>
    decreases |ts|
  {
    if ts == [] then Some(s) else
    var s1 :- Push(s, Known(ts[0]));
    PushAll(s1, ts[1..])
  }

  function PopPush(s: VState, ins: seq<ValType>, outs: seq<ValType>): Option<VState> {
    var s1 :- PopAll(s, ins);
    PushAll(s1, outs)
  }

  /** Pops whatever is there; `Bottom` when unreachable code has run dry. */
  function PopAny(s: VState): Option<(VState, StackType)> {
    if s.ctrls == [] || |s.stack| < s.Top().height then None
    else if |s.stack| == s.Top().height then
      if s.Top().unreachable then Some((s, Bottom)) else None
    else Some((s.(stack := s.stack[..|s.stack| - 1]), s.stack[|s.stack| - 1]))
  }

  function ValidateSelect(s: VState): Option<VState> {
    var s1 :- Pop(s, Known(I32));
    var (s2, right) :- PopAny(s1);
    var (s3, left) :- PopAny(s2);
    if left.Known? && right.Known? && left != right then None
    else Push(s3, if left.Known? then left else right)
  }

  function NaturalAlign(width: nat): nat {
    if width == 2 then 1 else if width == 4 then 2 else if width == 8 then 3 else 0
  }

  predicate AccessOk(t: ValType, width: nat, signed: bool) {
    match t
    case I32 => width in {1, 2, 4}
    case I64 => width in {1, 2, 4, 8}
    case F32 => width == 4 && !signed
    case F64 => width == 8 && !signed
  }

  /** Operand and result types of a plain instruction, drop and select aside. */
  function Signature(m: Module, locals: seq<ValType>, p: Plain): Option<(seq<ValType>, seq<ValType>)> {
    match p
    case Nop => Some(([], []))
    case Drop => None
    case Select => None
    case Const(t, _) => Some(([], [t]))
    case Eqz(w) => Some(([IntType(w)], [I32]))
    case Binary(w, _) => Some(([IntType(w), IntType(w)], [IntType(w)]))
    case Compare(w, _) => Some(([IntType(w), IntType(w)], [I32]))
    case Counting(w, _) => Some(([IntType(w)], [IntType(w)]))
    case Float(code) =>
      (match FloatType(code)
       case None => None
       case Some((ins, out)) => Some((ins, [out])))
    case Reinterpret(from, to) =>
      if (from, to) in {(F32, I32), (F64, I64), (I32, F32), (I64, F64)} then Some(([from], [to])) else None
    case WrapI64 => Some(([I64], [I32]))
    case ExtendS => Some(([I32], [I64]))
    case ExtendU => Some(([I32], [I64]))
    case SignExtend(w, bytes) =>
      if bytes in {1, 2} || (bytes == 4 && w.W64?) then Some(([IntType(w)], [IntType(w)])) else None
    case LocalGet(i) => if i < |locals| then Some(([], [locals[i]])) else None
    case LocalSet(i) => if i < |locals| then Some(([locals[i]], [])) else None
    case LocalTee(i) => if i < |locals| then Some(([locals[i]], [locals[i]])) else None
    case GlobalGet(i) => if i < |m.globals| then Some(([], [m.globals[i].t])) else None
    case GlobalSet(i) =>
      if i < |m.globals| && m.globals[i].mutable then Some(([m.globals[i].t], [])) else None
    case Load(t, width, signed, align, _) =>
      if m.hasMemory && align <= NaturalAlign(width) && AccessOk(t, width, signed) then Some(([I32], [t]))
      else None
    case Store(t, width, align, _) =>
      if m.hasMemory && align <= NaturalAlign(width) && AccessOk(t, width, false) then Some(([I32, t], []))
      else None
    case MemorySize => if m.hasMemory then Some(([], [I32])) else None
    case MemoryGrow => if m.hasMemory then Some(([I32], [I32])) else None
    case MemoryCopy => if m.hasMemory then Some(([I32, I32, I32], [])) else None
    case MemoryFill => if m.hasMemory then Some(([I32, I32, I32], [])) else None
  }

  function ValidatePlain(m: Module, locals: seq<ValType>, p: Plain, s: VState): Option<VState> {
    if p.Drop? then Pop(s, Bottom)
    else if p.Select? then ValidateSelect(s)
    else
      var sig :- Signature(m, locals, p);
      PopPush(s, sig.0, sig.1)
  }

  function MarkUnreachable(s: VState): VState
    requires s.ctrls != []
  {
    var c := s.Top();
    s.(ctrls := s.ctrls[|s.ctrls| - 1 := c.(unreachable := true)],
       stack := if c.height <= |s.stack| then s.stack[..c.height] else s.stack)
  }

  function PushCtrl(s: VState, kind: BlockKind, bt: BlockType): Option<VState> {
    if |s.ctrls| >= MAX_CONTROL_DEPTH then None else
    var inherited := s.ctrls != [] && s.Top().unreachable;
    Some(s.(ctrls := s.ctrls + [Ctrl(Some(kind), |s.stack|, BlockResults(bt), inherited, false)]))
  }

  /** Pops the results of the innermost construct and demands its entry height. */
  function FinishCtrl(s: VState): Option<VState> {
    if s.ctrls == [] then None else
    var s1 :- PopAll(s, s.Top().ends);
    if |s1.stack| != s.Top().height then None else Some(s1)
  }

  function EndCtrl(s: VState): Option<VState> {
    if s.ctrls == [] then None else
    var c := s.Top();
    if c.block.None? && |s.ctrls| != 1 then None
    else if c.block == Some(IfK) && !c.hasElse && c.ends != [] then None else
    var s1 :- FinishCtrl(s);
    var s2 := s1.(ctrls := s.ctrls[..|s.ctrls| - 1]);
    if c.block.None? then Some(s2) else PushAll(s2, c.ends)
  }

  function EnterElse(s: VState): Option<VState> {
    if s.ctrls == [] then None else
    var n := |s.ctrls|;
    var c := s.Top();
    if c.block != Some(IfK) || c.hasElse then None else
    var s1 :- FinishCtrl(s);
    Some(s1.(ctrls := s.ctrls[n - 1 := c.(hasElse := true, unreachable := n > 1 && s.ctrls[n - 2].unreachable)]))
  }

  /** The construct that a branch of the given depth leaves. */
  function LabelCtrl(s: VState, depth: nat): Option<Ctrl> {
    if depth < |s.ctrls| then Some(s.ctrls[|s.ctrls| - 1 - depth]) else None
  }

  function PopAndMark(s: VState, ts: seq<ValType>): Option<VState> {
    var s1 :- PopAll(s, ts);
    if s1.ctrls == [] then None else Some(MarkUnreachable(s1))
  }

  predicate SameLabels(s: VState, targets: seq<nat>, ts: seq<ValType>) {
    forall i :: 0 <= i < |targets| ==>
      targets[i] < |s.ctrls| && s.ctrls[|s.ctrls| - 1 - targets[i]].LabelTypes() == ts
  }

  function ValidateBranchTable(s: VState, targets: seq<nat>): Option<VState>
    requires targets != []
  {
    var s1 :- Pop(s, Known(I32));
    var dflt :- LabelCtrl(s1, targets[|targets| - 1]);
    if !SameLabels(s1, targets, dflt.LabelTypes()) then None else
    PopAndMark(s1, dflt.LabelTypes())
  }

  function ValidateInstr(m: Module, ft: FuncType, fn: Func, i: Instr, s: VState): Option<VState> {
    if s.ctrls == [] then None else
    match i
    case Unreachable => Some(MarkUnreachable(s))
    case Open(kind, bt, _, _) =>
      var s1 :- (if kind == IfK then Pop(s, Known(I32)) else Some(s));
      PushCtrl(s1, kind, bt)
    case Else => EnterElse(s)
    case End => EndCtrl(s)
    case Br(depth) =>
      var c :- LabelCtrl(s, depth);
      PopAndMark(s, c.LabelTypes())
    case BrIf(depth) =>
      var c :- LabelCtrl(s, depth);
      var s1 :- Pop(s, Known(I32));
      PopPush(s1, c.LabelTypes(), c.LabelTypes())
    case BrTable(first, count) =>
      var targets :- m.Targets(fn, first, count);
      ValidateBranchTable(s, targets)
    case Return => PopAndMark(s, s.ctrls[0].ends)
    case Call(f) =>
      var callee :- m.TypeOf(f);
      PopPush(s, callee.params, callee.results)
    case CallIndirect(ti, table) =>
      if table != 0 || !m.hasTable || ti >= |m.types| then None else
      var s1 :- Pop(s, Known(I32));
      PopPush(s1, m.types[ti].params, m.types[ti].results)
    case Do(p) => ValidatePlain(m, ft.params + fn.locals, p, s)
  }

  function InitialState(ft: FuncType): VState {
    VState([], [Ctrl(None, 0, ft.results, false, false)], 0)
  }

  /** The checker's state before instruction `pc`; None once an instruction was rejected. */
  function StateAt(m: Module, ft: FuncType, fn: Func, pc: nat): Option<VState>
    requires pc <= |fn.code|
  {
    if pc == 0 then Some(InitialState(ft)) else
    var s :- StateAt(m, ft, fn, pc - 1);
    ValidateInstr(m, ft, fn, fn.code[pc - 1], s)
  }

  predicate FuncTypeOk(ft: FuncType) { |ft.params| <= 16 && |ft.results| <= 4 }

  predicate Accepts(m: Module, ft: FuncType, fn: Func) {
    && FuncTypeOk(ft)
    && 0 < |fn.code| <= MAX_INSTRUCTIONS
    && StateAt(m, ft, fn, |fn.code|).Some?
    && StateAt(m, ft, fn, |fn.code|).value.ctrls == []
    && fn.maxStack == StateAt(m, ft, fn, |fn.code|).value.maxStack
  }
}
