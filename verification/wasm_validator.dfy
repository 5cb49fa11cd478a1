/** `ValidationContext` as it runs: two preallocated arrays and their counts. */
module WasmValidator {
  import opened Options
  import opened WasmSyntax
  import opened WasmValidation
  import opened WasmValidationFacts
  import opened TempVectors

  class ValidationContext {
    const m: Module
    const ft: FuncType
    const fn: Func
    const stack: array<StackType>
    const controls: array<Ctrl>
    var stackCount: nat
    var controlCount: nat
    var maxStack: nat

    ghost function View(): VState
      requires stackCount <= stack.Length && controlCount <= controls.Length
      reads this, stack, controls
    {
      VState(stack[..stackCount], controls[..controlCount], maxStack)
    }

    ghost predicate Valid()
      reads this, stack, controls
    {
      && stack.Length == MAX_TYPE_STACK && controls.Length == MAX_CONTROL_DEPTH && (stack as object) != controls
      && stackCount <= stack.Length && controlCount <= controls.Length && WF(View())
    }

    /** The step succeeded exactly when the checker's rule applies, and then took it. */
    ghost predicate Did(ok: bool, want: Option<VState>)
      requires Valid()
      reads this, stack, controls
    {
      if ok then want == Some(View()) else want.None?
    }

    constructor (m: Module, ft: FuncType, fn: Func, stack: array<StackType>, controls: array<Ctrl>)
      requires stack.Length == MAX_TYPE_STACK && controls.Length == MAX_CONTROL_DEPTH && (stack as object) != controls
      ensures Valid() && this.m == m && this.ft == ft && this.fn == fn && this.stack == stack && this.controls == controls
      ensures View() == VState([], [], 0)
    {
      this.m := m;
      this.ft := ft;
      this.fn := fn;
      this.stack := stack;
      this.controls := controls;
      stackCount := 0;
      controlCount := 0;
      maxStack := 0;
    }

    method PushType(t: StackType) returns (ok: bool)
      requires Valid()
      modifies this, stack
      ensures Valid() && Did(ok, Push(old(View()), t))
    {
      if controlCount == 0 {
        return false;
      }
      if stackCount < controls[controlCount - 1].height || stackCount >= MAX_TYPE_STACK {
        return false;
      }
      stack[stackCount] := t;
      stackCount := stackCount + 1;
      if stackCount > maxStack {
        maxStack := stackCount;
      }
      assert stack[..stackCount] == old(stack[..stackCount]) + [t];
      return true;
    }

    method PopType(expected: StackType) returns (ok: bool)
      requires Valid()
      modifies this
      ensures Valid() && Did(ok, Pop(old(View()), expected))
    {
      if controlCount == 0 || stackCount < controls[controlCount - 1].height {
        return false;
      }
      if stackCount == controls[controlCount - 1].height {
        return controls[controlCount - 1].unreachable;
      }
      stackCount := stackCount - 1;
      assert stack[..stackCount] == old(stack[..stackCount])[..stackCount];
      return Compatible(stack[stackCount], expected);
    }

    method PopTypes(ts: seq<ValType>) returns (ok: bool)
      requires Valid()
      modifies this
      ensures Valid() && Did(ok, PopAll(old(View()), ts))
    {
      var index := |ts|;
      assert ts[..index] == ts;
      while index != 0
        invariant 0 <= index <= |ts| && Valid() && PopAll(View(), ts[..index]) == PopAll(old(View()), ts)
      {
        assert ts[..index][..index - 1] == ts[..index - 1];
        ok := PopType(Known(ts[index - 1]));
        if !ok {
          return;
        }
        index := index - 1;
      }
      return true;
    }

    method PushTypes(ts: seq<ValType>) returns (ok: bool)
      requires Valid()
      modifies this, stack
      ensures Valid() && Did(ok, PushAll(old(View()), ts))
    {
      var index := 0;
      assert ts[index..] == ts;
      while index < |ts|
        invariant 0 <= index <= |ts| && Valid() && PushAll(View(), ts[index..]) == PushAll(old(View()), ts)
      {
        assert ts[index..][1..] == ts[index + 1..];
        ok := PushType(Known(ts[index]));
        if !ok {
          return;
        }
        index := index + 1;
      }
      return true;
    }

    method PopThenPush(ins: seq<ValType>, outs: seq<ValType>) returns (ok: bool)
      requires Valid()
      modifies this, stack
      ensures Valid() && Did(ok, PopPush(old(View()), ins, outs))
    {
      ok := PopTypes(ins);
      if ok {
        ok := PushTypes(outs);
      }
    }

    method PopSelectType() returns (r: Option<StackType>)
      requires Valid()
      modifies this
      ensures Valid()
      ensures var want := PopAny(old(View()));
        if r.Some? then want == Some((View(), r.value)) else want.None?
    {
      if controlCount == 0 || stackCount < controls[controlCount - 1].height {
        return None;
      }
      if stackCount == controls[controlCount - 1].height {
        return if controls[controlCount - 1].unreachable then Some(Bottom) else None;
      }
      stackCount := stackCount - 1;
      assert stack[..stackCount] == old(stack[..stackCount])[..stackCount];
      return Some(stack[stackCount]);
    }

    method CheckSelect() returns (ok: bool)
      requires Valid()
      modifies this, stack
      ensures Valid() && Did(ok, ValidateSelect(old(View())))
    {
      ghost var s := View();
      ok := PopType(Known(I32));
      if !ok {
        return;
      }
      ghost var s1 := View();
      var right := PopSelectType();
      if right.None? {
        assert ValidateSelect(s).None?;
        return false;
      }
      ghost var s2 := View();
      var left := PopSelectType();
      if left.None? || (left.value.Known? && right.value.Known? && left.value != right.value) {
        assert ValidateSelect(s).None?;
        return false;
      }
      ghost var s3 := View();
      var t := if left.value.Known? then left.value else right.value;
      assert ValidateSelect(s) == Push(s3, t);
      ok := PushType(t);
    }

    method MarkUnreachableHere()
      requires Valid() && controlCount > 0
      modifies this, controls
      ensures Valid() && View() == MarkUnreachable(old(View()))
    {
      var n := controlCount - 1;
      controls[n] := controls[n].(unreachable := true);
      stackCount := controls[n].height;
      assert controls[..controlCount] == old(controls[..controlCount])[n := controls[n]];
      assert stack[..stackCount] == old(stack[..stackCount])[..stackCount];
    }

    method PushControl(kind: BlockKind, bt: BlockType) returns (ok: bool)
      requires Valid() && controlCount > 0
      modifies this, controls
      ensures Valid() && Did(ok, PushCtrl(old(View()), kind, bt))
    {
      if controlCount >= MAX_CONTROL_DEPTH {
        return false;
      }
      var c := Ctrl(Some(kind), stackCount, BlockResults(bt), controls[controlCount - 1].unreachable, false);
      controls[controlCount] := c;
      controlCount := controlCount + 1;
      assert controls[..controlCount] == old(controls[..controlCount]) + [c];
      return true;
    }

    method FinishControl() returns (ok: bool)
      requires Valid() && controlCount > 0
      modifies this
      ensures Valid() && Did(ok, FinishCtrl(old(View())))
    {
      ghost var s := View();
      var c := controls[controlCount - 1];
      assert c == s.Top();
      ok := PopTypes(c.ends);
      if ok && stackCount != c.height {
        return false;
      }
    }

    method EndControl() returns (ok: bool)
      requires Valid() && controlCount > 0
      modifies this, stack
      ensures Valid() && Did(ok, EndCtrl(old(View())))
    {
      ghost var s := View();
      var c := controls[controlCount - 1];
      assert c == s.Top();
      if c.block.None? && controlCount != 1 {
        return false;
      }
      if c.block == Some(IfK) && !c.hasElse && c.ends != [] {
        return false;
      }
      ok := FinishControl();
      if !ok {
        return;
      }
      ghost var s1 := View();
      FinishFrame(s);
      controlCount := controlCount - 1;
      assert controls[..controlCount] == s.ctrls[..|s.ctrls| - 1];
      if c.block.None? {
        return true;
      }
      ok := PushTypes(c.ends);
    }

    method EnterElseArm() returns (ok: bool)
      requires Valid() && controlCount > 0
      modifies this, controls
      ensures Valid() && Did(ok, EnterElse(old(View())))
    {
      ghost var s := View();
      var n := controlCount - 1;
      var c := controls[n];
      assert c == s.Top();
      if c.block != Some(IfK) || c.hasElse {
        return false;
      }
      ok := FinishControl();
      if !ok {
        return;
      }
      FinishFrame(s);
      controls[n] := c.(hasElse := true, unreachable := n > 0 && controls[n - 1].unreachable);
      stackCount := c.height;
      assert controls[..controlCount] == s.ctrls[n := controls[n]];
      return true;
    }

    method PopTypesAndMark(ts: seq<ValType>) returns (ok: bool)
      requires Valid() && controlCount > 0
      modifies this, controls
      ensures Valid() && Did(ok, PopAndMark(old(View()), ts))
    {
      ghost var s := View();
      ok := PopTypes(ts);
      if ok {
        PopAllFrame(s, ts);
        MarkUnreachableHere();
      }
    }

    /** Every target's label carries the types that the default's does. */
    method SameTypes(targets: seq<nat>, ts: seq<ValType>) returns (ok: bool)
      requires Valid()
      ensures ok <==> SameLabels(View(), targets, ts)
    {
      var i := 0;
      while i < |targets|
        invariant 0 <= i <= |targets| && SameLabels(View(), targets[..i], ts)
      {
        if targets[i] >= controlCount || controls[controlCount - 1 - targets[i]].LabelTypes() != ts {
          return false;
        }
        i := i + 1;
      }
      assert targets[..i] == targets;
      return true;
    }

    method CheckBranchTable(targets: seq<nat>) returns (ok: bool)
      requires Valid() && controlCount > 0 && targets != []
      modifies this, controls
      ensures Valid() && Did(ok, ValidateBranchTable(old(View()), targets))
    {
      ghost var s := View();
      ok := PopType(Known(I32));
      if !ok {
        return;
      }
      ghost var s1 := View();
      var dflt := targets[|targets| - 1];
      if dflt >= controlCount {
        return false;
      }
      var ts := controls[controlCount - 1 - dflt].LabelTypes();
      assert LabelCtrl(s1, dflt).value.LabelTypes() == ts;
      var same := SameTypes(targets, ts);
      if !same {
        return false;
      }
      ok := PopTypesAndMark(ts);
    }

    method CheckPlain(p: Plain) returns (ok: bool)
      requires Valid()
      modifies this, stack
      ensures Valid() && Did(ok, ValidatePlain(m, ft.params + fn.locals, p, old(View())))
    {
      if p.Drop? {
        ok := PopType(Bottom);
      } else if p.Select? {
        ok := CheckSelect();
      } else {
        var sig := Signature(m, ft.params + fn.locals, p);
        if sig.None? {
          return false;
        }
        ok := PopThenPush(sig.value.0, sig.value.1);
      }
    }

    method CheckBranchIf(depth: nat) returns (ok: bool)
      requires Valid() && controlCount > 0
      modifies this, stack
      ensures Valid() && Did(ok, ValidateInstr(m, ft, fn, BrIf(depth), old(View())))
    {
      ghost var s := View();
      if depth >= controlCount {
        return false;
      }
      var ts := controls[controlCount - 1 - depth].LabelTypes();
      assert LabelCtrl(s, depth).value.LabelTypes() == ts;
      ok := PopType(Known(I32));
      if ok {
        ok := PopThenPush(ts, ts);
      }
    }

    method CheckOpen(kind: BlockKind, bt: BlockType) returns (ok: bool)
      requires Valid() && controlCount > 0
      modifies this, controls
      ensures Valid()
      ensures Did(ok,
        var s := old(View());
        var s1 := if kind == IfK then Pop(s, Known(I32)) else Some(s);
        if s1.None? then None else PushCtrl(s1.value, kind, bt))
    {
      if kind == IfK {
        ok := PopType(Known(I32));
        if !ok {
          return;
        }
      }
      ok := PushControl(kind, bt);
    }

    method CheckCallIndirect(ti: nat, table: nat) returns (ok: bool)
      requires Valid() && controlCount > 0
      modifies this, stack
      ensures Valid() && Did(ok, ValidateInstr(m, ft, fn, CallIndirect(ti, table), old(View())))
    {
      if table != 0 || !m.hasTable || ti >= |m.types| {
        return false;
      }
      ok := PopType(Known(I32));
      if ok {
        ok := PopThenPush(m.types[ti].params, m.types[ti].results);
      }
    }

    method CheckBranch(depth: nat) returns (ok: bool)
      requires Valid() && controlCount > 0
      modifies this, controls
      ensures Valid() && Did(ok, ValidateInstr(m, ft, fn, Br(depth), old(View())))
    {
      if depth >= controlCount {
        return false;
      }
      ok := PopTypesAndMark(controls[controlCount - 1 - depth].LabelTypes());
    }

    method CheckInstr(i: Instr) returns (ok: bool)
      requires Valid()
      modifies this, stack, controls
      ensures Valid() && Did(ok, ValidateInstr(m, ft, fn, i, old(View())))
    {
      if controlCount == 0 {
        return false;
      }
      match i
      case Unreachable =>
        MarkUnreachableHere();
        ok := true;
      case Open(kind, bt, _, _) => ok := CheckOpen(kind, bt);
      case Else => ok := EnterElseArm();
      case End => ok := EndControl();
      case Br(depth) => ok := CheckBranch(depth);
      case BrIf(depth) => ok := CheckBranchIf(depth);
      case BrTable(first, count) =>
        var targets := m.Targets(fn, first, count);
        if targets.None? {
          return false;
        }
        ok := CheckBranchTable(targets.value);
      case Return => ok := PopTypesAndMark(controls[0].ends);
      case Call(f) =>
        var callee := m.TypeOf(f);
        if callee.None? {
          return false;
        }
        ok := PopThenPush(callee.value.params, callee.value.results);
      case CallIndirect(ti, table) => ok := CheckCallIndirect(ti, table);
      case Do(p) => ok := CheckPlain(p);
    }

    /** Instruction pc of the body, in the state the rules give before it. */
    method CheckAt(i: Instr, ghost f: Func, ghost pc: nat) returns (ok: bool)
      requires Valid() && f.locals == fn.locals && f.branchBase == fn.branchBase
      requires pc < |f.code| && f.code[pc] == i && StateAt(m, ft, f, pc) == Some(View())
      modifies this, stack, controls
      ensures Valid() && Did(ok, StateAt(m, ft, f, pc + 1))
      ensures !ok ==> StateAt(m, ft, f, |f.code|).None?
    {
      NextState(m, ft, fn, f, pc, View());
      ok := CheckInstr(i);
      if !ok {
        StoppedAt(m, ft, f, pc + 1);
      }
    }

    /** Looks instruction pc up and checks it. */
    method CheckNext(instructions: TempVector<Instr>, ghost f: Func, pc: nat, cursor: Cursor)
        returns (ok: bool, next: Cursor)
      requires Valid() && f.locals == fn.locals && f.branchBase == fn.branchBase
      requires instructions.Valid() && instructions.Contents() == f.code && pc < |f.code|
      requires instructions.Follows(cursor) && cursor.base <= pc && StateAt(m, ft, f, pc) == Some(View())
      requires (instructions as object) !in {stack as object, controls, this}
      modifies this, stack, controls
      ensures Valid() && Did(ok, StateAt(m, ft, f, pc + 1))
      ensures !ok ==> StateAt(m, ft, f, |f.code|).None?
      ensures instructions.Follows(next) && next.base <= pc
    {
      var i, c := instructions.NthFrom(pc, cursor);
      next := c;
      ok := CheckAt(i.value, f, pc);
    }

    /** The pass over a body that sits in the chunked vector, read through a cursor. */
    method CheckAll(instructions: TempVector<Instr>, ghost f: Func) returns (ok: bool)
      requires Valid() && instructions.Valid() && View() == InitialState(ft)
      requires f.locals == fn.locals && f.branchBase == fn.branchBase && instructions.Contents() == f.code
      requires (instructions as object) !in {stack as object, controls, this}
      modifies this, stack, controls
      ensures Valid() && Did(ok, StateAt(m, ft, f, |f.code|))
    {
      var pc := 0;
      var cursor := Cursor(None, 0);
      while pc < instructions.count
        invariant 0 <= pc <= |f.code| && Valid() && instructions.Follows(cursor) && cursor.base <= pc
        invariant StateAt(m, ft, f, pc) == Some(View())
      {
        ok, cursor := CheckNext(instructions, f, pc, cursor);
        if !ok {
          return;
        }
        pc := pc + 1;
      }
      return true;
    }

    /** Accepts exactly the bodies the rules accept, and then knows their stack bound. */
    method Validate(instructions: TempVector<Instr>) returns (ok: bool)
      requires Valid() && View() == VState([], [], 0) && instructions.Valid()
      requires (instructions as object) !in {stack as object, controls, this}
      modifies this, stack, controls
      ensures Valid()
      ensures if ok then Accepts(m, ft, WithCode(fn, instructions.Contents(), maxStack))
              else forall k :: !Accepts(m, ft, WithCode(fn, instructions.Contents(), k))
    {
      ghost var code := instructions.Contents();
      if instructions.count > MAX_INSTRUCTIONS || instructions.count == 0 {
        return false;
      }
      if |ft.params| > 16 || |ft.results| > 4 {
        return false;
      }
      controls[0] := Ctrl(None, 0, ft.results, false, false);
      controlCount := 1;
      assert View() == InitialState(ft);
      ok := CheckAll(instructions, WithCode(fn, code, 0));
      if !ok || controlCount != 0 {
        NoneAccepts(m, ft, fn, code);
        return false;
      }
      SameStates(m, ft, WithCode(fn, code, 0), WithCode(fn, code, maxStack), |code|);
    }
  }

  /** The function that is checked: its code is what the vector holds. */
  function WithCode(fn: Func, code: seq<Instr>, maxStack: nat): Func {
    fn.(code := code, maxStack := maxStack)
  }

  /** The rules read a function's locals and target base, not its code. */
  lemma {:induction false} CodeDoesNotMatter(m: Module, ft: FuncType, f: Func, g: Func, i: Instr, s: VState)
    requires f.locals == g.locals && f.branchBase == g.branchBase
    ensures ValidateInstr(m, ft, f, i, s) == ValidateInstr(m, ft, g, i, s)
  {
  }

  lemma {:induction false} NextState(m: Module, ft: FuncType, f: Func, g: Func, pc: nat, s: VState)
    requires f.locals == g.locals && f.branchBase == g.branchBase
    requires pc < |g.code| && StateAt(m, ft, g, pc) == Some(s)
    ensures StateAt(m, ft, g, pc + 1) == ValidateInstr(m, ft, f, g.code[pc], s)
  {
    CodeDoesNotMatter(m, ft, f, g, g.code[pc], s);
  }

  lemma {:induction false} SameStates(m: Module, ft: FuncType, f: Func, g: Func, pc: nat)
    requires f.locals == g.locals && f.branchBase == g.branchBase && f.code == g.code && pc <= |f.code|
    ensures StateAt(m, ft, f, pc) == StateAt(m, ft, g, pc)
  {
    if pc > 0 {
      SameStates(m, ft, f, g, pc - 1);
      var s := StateAt(m, ft, f, pc - 1);
      if s.Some? { CodeDoesNotMatter(m, ft, f, g, f.code[pc - 1], s.value); }
    }
  }

  lemma {:induction false} StoppedAt(m: Module, ft: FuncType, f: Func, pc: nat)
    requires pc <= |f.code| && StateAt(m, ft, f, pc).None?
    ensures StateAt(m, ft, f, |f.code|).None?
    decreases |f.code| - pc
  {
    if pc < |f.code| {
      assert StateAt(m, ft, f, pc + 1).None?;
      StoppedAt(m, ft, f, pc + 1);
    }
  }

  lemma {:induction false} NoneAccepts(m: Module, ft: FuncType, fn: Func, code: seq<Instr>)
    requires var s := StateAt(m, ft, WithCode(fn, code, 0), |code|); s.None? || s.value.ctrls != []
    ensures forall k :: !Accepts(m, ft, WithCode(fn, code, k))
  {
    forall k ensures !Accepts(m, ft, WithCode(fn, code, k)) {
      SameStates(m, ft, WithCode(fn, code, 0), WithCode(fn, code, k), |code|);
    }
  }

  /** A construct that can be finished leaves the constructs around it alone. */
  lemma {:induction false} FinishFrame(s: VState)
    requires WF(s) && FinishCtrl(s).Some?
    ensures var r := FinishCtrl(s).value;
      WF(r) && r.ctrls == s.ctrls && |r.stack| == s.Top().height && r.maxStack == s.maxStack
  {
    PopAllFrame(s, s.Top().ends);
  }
}
