/** The engine's rules beside stricter ones with the same limits. The two differ in one thing: by
    the strict rules a construct opened in unreachable code starts out reachable, in the engine
    it inherits the flag. */
module WasmStrict {
  import opened Options
  import opened WasmNumerics
  import opened WasmSyntax
  import opened WasmValidation

  // ---- the strict rules ----

  function StrictOpen(s: VState, kind: BlockKind, bt: BlockType): Option<VState> {
    var s1 :- (if kind == IfK then Pop(s, Known(I32)) else Some(s));
    if |s1.ctrls| >= MAX_CONTROL_DEPTH then None
    else Some(s1.(ctrls := s1.ctrls + [Ctrl(Some(kind), |s1.stack|, BlockResults(bt), false, false)]))
  }

  function StrictElse(s: VState): Option<VState> {
    if s.ctrls == [] then None else
    var n := |s.ctrls|;
    var c := s.Top();
    if c.block != Some(IfK) || c.hasElse then None else
    var s1 :- FinishCtrl(s);
    Some(s1.(ctrls := s.ctrls[n - 1 := c.(hasElse := true, unreachable := false)]))
  }

  function StrictInstr(m: Module, ft: FuncType, fn: Func, i: Instr, s: VState): Option<VState> {
    if s.ctrls == [] then None
    else if i.Open? then StrictOpen(s, i.kind, i.bt)
    else if i.Else? then StrictElse(s)
    else ValidateInstr(m, ft, fn, i, s)
  }

  function StrictAt(m: Module, ft: FuncType, fn: Func, pc: nat): Option<VState>
    requires pc <= |fn.code|
  {
    if pc == 0 then Some(InitialState(ft)) else
    var s :- StrictAt(m, ft, fn, pc - 1);
    StrictInstr(m, ft, fn, fn.code[pc - 1], s)
  }

  predicate StrictAccepts(m: Module, ft: FuncType, fn: Func) {
    && FuncTypeOk(ft)
    && 0 < |fn.code| <= MAX_INSTRUCTIONS
    && StrictAt(m, ft, fn, |fn.code|).Some?
    && StrictAt(m, ft, fn, |fn.code|).value.ctrls == []
    && fn.maxStack == StrictAt(m, ft, fn, |fn.code|).value.maxStack
  }

  // ---- the difference ----

  /** How many operands an instruction takes. */
  function Takes(m: Module, ft: FuncType, fn: Func, i: Instr, s: VState): nat
    requires s.ctrls != []
  {
    match i
    case Unreachable => 0
    case Open(kind, _, _, _) => if kind == IfK then 1 else 0
    case Else => |s.Top().ends|
    case End => |s.Top().ends|
    case Br(depth) => Carried(s, depth)
    case BrIf(depth) => 1 + Carried(s, depth)
    case BrTable(first, count) =>
      (match m.Targets(fn, first, count)
       case None => 1
       case Some(targets) => if targets == [] then 1 else 1 + Carried(s, targets[|targets| - 1]))
    case Return => |s.ctrls[0].ends|
    case Call(f) => if m.TypeOf(f).Some? then |m.TypeOf(f).value.params| else 0
    case CallIndirect(ti, _) => 1 + if ti < |m.types| then |m.types[ti].params| else 0
    case Do(p) =>
      if p.Drop? then 1 else if p.Select? then 3
      else if Signature(m, ft.params + fn.locals, p).Some? then |Signature(m, ft.params + fn.locals, p).value.0| else 0
  }

  function Carried(s: VState, depth: nat): nat {
    if LabelCtrl(s, depth).Some? then |LabelCtrl(s, depth).value.LabelTypes()| else 0
  }

  /** Which open constructs have themselves met an instruction that does not fall through. */
  function Dead(i: Instr, own: seq<bool>): seq<bool>
    requires own != []
  {
    var n := |own| - 1;
    match i
    case Open(_, _, _, _) => own + [false]
    case Else => own[n := false]
    case End => own[..n]
    case Unreachable => own[n := true]
    case Br(_) => own[n := true]
    case BrTable(_, _) => own[n := true]
    case Return => own[n := true]
    case _ => own
  }

  function DeadAt(code: seq<Instr>, pc: nat): seq<bool>
    requires pc <= |code|
  {
    if pc == 0 then [false] else
    var own := DeadAt(code, pc - 1);
    if own == [] then [] else Dead(code[pc - 1], own)
  }

  predicate Holds(s: VState, n: nat)
    requires s.ctrls != []
  {
    n == 0 || n + s.Top().height <= |s.stack|
  }

  /** The instruction takes operands that its construct does not have, though nothing in the
      construct itself has made it unreachable. */
  predicate Borrows(m: Module, ft: FuncType, fn: Func, pc: nat)
    requires pc < |fn.code|
  {
    BorrowsIn(m, ft, fn, fn.code[pc], StateAt(m, ft, fn, pc), DeadAt(fn.code, pc))
  }

  predicate BorrowsIn(m: Module, ft: FuncType, fn: Func, i: Instr, eo: Option<VState>, own: seq<bool>) {
    && eo.Some? && eo.value.ctrls != [] && own != [] && !own[|own| - 1]
    && !Holds(eo.value, Takes(m, ft, fn, i, eo.value))
  }

  // ---- two states that differ in flags only ----

  predicate SameBut(a: Ctrl, b: Ctrl) {
    a.(unreachable := true) == b.(unreachable := true) && (a.unreachable ==> b.unreachable)
  }

  /** The engine's state e has every flag of the strict state s. */
  predicate Covers(s: VState, e: VState) {
    && s.stack == e.stack && s.maxStack == e.maxStack && |s.ctrls| == |e.ctrls|
    && forall k {:trigger s.ctrls[k]} {:trigger e.ctrls[k]} :: 0 <= k < |s.ctrls| ==> SameBut(s.ctrls[k], e.ctrls[k])
  }

  /** Either the construct is unreachable or it has n operands. */
  predicate Has(s: VState, n: nat)
    requires s.ctrls != []
  {
    s.Top().unreachable || Holds(s, n)
  }

  lemma {:induction false} PopCovers(s: VState, e: VState, t: StackType)
    requires Covers(s, e) && s.ctrls != []
    ensures Pop(s, t).Some? <==> Pop(e, t).Some? && Has(s, 1)
    ensures Pop(s, t).Some? ==>
      var s1 := Pop(s, t).value;
      Covers(s1, Pop(e, t).value) && s1.ctrls == s.ctrls
  {
  }

  lemma {:induction false} PopHas(s: VState, t: StackType, n: nat)
    requires s.ctrls != [] && Pop(s, t).Some?
    ensures Has(s, n + 1) <==> Has(Pop(s, t).value, n)
  {
  }

  lemma {:induction false} PopAllCovers(s: VState, e: VState, ts: seq<ValType>)
    requires Covers(s, e) && s.ctrls != []
    ensures PopAll(s, ts).Some? <==> PopAll(e, ts).Some? && Has(s, |ts|)
    ensures PopAll(s, ts).Some? ==> Covers(PopAll(s, ts).value, PopAll(e, ts).value) && PopAll(s, ts).value.ctrls == s.ctrls
    decreases |ts|
  {
    if ts != [] {
      var t, rest := Known(ts[|ts| - 1]), ts[..|ts| - 1];
      PopCovers(s, e, t);
      if Pop(s, t).Some? {
        var s1 := Pop(s, t).value;
        PopHas(s, t, |rest|);
        PopAllCovers(s1, Pop(e, t).value, rest);
      }
    }
  }

  /** The strict outcome is the engine's, given the operands. */
  predicate Same(so: Option<VState>, eo: Option<VState>, has: bool) {
    (so.Some? <==> eo.Some? && has) && (so.Some? ==> Covers(so.value, eo.value))
  }

  lemma {:induction false} PushAllCovers(s: VState, e: VState, ts: seq<ValType>)
    requires Covers(s, e)
    ensures Same(PushAll(s, ts), PushAll(e, ts), true)
    ensures PushAll(s, ts).Some? ==> PushAll(s, ts).value.ctrls == s.ctrls
    decreases |ts|
  {
    if ts != [] && Push(s, Known(ts[0])).Some? {
      PushAllCovers(Push(s, Known(ts[0])).value, Push(e, Known(ts[0])).value, ts[1..]);
    }
  }

  lemma {:induction false} PopPushCovers(s: VState, e: VState, ins: seq<ValType>, outs: seq<ValType>)
    requires Covers(s, e) && s.ctrls != []
    ensures Same(PopPush(s, ins, outs), PopPush(e, ins, outs), Has(s, |ins|))
    ensures PopPush(s, ins, outs).Some? ==> PopPush(s, ins, outs).value.ctrls == s.ctrls
  {
    PopAllCovers(s, e, ins);
    if PopAll(s, ins).Some? { PushAllCovers(PopAll(s, ins).value, PopAll(e, ins).value, outs); }
  }

  function Flags(s: VState): (r: seq<bool>)
    ensures |r| == |s.ctrls|
  {
    seq(|s.ctrls|, i requires 0 <= i < |s.ctrls| => s.ctrls[i].unreachable)
  }

  lemma {:induction false} MarkCovers(s: VState, e: VState)
    requires Covers(s, e) && s.ctrls != []
    ensures Covers(MarkUnreachable(s), MarkUnreachable(e))
    ensures Flags(MarkUnreachable(s)) == Flags(s)[|s.ctrls| - 1 := true]
  {
  }

  lemma {:induction false} PopMarkCovers(s: VState, e: VState, ts: seq<ValType>)
    requires Covers(s, e) && s.ctrls != []
    ensures Same(PopAndMark(s, ts), PopAndMark(e, ts), Has(s, |ts|))
    ensures PopAndMark(s, ts).Some? ==> Flags(PopAndMark(s, ts).value) == Flags(s)[|s.ctrls| - 1 := true]
  {
    PopAllCovers(s, e, ts);
    if PopAll(s, ts).Some? { MarkCovers(PopAll(s, ts).value, PopAll(e, ts).value); }
  }

  lemma {:induction false} PopAnyCovers(s: VState, e: VState)
    requires Covers(s, e) && s.ctrls != []
    ensures PopAny(s).Some? <==> PopAny(e).Some? && Has(s, 1)
    ensures PopAny(s).Some? ==>
      var s1 := PopAny(s).value.0;
      && Covers(s1, PopAny(e).value.0) && PopAny(s).value.1 == PopAny(e).value.1
      && s1.ctrls == s.ctrls && (Has(s, 2) <==> Has(s1, 1))
  {
  }

  lemma {:induction false} SelectCovers(s: VState, e: VState)
    requires Covers(s, e) && s.ctrls != []
    ensures Same(ValidateSelect(s), ValidateSelect(e), Has(s, 3))
    ensures ValidateSelect(s).Some? ==> ValidateSelect(s).value.ctrls == s.ctrls
  {
    PopCovers(s, e, Known(I32));
    if Pop(s, Known(I32)).Some? {
      var s1, e1 := Pop(s, Known(I32)).value, Pop(e, Known(I32)).value;
      PopHas(s, Known(I32), 2);
      PopAnyCovers(s1, e1);
      if PopAny(s1).Some? {
        var s2, e2 := PopAny(s1).value.0, PopAny(e1).value.0;
        PopAnyCovers(s2, e2);
      }
    }
  }

  lemma {:induction false} FinishCovers(s: VState, e: VState)
    requires Covers(s, e) && s.ctrls != []
    ensures Same(FinishCtrl(s), FinishCtrl(e), Has(s, |s.Top().ends|))
    ensures FinishCtrl(s).Some? ==> FinishCtrl(s).value.ctrls == s.ctrls
  {
    PopAllCovers(s, e, s.Top().ends);
  }

  lemma {:induction false} EndCovers(s: VState, e: VState)
    requires Covers(s, e) && s.ctrls != []
    ensures Same(EndCtrl(s), EndCtrl(e), Has(s, |s.Top().ends|))
    ensures EndCtrl(s).Some? ==> Flags(EndCtrl(s).value) == Flags(s)[..|s.ctrls| - 1]
  {
    FinishCovers(s, e);
    var c, n := s.Top(), |s.ctrls| - 1;
    if FinishCtrl(s).Some? {
      var s2, e2 := FinishCtrl(s).value.(ctrls := s.ctrls[..n]), FinishCtrl(e).value.(ctrls := e.ctrls[..n]);
      PushAllCovers(s2, e2, c.ends);
    }
  }

  lemma {:induction false} ElseCovers(s: VState, e: VState)
    requires Covers(s, e) && s.ctrls != []
    ensures Same(StrictElse(s), EnterElse(e), Has(s, |s.Top().ends|))
    ensures StrictElse(s).Some? ==> Flags(StrictElse(s).value) == Flags(s)[|s.ctrls| - 1 := false]
  {
    FinishCovers(s, e);
  }

  lemma {:induction false} OpenCovers(s: VState, e: VState, kind: BlockKind, bt: BlockType)
    requires Covers(s, e) && s.ctrls != []
    ensures var e1 := if kind == IfK then Pop(e, Known(I32)) else Some(e);
      Same(StrictOpen(s, kind, bt), if e1.Some? then PushCtrl(e1.value, kind, bt) else None, Has(s, if kind == IfK then 1 else 0))
    ensures StrictOpen(s, kind, bt).Some? ==> Flags(StrictOpen(s, kind, bt).value) == Flags(s) + [false]
  {
    PopCovers(s, e, Known(I32));
  }

  lemma {:induction false} TableCovers(s: VState, e: VState, targets: seq<nat>)
    requires Covers(s, e) && s.ctrls != [] && targets != []
    ensures Same(ValidateBranchTable(s, targets), ValidateBranchTable(e, targets), Has(s, 1 + Carried(s, targets[|targets| - 1])))
    ensures ValidateBranchTable(s, targets).Some? ==> Flags(ValidateBranchTable(s, targets).value) == Flags(s)[|s.ctrls| - 1 := true]
  {
    PopCovers(s, e, Known(I32));
    if Pop(s, Known(I32)).Some? {
      var s1, e1 := Pop(s, Known(I32)).value, Pop(e, Known(I32)).value;
      var k := Carried(s, targets[|targets| - 1]);
      PopHas(s, Known(I32), k);
      LabelCovers(s1, e1, targets[|targets| - 1]);
      var c := LabelCtrl(s1, targets[|targets| - 1]);
      if c.Some? {
        SameLabelsCovers(s1, e1, targets, c.value.LabelTypes());
        PopMarkCovers(s1, e1, c.value.LabelTypes());
      }
    }
  }

  lemma {:induction false} LabelCovers(s: VState, e: VState, depth: nat)
    requires Covers(s, e)
    ensures LabelCtrl(s, depth).Some? <==> LabelCtrl(e, depth).Some?
    ensures LabelCtrl(s, depth).Some? ==> LabelCtrl(s, depth).value.LabelTypes() == LabelCtrl(e, depth).value.LabelTypes()
  {
  }

  lemma {:induction false} SameLabelsCovers(s: VState, e: VState, targets: seq<nat>, ts: seq<ValType>)
    requires Covers(s, e)
    ensures SameLabels(s, targets, ts) == SameLabels(e, targets, ts)
  {
    forall i | 0 <= i < |targets| && targets[i] < |s.ctrls|
      ensures s.ctrls[|s.ctrls| - 1 - targets[i]].LabelTypes() == e.ctrls[|e.ctrls| - 1 - targets[i]].LabelTypes()
    {
      LabelCovers(s, e, targets[i]);
    }
  }

  lemma {:induction false} ThenCovers(s: VState, e: VState, ins: seq<ValType>, outs: seq<ValType>)
    requires Covers(s, e) && s.ctrls != []
    ensures var so, eo := Pop(s, Known(I32)), Pop(e, Known(I32));
      && Same(if so.Some? then PopPush(so.value, ins, outs) else None,
              if eo.Some? then PopPush(eo.value, ins, outs) else None, Has(s, 1 + |ins|))
      && (so.Some? && PopPush(so.value, ins, outs).Some? ==> PopPush(so.value, ins, outs).value.ctrls == s.ctrls)
  {
    PopCovers(s, e, Known(I32));
    if Pop(s, Known(I32)).Some? {
      var s1 := Pop(s, Known(I32)).value;
      PopHas(s, Known(I32), |ins|);
      PopPushCovers(s1, Pop(e, Known(I32)).value, ins, outs);
    }
  }

  /** The strict rule for this instruction is the engine's, given the operands. */
  predicate Agrees(m: Module, ft: FuncType, fn: Func, i: Instr, s: VState, e: VState)
    requires s.ctrls != []
  {
    var so := StrictInstr(m, ft, fn, i, s);
    && Same(so, ValidateInstr(m, ft, fn, i, e), Has(s, Takes(m, ft, fn, i, s)))
    && (so.Some? ==> Flags(so.value) == Dead(i, Flags(s)))
  }

  lemma {:induction false} BranchCovers(m: Module, ft: FuncType, fn: Func, i: Instr, s: VState, e: VState)
    requires Covers(s, e) && s.ctrls != [] && (i.Br? || i.Return?)
    ensures Agrees(m, ft, fn, i, s, e)
  {
    if i.Return? {
      PopMarkCovers(s, e, s.ctrls[0].ends);
    } else {
      LabelCovers(s, e, i.depth);
      var c := LabelCtrl(s, i.depth);
      if c.Some? { PopMarkCovers(s, e, c.value.LabelTypes()); }
    }
  }

  lemma {:induction false} BranchIfCovers(m: Module, ft: FuncType, fn: Func, i: Instr, s: VState, e: VState)
    requires Covers(s, e) && s.ctrls != [] && i.BrIf?
    ensures Agrees(m, ft, fn, i, s, e)
  {
    LabelCovers(s, e, i.depth);
    var c := LabelCtrl(s, i.depth);
    if c.Some? { ThenCovers(s, e, c.value.LabelTypes(), c.value.LabelTypes()); }
  }

  lemma {:induction false} BranchTableCovers(m: Module, ft: FuncType, fn: Func, i: Instr, s: VState, e: VState)
    requires Covers(s, e) && s.ctrls != [] && i.BrTable?
    ensures Agrees(m, ft, fn, i, s, e)
  {
    TableForm(m, ft, fn, i, s);
    TableForm(m, ft, fn, i, e);
    var targets := m.Targets(fn, i.first, i.count);
    if targets.Some? {
      TableCovers(s, e, targets.value);
      AgreesFrom(m, ft, fn, i, s, e, ValidateBranchTable(s, targets.value), ValidateBranchTable(e, targets.value),
                 1 + Carried(s, targets.value[|targets.value| - 1]));
    } else {
      AgreesFrom(m, ft, fn, i, s, e, None, None, 1);
    }
  }

  /** Agreement from the outcomes alone. */
  lemma {:induction false} AgreesFrom(m: Module, ft: FuncType, fn: Func, i: Instr, s: VState, e: VState,
                                      so: Option<VState>, eo: Option<VState>, n: nat)
    requires s.ctrls != [] && StrictInstr(m, ft, fn, i, s) == so && ValidateInstr(m, ft, fn, i, e) == eo
    requires Takes(m, ft, fn, i, s) == n && Same(so, eo, Has(s, n)) && (so.Some? ==> Flags(so.value) == Dead(i, Flags(s)))
    ensures Agrees(m, ft, fn, i, s, e)
  {
  }

  lemma {:induction false} TableForm(m: Module, ft: FuncType, fn: Func, i: Instr, s: VState)
    requires s.ctrls != [] && i.BrTable?
    ensures var targets := m.Targets(fn, i.first, i.count);
      && (if targets.None? then Takes(m, ft, fn, i, s) == 1
          else targets.value != [] && Takes(m, ft, fn, i, s) == 1 + Carried(s, targets.value[|targets.value| - 1]))
      && StrictInstr(m, ft, fn, i, s) == ValidateInstr(m, ft, fn, i, s)
      && ValidateInstr(m, ft, fn, i, s) == (if targets.None? then None else ValidateBranchTable(s, targets.value))
  {
  }

  lemma {:induction false} OtherCovers(m: Module, ft: FuncType, fn: Func, i: Instr, s: VState, e: VState)
    requires Covers(s, e) && s.ctrls != [] && (i.Call? || i.CallIndirect? || i.Do?)
    ensures Agrees(m, ft, fn, i, s, e)
  {
    match i
    case Call(f) =>
      var callee := m.TypeOf(f);
      if callee.Some? { PopPushCovers(s, e, callee.value.params, callee.value.results); }
    case CallIndirect(ti, _) =>
      if ti < |m.types| { ThenCovers(s, e, m.types[ti].params, m.types[ti].results); }
    case Do(p) =>
      PopCovers(s, e, Bottom);
      SelectCovers(s, e);
      var sig := Signature(m, ft.params + fn.locals, p);
      if sig.Some? { PopPushCovers(s, e, sig.value.0, sig.value.1); }
  }

  /** One instruction: the strict rule accepts exactly when the engine's does and the construct
      has the operands or is itself unreachable. */
  lemma {:induction false} StepCovers(m: Module, ft: FuncType, fn: Func, i: Instr, s: VState, e: VState)
    requires Covers(s, e) && s.ctrls != []
    ensures Agrees(m, ft, fn, i, s, e)
  {
    match i
    case Unreachable => MarkCovers(s, e);
    case Open(kind, bt, _, _) => OpenCovers(s, e, kind, bt);
    case Else => ElseCovers(s, e);
    case End => EndCovers(s, e);
    case Br(_) => BranchCovers(m, ft, fn, i, s, e);
    case Return => BranchCovers(m, ft, fn, i, s, e);
    case BrIf(_) => BranchIfCovers(m, ft, fn, i, s, e);
    case BrTable(_, _) => BranchTableCovers(m, ft, fn, i, s, e);
    case _ => OtherCovers(m, ft, fn, i, s, e);
  }

  // ---- whole bodies ----

  /** The strict state is there exactly when the engine's is and nothing was borrowed before. */
  predicate Tracks(so: Option<VState>, eo: Option<VState>, own: seq<bool>, clean: bool) {
    (so.Some? <==> eo.Some? && clean) && (so.Some? ==> Covers(so.value, eo.value) && Flags(so.value) == own)
  }

  function Borrowing(m: Module, ft: FuncType, fn: Func): nat -> bool {
    (pc: nat) => pc < |fn.code| && Borrows(m, ft, fn, pc)
  }

  predicate Never(b: nat -> bool, n: nat) { n == 0 || (Never(b, n - 1) && !b(n - 1)) }

  lemma {:induction false} NeverIff(b: nat -> bool, n: nat)
    ensures Never(b, n) <==> forall k: nat :: k < n ==> !b(k)
  {
    if n > 0 { NeverIff(b, n - 1); }
  }

  /** Whether the first pc instructions are accepted by the strict rules, in terms of the engine's. */
  lemma {:induction false} StrictUpTo(m: Module, ft: FuncType, fn: Func, pc: nat)
    requires pc <= |fn.code|
    ensures TracksAt(m, ft, fn, pc)
  {
    if pc == 0 {
      assert Flags(InitialState(ft)) == [false];
    } else {
      StrictUpTo(m, ft, fn, pc - 1);
      StrictMore(m, ft, fn, pc - 1);
    }
  }

  predicate TracksAt(m: Module, ft: FuncType, fn: Func, pc: nat)
    requires pc <= |fn.code|
  {
    Tracks(StrictAt(m, ft, fn, pc), StateAt(m, ft, fn, pc), DeadAt(fn.code, pc), Never(Borrowing(m, ft, fn), pc))
  }

  lemma {:induction false} StrictMore(m: Module, ft: FuncType, fn: Func, pc: nat)
    requires pc < |fn.code| && TracksAt(m, ft, fn, pc)
    ensures TracksAt(m, ft, fn, pc + 1)
  {
    StrictStep(m, ft, fn, pc, Never(Borrowing(m, ft, fn), pc));
    assert Never(Borrowing(m, ft, fn), pc + 1) == (Never(Borrowing(m, ft, fn), pc) && !Borrows(m, ft, fn, pc));
  }

  lemma {:induction false} StrictStep(m: Module, ft: FuncType, fn: Func, pc: nat, clean: bool)
    requires pc < |fn.code| && Tracks(StrictAt(m, ft, fn, pc), StateAt(m, ft, fn, pc), DeadAt(fn.code, pc), clean)
    ensures Tracks(StrictAt(m, ft, fn, pc + 1), StateAt(m, ft, fn, pc + 1), DeadAt(fn.code, pc + 1),
                   clean && !Borrows(m, ft, fn, pc))
  {
    TrackStep(m, ft, fn, fn.code[pc], StrictAt(m, ft, fn, pc), StateAt(m, ft, fn, pc), DeadAt(fn.code, pc), clean);
  }

  lemma {:induction false} TrackStep(m: Module, ft: FuncType, fn: Func, i: Instr, so: Option<VState>, eo: Option<VState>, own: seq<bool>, clean: bool)
    requires Tracks(so, eo, own, clean)
    ensures Tracks(if so.None? then None else StrictInstr(m, ft, fn, i, so.value),
                   if eo.None? then None else ValidateInstr(m, ft, fn, i, eo.value),
                   if own == [] then [] else Dead(i, own), clean && !BorrowsIn(m, ft, fn, i, eo, own))
  {
    if so.Some? && so.value.ctrls != [] {
      var s := so.value;
      StepCovers(m, ft, fn, i, s, eo.value);
      TakesSame(m, ft, fn, i, s, eo.value);
      assert Flags(s)[|s.ctrls| - 1] == s.Top().unreachable;
    }
  }

  lemma {:induction false} TakesSame(m: Module, ft: FuncType, fn: Func, i: Instr, s: VState, e: VState)
    requires Covers(s, e) && s.ctrls != []
    ensures Takes(m, ft, fn, i, s) == Takes(m, ft, fn, i, e)
  {
    forall depth: nat ensures Carried(s, depth) == Carried(e, depth) {}
  }

  /** The strict rules accept exactly the bodies that the engine accepts and that borrow nothing:
      with the same stack bound. */
  lemma {:induction false} StrictIff(m: Module, ft: FuncType, fn: Func)
    ensures StrictAccepts(m, ft, fn) <==>
      Accepts(m, ft, fn) && forall pc :: 0 <= pc < |fn.code| ==> !Borrows(m, ft, fn, pc)
  {
    NeverIff(Borrowing(m, ft, fn), |fn.code|);
    assert forall pc: nat :: pc < |fn.code| ==> Borrowing(m, ft, fn)(pc) == Borrows(m, ft, fn, pc);
    StrictUpTo(m, ft, fn, |fn.code|);
  }

  /** Borrowing happens only inside a construct that was opened in unreachable code. */
  lemma {:induction false} BorrowsInherited(m: Module, ft: FuncType, fn: Func, pc: nat)
    requires pc < |fn.code| && Borrows(m, ft, fn, pc) && StateAt(m, ft, fn, pc + 1).Some?
    ensures StateAt(m, ft, fn, pc).value.Top().unreachable
  {
    var e := StateAt(m, ft, fn, pc).value;
    StepCovers(m, ft, fn, fn.code[pc], e, e);
  }

  const EXAMPLE: seq<Instr> :=
    [Unreachable, Open(BlockK, None, None, 4), Do(Binary(W32, Add)), Do(Drop), End, End]

  /** The engine's states along the example. */
  function ExampleState(pc: nat): VState
    requires pc <= 6
  {
    var body, inner := Ctrl(None, 0, [], true, false), Ctrl(Some(BlockK), 0, [], true, false);
    match pc
    case 0 => InitialState(FuncType([], []))
    case 1 => VState([], [body], 0)
    case 2 => VState([], [body, inner], 0)
    case 3 => VState([Known(I32)], [body, inner], 1)
    case 4 => VState([], [body, inner], 1)
    case 5 => VState([], [body], 1)
    case _ => VState([], [], 1)
  }

  lemma {:induction false} ExampleStep(m: Module, ft: FuncType, fn: Func, pc: nat)
    requires pc < 6
    ensures ValidateInstr(m, ft, fn, EXAMPLE[pc], ExampleState(pc)) == Some(ExampleState(pc + 1))
  {
    var s, s1 := ExampleState(pc), ExampleState(pc + 1);
    match pc
    case 0 => assert s.ctrls[0 := s1.ctrls[0]] == s1.ctrls;
    case 1 => assert s.ctrls + [s1.ctrls[1]] == s1.ctrls;
    case 2 => ExampleAdd(m, ft, fn, s);
    case 3 => assert s.stack[..0] == [];
    case 4 => assert s.ctrls[..1] == s1.ctrls;
    case _ => assert s.ctrls[..0] == [];
  }

  lemma {:induction false} ExampleAt(m: Module, ft: FuncType, fn: Func, pc: nat)
    requires pc <= 6 && fn.code == EXAMPLE && ft == FuncType([], [])
    ensures StateAt(m, ft, fn, pc) == Some(ExampleState(pc))
  {
    if pc > 0 {
      ExampleAt(m, ft, fn, pc - 1);
      ExampleStep(m, ft, fn, pc - 1);
    }
  }

  /** `unreachable block i32.add drop end end`, in any module: the engine accepts it, the strict
      rules do not. */
  lemma {:induction false} BorrowExample(m: Module, fn: Func)
    requires fn.code == EXAMPLE && fn.maxStack == 1
    ensures var ft := FuncType([], []); Accepts(m, ft, fn) && Borrows(m, ft, fn, 2) && !StrictAccepts(m, ft, fn)
  {
    var ft := FuncType([], []);
    ExampleAt(m, ft, fn, 6);
    ExampleBorrows(m, ft, fn);
    StrictIff(m, ft, fn);
  }

  lemma {:induction false} ExampleBorrows(m: Module, ft: FuncType, fn: Func)
    requires fn.code == EXAMPLE && ft == FuncType([], [])
    ensures Borrows(m, ft, fn, 2)
  {
    ExampleAt(m, ft, fn, 2);
    ExampleDead();
    var e := ExampleState(2);
    assert EXAMPLE[2] == Do(Binary(W32, Add));
    assert Takes(m, ft, fn, EXAMPLE[2], e) == 2;
    assert !Holds(e, 2);
  }

  lemma {:induction false} ExampleDead()
    ensures DeadAt(EXAMPLE, 2) == [true, false]
  {
    assert DeadAt(EXAMPLE, 1) == [true];
  }

  lemma {:induction false} ExampleAdd(m: Module, ft: FuncType, fn: Func, s: VState)
    requires s.ctrls != [] && s.Top().unreachable && s.Top().height == |s.stack| == 0
    ensures ValidateInstr(m, ft, fn, Do(Binary(W32, Add)), s) == Some(s.(stack := [Known(I32)], maxStack := Max(s.maxStack, 1)))
  {
    assert [I32, I32][..1] == [I32] && [I32][..0] == [] && [I32][1..] == [];
    assert PopAll(s, [I32]) == Some(s) && PopAll(s, [I32, I32]) == Some(s);
    assert s.stack + [Known(I32)] == [Known(I32)];
  }
}
