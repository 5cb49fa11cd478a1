/** The checker's states over a whole accepted body, as one sequence. */
module WasmStatic {
  import opened Options
  import opened WasmSyntax
  import opened WasmStructure
  import opened WasmValidation
  import opened WasmValidationFacts

  predicate Steps(m: Module, ft: FuncType, fn: Func, pc: nat, s: VState, r: VState)
    requires pc < |fn.code|
  {
    ValidateInstr(m, ft, fn, fn.code[pc], s) == Some(r)
  }

  /** `ss[pc]` is the checker's state before instruction pc of an accepted body. */
  predicate Trace(m: Module, ft: FuncType, fn: Func, ss: seq<VState>) {
    && FuncTypeOk(ft)
    && 0 < |fn.code| && |ss| == |fn.code| + 1
    && ss[0] == InitialState(ft)
    && (forall pc {:trigger Steps(m, ft, fn, pc, ss[pc], ss[pc + 1])} ::
          0 <= pc < |fn.code| ==> Steps(m, ft, fn, pc, ss[pc], ss[pc + 1]))
    && ss[|fn.code|].ctrls == []
    && ss[|fn.code|].maxStack == fn.maxStack
  }

  lemma {:induction false} PreviousState(m: Module, ft: FuncType, fn: Func, pc: nat)
    requires pc < |fn.code| && StateAt(m, ft, fn, pc + 1).Some?
    ensures StateAt(m, ft, fn, pc).Some?
  {
  }

  lemma {:induction false} EveryState(m: Module, ft: FuncType, fn: Func, pc: nat, q: nat)
    requires pc <= q <= |fn.code| && StateAt(m, ft, fn, q).Some?
    ensures StateAt(m, ft, fn, pc).Some?
    decreases q - pc
  {
    if pc < q {
      EveryState(m, ft, fn, pc + 1, q);
      PreviousState(m, ft, fn, pc);
    }
  }

  /** Every accepted body has a derivation. */
  lemma {:induction false} Derive(m: Module, ft: FuncType, fn: Func) returns (ss: seq<VState>)
    requires Accepts(m, ft, fn)
    ensures Trace(m, ft, fn, ss)
    ensures forall pc :: 0 <= pc <= |fn.code| ==> StateAt(m, ft, fn, pc) == Some(ss[pc])
  {
    var n := |fn.code|;
    forall pc | 0 <= pc <= n ensures StateAt(m, ft, fn, pc).Some? {
      EveryState(m, ft, fn, pc, n);
    }
    ss := seq(n + 1, pc requires 0 <= pc <= n => StateAt(m, ft, fn, pc).value);
    forall pc | 0 <= pc < n ensures Steps(m, ft, fn, pc, ss[pc], ss[pc + 1]) {
      assert StateAt(m, ft, fn, pc + 1) == Some(ss[pc + 1]);
    }
  }

  /** The control stack mirrors the enclosing openings. */
  predicate Mirrors(fn: Func, ft: FuncType, st: seq<nat>, s: VState) {
    && |s.ctrls| == |st| + 1
    && s.ctrls[0].block.None? && s.ctrls[0].height == 0 && s.ctrls[0].ends == ft.results
    && forall i :: 0 <= i < |st| ==>
         && st[i] < |fn.code| && fn.code[st[i]].Open?
         && s.ctrls[i + 1].block == Some(fn.code[st[i]].kind)
         && s.ctrls[i + 1].ends == BlockResults(fn.code[st[i]].bt)
  }

  lemma {:induction false} StepMirrors(m: Module, ft: FuncType, fn: Func, pc: nat, s: VState)
    requires pc < |fn.code| && WF(s) && Mirrors(fn, ft, OpenStack(fn.code, pc), s)
    requires ValidateInstr(m, ft, fn, fn.code[pc], s).Some?
    ensures var r := ValidateInstr(m, ft, fn, fn.code[pc], s).value;
      && WF(r) && s.maxStack <= r.maxStack
      && (r.ctrls != [] ==> Mirrors(fn, ft, OpenStack(fn.code, pc + 1), r))
  {
    var i := fn.code[pc];
    var r := ValidateInstr(m, ft, fn, i, s).value;
    var n := |s.ctrls| - 1;
    match i {
      case End => EndFrame(s);
      case Else =>
        ElseFrame(s);
        forall k | 0 <= k <= n ensures SameConstruct(r.ctrls[k], s.ctrls[k]) { KeepsOuter(s, r, k); }
      case Open(kind, bt, _, _) => OpenKeeps(s, kind, bt);
      case _ =>
        FlatStepKeeps(m, ft, fn, i, s);
        forall k | 0 <= k <= n ensures SameConstruct(r.ctrls[k], s.ctrls[k]) { KeepsOuter(s, r, k); }
    }
  }

  lemma {:induction false} NotEnded(m: Module, ft: FuncType, fn: Func, ss: seq<VState>, pc: nat)
    requires Trace(m, ft, fn, ss) && pc < |fn.code|
    ensures ss[pc].ctrls != []
  {
    assert Steps(m, ft, fn, pc, ss[pc], ss[pc + 1]);
  }

  lemma {:induction false} NextMirrors(m: Module, ft: FuncType, fn: Func, ss: seq<VState>, pc: nat)
    requires Trace(m, ft, fn, ss) && pc < |fn.code|
    requires WF(ss[pc]) && Mirrors(fn, ft, OpenStack(fn.code, pc), ss[pc])
    ensures WF(ss[pc + 1]) && ss[pc].maxStack <= ss[pc + 1].maxStack
    ensures ss[pc + 1].ctrls != [] ==> Mirrors(fn, ft, OpenStack(fn.code, pc + 1), ss[pc + 1])
  {
    assert Steps(m, ft, fn, pc, ss[pc], ss[pc + 1]);
    StepMirrors(m, ft, fn, pc, ss[pc]);
  }

  lemma {:induction false} StatesMirror(m: Module, ft: FuncType, fn: Func, ss: seq<VState>, pc: nat)
    requires Trace(m, ft, fn, ss) && pc <= |fn.code|
    ensures WF(ss[pc])
    ensures pc < |fn.code| ==> Mirrors(fn, ft, OpenStack(fn.code, pc), ss[pc])
    ensures forall q :: 0 <= q <= pc ==> ss[q].maxStack <= ss[pc].maxStack
  {
    if pc > 0 {
      StatesMirror(m, ft, fn, ss, pc - 1);
      NextMirrors(m, ft, fn, ss, pc - 1);
    }
    if pc < |fn.code| { NotEnded(m, ft, fn, ss, pc); }
  }

  /** The outermost construct is the function, and inner heights are no lower. */
  lemma {:induction false} CtrlFacts(m: Module, ft: FuncType, fn: Func, ss: seq<VState>, pc: nat, i: nat)
    requires Trace(m, ft, fn, ss) && pc < |fn.code| && i <= |OpenStack(fn.code, pc)|
    ensures |ss[pc].ctrls| == |OpenStack(fn.code, pc)| + 1
    ensures ss[pc].ctrls[0].block.None? && ss[pc].ctrls[0].ends == ft.results
    ensures ss[pc].ctrls[i].height <= ss[pc].Top().height <= |ss[pc].stack|
  {
    StatesMirror(m, ft, fn, ss, pc);
  }

  /** `max_stack` bounds the checker's stack at every pc. */
  lemma {:induction false} HeightBound(m: Module, ft: FuncType, fn: Func, ss: seq<VState>, pc: nat)
    requires Trace(m, ft, fn, ss) && pc <= |fn.code|
    ensures |ss[pc].stack| <= fn.maxStack
  {
    StatesMirror(m, ft, fn, ss, pc);
    StatesMirror(m, ft, fn, ss, |fn.code|);
  }

  lemma {:induction false} NextKeeps(m: Module, ft: FuncType, fn: Func, ss: seq<VState>, pc: nat, d: nat)
    requires Trace(m, ft, fn, ss) && pc < |fn.code| && WF(ss[pc]) && d < |ss[pc].ctrls|
    requires fn.code[pc].End? ==> d + 1 < |ss[pc].ctrls|
    ensures KeepsAt(ss[pc], ss[pc + 1], d)
    ensures ss[pc + 1].ctrls[d].hasElse ==>
      ss[pc].ctrls[d].hasElse || (fn.code[pc].Else? && |ss[pc].ctrls| == d + 1)
  {
    assert Steps(m, ft, fn, pc, ss[pc], ss[pc + 1]);
    StepKeeps(m, ft, fn, fn.code[pc], ss[pc], d);
  }

  /** The state an opening leaves behind. */
  lemma {:induction false} AfterOpen(m: Module, ft: FuncType, fn: Func, ss: seq<VState>, o: nat)
    requires Trace(m, ft, fn, ss) && o < |fn.code| && fn.code[o].Open?
    ensures var s, s0, n := ss[o], ss[o + 1], |ss[o].ctrls|;
      && n > 0 && |s0.ctrls| == n + 1 && s0.ctrls[..n] == s.ctrls
      && s0.ctrls[n].height == |s0.stack| <= |s.stack|
      && s0.stack == s.stack[..|s0.stack|]
      && s0.ctrls[n].unreachable == s.Top().unreachable && !s0.ctrls[n].hasElse
      && (fn.code[o].kind != IfK ==> s0.stack == s.stack)
      && (fn.code[o].kind == IfK && !s.Top().unreachable ==> |s.stack| == |s0.stack| + 1)
  {
    assert Steps(m, ft, fn, o, ss[o], ss[o + 1]);
    StatesMirror(m, ft, fn, ss, o);
    OpenKeeps(ss[o], fn.code[o].kind, fn.code[o].bt);
  }

  /** The state just after the opening at `o`, seen from a pc still inside it. */
  lemma {:induction false} Inside(m: Module, ft: FuncType, fn: Func, ss: seq<VState>, o: nat, pc: nat, d: nat)
    requires Trace(m, ft, fn, ss) && o < pc < |fn.code| && fn.code[o].Open?
    requires d == |OpenStack(fn.code, o)| + 1
    requires forall q {:trigger Deep(fn.code, d, q)} :: o < q <= pc ==> Deep(fn.code, d, q)
    ensures d < |ss[o + 1].ctrls| && KeepsAt(ss[o + 1], ss[pc], d)
    ensures ss[pc].ctrls[d].hasElse ==>
      exists x :: o < x < pc && fn.code[x].Else? && |OpenStack(fn.code, x)| == d
    decreases pc
  {
    StatesMirror(m, ft, fn, ss, pc - 1);
    assert Deep(fn.code, d, pc);
    if pc == o + 1 {
      AfterOpen(m, ft, fn, ss, o);
    } else {
      assert Deep(fn.code, d, pc - 1);
      Inside(m, ft, fn, ss, o, pc - 1, d);
      NextKeeps(m, ft, fn, ss, pc - 1, d);
    }
  }
}
