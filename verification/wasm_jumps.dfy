/** Where control may land: the checker's state after a construct's `end`, after its
    `else`, and at a loop's start, in terms of the state at its opening. */
module WasmJumps {
  import opened Options
  import opened WasmSyntax
  import opened WasmStructure
  import opened WasmValidation
  import opened WasmValidationFacts
  import opened WasmStatic

  /** A construct directly enclosing a pc: its opening has been open since `o`. */
  lemma {:induction false} OpenSince(code: seq<Instr>, o: nat, pc: nat)
    requires o < pc <= |code| && code[o].Open? && DirectlyIn(code, o, pc)
    ensures forall q {:trigger Deep(code, |OpenStack(code, o)| + 1, q)} ::
      o < q <= pc ==> Deep(code, |OpenStack(code, o)| + 1, q)
  {
    var i := |OpenStack(code, o)|;
    var d := i + 1;
    StaysOpen(code, pc, i);
    forall q | o < q <= pc ensures Deep(code, d, q) {
      assert StillOpen(code, pc, i, q);
    }
  }

  /** What a pc knows about the i-th construct around it. */
  lemma {:induction false} Around(m: Module, ft: FuncType, fn: Func, ss: seq<VState>, pc: nat, i: nat)
    requires Trace(m, ft, fn, ss) && pc < |fn.code| && i < |OpenStack(fn.code, pc)|
    ensures var o := OpenStack(fn.code, pc)[i];
      && o < pc && fn.code[o].Open?
      && OpenStack(fn.code, o) == OpenStack(fn.code, pc)[..i]
      && |ss[pc].ctrls| == |OpenStack(fn.code, pc)| + 1
      && ss[pc].ctrls[..i + 1] == ss[o].ctrls
      && ss[pc].ctrls[i + 1].height == |ss[o + 1].stack| <= |ss[pc].stack|
      && ss[pc].stack[..|ss[o + 1].stack|] == ss[o + 1].stack
      && |ss[o + 1].ctrls| == i + 2
      && ss[o + 1].ctrls[..i + 1] == ss[o].ctrls
      && SameConstruct(ss[pc].ctrls[i + 1], ss[o + 1].ctrls[i + 1])
      && ss[pc].ctrls[i + 1].block == Some(fn.code[o].kind)
      && ss[pc].ctrls[i + 1].ends == BlockResults(fn.code[o].bt)
      && ss[o + 1].ctrls[i + 1].unreachable == ss[o].ctrls[i].unreachable
  {
    StaysOpen(fn.code, pc, i);
    var o := OpenStack(fn.code, pc)[i];
    var d := i + 1;
    forall q | o < q <= pc ensures Deep(fn.code, d, q) {
      assert StillOpen(fn.code, pc, i, q);
    }
    AfterOpen(m, ft, fn, ss, o);
    StatesMirror(m, ft, fn, ss, o);
    StatesMirror(m, ft, fn, ss, pc);
    Inside(m, ft, fn, ss, o, pc, i + 1);
  }

  lemma {:induction false} EndStep(m: Module, ft: FuncType, fn: Func, ss: seq<VState>, e: nat)
    requires Trace(m, ft, fn, ss) && e < |fn.code| && fn.code[e].End? && OpenStack(fn.code, e) != []
    ensures e + 1 < |fn.code|
    ensures |ss[e].ctrls| == |OpenStack(fn.code, e)| + 1
    ensures ss[e + 1].ctrls == ss[e].ctrls[..|ss[e].ctrls| - 1]
    ensures ss[e].Top().height <= |ss[e].stack|
    ensures ss[e + 1].stack == ss[e].stack[..ss[e].Top().height] + Knowns(ss[e].Top().ends)
    ensures ss[e].Top().block == Some(IfK) && !ss[e].Top().hasElse ==> ss[e].Top().ends == []
    ensures AllKnown(ss[e].stack) && !ss[e].Top().unreachable ==> ss[e + 1].stack == ss[e].stack
  {
    StatesMirror(m, ft, fn, ss, e);
    var st := OpenStack(fn.code, e);
    assert st[|st| - 1] < |fn.code|;
    assert Steps(m, ft, fn, e, ss[e], ss[e + 1]);
    EndFrame(ss[e]);
    if AllKnown(ss[e].stack) && !ss[e].Top().unreachable {
      PopAllReachable(ss[e], ss[e].Top().ends);
    }
  }

  /** `end` returns to the control stack of the opening and leaves exactly the
      construct's results above the operands it found. */
  lemma {:induction false} AfterEnd(m: Module, ft: FuncType, fn: Func, ss: seq<VState>, o: nat, e: nat)
    requires Trace(m, ft, fn, ss) && o < e < |fn.code| && fn.code[o].Open? && fn.code[e].End?
    requires DirectlyIn(fn.code, o, e)
    ensures e + 1 < |fn.code|
    ensures ss[e + 1].ctrls == ss[o].ctrls
    ensures ss[e + 1].stack == ss[o + 1].stack + Knowns(BlockResults(fn.code[o].bt))
    ensures OpenStack(fn.code, e + 1) == OpenStack(fn.code, o)
  {
    var i := |OpenStack(fn.code, o)|;
    assert OpenStack(fn.code, e)[i] == o;
    Around(m, ft, fn, ss, e, i);
    EndStep(m, ft, fn, ss, e);
  }

  /** An `if` that may be skipped has no result. */
  lemma {:induction false} SkippedIf(m: Module, ft: FuncType, fn: Func, ss: seq<VState>, o: nat)
    requires Trace(m, ft, fn, ss) && o < |fn.code| && fn.code[o].Open? && Resolved(fn.code, o)
    requires fn.code[o].kind == IfK && fn.code[o].elsePc.None?
    ensures fn.code[o].bt.None?
  {
    var e, d := fn.code[o].endPc, |OpenStack(fn.code, o)| + 1;
    assert OpenStack(fn.code, e)[d - 1] == o;
    Around(m, ft, fn, ss, e, d - 1);
    EndStep(m, ft, fn, ss, e);
    OpenSince(fn.code, o, e);
    Inside(m, ft, fn, ss, o, e, d);
    StaysOpen(fn.code, e, d - 1);
    forall x | o < x < e && fn.code[x].Else?
      ensures |OpenStack(fn.code, x)| != d
    {
      assert StillOpen(fn.code, e, d - 1, x);
    }
  }

  lemma {:induction false} ElseStep(m: Module, ft: FuncType, fn: Func, ss: seq<VState>, x: nat)
    requires Trace(m, ft, fn, ss) && x < |fn.code| && fn.code[x].Else? && OpenStack(fn.code, x) != []
    ensures var s, r, n := ss[x], ss[x + 1], |OpenStack(fn.code, x)|;
      && x + 1 < |fn.code| && |s.ctrls| == n + 1
      && |r.ctrls| == n + 1 && r.ctrls[..n] == s.ctrls[..n] && SameConstruct(r.ctrls[n], s.ctrls[n])
      && r.ctrls[n].unreachable == s.ctrls[n - 1].unreachable
      && s.Top().height <= |s.stack| && r.stack == s.stack[..s.Top().height]
      && (AllKnown(s.stack) && !s.Top().unreachable ==> s.stack == r.stack + Knowns(s.Top().ends))
  {
    StatesMirror(m, ft, fn, ss, x);
    assert Steps(m, ft, fn, x, ss[x], ss[x + 1]);
    ElseFrame(ss[x]);
    if AllKnown(ss[x].stack) && !ss[x].Top().unreachable {
      PopAllReachable(ss[x], ss[x].Top().ends);
    }
  }

  /** `else` restarts from the operands of the opening, as reachable as its surroundings. */
  lemma {:induction false} AfterElse(m: Module, ft: FuncType, fn: Func, ss: seq<VState>, o: nat, x: nat)
    requires Trace(m, ft, fn, ss) && o < x < |fn.code| && fn.code[o].Open? && fn.code[x].Else?
    requires DirectlyIn(fn.code, o, x)
    ensures var n := |OpenStack(fn.code, o)| + 1;
      && x + 1 < |fn.code| && |ss[o].ctrls| == n
      && |ss[x + 1].ctrls| == n + 1 && |ss[o + 1].ctrls| == n + 1
      && ss[x + 1].ctrls[..n] == ss[o].ctrls
      && ss[x + 1].ctrls[n].unreachable == ss[o].ctrls[n - 1].unreachable
      && SameConstruct(ss[x + 1].ctrls[n], ss[o + 1].ctrls[n])
      && ss[x + 1].stack == ss[o + 1].stack
    ensures OpenStack(fn.code, x + 1) == OpenStack(fn.code, o) + [o]
  {
    var i := |OpenStack(fn.code, o)|;
    assert OpenStack(fn.code, x)[i] == o;
    Around(m, ft, fn, ss, x, i);
    ElseStep(m, ft, fn, ss, x);
    assert ss[x].ctrls[i] == ss[x].ctrls[..i + 1][i] == ss[o].ctrls[i];
  }
}
