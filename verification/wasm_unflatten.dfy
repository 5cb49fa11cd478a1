/** Every well-formed flat body is the flat form of some structured code, so what is
    proved of structured code holds of every body the decoder accepts. */
module WasmUnflatten {
  import opened Options
  import opened WasmSyntax
  import opened WasmStructure
  import opened WasmDecodeFacts
  import S = WasmStructured

  predicate Inner(code: seq<Instr>, d: nat, x: nat)
    requires x <= |code|
  {
    |OpenStack(code, x)| > d
  }

  /** A whole number of statements: control enters at lo, leaves at hi, and in between
      never leaves the construct around lo. */
  predicate Level(code: seq<Instr>, lo: nat, hi: nat) {
    && lo <= hi <= |code| && OpenStack(code, hi) == OpenStack(code, lo)
    && (forall q {:trigger Deep(code, |OpenStack(code, lo)|, q)} :: lo <= q <= hi ==> Deep(code, |OpenStack(code, lo)|, q))
    && (forall x {:trigger Inner(code, |OpenStack(code, lo)|, x)} ::
          lo <= x < hi && code[x].Else? ==> Inner(code, |OpenStack(code, lo)|, x))
  }

  /** The module-wide array holds the targets of every br_table of fn. */
  predicate TargetsHeld(m: Module, fn: Func) {
    forall p {:trigger TableOk(fn.code, p)} :: 0 <= p < |fn.code| && fn.code[p].BrTable? ==>
      m.Targets(fn, fn.code[p].first, fn.code[p].count).Some?
  }

  /** Between an opening and its end everything lies inside it. */
  lemma {:induction false} InsideOf(code: seq<Instr>, o: nat, q: nat)
    requires WellFormed(code) && o < |code| && code[o].Open? && o < q <= code[o].endPc
    ensures code[o].endPc < |code| && |OpenStack(code, q)| > |OpenStack(code, o)|
    ensures OpenStack(code, q)[..|OpenStack(code, o)| + 1] == OpenStack(code, o) + [o]
  {
    assert Resolved(code, o);
    var e, d := code[o].endPc, |OpenStack(code, o)|;
    assert OpenStack(code, e)[d] == o;
    StaysOpen(code, e, d);
    assert StillOpen(code, e, d, q);
    assert OpenStack(code, e)[..d + 1] == OpenStack(code, e);
  }

  /** An `else` directly inside a construct is that construct's own. */
  lemma {:induction false} OwnElse(code: seq<Instr>, o: nat, x: nat)
    requires WellFormed(code) && o < |code| && code[o].Open? && o < x < code[o].endPc && x < |code| && code[x].Else?
    ensures |OpenStack(code, x)| > |OpenStack(code, o)|
    ensures |OpenStack(code, x)| == |OpenStack(code, o)| + 1 ==> code[o].kind == IfK && code[o].elsePc == Some(x)
  {
    InsideOf(code, o, x);
    assert Owned(code, x);
  }

  lemma {:induction false} ElseMeansIf(code: seq<Instr>, o: nat)
    requires WellFormed(code) && o < |code| && code[o].Open? && code[o].elsePc.Some?
    ensures code[o].kind == IfK
  {
    assert Resolved(code, o);
    OwnElse(code, o, code[o].elsePc.value);
  }

  /** A part of a construct between its opening, its `else` and its `end`. */
  lemma {:induction false} PartLevel(code: seq<Instr>, o: nat, lo: nat, hi: nat)
    requires WellFormed(code) && o < |code| && code[o].Open? && o < lo <= hi <= code[o].endPc && hi <= |code|
    requires OpenStack(code, lo) == OpenStack(code, o) + [o] && OpenStack(code, hi) == OpenStack(code, o) + [o]
    requires forall x :: lo <= x < hi && code[x].Else? ==> code[o].elsePc != Some(x)
    ensures Level(code, lo, hi)
  {
    InsideOf(code, o, hi);
    forall q | lo <= q <= hi ensures Deep(code, |OpenStack(code, lo)|, q) { InsideOf(code, o, q); }
    forall x | lo <= x < hi && code[x].Else? ensures Inner(code, |OpenStack(code, lo)|, x) { OwnElse(code, o, x); }
  }

  /** The statement that starts at lo ends before hi. */
  lemma {:induction false} EndsWithin(code: seq<Instr>, lo: nat, hi: nat)
    requires WellFormed(code) && Level(code, lo, hi) && lo < hi && code[lo].Open?
    ensures lo < code[lo].endPc < hi && OpenStack(code, code[lo].endPc + 1) == OpenStack(code, lo)
    ensures OpenStack(code, code[lo].endPc) == OpenStack(code, lo) + [lo]
    ensures OpenStack(code, lo + 1) == OpenStack(code, lo) + [lo]
  {
    assert Resolved(code, lo);
    var e := code[lo].endPc;
    if hi <= e { InsideOf(code, lo, hi); }
  }

  lemma {:induction false} RestLevel(code: seq<Instr>, lo: nat, mid: nat, hi: nat)
    requires Level(code, lo, hi) && lo <= mid <= hi && OpenStack(code, mid) == OpenStack(code, lo)
    ensures Level(code, mid, hi)
  {
    forall q | mid <= q <= hi ensures Deep(code, |OpenStack(code, mid)|, q) {
      assert Deep(code, |OpenStack(code, lo)|, q);
    }
    forall x | mid <= x < hi && code[x].Else? ensures Inner(code, |OpenStack(code, mid)|, x) {
      assert Inner(code, |OpenStack(code, lo)|, x);
    }
  }

  /** Inside a level, `end` never comes at its own depth. */
  lemma {:induction false} NoEndHere(code: seq<Instr>, lo: nat, hi: nat)
    requires WellFormed(code) && Level(code, lo, hi) && lo < hi < |code|
    ensures !code[lo].End? && !code[lo].Else?
  {
    assert Deep(code, |OpenStack(code, lo)|, lo + 1);
    assert code[lo].Else? ==> Inner(code, |OpenStack(code, lo)|, lo);
  }

  /** The statement c stands for the instructions from lo to hi. */
  predicate Stands(m: Module, fn: Func, s: S.Stmt, lo: nat, hi: nat)
    requires lo <= hi <= |fn.code|
  {
    && S.StmtSize(s) == hi - lo && S.StmtEntries(s) == Entries(fn.code, hi) - Entries(fn.code, lo)
    && S.FlatStmt(m, fn, s, lo, Entries(fn.code, lo))
  }

  predicate StandsFor(m: Module, fn: Func, c: S.Code, lo: nat, hi: nat)
    requires lo <= hi <= |fn.code|
  {
    && S.CodeSize(c) == hi - lo && S.CodeEntries(c) == Entries(fn.code, hi) - Entries(fn.code, lo)
    && S.FlatCode(m, fn, c, lo, Entries(fn.code, lo))
  }

  lemma {:induction false} Join(m: Module, fn: Func, s: S.Stmt, rest: S.Code, lo: nat, mid: nat, hi: nat)
    requires lo <= mid <= hi <= |fn.code| && Stands(m, fn, s, lo, mid) && StandsFor(m, fn, rest, mid, hi)
    ensures StandsFor(m, fn, S.Cons(s, rest), lo, hi)
  {
  }

  /** A statement of one instruction. */
  lemma {:induction false} Single(m: Module, fn: Func, lo: nat) returns (s: S.Stmt)
    requires WellFormed(fn.code) && TargetsHeld(m, fn) && lo < |fn.code|
    requires !fn.code[lo].Open? && !fn.code[lo].Else? && !fn.code[lo].End?
    ensures Stands(m, fn, s, lo, lo + 1)
  {
    match fn.code[lo]
    case Unreachable => s := S.SUnreachable;
    case Br(d) => s := S.SBr(d);
    case BrIf(d) => s := S.SBrIf(d);
    case BrTable(first, count) =>
      assert TableOk(fn.code, lo);
      var ts := m.Targets(fn, first, count).value;
      s := S.SBrTable(ts[..count - 1], ts[count - 1]);
      assert ts[..count - 1] + [ts[count - 1]] == ts;
    case Return => s := S.SReturn;
    case Call(f) => s := S.SCall(f);
    case CallIndirect(ti, table) => s := S.SCallIndirect(ti, table);
    case Do(p) => s := S.SDo(p);
  }

  lemma {:induction false} Enclosed(m: Module, fn: Func, lo: nat, body: S.Code) returns (s: S.Stmt)
    requires lo < |fn.code| && fn.code[lo].Open? && fn.code[lo].elsePc.None?
    requires var e := fn.code[lo].endPc;
      lo < e < |fn.code| && fn.code[e].End? && StandsFor(m, fn, body, lo + 1, e)
    ensures Stands(m, fn, s, lo, fn.code[lo].endPc + 1)
  {
    match fn.code[lo].kind
    case BlockK => s := S.SBlock(fn.code[lo].bt, body);
    case LoopK => s := S.SLoop(fn.code[lo].bt, body);
    case IfK => s := S.SIf(fn.code[lo].bt, body, false, S.Nil);
  }

  lemma {:induction false} Split(m: Module, fn: Func, lo: nat, thn: S.Code, els: S.Code) returns (s: S.Stmt)
    requires lo < |fn.code| && fn.code[lo].Open? && fn.code[lo].kind == IfK && fn.code[lo].elsePc.Some?
    requires var x, e := fn.code[lo].elsePc.value, fn.code[lo].endPc;
      && lo < x < e < |fn.code| && fn.code[x].Else? && fn.code[e].End?
      && StandsFor(m, fn, thn, lo + 1, x) && StandsFor(m, fn, els, x + 1, e)
    ensures Stands(m, fn, s, lo, fn.code[lo].endPc + 1)
  {
    s := S.SIf(fn.code[lo].bt, thn, true, els);
  }

  /** The branches of the construct at lo are levels of their own. */
  predicate Parted(code: seq<Instr>, lo: nat, hi: nat)
    requires lo < hi <= |code| && code[lo].Open?
  {
    var e := code[lo].endPc;
    && lo < e < hi && code[e].End?
    && match code[lo].elsePc
       case None => Level(code, lo + 1, e)
       case Some(x) =>
         code[lo].kind == IfK && lo < x < e && code[x].Else? && Level(code, lo + 1, x) && Level(code, x + 1, e)
  }

  /** The pieces of the construct at lo and what follows it are levels again. */
  lemma {:induction false} Pieces(code: seq<Instr>, lo: nat, hi: nat)
    requires WellFormed(code) && Level(code, lo, hi) && lo < hi && code[lo].Open?
    ensures var e := code[lo].endPc;
      Level(code, e + 1, hi) && Parted(code, lo, hi)
  {
    var e := code[lo].endPc;
    EndsWithin(code, lo, hi);
    assert Resolved(code, lo);
    RestLevel(code, lo, e + 1, hi);
    if code[lo].elsePc.None? {
      PartLevel(code, lo, lo + 1, e);
    } else {
      ElseMeansIf(code, lo);
      PartLevel(code, lo, lo + 1, code[lo].elsePc.value);
      PartLevel(code, lo, code[lo].elsePc.value + 1, e);
    }
  }

  /** The first statement at lo, and where the next one begins. */
  lemma {:induction false} First(m: Module, fn: Func, lo: nat, hi: nat) returns (s: S.Stmt, mid: nat)
    requires WellFormed(fn.code) && TargetsHeld(m, fn) && Level(fn.code, lo, hi) && lo < hi < |fn.code|
    ensures lo < mid <= hi && Level(fn.code, mid, hi) && Stands(m, fn, s, lo, mid)
    decreases hi - lo, 1
  {
    NoEndHere(fn.code, lo, hi);
    if fn.code[lo].Open? {
      Pieces(fn.code, lo, hi);
      mid := fn.code[lo].endPc + 1;
      s := Construct(m, fn, lo, hi);
    } else {
      mid := lo + 1;
      s := Single(m, fn, lo);
      RestLevel(fn.code, lo, mid, hi);
    }
  }

  lemma {:induction false} Construct(m: Module, fn: Func, lo: nat, hi: nat) returns (s: S.Stmt)
    requires WellFormed(fn.code) && TargetsHeld(m, fn) && lo < hi < |fn.code| && fn.code[lo].Open?
    requires Parted(fn.code, lo, hi)
    ensures Stands(m, fn, s, lo, fn.code[lo].endPc + 1)
    decreases hi - lo, 0
  {
    var e := fn.code[lo].endPc;
    if fn.code[lo].elsePc.None? {
      var body := Unflatten(m, fn, lo + 1, e);
      s := Enclosed(m, fn, lo, body);
    } else {
      var x := fn.code[lo].elsePc.value;
      var thn := Unflatten(m, fn, lo + 1, x);
      var els := Unflatten(m, fn, x + 1, e);
      s := Split(m, fn, lo, thn, els);
    }
  }

  lemma {:induction false} Unflatten(m: Module, fn: Func, lo: nat, hi: nat) returns (c: S.Code)
    requires WellFormed(fn.code) && TargetsHeld(m, fn) && Level(fn.code, lo, hi) && hi < |fn.code|
    ensures StandsFor(m, fn, c, lo, hi)
    decreases hi - lo, 2
  {
    if lo == hi { return S.Nil; }
    var s, mid := First(m, fn, lo, hi);
    var rest := Unflatten(m, fn, mid, hi);
    Join(m, fn, s, rest, lo, mid, hi);
    c := S.Cons(s, rest);
  }

  lemma {:induction false} WholeLevel(code: seq<Instr>)
    requires WellFormed(code)
    ensures Level(code, 0, |code| - 1)
  {
    forall q | 0 <= q <= |code| - 1 ensures Deep(code, |OpenStack(code, 0)|, q) {}
    forall x | 0 <= x < |code| - 1 && code[x].Else? ensures Inner(code, |OpenStack(code, 0)|, x) {
      assert Owned(code, x);
    }
  }

  /** A well-formed body is the flat form of structured code. */
  lemma {:induction false} Structured(m: Module, fn: Func) returns (c: S.Code)
    requires WellFormed(fn.code) && TargetsHeld(m, fn)
    ensures S.FlatBody(m, fn, c)
  {
    WholeLevel(fn.code);
    c := Unflatten(m, fn, 0, |fn.code| - 1);
  }
}
