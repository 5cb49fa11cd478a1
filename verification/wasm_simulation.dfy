/** Simulation of structured evaluation by the flat machine, construct by construct,
    and the resulting equivalence of whole calls. */
module WasmSimulation {
  import opened Options
  import opened Words
  import opened WasmSyntax
  import opened WasmExec
  import opened WasmMachine
  import opened WasmLowering
  import S = WasmStructured

  /** Reaching another configuration first, then simulating from it. */
  lemma {:induction false} SimAfter(p: Prog, outer: seq<Act>, act: Act, store: Store, a: Act, store1: Store, ref: Act,
                 k: nat, end: nat, len: nat, r: S.Result, fuel: nat)
    requires Closed(p)
    requires p.leads(Mach(outer, act, store), k, Running(Mach(outer, a, store1)))
    requires Sim(p, outer, a, store1, ref, end, len, r, fuel)
    ensures Sim(p, outer, act, store, ref, end, len, r, fuel + k)
    ensures Sim(p, outer, act, store, ref, end, len, r, fuel)
  {
    var m0, m1 := Mach(outer, act, store), Mach(outer, a, store1);
    if r.OutOfFuel? {
      assert ByLong(p, m0, m1, k, fuel);
      assert ByWeaken(p, m0, k + fuel, fuel, StuckState);
    } else {
      var out := After(p, outer, ref, end, len, r);
      assert ByTrans(p, m0, m1, k, AtLeast(r), out);
      assert ByWeaken(p, m0, k + AtLeast(r), AtLeast(r), out);
    }
  }

  /** A first iteration that may run out of labels, then a simulation. */
  lemma {:induction false} SimStep(p: Prog, outer: seq<Act>, act: Act, store: Store, a: Act, store1: Store, ref: Act,
                end: nat, len: nat, r: S.Result, fuel: nat)
    requires Closed(p)
    requires StepP(p, Mach(outer, act, store)) == Running(Mach(outer, a, store1))
    requires Sim(p, outer, a, store1, ref, end, len, r, fuel)
    ensures Sim(p, outer, act, store, ref, end, len, r, fuel)
  {
    assert ByStep(p, Mach(outer, act, store), Running(Mach(outer, a, store1)));
    SimAfter(p, outer, act, store, a, store1, ref, 1, end, len, r, fuel);
  }

  lemma {:induction false} SimExhausted(p: Prog, outer: seq<Act>, act: Act, store: Store, ref: Act, end: nat, len: nat,
                     r: S.Result, fuel: nat)
    requires Closed(p) && Exhausted(StepP(p, Mach(outer, act, store)))
    ensures Sim(p, outer, act, store, ref, end, len, r, fuel)
  {
    assert ByExhaustion(p, Mach(outer, act, store), fuel, StuckState);
    if !r.OutOfFuel? {
      assert ByExhaustion(p, Mach(outer, act, store), AtLeast(r), After(p, outer, ref, end, len, r));
    }
  }

  /** One iteration reaches `out`. */
  lemma {:induction false} StepLeads(p: Prog, m: Machine, k: nat, out: Outcome)
    requires Closed(p) && StepP(p, m) == out && k <= 1
    ensures p.leads(m, k, out)
  {
    assert ByStep(p, m, out) && ByWeaken(p, m, 1, k, out);
  }

  /** One more iteration after reaching m1. */
  lemma {:induction false} ThenStep(p: Prog, m0: Machine, m1: Machine, k: nat, out: Outcome)
    requires Closed(p) && p.leads(m0, k, Running(m1)) && StepP(p, m1) == out
    ensures p.leads(m0, 0, out)
  {
    assert ByStep(p, m1, out) && ByTrans(p, m0, m1, k, 1, out) && ByWeaken(p, m0, k + 1, 0, out);
  }

  lemma {:induction false} Weaken(p: Prog, m: Machine, out: Outcome)
    requires Closed(p) && p.leads(m, 1, out)
    ensures p.leads(m, 0, out)
  {
    assert ByWeaken(p, m, 1, 0, out);
  }

  /** The target configuration depends only on the function and the labels. */
  lemma {:induction false} SameAfter(p: Prog, outer: seq<Act>, ref: Act, a: Act, end: nat, len: nat, r: S.Result)
    requires a.func == ref.func && a.labels == ref.labels && !r.OutOfFuel?
    ensures After(p, outer, ref, end, len, r) == After(p, outer, a, end, len, r)
  {
  }

  // ---- one unfolding of the evaluator ----

  lemma {:induction false} EvalCons(p: Prog, ft: FuncType, s: S.Stmt, rest: S.Code, st: S.State, fuel: nat)
    ensures var r := S.EvalStmt(p.env, p.asts, ft, s, st, fuel);
      S.EvalCode(p.env, p.asts, ft, S.Cons(s, rest), st, fuel) ==
        if r.Normal? then S.EvalCode(p.env, p.asts, ft, rest, r.st, fuel) else r
  {
  }

  lemma {:induction false} EvalArm(p: Prog, ft: FuncType, s: S.Stmt, st: S.State, fuel: nat)
    requires s.SIf? && st.operands != []
    ensures var n := |st.operands|;
      var st1 := st.(operands := st.operands[..n - 1]);
      S.EvalStmt(p.env, p.asts, ft, s, st, fuel) ==
        if Low32(st.operands[n - 1]) != 0 then
          S.ExitBlock(S.EvalCode(p.env, p.asts, ft, s.thn, st1, fuel), n - 1, |BlockResults(s.bt)|)
        else if s.hasElse then
          S.ExitBlock(S.EvalCode(p.env, p.asts, ft, s.els, st1, fuel), n - 1, |BlockResults(s.bt)|)
        else S.Normal(st1)
  {
  }

  // ---- straight-line code ----

  lemma {:induction false} SimCode(p: Prog, fn: Func, ft: FuncType, c: S.Code, base: nat, t: nat,
                outer: seq<Act>, act: Act, store: Store, fuel: nat)
    requires Closed(p) && Lowered(p.env.m, p.asts)
    requires Runs(p, fn, ft, act) && act.pc == base && S.FlatCode(p.env.m, fn, c, base, t)
    ensures Sim(p, outer, act, store, act, base + S.CodeSize(c), |fn.code|,
                S.EvalCode(p.env, p.asts, ft, c, StateOf(act, store), fuel), fuel)
    decreases fuel, 0, S.CodeSize(c), 3
  {
    match c
    case Nil => SimNil(p, ft, base, outer, act, store, |fn.code|, fuel);
    case Cons(s, rest) =>
      FlatCons(p.env.m, fn, s, rest, base, t);
      SimStmt(p, fn, ft, s, base, t, outer, act, store, fuel);
      SimBoth(p, fn, ft, s, rest, base, t + S.StmtEntries(s), outer, act, store, fuel);
  }

  lemma {:induction false} SimBoth(p: Prog, fn: Func, ft: FuncType, s: S.Stmt, rest: S.Code, base: nat, t: nat,
                outer: seq<Act>, act: Act, store: Store, fuel: nat)
    requires Closed(p) && Lowered(p.env.m, p.asts) && Runs(p, fn, ft, act) && act.pc == base
    requires S.FlatCode(p.env.m, fn, rest, base + S.StmtSize(s), t)
    requires Sim(p, outer, act, store, act, base + S.StmtSize(s), |fn.code|,
                 S.EvalStmt(p.env, p.asts, ft, s, StateOf(act, store), fuel), fuel)
    ensures var c := S.Cons(s, rest);
      Sim(p, outer, act, store, act, base + S.CodeSize(c), |fn.code|,
          S.EvalCode(p.env, p.asts, ft, c, StateOf(act, store), fuel), fuel)
    decreases fuel, 0, S.StmtSize(s) + S.CodeSize(rest), 2
  {
    var r := S.EvalStmt(p.env, p.asts, ft, s, StateOf(act, store), fuel);
    if r.Normal? {
      SimOnward(p, fn, ft, rest, base + S.StmtSize(s), t, outer, act, r.st, fuel);
    }
    SimCons(p, ft, s, rest, base, outer, act, store, |fn.code|, fuel);
  }

  /** What follows a statement that ended normally with `st`. */
  lemma {:induction false} SimOnward(p: Prog, fn: Func, ft: FuncType, rest: S.Code, mid: nat, t: nat,
                outer: seq<Act>, act: Act, st: S.State, fuel: nat)
    requires Closed(p) && Lowered(p.env.m, p.asts) && Runs(p, fn, ft, act) && S.FlatCode(p.env.m, fn, rest, mid, t)
    ensures var a := act.(pc := mid, locals := st.locals, operands := st.operands);
      Sim(p, outer, a, st.store, a, mid + S.CodeSize(rest), |fn.code|,
          S.EvalCode(p.env, p.asts, ft, rest, StateOf(a, st.store), fuel), fuel)
    decreases fuel, 0, S.CodeSize(rest), 5
  {
    var a := act.(pc := mid, locals := st.locals, operands := st.operands);
    SimCode(p, fn, ft, rest, mid, t, outer, a, st.store, fuel);
  }

  lemma {:induction false} SimNil(p: Prog, ft: FuncType, base: nat, outer: seq<Act>, act: Act, store: Store, len: nat, fuel: nat)
    requires Closed(p) && act.pc == base
    ensures Sim(p, outer, act, store, act, base + S.CodeSize(S.Nil), len,
                S.EvalCode(p.env, p.asts, ft, S.Nil, StateOf(act, store), fuel), fuel)
  {
    assert ByNothing(p, Mach(outer, act, store));
  }

  lemma {:induction false} FlatCons(m: Module, fn: Func, s: S.Stmt, rest: S.Code, base: nat, t: nat)
    requires S.FlatCode(m, fn, S.Cons(s, rest), base, t)
    ensures S.FlatStmt(m, fn, s, base, t) && S.FlatCode(m, fn, rest, base + S.StmtSize(s), t + S.StmtEntries(s))
  {
  }

  /** A statement and then the rest of the code. */
  lemma {:induction false} SimCons(p: Prog, ft: FuncType, s: S.Stmt, rest: S.Code, base: nat,
                outer: seq<Act>, act: Act, store: Store, len: nat, fuel: nat)
    requires Closed(p)
    requires var r := S.EvalStmt(p.env, p.asts, ft, s, StateOf(act, store), fuel);
      var mid := base + S.StmtSize(s);
      && Sim(p, outer, act, store, act, mid, len, r, fuel)
      && (r.Normal? ==>
            var a := act.(pc := mid, locals := r.st.locals, operands := r.st.operands);
            Sim(p, outer, a, r.st.store, a, mid + S.CodeSize(rest), len,
                S.EvalCode(p.env, p.asts, ft, rest, StateOf(a, r.st.store), fuel), fuel))
    ensures var c := S.Cons(s, rest);
      Sim(p, outer, act, store, act, base + S.CodeSize(c), len,
          S.EvalCode(p.env, p.asts, ft, c, StateOf(act, store), fuel), fuel)
  {
    EvalCons(p, ft, s, rest, StateOf(act, store), fuel);
    var r := S.EvalStmt(p.env, p.asts, ft, s, StateOf(act, store), fuel);
    var mid, end := base + S.StmtSize(s), base + S.CodeSize(S.Cons(s, rest));
    if r.Normal? {
      var a := act.(pc := mid, locals := r.st.locals, operands := r.st.operands);
      SimRest(p, outer, act, store, a, r.st.store, end, len,
              S.EvalCode(p.env, p.asts, ft, rest, StateOf(a, r.st.store), fuel), fuel);
    } else if !r.OutOfFuel? {
      assert After(p, outer, act, mid, len, r) == After(p, outer, act, end, len, r);
    }
  }

  lemma {:induction false} SimRest(p: Prog, outer: seq<Act>, act: Act, store: Store, a: Act, store1: Store,
                end: nat, len: nat, r: S.Result, fuel: nat)
    requires Closed(p) && p.leads(Mach(outer, act, store), 0, Running(Mach(outer, a, store1)))
    requires a.func == act.func && a.labels == act.labels
    requires Sim(p, outer, a, store1, a, end, len, r, fuel)
    ensures Sim(p, outer, act, store, act, end, len, r, fuel)
  {
    if !r.OutOfFuel? { SameAfter(p, outer, act, a, end, len, r); }
    SimAfter(p, outer, act, store, a, store1, a, 0, end, len, r, fuel);
  }

  lemma {:induction false} SimStmt(p: Prog, fn: Func, ft: FuncType, s: S.Stmt, base: nat, t: nat,
                outer: seq<Act>, act: Act, store: Store, fuel: nat)
    requires Closed(p) && Lowered(p.env.m, p.asts)
    requires Runs(p, fn, ft, act) && act.pc == base && S.FlatStmt(p.env.m, fn, s, base, t)
    ensures Sim(p, outer, act, store, act, base + S.StmtSize(s), |fn.code|,
                S.EvalStmt(p.env, p.asts, ft, s, StateOf(act, store), fuel), fuel)
    decreases fuel, 0, S.StmtSize(s), 2
  {
    match s
    case SBlock(_, _) => SimBlock(p, fn, ft, s, base, t, outer, act, store, fuel);
    case SLoop(_, _) => SimLoop(p, fn, ft, s, base, t, outer, act, store, fuel);
    case SIf(_, _, _, _) => SimIf(p, fn, ft, s, base, t, outer, act, store, fuel);
    case SCall(_) => SimDirect(p, fn, ft, s, base, t, outer, act, store, fuel);
    case SCallIndirect(_, _) => SimIndirect(p, fn, ft, s, base, t, outer, act, store, fuel);
    case _ => SimSimple(p, fn, ft, s, base, t, outer, act, store, fuel);
  }

  predicate Simple(s: S.Stmt) {
    s.SUnreachable? || s.SBr? || s.SBrIf? || s.SBrTable? || s.SReturn? || s.SDo?
  }

  /** Instructions that take exactly one iteration. */
  lemma {:induction false} SimSimple(p: Prog, fn: Func, ft: FuncType, s: S.Stmt, base: nat, t: nat,
                  outer: seq<Act>, act: Act, store: Store, fuel: nat)
    requires Closed(p) && Runs(p, fn, ft, act) && act.pc == base && S.FlatStmt(p.env.m, fn, s, base, t) && Simple(s)
    ensures Sim(p, outer, act, store, act, base + 1, |fn.code|,
                S.EvalStmt(p.env, p.asts, ft, s, StateOf(act, store), fuel), fuel)
  {
    var r := S.EvalStmt(p.env, p.asts, ft, s, StateOf(act, store), fuel);
    var room := StepMach(p, outer, act, store, fn, ft);
    if s.SDo? {
      PlainStep(p, fn, ft, s, base, t, act, store, room, outer, fuel);
    } else if s.SBrIf? {
      ChoiceStep(p, fn, ft, s, base, t, act, store, room, outer, fuel);
    } else if s.SBrTable? {
      TableStep(p, fn, ft, s, base, t, act, store, room, outer, fuel);
    } else {
      JumpStep(p, fn, ft, s, base, t, act, store, room, outer, fuel);
    }
    var out := After(p, outer, act, base + 1, |fn.code|, r);
    StepLeads(p, Mach(outer, act, store), AtLeast(r), out);
  }

  lemma {:induction false} PlainStep(p: Prog, fn: Func, ft: FuncType, s: S.Stmt, base: nat, t: nat,
                  act: Act, store: Store, room: nat, outer: seq<Act>, fuel: nat)
    requires Runs(p, fn, ft, act) && act.pc == base && S.FlatStmt(p.env.m, fn, s, base, t) && s.SDo?
    ensures var r := S.EvalStmt(p.env, p.asts, ft, s, StateOf(act, store), fuel);
      && !r.OutOfFuel?
      && LocalOutcome(p, outer, store, StepLocal(p.env, fn, ft, room, act, store))
         == After(p, outer, act, base + 1, |fn.code|, r)
  {
  }

  lemma {:induction false} JumpStep(p: Prog, fn: Func, ft: FuncType, s: S.Stmt, base: nat, t: nat,
                 act: Act, store: Store, room: nat, outer: seq<Act>, fuel: nat)
    requires Runs(p, fn, ft, act) && act.pc == base && S.FlatStmt(p.env.m, fn, s, base, t)
    requires Simple(s) && !s.SDo? && !s.SBrIf? && !s.SBrTable?
    ensures var r := S.EvalStmt(p.env, p.asts, ft, s, StateOf(act, store), fuel);
      && !r.OutOfFuel?
      && LocalOutcome(p, outer, store, StepLocal(p.env, fn, ft, room, act, store))
         == After(p, outer, act, base + 1, |fn.code|, r)
  {
  }

  lemma {:induction false} ChoiceStep(p: Prog, fn: Func, ft: FuncType, s: S.Stmt, base: nat, t: nat,
                   act: Act, store: Store, room: nat, outer: seq<Act>, fuel: nat)
    requires Runs(p, fn, ft, act) && act.pc == base && S.FlatStmt(p.env.m, fn, s, base, t)
    requires s.SBrIf?
    ensures var r := S.EvalStmt(p.env, p.asts, ft, s, StateOf(act, store), fuel);
      && !r.OutOfFuel?
      && LocalOutcome(p, outer, store, StepLocal(p.env, fn, ft, room, act, store))
         == After(p, outer, act, base + 1, |fn.code|, r)
  {
  }

  lemma {:induction false} TableStep(p: Prog, fn: Func, ft: FuncType, s: S.Stmt, base: nat, t: nat,
                  act: Act, store: Store, room: nat, outer: seq<Act>, fuel: nat)
    requires Runs(p, fn, ft, act) && act.pc == base && S.FlatStmt(p.env.m, fn, s, base, t)
    requires s.SBrTable?
    ensures var r := S.EvalStmt(p.env, p.asts, ft, s, StateOf(act, store), fuel);
      && !r.OutOfFuel?
      && LocalOutcome(p, outer, store, StepLocal(p.env, fn, ft, room, act, store))
         == After(p, outer, act, base + 1, |fn.code|, r)
  {
    if act.operands != [] {
      TableLocal(p, fn, ft, s, base, t, act, store, room);
    }
  }

  function Selected(targets: seq<nat>, dflt: nat, selector: nat): nat {
    if selector < |targets| then targets[selector] else dflt
  }

  lemma {:induction false} TableLocal(p: Prog, fn: Func, ft: FuncType, s: S.Stmt, base: nat, t: nat, act: Act, store: Store, room: nat)
    requires Runs(p, fn, ft, act) && act.pc == base && S.FlatStmt(p.env.m, fn, s, base, t)
    requires s.SBrTable? && act.operands != []
    ensures var n := |act.operands| - 1;
      StepLocal(p.env, fn, ft, room, act, store) ==
      Branch(act.(operands := act.operands[..n]), Selected(s.targets, s.dflt, Low32(act.operands[n])), |fn.code|, store)
  {
  }

  // ---- leaving a block ----

  lemma {:induction false} BranchShift(outer: seq<Act>, act: Act, a: Act, l: Label, st: S.State, d: nat, len: nat)
    requires a.func == act.func && a.labels == act.labels + [l]
    ensures BranchFrom(outer, a, st, d + 1, len) == BranchFrom(outer, act, st, d, len)
  {
    var n := |act.labels|;
    if d < n {
      var i := n - 1 - d;
      assert a.labels[i] == act.labels[i];
      assert a.labels[..i] == act.labels[..i] && a.labels[..i + 1] == act.labels[..i + 1];
    }
  }

  lemma {:induction false} BranchZero(p: Prog, outer: seq<Act>, act: Act, a: Act, l: Label, st: S.State, len: nat)
    requires a.func == act.func && a.labels == act.labels + [l] && l.kind != LoopK
    ensures BranchFrom(outer, a, st, 0, len) ==
      After(p, outer, act, l.endPc + 1, len, S.Unwind(st, l.height, l.arity))
  {
    assert a.labels[..|act.labels|] == act.labels;
  }

  lemma {:induction false} EndStep(p: Prog, fn: Func, ft: FuncType, outer: seq<Act>, act: Act, a: Act, l: Label, store: Store)
    requires Runs(p, fn, ft, a)
    requires a.pc < |fn.code| && fn.code[a.pc] == End && a.labels == act.labels + [l] && a.func == act.func
    ensures StepP(p, Mach(outer, a, store)) ==
      Running(Mach(outer, act.(pc := a.pc + 1, locals := a.locals, operands := a.operands), store))
  {
    var room := StepMach(p, outer, a, store, fn, ft);
    assert a.labels[..|a.labels| - 1] == act.labels;
  }

  /** The body of a block or of an arm of an `if` has been simulated up to `end`. */
  lemma {:induction false} ExitSim(p: Prog, fn: Func, ft: FuncType, outer: seq<Act>, act: Act, a: Act, l: Label, store: Store,
                r: S.Result, fuel: nat)
    requires Closed(p)
    requires Runs(p, fn, ft, a)
    requires a.func == act.func && a.labels == act.labels + [l] && l.kind != LoopK
    requires l.endPc < |fn.code| && fn.code[l.endPc] == End
    requires Sim(p, outer, a, store, a, l.endPc, |fn.code|, r, fuel)
    ensures Sim(p, outer, a, store, act, l.endPc + 1, |fn.code|, S.ExitBlock(r, l.height, l.arity), fuel)
  {
    var m0, len := Mach(outer, a, store), |fn.code|;
    match r
    case Normal(st) =>
      var b := a.(pc := l.endPc, locals := st.locals, operands := st.operands);
      EndStep(p, fn, ft, outer, act, b, l, st.store);
      var out := After(p, outer, act, l.endPc + 1, len, r);
      ThenStep(p, m0, Mach(outer, b, st.store), 0, out);
    case Branching(d, st) =>
      if d == 0 {
        BranchZero(p, outer, act, a, l, st, len);
        Weaken(p, m0, BranchFrom(outer, a, st, 0, len));
      } else {
        BranchShift(outer, act, a, l, st, d - 1, len);
      }
    case _ =>
  }

  /** The activation once the construct at its pc is open. */
  function Opened(act: Act, i: Instr, taken: bool): Act
    requires i.Open? && (i.kind == IfK ==> act.operands != [])
  {
    var ops := if i.kind == IfK then act.operands[..|act.operands| - 1] else act.operands;
    var l := Label(i.kind, act.pc + 1, i.endPc, |ops|, |BlockResults(i.bt)|);
    var pc := if taken then act.pc + 1 else if i.elsePc.Some? then i.elsePc.value + 1 else i.endPc;
    act.(pc := pc, operands := ops, labels := act.labels + [l])
  }

  lemma {:induction false} OpenStep(p: Prog, fn: Func, ft: FuncType, outer: seq<Act>, act: Act, store: Store, i: Instr, taken: bool)
    returns (room: nat)
    requires Runs(p, fn, ft, act)
    requires act.pc < |fn.code| && fn.code[act.pc] == i && i.Open?
    requires i.kind == IfK ==> act.operands != [] && taken == (Low32(act.operands[|act.operands| - 1]) != 0)
    requires i.kind != IfK ==> taken
    ensures StepP(p, Mach(outer, act, store)) ==
      if |act.labels| >= room then Failed(LabelOverflow) else Running(Mach(outer, Opened(act, i, taken), store))
  {
    room := StepMach(p, outer, act, store, fn, ft);
  }

  /** A block's body, or an arm of an `if`, from its first instruction with the label
      pushed; a then-arm that has an `else` after it ends there. */
  lemma {:induction false} SimArm(p: Prog, fn: Func, ft: FuncType, body: S.Code, t: nat, outer: seq<Act>,
                 act: Act, a: Act, l: Label, store: Store, thenArm: bool, fuel: nat)
    requires Closed(p) && Lowered(p.env.m, p.asts)
    requires Runs(p, fn, ft, a) && S.FlatCode(p.env.m, fn, body, a.pc, t)
    requires a.func == act.func && a.labels == act.labels + [l] && l.kind != LoopK
    requires l.endPc < |fn.code| && fn.code[l.endPc] == End
    requires var x := a.pc + S.CodeSize(body);
      if thenArm then x < |fn.code| && fn.code[x] == Else else x == l.endPc
    ensures Sim(p, outer, a, store, act, l.endPc + 1, |fn.code|,
                S.ExitBlock(S.EvalCode(p.env, p.asts, ft, body, StateOf(a, store), fuel), l.height, l.arity), fuel)
    decreases fuel, 0, S.CodeSize(body), 4
  {
    SimCode(p, fn, ft, body, a.pc, t, outer, a, store, fuel);
    var r := S.EvalCode(p.env, p.asts, ft, body, StateOf(a, store), fuel);
    if thenArm { ElseJump(p, fn, ft, outer, a, l, store, a.pc + S.CodeSize(body), r, fuel); }
    ExitSim(p, fn, ft, outer, act, a, l, store, r, fuel);
  }

  /** A block or an `if`, from its opening to its end, through the arm that it enters. */
  lemma {:induction false} SimOpen(p: Prog, fn: Func, ft: FuncType, i: Instr, taken: bool, body: S.Code, t: nat, thenArm: bool,
                outer: seq<Act>, act: Act, store: Store, fuel: nat)
    requires Closed(p) && Lowered(p.env.m, p.asts) && Runs(p, fn, ft, act)
    requires act.pc < |fn.code| && fn.code[act.pc] == i && i.Open? && i.kind != LoopK
    requires i.kind == IfK ==> act.operands != [] && taken == (Low32(act.operands[|act.operands| - 1]) != 0)
    requires i.kind != IfK ==> taken
    requires i.endPc < |fn.code| && fn.code[i.endPc] == End
    requires var a := Opened(act, i, taken);
      var x := a.pc + S.CodeSize(body);
      && S.FlatCode(p.env.m, fn, body, a.pc, t)
      && if thenArm then x < |fn.code| && fn.code[x] == Else else x == i.endPc
    ensures var a := Opened(act, i, taken);
      Sim(p, outer, act, store, act, i.endPc + 1, |fn.code|,
          S.ExitBlock(S.EvalCode(p.env, p.asts, ft, body, StateOf(a, store), fuel), |a.operands|, |BlockResults(i.bt)|), fuel)
    decreases fuel, 0, S.CodeSize(body), 5
  {
    var a := Opened(act, i, taken);
    var l := Label(i.kind, act.pc + 1, i.endPc, |a.operands|, |BlockResults(i.bt)|);
    var r := S.ExitBlock(S.EvalCode(p.env, p.asts, ft, body, StateOf(a, store), fuel), l.height, l.arity);
    var room := OpenStep(p, fn, ft, outer, act, store, i, taken);
    if |act.labels| >= room {
      SimExhausted(p, outer, act, store, act, i.endPc + 1, |fn.code|, r, fuel);
    } else {
      SimArm(p, fn, ft, body, t, outer, act, a, l, store, thenArm, fuel);
      SimStep(p, outer, act, store, a, store, act, i.endPc + 1, |fn.code|, r, fuel);
    }
  }

  // ---- block ----

  lemma {:induction false} SimBlock(p: Prog, fn: Func, ft: FuncType, s: S.Stmt, base: nat, t: nat,
                 outer: seq<Act>, act: Act, store: Store, fuel: nat)
    requires Closed(p) && Lowered(p.env.m, p.asts) && s.SBlock?
    requires Runs(p, fn, ft, act) && act.pc == base && S.FlatStmt(p.env.m, fn, s, base, t)
    ensures Sim(p, outer, act, store, act, base + S.StmtSize(s), |fn.code|,
                S.EvalStmt(p.env, p.asts, ft, s, StateOf(act, store), fuel), fuel)
    decreases fuel, 0, S.StmtSize(s), 0
  {
    SimOpen(p, fn, ft, Open(BlockK, s.bt, None, base + 1 + S.CodeSize(s.body)), true, s.body, t, false, outer, act, store, fuel);
  }

  // ---- if ----

  lemma {:induction false} SimIf(p: Prog, fn: Func, ft: FuncType, s: S.Stmt, base: nat, t: nat,
              outer: seq<Act>, act: Act, store: Store, fuel: nat)
    requires Closed(p) && Lowered(p.env.m, p.asts) && s.SIf?
    requires Runs(p, fn, ft, act) && act.pc == base && S.FlatStmt(p.env.m, fn, s, base, t)
    ensures Sim(p, outer, act, store, act, base + S.StmtSize(s), |fn.code|,
                S.EvalStmt(p.env, p.asts, ft, s, StateOf(act, store), fuel), fuel)
    decreases fuel, 0, S.StmtSize(s), 1
  {
    var n := |act.operands|;
    if n == 0 {
      SimNoCondition(p, fn, ft, s, base, t, outer, act, store, fuel);
    } else if Low32(act.operands[n - 1]) != 0 {
      SimThen(p, fn, ft, s, base, t, outer, act, store, fuel);
    } else if s.hasElse {
      SimElse(p, fn, ft, s, base, t, outer, act, store, fuel);
    } else {
      SimSkip(p, fn, ft, s, base, t, outer, act, store, fuel);
    }
  }

  lemma {:induction false} SimNoCondition(p: Prog, fn: Func, ft: FuncType, s: S.Stmt, base: nat, t: nat,
                       outer: seq<Act>, act: Act, store: Store, fuel: nat)
    requires Closed(p)
    requires s.SIf? && act.operands == []
    requires Runs(p, fn, ft, act) && act.pc == base && S.FlatStmt(p.env.m, fn, s, base, t)
    ensures Sim(p, outer, act, store, act, base + S.StmtSize(s), |fn.code|,
                S.EvalStmt(p.env, p.asts, ft, s, StateOf(act, store), fuel), fuel)
  {
    var room := StepMach(p, outer, act, store, fn, ft);
    StepLeads(p, Mach(outer, act, store), 0, StuckState);
  }

  /** The then-arm ends at `else`, which jumps to `end`. */
  lemma {:induction false} ElseJump(p: Prog, fn: Func, ft: FuncType, outer: seq<Act>, a: Act, l: Label, store: Store,
                 x: nat, r: S.Result, fuel: nat)
    requires Closed(p)
    requires Runs(p, fn, ft, a)
    requires a.labels != [] && a.labels[|a.labels| - 1] == l
    requires x < |fn.code| && fn.code[x] == Else
    requires Sim(p, outer, a, store, a, x, |fn.code|, r, fuel)
    ensures Sim(p, outer, a, store, a, l.endPc, |fn.code|, r, fuel)
  {
    if r.Normal? {
      var st := r.st;
      var b := a.(pc := x, locals := st.locals, operands := st.operands);
      var room := StepMach(p, outer, b, st.store, fn, ft);
      var out := After(p, outer, a, l.endPc, |fn.code|, r);
      ThenStep(p, Mach(outer, a, store), Mach(outer, b, st.store), 0, out);
    }
  }

  lemma {:induction false} SimThen(p: Prog, fn: Func, ft: FuncType, s: S.Stmt, base: nat, t: nat,
                outer: seq<Act>, act: Act, store: Store, fuel: nat)
    requires Closed(p) && Lowered(p.env.m, p.asts) && s.SIf?
    requires act.operands != [] && Low32(act.operands[|act.operands| - 1]) != 0
    requires Runs(p, fn, ft, act) && act.pc == base && S.FlatStmt(p.env.m, fn, s, base, t)
    ensures Sim(p, outer, act, store, act, base + S.StmtSize(s), |fn.code|,
                S.EvalStmt(p.env, p.asts, ft, s, StateOf(act, store), fuel), fuel)
    decreases fuel, 0, S.StmtSize(s), 0
  {
    IfShape(p, fn, s, base, t);
    EvalArm(p, ft, s, StateOf(act, store), fuel);
    ThenArm(p, fn, ft, fn.code[base], s.thn, t, outer, act, store, fuel);
  }

  lemma {:induction false} SimElse(p: Prog, fn: Func, ft: FuncType, s: S.Stmt, base: nat, t: nat,
                outer: seq<Act>, act: Act, store: Store, fuel: nat)
    requires Closed(p) && Lowered(p.env.m, p.asts) && s.SIf? && s.hasElse
    requires act.operands != [] && Low32(act.operands[|act.operands| - 1]) == 0
    requires Runs(p, fn, ft, act) && act.pc == base && S.FlatStmt(p.env.m, fn, s, base, t)
    ensures Sim(p, outer, act, store, act, base + S.StmtSize(s), |fn.code|,
                S.EvalStmt(p.env, p.asts, ft, s, StateOf(act, store), fuel), fuel)
    decreases fuel, 0, S.StmtSize(s), 0
  {
    IfShape(p, fn, s, base, t);
    EvalArm(p, ft, s, StateOf(act, store), fuel);
    ElseArm(p, fn, ft, fn.code[base], s.els, t + S.CodeEntries(s.thn), outer, act, store, fuel);
  }

  /** Where the parts of a flat `if` lie. */
  predicate IfAt(m: Module, fn: Func, s: S.Stmt, base: nat, t: nat)
    requires s.SIf?
  {
    var x := base + 1 + S.CodeSize(s.thn);
    var e := if s.hasElse then x + 1 + S.CodeSize(s.els) else x;
    && e < |fn.code| && fn.code[base] == Open(IfK, s.bt, if s.hasElse then Some(x) else None, e) && fn.code[e] == End
    && base + S.StmtSize(s) == e + 1 && S.FlatCode(m, fn, s.thn, base + 1, t)
    && (s.hasElse ==> fn.code[x] == Else && S.FlatCode(m, fn, s.els, x + 1, t + S.CodeEntries(s.thn)))
  }

  lemma {:induction false} IfShape(p: Prog, fn: Func, s: S.Stmt, base: nat, t: nat)
    requires s.SIf? && S.FlatStmt(p.env.m, fn, s, base, t)
    ensures IfAt(p.env.m, fn, s, base, t)
  {
    var x := base + 1 + S.CodeSize(s.thn);
    if s.hasElse {
      assert S.InstrAt(fn.code, x + 1 + S.CodeSize(s.els), End);
    } else {
      assert S.InstrAt(fn.code, x, End);
    }
  }

  /** The arm that a true `if` enters. */
  lemma {:induction false} ThenArm(p: Prog, fn: Func, ft: FuncType, i: Instr, thn: S.Code, t: nat,
                outer: seq<Act>, act: Act, store: Store, fuel: nat)
    requires Closed(p) && Lowered(p.env.m, p.asts) && Runs(p, fn, ft, act)
    requires act.pc < |fn.code| && fn.code[act.pc] == i && i.Open? && i.kind == IfK
    requires act.operands != [] && Low32(act.operands[|act.operands| - 1]) != 0
    requires i.endPc < |fn.code| && fn.code[i.endPc] == End && S.FlatCode(p.env.m, fn, thn, act.pc + 1, t)
    requires var x := act.pc + 1 + S.CodeSize(thn);
      if i.elsePc.Some? then x < |fn.code| && fn.code[x] == Else else x == i.endPc
    ensures var n, st := |act.operands| - 1, StateOf(act, store);
      Sim(p, outer, act, store, act, i.endPc + 1, |fn.code|,
          S.ExitBlock(S.EvalCode(p.env, p.asts, ft, thn, st.(operands := act.operands[..n]), fuel), n, |BlockResults(i.bt)|),
          fuel)
    decreases fuel, 0, S.CodeSize(thn), 6
  {
    SimOpen(p, fn, ft, i, true, thn, t, i.elsePc.Some?, outer, act, store, fuel);
  }

  /** The arm that a false `if` enters. */
  lemma {:induction false} ElseArm(p: Prog, fn: Func, ft: FuncType, i: Instr, els: S.Code, t: nat,
                outer: seq<Act>, act: Act, store: Store, fuel: nat)
    requires Closed(p) && Lowered(p.env.m, p.asts) && Runs(p, fn, ft, act)
    requires act.pc < |fn.code| && fn.code[act.pc] == i && i.Open? && i.kind == IfK && i.elsePc.Some?
    requires act.operands != [] && Low32(act.operands[|act.operands| - 1]) == 0
    requires i.endPc < |fn.code| && fn.code[i.endPc] == End && S.FlatCode(p.env.m, fn, els, i.elsePc.value + 1, t)
    requires i.elsePc.value + 1 + S.CodeSize(els) == i.endPc
    ensures var n, st := |act.operands| - 1, StateOf(act, store);
      Sim(p, outer, act, store, act, i.endPc + 1, |fn.code|,
          S.ExitBlock(S.EvalCode(p.env, p.asts, ft, els, st.(operands := act.operands[..n]), fuel), n, |BlockResults(i.bt)|),
          fuel)
    decreases fuel, 0, S.CodeSize(els), 6
  {
    SimOpen(p, fn, ft, i, false, els, t, false, outer, act, store, fuel);
  }

  /** A false `if` without `else` goes through its `end`. */
  lemma {:induction false} SimSkip(p: Prog, fn: Func, ft: FuncType, s: S.Stmt, base: nat, t: nat,
                outer: seq<Act>, act: Act, store: Store, fuel: nat)
    requires Closed(p)
    requires s.SIf? && !s.hasElse
    requires act.operands != [] && Low32(act.operands[|act.operands| - 1]) == 0
    requires Runs(p, fn, ft, act) && act.pc == base && S.FlatStmt(p.env.m, fn, s, base, t)
    ensures Sim(p, outer, act, store, act, base + S.StmtSize(s), |fn.code|,
                S.EvalStmt(p.env, p.asts, ft, s, StateOf(act, store), fuel), fuel)
  {
    IfShape(p, fn, s, base, t);
    EvalArm(p, ft, s, StateOf(act, store), fuel);
    SkipIf(p, fn, ft, fn.code[base], outer, act, store, fuel);
  }

  lemma {:induction false} SkipIf(p: Prog, fn: Func, ft: FuncType, i: Instr, outer: seq<Act>, act: Act, store: Store, fuel: nat)
    requires Closed(p) && Runs(p, fn, ft, act) && act.pc < |fn.code| && fn.code[act.pc] == i
    requires i.Open? && i.kind == IfK && i.elsePc.None? && i.endPc < |fn.code| && fn.code[i.endPc] == End
    requires act.operands != [] && Low32(act.operands[|act.operands| - 1]) == 0
    ensures var st := StateOf(act, store);
      Sim(p, outer, act, store, act, i.endPc + 1, |fn.code|,
          S.Normal(st.(operands := act.operands[..|act.operands| - 1])), fuel)
  {
    var r := S.Normal(StateOf(act, store).(operands := act.operands[..|act.operands| - 1]));
    var room := OpenStep(p, fn, ft, outer, act, store, i, false);
    if |act.labels| >= room {
      SimExhausted(p, outer, act, store, act, i.endPc + 1, |fn.code|, r, fuel);
    } else {
      var a := Opened(act, i, false);
      EndStep(p, fn, ft, outer, act, a, a.labels[|act.labels|], store);
      StepLeads(p, Mach(outer, a, store), 0, After(p, outer, act, i.endPc + 1, |fn.code|, r));
      SimStep(p, outer, act, store, a, store, act, i.endPc + 1, |fn.code|, r, fuel);
    }
  }

  // ---- loop ----

  lemma {:induction false} SimLoop(p: Prog, fn: Func, ft: FuncType, s: S.Stmt, base: nat, t: nat,
                outer: seq<Act>, act: Act, store: Store, fuel: nat)
    requires Closed(p) && Lowered(p.env.m, p.asts) && s.SLoop?
    requires Runs(p, fn, ft, act) && act.pc == base && S.FlatStmt(p.env.m, fn, s, base, t)
    ensures Sim(p, outer, act, store, act, base + S.StmtSize(s), |fn.code|,
                S.EvalStmt(p.env, p.asts, ft, s, StateOf(act, store), fuel), fuel)
    decreases fuel, 0, S.StmtSize(s), 0
  {
    var e := base + 1 + S.CodeSize(s.body);
    var i := Open(LoopK, s.bt, None, e);
    var r := S.EvalStmt(p.env, p.asts, ft, s, StateOf(act, store), fuel);
    var room := OpenStep(p, fn, ft, outer, act, store, i, true);
    if |act.labels| >= room {
      SimExhausted(p, outer, act, store, act, e + 1, |fn.code|, r, fuel);
    } else {
      var l := Label(LoopK, base + 1, e, |act.operands|, |BlockResults(s.bt)|);
      var a := act.(pc := base + 1, labels := act.labels + [l]);
      SimRounds(p, fn, ft, s.body, t, outer, act, a, l, store, fuel);
      SimStep(p, outer, act, store, a, store, act, e + 1, |fn.code|, r, fuel);
    }
  }

  lemma {:induction false} LoopBack(outer: seq<Act>, act: Act, a: Act, l: Label, st: S.State, len: nat)
    requires a.func == act.func && a.labels == act.labels + [l] && l.kind == LoopK
    ensures BranchFrom(outer, a, st, 0, len) ==
      if |st.operands| < l.height then StuckState
      else Running(Mach(outer, a.(pc := l.startPc, locals := st.locals, operands := st.operands[..l.height]), st.store))
  {
    assert a.labels[..|act.labels| + 1] == a.labels;
    if |st.operands| >= l.height {
      assert st.operands[..l.height] + st.operands[|st.operands|..] == st.operands[..l.height];
    }
  }

  /** The rounds of a loop, from the start of its body with its label pushed. */
  lemma {:induction false} SimRounds(p: Prog, fn: Func, ft: FuncType, body: S.Code, t: nat,
                  outer: seq<Act>, act: Act, a: Act, l: Label, store: Store, fuel: nat)
    requires Closed(p) && Lowered(p.env.m, p.asts)
    requires a.func == act.func && a.labels == act.labels + [l] && l.kind == LoopK
    requires Runs(p, fn, ft, a) && a.pc == l.startPc && S.FlatCode(p.env.m, fn, body, l.startPc, t)
    requires l.endPc == l.startPc + S.CodeSize(body) < |fn.code| && fn.code[l.endPc] == End
    ensures Sim(p, outer, a, store, act, l.endPc + 1, |fn.code|,
                S.EvalLoop(p.env, p.asts, ft, body, l.height, StateOf(a, store), fuel), fuel)
    decreases fuel, 0, S.CodeSize(body), 4
  {
    SimCode(p, fn, ft, body, l.startPc, t, outer, a, store, fuel);
    var rb := S.EvalCode(p.env, p.asts, ft, body, StateOf(a, store), fuel);
    var r := S.EvalLoop(p.env, p.asts, ft, body, l.height, StateOf(a, store), fuel);
    var m0 := Mach(outer, a, store);
    if rb.Branching? && rb.depth == 0 {
      LoopBack(outer, act, a, l, rb.st, |fn.code|);
      if |rb.st.operands| < l.height {
        Weaken(p, m0, StuckState);
      } else if fuel == 0 {
        assert ByNothing(p, m0);
      } else {
        var b := a.(pc := l.startPc, locals := rb.st.locals, operands := rb.st.operands[..l.height]);
        SimRounds(p, fn, ft, body, t, outer, act, b, l, rb.st.store, fuel - 1);
        SimAfter(p, outer, a, store, b, rb.st.store, act, 1, l.endPc + 1, |fn.code|, r, fuel - 1);
      }
    } else {
      LoopExit(p, fn, ft, outer, act, a, l, store, rb, fuel);
    }
  }

  /** Leaving a loop other than by a branch to it. */
  lemma {:induction false} LoopExit(p: Prog, fn: Func, ft: FuncType, outer: seq<Act>, act: Act, a: Act, l: Label, store: Store,
                 rb: S.Result, fuel: nat)
    requires Closed(p)
    requires Runs(p, fn, ft, a)
    requires a.func == act.func && a.labels == act.labels + [l]
    requires l.endPc < |fn.code| && fn.code[l.endPc] == End
    requires Sim(p, outer, a, store, a, l.endPc, |fn.code|, rb, fuel)
    requires !(rb.Branching? && rb.depth == 0)
    ensures Sim(p, outer, a, store, act, l.endPc + 1, |fn.code|,
                if rb.Branching? then S.Branching(rb.depth - 1, rb.st) else rb, fuel)
  {
    var m0, len := Mach(outer, a, store), |fn.code|;
    match rb
    case Normal(st) =>
      var b := a.(pc := l.endPc, locals := st.locals, operands := st.operands);
      EndStep(p, fn, ft, outer, act, b, l, st.store);
      var out := After(p, outer, act, l.endPc + 1, len, rb);
      ThenStep(p, m0, Mach(outer, b, st.store), 0, out);
    case Branching(d, st) => BranchShift(outer, act, a, l, st, d - 1, len);
    case _ =>
  }

  // ---- calls ----

  lemma {:induction false} SimDirect(p: Prog, fn: Func, ft: FuncType, s: S.Stmt, base: nat, t: nat,
                  outer: seq<Act>, act: Act, store: Store, fuel: nat)
    requires Closed(p) && Lowered(p.env.m, p.asts) && s.SCall?
    requires Runs(p, fn, ft, act) && act.pc == base && S.FlatStmt(p.env.m, fn, s, base, t)
    ensures Sim(p, outer, act, store, act, base + 1, |fn.code|,
                S.EvalStmt(p.env, p.asts, ft, s, StateOf(act, store), fuel), fuel)
    decreases fuel, 0, S.StmtSize(s), 0
  {
    var room := StepMach(p, outer, act, store, fn, ft);
    var ty := p.env.m.TypeOf(s.func);
    if ty.None? {
      StepLeads(p, Mach(outer, act, store), 0, StuckState);
    } else {
      DirectLocal(p, fn, ft, s, base, t, act, store, room, fuel);
      SimCall(p, |fn.code|, outer, act, act.(pc := base + 1), store, s.func, ty.value, fuel);
    }
  }

  lemma {:induction false} DirectLocal(p: Prog, fn: Func, ft: FuncType, s: S.Stmt, base: nat, t: nat, act: Act, store: Store, room: nat, fuel: nat)
    requires Runs(p, fn, ft, act) && act.pc == base && S.FlatStmt(p.env.m, fn, s, base, t)
    requires s.SCall? && p.env.m.TypeOf(s.func).Some?
    ensures var k, a := |p.env.m.TypeOf(s.func).value.params|, act.(pc := base + 1);
      && StepLocal(p.env, fn, ft, room, act, store) == PopArgs(a, s.func, k, store)
      && S.EvalStmt(p.env, p.asts, ft, s, StateOf(act, store), fuel) == S.EvalCall(p.env, p.asts, s.func, k, StateOf(a, store), fuel)
  {
  }

  lemma {:induction false} SimIndirect(p: Prog, fn: Func, ft: FuncType, s: S.Stmt, base: nat, t: nat,
                    outer: seq<Act>, act: Act, store: Store, fuel: nat)
    requires Closed(p) && Lowered(p.env.m, p.asts) && s.SCallIndirect?
    requires Runs(p, fn, ft, act) && act.pc == base && S.FlatStmt(p.env.m, fn, s, base, t)
    ensures Sim(p, outer, act, store, act, base + 1, |fn.code|,
                S.EvalStmt(p.env, p.asts, ft, s, StateOf(act, store), fuel), fuel)
    decreases fuel, 0, S.StmtSize(s), 0
  {
    var room := StepMach(p, outer, act, store, fn, ft);
    var n := |act.operands|;
    var r := S.EvalStmt(p.env, p.asts, ft, s, StateOf(act, store), fuel);
    var found := if n == 0 || s.table != 0 then None
                 else Indirect(p.env, s.typeIdx, Low32(act.operands[n - 1]));
    if found.None? {
      var out := After(p, outer, act, base + 1, |fn.code|, r);
      StepLeads(p, Mach(outer, act, store), 0, out);
    } else {
      var a := act.(pc := base + 1, operands := act.operands[..n - 1]);
      SimCall(p, |fn.code|, outer, act, a, store, found.value, p.env.m.types[s.typeIdx], fuel);
    }
  }

  /** A call whose callee is known: `a` is the caller past the call instruction. */
  lemma {:induction false} SimCall(p: Prog, len: nat, outer: seq<Act>, act: Act, a: Act, store: Store,
                f: nat, ct: FuncType, fuel: nat)
    requires Closed(p) && Lowered(p.env.m, p.asts) && p.env.m.TypeOf(f) == Some(ct)
    requires a == act.(pc := a.pc, operands := a.operands)
    requires StepP(p, Mach(outer, act, store)) == LocalOutcome(p, outer, store, PopArgs(a, f, |ct.params|, store))
    ensures Sim(p, outer, act, store, act, a.pc, len,
                S.EvalCall(p.env, p.asts, f, |ct.params|, StateOf(a, store), fuel), fuel)
    decreases fuel, 0, 0, 0
  {
    var n, k := |a.operands|, |ct.params|;
    if n < k || f < |p.env.m.imports| {
      ImmediateCall(p, len, outer, act, a, store, f, ct, fuel);
    } else if fuel == 0 {
      assert ByNothing(p, Mach(outer, act, store));
    } else {
      var args, a1 := a.operands[n - k..], a.(operands := a.operands[..n - k]);
      assert a1.operands + args == a.operands;
      SimEnter(p, len, outer, act, a1, args, store, f, ct, fuel);
    }
  }

  /** Entering a defined function, its arguments popped already. */
  lemma {:induction false} SimEnter(p: Prog, len: nat, outer: seq<Act>, act: Act, a1: Act, args: seq<nat>, store: Store,
                 f: nat, ct: FuncType, fuel: nat)
    requires Closed(p) && Lowered(p.env.m, p.asts) && p.env.m.TypeOf(f) == Some(ct)
    requires f >= |p.env.m.imports| && fuel > 0
    requires a1 == act.(pc := a1.pc, operands := a1.operands)
    requires StepP(p, Mach(outer, act, store)) == EnterFrame(p.env, p.lim, outer + [a1], store, f, args)
    ensures Sim(p, outer, act, store, act, a1.pc, len,
                S.EvalCall(p.env, p.asts, f, |args|, S.State(a1.locals, a1.operands + args, store), fuel), fuel)
    decreases fuel - 1, 2, 0, 0
  {
    var fn2 := p.env.m.Body(f).value;
    if StepP(p, Mach(outer, act, store)).Running? {
      var b := Act(f, 0, args + Zeros(|fn2.locals|), [], []);
      SimFunc(p, fn2, ct, f, args, outer + [a1], store, fuel - 1);
      CallReturns(p, len, outer, act, a1, b, args, store, f, fuel);
    } else {
      var r := S.EvalCall(p.env, p.asts, f, |args|, S.State(a1.locals, a1.operands + args, store), fuel);
      SimExhausted(p, outer, act, store, act, a1.pc, len, r, fuel);
    }
  }

  /** Calls that finish in the call's own iteration: imports, and missing arguments. */
  lemma {:induction false} ImmediateCall(p: Prog, len: nat, outer: seq<Act>, act: Act, a: Act, store: Store,
                      f: nat, ct: FuncType, fuel: nat)
    requires Closed(p)
    requires a == act.(pc := a.pc, operands := a.operands)
    requires |a.operands| < |ct.params| || f < |p.env.m.imports|
    requires StepP(p, Mach(outer, act, store)) == LocalOutcome(p, outer, store, PopArgs(a, f, |ct.params|, store))
    ensures Sim(p, outer, act, store, act, a.pc, len,
                S.EvalCall(p.env, p.asts, f, |ct.params|, StateOf(a, store), fuel), fuel)
  {
    var m0, n, k := Mach(outer, act, store), |a.operands|, |ct.params|;
    var r := S.EvalCall(p.env, p.asts, f, k, StateOf(a, store), fuel);
    var out := After(p, outer, act, a.pc, len, r);
    if n >= k {
      var a1 := a.(operands := a.operands[..n - k]);
      assert (outer + [a1])[|outer|] == a1;
      forall b: Act ensures (outer + [a1])[|outer| := b] == outer + [b] { }
    }
    StepLeads(p, m0, 0, out);
  }

  function FuncOutcome(p: Prog, outer: seq<Act>, r: S.FuncResult): Outcome
    requires r.Stopped? ==> !r.why.OutOfFuel? && !r.why.Normal? && !r.why.Branching? && !r.why.Returning?
  {
    match r
    case Returned(results, store) => ReturnTo(p, outer, results, store)
    case Stopped(why) =>
      match why
      case Trapping(trap) => Trap(trap)
      case HostTrapping => HostTrap
      case Exiting => Exited
      case ImportFailing => Failed(ImportFailed)
      case Wrong => StuckState
  }

  predicate ProperStop(r: S.FuncResult) {
    r.Stopped? ==> !r.why.Normal? && !r.why.Branching? && !r.why.Returning?
  }

  predicate SimF(p: Prog, mach: Machine, outer: seq<Act>, r: S.FuncResult, fuel: nat) {
    ProperStop(r) &&
    if r == S.Stopped(S.OutOfFuel) then p.long(mach, fuel)
    else p.leads(mach, 0, FuncOutcome(p, outer, r))
  }

  /** The callee's return puts its results on the caller's operands. */
  lemma {:induction false} CallReturns(p: Prog, len: nat, outer: seq<Act>, act: Act, a1: Act, b: Act, args: seq<nat>,
                    store: Store, f: nat, fuel: nat)
    requires Closed(p)
    requires fuel > 0 && a1 == act.(pc := a1.pc, operands := a1.operands) && f >= |p.env.m.imports|
    requires StepP(p, Mach(outer, act, store)) == Running(Mach(outer + [a1], b, store))
    requires SimF(p, Mach(outer + [a1], b, store), outer + [a1],
                  S.EvalFunc(p.env, p.asts, f, args, store, fuel - 1), fuel - 1)
    ensures Sim(p, outer, act, store, act, a1.pc, len,
                S.EvalCall(p.env, p.asts, f, |args|, S.State(a1.locals, a1.operands + args, store), fuel), fuel)
  {
    var m0, m1 := Mach(outer, act, store), Mach(outer + [a1], b, store);
    var fr := S.EvalFunc(p.env, p.asts, f, args, store, fuel - 1);
    var ops := a1.operands + args;
    assert ops[|ops| - |args|..] == args && ops[..|ops| - |args|] == a1.operands;
    var r := S.EvalCall(p.env, p.asts, f, |args|, S.State(a1.locals, ops, store), fuel);
    StepLeads(p, m0, 1, Running(m1));
    if r.OutOfFuel? {
      assert ByLong(p, m0, m1, 1, fuel - 1);
    } else {
      var out := FuncOutcome(p, outer + [a1], fr);
      assert ByTrans(p, m0, m1, 1, 0, out);
      Weaken(p, m0, out);
      if fr.Returned? {
        assert PushResults(outer + [a1], fr.results)
            == outer + [a1.(operands := a1.operands + fr.results)];
      }
    }
  }

  lemma {:induction false} FinishStep(p: Prog, fn: Func, ft: FuncType, outer: seq<Act>, a: Act, st: S.State)
    requires Runs(p, fn, ft, a)
    requires a.labels == [] && a.operands == st.operands
    requires a.pc >= |fn.code| || fn.code[a.pc] == End
    ensures StepP(p, Mach(outer, a, st.store)) == FuncOutcome(p, outer, S.AsReturned(S.TopResults(ft, st)))
  {
    var room := StepMach(p, outer, a, st.store, fn, ft);
  }

  /** A whole call of a defined function, from its fresh activation. */
  lemma {:induction false} SimFunc(p: Prog, fn: Func, ft: FuncType, f: nat, args: seq<nat>,
                outer: seq<Act>, store: Store, fuel: nat)
    requires Closed(p) && Lowered(p.env.m, p.asts)
    requires p.env.m.Body(f) == Some(fn) && p.env.m.TypeOf(f) == Some(ft)
    ensures SimF(p, Mach(outer, Act(f, 0, args + Zeros(|fn.locals|), [], []), store), outer,
                 S.EvalFunc(p.env, p.asts, f, args, store, fuel), fuel)
    decreases fuel, 1, 0, 0
  {
    var k := f - |p.env.m.imports|;
    var c := p.asts[k];
    assert S.FlatBody(p.env.m, fn, c);
    var b := Act(f, 0, args + Zeros(|fn.locals|), [], []);
    SimCode(p, fn, ft, c, 0, 0, outer, b, store, fuel);
    assert Zeros(|fn.locals|) == seq(|fn.locals|, _ => 0);
    var r := S.EvalCode(p.env, p.asts, ft, c, StateOf(b, store), fuel);
    assert S.EvalFunc(p.env, p.asts, f, args, store, fuel) == S.FuncExit(ft, r);
    SimFuncExit(p, fn, ft, outer, b, store, S.CodeSize(c), r, fuel);
  }

  lemma {:induction false} SimFuncExit(p: Prog, fn: Func, ft: FuncType, outer: seq<Act>, b: Act, store: Store, end: nat,
                    r: S.Result, fuel: nat)
    requires Closed(p)
    requires Runs(p, fn, ft, b) && b.labels == []
    requires end < |fn.code| && fn.code[end] == End
    requires Sim(p, outer, b, store, b, end, |fn.code|, r, fuel)
    ensures SimF(p, Mach(outer, b, store), outer, S.FuncExit(ft, r), fuel)
  {
    var m0 := Mach(outer, b, store);
    match r
    case Normal(st) =>
      var a := b.(pc := end, locals := st.locals, operands := st.operands);
      FinishStep(p, fn, ft, outer, a, st);
      ThenStep(p, m0, Mach(outer, a, st.store), 0, FuncOutcome(p, outer, S.FuncExit(ft, r)));
    case Branching(d, st) =>
      if d == 0 {
        var a := b.(pc := |fn.code|, locals := st.locals, operands := st.operands);
        FinishStep(p, fn, ft, outer, a, st);
        ThenStep(p, m0, Mach(outer, a, st.store), 1, FuncOutcome(p, outer, S.FuncExit(ft, r)));
      } else {
        Weaken(p, m0, StuckState);
      }
    case _ =>
  }
}
