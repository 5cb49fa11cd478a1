/** Structured code and its meaning: section 4.4.5 of the WebAssembly Core
    Specification 1.0, where a branch unwinds to the label of an enclosing block,
    written as an evaluator with a fuel bound on loop rounds and calls. */
module WasmStructured {
  import opened Options
  import opened WasmSyntax
  import opened WasmExec

  datatype Code = Nil | Cons(head: Stmt, tail: Code)

  datatype Stmt =
    | SUnreachable
    | SBlock(bt: BlockType, body: Code)
    | SLoop(bt: BlockType, body: Code)
    | SIf(bt: BlockType, thn: Code, hasElse: bool, els: Code)
    | SBr(depth: nat)
    | SBrIf(depth: nat)
    | SBrTable(targets: seq<nat>, dflt: nat)
    | SReturn
    | SCall(func: nat)
    | SCallIndirect(typeIdx: nat, table: nat)
    | SDo(op: Plain)

  // ---- lowering ----

  function CodeSize(c: Code): nat {
    match c case Nil => 0 case Cons(s, rest) => StmtSize(s) + CodeSize(rest)
  }

  function StmtSize(s: Stmt): (n: nat)
    ensures n > 0
  {
    match s
    case SBlock(_, body) => CodeSize(body) + 2
    case SLoop(_, body) => CodeSize(body) + 2
    case SIf(_, thn, hasElse, els) => CodeSize(thn) + (if hasElse then CodeSize(els) + 3 else 2)
    case _ => 1
  }

  /** How many br_table entries the code holds, defaults included. */
  function CodeEntries(c: Code): nat {
    match c case Nil => 0 case Cons(s, rest) => StmtEntries(s) + CodeEntries(rest)
  }

  function StmtEntries(s: Stmt): nat {
    match s
    case SBlock(_, body) => CodeEntries(body)
    case SLoop(_, body) => CodeEntries(body)
    case SIf(_, thn, hasElse, els) => CodeEntries(thn) + (if hasElse then CodeEntries(els) else 0)
    case SBrTable(targets, _) => |targets| + 1
    case _ => 0
  }

  predicate InstrAt(code: seq<Instr>, pc: nat, i: Instr) { pc < |code| && code[pc] == i }

  /** The flat form of code c occupies CodeSize(c) instructions of fn's array from pc
      `base`; its br_table entries start at offset t of fn's range of targets. */
  predicate FlatCode(m: Module, fn: Func, c: Code, base: nat, t: nat) {
    match c
    case Nil => true
    case Cons(s, rest) =>
      FlatStmt(m, fn, s, base, t) && FlatCode(m, fn, rest, base + StmtSize(s), t + StmtEntries(s))
  }

  predicate FlatStmt(m: Module, fn: Func, s: Stmt, base: nat, t: nat) {
    match s
    case SUnreachable => InstrAt(fn.code, base, Unreachable)
    case SBlock(bt, body) =>
      var e := base + 1 + CodeSize(body);
      && InstrAt(fn.code, base, Open(BlockK, bt, None, e))
      && FlatCode(m, fn, body, base + 1, t) && InstrAt(fn.code, e, End)
    case SLoop(bt, body) =>
      var e := base + 1 + CodeSize(body);
      && InstrAt(fn.code, base, Open(LoopK, bt, None, e))
      && FlatCode(m, fn, body, base + 1, t) && InstrAt(fn.code, e, End)
    case SIf(bt, thn, hasElse, els) =>
      var x := base + 1 + CodeSize(thn);
      && FlatCode(m, fn, thn, base + 1, t)
      && if hasElse then
           var e := x + 1 + CodeSize(els);
           && InstrAt(fn.code, base, Open(IfK, bt, Some(x), e)) && InstrAt(fn.code, x, Else)
           && FlatCode(m, fn, els, x + 1, t + CodeEntries(thn)) && InstrAt(fn.code, e, End)
         else
           InstrAt(fn.code, base, Open(IfK, bt, None, x)) && InstrAt(fn.code, x, End)
    case SBr(depth) => InstrAt(fn.code, base, Br(depth))
    case SBrIf(depth) => InstrAt(fn.code, base, BrIf(depth))
    case SBrTable(targets, dflt) =>
      && InstrAt(fn.code, base, BrTable(t, |targets| + 1))
      && m.Targets(fn, t, |targets| + 1) == Some(targets + [dflt])
    case SReturn => InstrAt(fn.code, base, Return)
    case SCall(f) => InstrAt(fn.code, base, Call(f))
    case SCallIndirect(ti, table) => InstrAt(fn.code, base, CallIndirect(ti, table))
    case SDo(p) => InstrAt(fn.code, base, Do(p))
  }

  /** A whole body: its structured code and the function's own `end`. */
  predicate FlatBody(m: Module, fn: Func, c: Code) {
    |fn.code| == CodeSize(c) + 1 && FlatCode(m, fn, c, 0, 0) && InstrAt(fn.code, CodeSize(c), End)
  }

  // ---- meaning ----

  datatype State = State(locals: seq<nat>, operands: seq<nat>, store: Store)

  datatype Result =
    | Normal(st: State)
    | Branching(depth: nat, st: State)
    | Returning(results: seq<nat>, store: Store)
    | Trapping(trap: TrapKind)
    | HostTrapping
    | Exiting
    | ImportFailing
    | Wrong
    | OutOfFuel

  datatype FuncResult =
    | Returned(results: seq<nat>, store: Store)
    | Stopped(why: Result)

  /** Leaves a label: keep the `arity` values on top, drop the rest above `height`. */
  function Unwind(st: State, height: nat, arity: nat): Result {
    if |st.operands| < height + arity then Wrong
    else Normal(st.(operands := st.operands[..height] + st.operands[|st.operands| - arity..]))
  }

  /** What an enclosing block makes of its body's result. */
  function ExitBlock(r: Result, height: nat, arity: nat): Result {
    match r
    case Branching(0, st) => Unwind(st, height, arity)
    case Branching(d, st) => Branching(d - 1, st)
    case other => other
  }

  function TopResults(ft: FuncType, st: State): Result {
    if |st.operands| < |ft.results| then Wrong
    else Returning(st.operands[|st.operands| - |ft.results|..], st.store)
  }

  function EvalCode(env: Env, asts: seq<Code>, ft: FuncType, c: Code, st: State, fuel: nat): Result
    decreases fuel, 0, CodeSize(c), 2
  {
    match c
    case Nil => Normal(st)
    case Cons(s, rest) =>
      match EvalStmt(env, asts, ft, s, st, fuel)
      case Normal(st1) => EvalCode(env, asts, ft, rest, st1, fuel)
      case other => other
  }

  function EvalStmt(env: Env, asts: seq<Code>, ft: FuncType, s: Stmt, st: State, fuel: nat): Result
    decreases fuel, 0, StmtSize(s), 1
  {
    var n := |st.operands|;
    match s
    case SUnreachable => Trapping(TrapUnreachable)
    case SBlock(bt, body) =>
      ExitBlock(EvalCode(env, asts, ft, body, st, fuel), n, |BlockResults(bt)|)
    case SLoop(bt, body) => EvalLoop(env, asts, ft, body, n, st, fuel)
    case SIf(bt, thn, hasElse, els) =>
      if n == 0 then Wrong else
      var st1 := st.(operands := st.operands[..n - 1]);
      if Low32(st.operands[n - 1]) != 0 then
        ExitBlock(EvalCode(env, asts, ft, thn, st1, fuel), n - 1, |BlockResults(bt)|)
      else if hasElse then
        ExitBlock(EvalCode(env, asts, ft, els, st1, fuel), n - 1, |BlockResults(bt)|)
      else Normal(st1)
    case SBr(depth) => Branching(depth, st)
    case SBrIf(depth) =>
      if n == 0 then Wrong else
      var st1 := st.(operands := st.operands[..n - 1]);
      if Low32(st.operands[n - 1]) == 0 then Normal(st1) else Branching(depth, st1)
    case SBrTable(targets, dflt) =>
      if n == 0 then Wrong else
      var selector := Low32(st.operands[n - 1]);
      Branching(if selector < |targets| then targets[selector] else dflt,
                st.(operands := st.operands[..n - 1]))
    case SReturn => TopResults(ft, st)
    case SCall(f) =>
      (match env.m.TypeOf(f)
       case None => Wrong
       case Some(ct) => EvalCall(env, asts, f, |ct.params|, st, fuel))
    case SCallIndirect(ti, table) =>
      if n == 0 then Wrong
      else if table != 0 then Trapping(TrapIndirectCall)
      else
        (match Indirect(env, ti, Low32(st.operands[n - 1]))
         case None => Trapping(TrapIndirectCall)
         case Some(f) =>
           EvalCall(env, asts, f, |env.m.types[ti].params|, st.(operands := st.operands[..n - 1]), fuel))
    case SDo(p) =>
      (match ExecPlain(env, p, st.locals, st.operands, st.store)
       case Done(locals, operands, store) => Normal(State(locals, operands, store))
       case PlainTrap(trap) => Trapping(trap)
       case PlainStuck => Wrong)
  }

  /** Rounds of a loop entered with `height` operands below its label. */
  function EvalLoop(env: Env, asts: seq<Code>, ft: FuncType, body: Code, height: nat, st: State, fuel: nat): Result
    decreases fuel, 0, CodeSize(body), 3
  {
    match EvalCode(env, asts, ft, body, st, fuel)
    case Branching(0, st1) =>
      if |st1.operands| < height then Wrong
      else if fuel == 0 then OutOfFuel
      else EvalLoop(env, asts, ft, body, height, st1.(operands := st1.operands[..height]), fuel - 1)
    case Branching(d, st1) => Branching(d - 1, st1)
    case other => other
  }

  function EvalCall(env: Env, asts: seq<Code>, f: nat, params: nat, st: State, fuel: nat): Result
    decreases fuel, 0, 0, 0
  {
    var n := |st.operands|;
    if n < params then Wrong else
    var args := st.operands[n - params..];
    var rest := st.operands[..n - params];
    if f < |env.m.imports| then
      match env.host(f, args, st.store)
      case HostCompleted(results, store) => Normal(State(st.locals, rest + results, store))
      case HostExited => Exiting
      case HostTrapped => HostTrapping
      case HostError => ImportFailing
    else if fuel == 0 then OutOfFuel
    else
      match EvalFunc(env, asts, f, args, st.store, fuel - 1)
      case Returned(results, store) => Normal(State(st.locals, rest + results, store))
      case Stopped(why) => why
  }

  /** A whole call of a defined function. */
  function EvalFunc(env: Env, asts: seq<Code>, f: nat, args: seq<nat>, store: Store, fuel: nat): FuncResult
    decreases fuel, 1, 0, 0
  {
    match (env.m.Body(f), env.m.TypeOf(f))
    case (Some(fn), Some(ft)) =>
      var k := f - |env.m.imports|;
      if k >= |asts| then Stopped(Wrong) else
      var zeros := seq(|fn.locals|, _ => 0);
      var r := EvalCode(env, asts, ft, asts[k], State(args + zeros, [], store), fuel);
      FuncExit(ft, r)
    case _ => Stopped(Wrong)
  }

  /** The function body is itself a label: falling out of it or branching to it returns. */
  function FuncExit(ft: FuncType, r: Result): FuncResult {
    match r
    case Normal(st) => AsReturned(TopResults(ft, st))
    case Branching(0, st) => AsReturned(TopResults(ft, st))
    case Branching(_, _) => Stopped(Wrong)
    case Returning(results, store) => Returned(results, store)
    case other => Stopped(other)
  }

  function AsReturned(r: Result): FuncResult {
    match r
    case Returning(results, store) => Returned(results, store)
    case _ => Stopped(Wrong)
  }
}
