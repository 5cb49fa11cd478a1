/** One instruction of the interpreter loop, seen from the innermost activation. */
module WasmExec {
  import opened Options
  import opened Words
  import opened WasmNumerics
  import opened WasmSyntax
  import LM = LinearMemory

  datatype TrapKind =
    | TrapUnreachable | TrapOutOfBounds | TrapDivideByZero
    | TrapIndirectCall | TrapIntegerOverflow | TrapInvalidConversion

  /** Globals, memory and the number of memory requests made to the allocator so far. */
  datatype Store = Store(globals: seq<nat>, mem: LM.Memory, tick: nat)

  datatype HostOutcome =
    | HostCompleted(results: seq<nat>, store: Store)
    | HostExited
    | HostTrapped
    | HostError

  /** What surrounds the machine: the module, its table (NO_FUNC marks an empty
      entry), the allocator's answers to memory.grow, whether a body's lowering on
      first call finds memory, the host's import bodies, and floating-point arithmetic
      on raw bits, which gives nothing for a truncation out of range. */
  datatype Env = Env(
    m: Module,
    table: seq<nat>,
    alloc: (nat, nat) -> bool,
    lowers: nat -> bool,
    host: (nat, seq<nat>, Store) -> HostOutcome,
    float: (nat, seq<nat>) -> Option<nat>)

  const NO_FUNC: nat := 0xffff_ffff

  datatype PlainOut =
    | Done(locals: seq<nat>, operands: seq<nat>, store: Store)
    | PlainTrap(trap: TrapKind)
    | PlainStuck

  function Low32(v: nat): (r: nat)
    ensures r < TWO32
  { v % 0x1_0000_0000 }

  /** The bits that a slot of type t holds. */
  function Fit(t: ValType, v: nat): (r: nat)
    ensures Typed(r, t)
  {
    if t == I32 || t == F32 then v % 0x1_0000_0000 else v % 0x1_0000_0000_0000_0000
  }

  function FloatResult(env: Env, code: nat, args: seq<nat>): Option<nat> {
    match (FloatType(code), env.float(code, args))
    case (Some((_, out)), Some(v)) => Some(Fit(out, v))
    case (Some((_, out)), None) => if Truncates(code) then None else Some(0)
    case _ => None
  }

  function BoolBits(b: bool): nat { if b then 1 else 0 }

  /** Loaded bytes as value bits: sign extension to 64 bits, then truncation to t. */
  function Loaded(t: ValType, width: nat, signed: bool, raw: nat): (v: nat)
    ensures Typed(v, t)
  {
    var wide := if signed && width in {1, 2, 4} then WasmNumerics.SignExtend(W64, width, raw) else raw % 0x1_0000_0000_0000_0000;
    if t == I32 || t == F32 then wide % 0x1_0000_0000 else wide
  }

  function GrowMemory(env: Env, s: Store, pages: nat): (r: (nat, Store)) {
    var grown := |s.mem.bytes| + pages * 65536;
    var asks := grown <= s.mem.limit
                && (s.mem.maxPages.Some? ==> grown <= s.mem.maxPages.value * 65536)
                && grown > s.mem.capacity;
    var granted := asks && env.alloc(s.tick, grown);
    var s1 := if asks then s.(tick := s.tick + 1) else s;
    match LM.Grow(s.mem, pages, granted)
    case None => (TWO32 - 1, s1)
    case Some(mem) => ((|s.mem.bytes| / 65536) % 0x1_0000_0000, s1.(mem := mem))
  }

  /** Instructions that take their operands from the top of the stack and
      replace them with their results. */
  function Compute(env: Env, p: Plain, locals: seq<nat>, args: seq<nat>, s: Store): PlainOut {
    match p
    case Nop => if |args| != 0 then PlainStuck else Done(locals, [], s)
    case Drop => if |args| != 1 then PlainStuck else Done(locals, [], s)
    case Select =>
      if |args| != 3 then PlainStuck
      else Done(locals, [if Low32(args[2]) != 0 then args[0] else args[1]], s)
    case Const(t, bits) =>
      if |args| != 0 then PlainStuck
      else Done(locals, [Fit(t, bits)], s)
    case Eqz(w) =>
      if |args| != 1 then PlainStuck else Done(locals, [BoolBits(args[0] % w.Modulus() == 0)], s)
    case Binary(w, op) =>
      if |args| != 2 then PlainStuck else
      (match WasmNumerics.Binary(w, op, args[0], args[1])
       case Value(bits) => Done(locals, [bits], s)
       case DivideByZero => PlainTrap(TrapDivideByZero)
       case Overflow => PlainTrap(TrapIntegerOverflow))
    case Compare(w, cmp) =>
      if |args| != 2 then PlainStuck
      else Done(locals, [BoolBits(WasmNumerics.Compare(w, cmp, args[0], args[1]))], s)
    case Counting(w, op) =>
      if |args| != 1 then PlainStuck
      else Done(locals, [WasmNumerics.Count(op, args[0] % w.Modulus(), w.Bits())], s)
    case Float(code) =>
      if FloatType(code).None? || |args| != |FloatType(code).value.0| then PlainStuck else
      (match FloatResult(env, code, args)
       case Some(v) => Done(locals, [v], s)
       case None => PlainTrap(TrapInvalidConversion))
    case Reinterpret(_, to) => if |args| != 1 then PlainStuck else Done(locals, [Fit(to, args[0])], s)
    case WrapI64 => if |args| != 1 then PlainStuck else Done(locals, [Low32(args[0])], s)
    case ExtendS =>
      if |args| != 1 then PlainStuck else Done(locals, [WasmNumerics.SignExtend(W64, 4, args[0])], s)
    case ExtendU => if |args| != 1 then PlainStuck else Done(locals, [Low32(args[0])], s)
    case SignExtend(w, bytes) =>
      if |args| != 1 || bytes !in {1, 2, 4} then PlainStuck
      else Done(locals, [WasmNumerics.SignExtend(w, bytes, args[0])], s)
    case LocalGet(i) =>
      if |args| != 0 || i >= |locals| then PlainStuck else Done(locals, [locals[i]], s)
    case LocalSet(i) =>
      if |args| != 1 || i >= |locals| then PlainStuck else Done(locals[i := args[0]], [], s)
    case LocalTee(i) =>
      if |args| != 1 || i >= |locals| then PlainStuck else Done(locals[i := args[0]], args, s)
    case GlobalGet(i) =>
      if |args| != 0 || i >= |s.globals| then PlainStuck else Done(locals, [s.globals[i]], s)
    case GlobalSet(i) =>
      if |args| != 1 || i >= |s.globals| || i >= |env.m.globals| || !env.m.globals[i].mutable then PlainStuck
      else
        var t := env.m.globals[i].t;
        var v := if t == I32 || t == F32 then Low32(args[0]) else args[0];
        Done(locals, [], s.(globals := s.globals[i := v]))
    case Load(t, width, signed, _, offset) =>
      if |args| != 1 then PlainStuck else
      var address := Low32(args[0]) + offset;
      if width == 0 || !LM.InBounds(s.mem, address, width) then PlainTrap(TrapOutOfBounds)
      else Done(locals, [Loaded(t, width, signed, LM.Read(s.mem, address, width))], s)
    case Store(_, width, _, offset) =>
      if |args| != 2 then PlainStuck else
      var address := Low32(args[0]) + offset;
      if width == 0 || !LM.InBounds(s.mem, address, width) then PlainTrap(TrapOutOfBounds)
      else Done(locals, [], s.(mem := LM.Write(s.mem, address, width, args[1])))
    case MemorySize =>
      if |args| != 0 then PlainStuck else Done(locals, [|s.mem.bytes| / 65536], s)
    case MemoryGrow =>
      if |args| != 1 then PlainStuck else
      var (before, s1) := GrowMemory(env, s, Low32(args[0]));
      Done(locals, [before], s1)
    case MemoryCopy =>
      if |args| != 3 then PlainStuck else
      var to, from, n := Low32(args[0]), Low32(args[1]), Low32(args[2]);
      if !LM.InBounds(s.mem, to, n) || !LM.InBounds(s.mem, from, n) then PlainTrap(TrapOutOfBounds)
      else Done(locals, [], s.(mem := LM.Copy(s.mem, to, from, n)))
    case MemoryFill =>
      if |args| != 3 then PlainStuck else
      var to, n := Low32(args[0]), Low32(args[2]);
      if !LM.InBounds(s.mem, to, n) then PlainTrap(TrapOutOfBounds)
      else Done(locals, [], s.(mem := LM.Fill(s.mem, to, args[1] % 256, n)))
  }

  function Arity(p: Plain): nat {
    match p
    case Nop => 0
    case Const(_, _) => 0
    case LocalGet(_) => 0
    case GlobalGet(_) => 0
    case MemorySize => 0
    case Select => 3
    case MemoryCopy => 3
    case MemoryFill => 3
    case Float(code) => if FloatType(code).Some? then |FloatType(code).value.0| else 0
    case Binary(_, _) => 2
    case Compare(_, _) => 2
    case Store(_, _, _, _) => 2
    case _ => 1
  }

  function ExecPlain(env: Env, p: Plain, locals: seq<nat>, operands: seq<nat>, s: Store): PlainOut {
    var k := Arity(p);
    if |operands| < k then PlainStuck else
    var rest := operands[..|operands| - k];
    match Compute(env, p, locals, operands[|operands| - k..], s)
    case Done(locals1, outs, s1) => Done(locals1, rest + outs, s1)
    case other => other
  }

  /** A label: `height` counts the operands below it in its own frame. */
  datatype Label = Label(kind: BlockKind, startPc: nat, endPc: nat, height: nat, arity: nat)

  /** One activation of a function: pc, locals, operands and open labels. */
  datatype Act = Act(func: nat, pc: nat, locals: seq<nat>, operands: seq<nat>, labels: seq<Label>)

  datatype Local =
    | Next(act: Act, store: Store)
    | Invoke(callee: nat, args: seq<nat>, act: Act, store: Store)
    | Finish(results: seq<nat>)
    | Trapped(trap: TrapKind)
    | NoLabels
    | Stuck

  /** branch_to: leaves `depth` labels and lands after `end`, or at a loop's start.
      Depth equal to the number of labels leaves the function. */
  function BranchTo(act: Act, depth: nat, codeLen: nat): Option<Act> {
    var n := |act.labels|;
    if depth == n then Some(act.(pc := codeLen, labels := []))
    else if depth > n then None
    else
      var i := n - 1 - depth;
      var target := act.labels[i];
      var keep := if target.kind == LoopK then 0 else target.arity;
      if |act.operands| < target.height + keep then None else
      var operands := act.operands[..target.height] + act.operands[|act.operands| - keep..];
      if target.kind == LoopK
      then Some(act.(pc := target.startPc, operands := operands, labels := act.labels[..i + 1]))
      else Some(act.(pc := target.endPc + 1, operands := operands, labels := act.labels[..i]))
  }

  function Branch(act: Act, depth: nat, codeLen: nat, s: Store): Local {
    match BranchTo(act, depth, codeLen)
    case None => Stuck
    case Some(a) => Next(a, s)
  }

  function FinishWith(ft: FuncType, act: Act): Local {
    if |act.operands| < |ft.results| then Stuck
    else Finish(act.operands[|act.operands| - |ft.results|..])
  }

  function PopArgs(act: Act, callee: nat, params: nat, s: Store): Local {
    var n := |act.operands|;
    if n < params then Stuck
    else Invoke(callee, act.operands[n - params..], act.(operands := act.operands[..n - params]), s)
  }

  /** Opens a block, loop or if whose condition has been popped already. */
  function OpenLabel(act: Act, i: Instr, room: nat, taken: bool, s: Store): Local
    requires i.Open?
  {
    if |act.labels| >= room then NoLabels else
    var lab := Label(i.kind, act.pc, i.endPc, |act.operands|, |BlockResults(i.bt)|);
    var pc := if taken then act.pc else if i.elsePc.Some? then i.elsePc.value + 1 else i.endPc;
    Next(act.(pc := pc, labels := act.labels + [lab]), s)
  }

  function Indirect(env: Env, typeIdx: nat, entry: nat): Option<nat> {
    if entry >= |env.table| || env.table[entry] == NO_FUNC then None else
    var target := env.table[entry];
    var actual := env.m.TypeOf(target);
    if typeIdx < |env.m.types| && actual == Some(env.m.types[typeIdx]) then Some(target) else None
  }

  function Operation(a: Act, r: PlainOut): Local {
    match r
    case Done(locals, operands, s) => Next(a.(locals := locals, operands := operands), s)
    case PlainTrap(trap) => Trapped(trap)
    case PlainStuck => Stuck
  }

  /** Executes an instruction; the activation's pc is already past it. */
  function Execute(env: Env, fn: Func, ft: FuncType, room: nat, i: Instr, a: Act, s: Store): Local {
    var n := |a.operands|;
    match i
    case Unreachable => Trapped(TrapUnreachable)
    case Open(kind, _, _, _) =>
      if kind == IfK then
        if n == 0 then Stuck
        else OpenLabel(a.(operands := a.operands[..n - 1]), i, room, Low32(a.operands[n - 1]) != 0, s)
      else OpenLabel(a, i, room, true, s)
    case Else =>
      if a.labels == [] then Stuck
      else Next(a.(pc := a.labels[|a.labels| - 1].endPc), s)
    case End =>
      if a.labels == [] then FinishWith(ft, a)
      else Next(a.(labels := a.labels[..|a.labels| - 1]), s)
    case Br(depth) => Branch(a, depth, |fn.code|, s)
    case BrIf(depth) =>
      if n == 0 then Stuck else
      var a1 := a.(operands := a.operands[..n - 1]);
      if Low32(a.operands[n - 1]) == 0 then Next(a1, s) else Branch(a1, depth, |fn.code|, s)
    case BrTable(first, count) =>
      if n == 0 then Stuck else
      (match env.m.Targets(fn, first, count)
       case None => Stuck
       case Some(targets) =>
         var selector := Low32(a.operands[n - 1]);
         var depth := if selector < |targets| - 1 then targets[selector] else targets[|targets| - 1];
         Branch(a.(operands := a.operands[..n - 1]), depth, |fn.code|, s))
    case Return => FinishWith(ft, a)
    case Call(f) =>
      (match env.m.TypeOf(f)
       case None => Stuck
       case Some(callee) => PopArgs(a, f, |callee.params|, s))
    case CallIndirect(ti, table) =>
      if n == 0 then Stuck
      else if table != 0 then Trapped(TrapIndirectCall)
      else
        (match Indirect(env, ti, Low32(a.operands[n - 1]))
         case None => Trapped(TrapIndirectCall)
         case Some(f) =>
           PopArgs(a.(operands := a.operands[..n - 1]), f, |env.m.types[ti].params|, s))
    case Do(p) => Operation(a, ExecPlain(env, p, a.locals, a.operands, s))
  }

  /** One iteration of the interpreter loop on the innermost activation. `room`
      is how many labels this activation may still hold. */
  function StepLocal(env: Env, fn: Func, ft: FuncType, room: nat, act: Act, s: Store): Local {
    if act.pc >= |fn.code| then FinishWith(ft, act)
    else Execute(env, fn, ft, room, fn.code[act.pc], act.(pc := act.pc + 1), s)
  }
}
