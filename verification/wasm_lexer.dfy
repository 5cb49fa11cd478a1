/** The bytes of a function body, instruction by instruction. */
module WasmLexer {
  import opened Options
  import opened Words
  import opened WasmNumerics
  import opened WasmSyntax
  import L = Leb128

  const MAX_BRANCH_TARGETS: nat := 65536

  /** An instruction as it is encoded: openings do not know their ends yet, and a
      br_table carries its targets, the default last. */
  datatype Token =
    | TOpen(kind: BlockKind, bt: BlockType)
    | TElse
    | TEnd
    | TTable(targets: seq<nat>)
    | TInstr(i: Instr)

  /** Instructions that neither open, close nor split a construct, nor need a table. */
  predicate Straight(i: Instr) { !i.Open? && !i.Else? && !i.End? && !i.BrTable? }

  predicate Proper(token: Token) {
    (token.TTable? ==> token.targets != []) && (token.TInstr? ==> Straight(token.i))
  }

  /** What follows an opcode. */
  datatype Form =
    | Unknown
    | Alone(token: Token)
    | Typed(kind: BlockKind)
    | Indexed(op: IndexOp)
    | Table
    | Pair
    | Access(store: bool, t: ValType, width: nat, signed: bool)
    | ZeroByte(plain: Plain)
    | Prefixed
    | Constant(t: ValType)

  datatype IndexOp = OBr | OBrIf | OCall | OLocalGet | OLocalSet | OLocalTee | OGlobalGet | OGlobalSet

  function BinOpAt(n: nat): BinOp {
    match n
    case 0 => Add case 1 => Sub case 2 => Mul case 3 => DivS case 4 => DivU case 5 => RemS case 6 => RemU
    case 7 => And case 8 => Or case 9 => Xor case 10 => Shl case 11 => ShrS case 12 => ShrU
    case 13 => Rotl case _ => Rotr
  }

  function CountOpAt(n: nat): CountOp {
    match n
    case 0 => Clz case 1 => Ctz case _ => Popcnt
  }

  function CmpOpAt(n: nat): CmpOp {
    match n
    case 0 => Eq case 1 => Ne case 2 => LtS case 3 => LtU case 4 => GtS
    case 5 => GtU case 6 => LeS case 7 => LeU case 8 => GeS case _ => GeU
  }

  function ControlForm(op: Byte): Form {
    match op
    case 0x00 => Alone(TInstr(Instr.Unreachable))
    case 0x01 => Alone(TInstr(Do(Nop)))
    case 0x02 => Typed(BlockK)
    case 0x03 => Typed(LoopK)
    case 0x04 => Typed(IfK)
    case 0x05 => Alone(TElse)
    case 0x0b => Alone(TEnd)
    case 0x0c => Indexed(OBr)
    case 0x0d => Indexed(OBrIf)
    case 0x0e => Table
    case 0x0f => Alone(TInstr(Return))
    case 0x10 => Indexed(OCall)
    case 0x11 => Pair
    case 0x1a => Alone(TInstr(Do(Drop)))
    case 0x1b => Alone(TInstr(Do(Select)))
    case 0x20 => Indexed(OLocalGet)
    case 0x21 => Indexed(OLocalSet)
    case 0x22 => Indexed(OLocalTee)
    case 0x23 => Indexed(OGlobalGet)
    case 0x24 => Indexed(OGlobalSet)
    case _ => Unknown
  }

  function MemoryForm(op: Byte): Form {
    match op
    case 0x28 => Access(false, I32, 4, false)
    case 0x29 => Access(false, I64, 8, false)
    case 0x2a => Access(false, F32, 4, false)
    case 0x2b => Access(false, F64, 8, false)
    case 0x2c => Access(false, I32, 1, true)
    case 0x2d => Access(false, I32, 1, false)
    case 0x2e => Access(false, I32, 2, true)
    case 0x2f => Access(false, I32, 2, false)
    case 0x30 => Access(false, I64, 1, true)
    case 0x31 => Access(false, I64, 1, false)
    case 0x32 => Access(false, I64, 2, true)
    case 0x33 => Access(false, I64, 2, false)
    case 0x34 => Access(false, I64, 4, true)
    case 0x35 => Access(false, I64, 4, false)
    case 0x36 => Access(true, I32, 4, false)
    case 0x37 => Access(true, I64, 8, false)
    case 0x38 => Access(true, F32, 4, false)
    case 0x39 => Access(true, F64, 8, false)
    case 0x3a => Access(true, I32, 1, false)
    case 0x3b => Access(true, I32, 2, false)
    case 0x3c => Access(true, I64, 1, false)
    case 0x3d => Access(true, I64, 2, false)
    case 0x3e => Access(true, I64, 4, false)
    case 0x3f => ZeroByte(MemorySize)
    case 0x40 => ZeroByte(MemoryGrow)
    case _ => Unknown
  }

  function NumericForm(op: Byte): Form {
    if op == 0x41 then Constant(I32)
    else if op == 0x42 then Constant(I64)
    else if op == 0x43 then Constant(F32)
    else if op == 0x44 then Constant(F64)
    else if op == 0x45 then Alone(TInstr(Do(Eqz(W32))))
    else if 0x46 <= op <= 0x4f then Alone(TInstr(Do(Compare(W32, CmpOpAt(op - 0x46)))))
    else if op == 0x50 then Alone(TInstr(Do(Eqz(W64))))
    else if 0x51 <= op <= 0x5a then Alone(TInstr(Do(Compare(W64, CmpOpAt(op - 0x51)))))
    else if 0x67 <= op <= 0x69 then Alone(TInstr(Do(Counting(W32, CountOpAt(op - 0x67)))))
    else if 0x6a <= op <= 0x78 then Alone(TInstr(Do(Binary(W32, BinOpAt(op - 0x6a)))))
    else if 0x79 <= op <= 0x7b then Alone(TInstr(Do(Counting(W64, CountOpAt(op - 0x79)))))
    else if 0x7c <= op <= 0x8a then Alone(TInstr(Do(Binary(W64, BinOpAt(op - 0x7c)))))
    else if op == 0xa7 then Alone(TInstr(Do(WrapI64)))
    else if op == 0xac then Alone(TInstr(Do(ExtendS)))
    else if op == 0xad then Alone(TInstr(Do(ExtendU)))
    else if op == 0xbc then Alone(TInstr(Do(Reinterpret(F32, I32))))
    else if op == 0xbd then Alone(TInstr(Do(Reinterpret(F64, I64))))
    else if op == 0xbe then Alone(TInstr(Do(Reinterpret(I32, F32))))
    else if op == 0xbf then Alone(TInstr(Do(Reinterpret(I64, F64))))
    else if op == 0xc0 then Alone(TInstr(Do(SignExtend(W32, 1))))
    else if op == 0xc1 then Alone(TInstr(Do(SignExtend(W32, 2))))
    else if op == 0xc2 then Alone(TInstr(Do(SignExtend(W64, 1))))
    else if op == 0xc3 then Alone(TInstr(Do(SignExtend(W64, 2))))
    else if op == 0xc4 then Alone(TInstr(Do(SignExtend(W64, 4))))
    else if op == 0xfc then Prefixed
    else if FloatType(op).Some? then Alone(TInstr(Do(Float(op))))
    else Unknown
  }

  /** The decoder's table. */
  function FormOf(op: Byte): (r: Form)
    ensures r.Alone? ==> Proper(r.token)
  {
    if op < 0x28 then ControlForm(op) else if op <= 0x40 then MemoryForm(op) else NumericForm(op)
  }

  function ValTypeOf(b: Byte): Option<ValType> {
    match b
    case 0x7f => Some(I32) case 0x7e => Some(I64) case 0x7d => Some(F32) case 0x7c => Some(F64) case _ => None
  }

  function BlockTypeOf(b: Byte): Option<BlockType> {
    if b == 0x40 then Some(None)
    else
      var t :- ValTypeOf(b);
      Some(Some(t))
  }

  function IndexToken(op: IndexOp, n: nat): Token {
    match op
    case OBr => TInstr(Br(n))
    case OBrIf => TInstr(BrIf(n))
    case OCall => TInstr(Call(n))
    case OLocalGet => TInstr(Do(LocalGet(n)))
    case OLocalSet => TInstr(Do(LocalSet(n)))
    case OLocalTee => TInstr(Do(LocalTee(n)))
    case OGlobalGet => TInstr(Do(GlobalGet(n)))
    case OGlobalSet => TInstr(Do(GlobalSet(n)))
  }

  function AccessToken(store: bool, t: ValType, width: nat, signed: bool, align: nat, offset: nat): Token {
    if store then TInstr(Do(Store(t, width, align, offset))) else TInstr(Do(Load(t, width, signed, align, offset)))
  }

  // ---- operands: a value and the position after it ----

  function U8At(data: seq<Byte>, pos: nat): (r: Option<(nat, nat)>)
    ensures r.Some? ==> pos < r.value.1 <= |data|
  {
    if pos < |data| then Some((data[pos], pos + 1)) else None
  }

  lemma {:induction false} GrammarLength(n: nat, s: seq<Byte>)
    ensures L.GrammarU(n, s).Some? ==> 1 <= L.GrammarU(n, s).value.1 <= |s|
  {
    if s != [] && s[0] >= 128 && n > 7 { GrammarLength(n - 7, s[1..]); }
  }

  lemma {:induction false} EngineLength(n: nat, s: seq<Byte>)
    requires n > 0
    ensures L.EngineS(n, s).Some? ==> 1 <= L.EngineS(n, s).value.1 <= |s|
  {
    if s != [] && s[0] >= 128 && n > 7 { EngineLength(n - 7, s[1..]); }
  }

  function U32At(data: seq<Byte>, pos: nat): (r: Option<(nat, nat)>)
    ensures r.Some? ==> pos < r.value.1 <= |data|
  {
    if pos > |data| then None
    else
      GrammarLength(32, data[pos..]);
      var (v, k) :- L.GrammarU(32, data[pos..]);
      Some((v, pos + k))
  }

  function S32At(data: seq<Byte>, pos: nat): (r: Option<(nat, nat)>)
    ensures r.Some? ==> pos < r.value.1 <= |data|
  {
    if pos > |data| then None
    else
      EngineLength(32, data[pos..]);
      var (v, k) :- L.EngineS(32, data[pos..]);
      Some((v % 0x1_0000_0000, pos + k))
  }

  function S64At(data: seq<Byte>, pos: nat): (r: Option<(nat, nat)>)
    ensures r.Some? ==> pos < r.value.1 <= |data|
  {
    if pos > |data| then None
    else
      EngineLength(64, data[pos..]);
      var (v, k) :- L.EngineS(64, data[pos..]);
      Some((v % 0x1_0000_0000_0000_0000, pos + k))
  }

  function BytesAt(data: seq<Byte>, pos: nat, n: nat): (r: Option<(nat, nat)>)
    ensures r.Some? ==> r.value.1 == pos + n <= |data|
  {
    if pos + n <= |data| then Some((Little(data[pos..pos + n]), pos + n)) else None
  }

  function ConstantAt(t: ValType, data: seq<Byte>, pos: nat): (r: Option<(nat, nat)>)
    ensures r.Some? ==> pos < r.value.1 <= |data|
  {
    match t
    case I32 => S32At(data, pos)
    case I64 => S64At(data, pos)
    case F32 => BytesAt(data, pos, 4)
    case F64 => BytesAt(data, pos, 8)
  }

  /** n targets in a row. */
  function TargetsAt(data: seq<Byte>, pos: nat, n: nat): (r: Option<(seq<nat>, nat)>)
    requires pos <= |data|
    ensures r.Some? ==> |r.value.0| == n && pos <= r.value.1 <= |data|
  {
    if n == 0 then Some(([], pos))
    else
      var (ts, p) :- TargetsAt(data, pos, n - 1);
      var (t, q) :- U32At(data, p);
      Some((ts + [t], q))
  }

  /** The operands of an opcode of the given form. */
  function OperandsAt(form: Form, data: seq<Byte>, pos: nat): (r: Option<(Token, nat)>)
    requires pos <= |data| && (form.Alone? ==> Proper(form.token))
    ensures r.Some? ==> pos <= r.value.1 <= |data|
    ensures r.Some? ==> Proper(r.value.0)
  {
    match form
    case Unknown => None
    case Alone(token) => Some((token, pos))
    case Typed(kind) =>
      var (b, p) :- U8At(data, pos);
      var bt :- BlockTypeOf(b);
      Some((TOpen(kind, bt), p))
    case Indexed(op) =>
      var (n, p) :- U32At(data, pos);
      Some((IndexToken(op, n), p))
    case Table =>
      var (n, p) :- U32At(data, pos);
      if n > MAX_BRANCH_TARGETS - 1 then None
      else
        var (ts, q) :- TargetsAt(data, p, n + 1);
        Some((TTable(ts), q))
    case Pair =>
      var (ti, p) :- U32At(data, pos);
      var (table, q) :- U32At(data, p);
      Some((TInstr(CallIndirect(ti, table)), q))
    case Access(store, t, width, signed) =>
      var (align, p) :- U32At(data, pos);
      var (offset, q) :- U32At(data, p);
      Some((AccessToken(store, t, width, signed, align, offset), q))
    case ZeroByte(plain) =>
      var (b, p) :- U8At(data, pos);
      if b != 0 then None else Some((TInstr(Do(plain)), p))
    case Prefixed =>
      var (sub, p) :- U32At(data, pos);
      if sub <= 7 then Some((TInstr(Do(Float(0xfc00 + sub))), p))
      else if sub == 10 then
        var (b, q) :- U8At(data, p);
        var (c, r) :- U8At(data, q);
        if b != 0 || c != 0 then None else Some((TInstr(Do(MemoryCopy)), r))
      else if sub == 11 then
        var (b, q) :- U8At(data, p);
        if b != 0 then None else Some((TInstr(Do(MemoryFill)), q))
      else None
    case Constant(t) =>
      var (bits, p) :- ConstantAt(t, data, pos);
      Some((TInstr(Do(Const(t, bits))), p))
  }

  /** One instruction and the position after it. */
  function TokenAt(data: seq<Byte>, pos: nat): (r: Option<(Token, nat)>)
    requires pos < |data|
    ensures r.Some? ==> pos < r.value.1 <= |data|
    ensures r.Some? ==> Proper(r.value.0)
  {
    OperandsAt(FormOf(data[pos]), data, pos + 1)
  }
}
