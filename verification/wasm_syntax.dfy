/** Types, lowered instructions and decoded modules of the Wasm engine. */
module WasmSyntax {
  import opened Options
  import opened Words
  import opened WasmNumerics

  datatype ValType = I32 | I64 | F32 | F64

  datatype FuncType = FuncType(params: seq<ValType>, results: seq<ValType>)

  /** A block has no parameters and at most one result. */
  type BlockType = Option<ValType>

  function BlockResults(bt: BlockType): seq<ValType> {
    if bt.None? then [] else [bt.value]
  }

  datatype BlockKind = BlockK | LoopK | IfK

  /** Instructions that neither transfer control nor call. */
  datatype Plain =
    | Nop
    | Drop
    | Select
    | Const(t: ValType, bits: nat)
    | Eqz(w: Width)
    | Binary(w: Width, op: BinOp)
    | Compare(w: Width, cmp: CmpOp)
    | Counting(w: Width, count: CountOp)
    | Float(code: nat)
    | Reinterpret(from: ValType, to: ValType)
    | WrapI64
    | ExtendS
    | ExtendU
    | SignExtend(w: Width, bytes: nat)
    | LocalGet(index: nat)
    | LocalSet(index: nat)
    | LocalTee(index: nat)
    | GlobalGet(index: nat)
    | GlobalSet(index: nat)
    | Load(t: ValType, width: nat, signed: bool, align: nat, offset: nat)
    | Store(t: ValType, width: nat, align: nat, offset: nat)
    | MemorySize
    | MemoryGrow
    | MemoryCopy
    | MemoryFill

  /** Operand and result types of a floating-point operation, by opcode; the saturating
      truncations, which follow a prefix byte, are numbered from 0xfc00. */
  function FloatType(code: nat): Option<(seq<ValType>, ValType)> {
    if 0x5b <= code <= 0x60 then Some(([F32, F32], I32))
    else if 0x61 <= code <= 0x66 then Some(([F64, F64], I32))
    else if 0x8b <= code <= 0x91 then Some(([F32], F32))
    else if 0x92 <= code <= 0x98 then Some(([F32, F32], F32))
    else if 0x99 <= code <= 0x9f then Some(([F64], F64))
    else if 0xa0 <= code <= 0xa6 then Some(([F64, F64], F64))
    else if code in {0xa8, 0xa9, 0xfc00, 0xfc01} then Some(([F32], I32))
    else if code in {0xaa, 0xab, 0xfc02, 0xfc03} then Some(([F64], I32))
    else if code in {0xae, 0xaf, 0xfc04, 0xfc05} then Some(([F32], I64))
    else if code in {0xb0, 0xb1, 0xfc06, 0xfc07} then Some(([F64], I64))
    else if code in {0xb2, 0xb3} then Some(([I32], F32))
    else if code in {0xb4, 0xb5} then Some(([I64], F32))
    else if code == 0xb6 then Some(([F64], F32))
    else if code in {0xb7, 0xb8} then Some(([I32], F64))
    else if code in {0xb9, 0xba} then Some(([I64], F64))
    else if code == 0xbb then Some(([F32], F64))
    else None
  }

  /** The conversions that trap on a value out of range. */
  predicate Truncates(code: nat) { 0xa8 <= code <= 0xab || 0xae <= code <= 0xb1 }

  /** The flat instruction array. An opening instruction carries the pcs of its
      `else` and `end`; a br_table carries a range of the body's target list. */
  datatype Instr =
    | Unreachable
    | Open(kind: BlockKind, bt: BlockType, elsePc: Option<nat>, endPc: nat)
    | Else
    | End
    | Br(depth: nat)
    | BrIf(depth: nat)
    | BrTable(first: nat, count: nat)
    | Return
    | Call(func: nat)
    | CallIndirect(typeIdx: nat, table: nat)
    | Do(op: Plain)

  datatype GlobalDesc = GlobalDesc(t: ValType, mutable: bool, init: nat)

  datatype Func = Func(
    typeIdx: nat,
    locals: seq<ValType>,
    code: seq<Instr>,
    branchBase: nat,
    maxStack: nat)

  datatype Module = Module(
    types: seq<FuncType>,
    imports: seq<nat>,
    funcs: seq<Func>,
    globals: seq<GlobalDesc>,
    hasTable: bool,
    hasMemory: bool,
    targets: seq<nat>)
  {
    /** The type of a function index: imports first, then the module's own functions. */
    function TypeOf(f: nat): Option<FuncType> {
      if f < |imports| then
        if imports[f] < |types| then Some(types[imports[f]]) else None
      else if f - |imports| < |funcs| then
        var ti := funcs[f - |imports|].typeIdx;
        if ti < |types| then Some(types[ti]) else None
      else None
    }

    function Body(f: nat): Option<Func> {
      if |imports| <= f && f - |imports| < |funcs| then Some(funcs[f - |imports|]) else None
    }

    /** The br_table operands of `fn`'s instruction, read from the module-wide array. */
    function Targets(fn: Func, first: nat, count: nat): Option<seq<nat>> {
      var lo := fn.branchBase + first;
      if count > 0 && lo + count <= |targets| then Some(targets[lo..lo + count]) else None
    }
  }

  /** Raw bits that a slot of type t may hold. */
  predicate Typed(v: nat, t: ValType) {
    v < (if t == I32 || t == F32 then TWO32 else TWO64)
  }

  predicate AllTyped(vs: seq<nat>, ts: seq<ValType>) {
    |vs| == |ts| && forall i :: 0 <= i < |vs| ==> Typed(vs[i], ts[i])
  }

  function IntType(w: Width): ValType { if w.W32? then I32 else I64 }
}
