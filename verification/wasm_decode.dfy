/** Lowering the bytes of a body to the flat instruction array (`decode_body`). */
module WasmDecode {
  import opened Options
  import opened Words
  import opened WasmSyntax
  import opened WasmLexer
  import V = WasmValidation

  const MAX_LOCALS: nat := 1024
  const NO_PC: nat := 0xffff_ffff

  /** An entry of the decoder's control stack: where the construct opened. */
  datatype Opening = Opening(pc: nat, isIf: bool, hasElse: bool)

  /** The instructions so far, the constructs still open, and the br_table targets. */
  datatype Lowering = Lowering(ops: seq<Instr>, opens: seq<Opening>, targets: seq<nat>)

  function SetElse(ops: seq<Instr>, o: nat, pc: nat): seq<Instr>
    requires o < |ops| && ops[o].Open?
  {
    ops[o := ops[o].(elsePc := Some(pc))]
  }

  function SetEnd(ops: seq<Instr>, o: nat, pc: nat): seq<Instr>
    requires o < |ops| && ops[o].Open?
  {
    ops[o := ops[o].(endPc := pc)]
  }

  /** The control stack points at openings. */
  predicate Pointing(l: Lowering) {
    forall k :: 0 <= k < |l.opens| ==> l.opens[k].pc < |l.ops| && l.ops[l.opens[k].pc].Open?
  }

  /** Appends one instruction; an `else` or `end` is patched into its opening. */
  function Place(l: Lowering, token: Token): (r: Option<Lowering>)
    requires Pointing(l)
    ensures r.Some? ==> Pointing(r.value) && |r.value.ops| == |l.ops| + 1
  {
    var pc := |l.ops|;
    var n := |l.opens|;
    match token
    case TOpen(kind, bt) =>
      if n >= V.MAX_CONTROL_DEPTH - 1 then None
      else Some(l.(ops := l.ops + [Open(kind, bt, None, NO_PC)], opens := l.opens + [Opening(pc, kind == IfK, false)]))
    case TElse =>
      if n == 0 || !l.opens[n - 1].isIf || l.opens[n - 1].hasElse then None
      else Some(l.(ops := SetElse(l.ops, l.opens[n - 1].pc, pc) + [Else],
                   opens := l.opens[n - 1 := l.opens[n - 1].(hasElse := true)]))
    case TEnd =>
      if n == 0 then None
      else Some(l.(ops := SetEnd(l.ops, l.opens[n - 1].pc, pc) + [End], opens := l.opens[..n - 1]))
    case TTable(targets) =>
      Some(l.(ops := l.ops + [BrTable(|l.targets|, |targets|)], targets := l.targets + targets))
    case TInstr(i) => Some(l.(ops := l.ops + [i]))
  }

  /** The rest of a body: it ends with the `end` that closes no construct, and there
      the bytes end too. */
  function LowerFrom(data: seq<Byte>, pos: nat, l: Lowering): Option<Lowering>
    requires Pointing(l)
    decreases if pos < |data| then |data| - pos else 0
  {
    if pos >= |data| || |l.ops| >= V.MAX_INSTRUCTIONS then None
    else
      var (token, next) :- TokenAt(data, pos);
      if token.TEnd? && l.opens == [] then
        if next == |data| then Some(l.(ops := l.ops + [End])) else None
      else
        var l1 :- Place(l, token);
        LowerFrom(data, next, l1)
  }

  function Repeat(t: ValType, n: nat): (r: seq<ValType>)
    ensures |r| == n
  {
    seq(n, _ => t)
  }

  /** One run of locals of the same type. */
  function GroupAt(data: seq<Byte>, pos: nat): (r: Option<((nat, ValType), nat)>)
    ensures r.Some? ==> pos <= r.value.1 <= |data|
  {
    var (n, q) :- U32At(data, pos);
    var (b, r) :- U8At(data, q);
    var t :- ValTypeOf(b);
    Some(((n, t), r))
  }

  /** Local declarations: `groups` runs of one type each. */
  function LocalsAt(data: seq<Byte>, pos: nat, groups: nat): (r: Option<(seq<ValType>, nat)>)
    requires pos <= |data|
    ensures r.Some? ==> pos <= r.value.1 <= |data| && |r.value.0| <= MAX_LOCALS
  {
    if groups == 0 then Some(([], pos))
    else
      var (ts, p) :- LocalsAt(data, pos, groups - 1);
      var (g, q) :- GroupAt(data, p);
      if g.0 > MAX_LOCALS - |ts| then None else Some((ts + Repeat(g.1, g.0), q))
  }

  datatype Body = Body(locals: seq<ValType>, ops: seq<Instr>, targets: seq<nat>)

  /** What a body's bytes lower to. */
  function Lower(code: seq<Byte>): Option<Body> {
    var (groups, p) :- U32At(code, 0);
    var (locals, q) :- LocalsAt(code, p, groups);
    var l :- LowerFrom(code, q, Lowering([], [], []));
    Some(Body(locals, l.ops, l.targets))
  }
}
