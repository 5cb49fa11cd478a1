/** `decode_body` as it runs: one pass over the reader, appending to chunked vectors and
    patching openings in place. */
module WasmLoader {
  import opened Options
  import opened Words
  import opened WasmSyntax
  import opened WasmLexer
  import opened WasmDecode
  import opened TempVectors
  import L = Leb128
  import V = WasmValidation

  datatype Status = Ok | Rejected | OutOfMemory

  /** A read left the reader where the operand ends. */
  ghost predicate Moved<X>(want: Option<(X, nat)>, got: Option<X>, position: nat) {
    if want.Some? then got == Some(want.value.0) && position == want.value.1 else got.None?
  }

  method ReadU8(reader: L.Reader) returns (r: Option<nat>)
    requires reader.Valid()
    modifies reader
    ensures reader.Valid() && Moved(U8At(reader.data, old(reader.position)), r, reader.position)
  {
    var b := reader.U8();
    r := if b.None? then None else Some(b.value);
  }

  method ReadU32(reader: L.Reader) returns (r: Option<nat>)
    requires reader.Valid()
    modifies reader
    ensures reader.Valid() && Moved(U32At(reader.data, old(reader.position)), r, reader.position)
  {
    r := reader.ULeb32();
  }

  method ReadConstant(reader: L.Reader, t: ValType) returns (r: Option<nat>)
    requires reader.Valid()
    modifies reader
    ensures reader.Valid() && Moved(ConstantAt(t, reader.data, old(reader.position)), r, reader.position)
  {
    match t
    case I32 => r := reader.SLeb32();
    case I64 => r := reader.SLeb64();
    case F32 =>
      var bytes := reader.Bytes(4);
      r := if bytes.None? then None else Some(Little(bytes.value));
    case F64 =>
      var bytes := reader.Bytes(8);
      r := if bytes.None? then None else Some(Little(bytes.value));
  }

  /** The loop over a br_table's targets; the default is read like the others. */
  method ReadTargets(reader: L.Reader, n: nat) returns (r: Option<seq<nat>>)
    requires reader.Valid()
    modifies reader
    ensures reader.Valid() && Moved(TargetsAt(reader.data, old(reader.position), n), r, reader.position)
  {
    ghost var data, start := reader.data, reader.position;
    var ts: seq<nat> := [];
    var i := 0;
    while i < n
      invariant 0 <= i <= n && reader.Valid() && TargetsAt(data, start, i) == Some((ts, reader.position))
    {
      var t := ReadU32(reader);
      if t.None? {
        TargetsStop(data, start, i + 1, n);
        return None;
      }
      ts := ts + [t.value];
      i := i + 1;
    }
    return Some(ts);
  }

  lemma {:induction false} TargetsStop(data: seq<Byte>, pos: nat, i: nat, n: nat)
    requires pos <= |data| && i <= n && TargetsAt(data, pos, i).None?
    ensures TargetsAt(data, pos, n).None?
  {
    if i < n { TargetsStop(data, pos, i, n - 1); }
  }

  method ReadTable(reader: L.Reader) returns (r: Option<Token>)
    requires reader.Valid()
    modifies reader
    ensures reader.Valid() && Moved(OperandsAt(Table, reader.data, old(reader.position)), r, reader.position)
  {
    var n := ReadU32(reader);
    if n.None? || n.value > MAX_BRANCH_TARGETS - 1 {
      return None;
    }
    var ts := ReadTargets(reader, n.value + 1);
    r := if ts.None? then None else Some(TTable(ts.value));
  }

  method ReadPair(reader: L.Reader) returns (r: Option<(nat, nat)>)
    requires reader.Valid()
    modifies reader
    ensures reader.Valid()
    ensures var a := U32At(reader.data, old(reader.position));
      if a.None? then r.None?
      else
        var b := U32At(reader.data, a.value.1);
        if b.None? then r.None? else r == Some((a.value.0, b.value.0)) && reader.position == b.value.1
  {
    var a := ReadU32(reader);
    if a.None? {
      return None;
    }
    var b := ReadU32(reader);
    r := if b.None? then None else Some((a.value, b.value));
  }

  method ReadPrefixed(reader: L.Reader) returns (r: Option<Token>)
    requires reader.Valid()
    modifies reader
    ensures reader.Valid() && Moved(OperandsAt(Prefixed, reader.data, old(reader.position)), r, reader.position)
  {
    var sub := ReadU32(reader);
    if sub.None? {
      return None;
    }
    if sub.value <= 7 {
      return Some(TInstr(Do(Float(0xfc00 + sub.value))));
    } else if sub.value == 10 {
      var b := ReadU8(reader);
      if b.None? {
        return None;
      }
      var c := ReadU8(reader);
      r := if c.None? || b.value != 0 || c.value != 0 then None else Some(TInstr(Do(MemoryCopy)));
    } else if sub.value == 11 {
      var b := ReadU8(reader);
      r := if b.None? || b.value != 0 then None else Some(TInstr(Do(MemoryFill)));
    } else {
      return None;
    }
  }

  method ReadOperands(reader: L.Reader, form: Form) returns (r: Option<Token>)
    requires reader.Valid() && (form.Alone? ==> Proper(form.token))
    modifies reader
    ensures reader.Valid() && Moved(OperandsAt(form, reader.data, old(reader.position)), r, reader.position)
  {
    match form
    case Unknown => r := None;
    case Alone(token) => r := Some(token);
    case Typed(kind) =>
      var b := ReadU8(reader);
      if b.None? || BlockTypeOf(b.value).None? {
        return None;
      }
      r := Some(TOpen(kind, BlockTypeOf(b.value).value));
    case Indexed(op) =>
      var n := ReadU32(reader);
      r := if n.None? then None else Some(IndexToken(op, n.value));
    case Table => r := ReadTable(reader);
    case Pair =>
      var ab := ReadPair(reader);
      r := if ab.None? then None else Some(TInstr(CallIndirect(ab.value.0, ab.value.1)));
    case Access(store, t, width, signed) =>
      var ab := ReadPair(reader);
      r := if ab.None? then None else Some(AccessToken(store, t, width, signed, ab.value.0, ab.value.1));
    case ZeroByte(plain) =>
      var b := ReadU8(reader);
      r := if b.None? || b.value != 0 then None else Some(TInstr(Do(plain)));
    case Prefixed => r := ReadPrefixed(reader);
    case Constant(t) =>
      var bits := ReadConstant(reader, t);
      r := if bits.None? then None else Some(TInstr(Do(Const(t, bits.value))));
  }

  method ReadToken(reader: L.Reader) returns (r: Option<Token>)
    requires reader.Valid() && reader.position < |reader.data|
    modifies reader
    ensures reader.Valid() && Moved(TokenAt(reader.data, old(reader.position)), r, reader.position)
  {
    var op := reader.U8();
    r := ReadOperands(reader, FormOf(op.value));
  }

  lemma {:induction false} LocalsStop(data: seq<Byte>, pos: nat, i: nat, n: nat)
    requires pos <= |data| && i <= n && LocalsAt(data, pos, i).None?
    ensures LocalsAt(data, pos, n).None?
  {
    if i < n { LocalsStop(data, pos, i, n - 1); }
  }

  lemma {:induction false} LocalsNext(data: seq<Byte>, pos: nat, i: nat, ts: seq<ValType>, p: nat)
    requires pos <= |data| && LocalsAt(data, pos, i) == Some((ts, p))
    ensures LocalsAt(data, pos, i + 1) ==
      match GroupAt(data, p)
      case None => None
      case Some((g, q)) => if g.0 > MAX_LOCALS - |ts| then None else Some((ts + Repeat(g.1, g.0), q))
  {
  }

  method ReadGroup(reader: L.Reader) returns (r: Option<(nat, ValType)>)
    requires reader.Valid()
    modifies reader
    ensures reader.Valid() && Moved(GroupAt(reader.data, old(reader.position)), r, reader.position)
  {
    var n := ReadU32(reader);
    if n.None? {
      return None;
    }
    var b := ReadU8(reader);
    if b.None? || ValTypeOf(b.value).None? {
      return None;
    }
    return Some((n.value, ValTypeOf(b.value).value));
  }

  method ReadLocals(reader: L.Reader) returns (r: Option<seq<ValType>>)
    requires reader.Valid()
    modifies reader
    ensures reader.Valid()
    ensures var g := U32At(reader.data, old(reader.position));
      if g.None? then r.None? else Moved(LocalsAt(reader.data, g.value.1, g.value.0), r, reader.position)
  {
    var groups := ReadU32(reader);
    if groups.None? {
      return None;
    }
    ghost var data, start := reader.data, reader.position;
    var ts: seq<ValType> := [];
    var i := 0;
    while i < groups.value
      invariant 0 <= i <= groups.value && reader.Valid() && LocalsAt(data, start, i) == Some((ts, reader.position))
    {
      LocalsNext(data, start, i, ts, reader.position);
      var g := ReadGroup(reader);
      if g.None? || g.value.0 > MAX_LOCALS - |ts| {
        LocalsStop(data, start, i + 1, groups.value);
        return None;
      }
      ts := ts + Repeat(g.value.1, g.value.0);
      i := i + 1;
    }
    return Some(ts);
  }

  method AppendAll(v: TempVector<nat>, ts: seq<nat>) returns (ok: bool)
    requires v.Valid()
    modifies v
    ensures v.Valid() && (ok ==> v.Contents() == old(v.Contents()) + ts)
  {
    var i := 0;
    while i < |ts|
      invariant 0 <= i <= |ts| && v.Valid() && v.Contents() == old(v.Contents()) + ts[..i]
    {
      ok := v.Append(ts[i]);
      if !ok {
        return;
      }
      assert ts[..i + 1] == ts[..i] + [ts[i]];
      i := i + 1;
    }
    return true;
  }

  /** The instruction an opening pointer refers to. */
  method Fetch(operations: TempVector<Instr>, pc: nat) returns (i: Instr)
    requires operations.Valid() && pc < |operations.Contents()|
    ensures i == operations.Contents()[pc]
  {
    var r, _ := operations.NthFrom(pc, Cursor(None, 0));
    i := r.value;
  }

  /** One instruction: check it against the control stack, patch its opening, append it. */
  method PlaceToken(token: Token, operations: TempVector<Instr>, controls: TempVector<Opening>, branchCount: nat,
                    ghost l: Lowering) returns (status: Status)
    requires operations.Valid() && controls.Valid() && (operations as object) != controls
    requires Pointing(l) && l.ops == operations.Contents() && l.opens == controls.Contents() && |l.targets| == branchCount
    modifies operations, controls
    ensures operations.Valid() && controls.Valid()
    ensures var r := Place(l, token);
      && (status.Ok? ==> r.Some? && operations.Contents() == r.value.ops && controls.Contents() == r.value.opens)
      && (status.Rejected? ==> r.None?)
  {
    var ok := true;
    match token
    case TOpen(kind, bt) =>
      if controls.count >= V.MAX_CONTROL_DEPTH - 1 {
        return Rejected;
      }
      ok := controls.Append(Opening(operations.count, kind == IfK, false));
      if ok {
        ok := operations.Append(Open(kind, bt, None, NO_PC));
      }
      status := if ok then Ok else OutOfMemory;
    case TElse => status := PlaceElse(operations, controls, l);
    case TEnd => status := PlaceEnd(operations, controls, l);
    case TTable(ts) =>
      ok := operations.Append(BrTable(branchCount, |ts|));
      status := if ok then Ok else OutOfMemory;
    case TInstr(i) =>
      ok := operations.Append(i);
      status := if ok then Ok else OutOfMemory;
  }

  method PlaceElse(operations: TempVector<Instr>, controls: TempVector<Opening>, ghost l: Lowering)
      returns (status: Status)
    requires operations.Valid() && controls.Valid() && (operations as object) != controls
    requires Pointing(l) && l.ops == operations.Contents() && l.opens == controls.Contents()
    modifies operations, controls
    ensures operations.Valid() && controls.Valid()
    ensures var r := Place(l, TElse);
      && (status.Ok? ==> r.Some? && operations.Contents() == r.value.ops && controls.Contents() == r.value.opens)
      && (status.Rejected? ==> r.None?)
  {
    var top := controls.Top();
    if top.None? || !top.value.isIf || top.value.hasElse {
      return Rejected;
    }
    var opening := Fetch(operations, top.value.pc);
    operations.Patch(top.value.pc, opening.(elsePc := Some(operations.count)));
    controls.SetTop(top.value.(hasElse := true));
    var ok := operations.Append(Else);
    status := if ok then Ok else OutOfMemory;
  }

  method PlaceEnd(operations: TempVector<Instr>, controls: TempVector<Opening>, ghost l: Lowering)
      returns (status: Status)
    requires operations.Valid() && controls.Valid() && (operations as object) != controls
    requires Pointing(l) && l.ops == operations.Contents() && l.opens == controls.Contents()
    modifies operations, controls
    ensures operations.Valid() && controls.Valid()
    ensures var r := Place(l, TEnd);
      && (status.Ok? ==> r.Some? && operations.Contents() == r.value.ops && controls.Contents() == r.value.opens)
      && (status.Rejected? ==> r.None?)
  {
    var top := controls.Top();
    if top.None? {
      return Rejected;
    }
    var opening := Fetch(operations, top.value.pc);
    operations.Patch(top.value.pc, opening.(endPc := operations.count));
    controls.Pop();
    var ok := operations.Append(End);
    status := if ok then Ok else OutOfMemory;
  }

  /** What a body's bytes lower to from the reader's position on does not change as the
      loop advances. */
  ghost predicate Heading(data: seq<Byte>, start: nat, pos: nat, l: Lowering) {
    Pointing(l) && LowerFrom(data, pos, l) == LowerFrom(data, start, Lowering([], [], []))
  }

  /** One round of the loop, seen from the whole body. */
  lemma {:induction false} OneRound(data: seq<Byte>, start: nat, pos: nat, l: Lowering)
    requires Heading(data, start, pos, l)
    ensures var whole := LowerFrom(data, start, Lowering([], [], []));
      if pos >= |data| || |l.ops| >= V.MAX_INSTRUCTIONS || TokenAt(data, pos).None? then whole.None?
      else
        var (token, next) := TokenAt(data, pos).value;
        if token.TEnd? && l.opens == [] then
          whole == if next == |data| then Some(l.(ops := l.ops + [End])) else None
        else if Place(l, token).None? then whole.None?
        else Heading(data, start, next, Place(l, token).value)
  {
  }

  function TargetsOf(token: Token): seq<nat> {
    if token.TTable? then token.targets else []
  }

  lemma {:induction false} PlaceTargets(l: Lowering, token: Token)
    requires Pointing(l) && Place(l, token).Some?
    ensures Place(l, token).value.targets == l.targets + TargetsOf(token)
  {
    assert l.targets + [] == l.targets;
  }

  method Record(token: Token, emit: bool, targets: TempVector<nat>) returns (ok: bool)
    requires targets.Valid()
    modifies targets
    ensures targets.Valid()
    ensures ok ==> targets.Contents() == old(targets.Contents()) + if emit then TargetsOf(token) else []
  {
    if token.TTable? && emit {
      ok := AppendAll(targets, token.targets);
    } else {
      ok := true;
    }
  }

  ghost predicate Recorded(before: seq<nat>, emit: bool, l: Lowering, now: seq<nat>) {
    now == if emit then before + l.targets else before
  }

  lemma {:induction false} RecordedMore(before: seq<nat>, emit: bool, l: Lowering, now: seq<nat>, token: Token)
    requires Pointing(l) && Place(l, token).Some? && Recorded(before, emit, l, now)
    ensures Recorded(before, emit, Place(l, token).value, now + if emit then TargetsOf(token) else [])
  {
    PlaceTargets(l, token);
    assert (before + l.targets) + TargetsOf(token) == before + (l.targets + TargetsOf(token));
    assert now + [] == now;
  }

  /** The decoder's vectors hold the lowering so far. */
  ghost predicate Holds(l: Lowering, operations: TempVector<Instr>, controls: TempVector<Opening>)
    reads operations, controls
  {
    operations.Valid() && controls.Valid() && operations.Contents() == l.ops && controls.Contents() == l.opens
  }

  /** The instruction loop. With `emit` the br_table targets are recorded as well. */
  method DecodeOps(reader: L.Reader, emit: bool, operations: TempVector<Instr>, targets: TempVector<nat>)
      returns (status: Status, branchCount: nat)
    requires reader.Valid() && operations.Valid() && targets.Valid() && operations.Contents() == []
    requires (operations as object) != targets
    modifies reader, operations, targets
    ensures operations.Valid() && targets.Valid()
    ensures var r := LowerFrom(reader.data, old(reader.position), Lowering([], [], []));
      && (status.Ok? ==>
            && r.Some? && operations.Contents() == r.value.ops && branchCount == |r.value.targets|
            && Recorded(old(targets.Contents()), emit, r.value, targets.Contents()))
      && (status.Rejected? ==> r.None?)
  {
    branchCount := 0;
    var controls := new TempVector<Opening>();
    ghost var data, start := reader.data, reader.position;
    ghost var l := Lowering([], [], []);
    while reader.position < |reader.data|
      invariant reader.Valid() && fresh(controls) && targets.Valid() && Holds(l, operations, controls)
      invariant Heading(data, start, reader.position, l) && branchCount == |l.targets|
      invariant Recorded(old(targets.Contents()), emit, l, targets.Contents())
      decreases |data| - reader.position
    {
      OneRound(data, start, reader.position, l);
      if operations.count >= V.MAX_INSTRUCTIONS {
        return Rejected, branchCount;
      }
      var token := ReadToken(reader);
      if token.None? {
        return Rejected, branchCount;
      }
      if token.value.TEnd? && controls.count == 0 {
        status := Finish(reader, operations, l);
        return;
      }
      status := PlaceToken(token.value, operations, controls, branchCount, l);
      if !status.Ok? {
        return;
      }
      PlaceTargets(l, token.value);
      RecordedMore(old(targets.Contents()), emit, l, targets.Contents(), token.value);
      l := Place(l, token.value).value;
      branchCount := branchCount + |TargetsOf(token.value)|;
      var ok := Record(token.value, emit, targets);
      if !ok {
        return OutOfMemory, branchCount;
      }
    }
    OneRound(data, start, reader.position, l);
    return Rejected, branchCount;
  }

  /** The function's own `end` must be the last byte. */
  method Finish(reader: L.Reader, operations: TempVector<Instr>, ghost l: Lowering) returns (status: Status)
    requires operations.Valid() && operations.Contents() == l.ops
    modifies operations
    ensures operations.Valid()
    ensures status.Ok? ==> reader.position == |reader.data| && operations.Contents() == l.ops + [End]
    ensures status.Rejected? ==> reader.position != |reader.data|
  {
    if reader.position != |reader.data| {
      return Rejected;
    }
    var ok := operations.Append(End);
    status := if ok then Ok else OutOfMemory;
  }
}
