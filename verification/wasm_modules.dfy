/** Loading a module's bodies: a first walk records them, a second one checks them and
    throws the instructions away, and the first call lowers a body again. */
module WasmModules {
  import opened Options
  import opened Words
  import opened WasmSyntax
  import opened WasmLexer
  import opened WasmDecode
  import opened WasmDecodeFacts
  import opened WasmLoader
  import opened WasmValidator
  import opened TempVectors
  import L = Leb128
  import V = WasmValidation

  /** What the module keeps of a body; `instructions` is filled on the first call. */
  datatype Slot = Slot(
    code: seq<Byte>,
    typeIdx: nat,
    locals: seq<ValType>,
    instructionCount: nat,
    branchBase: nat,
    branchCount: nat,
    maxStack: nat,
    instructions: Option<seq<Instr>>)

  function OpsOf(code: seq<Byte>): seq<Instr> {
    var b := Lower(code);
    if b.Some? then b.value.ops else []
  }

  /** The function that a slot stands for, lowered or not. */
  function FuncOf(slot: Slot): Func {
    Func(slot.typeIdx, slot.locals, OpsOf(slot.code), slot.branchBase, slot.maxStack)
  }

  /** The recorded facts are those of the body's bytes, its targets are its stretch of the
      module-wide array, and a lowered body holds what the bytes lower to. */
  predicate Faithful(slot: Slot, targets: seq<nat>) {
    && Lower(slot.code).Some?
    && var b := Lower(slot.code).value;
    && slot.locals == b.locals && slot.instructionCount == |b.ops| && slot.branchCount == |b.targets|
    && slot.branchBase + slot.branchCount <= |targets|
    && targets[slot.branchBase..slot.branchBase + slot.branchCount] == b.targets
    && (slot.instructions.Some? ==> slot.instructions.value == b.ops)
  }

  /** The check of the second walk. */
  predicate CheckedIn(m: Module, slot: Slot) {
    slot.typeIdx < |m.types| && V.Accepts(m, m.types[slot.typeIdx], FuncOf(slot))
  }

  // ---- what the rules see of a module ----

  predicate SameInterface(m: Module, n: Module) {
    && m.types == n.types && m.imports == n.imports && m.globals == n.globals && m.targets == n.targets
    && m.hasTable == n.hasTable && m.hasMemory == n.hasMemory
    && |m.funcs| == |n.funcs| && forall k :: 0 <= k < |m.funcs| ==> m.funcs[k].typeIdx == n.funcs[k].typeIdx
  }

  lemma {:induction false} SameRule(m: Module, n: Module, ft: FuncType, fn: Func, i: Instr, s: V.VState)
    requires SameInterface(m, n)
    ensures V.ValidateInstr(m, ft, fn, i, s) == V.ValidateInstr(n, ft, fn, i, s)
  {
    if i.Call? {
      assert m.TypeOf(i.func) == n.TypeOf(i.func);
    } else if i.BrTable? {
      assert m.Targets(fn, i.first, i.count) == n.Targets(fn, i.first, i.count);
    } else if i.Do? {
      assert V.Signature(m, ft.params + fn.locals, i.op) == V.Signature(n, ft.params + fn.locals, i.op);
    }
  }

  lemma {:induction false} SameStateAt(m: Module, n: Module, ft: FuncType, fn: Func, pc: nat)
    requires SameInterface(m, n) && pc <= |fn.code|
    ensures V.StateAt(m, ft, fn, pc) == V.StateAt(n, ft, fn, pc)
  {
    if pc > 0 {
      SameStateAt(m, n, ft, fn, pc - 1);
      var s := V.StateAt(m, ft, fn, pc - 1);
      if s.Some? { SameRule(m, n, ft, fn, fn.code[pc - 1], s.value); }
    }
  }

  lemma {:induction false} StillChecked(m: Module, n: Module, slot: Slot)
    requires SameInterface(m, n) && CheckedIn(m, slot)
    ensures CheckedIn(n, slot)
  {
    var fn := FuncOf(slot);
    SameStateAt(m, n, m.types[slot.typeIdx], fn, |fn.code|);
  }

  /** decode_body: locals, then instructions, into the given vectors. */
  method DecodeBody(code: seq<Byte>, emit: bool, operations: TempVector<Instr>, targets: TempVector<nat>)
      returns (status: Status, locals: seq<ValType>, branchCount: nat)
    requires operations.Valid() && targets.Valid() && operations.Contents() == []
    requires (operations as object) != targets
    modifies operations, targets
    ensures operations.Valid() && targets.Valid()
    ensures status.Ok? ==>
      && Lower(code).Some? && var b := Lower(code).value;
      && locals == b.locals && operations.Contents() == b.ops && branchCount == |b.targets|
      && targets.Contents() == old(targets.Contents()) + if emit then b.targets else []
    ensures status.Rejected? ==> Lower(code).None?
  {
    locals, branchCount := [], 0;
    var reader := new L.Reader(code);
    var ts := ReadLocals(reader);
    if ts.None? {
      return Rejected, locals, branchCount;
    }
    locals := ts.value;
    status, branchCount := DecodeOps(reader, emit, operations, targets);
    if status.Ok? && !emit {
      assert old(targets.Contents()) + [] == old(targets.Contents());
    }
  }

  function Bare(slot: Slot): Func {
    Func(slot.typeIdx, slot.locals, [], slot.branchBase, 0)
  }

  lemma {:induction false} StillFaithful(slot: Slot, a: seq<nat>, b: seq<nat>)
    requires Faithful(slot, a) && a <= b
    ensures Faithful(slot, b)
  {
    assert b[slot.branchBase..slot.branchBase + slot.branchCount] == a[slot.branchBase..slot.branchBase + slot.branchCount];
  }

  lemma {:induction false} NewFaithful(slot: Slot, before: seq<nat>)
    requires Lower(slot.code).Some? && slot.branchBase == |before| && slot.instructions.None?
    requires var b := Lower(slot.code).value;
      slot.locals == b.locals && slot.instructionCount == |b.ops| && slot.branchCount == |b.targets|
    ensures Faithful(slot, before + Lower(slot.code).value.targets)
  {
    AfterPrefix(before, Lower(slot.code).value.targets);
  }

  predicate AllFaithful(slots: seq<Slot>, targets: seq<nat>) {
    forall k {:trigger Faithful(slots[k], targets)} :: 0 <= k < |slots| ==> Faithful(slots[k], targets)
  }

  predicate AllChecked(m: Module, slots: seq<Slot>) {
    forall k {:trigger CheckedIn(m, slots[k])} :: 0 <= k < |slots| ==> CheckedIn(m, slots[k])
  }

  lemma {:induction false} MoreFaithful(slots: seq<Slot>, slot: Slot, a: seq<nat>, b: seq<nat>)
    requires AllFaithful(slots, a) && a <= b && Faithful(slot, b)
    ensures AllFaithful(slots + [slot], b)
  {
    forall k | 0 <= k < |slots| ensures Faithful(slots[k], b) { StillFaithful(slots[k], a, b); }
  }

  /** The slots are those of the first bodies, none lowered yet. */
  predicate Listed(slots: seq<Slot>, codes: seq<seq<Byte>>, functionTypes: seq<nat>) {
    && |slots| <= |codes| && |slots| <= |functionTypes|
    && forall k {:trigger slots[k]} :: 0 <= k < |slots| ==>
         slots[k].code == codes[k] && slots[k].typeIdx == functionTypes[k] && slots[k].instructions.None?
  }

  /** No body is the lowering of these bytes. */
  ghost predicate Undecodable(code: seq<Byte>) { forall b: Body :: Lower(code) != Some(b) }

  /** One body of the code section. */
  method WalkOne(code: seq<Byte>, typeIdx: nat, all: TempVector<nat>) returns (status: Status, slot: Slot)
    requires all.Valid()
    modifies all
    ensures all.Valid()
    ensures status.Ok? ==>
      && old(all.Contents()) <= all.Contents() && Faithful(slot, all.Contents())
      && slot.code == code && slot.typeIdx == typeIdx && slot.instructions.None?
    ensures status.Rejected? ==> Undecodable(code)
  {
    var scratch := new TempVector<Instr>();
    ghost var before := all.Contents();
    var base := all.count;
    var locals, branchCount;
    status, locals, branchCount := DecodeBody(code, true, scratch, all);
    slot := Slot(code, typeIdx, locals, scratch.count, base, branchCount, 0, None);
    if status.Ok? {
      NewFaithful(slot, before);
    }
  }

  method WalkNext(code: seq<Byte>, typeIdx: nat, all: TempVector<nat>, ghost found: seq<Slot>)
      returns (status: Status, slot: Slot)
    requires all.Valid() && AllFaithful(found, all.Contents())
    modifies all
    ensures all.Valid()
    ensures status.Ok? ==>
      && AllFaithful(found + [slot], all.Contents())
      && slot.code == code && slot.typeIdx == typeIdx && slot.instructions.None?
    ensures status.Rejected? ==> Undecodable(code)
  {
    ghost var before := all.Contents();
    status, slot := WalkOne(code, typeIdx, all);
    if status.Ok? { MoreFaithful(found, slot, before, all.Contents()); }
  }

  /** Decodes a recorded body again; what it finds always matches the record. */
  method Replay(slot: Slot, ghost targets: seq<nat>, operations: TempVector<Instr>) returns (ok: bool)
    requires Faithful(slot, targets) && operations.Valid() && operations.Contents() == []
    modifies operations
    ensures operations.Valid() && (ok ==> operations.Contents() == OpsOf(slot.code))
  {
    var none := new TempVector<nat>();
    var status, locals, branchCount := DecodeBody(slot.code, false, operations, none);
    if status.Ok? {
      assert operations.count == slot.instructionCount && locals == slot.locals && branchCount == slot.branchCount;
    }
    ok := status.Ok?;
  }

  method CheckCode(m: Module, slot: Slot, ghost targets: seq<nat>, stack: array<V.StackType>, controls: array<V.Ctrl>)
      returns (status: Status, maxStack: nat)
    requires Faithful(slot, targets)
    requires stack.Length == V.MAX_TYPE_STACK && controls.Length == V.MAX_CONTROL_DEPTH && (stack as object) != controls
    modifies stack, controls
    ensures status.Ok? ==> CheckedIn(m, slot.(maxStack := maxStack))
    ensures status.Rejected? ==> forall k :: !CheckedIn(m, slot.(maxStack := k))
  {
    maxStack := 0;
    if slot.typeIdx >= |m.types| {
      return Rejected, maxStack;
    }
    var scratch := new TempVector<Instr>();
    var replayed := Replay(slot, targets, scratch);
    if !replayed {
      return OutOfMemory, maxStack;
    }
    var context := new ValidationContext(m, m.types[slot.typeIdx], Bare(slot), stack, controls);
    var ok := context.Validate(scratch);
    maxStack := context.maxStack;
    Verdict(m, slot, scratch.Contents(), maxStack, ok);
    status := if ok then Ok else Rejected;
  }

  /** The checker's verdict on the code is a verdict on the slot. */
  lemma {:induction false} Verdict(m: Module, slot: Slot, code: seq<Instr>, maxStack: nat, ok: bool)
    requires slot.typeIdx < |m.types| && code == OpsOf(slot.code)
    requires var ft, fn := m.types[slot.typeIdx], Bare(slot);
      if ok then V.Accepts(m, ft, WithCode(fn, code, maxStack)) else forall k :: !V.Accepts(m, ft, WithCode(fn, code, k))
    ensures if ok then CheckedIn(m, slot.(maxStack := maxStack)) else forall k :: !CheckedIn(m, slot.(maxStack := k))
  {
    assert forall k :: WithCode(Bare(slot), code, k) == FuncOf(slot.(maxStack := k));
  }

  /** No stack bound makes the checker accept the body. */
  ghost predicate Hopeless(m: Module, slot: Slot) { forall n :: !CheckedIn(m, slot.(maxStack := n)) }

  class LoadedModule {
    const types: seq<FuncType>
    const imports: seq<nat>
    const globals: seq<GlobalDesc>
    const hasTable: bool
    const hasMemory: bool
    var slots: seq<Slot>
    var targets: seq<nat>

    /** A module with the given functions. */
    function With(funcs: seq<Func>): Module
      reads this
    {
      Module(types, imports, funcs, globals, hasTable, hasMemory, targets)
    }

    /** The module as the checker and the interpreter see it. */
    ghost function View(): Module
      reads this
    {
      With(seq(|slots|, k requires 0 <= k < |slots| reads this => FuncOf(slots[k])))
    }

    /** What the checker may look at: everything but the instructions. */
    function Interface(): Module
      reads this
    {
      With(seq(|slots|, k requires 0 <= k < |slots| reads this => Bare(slots[k])))
    }

    /** Loaded: every body is recorded and was accepted. */
    ghost predicate Valid()
      reads this
    {
      AllFaithful(slots, targets) && AllChecked(View(), slots)
    }

    constructor (types: seq<FuncType>, imports: seq<nat>, globals: seq<GlobalDesc>, hasTable: bool, hasMemory: bool)
      ensures Valid() && slots == [] && targets == []
      ensures this.types == types && this.imports == imports && this.globals == globals
      ensures this.hasTable == hasTable && this.hasMemory == hasMemory
    {
      this.types := types;
      this.imports := imports;
      this.globals := globals;
      this.hasTable := hasTable;
      this.hasMemory := hasMemory;
      slots := [];
      targets := [];
    }

    /** The code section: every body is decoded once for its shape and its targets. */
    method Walk(codes: seq<seq<Byte>>, functionTypes: seq<nat>) returns (status: Status)
      requires slots == [] && targets == []
      modifies this
      ensures AllFaithful(slots, targets)
      ensures status.Ok? ==> |slots| == |codes| == |functionTypes| && Listed(slots, codes, functionTypes)
      ensures status.Rejected? ==> |codes| != |functionTypes| || exists k :: 0 <= k < |codes| && Undecodable(codes[k])
      ensures !status.Ok? ==> slots == []
    {
      if |codes| != |functionTypes| {
        return Rejected;
      }
      var all := new TempVector<nat>();
      var found: seq<Slot> := [];
      var k := 0;
      while k < |codes|
        invariant 0 <= k <= |codes| && |found| == k && fresh(all) && all.Valid() && slots == [] && targets == []
        invariant AllFaithful(found, all.Contents()) && Listed(found, codes, functionTypes)
      {
        var slot;
        status, slot := WalkNext(codes[k], functionTypes[k], all, found);
        if !status.Ok? {
          return;
        }
        found := found + [slot];
        k := k + 1;
      }
      status := Consolidate(found, all);
    }

    method Consolidate(found: seq<Slot>, all: TempVector<nat>) returns (status: Status)
      requires all.Valid() && AllFaithful(found, all.Contents()) && (all as object) != this
      requires slots == [] && targets == []
      modifies this, all
      ensures AllFaithful(slots, targets) && !status.Rejected?
      ensures slots == if status.Ok? then found else []
    {
      var count := all.count;
      ghost var whole := all.Contents();
      var block := all.Finish();
      if block.None? && count != 0 {
        return OutOfMemory;
      }
      slots := found;
      targets := if block.None? then [] else block.value;
      assert targets == whole;
      return Ok;
    }

    method CheckNth(k: nat, stack: array<V.StackType>, controls: array<V.Ctrl>) returns (status: Status)
      requires k < |slots| && AllFaithful(slots, targets) && AllChecked(View(), slots[..k])
      requires stack.Length == V.MAX_TYPE_STACK && controls.Length == V.MAX_CONTROL_DEPTH && (stack as object) != controls
      requires (stack as object) != this && (controls as object) != this
      modifies this`slots, stack, controls
      ensures AllFaithful(slots, targets) && |slots| == |old(slots)|
      ensures forall j :: 0 <= j < |slots| ==> slots[j].(maxStack := 0) == old(slots[j]).(maxStack := 0)
      ensures status.Ok? ==> AllChecked(View(), slots[..k + 1])
      ensures status.Rejected? ==> Hopeless(View(), slots[k])
    {
      var m, slot := Interface(), slots[k];
      var maxStack;
      status, maxStack := CheckCode(m, slot, targets, stack, controls);
      if !status.Ok? {
        if status.Rejected? { NeverChecked(m, View(), slot); }
        return;
      }
      ghost var before := View();
      ghost var done := slots[..k];
      slots := slots[k := slot.(maxStack := maxStack)];
      AllStillChecked(before, View(), done);
      StillChecked(m, View(), slots[k]);
      assert slots[..k + 1] == done + [slots[k]];
    }

    /** The second walk: every body is decoded again and checked; nothing of it is kept
        but its stack bound. */
    method CheckBodies() returns (status: Status)
      requires AllFaithful(slots, targets)
      modifies this
      ensures AllFaithful(slots, targets) && targets == old(targets) && |slots| == |old(slots)|
      ensures forall k :: 0 <= k < |slots| ==> slots[k].(maxStack := 0) == old(slots[k]).(maxStack := 0)
      ensures status.Ok? ==> Valid()
      ensures status.Rejected? ==> exists k :: 0 <= k < |slots| && Hopeless(View(), slots[k])
    {
      var stack := new V.StackType[V.MAX_TYPE_STACK](_ => V.Bottom);
      var controls := new V.Ctrl[V.MAX_CONTROL_DEPTH](_ => V.Ctrl(None, 0, [], false, false));
      var k := 0;
      while k < |slots|
        invariant 0 <= k <= |slots| == |old(slots)| && AllFaithful(slots, targets) && targets == old(targets)
        invariant forall j :: 0 <= j < |slots| ==> slots[j].(maxStack := 0) == old(slots[j]).(maxStack := 0)
        invariant AllChecked(View(), slots[..k])
        invariant fresh(stack) && fresh(controls)
      {
        status := CheckNth(k, stack, controls);
        if !status.Ok? {
          return;
        }
        k := k + 1;
      }
      assert slots[..k] == slots;
      return Ok;
    }

    /** Lowering on the first call. The module is the same before and after, and the
        instructions it fills in are exactly those that were checked. */
    method EnsureLowered(f: nat) returns (status: Status)
      requires Valid()
      modifies this`slots
      ensures Valid() && View() == old(View())
      ensures status.Ok? && f >= |imports| ==>
        && f - |imports| < |slots|
        && slots[f - |imports|].instructions == Some(View().funcs[f - |imports|].code)
      ensures status.Rejected? ==> f >= |imports| + |slots|
      ensures |slots| == |old(slots)|
      ensures forall k :: 0 <= k < |slots| && k != f - |imports| ==> slots[k] == old(slots[k])
    {
      if f < |imports| {
        return Ok;
      }
      var k := f - |imports|;
      if k >= |slots| {
        return Rejected;
      }
      var slot := slots[k];
      if slot.instructions.Some? {
        FaithfulOps(slot, targets);
        return Ok;
      }
      var operations := new TempVector<Instr>();
      var ok := Replay(slot, targets, operations);
      if !ok {
        return OutOfMemory;
      }
      var instructions := operations.Finish();
      if instructions.None? {
        return OutOfMemory;
      }
      ghost var m := View();
      FilledIn(m, slots, targets, k, instructions.value);
      slots := slots[k := slot.(instructions := instructions)];
      assert View() == m;
      return Ok;
    }
  }

  lemma {:induction false} FaithfulOps(slot: Slot, targets: seq<nat>)
    requires Faithful(slot, targets) && slot.instructions.Some?
    ensures slot.instructions == Some(OpsOf(slot.code))
  {
  }

  /** Filling in the lowered instructions changes nothing that was recorded or checked. */
  lemma {:induction false} FilledIn(m: Module, slots: seq<Slot>, targets: seq<nat>, k: nat, instructions: seq<Instr>)
    requires k < |slots| && AllFaithful(slots, targets) && AllChecked(m, slots) && instructions == OpsOf(slots[k].code)
    ensures var after := slots[k := slots[k].(instructions := Some(instructions))];
      && AllFaithful(after, targets) && AllChecked(m, after)
      && forall j :: 0 <= j < |slots| ==> FuncOf(after[j]) == FuncOf(slots[j])
  {
    var after := slots[k := slots[k].(instructions := Some(instructions))];
    forall j | 0 <= j < |slots| ensures FuncOf(after[j]) == FuncOf(slots[j]) {}
    forall j | 0 <= j < |slots| ensures CheckedIn(m, after[j]) {
      assert CheckedIn(m, slots[j]);
      SameChecked(m, slots[j], after[j]);
    }
    forall j | 0 <= j < |slots| ensures Faithful(after[j], targets) {
      assert Faithful(slots[j], targets);
    }
  }

  lemma {:induction false} SameChecked(m: Module, a: Slot, b: Slot)
    requires CheckedIn(m, a) && a.typeIdx == b.typeIdx && FuncOf(a) == FuncOf(b)
    ensures CheckedIn(m, b)
  {
  }

  lemma {:induction false} AllStillChecked(m: Module, n: Module, slots: seq<Slot>)
    requires SameInterface(m, n) && AllChecked(m, slots)
    ensures AllChecked(n, slots)
  {
    forall k | 0 <= k < |slots| ensures CheckedIn(n, slots[k]) { StillChecked(m, n, slots[k]); }
  }

  lemma {:induction false} NeverChecked(m: Module, n: Module, slot: Slot)
    requires SameInterface(m, n) && forall k :: !CheckedIn(m, slot.(maxStack := k))
    ensures forall k :: !CheckedIn(n, slot.(maxStack := k))
  {
    forall k ensures !CheckedIn(n, slot.(maxStack := k)) {
      if CheckedIn(n, slot.(maxStack := k)) { StillChecked(n, m, slot.(maxStack := k)); }
    }
  }
}
