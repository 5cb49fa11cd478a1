/** Plain instructions: the computed values have the types the checker promised. */
module WasmPlainSoundness {
  import opened Options
  import opened Words
  import opened WasmNumerics
  import opened WasmSyntax
  import opened WasmStructure
  import opened WasmValidation
  import opened WasmValidationFacts
  import opened WasmStatic
  import opened WasmExec
  import opened WasmSoundness
  import LM = LinearMemory

  predicate StoreOk(m: Module, s: Store) {
    && |s.globals| == |m.globals|
    && (forall i :: 0 <= i < |s.globals| ==> Typed(s.globals[i], m.globals[i].t))
    && LM.Valid(s.mem)
  }

  ghost predicate AllocOk(env: Env) { forall t: nat, n: nat :: env.alloc(t, n) ==> n < LM.ADDRESS_LIMIT }

  predicate PlainOk(m: Module, locals: seq<ValType>, outs: seq<ValType>, r: PlainOut) {
    match r
    case Done(ls, operands, s) => AllTyped(ls, locals) && AllTyped(operands, outs) && StoreOk(m, s)
    case PlainTrap(_) => true
    case PlainStuck => false
  }

  lemma {:induction false} GrowSound(env: Env, s: Store, pages: nat)
    requires StoreOk(env.m, s) && AllocOk(env)
    ensures var r := GrowMemory(env, s, pages); r.0 < TWO32 && StoreOk(env.m, r.1)
  {
    var grown := |s.mem.bytes| + pages * 65536;
    assert grown % 65536 == 0;
  }

  lemma {:induction false} MemorySizeTyped(m: LM.Memory)
    requires LM.Valid(m)
    ensures |m.bytes| / 65536 < TWO32
  {
  }

  /** The arithmetic and memory instructions. */
  lemma {:induction false} ComputeSound(env: Env, locals: seq<ValType>, p: Plain, ls: seq<nat>, args: seq<nat>, s: Store)
    requires StoreOk(env.m, s) && AllocOk(env) && AllTyped(ls, locals)
    requires Signature(env.m, locals, p).Some? && AllTyped(args, Signature(env.m, locals, p).value.0)
    ensures PlainOk(env.m, locals, Signature(env.m, locals, p).value.1, Compute(env, p, ls, args, s))
    ensures Arity(p) == |args|
  {
    if p.MemoryGrow? {
      GrowSound(env, s, Low32(args[0]));
    } else if p.MemorySize? {
      MemorySizeTyped(s.mem);
    }
  }
}
