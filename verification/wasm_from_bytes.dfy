/** From the bytes of the code section to the result of a call: both walks of the loader, lowering
    and the interpreter, one after the other. */
module WasmFromBytes {
  import opened Options
  import opened Words
  import opened WasmSyntax
  import opened WasmDecode
  import opened WasmExec
  import opened WasmMachine
  import opened WasmModules
  import opened WasmPlainSoundness
  import opened WasmTypeSoundness
  import opened WasmGuarantees
  import opened WasmCalls
  import L = WasmLoader
  import R = WasmRuntime

  /** A module that the loader accepted meets what the call theorems ask for. */
  lemma {:induction false} ValidIsLoaded(lm: LoadedModule)
    requires lm.Valid() && forall i :: 0 <= i < |lm.imports| ==> lm.imports[i] < |lm.types|
    ensures WasmGuarantees.Loaded(lm.View(), lm.slots)
  {
  }

  /** Each body of m is what its bytes lower to, under its declared type. */
  ghost predicate Holds(m: Module, codes: seq<seq<Byte>>, functionTypes: seq<nat>) {
    && |m.funcs| == |codes| == |functionTypes|
    && forall k {:trigger m.funcs[k]} :: 0 <= k < |codes| ==>
         m.funcs[k].code == OpsOf(codes[k]) && m.funcs[k].typeIdx == functionTypes[k]
  }

  /** Lowers one body. */
  method LowerNth(lm: LoadedModule, k: nat) returns (status: L.Status, fn: Func)
    requires lm.Valid() && k < |lm.slots|
    modifies lm`slots
    ensures lm.Valid() && lm.View() == old(lm.View()) && |lm.slots| == |old(lm.slots)|
    ensures !status.Rejected? && (status.Ok? ==> fn == lm.View().funcs[k])
  {
    status := lm.EnsureLowered(|lm.imports| + k);
    var slot := lm.slots[k];
    assert lm.View().funcs[k] == FuncOf(slot);
    fn := Func(slot.typeIdx, slot.locals, if slot.instructions.Some? then slot.instructions.value else [], slot.branchBase, slot.maxStack);
  }

  /** Lowers every body; the module that results is the one that was checked. */
  method LowerAll(lm: LoadedModule) returns (status: L.Status, m: Module)
    requires lm.Valid()
    modifies lm`slots
    ensures lm.Valid() && lm.View() == old(lm.View())
    ensures status.Ok? ==> m == lm.View()
    ensures !status.Rejected?
  {
    var funcs: seq<Func> := [];
    m := lm.With([]);
    ghost var all := lm.View().funcs;
    while |funcs| < |lm.slots|
      invariant lm.Valid() && lm.View() == old(lm.View()) && |lm.slots| == |all|
      invariant |funcs| <= |all| && funcs == all[..|funcs|]
      decreases |all| - |funcs|
    {
      var fn;
      status, fn := LowerNth(lm, |funcs|);
      if !status.Ok? { return; }
      funcs := funcs + [fn];
    }
    status, m := L.Ok, lm.With(funcs);
  }

  /** Both walks over the code section, and the module that they accept. */
  method Load(lm: LoadedModule, codes: seq<seq<Byte>>, functionTypes: seq<nat>) returns (status: L.Status, m: Module)
    requires lm.slots == [] && lm.targets == [] && forall i :: 0 <= i < |lm.imports| ==> lm.imports[i] < |lm.types|
    modifies lm
    ensures status.Ok? ==>
      && Holds(m, codes, functionTypes) && WasmGuarantees.Loaded(m, lm.slots)
      && m.types == lm.types && m.imports == lm.imports && m.globals == lm.globals
    ensures status.Rejected? ==>
      || |codes| != |functionTypes|
      || (exists k :: 0 <= k < |codes| && Undecodable(codes[k]))
      || (exists k :: 0 <= k < |lm.slots| && Hopeless(lm.View(), lm.slots[k]))
  {
    m := lm.With([]);
    status := lm.Walk(codes, functionTypes);
    if !status.Ok? { return; }
    ghost var walked := lm.slots;
    status := lm.CheckBodies();
    if !status.Ok? { return; }
    SameBodies(walked, lm.slots, codes, functionTypes);
    status, m := LowerAll(lm);
    ValidIsLoaded(lm);
  }

  lemma {:induction false} SameBodies(a: seq<Slot>, b: seq<Slot>, codes: seq<seq<Byte>>, functionTypes: seq<nat>)
    requires |a| == |b| == |codes| == |functionTypes| && Listed(a, codes, functionTypes)
    requires forall k :: 0 <= k < |b| ==> b[k].(maxStack := 0) == a[k].(maxStack := 0)
    ensures forall k {:trigger b[k]} :: 0 <= k < |b| ==>
      FuncOf(b[k]).code == OpsOf(codes[k]) && FuncOf(b[k]).typeIdx == functionTypes[k]
  {
    forall k | 0 <= k < |b| ensures FuncOf(b[k]).code == OpsOf(codes[k]) && FuncOf(b[k]).typeIdx == functionTypes[k] {
      assert b[k].(maxStack := 0).code == a[k].code && b[k].(maxStack := 0).typeIdx == a[k].typeIdx;
    }
  }

  /** The type of a function index, from the import and function sections. */
  function Declared(types: seq<FuncType>, imports: seq<nat>, functionTypes: seq<nat>, f: nat): Option<FuncType> {
    var ti := if f < |imports| then Some(imports[f])
              else if f - |imports| < |functionTypes| then Some(functionTypes[f - |imports|]) else None;
    if ti.Some? && ti.value < |types| then Some(types[ti.value]) else None
  }

  /** Whether the host is well behaved does not depend on the bodies. */
  lemma {:induction false} SameHost(env: Env, m: Module)
    requires HostOk(env) && m.types == env.m.types && m.imports == env.m.imports && m.globals == env.m.globals
    ensures HostOk(env.(m := m))
  {
    forall f: nat, args: seq<nat>, s: Store
      | f < |m.imports| && m.TypeOf(f).Some? && StoreOk(m, s) && env.host(f, args, s).HostCompleted?
      ensures AllTyped(env.host(f, args, s).results, m.TypeOf(f).value.results) && StoreOk(m, env.host(f, args, s).store)
    {
      assert env.m.TypeOf(f) == m.TypeOf(f) && StoreOk(env.m, s);
    }
  }

  lemma {:induction false} TypesAsDeclared(m: Module, codes: seq<seq<Byte>>, functionTypes: seq<nat>, f: nat)
    requires Holds(m, codes, functionTypes)
    ensures m.TypeOf(f) == Declared(m.types, m.imports, functionTypes, f)
  {
  }

  /** A call on stacks of its own. */
  method CallFresh(env: Env, ghost slots: seq<Slot>, lim: Limits, store: Store, f: nat, args: seq<nat>, capacity: nat, n: nat)
      returns (st: R.Status)
    requires WasmGuarantees.Loaded(env.m, slots) && AllocOk(env) && HostOk(env) && StoreOk(env.m, store)
    requires R.Suits(env.m, f, args, capacity) ==> AllTyped(args, env.m.TypeOf(f).value.params)
    ensures Answers(env, lim, store, f, args, capacity, n, st)
  {
    var rt := new R.Runtime(env, lim, store);
    st := CallLoaded(rt, slots, f, args, capacity, n);
  }

  /** Loads a module from the bytes of its bodies and calls one of its functions, interrupted after
      n iterations. `env` gives everything but the bodies. */
  method LoadAndCall(lm: LoadedModule, codes: seq<seq<Byte>>, functionTypes: seq<nat>, env: Env, lim: Limits, store: Store,
                     f: nat, args: seq<nat>, capacity: nat, n: nat)
      returns (loaded: L.Status, m: Module, st: R.Status)
    requires lm.slots == [] && lm.targets == [] && env.m == lm.With([])
    requires forall i :: 0 <= i < |lm.imports| ==> lm.imports[i] < |lm.types|
    requires AllocOk(env) && HostOk(env) && StoreOk(env.m, store)
    requires var t := Declared(lm.types, lm.imports, functionTypes, f);
      t.Some? && |args| == |t.value.params| ==> AllTyped(args, t.value.params)
    modifies lm
    ensures loaded.Ok? ==> Holds(m, codes, functionTypes)
    ensures loaded.Ok? ==> Answers(env.(m := m), lim, store, f, args, capacity, n, st)
  {
    st := R.Error;
    loaded, m := Load(lm, codes, functionTypes);
    if !loaded.Ok? { return; }
    SameHost(env, m);
    TypesAsDeclared(m, codes, functionTypes, f);
    st := CallFresh(env.(m := m), lm.slots, lim, store, f, args, capacity, n);
  }
}
