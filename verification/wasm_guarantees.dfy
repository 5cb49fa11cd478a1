/** What loading a module guarantees of every later call: from the bytes of its bodies to
    whole runs of the interpreter. */
module WasmGuarantees {
  import opened Options
  import opened Words
  import opened WasmSyntax
  import opened WasmStructure
  import opened WasmLexer
  import opened WasmDecode
  import opened WasmDecodeFacts
  import opened WasmModules
  import opened WasmStatic
  import opened WasmExec
  import opened WasmSoundness
  import opened WasmPlainSoundness
  import opened WasmMachine
  import opened WasmLabels
  import opened WasmTypeSoundness
  import opened WasmLowering
  import opened WasmSimulation
  import opened WasmUnflatten
  import V = WasmValidation
  import S = WasmStructured
  import E = WasmEquivalence

  /** A module whose bodies went through both walks of the loader. */
  predicate Loaded(m: Module, slots: seq<Slot>) {
    && |m.funcs| == |slots| && AllFaithful(slots, m.targets) && AllChecked(m, slots)
    && (forall k :: 0 <= k < |slots| ==> m.funcs[k] == FuncOf(slots[k]))
    && (forall i :: 0 <= i < |m.imports| ==> m.imports[i] < |m.types|)
  }

  // ---- the targets of a br_table ----

  /** The slice of the module-wide array that a br_table reads holds exactly the targets
      encoded in its bytes. */
  lemma {:induction false} TargetsAreEncoded(m: Module, slot: Slot, tokens: seq<Token>, p: nat)
    requires Faithful(slot, m.targets) && p < |OpsOf(slot.code)| && OpsOf(slot.code)[p].BrTable?
    requires var b := Lower(slot.code).value; |tokens| == |b.ops| && Carries(tokens, b.ops, b.targets)
    ensures var i := OpsOf(slot.code)[p];
      tokens[p].TTable? && m.Targets(FuncOf(slot), i.first, i.count) == Some(tokens[p].targets)
  {
    var b := Lower(slot.code).value;
    TableSlice(m, FuncOf(slot), tokens, b.ops, b.targets, p);
  }

  lemma {:induction false} TableSlice(m: Module, fn: Func, tokens: seq<Token>, ops: seq<Instr>, own: seq<nat>, p: nat)
    requires fn.branchBase + |own| <= |m.targets| && m.targets[fn.branchBase..fn.branchBase + |own|] == own
    requires |tokens| == |ops| && Carries(tokens, ops, own) && p < |ops| && ops[p].BrTable?
    ensures tokens[p].TTable? && m.Targets(fn, ops[p].first, ops[p].count) == Some(tokens[p].targets)
  {
    assert Carried(tokens[p], ops[p], own);
    Sliced(m.targets, fn.branchBase, own, ops[p].first, ops[p].count);
  }

  lemma {:induction false} Sliced(all: seq<nat>, base: nat, own: seq<nat>, first: nat, count: nat)
    requires base + |own| <= |all| && all[base..base + |own|] == own && first + count <= |own|
    ensures all[base + first..base + first + count] == own[first..first + count]
  {
    SliceOfSlice(all, base, base + |own|, first, first + count);
  }

  lemma {:induction false} SlotTargetsHeld(m: Module, slot: Slot)
    requires Faithful(slot, m.targets)
    ensures WellFormed(OpsOf(slot.code)) && TargetsHeld(m, FuncOf(slot))
  {
    var tokens := LowerOk(slot.code);
    forall p | 0 <= p < |OpsOf(slot.code)| && OpsOf(slot.code)[p].BrTable?
      ensures m.Targets(FuncOf(slot), OpsOf(slot.code)[p].first, OpsOf(slot.code)[p].count).Some?
    {
      TargetsAreEncoded(m, slot, tokens, p);
    }
  }

  // ---- derivations and structured bodies for all functions ----

  /** `ss` are the checker's states over the k-th body. */
  predicate DerivedBy(m: Module, k: nat, ss: seq<V.VState>)
    requires k < |m.funcs|
  {
    && m.funcs[k].typeIdx < |m.types|
    && Checked(m, m.types[m.funcs[k].typeIdx], m.funcs[k], ss).Ok()
    && forall pc :: 0 <= pc <= |m.funcs[k].code| ==>
         V.StateAt(m, m.types[m.funcs[k].typeIdx], m.funcs[k], pc) == Some(ss[pc])
  }

  predicate Derived(m: Module, tr: seq<seq<V.VState>>) {
    |tr| <= |m.funcs| && forall k :: 0 <= k < |tr| ==> DerivedBy(m, k, tr[k])
  }

  predicate Structures(m: Module, asts: seq<S.Code>) {
    |asts| <= |m.funcs| && forall k :: 0 <= k < |asts| ==> S.FlatBody(m, m.funcs[k], asts[k])
  }

  lemma {:induction false} DeriveOne(m: Module, slots: seq<Slot>, k: nat) returns (ss: seq<V.VState>, c: S.Code)
    requires Loaded(m, slots) && k < |slots|
    ensures DerivedBy(m, k, ss) && S.FlatBody(m, m.funcs[k], c)
  {
    var slot := slots[k];
    assert Faithful(slot, m.targets) && CheckedIn(m, slot) && m.funcs[k] == FuncOf(slot);
    SlotTargetsHeld(m, slot);
    ss := Derive(m, m.types[slot.typeIdx], m.funcs[k]);
    c := Structured(m, m.funcs[k]);
  }

  /** The k-th body has a derivation and a structured reading. */
  ghost predicate Readable(m: Module, k: nat)
    requires k < |m.funcs|
  {
    (exists ss :: DerivedBy(m, k, ss)) && exists c :: S.FlatBody(m, m.funcs[k], c)
  }

  lemma {:induction false} DeriveEach(m: Module, slots: seq<Slot>)
    requires Loaded(m, slots)
    ensures forall k :: 0 <= k < |m.funcs| ==> Readable(m, k)
  {
    forall k | 0 <= k < |m.funcs| ensures Readable(m, k) {
      var ss, c := DeriveOne(m, slots, k);
    }
  }

  lemma {:induction false} DeriveAll(m: Module, n: nat) returns (tr: seq<seq<V.VState>>, asts: seq<S.Code>)
    requires n <= |m.funcs| && forall k :: 0 <= k < |m.funcs| ==> Readable(m, k)
    ensures |tr| == n && |asts| == n && Derived(m, tr) && Structures(m, asts)
  {
    if n == 0 {
      return [], [];
    }
    tr, asts := DeriveAll(m, n - 1);
    assert Readable(m, n - 1);
    var ss :| DerivedBy(m, n - 1, ss);
    var c :| S.FlatBody(m, m.funcs[n - 1], c);
    DerivedMore(m, tr, ss);
    StructuresMore(m, asts, c);
    tr, asts := tr + [ss], asts + [c];
  }

  lemma {:induction false} DerivedMore(m: Module, tr: seq<seq<V.VState>>, ss: seq<V.VState>)
    requires Derived(m, tr) && |tr| < |m.funcs| && DerivedBy(m, |tr|, ss)
    ensures Derived(m, tr + [ss])
  {
  }

  lemma {:induction false} StructuresMore(m: Module, asts: seq<S.Code>, c: S.Code)
    requires Structures(m, asts) && |asts| < |m.funcs| && S.FlatBody(m, m.funcs[|asts|], c)
    ensures Structures(m, asts + [c])
  {
  }

  /** A loaded module meets everything type soundness and equivalence ask of it. */
  lemma {:induction false} LoadedOk(m: Module, slots: seq<Slot>) returns (tr: seq<seq<V.VState>>, asts: seq<S.Code>)
    requires Loaded(m, slots)
    ensures ModuleOk(m, tr) && Derived(m, tr) && Lowered(m, asts)
  {
    DeriveEach(m, slots);
    tr, asts := DeriveAll(m, |m.funcs|);
    forall k | 0 <= k < |m.funcs| ensures m.funcs[k].typeIdx < |m.types| && CheckedAt(m, tr, k).Ok() {
      assert DerivedBy(m, k, tr[k]);
    }
  }

  // ---- runs ----

  /** The activation's locals, operands and labels are what the checker computed at its
      pc. At a construct's `end`, which is reached from several places, the operands are
      those the checker has after it. */
  predicate Described(m: Module, act: Act) {
    match (m.Body(act.func), m.TypeOf(act.func))
    case (Some(fn), Some(ft)) =>
      && act.pc <= |fn.code|
      && AllTyped(act.locals, ft.params + fn.locals)
      && (act.pc < |fn.code| ==>
            && V.StateAt(m, ft, fn, act.pc).Some? && V.StateAt(m, ft, fn, act.pc + 1).Some?
            && var s := V.StateAt(m, ft, fn, act.pc).value;
            && LabelsOk(fn, OpenStack(fn.code, act.pc), s, act.labels)
            && Matches(act.operands,
                 if fn.code[act.pc].End? && act.labels != [] then V.StateAt(m, ft, fn, act.pc + 1).value.stack
                 else s.stack))
    case _ => false
  }

  lemma {:induction false} OkIsDescribed(m: Module, tr: seq<seq<V.VState>>, act: Act)
    requires ModuleOk(m, tr) && Derived(m, tr) && Defined(m, act.func)
    requires ActOk(CheckedFunc(m, tr, act.func), act)
    ensures Described(m, act)
  {
    var c := CheckedFunc(m, tr, act.func);
    var k := act.func - |m.imports|;
    assert DerivedBy(m, k, tr[k]);
    if act.pc < |c.fn.code| {
      assert V.StateAt(m, c.ft, c.fn, act.pc) == Some(c.ss[act.pc]);
      assert V.StateAt(m, c.ft, c.fn, act.pc + 1) == Some(c.ss[act.pc + 1]);
    }
  }

  /** Whatever its callee returns, the checker describes the waiting activation with it. */
  ghost predicate Awaits(m: Module, a: Act, callee: Act) {
    match m.TypeOf(callee.func)
    case Some(ft) => forall rs :: AllTyped(rs, ft.results) ==> Described(m, a.(operands := a.operands + rs))
    case None => false
  }

  lemma {:induction false} WaitingAwaits(m: Module, tr: seq<seq<V.VState>>, acts: seq<Act>, k: nat)
    requires ModuleOk(m, tr) && Derived(m, tr) && k + 1 < |acts| && Waiting(m, tr, acts, k)
    ensures Awaits(m, acts[k], acts[k + 1])
  {
    var c := CheckedFunc(m, tr, acts[k].func);
    forall rs | AllTyped(rs, CheckedFunc(m, tr, acts[k + 1].func).ft.results)
      ensures Described(m, acts[k].(operands := acts[k].operands + rs))
    {
      OkIsDescribed(m, tr, acts[k].(operands := acts[k].operands + rs));
    }
  }

  /** No ill-typed step; results of the declared types; every activation described by the
      checker, the waiting ones with their callees' results; the stacks within their
      preallocated sizes. */
  ghost predicate Safe(m: Module, lim: Limits, results: seq<ValType>, r: Outcome) {
    match r
    case StuckState => false
    case Completed(rs, s) => AllTyped(rs, results) && StoreOk(m, s)
    case Running(mach) =>
      && mach.acts != [] && Described(m, mach.acts[|mach.acts| - 1])
      && (forall k {:trigger mach.acts[k]} :: 0 <= k && k + 1 < |mach.acts| ==> Awaits(m, mach.acts[k], mach.acts[k + 1]))
      && Values(mach.acts) <= lim.maxValues && |mach.acts| <= lim.maxFrames && Labels(mach.acts) <= lim.maxLabels
      && StoreOk(m, mach.store)
    case _ => true
  }

  lemma {:induction false} SoundIsSafe(env: Env, tr: seq<seq<V.VState>>, lim: Limits, results: seq<ValType>, r: Outcome)
    requires EnvOk(env, tr) && OutcomeOk(env, tr, lim, results, r)
    requires Derived(env.m, tr) && (r.Running? ==> Labels(r.next.acts) <= lim.maxLabels)
    ensures Safe(env.m, lim, results, r)
  {
    if r.Running? {
      var top := r.next.acts[|r.next.acts| - 1];
      OkIsDescribed(env.m, tr, top);
      forall k | 0 <= k && k + 1 < |r.next.acts| ensures Awaits(env.m, r.next.acts[k], r.next.acts[k + 1]) {
        WaitingAwaits(env.m, tr, r.next.acts, k);
      }
      ReservedIsEnough(env, tr, lim, r.next);
    }
  }

  /** Every call of a function of a loaded module, after any number of steps. */
  lemma {:induction false} CallIsSafe(env: Env, slots: seq<Slot>, lim: Limits, cap: nat, f: nat, args: seq<nat>, store: Store, n: nat)
    requires Loaded(env.m, slots) && AllocOk(env) && HostOk(env) && StoreOk(env.m, store)
    requires Defined(env.m, f) && env.m.TypeOf(f).Some? && AllTyped(args, env.m.TypeOf(f).value.params)
    requires EnterFrame(env, lim, [], store, f, args).Running?
    ensures Safe(env.m, lim, env.m.TypeOf(f).value.results,
                 Run(env, lim, cap, EnterFrame(env, lim, [], store, f, args).next, n))
  {
    var tr, asts := LoadedOk(env.m, slots);
    var start := EnterFrame(env, lim, [], store, f, args).next;
    EnterSound(env, tr, lim, [], store, f, args, []);
    RunIsSound(env, tr, lim, cap, start, n);
    LabelsPush([], start.acts[0]);
    WithinLimits(env, tr, lim, cap, start, n);
    SoundIsSafe(env, tr, lim, env.m.TypeOf(f).value.results, Run(env, lim, cap, start, n));
  }

  /** Every call of an exported function that stops, other than for want of stack or
      memory, reports what the structured reading of its bodies says. */
  lemma {:induction false} CallIsMeaning(env: Env, slots: seq<Slot>, lim: Limits, cap: nat, f: nat, args: seq<nat>, store: Store, n: nat)
      returns (asts: seq<S.Code>)
    requires Loaded(env.m, slots) && Defined(env.m, f) && EnterFrame(env, lim, [], store, f, args).Running?
    requires !E.Alive(Stepper(env, lim, cap), EnterFrame(env, lim, [], store, f, args).next, n)
    ensures Lowered(env.m, asts)
    ensures var r := S.EvalFunc(env, asts, f, args, store, n + 1);
      && ProperStop(r) && r != S.Stopped(S.OutOfFuel)
      && Run(env, lim, cap, EnterFrame(env, lim, [], store, f, args).next, n) == E.Report(cap, r)
  {
    var tr;
    tr, asts := LoadedOk(env.m, slots);
    var c := CheckedFunc(env.m, tr, f);
    assert [] + [Act(f, 0, args + Zeros(|c.fn.locals|), [], [])] == [Act(f, 0, args + Zeros(|c.fn.locals|), [], [])];
    E.RunIsMeaning(env, lim, cap, asts, f, c.fn, c.ft, args, store, n);
  }
}
