/** Calls into a loaded module on the runtime's own stacks. */
module WasmCalls {
  import opened Options
  import opened WasmSyntax
  import opened WasmExec
  import opened WasmMachine
  import opened WasmModules
  import opened WasmPlainSoundness
  import opened WasmTypeSoundness
  import opened WasmGuarantees
  import opened WasmRuntime
  import LM = LinearMemory

  /** What a call is answered with after n iterations: an error when arguments or buffer do not
      suit, a note when the arguments do not fit the value stack, a trap when the function does
      not fit; otherwise the report of the machine's run, which is safe. */
  ghost predicate Answers(env: Env, lim: Limits, store: Store, f: nat, args: seq<nat>, capacity: nat, n: nat, st: Status) {
    if !Suits(env.m, f, args, capacity) then st == Error
    else if |args| > lim.maxValues then st == OutsideStack
    else
      var r := EnterFrame(env, lim, [], store, f, args);
      if !r.Running? then st == if r == Failed(StackOverflow) then TrappedByOverflow else Error
      else
        var out := Run(env, lim, capacity, r.next, n);
        st == Report(out) && Safe(env.m, lim, env.m.TypeOf(f).value.results, out)
  }

  /** A call into a loaded module, interrupted after n iterations: no access leaves the
      preallocated stacks, the status and the stacks are those of the machine of activations,
      and the call is safe. */
  method CallLoaded(rt: Runtime, ghost slots: seq<Slot>, f: nat, args: seq<nat>, capacity: nat, n: nat) returns (st: Status)
    requires WasmGuarantees.Loaded(rt.env.m, slots) && AllocOk(rt.env) && HostOk(rt.env) && StoreOk(rt.env.m, rt.store)
    requires rt.Counted()
    requires rt.Callable(f, args, capacity) ==> AllTyped(args, rt.env.m.TypeOf(f).value.params)
    modifies rt, rt.values, rt.frames, rt.labels
    ensures Answers(rt.env, rt.lim, old(rt.store), f, args, capacity, n, st)
    ensures st == Continue ==>
      var r := EnterFrame(rt.env, rt.lim, [], old(rt.store), f, args);
      r.Running? && rt.Reached(Run(rt.env, rt.lim, capacity, r.next, n), st)
  {
    ghost var store := rt.store;
    st := rt.Invoke(f, args, capacity);
    if st == Continue {
      forall k | 0 <= k <= n ensures Good(rt.lim, Run(rt.env, rt.lim, capacity, rt.View(), k)) {
        CallIsSafe(rt.env, slots, rt.lim, capacity, f, args, store, k);
      }
      CallIsSafe(rt.env, slots, rt.lim, capacity, f, args, store, n);
      st := rt.RunFor(n, capacity);
    }
  }

  /** Two arguments for a value stack of one: the second is written past its end. */
  method TwoIntoOne() returns (st: Status)
    ensures st == OutsideStack
  {
    var m := Module([FuncType([I32, I32], [])], [], [Func(0, [], [End], 0, 0)], [], false, false, []);
    var env := Env(m, [], (_, _) => false, _ => true, (_, _, _) => HostError, (_, _) => None);
    var rt := new Runtime(env, Limits(1, 1, 1), WasmExec.Store.Store([], LM.Memory([], 0, 0, None), 0));
    st := rt.Invoke(0, [0, 0], 0);
  }
}
