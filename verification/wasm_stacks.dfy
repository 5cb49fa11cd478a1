/** How a stack of activations is laid out on the runtime's three flat stacks. */
module WasmStacks {
  import opened Options
  import opened Words
  import opened WasmSyntax
  import opened WasmExec
  import opened WasmMachine

  /** An activation's pc and where its locals, operands and labels begin. */
  datatype Frame = Frame(func: nat, pc: nat, localsBase: nat, valuesBase: nat, labelsBase: nat)

  /** A label whose height is an index into the value stack. */
  datatype Mark = Mark(kind: BlockKind, startPc: nat, endPc: nat, height: nat, arity: nat)

  /** The live parts of the three stacks. */
  datatype Stacks = Stacks(values: seq<nat>, frames: seq<Frame>, labels: seq<Mark>)

  function ToMark(l: Label, base: nat): Mark {
    Mark(l.kind, l.startPc, l.endPc, base + l.height, l.arity)
  }

  function Marks(ls: seq<Label>, base: nat): (r: seq<Mark>)
    ensures |r| == |ls| && forall i :: 0 <= i < |ls| ==> r[i] == ToMark(ls[i], base)
  {
    seq(|ls|, i requires 0 <= i < |ls| => ToMark(ls[i], base))
  }

  function FrameOf(b: Stacks, a: Act): Frame {
    Frame(a.func, a.pc, |b.values|, |b.values| + |a.locals|, |b.labels|)
  }

  /** An activation's parts lie directly above what is below it. */
  function FlatTop(b: Stacks, a: Act): Stacks {
    Stacks(b.values + a.locals + a.operands, b.frames + [FrameOf(b, a)],
           b.labels + Marks(a.labels, |b.values| + |a.locals|))
  }

  function Flat(acts: seq<Act>): (r: Stacks)
    ensures |r.frames| == |acts|
  {
    if acts == [] then Stacks([], [], []) else FlatTop(Flat(acts[..|acts| - 1]), acts[|acts| - 1])
  }

  lemma {:induction false} FlatMore(acts: seq<Act>, a: Act)
    ensures Flat(acts + [a]) == FlatTop(Flat(acts), a)
  {
    assert (acts + [a])[..|acts|] == acts;
  }

  /** Nothing is wasted: the activations fill the value and label stacks. */
  lemma {:induction false} FlatFills(acts: seq<Act>)
    ensures Values(acts) == |Flat(acts).values| && Labels(acts) == |Flat(acts).labels|
  {
    if acts != [] { FlatFills(acts[..|acts| - 1]); }
  }

  lemma {:induction false} TopOf(outer: seq<Act>, top: Act, a: Act)
    ensures var acts := outer + [top];
      && acts[|acts| - 1] == top && acts[..|acts| - 1] == outer && acts[|acts| - 1 := a] == outer + [a]
  {
  }

  // ---- the shapes of change ----

  lemma {:induction false} Popped(b: Stacks, a: Act, k: nat)
    requires k <= |a.operands|
    ensures var v := FlatTop(b, a).values; var n := |a.operands| - k;
      v[..|v| - k] == FlatTop(b, a.(operands := a.operands[..n])).values && v[|v| - k..] == a.operands[n..]
  {
  }

  lemma {:induction false} LocalWritten(b: Stacks, a: Act, i: nat, v: nat)
    requires i < |a.locals|
    ensures FlatTop(b, a).values[|b.values| + i := v] == FlatTop(b, a.(locals := a.locals[i := v])).values
  {
  }

  lemma {:induction false} LabelOpened(b: Stacks, a: Act, l: Label)
    ensures FlatTop(b, a).labels + [ToMark(l, |b.values| + |a.locals|)] == FlatTop(b, a.(labels := a.labels + [l])).labels
  {
  }

  lemma {:induction false} LabelsCut(b: Stacks, a: Act, keep: nat)
    requires keep <= |a.labels|
    ensures FlatTop(b, a).labels[..|b.labels| + keep] == FlatTop(b, a.(labels := a.labels[..keep])).labels
  {
  }

  lemma {:induction false} LabelAt(b: Stacks, a: Act, i: nat)
    requires i < |a.labels|
    ensures FlatTop(b, a).labels[|b.labels| + i] == ToMark(a.labels[i], |b.values| + |a.locals|)
  {
  }

  /** Operands between a label's height and the kept results are dropped. */
  lemma {:induction false} Unwound(b: Stacks, a: Act, low: seq<nat>, mid: seq<nat>, high: seq<nat>)
    requires a.operands == low + mid + high
    ensures FlatTop(b, a).values == b.values + a.locals + low + mid + high
    ensures FlatTop(b, a.(operands := low + high)) == FlatTop(b, a).(values := b.values + a.locals + low + high)
  {
    assert b.values + a.locals + (low + high) == b.values + a.locals + low + high;
  }

  lemma {:induction false} Returning(b: Stacks, a: Act, rest: seq<nat>, results: seq<nat>)
    requires a.operands == rest + results
    ensures FlatTop(b, a).values == b.values + (a.locals + rest) + results
  {
  }

  /** How many operands a branch to the label carries. */
  function Kept(l: Label): nat { if l.kind == LoopK then 0 else l.arity }

  /** Where a branch to the i-th label leads. */
  function Landed(a: Act, i: nat): Act
    requires i < |a.labels| && a.labels[i].height + Kept(a.labels[i]) <= |a.operands|
  {
    var l := a.labels[i];
    a.(pc := if l.kind == LoopK then l.startPc else l.endPc + 1,
       operands := a.operands[..l.height] + a.operands[|a.operands| - Kept(l)..],
       labels := a.labels[..if l.kind == LoopK then i + 1 else i])
  }

  lemma {:induction false} BranchForm(a: Act, depth: nat, codeLen: nat)
    requires BranchTo(a, depth, codeLen).Some?
    ensures depth <= |a.labels|
    ensures depth == |a.labels| ==> BranchTo(a, depth, codeLen).value == a.(pc := codeLen, labels := [])
    ensures depth < |a.labels| ==>
      var i := |a.labels| - 1 - depth;
      && a.labels[i].height + Kept(a.labels[i]) <= |a.operands|
      && BranchTo(a, depth, codeLen).value == Landed(a, i)
  {
  }

  lemma {:induction false} Appended(b: Stacks, a: Act, vs: seq<nat>)
    ensures FlatTop(b, a.(operands := a.operands + vs)) == FlatTop(b, a).(values := FlatTop(b, a).values + vs)
  {
    assert b.values + a.locals + (a.operands + vs) == b.values + a.locals + a.operands + vs;
  }

  // ---- calls and returns ----

  /** Entering a function when `used` value slots are taken. */
  function Enter(env: Env, lim: Limits, used: nat, acts: seq<Act>, store: Store, f: nat, args: seq<nat>): Outcome {
    match env.m.Body(f)
    case None => StuckState
    case Some(fn) =>
      if !env.lowers(f) then Failed(LoweringFailed) else
      var valuesBase := used + |args| + |fn.locals|;
      if valuesBase > lim.maxValues || fn.maxStack > lim.maxValues - valuesBase || |acts| >= lim.maxFrames
      then Failed(StackOverflow)
      else Running(Machine(acts + [Act(f, 0, args + Zeros(|fn.locals|), [], [])], store))
  }

  function Used(outer: seq<Act>, a: Act): nat { |Flat(outer).values| + |a.locals| + |a.operands| }

  lemma {:induction false} UsedIsValues(outer: seq<Act>, a: Act)
    ensures Values(outer + [a]) == Used(outer, a)
  {
    FlatFills(outer + [a]);
    FlatMore(outer, a);
  }

  /** Calling f from activation `a`, whose arguments are popped. */
  function CallFrom(env: Env, lim: Limits, outer: seq<Act>, a: Act, store: Store, f: nat, args: seq<nat>): Outcome {
    if f >= |env.m.imports| then Enter(env, lim, Used(outer, a), outer + [a], store, f, args)
    else match env.host(f, args, store)
         case HostCompleted(rs, s1) => Running(Machine(outer + [a.(operands := a.operands + rs)], s1))
         case HostExited => Exited
         case HostTrapped => HostTrap
         case HostError => Failed(ImportFailed)
  }

  lemma {:induction false} CallForm(env: Env, lim: Limits, outer: seq<Act>, a: Act, store: Store, f: nat, args: seq<nat>)
    ensures CallFunction(env, lim, outer + [a], store, f, args) == CallFrom(env, lim, outer, a, store, f, args)
  {
    UsedIsValues(outer, a);
    var out := env.host(f, args, store);
    if out.HostCompleted? { TopOf(outer, a, a.(operands := a.operands + out.results)); }
  }

  /** The machine once the innermost activation has left its results to the one that waits. */
  function Leave(outer: seq<Act>, results: seq<nat>, store: Store, capacity: nat): Outcome {
    if outer != [] then
      var m := |outer| - 1;
      Running(Machine(outer[..m] + [outer[m].(operands := outer[m].operands + results)], store))
    else if capacity < |results| then Failed(ResultBufferSmall)
    else Completed(results, store)
  }

  lemma {:induction false} ReplacedLast(acts: seq<Act>, a: Act)
    requires acts != []
    ensures acts[|acts| - 1 := a] == acts[..|acts| - 1] + [a]
  {
  }

  lemma {:induction false} LeaveForm(outer: seq<Act>, top: Act, results: seq<nat>, store: Store, capacity: nat)
    ensures WasmMachine.Return(Machine(outer + [top], store), results, capacity) == Leave(outer, results, store, capacity)
  {
    TopOf(outer, top, top);
    if outer != [] {
      var m := |outer| - 1;
      ReplacedLast(outer, outer[m].(operands := outer[m].operands + results));
    }
  }

  /** The waiting activation's stacks once it has received results. */
  lemma {:induction false} Received(outer: seq<Act>, results: seq<nat>)
    requires outer != []
    ensures var m := |outer| - 1;
      FlatTop(Flat(outer[..m]), outer[m].(operands := outer[m].operands + results)) ==
      Flat(outer).(values := Flat(outer).values + results)
  {
    Appended(Flat(outer[..|outer| - 1]), outer[|outer| - 1], results);
  }

  lemma {:induction false} EnteredFlat(s: Stacks, f: nat, args: seq<nat>, locals: nat)
    ensures FlatTop(s, Act(f, 0, args + Zeros(locals), [], [])) ==
      Stacks(s.values + args + Zeros(locals),
             s.frames + [Frame(f, 0, |s.values|, |s.values| + |args| + locals, |s.labels|)], s.labels)
  {
    assert s.values + (args + Zeros(locals)) + [] == s.values + args + Zeros(locals);
    assert s.labels + Marks([], 0) == s.labels;
  }

  // ---- one step ----

  function RoomAbove(lim: Limits, outer: seq<Act>): nat {
    var below := |Flat(outer).labels|;
    if below <= lim.maxLabels then lim.maxLabels - below else 0
  }

  /** The machine's step, given what the innermost activation does. */
  function Onward(env: Env, lim: Limits, capacity: nat, outer: seq<Act>, store: Store, l: Local): Outcome {
    match l
    case Next(a, s) => Running(Machine(outer + [a], s))
    case Invoke(f, args, a, s) => CallFrom(env, lim, outer, a, s, f, args)
    case Finish(results) => Leave(outer, results, store, capacity)
    case Trapped(trap) => Trap(trap)
    case NoLabels => Failed(LabelOverflow)
    case Stuck => StuckState
  }

  lemma {:induction false} StepFlat(env: Env, lim: Limits, capacity: nat, outer: seq<Act>, top: Act, store: Store, fn: Func, ft: FuncType)
    requires env.m.Body(top.func) == Some(fn) && env.m.TypeOf(top.func) == Some(ft)
    ensures Step(env, lim, capacity, Machine(outer + [top], store)) ==
      Onward(env, lim, capacity, outer, store, StepLocal(env, fn, ft, RoomAbove(lim, outer), top, store))
  {
    var mach := Machine(outer + [top], store);
    FlatFills(outer);
    var l := StepLocal(env, fn, ft, RoomAbove(lim, outer), top, store);
    TopOf(outer, top, if l.Next? || l.Invoke? then l.act else top);
    match l
    case Invoke(f, args, a, s) => CallForm(env, lim, outer, a, s, f, args);
    case Finish(results) => LeaveForm(outer, top, results, store, capacity);
    case _ =>
  }
}
