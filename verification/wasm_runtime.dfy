/** The interpreter itself: three preallocated stacks changed in place. One iteration of its
    loop does what one step of the machine of activations does. */
module WasmRuntime {
  import opened Options
  import opened Words
  import opened WasmNumerics
  import opened WasmSyntax
  import opened WasmExec
  import opened WasmMachine
  import opened WasmStacks

  datatype Status =
    | Continue
    | Finished(results: seq<nat>)
    | TrappedBy(trap: TrapKind)
    | TrappedByHost
    | TrappedByOverflow
    /** The code has written past its value stack: what follows is not modelled. */
    | OutsideStack
    | ExitRequested
    | Error

  function Report(r: Outcome): Status {
    match r
    case Running(_) => Continue
    case Completed(results, _) => Finished(results)
    case Trap(trap) => TrappedBy(trap)
    case HostTrap => TrappedByHost
    case Exited => ExitRequested
    case Failed(_) => Error
    case StuckState => Error
  }

  /** The caller passes what the function takes and has room for what it returns. */
  predicate Suits(m: Module, f: nat, args: seq<nat>, capacity: nat) {
    && m.TypeOf(f).Some? && |args| == |m.TypeOf(f).value.params|
    && capacity >= |m.TypeOf(f).value.results|
  }

  class Runtime {
    const env: Env
    const lim: Limits
    const values: array<nat>
    const frames: array<Frame>
    const labels: array<Mark>
    var valueCount: nat
    var frameCount: nat
    var labelCount: nat
    var store: Store
    /** The activations that lie on the stacks: the innermost and those that wait for it. */
    ghost var outer: seq<Act>
    ghost var top: Act

    ghost predicate Counted()
      reads this
    {
      && values.Length == lim.maxValues && frames.Length == lim.maxFrames && labels.Length == lim.maxLabels
      && valueCount <= values.Length && frameCount <= frames.Length && labelCount <= labels.Length
    }

    ghost function Live(): Stacks
      requires Counted()
      reads this, values, frames, labels
    {
      Stacks(values[..valueCount], frames[..frameCount], labels[..labelCount])
    }

    ghost predicate Valid()
      reads this, values, frames, labels
    {
      Counted() && Live() == FlatTop(Flat(outer), top)
    }

    ghost function View(): Machine
      reads this
    {
      Machine(outer + [top], store)
    }

    /** Only the innermost activation changed. */
    twostate predicate Became(a: Act)
      reads this, values, frames, labels
    {
      Valid() && outer == old(outer) && top == a
    }

    constructor (env: Env, lim: Limits, store: Store)
      ensures Counted() && this.env == env && this.lim == lim && this.store == store
      ensures fresh(values) && fresh(frames) && fresh(labels)
    {
      this.env, this.lim, this.store := env, lim, store;
      values := new nat[lim.maxValues](_ => 0);
      frames := new Frame[lim.maxFrames](_ => Frame(0, 0, 0, 0, 0));
      labels := new Mark[lim.maxLabels](_ => Mark(BlockK, 0, 0, 0, 0));
      valueCount, frameCount, labelCount := 0, 0, 0;
      outer, top := [], Act(0, 0, [], [], []);
    }

    lemma {:induction false} Shape()
      requires Valid()
      ensures frameCount == |outer| + 1 && frames[frameCount - 1] == FrameOf(Flat(outer), top)
      ensures valueCount == |Flat(outer).values| + |top.locals| + |top.operands|
      ensures labelCount == |Flat(outer).labels| + |top.labels|
      ensures values[..valueCount] == FlatTop(Flat(outer), top).values
      ensures labels[..labelCount] == FlatTop(Flat(outer), top).labels
    {
      assert |values[..valueCount]| == valueCount && |labels[..labelCount]| == labelCount && |frames[..frameCount]| == frameCount;
      assert frames[..frameCount][frameCount - 1] == FrameOf(Flat(outer), top);
    }

    method PopValue() returns (ok: bool, v: nat)
      requires Valid() && top.operands != []
      modifies this`valueCount, this`top
      ensures Valid()
      ensures var a := old(top); var n := |a.operands| - 1;
        ok && v == a.operands[n] && Became(a.(operands := a.operands[..n]))
    {
      Shape();
      ghost var a := top;
      ghost var a1 := a.(operands := a.operands[..|a.operands| - 1]);
      Popped(Flat(outer), a, 1);
      ok, v := valueCount > 0, 0;
      if ok {
        valueCount := valueCount - 1;
        v := values[valueCount];
      }
      top := a1;
    }

    method PushValue(v: nat) returns (ok: bool)
      requires Valid() && valueCount < lim.maxValues
      modifies this`valueCount, this`top, values
      ensures ok && Became(old(top).(operands := old(top).operands + [v]))
    {
      Shape();
      ghost var a1 := top.(operands := top.operands + [v]);
      ok := valueCount < values.Length;
      if ok {
        values[valueCount] := v;
        valueCount := valueCount + 1;
      }
      top := a1;
    }

    method SetPc(pc: nat)
      requires Valid()
      modifies this`top, frames
      ensures Became(old(top).(pc := pc))
    {
      Shape();
      ghost var a1 := top.(pc := pc);
      frames[frameCount - 1] := frames[frameCount - 1].(pc := pc);
      top := a1;
    }

    method PushLabel(kind: BlockKind, endPc: nat, arity: nat) returns (ok: bool)
      requires Valid()
      modifies this`labelCount, this`top, labels
      ensures Valid() && ok == (old(labelCount) < lim.maxLabels)
      ensures ok ==> var a := old(top);
        Became(a.(labels := a.labels + [Label(kind, a.pc, endPc, |a.operands|, arity)]))
    {
      Shape();
      var f := frames[frameCount - 1];
      ghost var l := Label(kind, f.pc, endPc, |top.operands|, arity);
      ghost var a1 := top.(labels := top.labels + [l]);
      LabelOpened(Flat(outer), top, l);
      ok := labelCount < labels.Length;
      if ok {
        labels[labelCount] := Mark(kind, f.pc, endPc, valueCount, arity);
        labelCount := labelCount + 1;
        top := a1;
      }
    }

    method CutLabels(keep: nat)
      requires Valid() && keep <= |top.labels|
      modifies this`labelCount, this`top
      ensures Became(old(top).(labels := old(top).labels[..keep]))
    {
      Shape();
      ghost var a1 := top.(labels := top.labels[..keep]);
      LabelsCut(Flat(outer), top, keep);
      labelCount := frames[frameCount - 1].labelsBase + keep;
      top := a1;
    }

    // ---- branches ----

    /** Moves the topmost n values down to `dst`. */
    method CopyDown(dst: nat, n: nat, ghost low: seq<nat>, ghost mid: seq<nat>, ghost high: seq<nat>)
      requires Counted() && values[..valueCount] == low + mid + high && |low| == dst && |high| == n
      modifies values
      ensures values[..dst + n] == low + high
    {
      ghost var v := values[..valueCount];
      assert |v| == valueCount;
      var src := valueCount - n;
      for i := 0 to n
        invariant forall k :: 0 <= k < dst ==> values[k] == v[k]
        invariant forall k :: dst <= k < dst + i ==> values[k] == v[k - dst + src]
        invariant forall k :: src + i <= k < valueCount ==> values[k] == v[k]
      {
        values[dst + i] := values[src + i];
      }
      forall k | 0 <= k < dst + n ensures values[k] == (low + high)[k] {}
    }

    /** Leaves the operands below `height` and the topmost `keep`. */
    method Unwind(height: nat, keep: nat, ghost low: seq<nat>, ghost mid: seq<nat>, ghost high: seq<nat>)
      requires Valid() && top.operands == low + mid + high && keep == |high|
      requires height == frames[frameCount - 1].valuesBase + |low|
      modifies this`valueCount, this`top, values
      ensures Became(old(top).(operands := low + high))
    {
      Shape();
      ghost var below := Flat(outer).values + top.locals + low;
      Unwound(Flat(outer), top, low, mid, high);
      CopyDown(height, keep, below, mid, high);
      valueCount := height + keep;
      top := top.(operands := low + high);
    }

    /** Leaves the labels above the i-th, and the i-th too unless it is a loop. */
    method LeaveTo(i: nat, target: Mark, keep: nat)
      requires Valid() && i < |top.labels|
      requires target == ToMark(top.labels[i], frames[frameCount - 1].valuesBase) && keep == Kept(top.labels[i])
      requires top.labels[i].height + keep <= |top.operands|
      modifies this`valueCount, this`labelCount, this`top, values, frames
      ensures Became(Landed(old(top), i))
    {
      Shape();
      ghost var h, n := top.labels[i].height, |top.operands| - keep;
      ghost var low, mid, high := top.operands[..h], top.operands[h..n], top.operands[n..];
      assert top.operands == low + mid + high;
      Unwind(target.height, keep, low, mid, high);
      if target.kind == LoopK {
        SetPc(target.startPc);
        CutLabels(i + 1);
      } else {
        SetPc(target.endPc + 1);
        CutLabels(i);
      }
    }

    method BranchTo(depth: nat, codeLen: nat) returns (ok: bool)
      requires Valid() && WasmExec.BranchTo(top, depth, codeLen).Some?
      modifies this`valueCount, this`labelCount, this`top, values, frames
      ensures ok && Became(WasmExec.BranchTo(old(top), depth, codeLen).value)
    {
      Shape();
      BranchForm(top, depth, codeLen);
      var explicit := labelCount - frames[frameCount - 1].labelsBase;
      ok := false;
      if depth == explicit {
        SetPc(codeLen);
        CutLabels(0);
        ok := true;
      } else if depth < explicit {
        ok := BranchOut(explicit - 1 - depth);
      }
    }

    /** A branch to the i-th label. */
    method BranchOut(i: nat) returns (ok: bool)
      requires Valid() && i < |top.labels| && top.labels[i].height + Kept(top.labels[i]) <= |top.operands|
      modifies this`valueCount, this`labelCount, this`top, values, frames
      ensures ok && Became(Landed(old(top), i))
    {
      Shape();
      LabelAt(Flat(outer), top, i);
      var target := labels[frames[frameCount - 1].labelsBase + i];
      var keep := if target.kind == LoopK then 0 else target.arity;
      ok := valueCount >= target.height + keep;
      if ok {
        LeaveTo(i, target, keep);
      }
    }

    // ---- instructions that neither transfer control nor call ----

    /** The instruction is well typed here and its result has room. */
    ghost predicate PlainFits(p: Plain)
      reads this
    {
      var out := ExecPlain(env, p, top.locals, top.operands, store);
      !out.PlainStuck? && (out.Done? ==> valueCount - |top.operands| + |out.operands| <= lim.maxValues)
    }

    twostate predicate DidPlain(p: Plain, st: Status)
      reads this, values, frames, labels
    {
      var a := old(top);
      match ExecPlain(env, p, a.locals, a.operands, old(store))
      case Done(locals, operands, s1) =>
        st == Continue && Became(a.(locals := locals, operands := operands)) && store == s1
      case PlainTrap(trap) => st == TrappedBy(trap)
      case PlainStuck => false
    }

    method GetLocal(i: nat) returns (st: Status)
      requires Valid() && PlainFits(LocalGet(i))
      modifies this`valueCount, this`top, values
      ensures DidPlain(LocalGet(i), st)
    {
      Shape();
      var f := frames[frameCount - 1];
      assert values[..valueCount][f.localsBase + i] == top.locals[i];
      var ok := PushValue(values[f.localsBase + i]);
      st := if ok then Continue else Error;
    }

    method PutLocal(i: nat, v: nat)
      requires Valid() && i < |top.locals|
      modifies this`top, values
      ensures Became(old(top).(locals := old(top).locals[i := v]))
    {
      Shape();
      ghost var a1 := top.(locals := top.locals[i := v]);
      LocalWritten(Flat(outer), top, i, v);
      values[frames[frameCount - 1].localsBase + i] := v;
      top := a1;
    }

    method SetLocal(i: nat) returns (st: Status)
      requires Valid() && PlainFits(LocalSet(i))
      modifies this`valueCount, this`top, values
      ensures DidPlain(LocalSet(i), st)
    {
      var ok, v := PopValue();
      PutLocal(i, v);
      st := if ok then Continue else Error;
    }

    method TeeLocal(i: nat) returns (st: Status)
      requires Valid() && PlainFits(LocalTee(i))
      modifies this`top, values
      ensures DidPlain(LocalTee(i), st)
    {
      Shape();
      assert values[..valueCount][valueCount - 1] == top.operands[|top.operands| - 1];
      PutLocal(i, values[valueCount - 1]);
      st := Continue;
    }

    /** Pops k values at once. */
    method PopValues(k: nat) returns (ok: bool, args: seq<nat>)
      requires Valid() && k <= |top.operands|
      modifies this`valueCount, this`top
      ensures Valid() && valueCount == old(valueCount) - k
      ensures var a := old(top); var n := |a.operands| - k;
        ok && args == a.operands[n..] && Became(a.(operands := a.operands[..n]))
    {
      Shape();
      ghost var a := top;
      ghost var a1 := a.(operands := a.operands[..|a.operands| - k]);
      Popped(Flat(outer), a, k);
      ok, args := valueCount >= k, [];
      if ok {
        args := values[..valueCount][valueCount - k..];
        valueCount := valueCount - k;
      }
      top := a1;
    }

    /** Pushes what there is to push. */
    method Settle(out: PlainOut) returns (st: Status)
      requires Valid() && !out.PlainStuck?
      requires out.Done? ==> |out.operands| <= 1 && valueCount + |out.operands| <= lim.maxValues
      modifies this`valueCount, this`store, this`top, values
      ensures match out
        case Done(_, outs, s1) =>
          st == Continue && Became(old(top).(operands := old(top).operands + outs)) && store == s1
        case PlainTrap(trap) => st == TrappedBy(trap)
        case PlainStuck => false
    {
      st := Error;
      match out {
        case Done(_, outs, s1) =>
          var ok := true;
          if outs != [] {
            ok := PushValue(outs[0]);
            assert outs == [outs[0]];
          }
          store := s1;
          st := if ok then Continue else Error;
        case PlainTrap(trap) =>
          st := TrappedBy(trap);
        case PlainStuck =>
      }
    }

    /** Pops the operands and computes. */
    method Calculate(p: Plain) returns (st: Status)
      requires Valid() && !p.LocalGet? && !p.LocalSet? && !p.LocalTee? && PlainFits(p)
      modifies this`valueCount, this`store, this`top, values
      ensures DidPlain(p, st)
    {
      PlainForm(env, p, top.locals, top.operands, store);
      var ok, args := PopValues(Arity(p));
      st := Error;
      if ok {
        st := Settle(Compute(env, p, [], args, store));
      }
    }

    method DoPlain(p: Plain) returns (st: Status)
      requires Valid() && PlainFits(p)
      modifies this`valueCount, this`store, this`top, values
      ensures DidPlain(p, st)
    {
      match p {
        case LocalGet(i) => st := GetLocal(i);
        case LocalSet(i) => st := SetLocal(i);
        case LocalTee(i) => st := TeeLocal(i);
        case _ => st := Calculate(p);
      }
    }

    // ---- calls and returns ----

    /** The status tells the outcome, and a running machine is the one on the stacks. */
    ghost predicate Reached(r: Outcome, st: Status)
      reads this, values, frames, labels
    {
      st == Report(r) && (r.Running? ==> Valid() && View() == r.next)
    }

    method ZeroLocals(from: nat, n: nat)
      requires Counted() && from + n <= values.Length
      modifies values
      ensures values[..from + n] == old(values[..from]) + Zeros(n)
    {
      for i := 0 to n
        invariant values[..from + i] == old(values[..from]) + Zeros(i)
      {
        values[from + i] := 0;
      }
    }

    /** Lowers the body if need be, reserves locals and operand stack, pushes the frame. The
        arguments on top of the value stack become the first locals. */
    method EnterFrame(f: nat, ghost acts: seq<Act>, ghost args: seq<nat>) returns (failed: Option<Failure>)
      requires env.m.Body(f).Some? && env.m.TypeOf(f).Some? && |args| == |env.m.TypeOf(f).value.params|
      requires Counted() && Live() == Flat(acts).(values := Flat(acts).values + args)
      modifies this`valueCount, this`frameCount, this`outer, this`top, values, frames
      ensures var r := Enter(env, lim, |Flat(acts).values|, acts, store, f, args);
        if failed.Some? then r == Failed(failed.value) else Valid() && r == Running(View())
    {
      failed := None;
      var fn := env.m.Body(f).value;
      var k := |env.m.TypeOf(f).value.params|;
      assert |values[..valueCount]| == valueCount && |labels[..labelCount]| == labelCount && |frames[..frameCount]| == frameCount;
      if !env.lowers(f) { return Some(LoweringFailed); }
      var localsBase := valueCount - k;
      if k + |fn.locals| > values.Length - localsBase { return Some(StackOverflow); }
      var valuesBase := localsBase + k + |fn.locals|;
      if fn.maxStack > values.Length - valuesBase { return Some(StackOverflow); }
      ZeroLocals(valueCount, |fn.locals|);
      if frameCount >= frames.Length { return Some(StackOverflow); }
      EnteredFlat(Flat(acts), f, args, |fn.locals|);
      frames[frameCount] := Frame(f, 0, localsBase, valuesBase, labelCount);
      frameCount := frameCount + 1;
      valueCount := valuesBase;
      outer, top := acts, Act(f, 0, args + Zeros(|fn.locals|), [], []);
    }

    method WriteResults(results: seq<nat>)
      requires Counted() && valueCount + |results| <= values.Length
      modifies values
      ensures values[..valueCount + |results|] == old(values[..valueCount]) + results
    {
      for i := 0 to |results|
        invariant values[..valueCount + i] == old(values[..valueCount]) + results[..i]
      {
        values[valueCount + i] := results[i];
      }
    }

    method Receive(results: seq<nat>)
      requires Valid() && valueCount + |results| <= lim.maxValues
      modifies this`valueCount, this`top, values
      ensures Became(old(top).(operands := old(top).operands + results))
    {
      Shape();
      Appended(Flat(outer), top, results);
      WriteResults(results);
      valueCount := valueCount + |results|;
      top := top.(operands := top.operands + results);
    }

    /** The innermost activation waits with `a` on the stacks and `args` above it. */
    ghost predicate Passing(a: Act, args: seq<nat>)
      reads this
    {
      a == top.(operands := a.operands) && top.operands == a.operands + args
    }

    /** Pops the arguments and hands them to the host, which writes its results in their place. */
    method ExecuteImport(f: nat, k: nat, ghost a: Act, ghost args: seq<nat>) returns (st: Status)
      requires Valid() && f < |env.m.imports| && k == |args| && Passing(a, args) && Fitting(env, lim, outer, a, store, f, args)
      modifies this`valueCount, this`store, this`top, values
      ensures Reached(CallFrom(env, lim, old(outer), a, old(store), f, args), st)
    {
      Shape();
      st := Error;
      var ok, popped := PopValues(k);
      assert popped == args && top == a;
      if ok {
        match env.host(f, popped, store) {
          case HostCompleted(results, s1) =>
            Shape();
            Receive(results);
            store := s1;
            st := Continue;
          case HostExited =>
            st := ExitRequested;
          case HostTrapped =>
            st := TrappedByHost;
          case HostError =>
        }
      }
    }

    method CallFunction(f: nat, k: nat, ghost a: Act, ghost args: seq<nat>) returns (st: Status)
      requires env.m.TypeOf(f).Some? && k == |args| == |env.m.TypeOf(f).value.params|
      requires Valid() && Passing(a, args) && Fitting(env, lim, outer, a, store, f, args)
      modifies this`valueCount, this`frameCount, this`store, this`outer, this`top, values, frames
      ensures Reached(CallFrom(env, lim, old(outer), a, old(store), f, args), st)
    {
      if f < |env.m.imports| {
        st := ExecuteImport(f, k, a, args);
      } else {
        FlatMore(outer, a);
        Appended(Flat(outer), a, args);
        var failed := EnterFrame(f, outer + [a], args);
        st := if failed.None? then Continue else Error;
      }
    }

    /** Drops the frame and leaves its results where its locals began. */
    method DropFrame(n: nat, ghost rest: seq<nat>, ghost rs: seq<nat>) returns (results: seq<nat>)
      requires Valid() && n == |rs| && top.operands == rest + rs
      modifies this`valueCount, this`frameCount, this`labelCount, values
      ensures Counted() && frameCount == |outer| && results == rs
      ensures Live() == Flat(outer).(values := Flat(outer).values + rs)
    {
      Shape();
      ghost var below := Flat(outer).values;
      ghost var dropped := top.locals + rest;
      Returning(Flat(outer), top, rest, rs);
      frameCount := frameCount - 1;
      var f := frames[frameCount];
      CopyDown(f.localsBase, n, below, dropped, rs);
      valueCount := f.localsBase + n;
      labelCount := f.labelsBase;
      results := values[..valueCount][f.localsBase..];
    }

    method LeaveFunction(n: nat, capacity: nat, ghost rest: seq<nat>, ghost rs: seq<nat>) returns (st: Status)
      requires Valid() && n == |rs| && top.operands == rest + rs
      modifies this`valueCount, this`frameCount, this`labelCount, this`outer, this`top, values
      ensures Reached(Leave(old(outer), rs, store, capacity), st)
    {
      var results := DropFrame(n, rest, rs);
      if frameCount != 0 {
        ghost var m := |outer| - 1;
        Received(outer, rs);
        outer, top := outer[..m], outer[m].(operands := outer[m].operands + rs);
        return Continue;
      }
      return if capacity < n then Error else Finished(results);
    }

    // ---- control ----

    /** What executing an instruction that ends in `l` leaves behind. */
    twostate predicate Did(l: Local, capacity: nat, st: Status)
      reads this, values, frames, labels
    {
      Reached(Onward(env, lim, capacity, old(outer), old(store), l), st)
    }

    /** How many labels the innermost activation may hold. */
    ghost function Room(): nat
      reads this
    {
      RoomAbove(lim, outer)
    }

    method DoOpen(i: Instr, taken: bool, ghost capacity: nat) returns (st: Status)
      requires Valid() && i.Open?
      modifies this`labelCount, this`top, frames, labels
      ensures Did(OpenLabel(old(top), i, old(Room()), taken, store), capacity, st)
    {
      Shape();
      var ok := PushLabel(i.kind, i.endPc, |BlockResults(i.bt)|);
      if ok && !taken {
        SetPc(if i.elsePc.Some? then i.elsePc.value + 1 else i.endPc);
      }
      st := if ok then Continue else Error;
    }

    method DoIf(i: Instr, ghost capacity: nat) returns (st: Status)
      requires Valid() && i.Open? && top.operands != []
      modifies this`valueCount, this`labelCount, this`top, frames, labels
      ensures var n := |old(top).operands| - 1;
        Did(OpenLabel(old(top).(operands := old(top).operands[..n]), i, old(Room()), Low32(old(top).operands[n]) != 0, store), capacity, st)
    {
      st := Error;
      var ok, v := PopValue();
      if ok {
        st := DoOpen(i, Low32(v) != 0, capacity);
      }
    }

    method DoElse(ghost capacity: nat) returns (st: Status)
      requires Valid() && top.labels != []
      modifies this`top, frames
      ensures Did(Next(old(top).(pc := old(top).labels[|old(top).labels| - 1].endPc), store), capacity, st)
    {
      Shape();
      LabelAt(Flat(outer), top, |top.labels| - 1);
      st := Error;
      if labelCount > frames[frameCount - 1].labelsBase {
        SetPc(labels[labelCount - 1].endPc);
        st := Continue;
      }
    }

    method ReturnFrom(ft: FuncType, capacity: nat) returns (st: Status)
      requires Valid() && |ft.results| <= |top.operands|
      modifies this`valueCount, this`frameCount, this`labelCount, this`outer, this`top, values
      ensures Did(FinishWith(ft, old(top)), capacity, st)
    {
      ghost var k := |top.operands| - |ft.results|;
      st := LeaveFunction(|ft.results|, capacity, top.operands[..k], top.operands[k..]);
    }

    method DoEnd(ft: FuncType, capacity: nat) returns (st: Status)
      requires Valid() && (top.labels == [] ==> |ft.results| <= |top.operands|)
      modifies this`valueCount, this`frameCount, this`labelCount, this`outer, this`top, values
      ensures Did(if old(top).labels == [] then FinishWith(ft, old(top))
                  else Next(old(top).(labels := old(top).labels[..|old(top).labels| - 1]), store), capacity, st)
    {
      Shape();
      if labelCount > frames[frameCount - 1].labelsBase {
        CutLabels(labelCount - 1 - frames[frameCount - 1].labelsBase);
        st := Continue;
      } else {
        st := ReturnFrom(ft, capacity);
      }
    }

    method DoBranch(depth: nat, codeLen: nat, ghost capacity: nat) returns (st: Status)
      requires Valid() && Branch(top, depth, codeLen, store) != Stuck
      modifies this`valueCount, this`labelCount, this`top, values, frames
      ensures Did(Branch(old(top), depth, codeLen, store), capacity, st)
    {
      var ok := BranchTo(depth, codeLen);
      st := if ok then Continue else Error;
    }

    /** A failed pop falls through, but on a value stack that is never empty here. */
    method DoBranchIf(depth: nat, codeLen: nat, ghost capacity: nat) returns (st: Status)
      requires Valid() && top.operands != []
      requires var n := |top.operands| - 1;
        Low32(top.operands[n]) != 0 ==> Branch(top.(operands := top.operands[..n]), depth, codeLen, store) != Stuck
      modifies this`valueCount, this`labelCount, this`top, values, frames
      ensures var n := |old(top).operands| - 1;
        var a := old(top).(operands := old(top).operands[..n]);
        Did(if Low32(old(top).operands[n]) == 0 then Next(a, store) else Branch(a, depth, codeLen, store), capacity, st)
    {
      st := Continue;
      var ok, v := PopValue();
      if ok && Low32(v) != 0 {
        st := DoBranch(depth, codeLen, capacity);
      }
    }

    method DoTable(targets: seq<nat>, codeLen: nat, ghost capacity: nat) returns (st: Status)
      requires Valid() && targets != [] && top.operands != []
      requires Branch(Beneath(top), Selected(targets, top.operands[|top.operands| - 1]), codeLen, store) != Stuck
      modifies this`valueCount, this`labelCount, this`top, values, frames
      ensures var a := old(top);
        Did(Branch(Beneath(a), Selected(targets, a.operands[|a.operands| - 1]), codeLen, store), capacity, st)
    {
      st := Error;
      var ok, v := PopValue();
      if ok {
        st := DoBranch(Selected(targets, v), codeLen, capacity);
      }
    }

    method DoCall(f: nat, ghost capacity: nat) returns (st: Status)
      requires Valid() && env.m.TypeOf(f).Some?
      requires Fits(env, lim, outer, PopArgs(top, f, |env.m.TypeOf(f).value.params|, store))
      modifies this`valueCount, this`frameCount, this`store, this`outer, this`top, values, frames
      ensures Did(PopArgs(old(top), f, |env.m.TypeOf(f).value.params|, old(store)), capacity, st)
    {
      var k := |env.m.TypeOf(f).value.params|;
      ghost var n := |top.operands| - k;
      st := CallFunction(f, k, top.(operands := top.operands[..n]), top.operands[n..]);
    }

    method DoIndirect(ti: nat, table: nat, ghost capacity: nat) returns (st: Status)
      requires Valid() && top.operands != []
      requires Fits(env, lim, outer, IndirectCall(env, ti, table, top, store))
      modifies this`valueCount, this`frameCount, this`store, this`outer, this`top, values, frames
      ensures Did(IndirectCall(env, ti, table, old(top), old(store)), capacity, st)
    {
      st := Error;
      var ok, v := PopValue();
      if ok {
        var f := if table != 0 then None else Indirect(env, ti, Low32(v));
        if f.None? {
          st := TrappedBy(TrapIndirectCall);
        } else {
          st := DoCall(f.value, capacity);
        }
      }
    }

    method DoOperation(p: Plain, ghost capacity: nat) returns (st: Status)
      requires Valid() && Fits(env, lim, outer, Operation(top, ExecPlain(env, p, top.locals, top.operands, store)))
      modifies this`valueCount, this`store, this`top, values
      ensures Did(Operation(old(top), ExecPlain(env, p, old(top).locals, old(top).operands, old(store))), capacity, st)
    {
      Shape();
      LocalsKept(env, p, top.locals, top.operands, store);
      st := DoPlain(p);
    }

    /** One arm of the switch. */
    method Exec(i: Instr, fn: Func, ft: FuncType, capacity: nat) returns (st: Status)
      requires Valid() && Fits(env, lim, outer, Execute(env, fn, ft, Room(), i, top, store))
      modifies this, values, frames, labels
      ensures Did(Execute(env, fn, ft, old(Room()), i, old(top), old(store)), capacity, st)
    {
      match i {
        case Unreachable => st := TrappedBy(TrapUnreachable);
        case Open(kind, _, _, _) =>
          if kind == IfK {
            st := DoIf(i, capacity);
          } else {
            st := DoOpen(i, true, capacity);
          }
        case Else => st := DoElse(capacity);
        case End => st := DoEnd(ft, capacity);
        case Return => st := ReturnFrom(ft, capacity);
        case Do(p) => st := DoOperation(p, capacity);
        case _ => st := ExecTransfer(i, fn, ft, capacity);
      }
    }

    /** Branches and calls. */
    method ExecTransfer(i: Instr, fn: Func, ft: FuncType, capacity: nat) returns (st: Status)
      requires Valid() && Fits(env, lim, outer, Execute(env, fn, ft, Room(), i, top, store))
      requires i.Br? || i.BrIf? || i.BrTable? || i.Call? || i.CallIndirect?
      modifies this, values, frames, labels
      ensures Did(Execute(env, fn, ft, old(Room()), i, old(top), old(store)), capacity, st)
    {
      match i {
        case Br(depth) => st := DoBranch(depth, |fn.code|, capacity);
        case BrIf(depth) => st := DoBranchIf(depth, |fn.code|, capacity);
        case BrTable(first, count) =>
          st := Error;
          var targets := env.m.Targets(fn, first, count);
          if targets.Some? {
            st := DoTable(targets.value, |fn.code|, capacity);
          }
        case Call(f) =>
          st := Error;
          if env.m.TypeOf(f).Some? {
            st := DoCall(f, capacity);
          }
        case CallIndirect(ti, table) => st := DoIndirect(ti, table, capacity);
      }
    }

    /** The next step is well typed and what it leaves behind has room. */
    ghost predicate Ready(capacity: nat)
      reads this
    {
      Good(lim, Step(env, lim, capacity, View()))
    }

    /** One iteration of the loop. */
    method StepOnce(capacity: nat) returns (st: Status)
      requires Valid() && Ready(capacity)
      modifies this, values, frames, labels
      ensures Reached(Step(env, lim, capacity, old(View())), st)
    {
      Shape();
      var f := frames[frameCount - 1];
      ReadyFits(env, lim, capacity, outer, top, store);
      var fn, ft := env.m.Body(f.func).value, env.m.TypeOf(f.func).value;
      if f.pc >= |fn.code| {
        st := ReturnFrom(ft, capacity);
      } else {
        SetPc(f.pc + 1);
        st := Exec(fn.code[f.pc], fn, ft, capacity);
      }
    }

    /** The loop until it stops, or until a preemption request that arrives after n iterations. */
    method RunFor(n: nat, capacity: nat) returns (st: Status)
      requires Valid() && forall k :: 0 <= k <= n ==> Good(lim, Run(env, lim, capacity, View(), k))
      modifies this, values, frames, labels
      ensures Reached(Run(env, lim, capacity, old(View()), n), st)
    {
      ghost var m := View();
      st := Continue;
      var i := 0;
      while i < n && st == Continue
        invariant i <= n && Reached(Run(env, lim, capacity, m, i), st)
      {
        RunStep(env, lim, capacity, m, i);
        st := StepOnce(capacity);
        i := i + 1;
      }
      RunStopped(env, lim, capacity, m, i, n);
    }

    predicate Callable(f: nat, args: seq<nat>, capacity: nat) { Suits(env.m, f, args, capacity) }

    /** Writes the arguments to the bottom of the value stack. The code does not look at its size:
        every write is inside exactly when the stack can hold them all. */
    method PutArguments(args: seq<nat>) returns (inside: bool)
      requires Counted() && valueCount == 0
      modifies this`valueCount, values
      ensures Counted() && (inside <==> |args| <= lim.maxValues)
      ensures inside ==> valueCount == |args| && values[..valueCount] == args
    {
      while valueCount < |args|
        invariant Counted() && valueCount <= |args| && values[..valueCount] == args[..valueCount]
      {
        if valueCount == values.Length { return false; }
        values[valueCount] := args[valueCount];
        valueCount := valueCount + 1;
      }
      return true;
    }

    /** A call from outside: empties the stacks, pushes the arguments and enters the function.
        A stack that is too small for the outermost function is a trap, not an error; one that is
        too small for the arguments is not noticed. */
    method Invoke(f: nat, args: seq<nat>, capacity: nat) returns (st: Status)
      requires Counted()
      modifies this`valueCount, this`frameCount, this`labelCount, this`outer, this`top, values, frames
      ensures !Callable(f, args, capacity) ==> st == Error && unchanged(this) && unchanged(values) && unchanged(frames)
      ensures st == OutsideStack <==> Callable(f, args, capacity) && |args| > lim.maxValues
      ensures Callable(f, args, capacity) && |args| <= lim.maxValues ==>
        var r := WasmMachine.EnterFrame(env, lim, [], store, f, args);
        && st == (if r.Running? then Continue else if r == Failed(StackOverflow) then TrappedByOverflow else Error)
        && (r.Running? ==> Valid() && View() == r.next)
    {
      st := Error;
      if !Callable(f, args, capacity) { return; }
      valueCount, frameCount, labelCount := 0, 0, 0;
      var inside := PutArguments(args);
      if !inside { return OutsideStack; }
      assert Live().values == args;
      if env.m.Body(f).Some? {
        var failed := EnterFrame(f, [], args);
        st := if failed.None? then Continue else if failed == Some(StackOverflow) then TrappedByOverflow else Error;
      }
    }
  }

  /** No ill-typed step; a running machine fits the value stack. */
  ghost predicate Good(lim: Limits, r: Outcome) {
    !r.StuckState? && (r.Running? ==> Values(r.next.acts) <= lim.maxValues)
  }

  lemma {:induction false} ReadyFits(env: Env, lim: Limits, capacity: nat, outer: seq<Act>, top: Act, store: Store)
    requires Good(lim, Step(env, lim, capacity, Machine(outer + [top], store)))
    ensures env.m.Body(top.func).Some? && env.m.TypeOf(top.func).Some?
    ensures var l := StepLocal(env, env.m.Body(top.func).value, env.m.TypeOf(top.func).value, RoomAbove(lim, outer), top, store);
      && Fits(env, lim, outer, l)
      && Step(env, lim, capacity, Machine(outer + [top], store)) == Onward(env, lim, capacity, outer, store, l)
  {
    var fn, ft := env.m.Body(top.func), env.m.TypeOf(top.func);
    TopOf(outer, top, top);
    if fn.Some? && ft.Some? {
      StepFlat(env, lim, capacity, outer, top, store, fn.value, ft.value);
      var l := StepLocal(env, fn.value, ft.value, RoomAbove(lim, outer), top, store);
      OnwardFits(env, lim, capacity, outer, store, l);
    }
  }

  lemma {:induction false} OnwardFits(env: Env, lim: Limits, capacity: nat, outer: seq<Act>, store: Store, l: Local)
    requires Good(lim, Onward(env, lim, capacity, outer, store, l))
    ensures Fits(env, lim, outer, l)
  {
    match l
    case Next(a, _) => UsedIsValues(outer, a);
    case Invoke(f, args, a, s) =>
      var out := env.host(f, args, s);
      if f < |env.m.imports| && out.HostCompleted? { UsedIsValues(outer, a.(operands := a.operands + out.results)); }
    case _ =>
  }

  // ---- shapes of instructions ----

  /** What a call leaves behind has room. */
  ghost predicate Fitting(env: Env, lim: Limits, outer: seq<Act>, a: Act, s: Store, f: nat, args: seq<nat>) {
    var r := CallFrom(env, lim, outer, a, s, f, args);
    !r.StuckState? && (f < |env.m.imports| && r.Running? ==>
      Used(outer, a) + |env.host(f, args, s).results| <= lim.maxValues)
  }

  /** The instruction is well typed here and what it leaves behind has room. */
  ghost predicate Fits(env: Env, lim: Limits, outer: seq<Act>, l: Local) {
    match l
    case Next(a, _) => Used(outer, a) <= lim.maxValues
    case Invoke(f, args, a, s) => Fitting(env, lim, outer, a, s, f, args)
    case Stuck => false
    case _ => true
  }

  /** The activation below its topmost operand. */
  function Beneath(a: Act): Act
    requires a.operands != []
  {
    a.(operands := a.operands[..|a.operands| - 1])
  }

  function Selected(targets: seq<nat>, v: nat): nat
    requires targets != []
  {
    if Low32(v) < |targets| - 1 then targets[Low32(v)] else targets[|targets| - 1]
  }

  function IndirectCall(env: Env, ti: nat, table: nat, a: Act, s: Store): Local
    requires a.operands != []
  {
    if table != 0 then Trapped(TrapIndirectCall)
    else match Indirect(env, ti, Low32(a.operands[|a.operands| - 1]))
         case None => Trapped(TrapIndirectCall)
         case Some(f) => PopArgs(Beneath(a), f, |env.m.types[ti].params|, s)
  }

  lemma {:induction false} LocalsKept(env: Env, p: Plain, locals: seq<nat>, operands: seq<nat>, s: Store)
    ensures var r := ExecPlain(env, p, locals, operands, s); r.Done? ==> |r.locals| == |locals|
  {
  }

  /** Only the local instructions look at the locals; nothing leaves more than one value. */
  lemma {:induction false} ComputeOuts(env: Env, p: Plain, locals: seq<nat>, args: seq<nat>, s: Store)
    requires !p.LocalGet? && !p.LocalSet? && !p.LocalTee?
    ensures match (Compute(env, p, [], args, s), Compute(env, p, locals, args, s))
      case (Done(_, outs, s1), Done(locals2, outs2, s2)) => locals2 == locals && outs == outs2 && s1 == s2 && |outs| <= 1
      case (r, r2) => r == r2
  {
  }

  lemma {:induction false} PlainForm(env: Env, p: Plain, locals: seq<nat>, operands: seq<nat>, s: Store)
    requires !p.LocalGet? && !p.LocalSet? && !p.LocalTee? && !ExecPlain(env, p, locals, operands, s).PlainStuck?
    ensures |operands| >= Arity(p)
    ensures var n := |operands| - Arity(p);
      var out := Compute(env, p, [], operands[n..], s);
      && (out.Done? ==> |out.operands| <= 1)
      && ExecPlain(env, p, locals, operands, s) ==
         (match out case Done(_, outs, s1) => Done(locals, operands[..n] + outs, s1) case other => other)
  {
    ComputeOuts(env, p, locals, operands[|operands| - Arity(p)..], s);
  }
}
