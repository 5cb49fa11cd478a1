/** Nesting of the flat code: which opening instructions enclose a pc, and what it
    means for their `else` and `end` targets to be resolved correctly. */
module WasmStructure {
  import opened Options
  import opened WasmSyntax

  /** The pcs of the openings that enclose `pc`, outermost first. */
  function OpenStack(code: seq<Instr>, pc: nat): seq<nat>
    requires pc <= |code|
  {
    if pc == 0 then [] else
    var st := OpenStack(code, pc - 1);
    match code[pc - 1]
    case Open(_, _, _, _) => st + [pc - 1]
    case End => if st == [] then [] else st[..|st| - 1]
    case _ => st
  }

  /** `pc` lies directly inside the construct opened at `o`. */
  predicate DirectlyIn(code: seq<Instr>, o: nat, pc: nat)
    requires o < |code| && pc <= |code|
  {
    OpenStack(code, pc) == OpenStack(code, o) + [o]
  }

  /** The opening at `o` carries its own `end` and its own `else`, if it has one. */
  predicate Resolved(code: seq<Instr>, o: nat)
    requires o < |code| && code[o].Open?
  {
    var e := code[o].endPc;
    && o < e < |code| && code[e].End? && DirectlyIn(code, o, e)
    && (match code[o].elsePc
        case Some(x) => o < x < e && code[x].Else? && DirectlyIn(code, o, x)
        case None => forall x :: o < x < e && code[x].Else? ==> !DirectlyIn(code, o, x))
  }

  predicate WellResolved(code: seq<Instr>) {
    forall o {:trigger Resolved(code, o)} :: 0 <= o < |code| && code[o].Open? ==> Resolved(code, o)
  }

  /** At least d constructs enclose q. */
  predicate Deep(code: seq<Instr>, d: nat, q: nat)
    requires q <= |code|
  {
    d <= |OpenStack(code, q)|
  }

  /** The i-th construct around pc and those around it enclose q too. */
  predicate StillOpen(code: seq<Instr>, pc: nat, i: nat, q: nat)
    requires pc <= |code| && i < |OpenStack(code, pc)| && q <= |code|
  {
    i < |OpenStack(code, q)| && OpenStack(code, q)[..i + 1] == OpenStack(code, pc)[..i + 1]
  }

  /** An enclosing opening has stayed open ever since it was pushed. */
  lemma {:induction false} StaysOpen(code: seq<Instr>, pc: nat, i: nat)
    requires pc <= |code| && i < |OpenStack(code, pc)|
    ensures var o := OpenStack(code, pc)[i];
      && o < pc && code[o].Open?
      && OpenStack(code, o) == OpenStack(code, pc)[..i]
      && forall q {:trigger StillOpen(code, pc, i, q)} :: o < q <= pc ==> StillOpen(code, pc, i, q)
  {
    var st := OpenStack(code, pc);
    var before := OpenStack(code, pc - 1);
    if i == |before| {
      assert st == before + [pc - 1];
    } else {
      StaysOpen(code, pc - 1, i);
      assert st[..i + 1] == before[..i + 1];
      assert st[..i] == before[..i];
      var o := st[i];
      forall q | o < q <= pc ensures StillOpen(code, pc, i, q) {
        if q < pc { assert StillOpen(code, pc - 1, i, q); }
      }
    }
  }

  /** The construct opened at an enclosing pc ends at or after the current one. */
  lemma {:induction false} EndIsAhead(code: seq<Instr>, pc: nat, i: nat)
    requires WellResolved(code) && pc <= |code| && i < |OpenStack(code, pc)|
    ensures var o := OpenStack(code, pc)[i];
      o < pc && code[o].Open? && pc <= code[o].endPc < |code|
      && code[code[o].endPc].End?
      && OpenStack(code, code[o].endPc) == OpenStack(code, pc)[..i + 1]
      && OpenStack(code, code[o].endPc + 1) == OpenStack(code, pc)[..i]
  {
    StaysOpen(code, pc, i);
    var st := OpenStack(code, pc);
    var o := st[i];
    var e := code[o].endPc;
    assert Resolved(code, o);
    assert st[..i + 1] == st[..i] + [o];
    if e < pc { assert StillOpen(code, pc, i, e + 1); }
    assert OpenStack(code, e + 1) == st[..i];
  }

  lemma {:induction false} ResolvedEnd(code: seq<Instr>, o: nat)
    requires WellResolved(code) && o < |code| && code[o].Open?
    ensures o < code[o].endPc < |code| && code[code[o].endPc].End? && DirectlyIn(code, o, code[o].endPc)
  {
    assert Resolved(code, o);
  }

  lemma {:induction false} ResolvedElse(code: seq<Instr>, o: nat)
    requires WellResolved(code) && o < |code| && code[o].Open? && code[o].elsePc.Some?
    ensures var x := code[o].elsePc.value;
      o < x < code[o].endPc < |code| && code[x].Else? && DirectlyIn(code, o, x)
  {
    assert Resolved(code, o);
  }
}
