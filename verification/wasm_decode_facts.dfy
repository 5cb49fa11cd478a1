/** What lowering guarantees: every opening carries its own `else` and `end`, every
    `else` belongs to an `if`, and every br_table owns its range of the targets. */
module WasmDecodeFacts {
  import opened Options
  import opened Words
  import opened WasmSyntax
  import opened WasmStructure
  import opened WasmLexer
  import opened WasmDecode

  /** Equal up to the pcs an opening carries. */
  predicate SameShape(a: Instr, b: Instr) {
    if a.Open? then b.Open? && a.kind == b.kind && a.bt == b.bt else a == b
  }

  /** `b` continues `a`, up to the pcs that openings carry. */
  predicate Continues(a: seq<Instr>, b: seq<Instr>) {
    |a| <= |b| && forall i :: 0 <= i < |a| ==> SameShape(a[i], b[i])
  }

  lemma {:induction false} SameStack(a: seq<Instr>, b: seq<Instr>, pc: nat)
    requires Continues(a, b) && pc <= |a|
    ensures OpenStack(b, pc) == OpenStack(a, pc)
  {
    if pc > 0 {
      SameStack(a, b, pc - 1);
      assert SameShape(a[pc - 1], b[pc - 1]);
    }
  }

  lemma {:induction false} SameStacks(a: seq<Instr>, b: seq<Instr>)
    requires Continues(a, b)
    ensures forall pc: nat {:trigger OpenStack(b, pc)} {:trigger OpenStack(a, pc)} ::
      pc <= |a| ==> OpenStack(b, pc) == OpenStack(a, pc)
  {
    forall pc: nat | pc <= |a| ensures OpenStack(b, pc) == OpenStack(a, pc) {
      SameStack(a, b, pc);
    }
  }

  /** A resolved opening stays resolved when code is appended or others are patched. */
  lemma {:induction false} StillResolved(a: seq<Instr>, b: seq<Instr>, o: nat)
    requires Continues(a, b) && o < |a| && a[o].Open? && Resolved(a, o) && b[o] == a[o]
    ensures Resolved(b, o)
  {
    SameStacks(a, b);
    var e := a[o].endPc;
    assert SameShape(a[e], b[e]);
    if a[o].elsePc.Some? {
      assert SameShape(a[a[o].elsePc.value], b[a[o].elsePc.value]);
    } else {
      forall x | o < x < e && b[x].Else? ensures !DirectlyIn(b, o, x) {
        assert SameShape(a[x], b[x]);
        assert !DirectlyIn(a, o, x);
      }
    }
  }

  /** How many br_table targets the first pc instructions use. */
  function Entries(code: seq<Instr>, pc: nat): nat
    requires pc <= |code|
  {
    if pc == 0 then 0
    else Entries(code, pc - 1) + (if code[pc - 1].BrTable? then code[pc - 1].count else 0)
  }

  lemma {:induction false} SameEntries(a: seq<Instr>, b: seq<Instr>, pc: nat)
    requires Continues(a, b) && pc <= |a|
    ensures Entries(b, pc) == Entries(a, pc)
  {
    if pc > 0 {
      SameEntries(a, b, pc - 1);
      assert SameShape(a[pc - 1], b[pc - 1]);
    }
  }

  // ---- the decoder's invariant ----

  /** What an opening still open at `pc` knows about its `else`. */
  predicate ElseSoFar(code: seq<Instr>, pc: nat, o: nat, hasElse: bool)
    requires o < pc <= |code| && code[o].Open?
  {
    if hasElse then
      && code[o].elsePc.Some?
      && var x := code[o].elsePc.value; o < x < pc && code[x].Else? && DirectlyIn(code, o, x)
    else
      && code[o].elsePc.None?
      && forall x :: o < x < pc && code[x].Else? ==> !DirectlyIn(code, o, x)
  }

  predicate OpenOk(l: Lowering, k: nat)
    requires k < |l.opens|
  {
    var open := l.opens[k];
    && open.pc < |l.ops| && l.ops[open.pc].Open?
    && (open.isIf <==> l.ops[open.pc].kind == IfK) && (open.hasElse ==> open.isIf)
    && ElseSoFar(l.ops, |l.ops|, open.pc, open.hasElse)
  }

  predicate Tracks(l: Lowering) {
    var st := OpenStack(l.ops, |l.ops|);
    |l.opens| == |st| && forall k :: 0 <= k < |st| ==> l.opens[k].pc == st[k]
  }

  /** Every construct no longer open is resolved. */
  predicate ClosedOk(code: seq<Instr>, pc: nat)
    requires pc <= |code|
  {
    forall o {:trigger Resolved(code, o)} ::
      0 <= o < pc && code[o].Open? && o !in OpenStack(code, pc) ==> Resolved(code, o)
  }

  /** The `else` at x is the one its innermost construct, an `if`, points to. */
  predicate Owned(code: seq<Instr>, x: nat)
    requires x < |code|
  {
    var st := OpenStack(code, x);
    st != [] && st[|st| - 1] < |code| && code[st[|st| - 1]].Open?
    && code[st[|st| - 1]].kind == IfK && code[st[|st| - 1]].elsePc == Some(x)
  }

  predicate ElsesOwned(code: seq<Instr>) {
    forall x {:trigger Owned(code, x)} :: 0 <= x < |code| && code[x].Else? ==> Owned(code, x)
  }

  /** The br_table at p owns the range after all earlier ones. */
  predicate TableOk(code: seq<Instr>, p: nat)
    requires p < |code| && code[p].BrTable?
  {
    code[p].first == Entries(code, p) && code[p].count > 0
  }

  predicate TablesOk(code: seq<Instr>) {
    forall p {:trigger TableOk(code, p)} :: 0 <= p < |code| && code[p].BrTable? ==> TableOk(code, p)
  }

  /** No `end` before pc closes more than was opened. */
  predicate EndsMatched(code: seq<Instr>, pc: nat)
    requires pc <= |code|
  {
    forall p {:trigger OpenStack(code, p)} :: 0 <= p < pc && code[p].End? ==> OpenStack(code, p) != []
  }

  predicate Invariant(l: Lowering) {
    && Tracks(l) && EndsMatched(l.ops, |l.ops|)
    && (forall k {:trigger OpenOk(l, k)} :: 0 <= k < |l.opens| ==> OpenOk(l, k))
    && ClosedOk(l.ops, |l.ops|) && ElsesOwned(l.ops)
    && TablesOk(l.ops) && Entries(l.ops, |l.ops|) == |l.targets|
  }

  // ---- every token keeps it ----

  /** The constructs around a pc have different openings. */
  lemma {:induction false} DistinctOpenings(code: seq<Instr>, pc: nat, i: nat, j: nat)
    requires pc <= |code| && i < j < |OpenStack(code, pc)|
    ensures OpenStack(code, pc)[i] != OpenStack(code, pc)[j]
  {
    StaysOpen(code, pc, i);
    StaysOpen(code, pc, j);
  }

  /** A pc lies directly inside its innermost construct and no other. */
  lemma {:induction false} InnermostOnly(code: seq<Instr>, pc: nat, k: nat)
    requires pc <= |code| && k < |OpenStack(code, pc)|
    ensures var o := OpenStack(code, pc)[k];
      o < pc && (DirectlyIn(code, o, pc) <==> k == |OpenStack(code, pc)| - 1)
  {
    StaysOpen(code, pc, k);
    var st := OpenStack(code, pc);
    assert st[..k] + [st[k]] == st[..k + 1];
    assert st[..|st|] == st;
  }

  /** What an instruction that is no `else` leaves of an open construct's knowledge. */
  lemma {:induction false} ElseKept(a: seq<Instr>, b: seq<Instr>, o: nat, hasElse: bool)
    requires Continues(a, b) && |b| == |a| + 1 && o < |a| && a[o].Open? && ElseSoFar(a, |a|, o, hasElse)
    requires b[o].elsePc == a[o].elsePc
    requires b[|a|].Else? ==> !DirectlyIn(b, o, |a|)
    ensures b[o].Open? && ElseSoFar(b, |b|, o, hasElse)
  {
    SameStacks(a, b);
    assert SameShape(a[o], b[o]);
    if hasElse {
      var x := a[o].elsePc.value;
      assert SameShape(a[x], b[x]);
      assert DirectlyIn(b, o, x);
    } else {
      forall x | o < x < |b| && b[x].Else? ensures !DirectlyIn(b, o, x) {
        if x < |a| {
          assert SameShape(a[x], b[x]);
          assert !DirectlyIn(a, o, x);
        }
      }
    }
  }

  lemma {:induction false} PlaceContinues(l: Lowering, token: Token)
    requires Pointing(l) && Place(l, token).Some?
    ensures Continues(l.ops, Place(l, token).value.ops)
  {
  }

  lemma {:induction false} TracksKept(l: Lowering, token: Token)
    requires Pointing(l) && Place(l, token).Some? && Tracks(l) && Proper(token)
    ensures Tracks(Place(l, token).value)
  {
    var l1 := Place(l, token).value;
    PlaceContinues(l, token);
    SameStack(l.ops, l1.ops, |l.ops|);
  }

  lemma {:induction false} EndsKept(l: Lowering, token: Token)
    requires Pointing(l) && Place(l, token).Some? && Tracks(l) && EndsMatched(l.ops, |l.ops|) && Proper(token)
    ensures var l1 := Place(l, token).value; EndsMatched(l1.ops, |l1.ops|)
  {
    var l1 := Place(l, token).value;
    PlaceContinues(l, token);
    forall p | 0 <= p < |l1.ops| && l1.ops[p].End? ensures OpenStack(l1.ops, p) != [] {
      SameStack(l.ops, l1.ops, p);
      if p < |l.ops| { assert SameShape(l.ops[p], l1.ops[p]); }
    }
  }

  lemma {:induction false} TablesKept(l: Lowering, token: Token)
    requires Pointing(l) && Place(l, token).Some? && Proper(token)
    requires TablesOk(l.ops) && Entries(l.ops, |l.ops|) == |l.targets|
    ensures var l1 := Place(l, token).value; TablesOk(l1.ops) && Entries(l1.ops, |l1.ops|) == |l1.targets|
  {
    var l1 := Place(l, token).value;
    PlaceContinues(l, token);
    SameEntries(l.ops, l1.ops, |l.ops|);
    forall p | 0 <= p < |l1.ops| && l1.ops[p].BrTable? ensures TableOk(l1.ops, p) {
      if p < |l.ops| {
        assert SameShape(l.ops[p], l1.ops[p]);
        assert TableOk(l.ops, p);
        SameEntries(l.ops, l1.ops, p);
      }
    }
  }

  lemma {:induction false} OpensKept(l: Lowering, token: Token, k: nat)
    requires Pointing(l) && Place(l, token).Some? && Invariant(l) && Proper(token)
    requires k < |Place(l, token).value.opens|
    ensures OpenOk(Place(l, token).value, k)
  {
    var l1 := Place(l, token).value;
    PlaceContinues(l, token);
    SameStack(l.ops, l1.ops, |l.ops|);
    var n, pc := |l.opens|, |l.ops|;
    if k == n {
      assert token.TOpen?;
    } else {
      var o := l.opens[k].pc;
      assert OpenOk(l, k);
      assert SameShape(l.ops[o], l1.ops[o]);
      InnermostOnly(l1.ops, pc, k);
      if k < n - 1 { DistinctOpenings(l.ops, pc, k, n - 1); }
      if token.TElse? && k == n - 1 {
        assert l1.ops[o].elsePc == Some(pc) && l1.ops[pc].Else?;
      } else {
        ElseKept(l.ops, l1.ops, o, l.opens[k].hasElse);
      }
    }
  }

  lemma {:induction false} ClosedKept(l: Lowering, token: Token)
    requires Pointing(l) && Place(l, token).Some? && Invariant(l) && Proper(token)
    ensures var l1 := Place(l, token).value; ClosedOk(l1.ops, |l1.ops|)
  {
    var l1 := Place(l, token).value;
    PlaceContinues(l, token);
    TracksKept(l, token);
    SameStack(l.ops, l1.ops, |l.ops|);
    var n, pc := |l.opens|, |l.ops|;
    var st, st1 := OpenStack(l.ops, pc), OpenStack(l1.ops, |l1.ops|);
    assert forall i :: 0 <= i < |st| && i < |st1| ==> st[i] == st1[i];
    forall o | 0 <= o < |l1.ops| && l1.ops[o].Open? && o !in st1
      ensures Resolved(l1.ops, o)
    {
      if o < pc {
        assert SameShape(l.ops[o], l1.ops[o]);
        if o in st {
          var k :| 0 <= k < |st| && st[k] == o;
          assert k >= |st1|;
          ClosingResolves(l, o);
        } else {
          if n > 0 { assert st[n - 1] != o; }
          assert Resolved(l.ops, o);
          StillResolved(l.ops, l1.ops, o);
        }
      }
    }
  }

  /** The `end` just placed resolves the innermost construct. */
  lemma {:induction false} ClosingResolves(l: Lowering, o: nat)
    requires Pointing(l) && Invariant(l) && l.opens != [] && o == l.opens[|l.opens| - 1].pc
    ensures Resolved(Place(l, TEnd).value.ops, o)
  {
    var l1 := Place(l, TEnd).value;
    var n, pc := |l.opens|, |l.ops|;
    PlaceContinues(l, TEnd);
    SameStacks(l.ops, l1.ops);
    assert OpenOk(l, n - 1);
    InnermostOnly(l1.ops, pc, n - 1);
    if l.opens[n - 1].hasElse {
      var x := l.ops[o].elsePc.value;
      assert SameShape(l.ops[x], l1.ops[x]);
    } else {
      forall x | o < x < pc && l1.ops[x].Else? ensures !DirectlyIn(l1.ops, o, x) {
        assert SameShape(l.ops[x], l1.ops[x]);
        assert !DirectlyIn(l.ops, o, x);
      }
    }
  }

  lemma {:induction false} StillOwned(a: seq<Instr>, b: seq<Instr>, x: nat)
    requires Continues(a, b) && x < |a| && Owned(a, x)
    requires var st := OpenStack(a, x); b[st[|st| - 1]].Open? && b[st[|st| - 1]].elsePc == Some(x)
    ensures Owned(b, x)
  {
    SameStack(a, b, x);
    var st := OpenStack(a, x);
    assert SameShape(a[st[|st| - 1]], b[st[|st| - 1]]);
  }

  lemma {:induction false} OldElseKept(l: Lowering, token: Token, x: nat)
    requires Pointing(l) && Place(l, token).Some? && Proper(token) && x < |l.ops| && Owned(l.ops, x)
    requires token.TElse? ==> OpenOk(l, |l.opens| - 1)
    ensures Owned(Place(l, token).value.ops, x)
  {
    var l1 := Place(l, token).value;
    PlaceContinues(l, token);
    var st := OpenStack(l.ops, x);
    var o := st[|st| - 1];
    assert SameShape(l.ops[o], l1.ops[o]);
    StillOwned(l.ops, l1.ops, x);
  }

  lemma {:induction false} NewElseOwned(l: Lowering)
    requires Pointing(l) && Place(l, TElse).Some? && Tracks(l) && OpenOk(l, |l.opens| - 1)
    ensures Owned(Place(l, TElse).value.ops, |l.ops|)
  {
    var l1 := Place(l, TElse).value;
    PlaceContinues(l, TElse);
    SameStack(l.ops, l1.ops, |l.ops|);
  }

  lemma {:induction false} ElsesKept(l: Lowering, token: Token)
    requires Pointing(l) && Place(l, token).Some? && Invariant(l) && Proper(token)
    ensures ElsesOwned(Place(l, token).value.ops)
  {
    var l1 := Place(l, token).value;
    PlaceContinues(l, token);
    var pc := |l.ops|;
    if token.TElse? { assert OpenOk(l, |l.opens| - 1); }
    forall x | 0 <= x < |l1.ops| && l1.ops[x].Else? ensures Owned(l1.ops, x) {
      if x < pc {
        assert SameShape(l.ops[x], l1.ops[x]);
        assert Owned(l.ops, x);
        OldElseKept(l, token, x);
      } else {
        assert token.TElse?;
        NewElseOwned(l);
      }
    }
  }

  lemma {:induction false} PlaceKeeps(l: Lowering, token: Token)
    requires Pointing(l) && Place(l, token).Some? && Invariant(l) && Proper(token)
    ensures Invariant(Place(l, token).value)
  {
    var l1 := Place(l, token).value;
    TracksKept(l, token);
    EndsKept(l, token);
    TablesKept(l, token);
    ClosedKept(l, token);
    ElsesKept(l, token);
    forall k | 0 <= k < |l1.opens| ensures OpenOk(l1, k) { OpensKept(l, token, k); }
  }

  // ---- nothing is lost ----

  /** Instruction i is token i, with the pcs filled in and its targets set aside. */
  predicate Carried(token: Token, i: Instr, targets: seq<nat>) {
    Proper(token) &&
    match token
    case TOpen(kind, bt) => i.Open? && i.kind == kind && i.bt == bt
    case TElse => i.Else?
    case TEnd => i.End?
    case TTable(ts) =>
      i.BrTable? && i.count == |ts| && i.first + i.count <= |targets| && targets[i.first..i.first + i.count] == ts
    case TInstr(j) => i == j
  }

  /** The first instructions carry the first tokens. */
  predicate Carries(tokens: seq<Token>, ops: seq<Instr>, targets: seq<nat>) {
    |ops| <= |tokens| && forall k :: 0 <= k < |ops| ==> Carried(tokens[k], ops[k], targets)
  }

  lemma {:induction false} PlaceCarries(l: Lowering, token: Token, tokens: seq<Token>)
    requires Pointing(l) && Place(l, token).Some? && Proper(token) && Carries(tokens, l.ops, l.targets)
    requires |l.ops| < |tokens| && tokens[|l.ops|] == token
    ensures var l1 := Place(l, token).value; Carries(tokens, l1.ops, l1.targets)
  {
    var l1 := Place(l, token).value;
    PlaceContinues(l, token);
    forall k | 0 <= k < |l1.ops| ensures Carried(tokens[k], l1.ops[k], l1.targets) {
      if k < |l.ops| {
        assert Carried(tokens[k], l.ops[k], l.targets) && SameShape(l.ops[k], l1.ops[k]);
        if tokens[k].TTable? {
          var f, c := l.ops[k].first, l.ops[k].count;
          assert l1.targets[f..f + c] == l.targets[f..f + c];
        }
      } else if token.TTable? {
        assert l1.targets[|l.targets|..|l.targets| + |token.targets|] == token.targets;
      }
    }
  }

  /** The instructions encoded from `pos` on. */
  function TokensFrom(data: seq<Byte>, pos: nat): Option<seq<Token>>
    requires pos <= |data|
    decreases |data| - pos
  {
    if pos == |data| then Some([])
    else
      var (token, next) :- TokenAt(data, pos);
      var rest :- TokensFrom(data, next);
      Some([token] + rest)
  }

  lemma {:induction false} LowerFromTokens(data: seq<Byte>, pos: nat, l: Lowering)
    requires pos <= |data| && Pointing(l) && LowerFrom(data, pos, l).Some?
    ensures TokensFrom(data, pos).Some?
    decreases |data| - pos
  {
    var (token, next) := TokenAt(data, pos).value;
    if token.TEnd? && l.opens == [] {
      assert TokensFrom(data, next) == Some([]);
    } else {
      LowerFromTokens(data, next, Place(l, token).value);
    }
  }

  lemma {:induction false} TokensStep(data: seq<Byte>, pos: nat, all: seq<Token>, n: nat)
    requires pos < |data| && n <= |all| && TokensFrom(data, pos) == Some(all[n..])
    ensures n < |all| && TokenAt(data, pos).Some? && all[n] == TokenAt(data, pos).value.0
    ensures TokensFrom(data, TokenAt(data, pos).value.1) == Some(all[n + 1..])
  {
    var rest := all[n..];
    assert rest != [] && rest[0] == TokenAt(data, pos).value.0;
    assert rest[1..] == all[n + 1..];
  }

  lemma {:induction false} LastCarries(l: Lowering, all: seq<Token>)
    requires Carries(all, l.ops, l.targets) && |l.ops| < |all| && all[|l.ops|] == TEnd
    ensures Carries(all, l.ops + [End], l.targets)
  {
  }

  lemma {:induction false} LowerFromCarries(data: seq<Byte>, pos: nat, l: Lowering, r: Lowering, all: seq<Token>)
    requires pos <= |data| && Pointing(l) && Carries(all, l.ops, l.targets) && LowerFrom(data, pos, l) == Some(r)
    requires TokensFrom(data, pos) == Some(all[|l.ops|..])
    ensures |all| == |r.ops| && Carries(all, r.ops, r.targets)
    decreases |data| - pos
  {
    var (token, next) := TokenAt(data, pos).value;
    TokensStep(data, pos, all, |l.ops|);
    if token.TEnd? && l.opens == [] {
      LastCarries(l, all);
    } else {
      PlaceCarries(l, token, all);
      LowerFromCarries(data, next, Place(l, token).value, r, all);
    }
  }

  // ---- whole bodies ----

  /** A lowered body: one instruction array whose last instruction is the function's own
      `end`, every other construct properly nested and resolved before it. */
  predicate WellFormed(code: seq<Instr>) {
    && code != [] && code[|code| - 1].End? && OpenStack(code, |code| - 1) == []
    && EndsMatched(code, |code| - 1) && WellResolved(code) && ElsesOwned(code) && TablesOk(code)
  }

  lemma {:induction false} LastEnd(l: Lowering)
    requires Pointing(l) && Invariant(l) && l.opens == []
    ensures var code := l.ops + [End]; WellFormed(code) && Entries(code, |code|) == |l.targets|
  {
    var code := l.ops + [End];
    assert Continues(l.ops, code);
    SameStacks(l.ops, code);
    forall o | 0 <= o < |code| && code[o].Open? ensures Resolved(code, o) {
      assert Resolved(l.ops, o);
      StillResolved(l.ops, code, o);
    }
    forall x | 0 <= x < |code| && code[x].Else? ensures Owned(code, x) {
      assert Owned(l.ops, x);
    }
    forall p | 0 <= p < |code| && code[p].BrTable? ensures TableOk(code, p) {
      assert TableOk(l.ops, p);
      SameEntries(l.ops, code, p);
    }
    SameEntries(l.ops, code, |l.ops|);
  }

  lemma {:induction false} LowerFromOk(data: seq<Byte>, pos: nat, l: Lowering)
    requires Pointing(l) && Invariant(l) && LowerFrom(data, pos, l).Some?
    ensures var r := LowerFrom(data, pos, l).value; WellFormed(r.ops) && Entries(r.ops, |r.ops|) == |r.targets|
    decreases if pos < |data| then |data| - pos else 0
  {
    var (token, next) := TokenAt(data, pos).value;
    if token.TEnd? && l.opens == [] {
      LastEnd(l);
    } else {
      PlaceKeeps(l, token);
      LowerFromOk(data, next, Place(l, token).value);
    }
  }

  /** Every body the decoder accepts is properly nested, fully resolved and owns exactly
      the targets it lists; instruction by instruction it is what the bytes encode. */
  lemma {:induction false} LowerOk(code: seq<Byte>) returns (tokens: seq<Token>)
    requires Lower(code).Some?
    ensures var b := Lower(code).value;
      && WellFormed(b.ops) && Entries(b.ops, |b.ops|) == |b.targets|
      && |tokens| == |b.ops| && Carries(tokens, b.ops, b.targets)
    ensures var (groups, p) := U32At(code, 0).value;
      var (locals, q) := LocalsAt(code, p, groups).value;
      TokensFrom(code, q) == Some(tokens)
  {
    var (groups, p) := U32At(code, 0).value;
    var (locals, q) := LocalsAt(code, p, groups).value;
    var l := Lowering([], [], []);
    LowerFromOk(code, q, l);
    LowerFromTokens(code, q, l);
    tokens := TokensFrom(code, q).value;
    assert tokens[0..] == tokens;
    LowerFromCarries(code, q, l, LowerFrom(code, q, l).value, tokens);
  }
}
