/** The re-entrant console section over the ticket lock, as atomic steps of N cores. A core
    re-enters only from inside its own section, as an exception handler does. */
module Console {
  import opened Options
  import T = TicketLock

  const NONE: nat := 0xffff_ffff

  /** Where a core is in console_enter and console_leave. `depth` counts its own entries. */
  datatype Pc =
    | Outside
    | Wanting              // read the owner and found another one
    | Waiting              // has a ticket
    | Admitted             // holds the lock; depth not yet written
    | Counted              // depth written; owner not yet stored
    | Inside(depth: nat)
    | Last                 // depth has dropped to zero; owner still stored
    | Cleared              // owner cleared; lock not yet released

  /** `took` and `gave` count the tickets each core has taken and released. */
  datatype Console = Console(
    lock: T.Lock,
    owner: nat,
    depth: nat,
    pcs: seq<Pc>,
    took: seq<nat>,
    gave: seq<nat>)

  datatype Action =
    | Enter(core: nat)     // load of the owner, and what follows from it
    | TakeTicket(core: nat)
    | Look(core: nat)
    | SetDepth(core: nat)
    | SetOwner(core: nat)
    | Leave(core: nat)     // decrement of the depth, and what follows from it
    | ClearOwner(core: nat)
    | HandOn(core: nat)

  function Init(n: nat): Console {
    Console(T.Init(n), NONE, 0, seq(n, _ => Outside), seq(n, _ => 0), seq(n, _ => 0))
  }

  function At(s: Console, c: nat, pc: Pc): Console
    requires c < |s.pcs|
  {
    s.(pcs := s.pcs[c := pc])
  }

  function Step(s: Console, a: Action): Option<Console> {
    var c := a.core;
    if c >= |s.pcs| || |s.took| != |s.pcs| || |s.gave| != |s.pcs| then None
    else
      match (a, s.pcs[c])
      case (Enter(_), Outside) =>
        if s.owner != c then Some(At(s, c, Wanting)) else Some(At(s, c, Inside(1)).(depth := s.depth + 1))
      case (Enter(_), Inside(d)) =>
        if s.owner != c then Some(At(s, c, Wanting)) else Some(At(s, c, Inside(d + 1)).(depth := s.depth + 1))
      case (TakeTicket(_), Wanting) =>
        var lock :- T.Step(s.lock, T.Take(c));
        Some(At(s, c, Waiting).(lock := lock, took := s.took[c := s.took[c] + 1]))
      case (Look(_), Waiting) =>
        var lock :- T.Step(s.lock, T.Look(c));
        if c < |lock.cores| && lock.cores[c].Holding? then Some(At(s, c, Admitted).(lock := lock)) else Some(s.(lock := lock))
      case (SetDepth(_), Admitted) => Some(At(s, c, Counted).(depth := 1))
      case (SetOwner(_), Counted) => Some(At(s, c, Inside(1)).(owner := c))
      case (Leave(_), Inside(d)) =>
        if s.depth == 1 then Some(At(s, c, Last).(depth := 0))
        else Some(At(s, c, Inside(if d > 0 then d - 1 else 0)).(depth := if s.depth > 0 then s.depth - 1 else NONE))
      case (ClearOwner(_), Last) => Some(At(s, c, Cleared).(owner := NONE))
      case (HandOn(_), Cleared) =>
        var lock :- T.Step(s.lock, T.Release(c));
        Some(At(s, c, Outside).(lock := lock, gave := s.gave[c := s.gave[c] + 1]))
      case _ => None
  }

  function After(s: Console, actions: seq<Action>): Option<Console> {
    if actions == [] then Some(s)
    else
      var before :- After(s, actions[..|actions| - 1]);
      Step(before, actions[|actions| - 1])
  }

  // ---- the invariant ----

  predicate HoldsLock(pc: Pc) { pc.Admitted? || pc.Counted? || pc.Inside? || pc.Last? || pc.Cleared? }

  /** A core's place in the section agrees with its place in the lock, its ticket count and
      the two console words. */
  predicate CoreOk(s: Console, c: nat)
    requires c < |s.pcs| && |s.lock.cores| == |s.pcs| == |s.took| == |s.gave|
  {
    && (HoldsLock(s.pcs[c]) <==> s.lock.cores[c].Holding?)
    && (s.pcs[c].Waiting? <==> s.lock.cores[c].Spinning?)
    && (s.pcs[c].Outside? || s.pcs[c].Wanting? <==> s.lock.cores[c].Idle?)
    && s.took[c] == s.gave[c] + (if HoldsLock(s.pcs[c]) || s.pcs[c].Waiting? then 1 else 0)
    && (s.owner == c <==> s.pcs[c].Inside? || s.pcs[c].Last?)
    && (match s.pcs[c]
        case Counted => s.depth == 1
        case Inside(d) => d > 0 && s.depth == d
        case Last => s.depth == 0
        case _ => true)
  }

  predicate Invariant(s: Console) {
    && T.Invariant(s.lock) && |s.lock.cores| == |s.pcs| == |s.took| == |s.gave| && |s.pcs| < NONE
    && (s.owner < |s.pcs| || s.owner == NONE)
    && (forall c {:trigger CoreOk(s, c)} :: 0 <= c < |s.pcs| ==> CoreOk(s, c))
  }

  /** Two cores cannot both be between taking the lock and releasing it. */
  lemma {:induction false} OneSection(s: Console, a: nat, b: nat)
    requires Invariant(s) && a < |s.pcs| && b < |s.pcs| && HoldsLock(s.pcs[a]) && HoldsLock(s.pcs[b])
    ensures a == b
  {
    assert CoreOk(s, a) && CoreOk(s, b);
    T.MutualExclusion(s.lock, a, b);
  }

  lemma {:induction false} InitOk(n: nat)
    requires n < NONE
    ensures Invariant(Init(n))
  {
    T.InitOk(n);
  }

  /** The other cores' view is untouched when only core c's slot, the depth and the owner
      change, and the others neither hold the lock nor are the owner. */
  lemma {:induction false} OthersOk(s: Console, s1: Console, c: nat)
    requires Invariant(s) && c < |s.pcs|
    requires |s1.lock.cores| == |s1.pcs| == |s1.took| == |s1.gave| == |s.pcs|
    requires forall d :: 0 <= d < |s.pcs| && d != c ==>
      s1.pcs[d] == s.pcs[d] && s1.took[d] == s.took[d] && s1.gave[d] == s.gave[d] && s1.lock.cores[d] == s.lock.cores[d]
    requires s1.owner == s.owner || ((s.owner == NONE || s.owner == c) && (s1.owner == NONE || s1.owner == c))
    requires s1.depth == s.depth || HoldsLock(s.pcs[c])
    ensures forall d {:trigger CoreOk(s1, d)} :: 0 <= d < |s.pcs| && d != c ==> CoreOk(s1, d)
  {
    forall d | 0 <= d < |s.pcs| && d != c ensures CoreOk(s1, d) {
      assert CoreOk(s, d);
      if HoldsLock(s.pcs[c]) && HoldsLock(s.pcs[d]) { OneSection(s, c, d); }
    }
  }

  /** While a core holds the lock nobody else is the owner. */
  lemma {:induction false} OwnerIsHolder(s: Console, c: nat)
    requires Invariant(s) && c < |s.pcs| && HoldsLock(s.pcs[c])
    ensures s.owner == NONE || s.owner == c
  {
    if s.owner < |s.pcs| {
      assert CoreOk(s, s.owner);
      OneSection(s, c, s.owner);
    }
  }

  lemma {:induction false} StepKeeps(s: Console, a: Action)
    requires Invariant(s) && Step(s, a).Some?
    ensures Invariant(Step(s, a).value)
  {
    var c := a.core;
    var s1 := Step(s, a).value;
    assert CoreOk(s, c);
    if HoldsLock(s.pcs[c]) { OwnerIsHolder(s, c); }
    match a {
      case TakeTicket(_) => T.StepKeeps(s.lock, T.Take(c));
      case Look(_) => T.StepKeeps(s.lock, T.Look(c));
      case HandOn(_) => T.StepKeeps(s.lock, T.Release(c));
      case _ =>
    }
    OthersOk(s, s1, c);
    assert CoreOk(s1, c);
  }

  /** Every state of every run. */
  lemma {:induction false} AlwaysOk(n: nat, actions: seq<Action>)
    requires n < NONE && After(Init(n), actions).Some?
    ensures Invariant(After(Init(n), actions).value) && |After(Init(n), actions).value.pcs| == n
  {
    if actions == [] {
      InitOk(n);
    } else {
      var front := actions[..|actions| - 1];
      AlwaysOk(n, front);
      StepKeeps(After(Init(n), front).value, actions[|actions| - 1]);
    }
  }

  // ---- what it means ----

  /** In every run only one core is ever inside, and it is the one that holds the ticket. */
  lemma {:induction false} OnlyOneInside(n: nat, actions: seq<Action>, a: nat, b: nat)
    requires n < NONE && After(Init(n), actions).Some? && a < n && b < n
    ensures var s := After(Init(n), actions).value;
      |s.pcs| == n && |s.lock.cores| == n
      && (s.pcs[a].Inside? && s.pcs[b].Inside? ==> a == b)
      && (s.owner == a ==> s.lock.cores[a].Holding? && s.lock.owner == s.lock.cores[a].my)
  {
    AlwaysOk(n, actions);
    var s := After(Init(n), actions).value;
    if s.pcs[a].Inside? && s.pcs[b].Inside? { OneSection(s, a, b); }
    assert CoreOk(s, a) && T.CoreOk(s.lock, a);
  }

  /** A core outside the section never takes the nested path, and one inside always does. */
  lemma {:induction false} NestedExactlyInside(s: Console, c: nat)
    requires Invariant(s) && c < |s.pcs| && Step(s, Enter(c)).Some?
    ensures Step(s, Enter(c)).value.pcs[c] ==
      if s.pcs[c].Outside? then Wanting else Inside(s.pcs[c].depth + 1)
  {
    assert CoreOk(s, c);
  }

  /** Leaving hands the lock on exactly when the core's outermost entry is left. */
  lemma {:induction false} LastLeaveOnly(s: Console, c: nat)
    requires Invariant(s) && c < |s.pcs| && s.pcs[c].Inside?
    ensures s.pcs[c].depth > 0
    ensures var s1 := Step(s, Leave(c));
      s1.Some? && s1.value.pcs[c] == if s.pcs[c].depth == 1 then Last else Inside(s.pcs[c].depth - 1)
    ensures Step(s, Leave(c)).value.lock == s.lock
  {
    assert CoreOk(s, c);
  }

  /** Over every run a core that is outside has given back every ticket it took, and a core
      that waits or holds has exactly one out. */
  lemma {:induction false} TicketsGivenBack(n: nat, actions: seq<Action>, c: nat)
    requires n < NONE && After(Init(n), actions).Some? && c < n
    ensures var s := After(Init(n), actions).value;
      |s.pcs| == n && |s.took| == n && |s.gave| == n
      && s.took[c] == s.gave[c] + if s.pcs[c].Outside? || s.pcs[c].Wanting? then 0 else 1
  {
    AlwaysOk(n, actions);
    assert CoreOk(After(Init(n), actions).value, c);
  }
}
