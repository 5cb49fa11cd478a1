/** The ticket spinlock as atomic steps of N cores. The two counters are 32-bit and wrap;
    `issued`, `served` and the logs are bookkeeping that no step's decision reads. */
module TicketLock {
  import opened Options

  const WRAP: nat := 0x1_0000_0000

  datatype Core =
    | Idle
    | Spinning(my: nat, ticket: nat)
    | Holding(my: nat, ticket: nat)
    | TriedOwner(cur: nat, servedThen: nat)
    | TriedNext(expected: nat, servedThen: nat)

  /** `queue[t]` is the core that took ticket t; `entered` lists the cores in the order in
      which they got the lock. */
  datatype Lock = Lock(
    next: nat,
    owner: nat,
    cores: seq<Core>,
    issued: nat,
    served: nat,
    queue: seq<nat>,
    entered: seq<nat>)

  datatype Action =
    | Take(core: nat)      // lock xadd on next
    | Look(core: nat)      // one read of owner in the spin loop
    | Release(core: nat)   // lock add on owner
    | TryOwner(core: nat)  // the first read of try_acquire
    | TryNext(core: nat)   // the second read
    | TryCas(core: nat)    // lock cmpxchg on next

  function Init(n: nat): Lock {
    Lock(0, 0, seq(n, _ => Idle), 0, 0, [], [])
  }

  /** Taking the ticket that `next` shows. */
  function Issue(s: Lock, c: nat, become: Core): Lock
    requires c < |s.cores|
  {
    s.(next := (s.next + 1) % 0x1_0000_0000, cores := s.cores[c := become], issued := s.issued + 1, queue := s.queue + [c])
  }

  /** One atomic step; None when the core is not at that point of its program. */
  function Step(s: Lock, a: Action): Option<Lock> {
    var c := a.core;
    if c >= |s.cores| then None
    else
      match (a, s.cores[c])
      case (Take(_), Idle) => Some(Issue(s, c, Spinning(s.next, s.issued)))
      case (Look(_), Spinning(my, ticket)) =>
        if s.owner == my then Some(s.(cores := s.cores[c := Holding(my, ticket)], entered := s.entered + [c]))
        else Some(s)
      case (Release(_), Holding(_, _)) =>
        Some(s.(owner := (s.owner + 1) % 0x1_0000_0000, cores := s.cores[c := Idle], served := s.served + 1))
      case (TryOwner(_), Idle) => Some(s.(cores := s.cores[c := TriedOwner(s.owner, s.served)]))
      case (TryNext(_), TriedOwner(cur, then_)) =>
        Some(s.(cores := s.cores[c := if cur == s.next then TriedNext(s.next, then_) else Idle]))
      case (TryCas(_), TriedNext(expected, _)) =>
        if s.next == expected
        then Some(Issue(s, c, Holding(expected, s.issued)).(entered := s.entered + [c]))
        else Some(s.(cores := s.cores[c := Idle]))
      case _ => None
  }

  predicate Enabled(s: Lock, a: Action) { Step(s, a).Some? }

  /** A try is prompt when, at its compare-and-swap, fewer than 2^32 tickets have been issued
      beyond those that were served at its first read: the tickets out then and the ones taken
      since. */
  predicate Prompt(s: Lock, a: Action) {
    a.TryCas? && a.core < |s.cores| && s.cores[a.core].TriedNext? ==>
      s.issued < s.cores[a.core].servedThen + WRAP
  }

  /** A run: enabled steps, every try prompt. */
  function After(s: Lock, actions: seq<Action>): Option<Lock> {
    if actions == [] then Some(s)
    else
      var before :- After(s, actions[..|actions| - 1]);
      if Prompt(before, actions[|actions| - 1]) then Step(before, actions[|actions| - 1]) else None
  }

  // ---- the invariant ----

  function TicketOf(core: Core): Option<nat> {
    if core.Spinning? || core.Holding? then Some(core.ticket) else None
  }

  function Outstanding(cores: seq<Core>): (n: nat)
    ensures n <= |cores|
  {
    if cores == [] then 0
    else Outstanding(cores[..|cores| - 1]) + if TicketOf(cores[|cores| - 1]).Some? then 1 else 0
  }

  /** What a core's own state says about the lock. */
  predicate CoreOk(s: Lock, c: nat)
    requires c < |s.cores|
  {
    match s.cores[c]
    case Idle => true
    case Spinning(my, t) => my == t % 0x1_0000_0000 && s.served <= t < s.issued && t < |s.queue| && s.queue[t] == c
    case Holding(my, t) =>
      my == t % 0x1_0000_0000 && s.served == t < s.issued && t < |s.queue| && s.queue[t] == c && |s.entered| == t + 1
    case TriedOwner(cur, then_) => then_ <= s.served && cur == then_ % 0x1_0000_0000
    case TriedNext(expected, then_) => then_ <= s.served && expected == then_ % 0x1_0000_0000
  }

  /** Every ticket in [served, issued) is out, at the core that took it. */
  predicate TicketOut(s: Lock, t: nat)
    requires t < |s.queue|
  {
    s.queue[t] < |s.cores| && TicketOf(s.cores[s.queue[t]]) == Some(t)
  }

  predicate Invariant(s: Lock) {
    && |s.cores| < WRAP
    && s.served <= s.issued == |s.queue| && s.next == s.issued % 0x1_0000_0000 && s.owner == s.served % 0x1_0000_0000
    && (forall c {:trigger CoreOk(s, c)} :: 0 <= c < |s.cores| ==> CoreOk(s, c))
    && (forall t {:trigger TicketOut(s, t)} :: s.served <= t < s.issued ==> TicketOut(s, t))
    && s.issued - s.served == Outstanding(s.cores)
    && s.served <= |s.entered| <= s.served + 1 && |s.entered| <= s.issued && s.entered == s.queue[..|s.entered|]
    && (|s.entered| == s.served + 1 ==> Busy(s))
  }

  /** The core whose turn it is has entered. */
  predicate Busy(s: Lock) {
    s.served < |s.queue| && s.queue[s.served] < |s.cores| && s.cores[s.queue[s.served]].Holding?
  }

  lemma {:induction false} OutstandingUpdate(cores: seq<Core>, c: nat, core: Core)
    requires c < |cores|
    ensures Outstanding(cores[c := core]) ==
      Outstanding(cores) - (if TicketOf(cores[c]).Some? then 1 else 0) + (if TicketOf(core).Some? then 1 else 0)
  {
    var n := |cores| - 1;
    var after := cores[c := core];
    if c < n {
      assert after[..n] == cores[..n][c := core];
      OutstandingUpdate(cores[..n], c, core);
    } else {
      assert after[..n] == cores[..n];
    }
  }

  lemma {:induction false} NoneOutstanding(n: nat)
    ensures Outstanding(seq(n, _ => Idle)) == 0
  {
    if n > 0 {
      assert seq(n, _ => Idle)[..n - 1] == seq(n - 1, _ => Idle);
      NoneOutstanding(n - 1);
    }
  }

  lemma {:induction false} InitOk(n: nat)
    requires n < WRAP
    ensures Invariant(Init(n))
  {
    NoneOutstanding(n);
  }

  /** Equal residues within one wrap are equal. */
  lemma {:induction false} SameWithinWrap(a: nat, b: nat)
    requires a <= b < a + WRAP && a % 0x1_0000_0000 == b % 0x1_0000_0000
    ensures a == b
  {
  }

  lemma {:induction false} NextResidue(a: nat)
    ensures (a % 0x1_0000_0000 + 1) % 0x1_0000_0000 == (a + 1) % 0x1_0000_0000
  {
  }

  // ---- every step keeps it ----

  lemma {:induction false} IssueKeeps(s: Lock, c: nat, become: Core, s1: Lock)
    requires Invariant(s) && c < |s.cores| && TicketOf(s.cores[c]).None? && TicketOf(become) == Some(s.issued)
    requires s1.cores == s.cores[c := become] && s1.queue == s.queue + [c] && s1.issued == s.issued + 1
    requires s1.served == s.served && (s1.entered == s.entered || s.served == s.issued)
    requires CoreOk(s1, c)
    ensures forall d {:trigger CoreOk(s1, d)} :: 0 <= d < |s1.cores| ==> CoreOk(s1, d)
    ensures forall t {:trigger TicketOut(s1, t)} :: s1.served <= t < s1.issued ==> TicketOut(s1, t)
    ensures s1.issued - s1.served == Outstanding(s1.cores)
  {
    OutstandingUpdate(s.cores, c, become);
    forall d | 0 <= d < |s1.cores| ensures CoreOk(s1, d) { assert CoreOk(s, d); }
    forall t | s1.served <= t < s1.issued ensures TicketOut(s1, t) {
      if t < s.issued { assert TicketOut(s, t); }
    }
  }

  lemma {:induction false} TakeKeeps(s: Lock, c: nat)
    requires Invariant(s) && c < |s.cores| && s.cores[c].Idle?
    ensures Invariant(Issue(s, c, Spinning(s.next, s.issued)))
  {
    var s1 := Issue(s, c, Spinning(s.next, s.issued));
    NextResidue(s.issued);
    IssueKeeps(s, c, s1.cores[c], s1);
    assert s1.entered == s1.queue[..|s1.entered|];
  }

  lemma {:induction false} CasKeeps(s: Lock, c: nat)
    requires Invariant(s) && c < |s.cores| && s.cores[c].TriedNext? && s.served == s.issued
    ensures Invariant(Issue(s, c, Holding(s.next, s.issued)).(entered := s.entered + [c]))
  {
    var s1 := Issue(s, c, Holding(s.next, s.issued)).(entered := s.entered + [c]);
    assert s.queue[..|s.entered|] == s.queue;
    NextResidue(s.issued);
    IssueKeeps(s, c, s1.cores[c], s1);
    assert s1.entered == s1.queue[..|s1.entered|];
  }

  lemma {:induction false} LookKeeps(s: Lock, c: nat)
    requires Invariant(s) && c < |s.cores| && s.cores[c].Spinning? && s.owner == s.cores[c].my
    ensures Invariant(s.(cores := s.cores[c := Holding(s.cores[c].my, s.cores[c].ticket)], entered := s.entered + [c]))
  {
    var t := s.cores[c].ticket;
    assert CoreOk(s, c);
    SameWithinWrap(s.served, t);
    var s1 := s.(cores := s.cores[c := Holding(s.cores[c].my, t)], entered := s.entered + [c]);
    OutstandingUpdate(s.cores, c, s1.cores[c]);
    assert |s.entered| == s.served;
    forall d | 0 <= d < |s1.cores| ensures CoreOk(s1, d) { assert CoreOk(s, d); }
    forall u | s1.served <= u < s1.issued ensures TicketOut(s1, u) { assert TicketOut(s, u); }
  }

  lemma {:induction false} ReleaseKeeps(s: Lock, c: nat)
    requires Invariant(s) && c < |s.cores| && s.cores[c].Holding?
    ensures Invariant(s.(owner := (s.owner + 1) % 0x1_0000_0000, cores := s.cores[c := Idle], served := s.served + 1))
  {
    var s1 := s.(owner := (s.owner + 1) % 0x1_0000_0000, cores := s.cores[c := Idle], served := s.served + 1);
    assert CoreOk(s, c);
    NextResidue(s.served);
    OutstandingUpdate(s.cores, c, Idle);
    forall d | 0 <= d < |s1.cores| ensures CoreOk(s1, d) { assert CoreOk(s, d); }
    forall t | s1.served <= t < s1.issued ensures TicketOut(s1, t) { assert TicketOut(s, t); }
  }

  /** Steps that only change where a core without a ticket is in its program. */
  lemma {:induction false} MoveKeeps(s: Lock, c: nat, core: Core)
    requires Invariant(s) && c < |s.cores| && TicketOf(s.cores[c]).None? && TicketOf(core).None?
    requires CoreOk(s.(cores := s.cores[c := core]), c)
    ensures Invariant(s.(cores := s.cores[c := core]))
  {
    var s1 := s.(cores := s.cores[c := core]);
    OutstandingUpdate(s.cores, c, core);
    forall d | 0 <= d < |s1.cores| ensures CoreOk(s1, d) { assert CoreOk(s, d); }
    forall t | s1.served <= t < s1.issued ensures TicketOut(s1, t) { assert TicketOut(s, t); }
  }

  lemma {:induction false} StepKeeps(s: Lock, a: Action)
    requires Invariant(s) && Enabled(s, a) && Prompt(s, a)
    ensures Invariant(Step(s, a).value)
  {
    var c := a.core;
    assert CoreOk(s, c);
    match a
    case Take(_) => TakeKeeps(s, c);
    case Look(_) => if s.owner == s.cores[c].my { LookKeeps(s, c); }
    case Release(_) => ReleaseKeeps(s, c);
    case TryOwner(_) => MoveKeeps(s, c, TriedOwner(s.owner, s.served));
    case TryNext(_) =>
      MoveKeeps(s, c, if s.cores[c].cur == s.next then TriedNext(s.next, s.cores[c].servedThen) else Idle);
    case TryCas(_) =>
      if s.next == s.cores[c].expected {
        SameWithinWrap(s.cores[c].servedThen, s.issued);
        CasKeeps(s, c);
      } else {
        MoveKeeps(s, c, Idle);
      }
  }

  /** Every state of every run of fewer than 2^32 cores satisfies the invariant. */
  lemma {:induction false} AlwaysOk(n: nat, actions: seq<Action>)
    requires n < WRAP && After(Init(n), actions).Some?
    ensures Invariant(After(Init(n), actions).value) && |After(Init(n), actions).value.cores| == n
  {
    if actions == [] {
      InitOk(n);
    } else {
      var front := actions[..|actions| - 1];
      AlwaysOk(n, front);
      StepKeeps(After(Init(n), front).value, actions[|actions| - 1]);
    }
  }

  // ---- what it means ----

  /** At most one core holds the lock. */
  lemma {:induction false} MutualExclusion(s: Lock, a: nat, b: nat)
    requires Invariant(s) && a < |s.cores| && b < |s.cores| && s.cores[a].Holding? && s.cores[b].Holding?
    ensures a == b
  {
    assert CoreOk(s, a) && CoreOk(s, b);
  }

  /** The tickets out are exactly those in [served, issued), one core each; modulo 2^32
      that is [owner, next). */
  lemma {:induction false} TicketsFill(s: Lock, t: nat)
    requires Invariant(s)
    ensures (s.served <= t < s.issued) <==> exists c :: 0 <= c < |s.cores| && TicketOf(s.cores[c]) == Some(t)
    ensures forall c, d ::
      (0 <= c < |s.cores| && 0 <= d < |s.cores| && TicketOf(s.cores[c]) == Some(t) == TicketOf(s.cores[d])) ==> c == d
  {
    if s.served <= t < s.issued { assert TicketOut(s, t); }
    forall c | 0 <= c < |s.cores| && TicketOf(s.cores[c]) == Some(t)
      ensures s.served <= t < s.issued && s.queue[t] == c
    {
      assert CoreOk(s, c);
    }
  }

  /** In every run cores get the lock in the order in which they took their tickets, and
      everyone who took one of the first `served` tickets got it. */
  lemma {:induction false} FirstComeFirstServed(n: nat, actions: seq<Action>)
    requires n < WRAP && After(Init(n), actions).Some?
    ensures var s := After(Init(n), actions).value; s.entered <= s.queue && s.served <= |s.entered| <= s.served + 1
  {
    AlwaysOk(n, actions);
  }

  /** A compare-and-swap that succeeds found the lock free: the core holds it alone. */
  lemma {:induction false} TryReallyHolds(s: Lock, c: nat)
    requires Invariant(s) && c < |s.cores| && s.cores[c].TriedNext? && Prompt(s, TryCas(c))
    requires s.next == s.cores[c].expected
    ensures s.served == s.issued && forall d :: 0 <= d < |s.cores| ==> TicketOf(s.cores[d]).None?
    ensures var s1 := Step(s, TryCas(c)).value; s1.cores[c].Holding? && s1.owner == s1.cores[c].my
  {
    assert CoreOk(s, c);
    SameWithinWrap(s.cores[c].servedThen, s.issued);
    forall d | 0 <= d < |s.cores| ensures TicketOf(s.cores[d]).None? { assert CoreOk(s, d); }
  }

  /** Releasing hands the lock to the next ticket in line: that core, and no other, leaves
      its spin loop at its next read. */
  lemma {:induction false} HandOver(s: Lock, c: nat, d: nat)
    requires Invariant(s) && c < |s.cores| && s.cores[c].Holding?
    requires d < |s.cores| && s.cores[d].Spinning?
    ensures var s1 := Step(s, Release(c)).value;
      s1.cores[d].Spinning? && (s1.owner == s1.cores[d].my <==> s.cores[d].ticket == s.served + 1)
  {
    assert CoreOk(s, c) && CoreOk(s, d);
    ReleaseKeeps(s, c);
    var s1 := Step(s, Release(c)).value;
    if s1.owner == s1.cores[d].my { SameWithinWrap(s1.served, s.cores[d].ticket); }
  }

  /** When anyone waits and nobody holds the lock, the first in line can take it. */
  lemma {:induction false} NeverStuck(s: Lock)
    requires Invariant(s) && s.served < s.issued && forall c :: 0 <= c < |s.cores| ==> !s.cores[c].Holding?
    ensures var c := s.queue[s.served];
      c < |s.cores| && s.cores[c].Spinning? && Step(s, Look(c)).Some? && Step(s, Look(c)).value.cores[c].Holding?
  {
    assert TicketOut(s, s.served);
    assert CoreOk(s, s.queue[s.served]);
  }

  // ---- without promptness ----

  /** Steps in any order, prompt or not. */
  function AfterAny(s: Lock, actions: seq<Action>): Option<Lock> {
    if actions == [] then Some(s)
    else
      var before :- AfterAny(s, actions[..|actions| - 1]);
      Step(before, actions[|actions| - 1])
  }

  lemma {:induction false} AfterOne(s: Lock, actions: seq<Action>, mid: Lock, a: Action)
    requires AfterAny(s, actions) == Some(mid)
    ensures AfterAny(s, actions + [a]) == Step(mid, a)
  {
    assert (actions + [a])[..|actions|] == actions;
  }

  /** Core 0 starts a try on a free lock; then core 1 takes and releases the lock k times. */
  function Stall(k: nat): seq<Action> {
    if k == 0 then [TryOwner(0), TryNext(0)] else Stall(k - 1) + [Take(1)] + [Look(1)] + [Release(1)]
  }

  predicate Stalled(s: Lock, k: nat) {
    && s.cores == [TriedNext(0, 0), Idle] && s.issued == k == s.served && s.next == k % 0x1_0000_0000 == s.owner
  }

  lemma {:induction false} StallStarts()
    ensures AfterAny(Init(2), Stall(0)).Some? && Stalled(AfterAny(Init(2), Stall(0)).value, 0)
  {
    var s := Init(2);
    assert s.cores == [Idle, Idle];
    AfterOne(s, [], s, TryOwner(0));
    var s1 := Step(s, TryOwner(0)).value;
    assert s1.cores == [TriedOwner(0, 0), Idle];
    AfterOne(s, [TryOwner(0)], s1, TryNext(0));
    assert [] + [TryOwner(0)] == [TryOwner(0)] && [TryOwner(0)] + [TryNext(0)] == Stall(0);
  }

  lemma {:induction false} StallRound(s: Lock, k: nat) returns (s1: Lock, s2: Lock)
    requires Stalled(s, k)
    ensures Step(s, Take(1)) == Some(s1) && Step(s1, Look(1)) == Some(s2) && s2.cores == [TriedNext(0, 0), Holding(k % 0x1_0000_0000, k)]
    ensures s2.next == (k + 1) % 0x1_0000_0000
    ensures Step(s2, Release(1)).Some? && Stalled(Step(s2, Release(1)).value, k + 1)
  {
    NextResidue(k);
    s1 := Step(s, Take(1)).value;
    s2 := Step(s1, Look(1)).value;
  }

  lemma {:induction false} StallRuns(k: nat)
    ensures AfterAny(Init(2), Stall(k)).Some? && Stalled(AfterAny(Init(2), Stall(k)).value, k)
  {
    if k == 0 {
      StallStarts();
    } else {
      StallRuns(k - 1);
      var acts := Stall(k - 1);
      var s := AfterAny(Init(2), acts).value;
      var s1, s2 := StallRound(s, k - 1);
      AfterOne(Init(2), acts, s, Take(1));
      AfterOne(Init(2), acts + [Take(1)], s1, Look(1));
      AfterOne(Init(2), acts + [Take(1)] + [Look(1)], s2, Release(1));
    }
  }

  /** So after 2^32 tickets a stalled try succeeds although another core holds the lock. */
  lemma {:induction false} LateTryBreaksExclusion()
    ensures var actions := Stall(WRAP - 1) + [Take(1)] + [Look(1)] + [TryCas(0)];
      var r := AfterAny(Init(2), actions);
      r.Some? && |r.value.cores| == 2 && r.value.cores[0].Holding? && r.value.cores[1].Holding?
  {
    var acts := Stall(WRAP - 1);
    StallRuns(WRAP - 1);
    var s := AfterAny(Init(2), acts).value;
    var s1, s2 := StallRound(s, WRAP - 1);
    AfterOne(Init(2), acts, s, Take(1));
    AfterOne(Init(2), acts + [Take(1)], s1, Look(1));
    AfterOne(Init(2), acts + [Take(1)] + [Look(1)], s2, TryCas(0));
  }

  predicate Exclusive(s: Lock) {
    forall a, b :: (0 <= a < |s.cores| && 0 <= b < |s.cores| && s.cores[a].Holding? && s.cores[b].Holding?) ==> a == b
  }

  /** Whatever prompt steps follow, at most one core holds the lock. */
  ghost predicate StaysExclusive(s: Lock) {
    forall actions: seq<Action> :: After(s, actions).Some? ==> Exclusive(After(s, actions).value)
  }

  lemma {:induction false} InvariantLasts(s: Lock, actions: seq<Action>)
    requires Invariant(s) && After(s, actions).Some?
    ensures Invariant(After(s, actions).value)
  {
    if actions != [] {
      var front := actions[..|actions| - 1];
      InvariantLasts(s, front);
      StepKeeps(After(s, front).value, actions[|actions| - 1]);
    }
  }

  /** The counters agree exactly when no ticket is out. */
  lemma {:induction false} FreeIff(s: Lock)
    requires Invariant(s)
    ensures s.owner == s.next <==> s.issued == s.served
  {
    if s.owner == s.next { SameWithinWrap(s.served, s.issued); }
  }

  /** Exactly when a successful try is right: from then on at most one core ever holds the lock
      if and only if `owner` still equals `next` at the compare-and-swap; that is always so when
      the try is prompt. */
  lemma {:induction false} TrySoundIff(s: Lock, c: nat)
    requires Invariant(s) && c < |s.cores| && s.cores[c].TriedNext? && s.next == s.cores[c].expected
    ensures StaysExclusive(Step(s, TryCas(c)).value) <==> s.owner == s.next
    ensures Prompt(s, TryCas(c)) ==> s.owner == s.next
  {
    var s1 := Step(s, TryCas(c)).value;
    assert CoreOk(s, c);
    FreeIff(s);
    if s.owner == s.next {
      CasKeeps(s, c);
      forall actions: seq<Action> | After(s1, actions).Some? ensures Exclusive(After(s1, actions).value) {
        InvariantLasts(s1, actions);
        OnlyOne(After(s1, actions).value);
      }
    } else {
      TwoHolders(s, c);
    }
    if Prompt(s, TryCas(c)) { SameWithinWrap(s.cores[c].servedThen, s.issued); }
  }

  lemma {:induction false} OnlyOne(s: Lock)
    requires Invariant(s)
    ensures Exclusive(s)
  {
    forall a, b | 0 <= a < |s.cores| && 0 <= b < |s.cores| && s.cores[a].Holding? && s.cores[b].Holding? ensures a == b {
      MutualExclusion(s, a, b);
    }
  }

  /** With a ticket out, its core holds the lock already or does at its next look. */
  lemma {:induction false} TwoHolders(s: Lock, c: nat)
    requires Invariant(s) && c < |s.cores| && s.cores[c].TriedNext? && s.next == s.cores[c].expected && s.issued != s.served
    ensures !StaysExclusive(Step(s, TryCas(c)).value)
  {
    var s1 := Step(s, TryCas(c)).value;
    assert TicketOut(s, s.served);
    var d := s.queue[s.served];
    assert CoreOk(s, d);
    if s.cores[d].Holding? {
      assert After(s1, []) == Some(s1);
      assert s1.cores[c].Holding? && s1.cores[d].Holding?;
    } else {
      var s2 := Step(s1, Look(d)).value;
      assert After(s1, []) == Some(s1) && [Look(d)][..0] == [];
      assert After(s1, [Look(d)]) == Some(s2);
      assert s2.cores[c].Holding? && s2.cores[d].Holding?;
    }
  }
}
