/** Single-owner arbitration of recovery actions: one lease, growing generations, a finite budget. */
module Arbiter {
  import opened Wrappers

  datatype Lease = Lease(owner: string, generation: int, reason: string, startedAt: real)

  datatype Budget = Budget(attempts: nat, startedAt: Option<real>, distance: real)

  const MAX_ATTEMPTS := 10
  const MAX_DURATION := 180.0
  const MAX_DISTANCE := 1.2

  const FULL := Budget(0, None, 0.0)

  predicate Exhausted(b: Budget, now: real) {
    b.attempts >= MAX_ATTEMPTS ||
    (b.startedAt.Some? && now - b.startedAt.value >= MAX_DURATION) ||
    b.distance >= MAX_DISTANCE
  }

  function RecordAttempt(b: Budget, distance: real, now: real): Budget {
    Budget(b.attempts + 1, Some(if b.startedAt.Some? then b.startedAt.value else now),
           b.distance + if distance > 0.0 then distance else 0.0)
  }

  datatype State = State(generation: int, lease: Option<Lease>, budget: Budget)

  datatype Op =
    | Acquire(owner: string, reason: string, distance: real, now: real)
    | Release(lease: Option<Lease>)
    | ReleaseGeneration(holder: string, generation: int)
    | ForceRelease
    | ResetBudget

  predicate Grants(s: State, op: Op) {
    op.Acquire? && s.lease.None? && !Exhausted(s.budget, op.now)
  }

  function Granted(s: State, op: Op): Lease
    requires op.Acquire?
  {
    Lease(op.owner, s.generation + 1, op.reason, op.now)
  }

  function Step(s: State, op: Op): State {
    match op
    case Acquire(owner, reason, distance, now) =>
      if Grants(s, op) then State(s.generation + 1, Some(Granted(s, op)), RecordAttempt(s.budget, distance, now)) else s
    case Release(l) => if l.Some? && s.lease == l then s.(lease := None) else s
    case ReleaseGeneration(owner, generation) =>
      if s.lease.Some? && s.lease.value.owner == owner && s.lease.value.generation == generation then s.(lease := None) else s
    case ForceRelease => s.(lease := None)
    case ResetBudget => s.(budget := FULL)
  }

  function Run(s: State, ops: seq<Op>): State {
    if ops == [] then s else Step(Run(s, ops[..|ops| - 1]), ops[|ops| - 1])
  }

  /** The leases handed out during a run, in order. */
  function Leases(s: State, ops: seq<Op>): seq<Lease> {
    if ops == [] then []
    else
      var before, op := Run(s, ops[..|ops| - 1]), ops[|ops| - 1];
      Leases(s, ops[..|ops| - 1]) + if Grants(before, op) then [Granted(before, op)] else []
  }

  /** The object, one method per critical section. */
  class RecoveryArbiter {
    var generation: int
    var lease: Option<Lease>
    var budget: Budget

    ghost function Contents(): State
      reads this
    {
      State(generation, lease, budget)
    }

    constructor ()
      ensures Contents() == State(0, None, FULL)
    {
      generation, lease, budget := 0, None, FULL;
    }

    method TryAcquire(owner: string, reason: string, distance: real, now: real) returns (r: Option<Lease>)
      modifies this
      ensures var op := Acquire(owner, reason, distance, now);
              && Contents() == Step(old(Contents()), op)
              && r == if Grants(old(Contents()), op) then Some(Granted(old(Contents()), op)) else None
    {
      if lease.Some? || Exhausted(budget, now) {
        return None;
      }
      budget := RecordAttempt(budget, distance, now);
      generation := generation + 1;
      lease := Some(Lease(owner, generation, reason, now));
      return lease;
    }

    method TryRelease(l: Option<Lease>) returns (released: bool)
      modifies this`lease
      ensures Contents() == Step(old(Contents()), Release(l)) && released == (l.Some? && old(lease) == l)
    {
      if l.None? || lease != l {
        return false;
      }
      lease := None;
      return true;
    }

    method TryReleaseGeneration(owner: string, g: int) returns (released: bool)
      modifies this`lease
      ensures Contents() == Step(old(Contents()), ReleaseGeneration(owner, g))
      ensures released == (old(lease).Some? && old(lease).value.owner == owner && old(lease).value.generation == g)
    {
      if lease.None? || lease.value.owner != owner || lease.value.generation != g {
        return false;
      }
      lease := None;
      return true;
    }

    method Force()
      modifies this`lease
      ensures Contents() == Step(old(Contents()), ForceRelease)
    {
      lease := None;
    }

    method Reset()
      modifies this`budget
      ensures Contents() == Step(old(Contents()), ResetBudget)
    {
      budget := FULL;
    }
  }

  // ---- properties of every run ----------------------------------------------------------------------

  /** Generations only grow, they number the leases, and a live lease is always the newest one. */
  ghost predicate Ordered(s: State, ops: seq<Op>) {
    var ls, s' := Leases(s, ops), Run(s, ops);
    && s'.generation == s.generation + |ls|
    && (forall i :: 0 <= i < |ls| ==> ls[i].generation == s.generation + i + 1)
    && (s'.lease.Some? ==> (ls == [] && s'.lease == s.lease) || (ls != [] && s'.lease.value == ls[|ls| - 1]))
  }

  lemma {:induction false} RunsAreOrdered(s: State, ops: seq<Op>)
    ensures Ordered(s, ops)
  {
    if ops != [] {
      RunsAreOrdered(s, ops[..|ops| - 1]);
    }
  }

  lemma GenerationsIncrease(s: State, ops: seq<Op>, i: nat, j: nat)
    requires i < j < |Leases(s, ops)|
    ensures Leases(s, ops)[i].generation < Leases(s, ops)[j].generation
  {
    RunsAreOrdered(s, ops);
  }

  /** After any run, releasing any grant but the newest, by value or by generation, changes nothing. */
  lemma StaleReleaseIsHarmless(s: State, ops: seq<Op>, i: nat)
    requires i + 1 < |Leases(s, ops)|
    ensures var l := Leases(s, ops)[i];
            Step(Run(s, ops), Release(Some(l))) == Run(s, ops) &&
            Step(Run(s, ops), ReleaseGeneration(l.owner, l.generation)) == Run(s, ops)
  {
    RunsAreOrdered(s, ops);
  }

  predicate Frees(op: Op) {
    op.Release? || op.ReleaseGeneration? || op.ForceRelease?
  }

  lemma {:induction false} HeldUntilFreed(s: State, ops: seq<Op>)
    requires s.lease.Some? && forall k :: 0 <= k < |ops| ==> !Frees(ops[k])
    ensures Run(s, ops).lease == s.lease && Leases(s, ops) == []
  {
    if ops != [] {
      HeldUntilFreed(s, ops[..|ops| - 1]);
    }
  }

  lemma {:induction false} RunSplit(s: State, a: seq<Op>, b: seq<Op>)
    ensures Run(s, a + b) == Run(Run(s, a), b) && Leases(s, a + b) == Leases(s, a) + Leases(Run(s, a), b)
    decreases |b|
  {
    if b == [] {
      assert a + b == a;
    } else {
      var init := b[..|b| - 1];
      assert (a + b)[..|a + b| - 1] == a + init;
      RunSplit(s, a, init);
    }
  }

  /** Leases never overlap: between two granting operations of a run some operation gave the first lease up. */
  lemma LeasesAreDisjoint(s: State, ops: seq<Op>, i: nat, j: nat)
    requires i < j < |ops| && Grants(Run(s, ops[..i]), ops[i]) && Grants(Run(s, ops[..j]), ops[j])
    ensures exists k :: i < k < j && Frees(ops[k])
  {
    var upTo := Run(s, ops[..i + 1]);
    assert ops[..i + 1][..i] == ops[..i];
    var between := ops[i + 1..j];
    assert ops[..j] == ops[..i + 1] + between;
    RunSplit(s, ops[..i + 1], between);
    if forall k :: 0 <= k < |between| ==> !Frees(between[k]) {
      HeldUntilFreed(upTo, between);
    } else {
      var k :| 0 <= k < |between| && Frees(between[k]);
      assert Frees(ops[i + 1 + k]);
    }
  }

  /** Between two budget resets at most MAX_ATTEMPTS leases are granted. */
  lemma {:induction false} BudgetBoundsLeases(s: State, ops: seq<Op>)
    requires s.budget.attempts <= MAX_ATTEMPTS && forall k :: 0 <= k < |ops| ==> !ops[k].ResetBudget?
    ensures |Leases(s, ops)| == Run(s, ops).budget.attempts - s.budget.attempts
    ensures Run(s, ops).budget.attempts <= MAX_ATTEMPTS
  {
    if ops != [] {
      BudgetBoundsLeases(s, ops[..|ops| - 1]);
    }
  }

  /** Once exhausted, with a clock that does not run backwards, nothing is granted until a reset. */
  lemma {:induction false} ExhaustionPersists(s: State, ops: seq<Op>, t: real, later: real)
    requires Exhausted(s.budget, t) && t <= later
    requires forall k :: 0 <= k < |ops| ==> !ops[k].ResetBudget? && (ops[k].Acquire? ==> ops[k].now >= t)
    ensures Leases(s, ops) == [] && Run(s, ops).budget == s.budget && Exhausted(Run(s, ops).budget, later)
  {
    if ops != [] {
      ExhaustionPersists(s, ops[..|ops| - 1], t, later);
    }
  }

  // ---- the budget, from the leases alone ------------------------------------------------------------------

  /** The operation at the end of a run was a grant. */
  predicate LastGranted(s: State, ops: seq<Op>)
    requires ops != []
  {
    |Leases(s, ops)| > |Leases(s, ops[..|ops| - 1])|
  }

  /** Distance asked for by the leases granted so far; a negative wish counts as none. */
  function Travelled(s: State, ops: seq<Op>): real {
    if ops == [] then 0.0
    else
      var op := ops[|ops| - 1];
      Travelled(s, ops[..|ops| - 1]) + if LastGranted(s, ops) && op.Acquire? && op.distance > 0.0 then op.distance else 0.0
  }

  function FirstStart(s: State, ops: seq<Op>): Option<real> {
    var ls := Leases(s, ops);
    if ls == [] then None else Some(ls[0].startedAt)
  }

  lemma {:induction false} BudgetIs(s: State, ops: seq<Op>)
    requires s.budget == FULL && forall k :: 0 <= k < |ops| ==> !ops[k].ResetBudget?
    ensures Run(s, ops).budget == Budget(|Leases(s, ops)|, FirstStart(s, ops), Travelled(s, ops))
  {
    if ops != [] {
      var init, op := ops[..|ops| - 1], ops[|ops| - 1];
      BudgetIs(s, init);
      var before := Run(s, init);
      if Grants(before, op) {
        assert Leases(s, ops) == Leases(s, init) + [Granted(before, op)];
      } else {
        assert Leases(s, ops) == Leases(s, init);
      }
    }
  }

  /**
   Exactly when recovery is granted since the last reset: no lease is live, fewer than ten were
   granted, less than 180 s have passed since the first one began, and less than 1.2 m were
   asked for in all.
   */
  lemma GrantsIff(s: State, ops: seq<Op>, op: Op)
    requires s.budget == FULL && op.Acquire? && forall k :: 0 <= k < |ops| ==> !ops[k].ResetBudget?
    ensures Grants(Run(s, ops), op) <==>
              && Run(s, ops).lease == None && |Leases(s, ops)| < 10 && Travelled(s, ops) < 1.2
              && (FirstStart(s, ops).Some? ==> op.now - FirstStart(s, ops).value < 180.0)
  {
    hide Run, Leases, Travelled, FirstStart;
    BudgetIs(s, ops);
  }

  /** A lease carries what was asked for. */
  lemma LeaseNames(s: State, ops: seq<Op>)
    requires ops != [] && LastGranted(s, ops)
    ensures var op, l := ops[|ops| - 1], Leases(s, ops)[|Leases(s, ops)| - 1];
            && op.Acquire? && l.owner == op.owner && l.reason == op.reason && l.startedAt == op.now
            && Run(s, ops).lease == Some(l)
  {
  }

  // ---- giving a lease back ---------------------------------------------------------------------------------

  /** A live lease ends exactly when it is given back itself, by its owner and generation, or by force. */
  lemma ReleasedIff(s: State, op: Op)
    requires s.lease.Some?
    ensures Step(s, op).lease.None? <==>
              || op == ForceRelease || op == Release(s.lease)
              || op == ReleaseGeneration(s.lease.value.owner, s.lease.value.generation)
    ensures Step(s, op).lease.Some? ==> Step(s, op).lease == s.lease
  {
  }

  /** Whatever happened before, a lease given back and a reset budget let the next request through. */
  lemma RenewedGrants(s: State, ops: seq<Op>, back: Op, op: Op)
    requires op.Acquire?
    requires var l := Run(s, ops).lease;
             l.None? || back == ForceRelease || back == Release(l) || back == ReleaseGeneration(l.value.owner, l.value.generation)
    requires !back.Acquire?
    ensures |Leases(s, ops + [back, ResetBudget, op])| == |Leases(s, ops)| + 1
    ensures |Leases(s, ops + [ResetBudget, back, op])| == |Leases(s, ops)| + 1
  {
    hide Run, Leases;
    RunSplit(s, ops, [back, ResetBudget, op]);
    RunSplit(s, ops, [ResetBudget, back, op]);
    Renewed(Run(s, ops), back, ResetBudget, op);
    Renewed(Run(s, ops), ResetBudget, back, op);
  }

  lemma Renewed(s: State, first: Op, second: Op, op: Op)
    requires op.Acquire? && !first.Acquire? && !second.Acquire? && (first == ResetBudget || second == ResetBudget)
    requires s.lease.None? || Step(s, first).lease.None? || (first == ResetBudget && Step(s, second).lease.None?)
    ensures |Leases(s, [first, second, op])| == 1
  {
    hide Run, Leases;
    assert [first, second, op] == [first] + [second] + [op];
    RunSplit(s, [first] + [second], [op]);
    RunSplit(s, [first], [second]);
    RunOne(s, first);
    RunOne(Run(s, [first]), second);
    RunOne(Run(s, [first] + [second]), op);
  }

  lemma RunOne(s: State, op: Op)
    ensures Run(s, [op]) == Step(s, op) && Leases(s, [op]) == if Grants(s, op) then [Granted(s, op)] else []
  {
    assert [op][..0] == [];
  }
}
