/**
 A task that is cancelled while its recovery runs may still be resumed by the worker. What
 decides is what the worker's collaborators promise: here it is shown exactly which promises
 confine such a resume to corrections that were complete before the cancellation.
 */
module LateResumes {
  import opened Wrappers
  import Arbiter
  import opened RecoveryWorker

  /** What may be promised about all answers of a run. */
  datatype Promises = Promises(interface: bool, available: bool, settles: bool)

  /** The correction interface is there; it never answers "unavailable"; no hand-off comes late. */
  ghost predicate Keeps(world: World, p: Promises) {
    && (p.interface ==> forall n :: world(n).callable)
    && (p.available ==> forall n :: !world(n).unavailable)
    && (p.settles ==> forall n :: Punctual(world(n)))
  }

  predicate Punctual(a: Answer) {
    a.progressiveEnd != Raised(LateHandoff) && a.localEnd != Raised(LateHandoff) && a.globalEnd != Raised(LateHandoff) &&
    a.gateEnd != Raised(LateHandoff) && a.correction != Raised(LateHandoff) && a.recovery != Raised(LateHandoff)
  }

  const ALL := Promises(true, true, true)

  /** The resume at i rests on a correction that a poll found completed, no later than the cancellation at c. */
  predicate TimelyAt(log: seq<Event>, c: nat, i: nat)
    requires i < |log|
  {
    || (i >= 1 && log[i - 1] == Corrected(Completed) && i - 1 <= c)
    || (i >= 2 && log[i - 1].Gate? && log[i - 2] == Corrected(Completed) && i - 2 <= c)
  }

  /** So does every resume at or after a cancellation. */
  ghost predicate Timely(s: State) {
    s.cancelledAt.Some? ==>
      forall i :: 0 <= i < |s.log| && s.cancelledAt.value <= i && s.log[i].Resumed? ==> TimelyAt(s.log, s.cancelledAt.value, i)
  }

  // ---- with all promises kept --------------------------------------------------------------------------

  /** Neither an unpolled correction nor a late hand-off. */
  predicate Unusual(e: Event) {
    e == Corrected(NoInterface) || e == Corrected(NdtUnavailable) || e.HandoffFailed?
  }

  ghost predicate Clean(s: State) {
    forall i :: 0 <= i < |s.log| ==> !Unusual(s.log[i])
  }

  lemma CorrectIsClean(s: State, world: World)
    requires Good(s) && Clean(s) && Keeps(world, ALL)
    ensures Clean(Correct(s, world).0) && Correct(s, world).2 != Raised(LateHandoff)
  {
    hide Good, Ask, Poll;
    var a := world(s.at);
    if a.accepted && a.correction.Success? {
      PollIsPunctual(Ask(s, world), world, a.polls);
    }
  }

  lemma {:induction false} PollIsPunctual(s: State, world: World, rounds: nat)
    requires Good(s) && Keeps(world, ALL)
    ensures Poll(s, world, rounds).2 != Raised(LateHandoff)
    decreases rounds
  {
    hide Good, Ask;
    if rounds > 0 {
      var s1 := Ask(s, world);
      if !Cancelled(s1) {
        PollIsPunctual(Ask(s1, world), world, rounds - 1);
      }
    }
  }

  lemma RecoveredIsClean(s: State, world: World)
    requires Good(s) && Clean(s) && Keeps(world, ALL) && Justified(s.log + [Resumed], |s.log|)
    ensures Clean(HandleRecovered(s, world).0) && HandleRecovered(s, world).1 != Raised(LateHandoff)
  {
    hide Good, Ask, Justified;
  }

  lemma GateIsClean(s: State, world: World, kind: Search)
    requires Good(s) && Clean(s) && Keeps(world, ALL)
    requires |s.log| >= 2 && s.log[|s.log| - 1].Corrected? && s.log[|s.log| - 2] == Searched(kind)
    ensures Clean(PassGate(s, world, kind).0) && PassGate(s, world, kind).1 != Raised(LateHandoff)
  {
    hide Good, Ask, Justified;
  }

  lemma SearchIsClean(s: State, world: World, kind: Search)
    requires Good(s) && Clean(s) && Keeps(world, ALL) && Permitted(Tried(kind, Read(s)))
    ensures Clean(SearchAndResume(s, world, kind).0) && SearchAndResume(s, world, kind).1 != Raised(LateHandoff)
  {
    hide Good, Ask, Justified, CorrectAndResume, Keeps;
    var tried := Note(s, Tried(kind, Read(s)));
    Answered(world, s.at);
    if SearchEnd(world(s.at), kind).Success? {
      CorrectingIsClean(Note(Ask(tried, world), Searched(kind)), world, kind);
    }
  }

  lemma CorrectingIsClean(s: State, world: World, kind: Search)
    requires Good(s) && Clean(s) && Keeps(world, ALL) && s.log != [] && s.log[|s.log| - 1] == Searched(kind)
    ensures Clean(CorrectAndResume(s, world, kind).0) && CorrectAndResume(s, world, kind).1 != Raised(LateHandoff)
  {
    hide Good, Ask, Justified, Correct, PassGate, HandleRecovered, Keeps, Clean;
    CorrectIsClean(s, world);
    var (s2, done, end) := Correct(s, world);
    if end.Success? && done {
      GateIsClean(s2, world, kind);
      var (s3, gate) := PassGate(s2, world, kind);
      if gate.Success? {
        RecoveredIsClean(s3, world);
      }
    }
  }

  lemma Answered(world: World, n: nat)
    requires Keeps(world, ALL)
    ensures Punctual(world(n)) && world(n).callable && !world(n).unavailable
  {
  }

  lemma {:induction false} SeedsAreClean(s: State, world: World, seeds: nat)
    requires Good(s) && Clean(s) && Keeps(world, ALL)
    ensures Clean(TrySeeds(s, world, seeds).0)
    decreases seeds
  {
    hide Good, Ask, SearchAndResume, WaitForHandoff, Keeps;
    if seeds > 0 {
      var s1 := Ask(s, world);
      if !Cancelled(s1) && !s1.operatorActive {
        SearchIsClean(s1, world, Local);
        var s2 := SearchAndResume(s1, world, Local).0;
        SeedsAreClean(Ask(s2, world), world, seeds - 1);
      }
    }
  }

  lemma EscalationIsClean(s: State, world: World)
    requires Good(s) && Clean(s) && !Found(s) && Keeps(world, ALL)
    ensures Clean(Escalate(s, world).0)
  {
    hide Good, Ask, SearchAndResume, Keeps;
    var s1 := Ask(s, world);
    if !Ask(s1, world).operatorActive {
      SearchIsClean(Ask(s1, world), world, Global);
    }
  }

  lemma PassIsClean(s: State, world: World, cycle: nat, maxCycles: nat)
    requires Good(s) && Clean(s) && !Found(s) && Keeps(world, ALL)
    ensures Clean(Pass(s, world, cycle, maxCycles).0)
  {
    hide Good, Ask, SearchAndResume, AfterProgressive, Keeps;
    var s1 := Ask(s, world);
    SearchIsClean(s1, world, Progressive);
    var s2 := SearchAndResume(s1, world, Progressive).0;
    AfterIsClean(s1, world, cycle, maxCycles);
    AfterIsClean(Ask(s2, world), world, cycle, maxCycles);
  }

  lemma AfterIsClean(s: State, world: World, cycle: nat, maxCycles: nat)
    requires Good(s) && Clean(s) && !Found(s) && Keeps(world, ALL)
    ensures Clean(AfterProgressive(s, world, cycle, maxCycles).0)
  {
    hide Good, Ask, TrySeeds, Escalate, EndPass, Keeps;
    var a, s1 := world(s.at), Ask(s, world);
    EndIsClean(s1, world, cycle, maxCycles);
    SeedsAreClean(s1, world, a.seeds);
    var s2 := TrySeeds(s1, world, a.seeds).0;
    EndIsClean(s2, world, cycle, maxCycles);
    EscalationIsClean(s2, world);
    var (s3, e) := Escalate(s2, world);
    if e.None? {
      EndIsClean(s3, world, cycle, maxCycles);
    }
  }

  lemma EndIsClean(s: State, world: World, cycle: nat, maxCycles: nat)
    requires Good(s) && Clean(s) && !Found(s)
    ensures Clean(EndPass(s, world, cycle, maxCycles).0)
  {
    hide Good, Ask;
  }

  lemma {:induction false} LoopIsClean(s: State, world: World, cycle: nat, maxCycles: nat, lifetime: nat)
    requires Good(s) && Clean(s) && Continuing(cycle, maxCycles) && Keeps(world, ALL)
    ensures Clean(Loop(s, world, cycle, maxCycles, lifetime))
    decreases Left(cycle, maxCycles, lifetime)
  {
    hide Good, Ask, Pass, Keeps;
    var (s1, go) := Head(s, world, cycle);
    if go {
      var s2 := Begin(s1, cycle + 1);
      PassIsClean(s2, world, cycle + 1, maxCycles);
    }
    var p := Turnaround(s, world, cycle, maxCycles, lifetime);
    if p.1 {
      LoopIsClean(p.0, world, cycle + 1, maxCycles, lifetime);
    }
  }

  lemma RunIsClean(s: State, world: World, configured: int, lifetime: nat)
    requires Good(s) && s.log == [] && Keeps(world, ALL)
    ensures Clean(Recovered(s, world, configured, lifetime))
  {
    hide Good, Ask, Loop, Keeps;
    var (s1, go) := Enter(s, world);
    if go {
      LoopIsClean(s1, world, 0, Maximum(configured), lifetime);
    }
  }

  /** With an interface that is there and available and hand-offs in time, resumes after a cancellation are timely. */
  lemma PromisesMakeTimely(s: State, world: World, configured: int, lifetime: nat)
    requires Good(s) && s.log == [] && Keeps(world, ALL)
    ensures Timely(Recovered(s, world, configured, lifetime))
  {
    hide Good, Recovered, Keeps, Cycles;
    RunIsClean(s, world, configured, lifetime);
    RecoveryGuarantees(s, world, configured, lifetime);
    var r := Recovered(s, world, configured, lifetime);
    CleanIsTimely(r);
  }

  lemma OnlyCompleted(e: Event)
    ensures !Unusual(e) && e.Corrected? ==> e == Corrected(Completed)
  {
    if e.Corrected? {
      match e.how
      case NoInterface =>
      case NdtUnavailable =>
      case Completed =>
    }
  }

  lemma CleanIsTimely(r: State)
    requires Clean(r) && Safe(r.log) && Obedient(r.log, r.cancelledAt)
    ensures Timely(r)
  {
    if r.cancelledAt.Some? {
      forall i | 0 <= i < |r.log| && r.cancelledAt.value <= i && r.log[i].Resumed?
        ensures TimelyAt(r.log, r.cancelledAt.value, i)
      {
        assert Justified(r.log, i);
        OnlyCompleted(r.log[i - 1]);
        OnlyCompleted(r.log[i - 2]);
      }
    }
  }

  // ---- each promise broken alone -------------------------------------------------------------------------

  /** One seed whose search succeeds; its correction has no interface, or one that is unavailable. */
  function Easy(callable: bool, cancels: nat): Answer {
    PLAIN.(turn := Turn(cancels, false, true, false, []), callable := callable, unavailable := callable)
  }

  /** The task is cancelled while the first search runs, that is, before its seventh question is answered. */
  ghost predicate CancelsSearch(world: World, callable: bool) {
    forall n :: world(n) == Easy(callable, if n == 6 then 1 else 0)
  }

  lemma AskCancels(s: State, world: World)
    requires Good(s) && Calm(s) && world(s.at).turn == Turn(1, false, true, false, [])
    ensures Good(Ask(s, world)) && Ask(s, world) == s.(at := s.at + 1, generation := s.generation + 1, cancelledAt := Some(|s.log|))
  {
  }

  lemma AskLate(s: State, world: World)
    requires Good(s) && Cancelled(s) && s.paused && !s.operatorActive && world(s.at).turn == CALM
    ensures Good(Ask(s, world)) && Ask(s, world) == s.(at := s.at + 1)
  {
  }

  /** The search that was cancelled goes on to its resume. */
  lemma CancelledSearchResumes(s: State, world: World, callable: bool)
    requires Good(s) && Calm(s) && s.at == 6 && CancelsSearch(world, callable)
    ensures var (r, end) := SearchAndResume(s, world, Local);
            && end == Success && r.cancelledAt == Some(|s.log| + 1)
            && r.log == s.log + [Tried(Local, CLEAR), Searched(Local), Corrected(if callable then NdtUnavailable else NoInterface), Resumed]
  {
    hide Good, Ask, Follows, CorrectAndResume;
    var tried := Note(s, Tried(Local, CLEAR));
    AskCancels(tried, world);
    var s1 := Note(Ask(tried, world), Searched(Local));
    LateCorrectionResumes(s1, world, callable);
  }

  lemma LateCorrectionResumes(s: State, world: World, callable: bool)
    requires Good(s) && Cancelled(s) && s.paused && !s.operatorActive && s.at == 7 && CancelsSearch(world, callable)
    requires s.log != [] && s.log[|s.log| - 1] == Searched(Local)
    ensures var (r, end) := CorrectAndResume(s, world, Local);
            && end == Success && r.cancelledAt == s.cancelledAt
            && r.log == s.log + [Corrected(if callable then NdtUnavailable else NoInterface), Resumed]
  {
    hide Good, Ask, Follows, HandleRecovered;
    AskLate(s, world);
    var how := Corrected(if callable then NdtUnavailable else NoInterface);
    var s2 := Note(s.(at := 8), how);
    assert Correct(s, world) == (s2, true, Success);
    assert Justified(s2.log + [Resumed], |s2.log|);
    LateResume(s2, world);
  }

  lemma LateResume(s: State, world: World)
    requires Good(s) && Cancelled(s) && s.paused && !s.operatorActive && Justified(s.log + [Resumed], |s.log|)
    requires world(s.at).turn == CALM && world(s.at + 1).turn == CALM && world(s.at).activated
    requires world(s.at).recovery == Success && world(s.at + 1).recovery == Success
    ensures var (r, end) := HandleRecovered(s, world);
            end == Success && r.cancelledAt == s.cancelledAt && r.log == s.log + [Resumed]
  {
    hide Good, Ask, Follows, Justified;
    AskLate(s, world);
    var s1 := Note(s.(at := s.at + 1), Resumed);
    AskLate(s1, world);
  }

  /** Five calm answers bring a new worker to its first seed. */
  ghost predicate CalmToSeeds(world: World) {
    forall n :: 0 <= n < 5 ==> world(n).turn == CALM && !world(n).fails && !world(n).progressive && world(n).seeds == 1
  }

  /** The worker before its first seed, with the lease just granted. */
  function AtSeeds(lease: Arbiter.Lease, budget: Arbiter.Budget): (s: State)
    requires lease.generation >= 0
    ensures Good(s) && Calm(s) && !Found(s) && s.at == 5 && s.log == [CycleStarted(1)]
  {
    Begin(Started(lease, budget), 1).(at := 5)
  }

  lemma ReachesSeeds(lease: Arbiter.Lease, budget: Arbiter.Budget, lifetime: nat, world: World)
    requires lease.generation >= 0 && CalmToSeeds(world)
    ensures var seeds := TrySeeds(AtSeeds(lease, budget), world, 1);
            seeds.1 == Some(Stop) ==> Worked(Started(lease, budget), world, 1, lifetime) == seeds.0
  {
    hide Good, Ask, Follows, TrySeeds, Escalate, EndPass;
    var s := Started(lease, budget);
    AskCalm(s, world);
    var s1 := s.(at := 1);
    AskCalm(s1, world);
    AskCalm(s1.(at := 2), world);
    assert Head(s1, world, 0) == (s1.(at := 3), true);
    var s2 := Begin(s1.(at := 3), 1);
    AskCalm(s2, world);
    AskCalm(s2.(at := 4), world);
    assert s2.(at := 5) == AtSeeds(lease, budget);
    var seeds := TrySeeds(AtSeeds(lease, budget), world, 1);
    if seeds.1 == Some(Stop) {
      assert Pass(s2, world, 1, 1) == (seeds.0, Stop);
    }
  }

  /** Without polling a cancelled worker still resumes the task: no interface, or NDT unavailable. */
  lemma CancelledStillResumes(lease: Arbiter.Lease, budget: Arbiter.Budget, lifetime: nat, world: World, callable: bool)
    requires lease.generation >= 0 && CancelsSearch(world, callable)
    ensures var r := Recovered(Started(lease, budget), world, 1, lifetime);
            && r.cancelledAt == Some(2)
            && r.log == [CycleStarted(1), Tried(Local, CLEAR), Searched(Local), Corrected(if callable then NdtUnavailable else NoInterface), Resumed]
  {
    hide Good, Ask, Follows, SearchAndResume, Worked;
    ReachesSeeds(lease, budget, lifetime, world);
    var s := AtSeeds(lease, budget);
    AskCalm(s, world);
    CancelledSearchResumes(s.(at := 6), world, callable);
    FinalAsk(TrySeeds(s, world, 1).0, world);
  }

  lemma FinalAsk(s: State, world: World)
    requires Good(s) && s.cancelledAt.Some?
    ensures Ask(s, world).log == s.log && Ask(s, world).cancelledAt == s.cancelledAt
  {
  }

  /** One seed whose hand-off comes late and settles in the first round of waiting. */
  function LateSeed(cancels: nat): Answer {
    PLAIN.(turn := Turn(cancels, false, true, false, []), localEnd := Raised(LateHandoff), callable := true, polls := 1, stable := true)
  }

  /** The worker has been cancelled; the task is still paused and nobody else at work. */
  const LATE := Reading(true, false, true)

  ghost predicate CancelsHandoff(world: World) {
    forall n :: world(n) == LateSeed(if n == 6 then 1 else 0)
  }

  lemma CancelledWaitResumes(s: State, world: World)
    requires Good(s) && Cancelled(s) && s.paused && !s.operatorActive && s.at > 6 && CancelsHandoff(world)
    requires s.log != [] && s.log[|s.log| - 1].HandoffFailed?
    ensures var (r, over) := WaitForHandoff(s, world, 1);
            over && r.cancelledAt == s.cancelledAt && r.log == s.log + [AbsoluteStable(LATE), Resumed]
  {
    hide Good, Ask, Follows;
    AskLate(s, world);
    var s1 := Note(s.(at := s.at + 1), AbsoluteStable(LATE));
    AskLate(s1, world);
    var s2 := Note(s1.(at := s1.at + 1), Resumed);
    AskLate(s2, world);
  }

  lemma CancelledHandoffResumes(s: State, world: World)
    requires Good(s) && Calm(s) && s.at == 5 && CancelsHandoff(world)
    ensures var (r, d) := TrySeeds(s, world, 1);
            d == Some(Stop) && r.cancelledAt == Some(|s.log| + 1) && r.log == s.log + [Tried(Local, CLEAR), HandoffFailed, AbsoluteStable(LATE), Resumed]
  {
    hide Good, Ask, Follows, WaitForHandoff;
    AskCalm(s, world);
    var s1 := s.(at := 6);
    var tried := Note(s1, Tried(Local, CLEAR));
    AskCancels(tried, world);
    var s2 := Ask(tried, world);
    assert SearchAndResume(s1, world, Local) == (s2, Raised(LateHandoff));
    AskLate(s2, world);
    var s3 := Note(Ask(s2, world), HandoffFailed);
    CancelledWaitResumes(s3, world);
  }

  /** Waiting for a late hand-off checks no cancellation either. */
  lemma CancelledHandoffStillResumes(lease: Arbiter.Lease, budget: Arbiter.Budget, lifetime: nat, world: World)
    requires lease.generation >= 0 && CancelsHandoff(world)
    ensures var r := Recovered(Started(lease, budget), world, 1, lifetime);
            r.cancelledAt == Some(2) && r.log == [CycleStarted(1), Tried(Local, CLEAR), HandoffFailed, AbsoluteStable(LATE), Resumed]
  {
    hide Good, Ask, Follows, TrySeeds, Worked;
    ReachesSeeds(lease, budget, lifetime, world);
    CancelledHandoffResumes(AtSeeds(lease, budget), world);
    FinalAsk(TrySeeds(AtSeeds(lease, budget), world, 1).0, world);
  }

  // ---- exactly which promises are needed -------------------------------------------------------------------

  ghost predicate Confined(p: Promises, s: State, world: World, configured: int, lifetime: nat) {
    Good(s) && s.log == [] && Keeps(world, p) ==> Timely(Recovered(s, world, configured, lifetime))
  }

  /** Every run of every worker whose collaborators keep the promises resumes in time only. */
  ghost predicate Suffices(p: Promises) {
    forall s: State, world: World, configured: int, lifetime: nat :: Confined(p, s, world, configured, lifetime)
  }

  const LEASE := Arbiter.Lease("EDGE_LOCALIZATION", 1, "localization_lost", 0.0)

  lemma InterfaceIsNeeded(p: Promises, callable: bool, world: World)
    requires (if callable then !p.available else !p.interface) && CancelsSearch(world, callable)
    ensures !Suffices(p)
  {
    hide Good, Recovered, Started;
    var s := Started(LEASE, Arbiter.FULL);
    CancelledStillResumes(LEASE, Arbiter.FULL, 0, world, callable);
    var r := Recovered(s, world, 1, 0);
    assert r.log[4] == Resumed && !TimelyAt(r.log, 2, 4);
    assert !Timely(r);
    assert Good(s) && s.log == [] && Keeps(world, p);
    assert !Confined(p, s, world, 1, 0);
  }

  lemma SettlingIsNeeded(p: Promises, world: World)
    requires !p.settles && CancelsHandoff(world)
    ensures !Suffices(p)
  {
    hide Good, Recovered, Started;
    var s := Started(LEASE, Arbiter.FULL);
    CancelledHandoffStillResumes(LEASE, Arbiter.FULL, 0, world);
    var r := Recovered(s, world, 1, 0);
    assert r.log[4] == Resumed && !TimelyAt(r.log, 2, 4);
    assert !Timely(r);
    assert Good(s) && s.log == [] && Keeps(world, p);
    assert !Confined(p, s, world, 1, 0);
  }

  /**
   A cancelled task is resumed only on a correction that was complete by then if and only if
   the correction interface is there, never answers "unavailable", and hand-offs settle in
   time. Each of the three is needed: without it some run resumes on something else.
   */
  lemma LateResumesTimelyIff(p: Promises)
    ensures Suffices(p) <==> p.interface && p.available && p.settles
  {
    hide Good, Recovered, Timely;
    if p == ALL {
      forall s: State, world: World, configured: int, lifetime: nat ensures Confined(p, s, world, configured, lifetime) {
        if Good(s) && s.log == [] && Keeps(world, p) {
          PromisesMakeTimely(s, world, configured, lifetime);
        }
      }
    } else if !p.interface {
      InterfaceIsNeeded(p, false, (n: nat) => Easy(false, if n == 6 then 1 else 0));
    } else if !p.available {
      InterfaceIsNeeded(p, true, (n: nat) => Easy(true, if n == 6 then 1 else 0));
    } else {
      SettlingIsNeeded(p, (n: nat) => LateSeed(if n == 6 then 1 else 0));
    }
  }

  // ---- and a timely one happens -----------------------------------------------------------------------------

  /** One seed whose correction is found completed by the first poll. */
  function Polled(cancels: nat): Answer {
    PLAIN.(turn := Turn(cancels, false, true, false, []), callable := true, accepted := true, polls := 1, completed := true)
  }

  /** The task is cancelled while the poll reads the status. */
  ghost predicate CancelsPoll(world: World) {
    forall n :: world(n) == Polled(if n == 9 then 1 else 0)
  }

  lemma CancelledPollCompletes(s: State, world: World)
    requires Good(s) && Calm(s) && s.at == 7 && CancelsPoll(world)
    ensures var (r, done, end) := Correct(s, world);
            && done && end == Success && r.log == s.log + [Corrected(Completed)] && r.cancelledAt == Some(|s.log|)
            && r.at == 10 && Good(r) && Cancelled(r) && r.paused && !r.operatorActive
  {
    hide Good, Ask, Follows;
    AskCalm(s, world);
    var s1 := s.(at := 8);
    AskCalm(s1, world);
    var s2 := s1.(at := 9);
    AskCancels(s2, world);
  }

  lemma CancelledPollResumes(s: State, world: World)
    requires Good(s) && Calm(s) && s.at == 6 && CancelsPoll(world)
    ensures var (r, end) := SearchAndResume(s, world, Local);
            && end == Success && r.cancelledAt == Some(|s.log| + 2)
            && r.log == s.log + [Tried(Local, CLEAR), Searched(Local), Corrected(Completed), Resumed]
  {
    hide Good, Ask, Follows, CorrectAndResume;
    var tried := Note(s, Tried(Local, CLEAR));
    AskCalm(tried, world);
    var s1 := Note(tried.(at := 7), Searched(Local));
    PolledResumes(s1, world);
  }

  lemma PolledResumes(s: State, world: World)
    requires Good(s) && Calm(s) && s.at == 7 && CancelsPoll(world) && s.log != [] && s.log[|s.log| - 1] == Searched(Local)
    ensures var (r, end) := CorrectAndResume(s, world, Local);
            end == Success && r.cancelledAt == Some(|s.log|) && r.log == s.log + [Corrected(Completed), Resumed]
  {
    hide Good, Ask, Follows, Correct, HandleRecovered;
    CancelledPollCompletes(s, world);
    var s2 := Correct(s, world).0;
    assert Justified(s2.log + [Resumed], |s2.log|);
    LateResume(s2, world);
  }

  /** All promises kept, cancelled during the last poll: the task is resumed all the same. */
  lemma CompletedStillResumes(lease: Arbiter.Lease, budget: Arbiter.Budget, lifetime: nat, world: World)
    requires lease.generation >= 0 && CancelsPoll(world)
    ensures Keeps(world, ALL)
    ensures var r := Recovered(Started(lease, budget), world, 1, lifetime);
            r.cancelledAt == Some(3) && r.log == [CycleStarted(1), Tried(Local, CLEAR), Searched(Local), Corrected(Completed), Resumed]
  {
    hide Good, Ask, Follows, SearchAndResume, Worked;
    ReachesSeeds(lease, budget, lifetime, world);
    var s := AtSeeds(lease, budget);
    AskCalm(s, world);
    CancelledPollResumes(s.(at := 6), world);
    FinalAsk(TrySeeds(s, world, 1).0, world);
  }
}
