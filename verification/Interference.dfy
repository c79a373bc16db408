/**
 What makes the recovery worker break off: an operator, a task that is no longer paused, a
 search that was superseded, a final gate that refuses, and a late hand-off that never settles.
 Everything here is stated on the answers and the final log.
 */
module Interference {
  import opened Wrappers
  import Arbiter
  import opened RecoveryWorker
  import opened Progress

  // ---- before the first cycle ----------------------------------------------------------------------------

  /** An operator at work, a cancellation or an error before the first cycle: nothing is done at all. */
  lemma NothingIsDone(s: State, world: World, configured: int, lifetime: nat)
    requires Good(s) && s.log == []
    requires var a := world(s.at);
             Cancelled(s) || a.turn.operatorActive || a.turn.cancels > 0 || a.turn.stop || a.fails
    ensures Recovered(s, world, configured, lifetime).log == []
  {
    hide Loop, Follows, Arbiter.Run;
    var a, s1 := world(s.at), Ask(s, world);
    assert s1.generation == s.generation + a.turn.cancels && s.generation >= s.mine;
    assert !Enter(s, world).1;
  }

  // ---- a task that is no longer paused --------------------------------------------------------------------

  ghost predicate Unpaused(world: World) {
    forall n :: !world(n).turn.paused
  }

  /** Neither a seed nor a global search nor a safe hold. */
  predicate Narrow(e: Event) {
    !(e.Tried? && e.kind != Progressive) && !e.SafeHold?
  }

  ghost predicate AllNarrow(s: State) {
    forall i :: 0 <= i < |s.log| ==> Narrow(s.log[i])
  }

  lemma NarrowAgain(s: State, r: State, e: Event)
    requires AllNarrow(s) && Narrow(e) && (r.log == s.log || r.log == s.log + [e])
    ensures AllNarrow(r)
  {
  }

  lemma RecoveredIsNarrow(s: State, world: World)
    requires Good(s) && AllNarrow(s) && Justified(s.log + [Resumed], |s.log|)
    ensures AllNarrow(HandleRecovered(s, world).0)
  {
    hide Good, Justified, AllNarrow;
    ResumedIff(s, world);
    NarrowAgain(s, HandleRecovered(s, world).0, Resumed);
  }

  lemma CorrectIsNarrow(s: State, world: World)
    requires Good(s) && AllNarrow(s)
    ensures AllNarrow(Correct(s, world).0)
  {
    hide Good, Ask, Poll, AllNarrow;
    var (r, done, end) := Correct(s, world);
    if done && end.Success? {
      var how :| r.log == s.log + [Corrected(how)];
      NarrowAgain(s, r, Corrected(how));
    } else {
      NarrowAgain(s, r, Resumed);
    }
  }

  lemma GateIsNarrow(s: State, world: World, kind: Search)
    requires Good(s) && AllNarrow(s)
    requires |s.log| >= 2 && s.log[|s.log| - 1].Corrected? && s.log[|s.log| - 2] == Searched(kind)
    ensures AllNarrow(PassGate(s, world, kind).0)
  {
    hide Good, Ask, AllNarrow, Justified;
    var a := world(s.at);
    NarrowAgain(s, PassGate(s, world, kind).0, Gate(a.gate, a.passed));
  }

  lemma CorrectingIsNarrow(s: State, world: World, kind: Search)
    requires Good(s) && AllNarrow(s) && s.log != [] && s.log[|s.log| - 1] == Searched(kind)
    ensures AllNarrow(CorrectAndResume(s, world, kind).0)
  {
    hide Good, Ask, AllNarrow, Justified, Correct, PassGate, HandleRecovered;
    CorrectIsNarrow(s, world);
    var (s1, done, end) := Correct(s, world);
    if end.Success? && done {
      GateIsNarrow(s1, world, kind);
      var (s2, gate) := PassGate(s1, world, kind);
      if gate.Success? {
        RecoveredIsNarrow(s2, world);
      }
    }
  }

  lemma ProgressiveIsNarrow(s: State, world: World)
    requires Good(s) && AllNarrow(s)
    ensures AllNarrow(SearchAndResume(s, world, Progressive).0)
  {
    hide Good, Ask, AllNarrow, CorrectAndResume;
    var tried := Note(s, Tried(Progressive, Read(s)));
    NarrowAgain(s, tried, Tried(Progressive, Read(s)));
    var s1 := Ask(tried, world);
    NarrowAgain(tried, s1, Resumed);
    if SearchEnd(world(tried.at), Progressive).Success? {
      var s2 := Note(s1, Searched(Progressive));
      NarrowAgain(s1, s2, Searched(Progressive));
      CorrectingIsNarrow(s2, world, Progressive);
    }
  }

  lemma UnpausedAsk(s: State, world: World)
    requires Good(s) && Unpaused(world)
    ensures !Ask(s, world).paused && Ask(s, world).log == s.log
  {
  }

  /** With its task no longer paused a pass comes to no seed. */
  lemma UnpausedAfter(s: State, world: World, cycle: nat, maxCycles: nat)
    requires Good(s) && !RecoveryWorker.Found(s) && AllNarrow(s) && Unpaused(world) && forall n :: world(n).hasTask
    ensures AllNarrow(AfterProgressive(s, world, cycle, maxCycles).0)
  {
    hide Good, Ask, AllNarrow, TrySeeds, Escalate;
    UnpausedAsk(s, world);
    var a, s1 := world(s.at), Ask(s, world);
    assert a.hasTask;
    NarrowAgain(s, s1, Resumed);
    UnpausedAsk(s1, world);
    NarrowAgain(s1, Ask(s1, world), Resumed);
  }

  lemma UnpausedPass(s: State, world: World, cycle: nat, maxCycles: nat)
    requires Good(s) && !RecoveryWorker.Found(s) && AllNarrow(s) && Unpaused(world) && forall n :: world(n).hasTask
    ensures AllNarrow(Pass(s, world, cycle, maxCycles).0)
  {
    hide Good, Ask, AllNarrow, SearchAndResume, AfterProgressive;
    var s1 := Ask(s, world);
    NarrowAgain(s, s1, Resumed);
    UnpausedAfter(s1, world, cycle, maxCycles);
    ProgressiveIsNarrow(s1, world);
    var s2 := SearchAndResume(s1, world, Progressive).0;
    var s3 := Ask(s2, world);
    NarrowAgain(s2, s3, Resumed);
    UnpausedAfter(s3, world, cycle, maxCycles);
  }

  /** The loop head starts no second cycle. */
  lemma UnpausedHead(s: State, world: World, cycle: nat, maxCycles: nat, lifetime: nat)
    requires Good(s) && Unpaused(world) && cycle > 0 && Continuing(cycle, maxCycles)
    ensures Loop(s, world, cycle, maxCycles, lifetime).log == s.log
  {
    hide Good, Ask, Round;
    UnpausedAsk(s, world);
  }

  lemma UnpausedTurn(s: State, world: World, maxCycles: nat, lifetime: nat)
    requires Good(s) && s.log == [] && Unpaused(world)
    ensures var r := Turnaround(s, world, 0, maxCycles, lifetime).0;
            Cycles(r.log) <= 1 && ((forall n :: world(n).hasTask) ==> AllNarrow(r))
  {
    hide Good, Ask, Pass, Unpaused;
    var (h, go) := Head(s, world, 0);
    if go && (forall n :: world(n).hasTask) {
      assert AllNarrow(Begin(h, 1));
      UnpausedPass(Begin(h, 1), world, 1, maxCycles);
    }
  }

  /**
   A worker whose task is no longer paused makes at most the cycle it has begun, and while there
   is a task it searches neither from a seed nor globally and holds nothing.
   */
  lemma UnpausedEnds(s: State, world: World, configured: int, lifetime: nat)
    requires Good(s) && s.log == [] && Unpaused(world)
    ensures var log := Recovered(s, world, configured, lifetime).log;
            && Cycles(log) <= 1
            && ((forall n :: world(n).hasTask) ==>
                  forall i :: 0 <= i < |log| ==> !log[i].SafeHold? && (log[i].Tried? ==> log[i].kind == Progressive))
  {
    hide Good, Ask, Turnaround, Loop, Unpaused;
    var (s1, go) := Enter(s, world);
    var maximum := Maximum(configured);
    if go {
      UnpausedTurn(s1, world, maximum, lifetime);
      var (r, again) := Turnaround(s1, world, 0, maximum, lifetime);
      LoopOnce(s1, world, 0, maximum, lifetime);
      if again {
        UnpausedHead(r, world, 1, maximum, lifetime);
      }
    }
  }

  // ---- a search that was superseded -------------------------------------------------------------------------

  lemma SearchSuperseded(s: State, world: World, kind: Search)
    requires Good(s) && Calm(s) && SteadyWorld(world) && SearchEnd(world(s.at), kind) == Raised(Superseded)
    ensures var (r, end) := SearchAndResume(s, world, kind);
            end == Raised(Superseded) && Good(r) && Calm(r) && r.log == s.log + [Tried(kind, CLEAR)]
  {
    hide Good, Ask, Follows;
    CalmNote(s, Tried(kind, CLEAR));
    AskSteady(Note(s, Tried(kind, CLEAR)), world);
  }

  /** A progressive search that was superseded is the last thing the worker does. */
  lemma SupersededProgressiveEnds(s: State, world: World, configured: int, lifetime: nat)
    requires Good(s) && s.log == [] && !Cancelled(s) && SteadyWorld(world) && (configured > 0 || lifetime > 0)
    requires forall n :: world(n).progressive && world(n).progressiveEnd == Raised(Superseded)
    ensures Recovered(s, world, configured, lifetime).log == [CycleStarted(1), Tried(Progressive, CLEAR)]
  {
    hide Good, Ask, Follows, SearchAndResume, AfterProgressive, Recovered;
    var p := FirstPassBegins(s, world, configured, lifetime);
    assert Steady(world(p.at)) && world(p.at).progressive;
    AskSteady(p, world);
    var s1 := Ask(p, world);
    assert world(s1.at).progressiveEnd == Raised(Superseded);
    SearchSuperseded(s1, world, Progressive);
    AskSteady(SearchAndResume(s1, world, Progressive).0, world);
  }

  lemma {:induction false} SupersededSeed(s: State, world: World, seeds: nat, k: nat)
    requires Good(s) && Calm(s) && SteadyWorld(world) && k < seeds && SeedsFail(world, s.at, k)
    requires world(SeedQuestion(s.at, k)).localEnd == Raised(Superseded)
    ensures var (r, d) := TrySeeds(s, world, seeds);
            d == Some(Stop) && r.log == s.log + Seeds(k) + [Tried(Local, CLEAR)]
    decreases k
  {
    hide Good, Ask, Follows, TrySeeds, Seeds, Calm;
    if k == 0 {
      NoSeeds();
      FirstSeedSuperseded(s, world, seeds);
    } else {
      assert world(SeedQuestion(s.at, 0)).localEnd == Raised(OtherError);
      var next := OneSeedFails(s, world, seeds);
      forall j | 0 <= j < k - 1 ensures world(SeedQuestion(next.at, j)).localEnd == Raised(OtherError) {
        assert SeedQuestion(next.at, j) == SeedQuestion(s.at, j + 1);
      }
      assert SeedQuestion(next.at, k - 1) == SeedQuestion(s.at, k);
      SupersededSeed(next, world, seeds - 1, k - 1);
      SeedsSnoc(k - 1);
      assert s.log + [Tried(Local, CLEAR)] + Seeds(k - 1) == s.log + Seeds(k);
    }
  }

  lemma FirstSeedSuperseded(s: State, world: World, seeds: nat)
    requires Good(s) && Calm(s) && SteadyWorld(world) && seeds >= 1 && world(SeedQuestion(s.at, 0)).localEnd == Raised(Superseded)
    ensures var (r, d) := TrySeeds(s, world, seeds); d == Some(Stop) && r.log == s.log + [Tried(Local, CLEAR)]
  {
    hide Good, Ask, Follows, SearchAndResume;
    assert Steady(world(s.at));
    AskSteady(s, world);
    var s1 := Ask(s, world);
    SearchSuperseded(s1, world, Local);
    AskSteady(SearchAndResume(s1, world, Local).0, world);
  }

  /** So is a search from a seed, whatever seeds are left: no escalation, no other cycle, no safe hold. */
  lemma SupersededSeedEnds(s: State, world: World, configured: int, lifetime: nat, progressive: bool, seeds: nat, k: nat)
    requires Good(s) && s.log == [] && !Cancelled(s) && SteadyWorld(world) && (configured > 0 || lifetime > 0)
    requires Means(world, progressive, seeds) && k < seeds && SeedsFail(world, s.at + 3 + Lead(progressive), k)
    requires world(SeedQuestion(s.at + 3 + Lead(progressive), k)).localEnd == Raised(Superseded)
    ensures Recovered(s, world, configured, lifetime).log ==
            [CycleStarted(1)] + Opening(progressive) + Seeds(k) + [Tried(Local, CLEAR)]
  {
    hide Good, Ask, Follows, TrySeeds, Pass, Seeds, Recovered, Escalate, EndPass;
    var p := FirstPassBegins(s, world, configured, lifetime);
    var at := PassReachesSeeds(p, world, 1, Maximum(configured), progressive, seeds);
    SupersededSeed(at, world, seeds, k);
  }

  // ---- a gate that refuses -----------------------------------------------------------------------------------

  /** The progressive search works and is corrected, but its final gate refuses; local searches work. */
  ghost predicate Refusing(world: World, seeds: nat) {
    forall n ::
      && world(n).progressive && world(n).progressiveEnd == Success && world(n).gate && !world(n).passed
      && world(n).gateEnd.Success? && world(n).localEnd == Success && world(n).seeds == seeds
  }

  lemma GateRefuses(s: State, world: World, seeds: nat)
    requires Good(s) && Calm(s) && SteadyWorld(world) && Refusing(world, seeds)
    requires |s.log| >= 2 && s.log[|s.log| - 1].Corrected? && s.log[|s.log| - 2] == Searched(Progressive)
    ensures var (r, end) := PassGate(s, world, Progressive);
            end == Raised(OtherError) && Good(r) && Calm(r) && r.log == s.log + [Gate(true, false)]
  {
    hide Good, Ask, Follows, Justified;
    AskSteady(s, world);
    assert world(s.at).gate;
    CalmNote(Ask(s, world), Gate(true, false));
  }

  lemma RefusedCorrecting(s: State, world: World, seeds: nat, how: Correction)
    requires Good(s) && Calm(s) && SteadyWorld(world) && StandsFrom(world, how, 0) && Refusing(world, seeds)
    requires s.log != [] && s.log[|s.log| - 1] == Searched(Progressive)
    ensures var (r, end) := CorrectAndResume(s, world, Progressive);
            end == Raised(OtherError) && Good(r) && Calm(r) && r.log == s.log + [Corrected(how), Gate(true, false)]
  {
    hide Good, Ask, Follows, Correct, PassGate, HandleRecovered, Justified;
    CorrectionStands(s, world, how, 0);
    GateRefuses(Correct(s, world).0, world, seeds);
  }

  lemma RefusedSearch(s: State, world: World, seeds: nat, how: Correction)
    requires Good(s) && Calm(s) && SteadyWorld(world) && StandsFrom(world, how, 0) && Refusing(world, seeds)
    ensures var (r, end) := SearchAndResume(s, world, Progressive);
            && end == Raised(OtherError) && Good(r) && Calm(r)
            && r.log == s.log + [Tried(Progressive, CLEAR), Searched(Progressive), Corrected(how), Gate(true, false)]
  {
    hide Good, Ask, Follows, CorrectAndResume;
    CalmNote(s, Tried(Progressive, CLEAR));
    var tried := Note(s, Tried(Progressive, CLEAR));
    assert world(s.at).progressiveEnd == Success;
    AskSteady(tried, world);
    CalmNote(Ask(tried, world), Searched(Progressive));
    RefusedCorrecting(Note(Ask(tried, world), Searched(Progressive)), world, seeds, how);
  }

  /** A refusing final gate keeps the task paused until a search from a seed has worked. */
  lemma RefusedGateFallsBack(s: State, world: World, configured: int, lifetime: nat, seeds: nat, how: Correction, gated: bool)
    requires Good(s) && s.log == [] && !Cancelled(s) && SteadyWorld(world) && (configured > 0 || lifetime > 0)
    requires StandsFrom(world, how, 0) && Refusing(world, seeds) && seeds >= 1
    ensures Recovered(s, world, configured, lifetime).log ==
            [CycleStarted(1), Tried(Progressive, CLEAR), Searched(Progressive), Corrected(how), Gate(true, false)] + Healed(Local, how, gated)
  {
    hide Good, Ask, Follows, Recovered, Pass, Healed;
    var p := FirstPassBegins(s, world, configured, lifetime);
    RefusedPass(p, world, Maximum(configured), seeds, how, gated);
  }

  lemma RefusedPass(s: State, world: World, maxCycles: nat, seeds: nat, how: Correction, gated: bool)
    requires Good(s) && Calm(s) && !RecoveryWorker.Found(s) && SteadyWorld(world)
    requires StandsFrom(world, how, 0) && Refusing(world, seeds) && seeds >= 1
    ensures var (r, d) := Pass(s, world, 1, maxCycles);
            && d == Stop
            && r.log == s.log + [Tried(Progressive, CLEAR), Searched(Progressive), Corrected(how), Gate(true, false)] + Healed(Local, how, gated)
  {
    hide Good, Ask, Follows, SearchAndResume, TrySeeds, Escalate, EndPass, Healed;
    assert Steady(world(s.at)) && world(s.at).progressive;
    AskSteady(s, world);
    var s1 := Ask(s, world);
    RefusedSearch(s1, world, seeds, how);
    var s2 := SearchAndResume(s1, world, Progressive).0;
    assert Steady(world(s2.at));
    AskSteady(s2, world);
    var s3 := Ask(s2, world);
    assert world(s3.at).seeds == seeds;
    AskSteady(s3, world);
    var s4 := Ask(s3, world);
    assert world(SeedQuestion(s4.at, 0)).localEnd == Success;
    FirstSeedWorks(s4, world, seeds, how, gated);
  }

  // ---- a late hand-off that never settles ---------------------------------------------------------------------

  ghost predicate Unsettled(world: World) {
    forall n :: world(n).localEnd == Raised(LateHandoff) && !world(n).stable && !(world(n).laser && world(n).found)
  }

  lemma {:induction false} WaitInVain(s: State, world: World, rounds: nat)
    requires Good(s) && Calm(s) && SteadyWorld(world) && Unsettled(world) && s.log != [] && s.log[|s.log| - 1].HandoffFailed?
    ensures var (r, over) := WaitForHandoff(s, world, rounds); !over && Good(r) && Calm(r) && r.log == s.log
    decreases rounds
  {
    hide Good, Ask, Follows, ResumeStable;
    if rounds > 0 {
      assert Steady(world(s.at)) && !world(s.at).stable;
      AskSteady(s, world);
      WaitInVain(Ask(s, world), world, rounds - 1);
    }
  }

  lemma LateSearchRaises(s: State, world: World)
    requires Good(s) && Calm(s) && SteadyWorld(world) && Unsettled(world)
    ensures var (r, end) := SearchAndResume(s, world, Local);
            end == Raised(LateHandoff) && Good(r) && Calm(r) && r.log == s.log + [Tried(Local, CLEAR)]
  {
    hide Good, Ask, Follows;
    CalmNote(s, Tried(Local, CLEAR));
    assert world(s.at).localEnd == Raised(LateHandoff);
    AskSteady(Note(s, Tried(Local, CLEAR)), world);
  }

  lemma UnsettledSeeds(s: State, world: World, seeds: nat)
    requires Good(s) && Calm(s) && SteadyWorld(world) && Unsettled(world) && seeds >= 1
    ensures var (r, d) := TrySeeds(s, world, seeds);
            d == None && Good(r) && Calm(r) && r.log == s.log + [Tried(Local, CLEAR), HandoffFailed]
  {
    hide Good, Ask, Follows, SearchAndResume, WaitForHandoff;
    assert Steady(world(s.at));
    AskSteady(s, world);
    var s1 := Ask(s, world);
    LateSearchRaises(s1, world);
    var s2 := SearchAndResume(s1, world, Local).0;
    assert Steady(world(s2.at));
    AskSteady(s2, world);
    var s3 := Ask(s2, world);
    CalmNote(s3, HandoffFailed);
    WaitInVain(Note(s3, HandoffFailed), world, world(s2.at).polls);
  }

  /** A hand-off that stays unstable ends the seeds of the first cycle, and the global search follows at once. */
  lemma UnsettledEscalates(s: State, world: World, configured: int, lifetime: nat, progressive: bool, seeds: nat, how: Correction, gated: bool)
    requires Good(s) && s.log == [] && !Cancelled(s) && SteadyWorld(world) && (configured > 0 || lifetime > 0)
    requires StandsFrom(world, how, 0) && Means(world, progressive, seeds) && seeds >= 1
    requires Unsettled(world) && GlobalIs(world, true, Success)
    ensures Recovered(s, world, configured, lifetime).log ==
            [CycleStarted(1)] + Opening(progressive) + [Tried(Local, CLEAR), HandoffFailed] + Healed(Global, how, gated)
  {
    hide Good, Ask, Follows, TrySeeds, Pass, Healed, Recovered, Escalate;
    var p := FirstPassBegins(s, world, configured, lifetime);
    var at := PassReachesSeeds(p, world, 1, Maximum(configured), progressive, seeds);
    UnsettledSeeds(at, world, seeds);
    GlobalFollows(TrySeeds(at, world, seeds).0, world, how, gated);
  }

  lemma GlobalFollows(s: State, world: World, how: Correction, gated: bool)
    requires Good(s) && Calm(s) && !RecoveryWorker.Found(s) && SteadyWorld(world) && StandsFrom(world, how, 0)
    requires Unsettled(world) && GlobalIs(world, true, Success)
    ensures var (r, d) := Escalate(s, world); d == Some(Stop) && r.log == s.log + Healed(Global, how, gated)
  {
    hide Good, Ask, Follows, Healed, SearchAndResume;
    assert Steady(world(s.at)) && !(world(s.at).laser && world(s.at).found);
    AskSteady(s, world);
    var s1 := Ask(s, world);
    assert Steady(world(s1.at)) && world(s1.at).globalSearch;
    AskSteady(s1, world);
    var s2 := Ask(s1, world);
    assert world(s2.at).globalEnd == Success;
    SearchWorks(s2, world, Global, how, gated, 0);
    AskSteady(SearchAndResume(s2, world, Global).0, world);
  }
}
