/**
 What the recovery worker achieves when nothing gets in its way: every means of recovery that
 is offered is tried in its order, the first one that works resumes the task, and the worker
 gives up only after all of them have failed the configured number of times. Everything here
 is stated on the answers and the final log.
 */
module Progress {
  import opened Wrappers
  import Arbiter
  import opened RecoveryWorker

  /** Nobody cancels, stops or takes over, the task stays paused, and no bookkeeping raises. */
  predicate Steady(a: Answer) {
    && a.turn.cancels == 0 && !a.turn.stop && a.turn.paused && !a.turn.operatorActive
    && !a.fails && a.recovery.Success? && a.activated
  }

  /** The secondary correction stands in the given way. */
  predicate Stands(a: Answer, how: Correction) {
    match how
    case NoInterface => !a.callable
    case NdtUnavailable => a.callable && a.correction.Success? && !a.accepted && a.unavailable
    case Completed => a.callable && a.correction.Success? && a.accepted && a.polls >= 1 && a.completed
  }

  ghost predicate SteadyWorld(world: World) {
    forall n :: Steady(world(n))
  }

  /** From some question on every correction stands. */
  ghost predicate StandsFrom(world: World, how: Correction, from: nat) {
    forall n :: from <= n ==> Stands(world(n), how)
  }

  /** n searches from seeds. */
  function Seeds(n: nat): seq<Event> {
    seq(n, i => Tried(Local, CLEAR))
  }

  lemma SeedsSnoc(n: nat)
    ensures Seeds(n + 1) == Seeds(n) + [Tried(Local, CLEAR)] == [Tried(Local, CLEAR)] + Seeds(n)
  {
  }

  /** r is s some questions later, with nothing logged. */
  ghost predicate Unmoved(s: State, r: State, questions: nat) {
    Good(r) && Calm(r) && r.log == s.log && r.at == s.at + questions
  }

  lemma AskSteady(s: State, world: World)
    requires Good(s) && !Cancelled(s) && SteadyWorld(world)
    ensures Unmoved(s, Ask(s, world), 1)
  {
    assert Steady(world(s.at));
  }

  lemma CalmNote(s: State, e: Event)
    requires Good(s) && Calm(s) && !e.CycleStarted? && Permitted(e) && (e.Resumed? ==> Justified(s.log + [e], |s.log|))
    ensures s.cancelledAt.None? && Read(s) == CLEAR
    ensures Good(Note(s, e)) && Calm(Note(s, e)) && Note(s, e).log == s.log + [e] && Note(s, e).at == s.at
  {
  }

  // ---- one search ------------------------------------------------------------------------------------

  lemma CorrectionStands(s: State, world: World, how: Correction, from: nat)
    requires Good(s) && Calm(s) && SteadyWorld(world) && StandsFrom(world, how, from) && s.at >= from
    ensures var (r, done, end) := Correct(s, world);
            done && end == Success && Good(r) && Calm(r) && r.log == s.log + [Corrected(how)]
  {
    hide Good, Ask, Follows, Poll;
    var a := world(s.at);
    assert Stands(a, how);
    AskSteady(s, world);
    var s1 := Ask(s, world);
    CalmNote(s1, Corrected(how));
    if how == Completed {
      PollCompletes(s1, world, a.polls, from);
    }
  }

  lemma PollCompletes(s: State, world: World, rounds: nat, from: nat)
    requires Good(s) && Calm(s) && SteadyWorld(world) && StandsFrom(world, Completed, from) && s.at >= from && rounds >= 1
    ensures var (r, done, end) := Poll(s, world, rounds);
            done && end == Success && Good(r) && Calm(r) && r.log == s.log + [Corrected(Completed)]
  {
    hide Good, Ask, Follows;
    AskSteady(s, world);
    var s1 := Ask(s, world);
    assert Stands(world(s1.at), Completed);
    AskSteady(s1, world);
    CalmNote(Ask(s1, world), Corrected(Completed));
  }

  lemma RecoveryResumes(s: State, world: World)
    requires Good(s) && Calm(s) && SteadyWorld(world) && Justified(s.log + [Resumed], |s.log|)
    ensures var (r, end) := HandleRecovered(s, world); end == Success && Good(r) && Calm(r) && r.log == s.log + [Resumed] && r.at == s.at + 2
  {
    hide Good, Ask, Follows, Justified;
    assert Steady(world(s.at));
    AskSteady(s, world);
    var s1 := Ask(s, world);
    CalmNote(s1, Resumed);
    var s2 := Note(s1, Resumed);
    assert Steady(world(s2.at));
    AskSteady(s2, world);
  }

  /** What a search that works adds to the log. */
  function Healed(kind: Search, how: Correction, gated: bool): seq<Event> {
    [Tried(kind, CLEAR), Searched(kind), Corrected(how)] + (if kind == Progressive then [Gate(gated, true)] else []) + [Resumed]
  }

  /** Every progressive search passes a gate, or none has one. */
  ghost predicate Gates(world: World, gated: bool) {
    forall n :: world(n).gate == gated && world(n).passed && world(n).gateEnd.Success?
  }

  lemma SearchWorks(s: State, world: World, kind: Search, how: Correction, gated: bool, from: nat)
    requires Good(s) && Calm(s) && SteadyWorld(world) && StandsFrom(world, how, from) && s.at >= from
    requires kind == Progressive ==> Gates(world, gated)
    requires SearchEnd(world(s.at), kind).Success?
    ensures var (r, end) := SearchAndResume(s, world, kind);
            end == Success && Good(r) && Calm(r) && r.log == s.log + Healed(kind, how, gated)
  {
    hide Good, Ask, Follows, CorrectAndResume;
    CalmNote(s, Tried(kind, CLEAR));
    var tried := Note(s, Tried(kind, CLEAR));
    AskSteady(tried, world);
    CalmNote(Ask(tried, world), Searched(kind));
    CorrectingWorks(Note(Ask(tried, world), Searched(kind)), world, kind, how, gated, from);
  }

  lemma CorrectingWorks(s: State, world: World, kind: Search, how: Correction, gated: bool, from: nat)
    requires Good(s) && Calm(s) && SteadyWorld(world) && StandsFrom(world, how, from) && s.at >= from
    requires kind == Progressive ==> Gates(world, gated)
    requires s.log != [] && s.log[|s.log| - 1] == Searched(kind)
    ensures var (r, end) := CorrectAndResume(s, world, kind);
            && end == Success && Good(r) && Calm(r)
            && r.log == s.log + [Corrected(how)] + (if kind == Progressive then [Gate(gated, true)] else []) + [Resumed]
  {
    hide Good, Ask, Follows, Correct, PassGate, HandleRecovered, Justified;
    CorrectionStands(s, world, how, from);
    var s2 := Correct(s, world).0;
    GateOpens(s2, world, kind, gated);
    RecoveryResumes(PassGate(s2, world, kind).0, world);
  }

  lemma GateOpens(s: State, world: World, kind: Search, gated: bool)
    requires Good(s) && Calm(s) && SteadyWorld(world) && (kind == Progressive ==> Gates(world, gated))
    requires |s.log| >= 2 && s.log[|s.log| - 1].Corrected? && s.log[|s.log| - 2] == Searched(kind)
    ensures var (r, end) := PassGate(s, world, kind);
            && end == Success && Good(r) && Calm(r) && Justified(r.log + [Resumed], |r.log|)
            && r.log == s.log + if kind == Progressive then [Gate(gated, true)] else []
  {
    hide Good, Ask, Follows, Justified;
    CorrectionJustifies(s.log, kind);
    if kind == Progressive {
      assert world(s.at).gate == gated;
      AskSteady(s, world);
      CalmNote(Ask(s, world), Gate(gated, true));
    }
  }

  lemma SearchFails(s: State, world: World, kind: Search)
    requires Good(s) && Calm(s) && SteadyWorld(world) && SearchEnd(world(s.at), kind) == Raised(OtherError)
    ensures var (r, end) := SearchAndResume(s, world, kind);
            end == Raised(OtherError) && Good(r) && Calm(r) && r.log == s.log + [Tried(kind, CLEAR)] && r.at == s.at + 1
  {
    hide Good, Ask, Follows;
    CalmNote(s, Tried(kind, CLEAR));
    AskSteady(Note(s, Tried(kind, CLEAR)), world);
  }

  // ---- the seeds -----------------------------------------------------------------------------------------

  /** Three questions go with every seed that fails; the search is the second of them. */
  function SeedQuestion(first: nat, j: nat): nat {
    first + 3 * j + 1
  }

  /** The searches from the first k seeds fail, where the questions about seeds begin at `first`. */
  ghost predicate SeedsFail(world: World, first: nat, k: nat) {
    forall j :: 0 <= j < k ==> world(SeedQuestion(first, j)).localEnd == Raised(OtherError)
  }

  lemma OneSeedFails(s: State, world: World, seeds: nat) returns (next: State)
    requires Good(s) && Calm(s) && SteadyWorld(world) && seeds >= 1 && world(s.at + 1).localEnd == Raised(OtherError)
    ensures Good(next) && Calm(next) && next.log == s.log + [Tried(Local, CLEAR)] && next.at == s.at + 3
    ensures TrySeeds(s, world, seeds) == TrySeeds(next, world, seeds - 1)
  {
    hide Good, Ask, Follows, SearchAndResume;
    assert Steady(world(s.at));
    AskSteady(s, world);
    var s1 := Ask(s, world);
    SearchFails(s1, world, Local);
    var s2 := SearchAndResume(s1, world, Local).0;
    assert Steady(world(s2.at));
    AskSteady(s2, world);
    next := Ask(s2, world);
  }

  /** All seeds fail: each is tried once, in turn. */
  lemma {:induction false} AllSeedsFail(s: State, world: World, seeds: nat)
    requires Good(s) && Calm(s) && SteadyWorld(world)
    requires SeedsFail(world, s.at, seeds)
    ensures var (r, d) := TrySeeds(s, world, seeds);
            d == None && Good(r) && Calm(r) && r.log == s.log + Seeds(seeds) && r.at == s.at + 3 * seeds
    decreases seeds
  {
    hide Good, Ask, Follows, SearchAndResume;
    if seeds > 0 {
      assert world(SeedQuestion(s.at, 0)).localEnd == Raised(OtherError);
      var next := OneSeedFails(s, world, seeds);
      forall j | 0 <= j < seeds - 1 ensures world(SeedQuestion(next.at, j)).localEnd == Raised(OtherError) {
        assert SeedQuestion(next.at, j) == SeedQuestion(s.at, j + 1);
      }
      AllSeedsFail(next, world, seeds - 1);
      SeedsSnoc(seeds - 1);
    }
  }

  lemma FirstSeedWorks(s: State, world: World, seeds: nat, how: Correction, gated: bool)
    requires Good(s) && Calm(s) && SteadyWorld(world) && StandsFrom(world, how, 0) && seeds >= 1
    requires world(SeedQuestion(s.at, 0)).localEnd == Success
    ensures var (r, d) := TrySeeds(s, world, seeds);
            d == Some(Stop) && Good(r) && Calm(r) && r.log == s.log + Healed(Local, how, gated)
  {
    hide Good, Ask, Follows, SearchAndResume, Healed;
    assert Steady(world(s.at));
    AskSteady(s, world);
    SearchWorks(Ask(s, world), world, Local, how, gated, 0);
  }

  /** The first k seeds fail and the next one works: no later seed is tried. */
  lemma {:induction false} SeedWorks(s: State, world: World, seeds: nat, k: nat, how: Correction, gated: bool)
    requires Good(s) && Calm(s) && SteadyWorld(world) && StandsFrom(world, how, 0) && k < seeds
    requires SeedsFail(world, s.at, k)
    requires world(SeedQuestion(s.at, k)).localEnd == Success
    ensures var (r, d) := TrySeeds(s, world, seeds);
            d == Some(Stop) && Good(r) && Calm(r) && r.log == s.log + Seeds(k) + Healed(Local, how, gated)
    decreases k
  {
    hide Good, Ask, Follows, TrySeeds, Healed, Seeds;
    if k == 0 {
      NoSeeds();
      FirstSeedWorks(s, world, seeds, how, gated);
    } else {
      assert world(SeedQuestion(s.at, 0)).localEnd == Raised(OtherError);
      var next := OneSeedFails(s, world, seeds);
      forall j | 0 <= j < k - 1 ensures world(SeedQuestion(next.at, j)).localEnd == Raised(OtherError) {
        assert SeedQuestion(next.at, j) == SeedQuestion(s.at, j + 1);
      }
      assert SeedQuestion(next.at, k - 1) == SeedQuestion(s.at, k);
      SeedWorks(next, world, seeds - 1, k - 1, how, gated);
      SeedsSnoc(k - 1);
      assert s.log + [Tried(Local, CLEAR)] + Seeds(k - 1) == s.log + Seeds(k);
    }
  }

  // ---- one pass -------------------------------------------------------------------------------------------

  /** Whether a progressive search is offered, and then always fails; how many seeds there are. */
  ghost predicate Means(world: World, progressive: bool, seeds: nat) {
    forall n :: world(n).progressive == progressive && world(n).progressiveEnd == Raised(OtherError) && world(n).seeds == seeds
  }

  function Opening(progressive: bool): seq<Event> {
    if progressive then [Tried(Progressive, CLEAR)] else []
  }

  /** Questions a pass asks before its first seed. */
  function Lead(progressive: bool): nat {
    if progressive then 4 else 2
  }

  /** A pass comes to its seeds with the progressive search tried if there is one. */
  lemma PassReachesSeeds(s: State, world: World, cycle: nat, maxCycles: nat, progressive: bool, seeds: nat) returns (at: State)
    requires Good(s) && Calm(s) && !RecoveryWorker.Found(s) && SteadyWorld(world) && Means(world, progressive, seeds)
    ensures Good(at) && Calm(at) && !RecoveryWorker.Found(at) && at.log == s.log + Opening(progressive) && at.at == s.at + Lead(progressive)
    ensures Pass(s, world, cycle, maxCycles) == Seeded(at, world, cycle, maxCycles, seeds)
  {
    hide Good, Ask, Follows, SearchAndResume, TrySeeds, Escalate, EndPass;
    assert Steady(world(s.at)) && world(s.at).progressive == progressive;
    AskSteady(s, world);
    var s1 := Ask(s, world);
    var after := s1;
    if progressive {
      assert world(s1.at).progressiveEnd == Raised(OtherError);
      SearchFails(s1, world, Progressive);
      var s2 := SearchAndResume(s1, world, Progressive).0;
      assert Steady(world(s2.at));
      AskSteady(s2, world);
      after := Ask(s2, world);
    }
    assert Pass(s, world, cycle, maxCycles) == AfterProgressive(after, world, cycle, maxCycles);
    assert world(after.at).seeds == seeds;
    AskSteady(after, world);
    at := Ask(after, world);
  }

  /** The rest of a pass, from its seeds on. */
  function Seeded(s: State, world: World, cycle: nat, maxCycles: nat, seeds: nat): (State, Decision)
    requires Good(s) && !RecoveryWorker.Found(s)
  {
    if seeds == 0 then EndPass(s, world, cycle, maxCycles)
    else
      var (s2, d) := TrySeeds(s, world, seeds);
      if d.Some? then (s2, Stop)
      else if cycle != 1 then EndPass(s2, world, cycle, maxCycles)
      else
        var (s3, e) := Escalate(s2, world);
        if e.Some? then (s3, e.value) else EndPass(s3, world, cycle, maxCycles)
  }

  /** A new worker that is not cancelled comes to its first pass, and a pass that stops is the end. */
  lemma FirstPassBegins(s: State, world: World, configured: int, lifetime: nat) returns (p: State)
    requires Good(s) && s.log == [] && !Cancelled(s) && SteadyWorld(world) && (configured > 0 || lifetime > 0)
    ensures Good(p) && Calm(p) && !RecoveryWorker.Found(p) && p.log == [CycleStarted(1)] && p.at == s.at + 3
    ensures Pass(p, world, 1, Maximum(configured)).1 == Stop ==>
              Recovered(s, world, configured, lifetime).log == Pass(p, world, 1, Maximum(configured)).0.log
  {
    hide Good, Ask, Follows, Pass;
    assert Steady(world(s.at));
    AskSteady(s, world);
    var s1 := Ask(s, world);
    HeadGoes(s1, world, 0);
    var s2 := Head(s1, world, 0).0;
    p := Begin(s2, 1);
    var (r, d) := Pass(p, world, 1, Maximum(configured));
    if d == Stop {
      assert Turnaround(s1, world, 0, Maximum(configured), lifetime) == (r, false);
      assert Worked(s, world, configured, lifetime) == r;
    }
  }

  lemma HeadGoes(s: State, world: World, cycle: nat)
    requires Good(s) && Calm(s) && SteadyWorld(world)
    ensures Head(s, world, cycle).1 && Unmoved(s, Head(s, world, cycle).0, 2)
  {
    hide Good, Ask, Follows;
    AskSteady(s, world);
    AskSteady(Ask(s, world), world);
  }

  // ---- what works resumes the task ---------------------------------------------------------------------------

  /** A progressive search that works is the whole recovery. */
  lemma ProgressiveResumes(s: State, world: World, configured: int, lifetime: nat, how: Correction, gated: bool)
    requires Good(s) && s.log == [] && !Cancelled(s) && SteadyWorld(world) && (configured > 0 || lifetime > 0)
    requires StandsFrom(world, how, 0) && Gates(world, gated)
    requires forall n :: world(n).progressive && world(n).progressiveEnd == Success
    ensures Recovered(s, world, configured, lifetime).log == [CycleStarted(1)] + Healed(Progressive, how, gated)
  {
    hide Good, Ask, Follows, SearchAndResume, AfterProgressive, Healed, Recovered;
    var p := FirstPassBegins(s, world, configured, lifetime);
    assert Steady(world(p.at)) && world(p.at).progressive;
    AskSteady(p, world);
    var s1 := Ask(p, world);
    assert world(s1.at).progressiveEnd == Success;
    SearchWorks(s1, world, Progressive, how, gated, 0);
    var s2 := SearchAndResume(s1, world, Progressive).0;
    AskSteady(s2, world);
  }

  /**
   When the first k seeds fail and the next one works, exactly these k + 1 are tried, after the
   progressive search if there is one, and the task is resumed.
   */
  lemma SeedResumes(s: State, world: World, configured: int, lifetime: nat, progressive: bool, seeds: nat, k: nat, how: Correction, gated: bool)
    requires Good(s) && s.log == [] && !Cancelled(s) && SteadyWorld(world) && (configured > 0 || lifetime > 0)
    requires StandsFrom(world, how, 0) && Means(world, progressive, seeds) && k < seeds
    requires SeedsFail(world, s.at + 3 + Lead(progressive), k)
    requires world(SeedQuestion(s.at + 3 + Lead(progressive), k)).localEnd == Success
    ensures Recovered(s, world, configured, lifetime).log ==
            [CycleStarted(1)] + Opening(progressive) + Seeds(k) + Healed(Local, how, gated)
  {
    hide Good, Ask, Follows, TrySeeds, Pass, Healed, Seeds, Recovered, Escalate, EndPass;
    var p := FirstPassBegins(s, world, configured, lifetime);
    var at := PassReachesSeeds(p, world, 1, Maximum(configured), progressive, seeds);
    SeedWorks(at, world, seeds, k, how, gated);
  }

  /** No feature is found, and every local search fails. */
  ghost predicate LocalsFail(world: World) {
    forall n :: world(n).localEnd == Raised(OtherError) && !(world(n).laser && world(n).found)
  }

  ghost predicate GlobalIs(world: World, offered: bool, end: Ending) {
    forall n :: world(n).globalSearch == offered && world(n).globalEnd == end
  }

  /**
   When every seed fails and no feature is found, a global search that is there is made after
   all seeds, and resumes the task if it works.
   */
  lemma GlobalResumes(s: State, world: World, configured: int, lifetime: nat, progressive: bool, seeds: nat, how: Correction, gated: bool)
    requires Good(s) && s.log == [] && !Cancelled(s) && SteadyWorld(world) && (configured > 0 || lifetime > 0)
    requires StandsFrom(world, how, 0) && Means(world, progressive, seeds) && seeds >= 1
    requires LocalsFail(world) && GlobalIs(world, true, Success)
    ensures Recovered(s, world, configured, lifetime).log ==
            [CycleStarted(1)] + Opening(progressive) + Seeds(seeds) + Healed(Global, how, gated)
  {
    hide Good, Ask, Follows, TrySeeds, Pass, Healed, Seeds, Recovered, SearchAndResume;
    var p := FirstPassBegins(s, world, configured, lifetime);
    var at := PassReachesSeeds(p, world, 1, Maximum(configured), progressive, seeds);
    AllSeedsFail(at, world, seeds);
    var s2 := TrySeeds(at, world, seeds).0;
    assert Steady(world(s2.at)) && !(world(s2.at).laser && world(s2.at).found);
    AskSteady(s2, world);
    var s3 := Ask(s2, world);
    assert Steady(world(s3.at)) && world(s3.at).globalSearch;
    AskSteady(s3, world);
    var s4 := Ask(s3, world);
    assert world(s4.at).globalEnd == Success;
    SearchWorks(s4, world, Global, how, gated, 0);
    AskSteady(SearchAndResume(s4, world, Global).0, world);
  }

  // ---- giving up ---------------------------------------------------------------------------------------------

  /** A cycle in which everything that is offered fails; only the first one searches globally. */
  function Failed(cycle: nat, progressive: bool, seeds: nat, global: bool): seq<Event> {
    [CycleStarted(cycle)] + Opening(progressive) + Seeds(seeds) + Widening(cycle, seeds, global)
  }

  function Widening(cycle: nat, seeds: nat, global: bool): seq<Event> {
    if cycle == 1 && seeds >= 1 && global then [Tried(Global, CLEAR)] else []
  }

  function Hold(cycle: nat, maxCycles: nat): seq<Event> {
    if maxCycles > 0 && cycle >= maxCycles then [SafeHold(CLEAR)] else []
  }

  function AllFailed(cycles: nat, progressive: bool, seeds: nat, global: bool): seq<Event> {
    if cycles == 0 then [] else AllFailed(cycles - 1, progressive, seeds, global) + Failed(cycles, progressive, seeds, global)
  }

  lemma EndOfPass(s: State, world: World, cycle: nat, maxCycles: nat)
    requires Good(s) && Calm(s) && !RecoveryWorker.Found(s) && SteadyWorld(world)
    ensures var (r, d) := EndPass(s, world, cycle, maxCycles);
            && Good(r) && Calm(r)
            && (if maxCycles > 0 && cycle >= maxCycles then d == Stop && r.log == s.log + [SafeHold(CLEAR)] else d == Again && r.log == s.log)
  {
    hide Good, Ask, Follows;
    assert Steady(world(s.at));
    AskSteady(s, world);
    var s1 := Ask(s, world);
    CalmNote(s1, SafeHold(CLEAR));
    AskSteady(s1, world);
  }

  lemma EscalationFails(s: State, world: World, global: bool)
    requires Good(s) && Calm(s) && !RecoveryWorker.Found(s) && SteadyWorld(world)
    requires LocalsFail(world) && GlobalIs(world, global, Raised(OtherError))
    ensures var (r, d) := Escalate(s, world);
            d == None && Good(r) && Calm(r) && r.log == s.log + if global then [Tried(Global, CLEAR)] else []
  {
    hide Good, Ask, Follows, SearchAndResume;
    assert Steady(world(s.at)) && !(world(s.at).laser && world(s.at).found);
    AskSteady(s, world);
    var s1 := Ask(s, world);
    assert Steady(world(s1.at)) && world(s1.at).globalSearch == global;
    AskSteady(s1, world);
    var s2 := Ask(s1, world);
    if global {
      assert world(s2.at).globalEnd == Raised(OtherError);
      SearchFails(s2, world, Global);
      var s3 := SearchAndResume(s2, world, Global).0;
      assert Steady(world(s3.at));
      AskSteady(s3, world);
    }
  }

  lemma LocalsFailAt(world: World, first: nat, k: nat)
    requires LocalsFail(world)
    ensures SeedsFail(world, first, k)
  {
  }

  lemma TriedLast(s: State, r: State, seeds: nat)
    requires r.log == s.log + Seeds(seeds) && (seeds == 0 ==> !RecoveryWorker.Found(s))
    ensures !RecoveryWorker.Found(r)
  {
  }

  lemma SeededFails(s: State, world: World, cycle: nat, maxCycles: nat, seeds: nat, global: bool)
    requires Good(s) && Calm(s) && !RecoveryWorker.Found(s) && SteadyWorld(world)
    requires LocalsFail(world) && GlobalIs(world, global, Raised(OtherError))
    ensures var (r, d) := Seeded(s, world, cycle, maxCycles, seeds);
            && Good(r) && Calm(r) && d == (if Hold(cycle, maxCycles) == [] then Again else Stop)
            && r.log == s.log + Seeds(seeds) + Widening(cycle, seeds, global) + Hold(cycle, maxCycles)
  {
    hide Good, Ask, Follows, TrySeeds, Seeds, Escalate, EndPass, RecoveryWorker.Found;
    NoSeeds();
    if seeds == 0 {
      EndOfPass(s, world, cycle, maxCycles);
    } else {
      LocalsFailAt(world, s.at, seeds);
      AllSeedsFail(s, world, seeds);
      var last := TrySeeds(s, world, seeds).0;
      TriedLast(s, last, seeds);
      if cycle == 1 {
        EscalationFails(last, world, global);
        last := Escalate(last, world).0;
      }
      EndOfPass(last, world, cycle, maxCycles);
    }
  }

  lemma PassFails(s: State, world: World, cycle: nat, maxCycles: nat, progressive: bool, seeds: nat, global: bool)
    requires Good(s) && Calm(s) && SteadyWorld(world) && Means(world, progressive, seeds)
    requires LocalsFail(world) && GlobalIs(world, global, Raised(OtherError))
    ensures var (r, d) := Round(s, world, cycle, maxCycles);
            && Good(r) && Calm(r) && d == (if Hold(cycle, maxCycles) == [] then Again else Stop)
            && r.log == s.log + Failed(cycle, progressive, seeds, global) + Hold(cycle, maxCycles)
  {
    hide Good, Ask, Follows, TrySeeds, Pass, Seeds, Seeded, Widening, Hold, Opening;
    var begun := Begin(s, cycle);
    var at := PassReachesSeeds(begun, world, cycle, maxCycles, progressive, seeds);
    SeededFails(at, world, cycle, maxCycles, seeds, global);
    var o, g, h, t := Opening(progressive), Widening(cycle, seeds, global), Hold(cycle, maxCycles), Seeds(seeds);
    assert s.log + [CycleStarted(cycle)] + o + t + g + h == s.log + ([CycleStarted(cycle)] + o + t + g) + h;
  }

  lemma NoSeeds()
    ensures Seeds(0) == []
  {
  }

  lemma {:induction false} LoopFails(s: State, world: World, cycle: nat, maxCycles: nat, lifetime: nat, progressive: bool, seeds: nat, global: bool)
    requires Good(s) && Calm(s) && SteadyWorld(world) && Means(world, progressive, seeds)
    requires LocalsFail(world) && GlobalIs(world, global, Raised(OtherError))
    requires s.log == AllFailed(cycle, progressive, seeds, global) && (if maxCycles > 0 then cycle < maxCycles else cycle <= lifetime)
    ensures Loop(s, world, cycle, maxCycles, lifetime).log ==
            if maxCycles > 0 then AllFailed(maxCycles, progressive, seeds, global) + [SafeHold(CLEAR)]
            else AllFailed(lifetime, progressive, seeds, global)
    decreases (if maxCycles > 0 then maxCycles else lifetime) - cycle
  {
    hide Good, Ask, Follows, Turnaround, Failed, AllFailed, Loop, Means, LocalsFail, GlobalIs, SteadyWorld, Hold;
    LoopOnce(s, world, cycle, maxCycles, lifetime);
    if maxCycles > 0 || cycle < lifetime {
      TurnFails(s, world, cycle, maxCycles, lifetime, progressive, seeds, global);
      var (r, again) := Turnaround(s, world, cycle, maxCycles, lifetime);
      HoldIs(cycle + 1, maxCycles);
      OneMoreFailed(cycle + 1, progressive, seeds, global);
      if again {
        assert r.log == AllFailed(cycle + 1, progressive, seeds, global);
        LoopFails(r, world, cycle + 1, maxCycles, lifetime, progressive, seeds, global);
      }
    } else {
      TurnEnds(s, world, cycle, maxCycles, lifetime);
    }
  }

  lemma LoopOnce(s: State, world: World, cycle: nat, maxCycles: nat, lifetime: nat)
    requires Good(s) && Continuing(cycle, maxCycles)
    ensures var (r, again) := Turnaround(s, world, cycle, maxCycles, lifetime);
            Loop(s, world, cycle, maxCycles, lifetime) == if again then Loop(r, world, cycle + 1, maxCycles, lifetime) else r
  {
    hide Good, Turnaround;
  }

  lemma OneMoreFailed(cycles: nat, progressive: bool, seeds: nat, global: bool)
    requires cycles > 0
    ensures AllFailed(cycles, progressive, seeds, global) == AllFailed(cycles - 1, progressive, seeds, global) + Failed(cycles, progressive, seeds, global)
  {
    hide Failed;
  }

  lemma HoldIs(cycle: nat, maxCycles: nat)
    ensures Hold(cycle, maxCycles) == if maxCycles > 0 && cycle >= maxCycles then [SafeHold(CLEAR)] else []
  {
  }

  lemma TurnFails(s: State, world: World, cycle: nat, maxCycles: nat, lifetime: nat, progressive: bool, seeds: nat, global: bool)
    requires Good(s) && Calm(s) && SteadyWorld(world) && Means(world, progressive, seeds) && Continuing(cycle, maxCycles)
    requires LocalsFail(world) && GlobalIs(world, global, Raised(OtherError)) && (maxCycles > 0 || cycle < lifetime)
    ensures var (r, again) := Turnaround(s, world, cycle, maxCycles, lifetime);
            && Good(r) && Calm(r) && again == (Hold(cycle + 1, maxCycles) == [])
            && r.log == s.log + Failed(cycle + 1, progressive, seeds, global) + Hold(cycle + 1, maxCycles)
  {
    hide Good, Ask, Follows, Round, Head, Failed, Hold, Means, LocalsFail, GlobalIs, SteadyWorld;
    HeadGoes(s, world, cycle);
    PassFails(Head(s, world, cycle).0, world, cycle + 1, maxCycles, progressive, seeds, global);
  }

  lemma TurnEnds(s: State, world: World, cycle: nat, maxCycles: nat, lifetime: nat)
    requires Good(s) && Calm(s) && SteadyWorld(world) && Continuing(cycle, maxCycles) && maxCycles == 0 && cycle >= lifetime
    ensures !Turnaround(s, world, cycle, maxCycles, lifetime).1 && Turnaround(s, world, cycle, maxCycles, lifetime).0.log == s.log
  {
    hide Good, Ask, Follows, Round, Head;
    HeadGoes(s, world, cycle);
  }

  /**
   When everything that is offered fails, exactly the configured number of cycles is made, each
   trying the progressive search if there is one and every seed, the first one also searching
   globally if it can, and only then is the task put into safe hold. Without a maximum the
   worker never gives up.
   */
  lemma GivesUpAfterAll(s: State, world: World, configured: int, lifetime: nat, progressive: bool, seeds: nat, global: bool)
    requires Good(s) && s.log == [] && !Cancelled(s) && SteadyWorld(world) && Means(world, progressive, seeds)
    requires LocalsFail(world) && GlobalIs(world, global, Raised(OtherError))
    ensures Recovered(s, world, configured, lifetime).log ==
            if configured > 0 then AllFailed(configured, progressive, seeds, global) + [SafeHold(CLEAR)]
            else AllFailed(lifetime, progressive, seeds, global)
  {
    hide Good, Ask, Follows, Loop;
    assert Steady(world(s.at));
    AskSteady(s, world);
    LoopFails(Ask(s, world), world, 0, Maximum(configured), lifetime, progressive, seeds, global);
  }

  // ---- a hand-off that comes late -------------------------------------------------------------------------

  /** A late hand-off that has become stable when the waiting begins resumes the task without another search. */
  lemma LateHandoffResumes(s: State, world: World, configured: int, lifetime: nat, progressive: bool, seeds: nat)
    requires Good(s) && s.log == [] && !Cancelled(s) && SteadyWorld(world) && (configured > 0 || lifetime > 0)
    requires Means(world, progressive, seeds) && seeds >= 1
    requires LateWorld(world)
    ensures Recovered(s, world, configured, lifetime).log ==
            [CycleStarted(1)] + Opening(progressive) + [Tried(Local, CLEAR), HandoffFailed, AbsoluteStable(CLEAR), Resumed]
  {
    hide Good, Ask, Follows, Pass, Recovered, TrySeeds, Escalate, EndPass;
    var p := FirstPassBegins(s, world, configured, lifetime);
    var at := PassReachesSeeds(p, world, 1, Maximum(configured), progressive, seeds);
    LateSeedSettles(at, world, seeds);
  }

  ghost predicate LateWorld(world: World) {
    forall n :: world(n).localEnd == Raised(LateHandoff) && world(n).polls >= 1 && world(n).stable
  }

  lemma LateSeedSettles(s: State, world: World, seeds: nat)
    requires Good(s) && Calm(s) && SteadyWorld(world) && LateWorld(world) && seeds >= 1
    ensures var (r, d) := TrySeeds(s, world, seeds);
            d == Some(Stop) && r.log == s.log + [Tried(Local, CLEAR), HandoffFailed, AbsoluteStable(CLEAR), Resumed]
  {
    hide Good, Ask, Follows, SearchAndResume, WaitForHandoff;
    assert Steady(world(s.at));
    AskSteady(s, world);
    var s1 := Ask(s, world);
    LateSearch(s1, world);
    var s2 := SearchAndResume(s1, world, Local).0;
    assert Steady(world(s2.at)) && world(s2.at).polls >= 1;
    AskSteady(s2, world);
    var s3 := Ask(s2, world);
    CalmNote(s3, HandoffFailed);
    var s4 := Note(s3, HandoffFailed);
    assert world(s4.at).stable;
    HandoffSettles(s4, world, world(s2.at).polls);
  }

  lemma LateSearch(s: State, world: World)
    requires Good(s) && Calm(s) && SteadyWorld(world) && LateWorld(world)
    ensures var (r, end) := SearchAndResume(s, world, Local);
            end == Raised(LateHandoff) && Good(r) && Calm(r) && r.log == s.log + [Tried(Local, CLEAR)]
  {
    hide Good, Ask, Follows;
    CalmNote(s, Tried(Local, CLEAR));
    assert world(s.at).localEnd == Raised(LateHandoff);
    AskSteady(Note(s, Tried(Local, CLEAR)), world);
  }

  lemma HandoffSettles(s: State, world: World, rounds: nat)
    requires Good(s) && Calm(s) && SteadyWorld(world) && s.log != [] && s.log[|s.log| - 1].HandoffFailed? && rounds >= 1
    requires world(s.at).stable
    ensures var (r, over) := WaitForHandoff(s, world, rounds); over && r.log == s.log + [AbsoluteStable(CLEAR), Resumed]
  {
    hide Good, Ask, Follows, HandleRecovered;
    assert Steady(world(s.at));
    AskSteady(s, world);
    var s1 := Ask(s, world);
    CalmNote(s1, AbsoluteStable(CLEAR));
    var s2 := Note(s1, AbsoluteStable(CLEAR));
    assert Justified(s2.log + [Resumed], |s2.log|);
    RecoveryResumes(s2, world);
  }

  // ---- in the end ---------------------------------------------------------------------------------------------

  predicate Ordinary(e: Ending) {
    e == Success || e == Raised(OtherError)
  }

  /** Nothing supersedes a search and no hand-off comes late; there is always a seed. */
  predicate Tame(a: Answer) {
    && Ordinary(a.progressiveEnd) && Ordinary(a.localEnd) && Ordinary(a.globalEnd) && Ordinary(a.gateEnd)
    && Ordinary(a.correction) && a.seeds >= 1
  }

  /** From question `from` on, local searches work and their corrections stand. */
  ghost predicate Works(world: World, how: Correction, from: nat) {
    StandsFrom(world, how, from) && forall n :: from <= n ==> world(n).localEnd == Success
  }

  ghost predicate TameWorld(world: World) {
    forall n :: Steady(world(n)) && Tame(world(n))
  }

  lemma TameIsSteady(world: World)
    requires TameWorld(world)
    ensures SteadyWorld(world)
  {
  }

  predicate Resumes(s: State) {
    s.log != [] && s.log[|s.log| - 1] == Resumed
  }

  /** The worker goes on undisturbed, some questions later. */
  ghost predicate GoesOn(s: State, r: State) {
    Good(r) && Calm(r) && r.at >= s.at
  }

  lemma {:induction false} PollIsTame(s: State, world: World, rounds: nat)
    requires Good(s) && Calm(s) && TameWorld(world)
    ensures var (r, done, end) := Poll(s, world, rounds); GoesOn(s, r) && Ordinary(end)
    decreases rounds
  {
    hide Good, Ask, Follows;
    TameIsSteady(world);
    if rounds > 0 {
      AskSteady(s, world);
      var s1 := Ask(s, world);
      assert Tame(world(s1.at));
      AskSteady(s1, world);
      var s2 := Ask(s1, world);
      CalmNote(s2, Corrected(Completed));
      PollIsTame(s2, world, rounds - 1);
    }
  }

  lemma CorrectionIsTame(s: State, world: World)
    requires Good(s) && Calm(s) && TameWorld(world)
    ensures var (r, done, end) := Correct(s, world); GoesOn(s, r) && Ordinary(end)
  {
    hide Good, Ask, Follows, Poll;
    TameIsSteady(world);
    var a := world(s.at);
    assert Tame(a);
    AskSteady(s, world);
    var s1 := Ask(s, world);
    CalmNote(s1, Corrected(NoInterface));
    CalmNote(s1, Corrected(NdtUnavailable));
    PollIsTame(s1, world, a.polls);
  }

  lemma GateIsTame(s: State, world: World, kind: Search)
    requires Good(s) && Calm(s) && TameWorld(world)
    requires |s.log| >= 2 && s.log[|s.log| - 1].Corrected? && s.log[|s.log| - 2] == Searched(kind)
    ensures var (r, end) := PassGate(s, world, kind); GoesOn(s, r) && Ordinary(end)
  {
    hide Good, Ask, Follows, Justified;
    TameIsSteady(world);
    assert Tame(world(s.at));
    AskSteady(s, world);
    CalmNote(Ask(s, world), Gate(world(s.at).gate, world(s.at).passed));
  }

  lemma CorrectingIsTame(s: State, world: World, kind: Search)
    requires Good(s) && Calm(s) && TameWorld(world) && s.log != [] && s.log[|s.log| - 1] == Searched(kind)
    ensures var (r, end) := CorrectAndResume(s, world, kind);
            GoesOn(s, r) && Ordinary(end) && (end == Success ==> Resumes(r))
  {
    hide Good, Ask, Follows, Correct, PassGate, HandleRecovered, Justified, TameWorld;
    TameIsSteady(world);
    CorrectionIsTame(s, world);
    var (s2, done, end) := Correct(s, world);
    if end == Success && done {
      GateIsTame(s2, world, kind);
      var (s3, gate) := PassGate(s2, world, kind);
      if gate == Success {
        RecoveryResumes(s3, world);
      }
    }
  }

  /** A search resumes the task or fails in the ordinary way. */
  lemma SearchIsTame(s: State, world: World, kind: Search)
    requires Good(s) && Calm(s) && TameWorld(world)
    ensures var (r, end) := SearchAndResume(s, world, kind);
            GoesOn(s, r) && r.at > s.at && Ordinary(end) && (end == Success ==> Resumes(r))
  {
    hide Good, Ask, Follows, CorrectAndResume;
    TameIsSteady(world);
    CalmNote(s, Tried(kind, CLEAR));
    var tried := Note(s, Tried(kind, CLEAR));
    assert Tame(world(tried.at));
    AskSteady(tried, world);
    CalmNote(Ask(tried, world), Searched(kind));
    CorrectingIsTame(Note(Ask(tried, world), Searched(kind)), world, kind);
  }

  lemma {:induction false} SeedsAreTame(s: State, world: World, seeds: nat, how: Correction, from: nat)
    requires Good(s) && Calm(s) && TameWorld(world) && Works(world, how, from)
    ensures var (r, d) := TrySeeds(s, world, seeds);
            && GoesOn(s, r) && (d == None || (d == Some(Stop) && Resumes(r)))
            && (s.at >= from && seeds >= 1 ==> d == Some(Stop))
    decreases seeds
  {
    hide Good, Ask, Follows, SearchAndResume, WaitForHandoff;
    TameIsSteady(world);
    if seeds > 0 {
      assert Steady(world(s.at));
      AskSteady(s, world);
      var s1 := Ask(s, world);
      SearchIsTame(s1, world, Local);
      if s.at >= from {
        assert world(s1.at).localEnd == Success;
        SearchWorks(s1, world, Local, how, false, from);
      }
      var (s2, end) := SearchAndResume(s1, world, Local);
      assert Steady(world(s2.at));
      AskSteady(s2, world);
      SeedsAreTame(Ask(s2, world), world, seeds - 1, how, from);
    }
  }

  lemma EscalationIsTame(s: State, world: World)
    requires Good(s) && Calm(s) && !RecoveryWorker.Found(s) && TameWorld(world)
    ensures var (r, d) := Escalate(s, world); GoesOn(s, r) && (d == Some(Stop) ==> Resumes(r))
  {
    hide Good, Ask, Follows, SearchAndResume;
    TameIsSteady(world);
    assert Steady(world(s.at));
    AskSteady(s, world);
    var s1 := Ask(s, world);
    CalmNote(s1, FeatureFound);
    AskSteady(Note(s1, FeatureFound), world);
    assert Steady(world(s1.at));
    AskSteady(s1, world);
    var s2 := Ask(s1, world);
    SearchIsTame(s2, world, Global);
    var s3 := SearchAndResume(s2, world, Global).0;
    assert Steady(world(s3.at));
    AskSteady(s3, world);
  }

  lemma SeededIsTame(s: State, world: World, cycle: nat, maxCycles: nat, seeds: nat, how: Correction, from: nat)
    requires Good(s) && Calm(s) && !RecoveryWorker.Found(s) && TameWorld(world) && Works(world, how, from) && seeds >= 1
    requires maxCycles == 0 || cycle < maxCycles
    ensures var (r, d) := Seeded(s, world, cycle, maxCycles, seeds);
            && GoesOn(s, r) && (d == Stop ==> Resumes(r)) && (s.at >= from ==> d == Stop)
  {
    hide Good, Ask, TrySeeds, Escalate, EndPass, RecoveryWorker.Found;
    TameIsSteady(world);
    SeedsAreTame(s, world, seeds, how, from);
    var (s2, d) := TrySeeds(s, world, seeds);
    if d == None {
      if cycle == 1 {
        EscalationIsTame(s2, world);
        var (s3, e) := Escalate(s2, world);
        if e == None {
          EndGoesOn(s3, world, cycle, maxCycles);
        }
      } else {
        EndGoesOn(s2, world, cycle, maxCycles);
      }
    }
  }

  lemma EndGoesOn(s: State, world: World, cycle: nat, maxCycles: nat)
    requires Good(s) && Calm(s) && !RecoveryWorker.Found(s) && SteadyWorld(world) && (maxCycles == 0 || cycle < maxCycles)
    ensures var (r, d) := EndPass(s, world, cycle, maxCycles); d == Again && GoesOn(s, r)
  {
    hide Good, Ask, Follows;
    assert Steady(world(s.at));
    AskSteady(s, world);
    AskSteady(Ask(s, world), world);
  }

  lemma RoundIsTame(s: State, world: World, cycle: nat, maxCycles: nat, how: Correction, from: nat)
    requires Good(s) && Calm(s) && TameWorld(world) && Works(world, how, from) && (maxCycles == 0 || cycle < maxCycles)
    ensures var (r, d) := Round(s, world, cycle, maxCycles);
            && GoesOn(s, r) && r.at > s.at && (d == Stop ==> Resumes(r)) && (s.at >= from ==> d == Stop)
  {
    hide Good, Ask, Follows, Pass, RecoveryWorker.Found;
    PassIsTame(Begin(s, cycle), world, cycle, maxCycles, how, from);
  }

  lemma PassIsTame(begun: State, world: World, cycle: nat, maxCycles: nat, how: Correction, from: nat)
    requires Good(begun) && Calm(begun) && !RecoveryWorker.Found(begun) && TameWorld(world) && Works(world, how, from)
    requires maxCycles == 0 || cycle < maxCycles
    ensures var (r, d) := Pass(begun, world, cycle, maxCycles);
            && GoesOn(begun, r) && r.at > begun.at && (d == Stop ==> Resumes(r)) && (begun.at >= from ==> d == Stop)
  {
    hide Good, Ask, Follows, SearchAndResume, AfterProgressive, RecoveryWorker.Found, TameWorld, Works;
    TameIsSteady(world);
    OneAnswer(world, begun.at);
    AskSteady(begun, world);
    var s1 := Ask(begun, world);
    StillNotFound(begun, s1);
    if world(begun.at).progressive {
      SearchIsTame(s1, world, Progressive);
      var (s2, end) := SearchAndResume(s1, world, Progressive);
      SearchFindsNoFeature(s1, world, Progressive);
      OneAnswer(world, s2.at);
      AskSteady(s2, world);
      StillNotFound(s2, Ask(s2, world));
      AfterIsTame(Ask(s2, world), world, cycle, maxCycles, how, from);
    } else {
      AfterIsTame(s1, world, cycle, maxCycles, how, from);
    }
  }

  lemma StillNotFound(s: State, r: State)
    requires !RecoveryWorker.Found(s) && r.log == s.log
    ensures !RecoveryWorker.Found(r)
  {
  }

  lemma SearchFindsNoFeature(s: State, world: World, kind: Search)
    requires Good(s) && !RecoveryWorker.Found(s) && Permitted(Tried(kind, Read(s)))
    ensures !RecoveryWorker.Found(SearchAndResume(s, world, kind).0)
  {
    hide Good, SearchAndResume;
  }

  lemma AfterIsTame(s: State, world: World, cycle: nat, maxCycles: nat, how: Correction, from: nat)
    requires Good(s) && Calm(s) && !RecoveryWorker.Found(s) && TameWorld(world) && Works(world, how, from)
    requires maxCycles == 0 || cycle < maxCycles
    ensures var (r, d) := AfterProgressive(s, world, cycle, maxCycles);
            && GoesOn(s, r) && r.at > s.at && (d == Stop ==> Resumes(r)) && (s.at >= from ==> d == Stop)
  {
    hide Good, Ask, Follows, TrySeeds, Escalate, EndPass, RecoveryWorker.Found;
    TameIsSteady(world);
    assert Tame(world(s.at));
    AskSteady(s, world);
    var s1 := Ask(s, world);
    StillNotFound(s, s1);
    SeededIsTame(s1, world, cycle, maxCycles, world(s.at).seeds, how, from);
  }

  lemma {:induction false} LoopResumes(s: State, world: World, cycle: nat, maxCycles: nat, lifetime: nat, how: Correction, from: nat)
    requires Good(s) && Calm(s) && TameWorld(world) && Works(world, how, from)
    requires cycle <= from && cycle <= s.at && (if maxCycles > 0 then from + 1 < maxCycles else from < lifetime)
    ensures Resumes(Loop(s, world, cycle, maxCycles, lifetime))
    decreases from + 1 - cycle
  {
    hide Good, Ask, Follows, Round, Head, TameWorld, Works;
    TameIsSteady(world);
    HeadGoes(s, world, cycle);
    var s1 := Head(s, world, cycle).0;
    RoundIsTame(s1, world, cycle + 1, maxCycles, how, from);
    var (r, d) := Round(s1, world, cycle + 1, maxCycles);
    if d == Again {
      LoopResumes(r, world, cycle + 1, maxCycles, lifetime, how, from);
    }
  }

  /**
   Self-healing does not park a task that can be healed: whatever failed before, if from some
   question on local searches work and their corrections stand, and the maximum leaves enough
   cycles to get there, the last thing the worker does is to resume the task.
   */
  lemma EventuallyResumes(s: State, world: World, configured: int, lifetime: nat, how: Correction, from: nat)
    requires Good(s) && s.log == [] && !Cancelled(s) && TameWorld(world) && Works(world, how, from)
    requires if configured > 0 then from + 1 < configured else from < lifetime
    ensures Resumes(Recovered(s, world, configured, lifetime))
  {
    hide Good, Ask, Follows, Loop, TameWorld, Works;
    TameIsSteady(world);
    assert Steady(world(s.at)) by {
      OneAnswer(world, s.at);
    }
    AskSteady(s, world);
    LoopResumes(Ask(s, world), world, 0, Maximum(configured), lifetime, how, from);
    FinalAskKeeps(Worked(s, world, configured, lifetime), world);
  }

  lemma OneAnswer(world: World, n: nat)
    requires TameWorld(world)
    ensures Steady(world(n))
  {
  }

  lemma FinalAskKeeps(s: State, world: World)
    requires Good(s)
    ensures Ask(s, world).log == s.log
  {
  }

  // ---- when a correction and a recovery count --------------------------------------------------------------

  /** The task is resumed exactly when the recovery call returns and a paused task is activated again. */
  lemma ResumedIff(s: State, world: World)
    requires Good(s) && Justified(s.log + [Resumed], |s.log|)
    ensures var a, r := world(s.at), HandleRecovered(s, world);
            && (r.0.log == s.log + [Resumed] <==> a.recovery.Success? && (!a.turn.paused || a.activated))
            && (r.0.log == s.log || r.0.log == s.log + [Resumed])
            && (a.recovery.Raised? ==> r.1 == a.recovery)
  {
    hide Good, Follows, Justified;
  }

  /** The question of round k of the polling that begins at question `at`. */
  function PollQuestion(at: nat, k: nat): nat {
    at + 2 * k + 1
  }

  /** Neither an error nor an outcome is reported. */
  predicate Silent(a: Answer) {
    a.correction.Success? && !a.completed && !a.failed
  }

  /** Round k is the first one that reports anything, and it reports completion. */
  ghost predicate CompletesAt(world: World, at: nat, k: nat) {
    && (forall j :: 0 <= j < k ==> Silent(world(PollQuestion(at, j))))
    && world(PollQuestion(at, k)).correction.Success? && world(PollQuestion(at, k)).completed
  }

  /** Unless somebody interferes, an accepted correction stands exactly when completion is the first thing reported in time. */
  lemma {:induction false} PollCompletesIff(s: State, world: World, rounds: nat)
    requires Good(s) && Calm(s) && SteadyWorld(world)
    ensures (Poll(s, world, rounds).1 && Poll(s, world, rounds).2.Success?) <==>
              exists k :: 0 <= k < rounds && CompletesAt(world, s.at, k)
    decreases rounds
  {
    hide Good, Ask, Follows, SteadyWorld, CompletesAt;
    if rounds > 0 {
      AskSteady(s, world);
      var s1 := Ask(s, world);
      AskSteady(s1, world);
      var a, s2 := world(s1.at), Ask(s1, world);
      CompletesFirst(world, s.at, rounds);
      if Silent(a) {
        PollCompletesIff(s2, world, rounds - 1);
        PollShift(world, s.at, s2.at, rounds);
      }
    }
  }

  lemma CompletesFirst(world: World, at: nat, rounds: nat)
    requires rounds > 0
    ensures PollQuestion(at, 0) == at + 1
    ensures var a := world(at + 1);
            !Silent(a) ==>
              ((exists k :: 0 <= k < rounds && CompletesAt(world, at, k)) <==> a.correction.Success? && a.completed)
  {
    var a := world(PollQuestion(at, 0));
    if a.correction.Success? && a.completed {
      assert CompletesAt(world, at, 0);
    }
  }

  lemma OneRoundLater(world: World, at: nat, next: nat, k: nat)
    requires next == at + 2 && Silent(world(PollQuestion(at, 0)))
    ensures CompletesAt(world, next, k) <==> CompletesAt(world, at, k + 1)
  {
    assert PollQuestion(next, k) == PollQuestion(at, k + 1);
    if CompletesAt(world, next, k) {
      forall j | 0 <= j < k + 1 ensures Silent(world(PollQuestion(at, j))) {
        if j > 0 {
          assert PollQuestion(next, j - 1) == PollQuestion(at, j);
        }
      }
    }
    if CompletesAt(world, at, k + 1) {
      forall j | 0 <= j < k ensures Silent(world(PollQuestion(next, j))) {
        assert PollQuestion(next, j) == PollQuestion(at, j + 1);
      }
    }
  }

  lemma PollShift(world: World, at: nat, next: nat, rounds: nat)
    requires rounds > 0 && next == at + 2 && Silent(world(PollQuestion(at, 0)))
    ensures (exists k :: 0 <= k < rounds - 1 && CompletesAt(world, next, k)) <==> exists k :: 0 <= k < rounds && CompletesAt(world, at, k)
  {
    if k :| 0 <= k < rounds - 1 && CompletesAt(world, next, k) {
      OneRoundLater(world, at, next, k);
    }
    if k :| 0 <= k < rounds && CompletesAt(world, at, k) {
      assert k > 0;
      OneRoundLater(world, at, next, k - 1);
    }
  }
}
