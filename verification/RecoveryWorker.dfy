/**
 The localization recovery worker: a retry loop with many exits, run by one thread while
 others cancel it, resume the task, take over localization or use the recovery arbiter between
 any two of its steps. What collaborators answer and what other threads do is an input: the
 n-th question of the worker is answered by world(n).
 */
module RecoveryWorker {
  import opened Wrappers
  import Arbiter

  datatype Search = Progressive | Local | Global

  /** Why the secondary correction counted as done. */
  datatype Correction = NoInterface | NdtUnavailable | Completed

  /** What the worker had last read of the shared flags. */
  datatype Reading = Reading(paused: bool, operatorActive: bool, cancelled: bool)

  /** What the worker did, in order. */
  datatype Event =
    | CycleStarted(n: nat)
    | Tried(kind: Search, read: Reading)
    | Searched(kind: Search)
    | Corrected(how: Correction)
    | Gate(offered: bool, passed: bool)
    | HandoffFailed
    | AbsoluteStable(read: Reading)
    | Resumed
    | FeatureFound
    | SafeHold(read: Reading)

  /** How a guarded block ends when it does not succeed. */
  datatype Error = Superseded | LateHandoff | OtherError

  datatype Ending = Success | Raised(error: Error)

  datatype Decision = Stop | Again

  /** The moves of other threads before the worker goes on. */
  datatype Turn = Turn(cancels: nat, stop: bool, paused: bool, operatorActive: bool, arbiter: seq<Arbiter.Op>)

  /** One answer; each question reads the fields it needs. */
  datatype Answer = Answer(
    turn: Turn, fails: bool, progressiveEnd: Ending, localEnd: Ending, globalEnd: Ending, gateEnd: Ending,
    correction: Ending, recovery: Ending,
    progressive: bool, seeds: nat, hasTask: bool,
    callable: bool, accepted: bool, unavailable: bool, polls: nat, completed: bool, failed: bool,
    gate: bool, passed: bool, activated: bool, stable: bool, laser: bool, found: bool, globalSearch: bool)

  function SearchEnd(a: Answer, kind: Search): Ending {
    match kind
    case Progressive => a.progressiveEnd
    case Local => a.localEnd
    case Global => a.globalEnd
  }

  type World = nat -> Answer

  /** mine and lease belong to the worker, at counts its questions; the rest is shared. */
  datatype State = State(
    mine: nat, lease: Arbiter.Lease, generation: nat, stopping: bool, paused: bool, operatorActive: bool,
    locked: bool, arbiter: Arbiter.State, log: seq<Event>, cancelledAt: Option<nat>, at: nat)

  predicate Cancelled(s: State) {
    s.stopping || s.generation != s.mine
  }

  function Read(s: State): Reading {
    Reading(s.paused, s.operatorActive, Cancelled(s))
  }

  // ---- what the log promises ------------------------------------------------------------------------

  /**
   No seed or global search while an operator is at work, no seed after a cancellation, and
   neither a late resume nor a safe hold of a task that is not paused.
   */
  predicate Permitted(e: Event) {
    && (e.Tried? && e.kind != Progressive ==> !e.read.operatorActive)
    && (e.Tried? && e.kind == Local ==> !e.read.cancelled)
    && (e.AbsoluteStable? ==> e.read.paused && !e.read.operatorActive)
    && (e.SafeHold? ==> e.read.paused)
  }

  /** A resume follows a search, its correction and any final gate it has to pass, or a late hand-off that became stable. */
  predicate Justified(log: seq<Event>, i: nat)
    requires i < |log|
  {
    (i >= 2 && log[i - 1].Corrected? && log[i - 2].Searched? && log[i - 2].kind != Progressive) ||
    (i >= 3 && log[i - 1].Gate? && (log[i - 1].offered ==> log[i - 1].passed) && log[i - 2].Corrected? && log[i - 3] == Searched(Progressive)) ||
    (i >= 2 && log[i - 1].AbsoluteStable? && log[i - 2].HandoffFailed?)
  }

  ghost predicate Safe(log: seq<Event>) {
    forall i :: 0 <= i < |log| ==> Permitted(log[i]) && (log[i].Resumed? ==> Justified(log, i))
  }

  function Cycles(log: seq<Event>): nat {
    if log == [] then 0 else Cycles(log[..|log| - 1]) + if log[|log| - 1].CycleStarted? then 1 else 0
  }

  /** Nothing that a cancellation check guards happens from the cancellation on: no cycle, no completed correction. */
  ghost predicate Obedient(log: seq<Event>, from: Option<nat>) {
    from.Some? ==>
      && from.value <= |log|
      && (forall i :: from.value <= i < |log| ==> !log[i].CycleStarted?)
      && (forall i :: from.value < i < |log| ==> log[i] != Corrected(Completed))
  }

  /** The arbiter has seen this lease: a live lease is this one or a newer one. */
  ghost predicate Owned(a: Arbiter.State, l: Arbiter.Lease) {
    && l.generation <= a.generation
    && (a.lease.Some? ==>
          && l.generation <= a.lease.value.generation <= a.generation
          && (a.lease.value.generation == l.generation ==> a.lease.value == l))
  }

  ghost predicate Good(s: State) {
    && Safe(s.log) && s.generation >= s.mine
    && (Cancelled(s) <==> s.cancelledAt.Some?)
    && Obedient(s.log, s.cancelledAt)
    && Owned(s.arbiter, s.lease)
  }

  /** The last thing logged is a successful feature search. */
  predicate Found(s: State) {
    s.log != [] && s.log[|s.log| - 1] == FeatureFound
  }

  /** r continues s within one cycle. */
  ghost predicate Follows(s: State, r: State) {
    && r.mine == s.mine && r.lease == s.lease && r.locked == s.locked
    && Cycles(r.log) == Cycles(s.log)
    && (Found(r) ==> Found(s))
    && Good(r)
  }

  lemma {:induction false} OwnedKept(a: Arbiter.State, l: Arbiter.Lease, ops: seq<Arbiter.Op>)
    requires Owned(a, l)
    ensures Owned(Arbiter.Run(a, ops), l)
  {
    if ops != [] {
      OwnedKept(a, l, ops[..|ops| - 1]);
    }
  }

  /** Other threads run while the worker asks its next question. */
  function Ask(s: State, world: World): (r: State)
    requires Good(s)
    ensures Follows(s, r) && r.log == s.log
    ensures if Cancelled(s) then Cancelled(r) && r.cancelledAt == s.cancelledAt
            else r.cancelledAt.None? || r.cancelledAt.value == |r.log|
  {
    var turn := world(s.at).turn;
    var generation, stopping := s.generation + turn.cancels, s.stopping || turn.stop;
    var cancelled := stopping || generation != s.mine;
    OwnedKept(s.arbiter, s.lease, turn.arbiter);
    s.(generation := generation, stopping := stopping, paused := turn.paused, operatorActive := turn.operatorActive,
       arbiter := Arbiter.Run(s.arbiter, turn.arbiter), at := s.at + 1,
       cancelledAt := if cancelled && s.cancelledAt.None? then Some(|s.log|) else s.cancelledAt)
  }

  lemma SafeSnoc(log: seq<Event>, e: Event)
    requires Safe(log) && Permitted(e) && (e.Resumed? ==> Justified(log + [e], |log|))
    ensures Safe(log + [e])
  {
    hide Permitted;
    forall i | 0 <= i < |log + [e]|
      ensures Permitted((log + [e])[i]) && ((log + [e])[i].Resumed? ==> Justified(log + [e], i))
    {
      if i < |log| {
        assert Permitted(log[i]) && (log[i].Resumed? ==> Justified(log, i));
      }
    }
  }

  lemma CyclesSnoc(log: seq<Event>, e: Event)
    ensures Cycles(log + [e]) == Cycles(log) + if e.CycleStarted? then 1 else 0
  {
    assert (log + [e])[..|log|] == log;
  }

  function Note(s: State, e: Event): (r: State)
    requires Good(s) && !e.CycleStarted? && Permitted(e) && (e.Resumed? ==> Justified(s.log + [e], |s.log|))
    requires e == Corrected(Completed) ==> s.cancelledAt.None? || s.cancelledAt.value == |s.log|
    ensures r == s.(log := s.log + [e]) && Good(r) && Cycles(r.log) == Cycles(s.log)
  {
    SafeSnoc(s.log, e);
    CyclesSnoc(s.log, e);
    s.(log := s.log + [e])
  }

  // ---- the worker's steps as functions of the answers ---------------------------------------------------

  /** `_handle_task_localization_recovered`: without an active execution group the task is left paused. */
  function HandleRecovered(s: State, world: World): (r: (State, Ending))
    requires Good(s) && Justified(s.log + [Resumed], |s.log|)
    ensures Follows(s, r.0)
  {
    var a, s1 := world(s.at), Ask(s, world);
    if a.recovery.Raised? then (s1, a.recovery)
    else if s1.paused && !a.activated then (s1, Success)
    else
      var s2 := Note(s1, Resumed);
      (Ask(s2, world), world(s2.at).recovery)
  }

  /** The polling loop of the secondary correction: each round checks for a cancellation, then reads the status. */
  function Poll(s: State, world: World, rounds: nat): (r: (State, bool, Ending))
    requires Good(s)
    ensures Follows(s, r.0) && (r.1 && r.2.Success? ==> r.0.log == s.log + [Corrected(Completed)])
    ensures !(r.1 && r.2.Success?) ==> r.0.log == s.log
    decreases rounds
  {
    if rounds == 0 then (s, false, Success)
    else
      var s1 := Ask(s, world);
      if Cancelled(s1) then (s1, false, Success)
      else
        var a, s2 := world(s1.at), Ask(s1, world);
        if a.correction.Raised? then (s2, false, a.correction)
        else if a.completed then (Note(s2, Corrected(Completed)), true, Success)
        else if a.failed then (s2, false, Success)
        else Poll(s2, world, rounds - 1)
  }

  /** `_apply_recovery_secondary_correction`: true means the correction stands. */
  function Correct(s: State, world: World): (r: (State, bool, Ending))
    requires Good(s)
    ensures Follows(s, r.0)
    ensures r.1 && r.2.Success? ==> exists how :: r.0.log == s.log + [Corrected(how)]
    ensures !(r.1 && r.2.Success?) ==> r.0.log == s.log
  {
    var a, s1 := world(s.at), Ask(s, world);
    if !a.callable then (Note(s1, Corrected(NoInterface)), true, Success)
    else if a.correction.Raised? then (s1, false, a.correction)
    else if !a.accepted then
      if a.unavailable then (Note(s1, Corrected(NdtUnavailable)), true, Success) else (s1, false, Success)
    else Poll(s1, world, a.polls)
  }

  lemma CorrectionJustifies(log: seq<Event>, kind: Search)
    requires |log| >= 2 && log[|log| - 1].Corrected? && log[|log| - 2] == Searched(kind)
    ensures kind != Progressive ==> Justified(log + [Resumed], |log|)
    ensures kind == Progressive ==>
              Justified(log + [Gate(false, false)] + [Resumed], |log| + 1) && Justified(log + [Gate(false, true)] + [Resumed], |log| + 1)
              && Justified(log + [Gate(true, true)] + [Resumed], |log| + 1)
  {
  }

  /** The final gate of the progressive search; an adapter without one passes. */
  function PassGate(s: State, world: World, kind: Search): (r: (State, Ending))
    requires Good(s) && |s.log| >= 2 && s.log[|s.log| - 1].Corrected? && s.log[|s.log| - 2] == Searched(kind)
    ensures Follows(s, r.0) && (r.1.Success? ==> Justified(r.0.log + [Resumed], |r.0.log|))
  {
    CorrectionJustifies(s.log, kind);
    if kind != Progressive then (s, Success)
    else
      var a, s1 := world(s.at), Ask(s, world);
      if a.gate && a.gateEnd.Raised? then (s1, a.gateEnd)
      else (Note(s1, Gate(a.gate, a.passed)), if a.gate && !a.passed then Raised(OtherError) else Success)
  }

  /** The guarded block of one search: search, correct, pass the final gate if there is one, resume. */
  function SearchAndResume(s: State, world: World, kind: Search): (r: (State, Ending))
    requires Good(s) && Permitted(Tried(kind, Read(s)))
    ensures Follows(s, r.0)
  {
    Searching(Note(s, Tried(kind, Read(s))), world, kind)
  }

  function Searching(s: State, world: World, kind: Search): (r: (State, Ending))
    requires Good(s)
    ensures Follows(s, r.0)
  {
    var end, s1 := SearchEnd(world(s.at), kind), Ask(s, world);
    if end.Raised? then (s1, end) else CorrectAndResume(Note(s1, Searched(kind)), world, kind)
  }

  function CorrectAndResume(s: State, world: World, kind: Search): (r: (State, Ending))
    requires Good(s) && s.log != [] && s.log[|s.log| - 1] == Searched(kind)
    ensures Follows(s, r.0)
  {
    var (s1, done, end) := Correct(s, world);
    if end.Raised? then (s1, end)
    else if !done then (s1, Raised(OtherError))
    else
      var (s2, gate) := PassGate(s1, world, kind);
      if gate.Raised? then (s2, gate) else HandleRecovered(s2, world)
  }

  /** The hand-off has become stable after all. */
  function ResumeStable(s: State, world: World): (r: State)
    requires Good(s) && s.log != [] && s.log[|s.log| - 1].HandoffFailed? && s.paused && !s.operatorActive
    ensures Follows(s, r)
  {
    var s1 := Note(s, AbsoluteStable(Read(s)));
    assert Justified(s1.log + [Resumed], |s1.log|);
    HandleRecovered(s1, world).0
  }

  /** `_wait_for_post_handoff_resume`: true ends the worker, and so does an error raised here. */
  function WaitForHandoff(s: State, world: World, rounds: nat): (r: (State, bool))
    requires Good(s) && s.log != [] && s.log[|s.log| - 1].HandoffFailed?
    ensures Follows(s, r.0)
    decreases rounds
  {
    if rounds == 0 then (s, false)
    else
      var a, s1 := world(s.at), Ask(s, world);
      if a.fails then (s1, true)
      else if s1.operatorActive then (s1, false)
      else if !s1.paused then (s1, true)
      else if a.stable then (ResumeStable(s1, world), true)
      else WaitForHandoff(s1, world, rounds - 1)
  }

  /** The loop over seeds; None means all seeds were tried or a late hand-off did not settle. */
  function TrySeeds(s: State, world: World, seeds: nat): (r: (State, Option<Decision>))
    requires Good(s)
    ensures Follows(s, r.0) && r.1 != Some(Again)
    decreases seeds
  {
    if seeds == 0 then (s, None)
    else
      var a, s1 := world(s.at), Ask(s, world);
      if Cancelled(s1) || s1.operatorActive || a.fails then (s1, Some(Stop))
      else
        var (s2, end) := SearchAndResume(s1, world, Local);
        if end.Success? then (s2, Some(Stop))
        else
          var b, s3 := world(s2.at), Ask(s2, world);
          if b.fails || end.error == Superseded then (s3, Some(Stop))
          else if end.error == LateHandoff then
            var (s4, over) := WaitForHandoff(Note(s3, HandoffFailed), world, b.polls);
            (s4, if over then Some(Stop) else None)
          else TrySeeds(s3, world, seeds - 1)
  }

  /** The global relocalization that ends the escalation, where there is one. */
  function SearchGlobally(s: State, world: World): (r: (State, Option<Decision>))
    requires Good(s)
    ensures Follows(s, r.0) && r.1 != Some(Again)
  {
    var a, s1 := world(s.at), Ask(s, world);
    if !a.globalSearch then (s1, None)
    else if s1.operatorActive || a.fails then (s1, Some(Stop))
    else
      var p := SearchAndResume(s1, world, Global);
      (Ask(p.0, world), if p.1.Success? || world(p.0.at).fails then Some(Stop) else None)
  }

  /** The first cycle's escalation: laser feature search, then global relocalization. */
  function Escalate(s: State, world: World): (r: (State, Option<Decision>))
    requires Good(s) && !Found(s)
    ensures r.0.mine == s.mine && r.0.lease == s.lease && r.0.locked == s.locked && Cycles(r.0.log) == Cycles(s.log) && Good(r.0)
    ensures Found(r.0) <==> r.1 == Some(Again)
  {
    var a, s1 := world(s.at), Ask(s, world);
    if a.fails then (s1, Some(Stop))
    else if a.laser && a.found then (Ask(Note(s1, FeatureFound), world), Some(Again))
    else SearchGlobally(s1, world)
  }

  /** One pass of the loop body after the cycle has been counted. */
  function Pass(s: State, world: World, cycle: nat, maxCycles: nat): (r: (State, Decision))
    requires Good(s) && !Found(s)
    ensures r.0.mine == s.mine && r.0.lease == s.lease && r.0.locked == s.locked && Cycles(r.0.log) == Cycles(s.log) && Good(r.0)
    ensures Found(r.0) ==> r.1 == Again && cycle == 1
    ensures r.1 == Again ==> Found(r.0) || maxCycles == 0 || cycle < maxCycles
  {
    var a, s1 := world(s.at), Ask(s, world);
    if a.fails then (s1, Stop)
    else if !a.progressive then AfterProgressive(s1, world, cycle, maxCycles)
    else
      var (s2, end) := SearchAndResume(s1, world, Progressive);
      var b, s3 := world(s2.at), Ask(s2, world);
      if end.Success? || b.fails || end.error == Superseded then (s3, Stop)
      else AfterProgressive(s3, world, cycle, maxCycles)
  }

  function AfterProgressive(s: State, world: World, cycle: nat, maxCycles: nat): (r: (State, Decision))
    requires Good(s) && !Found(s)
    ensures r.0.mine == s.mine && r.0.lease == s.lease && r.0.locked == s.locked && Cycles(r.0.log) == Cycles(s.log) && Good(r.0)
    ensures Found(r.0) ==> r.1 == Again && cycle == 1
    ensures r.1 == Again ==> Found(r.0) || maxCycles == 0 || cycle < maxCycles
  {
    var a, s1 := world(s.at), Ask(s, world);
    if a.seeds == 0 then EndPass(s1, world, cycle, maxCycles)
    else if a.hasTask && !s1.paused then (s1, Stop)
    else
      var (s2, d) := TrySeeds(s1, world, a.seeds);
      if d.Some? then (s2, Stop)
      else if cycle != 1 then EndPass(s2, world, cycle, maxCycles)
      else
        var (s3, e) := Escalate(s2, world);
        if e.Some? then (s3, e.value) else EndPass(s3, world, cycle, maxCycles)
  }

  /** Give up, stop or wait for the next round. */
  function EndPass(s: State, world: World, cycle: nat, maxCycles: nat): (r: (State, Decision))
    requires Good(s) && !Found(s)
    ensures Follows(s, r.0) && !Found(r.0) && (r.1 == Again ==> maxCycles == 0 || cycle < maxCycles)
  {
    var a, s1 := world(s.at), Ask(s, world);
    if !s1.paused || a.fails then (s1, Stop)
    else if maxCycles > 0 && cycle >= maxCycles then (Note(s1, SafeHold(Read(s1))), Stop)
    else if Cancelled(s1) then (s1, Stop)
    else (Ask(s1, world), Again)
  }

  function Bound(maxCycles: nat): nat {
    if maxCycles > 2 then maxCycles else 2
  }

  /** The count of a new cycle, right after the check of the loop head. */
  function Begin(s: State, n: nat): (r: State)
    requires Good(s) && !Cancelled(s)
    ensures Good(r) && !Found(r) && r == s.(log := s.log + [CycleStarted(n)]) && Cycles(r.log) == Cycles(s.log) + 1
  {
    SafeSnoc(s.log, CycleStarted(n));
    CyclesSnoc(s.log, CycleStarted(n));
    s.(log := s.log + [CycleStarted(n)])
  }

  /** The loop head: the pause is read first, then the cancellation; Some when a cycle starts. */
  function Head(s: State, world: World, cycle: nat): (r: (State, bool))
    requires Good(s)
    ensures Good(r.0) && r.0.mine == s.mine && r.0.lease == s.lease && r.0.locked == s.locked && r.0.log == s.log
    ensures r.1 ==> !Cancelled(r.0)
  {
    var s1 := Ask(s, world);
    if cycle > 0 && !s1.paused then (s1, false)
    else
      var s2 := Ask(s1, world);
      (s2, !Cancelled(s2))
  }

  /** One counted cycle. */
  function Round(s: State, world: World, cycle: nat, maxCycles: nat): (r: (State, Decision))
    requires Good(s) && !Cancelled(s)
    ensures r.0.mine == s.mine && r.0.lease == s.lease && r.0.locked == s.locked && Cycles(r.0.log) == Cycles(s.log) + 1 && Good(r.0)
    ensures Found(r.0) ==> r.1 == Again && cycle == 1
    ensures r.1 == Again ==> Found(r.0) || maxCycles == 0 || cycle < maxCycles
  {
    Pass(Begin(s, cycle), world, cycle, maxCycles)
  }

  /** The loop head and, if it lets one start, the next cycle; true when the loop goes on. */
  function Turnaround(s: State, world: World, cycle: nat, maxCycles: nat, lifetime: nat): (r: (State, bool))
    requires Good(s) && Continuing(cycle, maxCycles)
    ensures Good(r.0) && r.0.mine == s.mine && r.0.lease == s.lease && r.0.locked == s.locked
    ensures r.1 ==> Continuing(cycle + 1, maxCycles) && Left(cycle + 1, maxCycles, lifetime) < Left(cycle, maxCycles, lifetime)
    ensures Cycles(r.0.log) == Cycles(s.log) + (if Head(s, world, cycle).1 && !(maxCycles == 0 && cycle >= lifetime) then 1 else 0)
    ensures r.1 ==> Head(s, world, cycle).1 && !(maxCycles == 0 && cycle >= lifetime)
  {
    var h := Head(s, world, cycle);
    if !h.1 || (maxCycles == 0 && cycle >= lifetime) then (h.0, false)
    else
      var p := Round(h.0, world, cycle + 1, maxCycles);
      (p.0, p.1 == Again)
  }

  /** The while loop after `cycle` cycles; without a maximum the process lives for at most `lifetime` of them. */
  function Loop(s: State, world: World, cycle: nat, maxCycles: nat, lifetime: nat): (r: State)
    requires Good(s) && Continuing(cycle, maxCycles)
    ensures Good(r) && r.mine == s.mine && r.lease == s.lease && r.locked == s.locked
    decreases Left(cycle, maxCycles, lifetime)
  {
    var p := Turnaround(s, world, cycle, maxCycles, lifetime);
    if p.1 then Loop(p.0, world, cycle + 1, maxCycles, lifetime) else p.0
  }

  /** The loop is entered again only after the first cycle or below the maximum. */
  predicate Continuing(cycle: nat, maxCycles: nat) {
    cycle <= 1 || maxCycles == 0 || cycle < maxCycles
  }

  function Left(cycle: nat, maxCycles: nat, lifetime: nat): nat {
    var limit := if maxCycles > 0 then Bound(maxCycles) else lifetime;
    if cycle < limit then limit - cycle else 0
  }

  lemma {:induction false} LoopBound(s: State, world: World, cycle: nat, maxCycles: nat, lifetime: nat)
    requires Good(s) && Continuing(cycle, maxCycles) && Cycles(s.log) == cycle
    ensures var n := Cycles(Loop(s, world, cycle, maxCycles, lifetime).log);
            cycle <= n && (maxCycles > 0 ==> n <= Bound(maxCycles))
    decreases Left(cycle, maxCycles, lifetime)
  {
    hide Turnaround, Cycles, Good;
    var p := Turnaround(s, world, cycle, maxCycles, lifetime);
    if p.1 {
      LoopBound(p.0, world, cycle + 1, maxCycles, lifetime);
    }
  }

  /** The checks before the loop; false when the worker leaves at once. */
  function Enter(s: State, world: World): (r: (State, bool))
    requires Good(s)
    ensures Follows(s, r.0) && r.0.log == s.log
  {
    var a, s1 := world(s.at), Ask(s, world);
    (s1, !Cancelled(s1) && !s1.operatorActive && !a.fails)
  }

  function Maximum(configured: int): nat {
    if configured > 0 then configured else 0
  }

  /** Everything up to the `finally` block. */
  function Worked(s: State, world: World, configured: int, lifetime: nat): (r: State)
    requires Good(s) && s.log == []
    ensures Good(r) && r.mine == s.mine && r.lease == s.lease && r.locked == s.locked
  {
    var (s1, go) := Enter(s, world);
    if go then Loop(s1, world, 0, Maximum(configured), lifetime) else s1
  }

  /** `_recover_task_localization`: on every way out the worker's lease and then the lock are released. */
  function Recovered(s: State, world: World, configured: int, lifetime: nat): State
    requires Good(s) && s.log == []
  {
    var s1 := Ask(Worked(s, world, configured, lifetime), world);
    s1.(arbiter := Arbiter.Step(s1.arbiter, Arbiter.Release(Some(s.lease))), locked := false)
  }

  // ---- what every run of the worker guarantees ------------------------------------------------------------

  /**
   Whatever other threads do and collaborators answer: the lock is free afterwards; this lease
   is no longer live, and a lease that is live is newer and untouched by the release; no cycle
   starts after a cancellation; every resume is justified; no seed is searched from after a
   cancellation, nor any seed or globally while an operator is at work; only a paused task is
   resumed late or held; with a maximum M > 0 at most
   max(M, 2) cycles start.
   */
  lemma RecoveryGuarantees(s: State, world: World, configured: int, lifetime: nat)
    requires Good(s) && s.log == []
    ensures var before, r := Ask(Worked(s, world, configured, lifetime), world), Recovered(s, world, configured, lifetime);
            && !r.locked
            && r.arbiter == before.arbiter.(lease := r.arbiter.lease)
            && r.arbiter.lease != Some(s.lease)
            && (before.arbiter.lease != Some(s.lease) ==> r.arbiter.lease == before.arbiter.lease)
            && (r.arbiter.lease.Some? ==> r.arbiter.lease.value.generation > s.lease.generation)
            && Safe(r.log) && Obedient(r.log, r.cancelledAt)
            && (forall i :: 0 <= i < |r.log| && r.log[i].Tried? && r.log[i].kind != Progressive ==> !r.log[i].read.operatorActive)
            && (forall i :: 0 <= i < |r.log| && r.log[i].Tried? && r.log[i].kind == Local ==> !r.log[i].read.cancelled)
            && (forall i :: 0 <= i < |r.log| && r.log[i].AbsoluteStable? ==> r.log[i].read.paused && !r.log[i].read.operatorActive)
            && (forall i :: 0 <= i < |r.log| && r.log[i].SafeHold? ==> r.log[i].read.paused)
            && (configured > 0 ==> Cycles(r.log) <= Bound(configured))
  {
    hide Worked, Safe, Obedient, Cycles, Ask, Permitted;
    WorkedBound(s, world, configured, lifetime);
    SafeMeans(Recovered(s, world, configured, lifetime).log);
  }

  lemma SafeMeans(log: seq<Event>)
    requires Safe(log)
    ensures forall i :: 0 <= i < |log| && log[i].Tried? && log[i].kind != Progressive ==> !log[i].read.operatorActive
    ensures forall i :: 0 <= i < |log| && log[i].Tried? && log[i].kind == Local ==> !log[i].read.cancelled
    ensures forall i :: 0 <= i < |log| && log[i].AbsoluteStable? ==> log[i].read.paused && !log[i].read.operatorActive
    ensures forall i :: 0 <= i < |log| && log[i].SafeHold? ==> log[i].read.paused
  {
  }

  lemma WorkedBound(s: State, world: World, configured: int, lifetime: nat)
    requires Good(s) && s.log == []
    ensures configured > 0 ==> Cycles(Worked(s, world, configured, lifetime).log) <= Bound(configured)
  {
    hide Loop, Good;
    var (s1, go) := Enter(s, world);
    if go {
      LoopBound(s1, world, 0, Maximum(configured), lifetime);
    }
  }

  /** The state after the first pass, if there is one. */
  function FirstPass(s: State, world: World, configured: int): (r: Option<State>)
    requires Good(s) && s.log == []
    ensures r.Some? ==> Good(r.value) && Cycles(r.value.log) == 1
  {
    var (s1, entered) := Enter(s, world);
    var (s2, go) := Head(s1, world, 0);
    if entered && go then Some(Round(s2, world, 1, Maximum(configured)).0) else None
  }

  /** The first cycle's feature search succeeds and the loop head then lets a second cycle start. */
  predicate SearchRestarts(s: State, world: World, configured: int)
    requires Good(s) && s.log == []
  {
    var first := FirstPass(s, world, configured);
    first.Some? && Found(first.value) && Head(first.value, world, 1).1
  }

  /** With a maximum of one a second cycle starts exactly after a successful feature search. */
  lemma SecondCycle(s: State, world: World, lifetime: nat)
    requires Good(s) && Cycles(s.log) == 1
    ensures Cycles(Loop(s, world, 1, 1, lifetime).log) == if Head(s, world, 1).1 then 2 else 1
  {
    hide Head, Cycles, Turnaround, Good;
    var p := Turnaround(s, world, 1, 1, lifetime);
  }

  /** Exactly when the configured maximum holds: it is at least two, or no feature search of the first cycle restarts the loop. */
  lemma CyclesWithinMaximumIff(s: State, world: World, configured: int, lifetime: nat)
    requires Good(s) && s.log == [] && configured > 0
    ensures Cycles(Recovered(s, world, configured, lifetime).log) <= configured
       <==> configured >= 2 || !SearchRestarts(s, world, configured)
  {
    hide Round, Head, Ask, Enter, Good;
    RecoveryGuarantees(s, world, configured, lifetime);
    if configured == 1 {
      var (s1, entered) := Enter(s, world);
      var (s2, go) := Head(s1, world, 0);
      if entered && go {
        var (s3, d) := Round(s2, world, 1, 1);
        assert Loop(s1, world, 0, 1, lifetime) == if d == Stop then s3 else Loop(s3, world, 1, 1, lifetime);
        if d == Again {
          SecondCycle(s3, world, lifetime);
        }
      }
    }
  }

  // ---- a maximum of one, and two cycles ---------------------------------------------------------------------

  const CALM := Turn(0, false, true, false, [])

  /** One seed, everything at hand succeeds, nothing more is offered. */
  const PLAIN := Answer(
    turn := CALM, fails := false, progressiveEnd := Success, localEnd := Success, globalEnd := Success, gateEnd := Success,
    correction := Success, recovery := Success, progressive := false, seeds := 1, hasTask := true,
    callable := false, accepted := false, unavailable := false, polls := 0, completed := false, failed := false,
    gate := false, passed := false, activated := true, stable := false, laser := false, found := false, globalSearch := false)

  /** One seed whose search fails, and a feature search that succeeds. */
  const FEATURES := PLAIN.(localEnd := Raised(OtherError), laser := true, found := true)

  /** The worker's first moment with the given lease just granted. */
  function Started(lease: Arbiter.Lease, budget: Arbiter.Budget): (s: State)
    requires lease.generation >= 0
    ensures Good(s) && Calm(s) && s.log == [] && s.locked
  {
    State(0, lease, 0, false, true, false, true, Arbiter.State(lease.generation, Some(lease), budget), [], None, 0)
  }

  const CLEAR := Reading(true, false, false)

  /** Nobody cancelled, the task is paused and no operator is at work. */
  predicate Calm(s: State) {
    !Cancelled(s) && s.paused && !s.operatorActive
  }

  lemma AskCalm(s: State, world: World)
    requires Good(s) && Calm(s) && world(s.at).turn == CALM
    ensures Good(Ask(s, world)) && Ask(s, world) == s.(at := s.at + 1)
  {
  }

  lemma SeedFails(s: State, world: World)
    requires Good(s) && Calm(s) && forall n :: world(n) == FEATURES
    ensures TrySeeds(s, world, 1) == (s.(at := s.at + 3, log := s.log + [Tried(Local, CLEAR)]), None)
  {
    hide Good, Ask, Follows;
    AskCalm(s, world);
    var s1 := s.(at := s.at + 1);
    var tried := Note(s1, Tried(Local, CLEAR));
    AskCalm(tried, world);
    var s2 := tried.(at := tried.at + 1);
    assert SearchAndResume(s1, world, Local) == (s2, Raised(OtherError));
    AskCalm(s2, world);
    var s3 := s2.(at := s2.at + 1);
    assert TrySeeds(s3, world, 0) == (s3, None);
  }

  lemma FirstPassFinds(s: State, world: World)
    requires Good(s) && !Found(s) && Calm(s) && forall n :: world(n) == FEATURES
    ensures var (r, d) := Pass(s, world, 1, 1); Found(r) && Calm(r)
  {
    hide Good, Ask, TrySeeds, EndPass;
    AskCalm(s, world);
    var s1 := s.(at := s.at + 1);
    AskCalm(s1, world);
    var s2 := s1.(at := s1.at + 1);
    SeedFails(s2, world);
    var s3 := s2.(at := s2.at + 3, log := s2.log + [Tried(Local, CLEAR)]);
    assert Good(s3) && !Found(s3);
    AskCalm(s3, world);
    var s4 := Note(s3.(at := s3.at + 1), FeatureFound);
    AskCalm(s4, world);
    assert Escalate(s3, world) == (s4.(at := s4.at + 1), Some(Again));
  }

  lemma CalmHead(s: State, world: World, cycle: nat)
    requires Good(s) && Calm(s) && forall n :: world(n) == FEATURES
    ensures Head(s, world, cycle) == (s.(at := s.at + 2), true)
  {
    hide Good, Ask, Follows;
    AskCalm(s, world);
    AskCalm(s.(at := s.at + 1), world);
  }

  /** A configured maximum of one, and two cycles: the run that the bound max(M, 2) allows. */
  lemma OneMayBecomeTwo(lease: Arbiter.Lease, budget: Arbiter.Budget, lifetime: nat)
    requires lease.generation >= 0
    ensures var s, world := Started(lease, budget), (n: nat) => FEATURES;
            SearchRestarts(s, world, 1) && Cycles(Recovered(s, world, 1, lifetime).log) == 2
  {
    hide Good, Ask, Follows, Pass, Head, Loop;
    var s, world := Started(lease, budget), (n: nat) => FEATURES;
    AskCalm(s, world);
    var s1 := s.(at := s.at + 1);
    CalmHead(s1, world, 0);
    var s2 := Begin(s1.(at := s1.at + 2), 1);
    FirstPassFinds(s2, world);
    var first := Pass(s2, world, 1, 1).0;
    CalmHead(first, world, 1);
    assert Enter(s, world) == (s1, true);
    assert FirstPass(s, world, 1) == Some(first);
    CyclesWithinMaximumIff(s, world, 1, lifetime);
    RecoveryGuarantees(s, world, 1, lifetime);
  }
}
