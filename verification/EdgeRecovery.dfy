/**
 The edge agent's recovery as it runs: the loss handler that takes the lock and the lease, and
 the worker thread that gives both back. Each method is proved to do what the functions of
 `RecoveryWorker` say for the same answers.
 */
module EdgeRecovery {
  import opened Wrappers
  import Arbiter
  import opened RecoveryWorker

  /** The circumstances in which a localization loss is reported. */
  datatype Situation = Situation(operatorActive: bool, ndtOnly: bool, rtkAnchored: bool, hasTask: bool, mapping: bool)

  predicate Actionable(s: Situation) {
    !s.operatorActive && !(s.ndtOnly && s.rtkAnchored) && s.hasTask && !s.mapping
  }

  /** Which of the calls between taking the lock and starting the thread raise. */
  datatype Setback = Setback(safeHold: bool, completion: bool, thread: bool)

  /** The lock stays taken for ever: an unguarded call raises after it was acquired. */
  predicate Leaks(s: Situation, locked: bool, a: Arbiter.State, now: real, setback: Setback) {
    Actionable(s) && !locked &&
    if Arbiter.Exhausted(a.budget, now) then setback.safeHold || setback.completion
    else if a.lease.Some? then setback.completion
    else setback.thread
  }

  const OWNER := "EDGE_LOCALIZATION"

  /** The lock and the lease are both taken and the worker's thread starts. */
  predicate Starts(s: Situation, locked: bool, a: Arbiter.State, now: real, setback: Setback) {
    Actionable(s) && !locked && !Arbiter.Exhausted(a.budget, now) && a.lease.None? && !setback.thread
  }

  /** The arbiter is asked whenever the lock was free. */
  function ArbiterAfter(s: Situation, reason: string, locked: bool, a: Arbiter.State, now: real): Arbiter.State {
    if Actionable(s) && !locked then Arbiter.Step(a, Arbiter.Acquire(OWNER, reason, 0.0, now)) else a
  }

  class EdgeAgent {
    const arbiter: Arbiter.RecoveryArbiter
    const world: World
    // shared with other threads
    var generation: nat
    var stopping: bool
    var paused: bool
    var operatorActive: bool
    var locked: bool
    // the worker's own
    var mine: nat
    var lease: Arbiter.Lease
    var at: nat
    ghost var log: seq<Event>
    /** Length of the log when this worker's generation was first cancelled. */
    ghost var cancelledAt: Option<nat>

    ghost function Contents(): State
      reads this, arbiter
    {
      State(mine, lease, generation, stopping, paused, operatorActive, locked, arbiter.Contents(), log, cancelledAt, at)
    }

    constructor (a: Arbiter.RecoveryArbiter, answers: World)
      ensures arbiter == a && world == answers && !locked && generation == 0 && at == 0
    {
      arbiter, world := a, answers;
      generation, stopping, paused, operatorActive, locked := 0, false, false, false, false;
      mine, lease, at := 0, Arbiter.Lease("", 0, "", 0.0), 0;
      log, cancelledAt := [], None;
    }

    /**
     `_handle_task_localization_loss`: a worker starts only with the lock and a freshly granted
     lease. When a call in between raises, the lock is never given back and no later loss
     starts a worker; a thread that cannot start leaves the lease live as well.
     */
    method HandleLoss(s: Situation, reason: string, now: real, setback: Setback) returns (started: bool, raised: bool)
      modifies this, arbiter
      ensures started <==> Starts(s, old(locked), old(arbiter.Contents()), now, setback)
      ensures started || raised ==> !s.operatorActive && !(s.ndtOnly && s.rtkAnchored) && s.hasTask && !s.mapping && !old(locked)
      ensures !s.operatorActive && !(s.ndtOnly && s.rtkAnchored) && s.hasTask && !s.mapping ==>
                (!old(locked) && old(arbiter.lease).None? && !Arbiter.Exhausted(old(arbiter.budget), now) ==> started || raised)
      ensures raised <==> Leaks(s, old(locked), old(arbiter.Contents()), now, setback)
      ensures locked <==> old(locked) || started || raised
      ensures arbiter.Contents() == ArbiterAfter(s, reason, old(locked), old(arbiter.Contents()), now)
      ensures started ==>
                Good(Contents()) && log == [] && mine == generation == old(generation) && arbiter.lease == Some(lease)
    {
      started, raised := false, false;
      if !Actionable(s) || locked {
        return;
      }
      locked := true;
      var granted: Option<Arbiter.Lease> := None;
      if Arbiter.Exhausted(arbiter.budget, now) {
        if setback.safeHold {
          return false, true;
        }
      } else {
        granted := arbiter.TryAcquire(OWNER, reason, 0.0, now);
      }
      if granted.None? {
        if setback.completion {
          return false, true;
        }
        locked := false;
        return;
      }
      if setback.thread {
        return false, true;
      }
      mine, lease, log := generation, granted.value, [];
      cancelledAt := if stopping then Some(0) else None;
      started := true;
    }

    /** One operation of another thread on the arbiter. */
    method Other(op: Arbiter.Op)
      modifies arbiter
      ensures arbiter.Contents() == Arbiter.Step(old(arbiter.Contents()), op)
    {
      match op
      case Acquire(owner, reason, distance, now) =>
        var granted := arbiter.TryAcquire(owner, reason, distance, now);
      case Release(l) =>
        var released := arbiter.TryRelease(l);
      case ReleaseGeneration(holder, g) =>
        var released := arbiter.TryReleaseGeneration(holder, g);
      case ForceRelease =>
        arbiter.Force();
      case ResetBudget =>
        arbiter.Reset();
    }

    method Others(ops: seq<Arbiter.Op>)
      modifies arbiter
      ensures arbiter.Contents() == Arbiter.Run(old(arbiter.Contents()), ops)
    {
      hide Arbiter.Step;
      for i := 0 to |ops|
        invariant arbiter.Contents() == Arbiter.Run(old(arbiter.Contents()), ops[..i])
      {
        Other(ops[i]);
        assert ops[..i + 1][..i] == ops[..i];
      }
      assert ops[..|ops|] == ops;
    }

    /** The worker asks; other threads have run meanwhile. */
    method AskNext() returns (a: Answer)
      requires Good(Contents())
      modifies this, arbiter
      ensures Contents() == Ask(old(Contents()), world) && a == world(old(at))
    {
      hide Good, Follows, Arbiter.Run;
      a := world(at);
      Others(a.turn.arbiter);
      Meanwhile(a.turn);
    }

    /** What other threads do to the agent's own fields. */
    method Meanwhile(turn: Turn)
      modifies this
      ensures mine == old(mine) && lease == old(lease) && locked == old(locked) && log == old(log) && at == old(at) + 1
      ensures generation == old(generation) + turn.cancels && stopping == (old(stopping) || turn.stop)
      ensures paused == turn.paused && operatorActive == turn.operatorActive
      ensures cancelledAt ==
                if (stopping || generation != mine) && old(cancelledAt).None? then Some(|log|) else old(cancelledAt)
    {
      generation, stopping := generation + turn.cancels, stopping || turn.stop;
      paused, operatorActive, at := turn.paused, turn.operatorActive, at + 1;
      if (stopping || generation != mine) && cancelledAt.None? {
        cancelledAt := Some(|log|);
      }
    }

    method Write(e: Event)
      requires Good(Contents()) && !e.CycleStarted? && Permitted(e) && (e.Resumed? ==> Justified(log + [e], |log|))
      requires e == Corrected(Completed) ==> cancelledAt.None? || cancelledAt.value == |log|
      modifies this`log
      ensures Contents() == Note(old(Contents()), e)
    {
      hide Good;
      log := log + [e];
    }

    method Count(cycle: nat)
      requires Good(Contents()) && !Cancelled(Contents())
      modifies this`log
      ensures Contents() == Begin(old(Contents()), cycle)
    {
      hide Good;
      log := log + [CycleStarted(cycle)];
    }

    method Resume() returns (end: Ending)
      requires Good(Contents()) && Justified(log + [Resumed], |log|)
      modifies this, arbiter
      ensures (Contents(), end) == HandleRecovered(old(Contents()), world)
    {
      hide Good, Ask, Justified;
      var a := AskNext();
      if a.recovery.Raised? {
        return a.recovery;
      }
      if paused && !a.activated {
        return Success;
      }
      Write(Resumed);
      a := AskNext();
      return a.recovery;
    }

    method PollCorrection(rounds: nat) returns (done: bool, end: Ending)
      requires Good(Contents())
      modifies this, arbiter
      ensures (Contents(), done, end) == Poll(old(Contents()), world, rounds)
    {
      hide Good, Ask;
      done, end := false, Success;
      for i := 0 to rounds
        invariant Good(Contents()) && Poll(old(Contents()), world, rounds) == Poll(Contents(), world, rounds - i)
        invariant !done && end == Success
      {
        var a := AskNext();
        if stopping || generation != mine {
          return;
        }
        a := AskNext();
        if a.correction.Raised? {
          return false, a.correction;
        }
        if a.completed {
          Write(Corrected(Completed));
          return true, Success;
        }
        if a.failed {
          return;
        }
      }
    }

    method ApplyCorrection() returns (done: bool, end: Ending)
      requires Good(Contents())
      modifies this, arbiter
      ensures (Contents(), done, end) == Correct(old(Contents()), world)
    {
      hide Good, Ask, Poll;
      var a := AskNext();
      if !a.callable {
        Write(Corrected(NoInterface));
        return true, Success;
      }
      if a.correction.Raised? {
        return false, a.correction;
      }
      if !a.accepted {
        if a.unavailable {
          Write(Corrected(NdtUnavailable));
        }
        return a.unavailable, Success;
      }
      done, end := PollCorrection(a.polls);
    }

    method FinalGate(kind: Search) returns (end: Ending)
      requires Good(Contents()) && |log| >= 2 && log[|log| - 1].Corrected? && log[|log| - 2] == Searched(kind)
      modifies this, arbiter
      ensures (Contents(), end) == PassGate(old(Contents()), world, kind)
    {
      hide Good, Ask;
      if kind != Progressive {
        return Success;
      }
      var a := AskNext();
      if a.gate && a.gateEnd.Raised? {
        return a.gateEnd;
      }
      Write(Gate(a.gate, a.passed));
      return if a.gate && !a.passed then Raised(OtherError) else Success;
    }

    /** What the worker last read of the shared flags. */
    function LastRead(): Reading
      reads this
    {
      Reading(paused, operatorActive, stopping || generation != mine)
    }

    method TrySearch(kind: Search) returns (end: Ending)
      requires Good(Contents()) && Permitted(Tried(kind, LastRead()))
      modifies this, arbiter
      ensures (Contents(), end) == SearchAndResume(old(Contents()), world, kind)
    {
      hide Good, Ask, CorrectAndResume, Justified;
      Write(Tried(kind, LastRead()));
      var a := AskNext();
      end := SearchEnd(a, kind);
      if end.Success? {
        Write(Searched(kind));
        end := CorrectAndGo(kind);
      }
    }

    method CorrectAndGo(kind: Search) returns (end: Ending)
      requires Good(Contents()) && log != [] && log[|log| - 1] == Searched(kind)
      modifies this, arbiter
      ensures (Contents(), end) == CorrectAndResume(old(Contents()), world, kind)
    {
      hide Good, Ask, Correct, PassGate, HandleRecovered, Justified;
      var done;
      done, end := ApplyCorrection();
      if end.Raised? {
        return;
      }
      if !done {
        return Raised(OtherError);
      }
      end := FinalGate(kind);
      if end.Success? {
        end := Resume();
      }
    }

    method AwaitHandoff(rounds: nat) returns (over: bool)
      requires Good(Contents()) && log != [] && log[|log| - 1].HandoffFailed?
      modifies this, arbiter
      ensures (Contents(), over) == WaitForHandoff(old(Contents()), world, rounds)
    {
      hide Good, Ask, ResumeStable;
      for i := 0 to rounds
        invariant Good(Contents()) && log != [] && log[|log| - 1].HandoffFailed?
        invariant WaitForHandoff(old(Contents()), world, rounds) == WaitForHandoff(Contents(), world, rounds - i)
      {
        var a := AskNext();
        if a.fails {
          return true;
        }
        if operatorActive {
          return false;
        }
        if !paused {
          return true;
        }
        if a.stable {
          ResumeAfterHandoff();
          return true;
        }
      }
      return false;
    }

    method ResumeAfterHandoff()
      requires Good(Contents()) && log != [] && log[|log| - 1].HandoffFailed? && paused && !operatorActive
      modifies this, arbiter
      ensures Contents() == ResumeStable(old(Contents()), world)
    {
      hide Good, HandleRecovered;
      Write(AbsoluteStable(LastRead()));
      var end := Resume();
    }

    method SearchSeeds(seeds: nat) returns (d: Option<Decision>)
      requires Good(Contents())
      modifies this, arbiter
      ensures (Contents(), d) == TrySeeds(old(Contents()), world, seeds)
    {
      hide Good, Ask, SearchAndResume, WaitForHandoff, Justified, Cycles, Arbiter.Run, Found;
      for i := 0 to seeds
        invariant Good(Contents()) && TrySeeds(old(Contents()), world, seeds) == TrySeeds(Contents(), world, seeds - i)
      {
        var a := AskNext();
        if stopping || generation != mine || operatorActive || a.fails {
          return Some(Stop);
        }
        var end := TrySearch(Local);
        if end.Success? {
          return Some(Stop);
        }
        a := AskNext();
        if a.fails || end.error == Superseded {
          return Some(Stop);
        }
        if end.error == LateHandoff {
          Write(HandoffFailed);
          var over := AwaitHandoff(a.polls);
          return if over then Some(Stop) else None;
        }
      }
      return None;
    }

    method EscalateFirst() returns (d: Option<Decision>)
      requires Good(Contents()) && !Found(Contents())
      modifies this, arbiter
      ensures (Contents(), d) == Escalate(old(Contents()), world)
    {
      hide Good, Ask, SearchGlobally;
      var a := AskNext();
      if a.fails {
        return Some(Stop);
      }
      if a.laser && a.found {
        Write(FeatureFound);
        a := AskNext();
        return Some(Again);
      }
      d := SearchEverywhere();
    }

    method SearchEverywhere() returns (d: Option<Decision>)
      requires Good(Contents())
      modifies this, arbiter
      ensures (Contents(), d) == SearchGlobally(old(Contents()), world)
    {
      hide Good, Ask, SearchAndResume;
      var a := AskNext();
      if !a.globalSearch {
        return None;
      }
      if operatorActive || a.fails {
        return Some(Stop);
      }
      var end := TrySearch(Global);
      a := AskNext();
      return if end.Success? || a.fails then Some(Stop) else None;
    }

    method FinishPass(cycle: nat, maxCycles: nat) returns (d: Decision)
      requires Good(Contents()) && !Found(Contents())
      modifies this, arbiter
      ensures (Contents(), d) == EndPass(old(Contents()), world, cycle, maxCycles)
    {
      hide Good, Ask;
      var a := AskNext();
      if !paused || a.fails {
        return Stop;
      }
      if maxCycles > 0 && cycle >= maxCycles {
        Write(SafeHold(LastRead()));
        return Stop;
      }
      if stopping || generation != mine {
        return Stop;
      }
      a := AskNext();
      return Again;
    }

    method SeedsAndEscalation(cycle: nat, maxCycles: nat) returns (d: Decision)
      requires Good(Contents()) && !Found(Contents())
      modifies this, arbiter
      ensures (Contents(), d) == AfterProgressive(old(Contents()), world, cycle, maxCycles)
    {
      hide Good, Ask, TrySeeds, Escalate, EndPass;
      var a := AskNext();
      if a.seeds > 0 {
        if a.hasTask && !paused {
          return Stop;
        }
        var seeded := SearchSeeds(a.seeds);
        if seeded.Some? {
          return Stop;
        }
        if cycle == 1 {
          var escalated := EscalateFirst();
          if escalated.Some? {
            return escalated.value;
          }
        }
      }
      d := FinishPass(cycle, maxCycles);
    }

    /** One pass of the loop body after the cycle has been counted. */
    method RunPass(cycle: nat, maxCycles: nat) returns (d: Decision)
      requires Good(Contents()) && !Found(Contents())
      modifies this, arbiter
      ensures (Contents(), d) == Pass(old(Contents()), world, cycle, maxCycles)
    {
      hide Good, Ask, SearchAndResume, AfterProgressive;
      var a := AskNext();
      if a.fails {
        return Stop;
      }
      if a.progressive {
        var end := TrySearch(Progressive);
        a := AskNext();
        if end.Success? || a.fails || end.error == Superseded {
          return Stop;
        }
      }
      d := SeedsAndEscalation(cycle, maxCycles);
    }

    /** The try block of `_recover_task_localization`. */
    method Work(configured: int, lifetime: nat)
      requires Good(Contents()) && log == []
      modifies this, arbiter
      ensures Contents() == Worked(old(Contents()), world, configured, lifetime)
    {
      hide Good, Ask, Turnaround;
      var a := AskNext();
      if stopping || generation != mine || operatorActive || a.fails {
        return;
      }
      ghost var entered := Contents();
      var maxCycles := Maximum(configured);
      var cycle, again := 0, true;
      while again
        invariant Good(Contents())
        invariant again ==> Continuing(cycle, maxCycles) &&
                            Loop(entered, world, 0, maxCycles, lifetime) == Loop(Contents(), world, cycle, maxCycles, lifetime)
        invariant !again ==> Loop(entered, world, 0, maxCycles, lifetime) == Contents()
        decreases again, Left(cycle, maxCycles, lifetime)
      {
        again := GoRound(cycle, maxCycles, lifetime);
        cycle := cycle + 1;
      }
    }

    /** The loop head and the body. */
    method GoRound(done: nat, maxCycles: nat, lifetime: nat) returns (again: bool)
      requires Good(Contents()) && Continuing(done, maxCycles)
      modifies this, arbiter
      ensures (Contents(), again) == Turnaround(old(Contents()), world, done, maxCycles, lifetime)
    {
      hide Good, Ask, Pass, Found;
      var a := AskNext();
      if done > 0 && !paused {
        return false;
      }
      a := AskNext();
      if stopping || generation != mine || (maxCycles == 0 && done >= lifetime) {
        return false;
      }
      Count(done + 1);
      var d := RunPass(done + 1, maxCycles);
      return d == Again;
    }

    /** `_recover_task_localization` with its `finally` block. */
    method Recover(configured: int, lifetime: nat)
      requires Good(Contents()) && log == [] && locked
      modifies this, arbiter
      ensures Contents() == Recovered(old(Contents()), world, configured, lifetime)
    {
      hide Good, Ask, Worked;
      Work(configured, lifetime);
      var a := AskNext();
      var released := arbiter.TryRelease(Some(lease));
      locked := false;
    }
  }

  // ---- the lock over whole histories ------------------------------------------------------------------------

  /** The lock, whether a worker that will give it back is running, and the arbiter. */
  datatype Guard = Guard(locked: bool, running: bool, arbiter: Arbiter.State)

  /** A reported loss, any use of the arbiter elsewhere, or the end of the running worker with its release. */
  datatype Happening =
    | Loss(situation: Situation, reason: string, now: real, setback: Setback)
    | Elsewhere(op: Arbiter.Op)
    | WorkerEnds(lease: Arbiter.Lease)

  predicate StartsWorker(g: Guard, h: Happening) {
    h.Loss? && Starts(h.situation, g.locked, g.arbiter, h.now, h.setback)
  }

  predicate LeaksLock(g: Guard, h: Happening) {
    h.Loss? && Leaks(h.situation, g.locked, g.arbiter, h.now, h.setback)
  }

  function Next(g: Guard, h: Happening): Guard {
    match h
    case Loss(s, reason, now, setback) =>
      Guard(g.locked || StartsWorker(g, h) || LeaksLock(g, h), g.running || StartsWorker(g, h),
            ArbiterAfter(s, reason, g.locked, g.arbiter, now))
    case Elsewhere(op) => g.(arbiter := Arbiter.Step(g.arbiter, op))
    case WorkerEnds(lease) =>
      if g.running then Guard(false, false, Arbiter.Step(g.arbiter, Arbiter.Release(Some(lease)))) else g
  }

  function Later(g: Guard, hs: seq<Happening>): Guard {
    if hs == [] then g else Next(Later(g, hs[..|hs| - 1]), hs[|hs| - 1])
  }

  /** After a leak no loss ever starts a worker again, whatever happens. */
  lemma {:induction false} LeakIsForever(g: Guard, hs: seq<Happening>)
    requires g.locked && !g.running
    ensures Later(g, hs).locked && !Later(g, hs).running
    ensures forall i :: 0 <= i < |hs| ==> !StartsWorker(Later(g, hs[..i]), hs[i])
  {
    if hs != [] {
      var init := hs[..|hs| - 1];
      LeakIsForever(g, init);
      forall i | 0 <= i < |hs| ensures !StartsWorker(Later(g, hs[..i]), hs[i]) {
        if i < |init| {
          assert init[..i] == hs[..i] && init[i] == hs[i];
        } else {
          assert hs[..i] == init;
        }
      }
    }
  }

  /** Held, and nobody will give it back. */
  predicate Lost(g: Guard) {
    g.locked && !g.running
  }

  ghost predicate Leaked(g: Guard, hs: seq<Happening>) {
    exists i :: 0 <= i < |hs| && LeaksLock(Later(g, hs[..i]), hs[i])
  }

  lemma LeakedNext(g: Guard, hs: seq<Happening>, h: Happening)
    ensures Leaked(g, hs + [h]) <==> Leaked(g, hs) || LeaksLock(Later(g, hs), h)
  {
    hide LeaksLock, Later;
    var all := hs + [h];
    assert all[..|hs|] == hs && all[|hs|] == h;
    forall i | 0 <= i < |hs| ensures all[..i] == hs[..i] && all[i] == hs[i] {
    }
    if Leaked(g, hs) {
      var i :| 0 <= i < |hs| && LeaksLock(Later(g, hs[..i]), hs[i]);
      assert LeaksLock(Later(g, all[..i]), all[i]);
    }
    if LeaksLock(Later(g, hs), h) {
      assert LeaksLock(Later(g, all[..|hs|]), all[|hs|]);
    }
  }

  lemma LostNext(g: Guard, h: Happening)
    requires g.running ==> g.locked
    ensures Next(g, h).running ==> Next(g, h).locked
    ensures Lost(Next(g, h)) <==> Lost(g) || LeaksLock(g, h)
  {
    hide StartsWorker, LeaksLock;
    LeakExcludesStart(g, h);
  }

  /** From a free lock: it is held without a worker to release it if and only if some loss has leaked it. */
  lemma {:induction false} LockLostIff(g: Guard, hs: seq<Happening>)
    requires !g.locked && !g.running
    ensures Later(g, hs).running ==> Later(g, hs).locked
    ensures Lost(Later(g, hs)) <==> Leaked(g, hs)
  {
    hide LeaksLock, Next, Leaked, Lost;
    if hs == [] {
      NothingLost(g);
    } else {
      var init, h := hs[..|hs| - 1], hs[|hs| - 1];
      assert hs == init + [h];
      LockLostIff(g, init);
      LostNext(Later(g, init), h);
      LeakedNext(g, init, h);
    }
  }

  lemma NothingLost(g: Guard)
    requires !g.locked
    ensures !Lost(Later(g, [])) && !Leaked(g, [])
  {
  }

  lemma LeakExcludesStart(g: Guard, h: Happening)
    ensures StartsWorker(g, h) || LeaksLock(g, h) ==> !g.locked && h.Loss?
    ensures !(StartsWorker(g, h) && LeaksLock(g, h))
  {
  }
}
