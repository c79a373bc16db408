/**
 Command handling: duplicate check, acknowledgement, execution and result, in that order and
 durable. The handler may be abandoned after any single effect, by a crash or by an exception
 that leaves it, and results of asynchronous work arrive at any moment in between. What the
 handler's collaborators answer is an input of each delivery.
 */
module Commands {
  import opened Wrappers

  datatype Ack = Ack(accepted: bool, code: string)

  datatype Result = Result(status: string, code: string)

  /** A row of `processed_commands`; a row created by a result alone has no acknowledgement. */
  datatype Entry = Entry(ack: Option<Ack>, result: Option<Result>)

  type Store = map<string, Entry>

  /** LateResult is a result stored outside the handler: a task's start result or a finished skill. */
  datatype Effect =
    | StoreAck(id: string, ack: Ack)
    | PublishAck(id: string, ack: Ack)
    | Execute(id: string)
    | ForceExit(id: string)
    | StoreResult(id: string, result: Result)
    | PublishRaised(id: string)
    | PublishResult(id: string, result: Result)
    | LateResult(id: string, result: Result)

  /** How one call into another component ends. */
  datatype Reply = Fine | Protocol(code: string) | Fault

  /** How far validation gets before the acceptance is stored. */
  datatype Admission =
    | Admitted
    | Refused(code: string)
    | EarlyFault        // an unexpected error before the command kind is known: it leaves the handler
    | LateFault         // an unexpected error while preparing a task
    | AckStoreFault     // the acceptance was built but could not be stored

  /** run also covers a result that could not be stored: both end in the same `except` branches. */
  datatype Env = Env(
    taskStart: bool, admission: Admission, ackPublish: Reply, prelaunch: Reply, run: Reply,
    result: Option<Result>, resultPublish: Reply)

  function Record(s: Store, e: Effect): Store {
    match e
    case StoreAck(id, a) => s[id := Entry(Some(a), if id in s then s[id].result else None)]
    case StoreResult(id, r) => s[id := Entry(if id in s then s[id].ack else None, Some(r))]
    case LateResult(id, r) => s[id := Entry(if id in s then s[id].ack else None, Some(r))]
    case _ => s
  }

  /** The durable state after a log of effects. */
  function Stored(log: seq<Effect>): Store {
    if log == [] then map[] else Record(Stored(log[..|log| - 1]), log[|log| - 1])
  }

  function Code(r: Reply): string {
    if r.Protocol? then r.code else "INTERNAL_ERROR"
  }

  /** The two `except` branches once the acknowledgement exists. */
  function Failure(id: string, env: Env, r: Reply, acked: bool): seq<Effect> {
    var result := Result("failed", Code(r));
    (if env.taskStart && acked then [ForceExit(id)] else []) + [StoreResult(id, result), PublishResult(id, result)]
  }

  function Republish(id: string, e: Entry): seq<Effect> {
    (if e.ack.Some? then [PublishAck(id, e.ack.value)] else []) +
    (if e.result.Some? then [PublishResult(id, e.result.value)] else [])
  }

  /** After the execution: storing and publishing share one `try`, so a raising publish stores a second result. */
  function Outcome(id: string, env: Env): seq<Effect> {
    if !env.run.Fine? then Failure(id, env, env.run, true)
    else if env.taskStart || env.result.None? then []
    else
      [StoreResult(id, env.result.value)] +
      if env.resultPublish.Fine? then [PublishResult(id, env.result.value)]
      else [PublishRaised(id)] + Failure(id, env, env.resultPublish, true)
  }

  /** After the acceptance is stored and published. */
  function Accepted(id: string, env: Env): seq<Effect> {
    if env.taskStart && !env.prelaunch.Fine? then Failure(id, env, env.prelaunch, true)
    else [Execute(id)] + Outcome(id, env)
  }

  /** Every effect of one delivery that is not cut short. */
  function Attempt(s: Store, id: string, env: Env): seq<Effect> {
    if id in s then Republish(id, s[id])
    else
      match env.admission
      case EarlyFault => []
      case LateFault => Failure(id, env, Fault, false)
      case AckStoreFault => Failure(id, env, Fault, true)
      case Refused(code) => [StoreAck(id, Ack(false, code)), PublishAck(id, Ack(false, code))]
      case Admitted =>
        [StoreAck(id, Ack(true, ""))] +
        if !env.ackPublish.Fine? then Failure(id, env, env.ackPublish, true)
        else [PublishAck(id, Ack(true, ""))] + Accepted(id, env)
  }

  class CommandProcessor {
    var processed: Store
    ghost var log: seq<Effect>

    ghost predicate Valid()
      reads this
    {
      processed == Stored(log)
    }

    constructor ()
      ensures Valid() && log == []
    {
      processed, log := map[], [];
    }

    method Do(e: Effect)
      requires Valid()
      modifies this
      ensures Valid() && log == old(log) + [e]
    {
      assert (log + [e])[..|log|] == log;
      processed, log := Record(processed, e), log + [e];
    }

    method Fail(id: string, env: Env, r: Reply, acked: bool)
      requires Valid()
      modifies this
      ensures Valid() && log == old(log) + Failure(id, env, r, acked)
    {
      if env.taskStart && acked {
        Do(ForceExit(id));
      }
      Do(StoreResult(id, Result("failed", Code(r))));
      Do(PublishResult(id, Result("failed", Code(r))));
    }

    /** `handle_command`, delivered whole. */
    method HandleCommand(id: string, env: Env)
      requires Valid()
      modifies this
      ensures Valid() && log == old(log) + Attempt(old(processed), id, env)
    {
      hide Failure, Accepted, Stored;
      if id in processed {
        var e := processed[id];
        if e.ack.Some? {
          Do(PublishAck(id, e.ack.value));
        }
        if e.result.Some? {
          Do(PublishResult(id, e.result.value));
        }
        return;
      }
      match env.admission
      case EarlyFault =>
        return;
      case LateFault =>
        Fail(id, env, Fault, false);
        return;
      case AckStoreFault =>
        Fail(id, env, Fault, true);
        return;
      case Refused(code) =>
        Do(StoreAck(id, Ack(false, code)));
        Do(PublishAck(id, Ack(false, code)));
        return;
      case Admitted =>
        Do(StoreAck(id, Ack(true, "")));
        if !env.ackPublish.Fine? {
          Fail(id, env, env.ackPublish, true);
          return;
        }
        Do(PublishAck(id, Ack(true, "")));
        Perform(id, env);
    }

    method Perform(id: string, env: Env)
      requires Valid()
      modifies this
      ensures Valid() && log == old(log) + Accepted(id, env)
    {
      hide Failure, Stored, Outcome;
      if env.taskStart && !env.prelaunch.Fine? {
        Fail(id, env, env.prelaunch, true);
        return;
      }
      Do(Execute(id));
      Report(id, env);
    }

    /** What follows the execution: the end of the `try` and the two `except` branches. */
    method Report(id: string, env: Env)
      requires Valid()
      modifies this
      ensures Valid() && log == old(log) + Outcome(id, env)
    {
      hide Failure, Stored;
      if !env.run.Fine? {
        Fail(id, env, env.run, true);
        return;
      }
      if env.taskStart || env.result.None? {
        return;
      }
      Do(StoreResult(id, env.result.value));
      if env.resultPublish.Fine? {
        Do(PublishResult(id, env.result.value));
        return;
      }
      Do(PublishRaised(id));
      Fail(id, env, env.resultPublish, true);
    }
  }

  // ---- runs with restarts and late results ---------------------------------------------------------

  /** pending is what the delivery being handled has still to do. */
  datatype State = State(log: seq<Effect>, pending: seq<Effect>)

  datatype Op =
    | Deliver(id: string, env: Env)
    | Advance
    | Abandon
    | Complete(id: string, result: Result)

  /** Deliveries are handled one after another; one that arrives meanwhile waits to be delivered again. */
  function Step(s: State, op: Op): State {
    match op
    case Deliver(id, env) => if s.pending == [] then State(s.log, Attempt(Stored(s.log), id, env)) else s
    case Advance => if s.pending == [] then s else State(s.log + [s.pending[0]], s.pending[1..])
    case Abandon => State(s.log, [])
    case Complete(id, result) => State(s.log + [LateResult(id, result)], s.pending)
  }

  function Run(ops: seq<Op>): State {
    if ops == [] then State([], []) else Step(Run(ops[..|ops| - 1]), ops[|ops| - 1])
  }

  ghost predicate Acked(log: seq<Effect>, id: string) {
    exists a :: StoreAck(id, a) in log
  }

  /** How many results the handler stored for a command, and how many of them it failed to publish. */
  function Results(log: seq<Effect>, id: string): nat {
    if log == [] then 0
    else
      var e := log[|log| - 1];
      Results(log[..|log| - 1], id) + if e.StoreResult? && e.id == id then 1 else 0
  }

  function Raises(log: seq<Effect>, id: string): nat {
    if log == [] then 0 else Raises(log[..|log| - 1], id) + if log[|log| - 1] == PublishRaised(id) then 1 else 0
  }

  /** The discipline of a single effect, judged against everything before it. */
  ghost predicate Disciplined(past: seq<Effect>, e: Effect) {
    match e
    case StoreAck(id, _) => !Acked(past, id) && Execute(id) !in past
    case Execute(id) => StoreAck(id, Ack(true, "")) in past && Execute(id) !in past
    case PublishAck(id, a) => StoreAck(id, a) in past
    case StoreResult(id, _) => Results(past, id) == Raises(past, id)
    case PublishRaised(id) => Results(past, id) == Raises(past, id) + 1
    case PublishResult(id, r) => StoreResult(id, r) in past || LateResult(id, r) in past
    case ForceExit(_) => true
    case LateResult(_, _) => true
  }

  ghost predicate Safe(log: seq<Effect>) {
    forall i :: 0 <= i < |log| ==> Disciplined(log[..i], log[i])
  }

  /** What is still pending may be appended effect by effect. */
  ghost predicate Fits(log: seq<Effect>, pending: seq<Effect>) {
    forall i :: 0 <= i < |pending| ==> Disciplined(log + pending[..i], pending[i])
  }

  lemma {:induction false} CountsConcat(a: seq<Effect>, b: seq<Effect>, id: string)
    ensures Results(a + b, id) == Results(a, id) + Results(b, id) && Raises(a + b, id) == Raises(a, id) + Raises(b, id)
    decreases |b|
  {
    if b == [] {
      assert a + b == a;
    } else {
      var init := b[..|b| - 1];
      CountsConcat(a, init, id);
      assert (a + b)[..|a + b| - 1] == a + init;
    }
  }

  lemma CountsOne(e: Effect, id: string)
    ensures Results([e], id) == if e.StoreResult? && e.id == id then 1 else 0
    ensures Raises([e], id) == if e == PublishRaised(id) then 1 else 0
  {
    assert [e][..0] == [];
  }

  /** A late result disturbs no effect that is still to come. */
  lemma LateResultKeepsDiscipline(a: seq<Effect>, b: seq<Effect>, late: Effect, e: Effect)
    requires late.LateResult? && Disciplined(a + b, e)
    ensures Disciplined(a + [late] + b, e)
  {
    hide Results, Raises;
    CountsConcat(a, b, e.id);
    CountsConcat(a, [late], e.id);
    CountsConcat(a + [late], b, e.id);
    CountsOne(late, e.id);
    assert forall x :: x in a + [late] + b <==> x in a + b || x == late;
  }

  lemma SafeSnoc(log: seq<Effect>, e: Effect)
    requires Safe(log) && Disciplined(log, e)
    ensures Safe(log + [e])
  {
    hide Disciplined;
    var log' := log + [e];
    forall i | 0 <= i < |log'| ensures Disciplined(log'[..i], log'[i]) {
      assert log'[..i] == log[..i];
    }
  }

  lemma FitsTail(log: seq<Effect>, pending: seq<Effect>)
    requires Fits(log, pending) && pending != []
    ensures Disciplined(log, pending[0]) && Fits(log + [pending[0]], pending[1..])
  {
    hide Disciplined;
    assert log + pending[..0] == log;
    var next := log + [pending[0]];
    forall i | 0 <= i < |pending[1..]| ensures Disciplined(next + pending[1..][..i], pending[1..][i]) {
      assert next + pending[1..][..i] == log + pending[..i + 1];
    }
  }

  /** Building up what fits, first effect first. */
  lemma FitsCons(log: seq<Effect>, e: Effect, rest: seq<Effect>)
    requires Disciplined(log, e) && Fits(log + [e], rest)
    ensures Fits(log, [e] + rest)
  {
    hide Disciplined;
    var all := [e] + rest;
    forall i | 0 <= i < |all| ensures Disciplined(log + all[..i], all[i]) {
      if i == 0 {
        assert log + all[..0] == log;
      } else {
        assert log + all[..i] == log + [e] + rest[..i - 1];
      }
    }
  }

  /** What the durable row says about the log: a stored part was stored by some effect. */
  lemma {:induction false} StoredSays(log: seq<Effect>, id: string)
    ensures id in Stored(log) <==> exists e :: e in log && e.id == id && (e.StoreAck? || e.StoreResult? || e.LateResult?)
    ensures id in Stored(log) && Stored(log)[id].ack.Some? ==> StoreAck(id, Stored(log)[id].ack.value) in log
    ensures id in Stored(log) && Stored(log)[id].result.Some? ==>
              var r := Stored(log)[id].result.value; StoreResult(id, r) in log || LateResult(id, r) in log
  {
    if log != [] {
      var init, e := log[..|log| - 1], log[|log| - 1];
      assert log == init + [e];
      StoredSays(init, id);
    }
  }

  lemma {:induction false} NoneCounted(log: seq<Effect>, id: string)
    ensures Results(log, id) > 0 ==> exists r :: StoreResult(id, r) in log
    ensures Raises(log, id) > 0 ==> PublishRaised(id) in log
  {
    if log != [] {
      var init, e := log[..|log| - 1], log[|log| - 1];
      assert log == init + [e];
      NoneCounted(init, id);
      if Results(init, id) > 0 {
        var r :| StoreResult(id, r) in init;
        assert StoreResult(id, r) in log;
      }
    }
  }

  /** A command without a row has left no trace at all. */
  lemma {:induction false} UnseenIsFresh(log: seq<Effect>, id: string)
    requires Safe(log) && id !in Stored(log)
    ensures !Acked(log, id) && Execute(id) !in log && Results(log, id) == 0 && Raises(log, id) == 0
  {
    hide Results, Raises;
    StoredSays(log, id);
    NoneCounted(log, id);
    if Execute(id) in log {
      var i :| 0 <= i < |log| && log[i] == Execute(id);
      assert Disciplined(log[..i], log[i]);
    }
    if PublishRaised(id) in log {
      var i :| 0 <= i < |log| && log[i] == PublishRaised(id);
      assert Disciplined(log[..i], log[i]);
      NoneCounted(log[..i], id);
    }
  }

  lemma FailureFits(log: seq<Effect>, id: string, env: Env, r: Reply, acked: bool)
    requires Results(log, id) == Raises(log, id)
    ensures Fits(log, Failure(id, env, r, acked))
  {
    hide Fits, Results, Raises;
    var result := Result("failed", Code(r));
    var l1 := if env.taskStart && acked then log + [ForceExit(id)] else log;
    CountsConcat(log, [ForceExit(id)], id);
    CountsOne(ForceExit(id), id);
    Empty(l1 + [StoreResult(id, result)] + [PublishResult(id, result)]);
    FitsCons(l1 + [StoreResult(id, result)], PublishResult(id, result), []);
    assert [PublishResult(id, result)] + [] == [PublishResult(id, result)];
    FitsCons(l1, StoreResult(id, result), [PublishResult(id, result)]);
    var tail := [StoreResult(id, result)] + [PublishResult(id, result)];
    assert tail == [StoreResult(id, result), PublishResult(id, result)];
    if env.taskStart && acked {
      FitsCons(log, ForceExit(id), tail);
    } else {
      assert [] + tail == tail;
    }
  }

  lemma Empty(log: seq<Effect>)
    ensures Fits(log, [])
  {
  }

  lemma OutcomeFits(log: seq<Effect>, id: string, env: Env)
    requires Results(log, id) == Raises(log, id)
    ensures Fits(log, Outcome(id, env))
  {
    hide Fits, Results, Raises, Failure;
    if !env.run.Fine? {
      FailureFits(log, id, env, env.run, true);
    } else if env.taskStart || env.result.None? {
      Empty(log);
    } else {
      var store := StoreResult(id, env.result.value);
      var l1 := log + [store];
      CountsConcat(log, [store], id);
      CountsOne(store, id);
      if env.resultPublish.Fine? {
        Empty(l1 + [PublishResult(id, env.result.value)]);
        FitsCons(l1, PublishResult(id, env.result.value), []);
        assert [PublishResult(id, env.result.value)] + [] == [PublishResult(id, env.result.value)];
        FitsCons(log, store, [PublishResult(id, env.result.value)]);
      } else {
        CountsConcat(l1, [PublishRaised(id)], id);
        CountsOne(PublishRaised(id), id);
        FailureFits(l1 + [PublishRaised(id)], id, env, env.resultPublish, true);
        FitsCons(l1, PublishRaised(id), Failure(id, env, env.resultPublish, true));
        FitsCons(log, store, [PublishRaised(id)] + Failure(id, env, env.resultPublish, true));
      }
    }
  }

  lemma AcceptedFits(log: seq<Effect>, id: string, env: Env)
    requires StoreAck(id, Ack(true, "")) in log && Execute(id) !in log && Results(log, id) == Raises(log, id)
    ensures Fits(log, Accepted(id, env))
  {
    hide Fits, Results, Raises, Failure, Outcome;
    if env.taskStart && !env.prelaunch.Fine? {
      FailureFits(log, id, env, env.prelaunch, true);
    } else {
      CountsConcat(log, [Execute(id)], id);
      CountsOne(Execute(id), id);
      OutcomeFits(log + [Execute(id)], id, env);
      FitsCons(log, Execute(id), Outcome(id, env));
    }
  }

  lemma AdmittedFits(log: seq<Effect>, id: string, env: Env)
    requires !Acked(log, id) && Execute(id) !in log && Results(log, id) == Raises(log, id)
    requires id !in Stored(log) && env.admission == Admitted
    ensures Fits(log, Attempt(Stored(log), id, env))
  {
    hide Fits, Results, Raises, Failure, Accepted, Stored;
    var a := Ack(true, "");
    var l1 := log + [StoreAck(id, a)];
    CountsConcat(log, [StoreAck(id, a)], id);
    CountsOne(StoreAck(id, a), id);
    if !env.ackPublish.Fine? {
      FailureFits(l1, id, env, env.ackPublish, true);
      FitsCons(log, StoreAck(id, a), Failure(id, env, env.ackPublish, true));
    } else {
      var l2 := l1 + [PublishAck(id, a)];
      CountsConcat(l1, [PublishAck(id, a)], id);
      CountsOne(PublishAck(id, a), id);
      AcceptedFits(l2, id, env);
      FitsCons(l1, PublishAck(id, a), Accepted(id, env));
      FitsCons(log, StoreAck(id, a), [PublishAck(id, a)] + Accepted(id, env));
    }
  }

  lemma RepublishFits(log: seq<Effect>, id: string)
    requires id in Stored(log)
    ensures Fits(log, Republish(id, Stored(log)[id]))
  {
    hide Stored;
    StoredSays(log, id);
  }

  lemma AttemptFits(log: seq<Effect>, id: string, env: Env)
    requires Safe(log)
    ensures Fits(log, Attempt(Stored(log), id, env))
  {
    hide Fits, Results, Raises, Failure, Accepted, Republish, Safe, Stored;
    if id in Stored(log) {
      RepublishFits(log, id);
    } else {
      UnseenIsFresh(log, id);
      match env.admission
      case EarlyFault =>
        Empty(log);
      case LateFault =>
        FailureFits(log, id, env, Fault, false);
      case AckStoreFault =>
        FailureFits(log, id, env, Fault, true);
      case Refused(code) =>
        var a := Ack(false, code);
        Empty(log + [StoreAck(id, a)] + [PublishAck(id, a)]);
        FitsCons(log + [StoreAck(id, a)], PublishAck(id, a), []);
        assert [PublishAck(id, a)] + [] == [PublishAck(id, a)];
        FitsCons(log, StoreAck(id, a), [PublishAck(id, a)]);
        assert [StoreAck(id, a)] + [PublishAck(id, a)] == [StoreAck(id, a), PublishAck(id, a)];
      case Admitted =>
        AdmittedFits(log, id, env);
    }
  }

  lemma StepKeepsSafe(s: State, op: Op)
    requires Safe(s.log) && Fits(s.log, s.pending)
    ensures Safe(Step(s, op).log) && Fits(Step(s, op).log, Step(s, op).pending)
  {
    hide Safe, Fits, Disciplined, Attempt, Stored;
    match op
    case Deliver(id, env) =>
      AttemptFits(s.log, id, env);
    case Advance =>
      if s.pending != [] {
        FitsTail(s.log, s.pending);
        SafeSnoc(s.log, s.pending[0]);
      }
    case Abandon =>
      Empty(s.log);
    case Complete(id, result) =>
      assert Disciplined(s.log, LateResult(id, result)) by {
        LateIsDisciplined(s.log, id, result);
      }
      SafeSnoc(s.log, LateResult(id, result));
      LateResultFits(s.log, s.pending, LateResult(id, result));
  }

  lemma LateIsDisciplined(log: seq<Effect>, id: string, result: Result)
    ensures Disciplined(log, LateResult(id, result))
  {
  }

  lemma LateResultFits(log: seq<Effect>, pending: seq<Effect>, late: Effect)
    requires late.LateResult? && Fits(log, pending)
    ensures Fits(log + [late], pending)
  {
    hide Disciplined;
    forall i | 0 <= i < |pending| ensures Disciplined(log + [late] + pending[..i], pending[i]) {
      LateResultKeepsDiscipline(log, pending[..i], late, pending[i]);
    }
  }

  /** Every interleaving of deliveries, crashes and late results leaves a disciplined log. */
  lemma {:induction false} RunIsSafe(ops: seq<Op>)
    ensures Safe(Run(ops).log) && Fits(Run(ops).log, Run(ops).pending)
  {
    hide Step;
    if ops != [] {
      RunIsSafe(ops[..|ops| - 1]);
      StepKeepsSafe(Run(ops[..|ops| - 1]), ops[|ops| - 1]);
    }
  }

  // ---- what every run guarantees -----------------------------------------------------------------------

  /** At most one execution per command id, whatever is delivered and whenever it crashes. */
  lemma ExecutesAtMostOnce(ops: seq<Op>, i: nat, j: nat, id: string)
    requires i < j < |Run(ops).log| && Run(ops).log[i] == Execute(id)
    ensures Run(ops).log[j] != Execute(id)
  {
    hide Run;
    RunIsSafe(ops);
    var log := Run(ops).log;
    assert log[..j][i] == Execute(id);
    assert Disciplined(log[..j], log[j]);
  }

  lemma {:induction false} AckIsStored(log: seq<Effect>, id: string, a: Ack)
    requires Safe(log) && StoreAck(id, a) in log
    ensures id in Stored(log) && Stored(log)[id].ack == Some(a)
  {
    hide Disciplined, Stored, Record, Safe;
    var init, e := log[..|log| - 1], log[|log| - 1];
    assert log == init + [e];
    StoredSnoc(init, e);
    if StoreAck(id, a) in init {
      SafePrefix(log, |log| - 1);
      AckIsStored(init, id, a);
      LastIsDisciplined(log);
      AckUnwritten(init, e, id, a);
      RecordKeepsAck(Stored(init), e, id);
    } else {
      RecordsAck(Stored(init), id, a);
    }
  }

  lemma LastIsDisciplined(log: seq<Effect>)
    requires Safe(log) && log != []
    ensures Disciplined(log[..|log| - 1], log[|log| - 1])
  {
    hide Disciplined;
  }

  lemma RecordKeepsAck(s: Store, e: Effect, id: string)
    requires id in s && !(e.StoreAck? && e.id == id)
    ensures id in Record(s, e) && Record(s, e)[id].ack == s[id].ack
  {
  }

  lemma RecordsAck(s: Store, id: string, a: Ack)
    ensures id in Record(s, StoreAck(id, a)) && Record(s, StoreAck(id, a))[id].ack == Some(a)
  {
  }

  lemma AckUnwritten(log: seq<Effect>, e: Effect, id: string, a: Ack)
    requires StoreAck(id, a) in log && Disciplined(log, e)
    ensures !(e.StoreAck? && e.id == id)
  {
  }

  lemma SafePrefix(log: seq<Effect>, n: nat)
    requires Safe(log) && n <= |log|
    ensures Safe(log[..n])
  {
    hide Disciplined;
    forall i | 0 <= i < n ensures Disciplined(log[..n][..i], log[..n][i]) {
      assert log[..n][..i] == log[..i];
    }
  }

  /** An execution happens only when an accepting acknowledgement is already durable. */
  lemma ExecutesOnlyAccepted(ops: seq<Op>, i: nat, id: string)
    requires i < |Run(ops).log| && Run(ops).log[i] == Execute(id)
    ensures var s := Stored(Run(ops).log[..i]); id in s && s[id].ack == Some(Ack(true, ""))
  {
    hide Run;
    RunIsSafe(ops);
    var log := Run(ops).log;
    assert Disciplined(log[..i], log[i]);
    SafePrefix(log, i);
    AckIsStored(log[..i], id, Ack(true, ""));
  }

  /** Once stored, an acknowledgement is final: results, late or not, and repeats leave it alone. */
  lemma AcksAreFinal(ops: seq<Op>, n: nat, id: string)
    requires n <= |Run(ops).log| && id in Stored(Run(ops).log[..n]) && Stored(Run(ops).log[..n])[id].ack.Some?
    ensures id in Stored(Run(ops).log) && Stored(Run(ops).log)[id].ack == Stored(Run(ops).log[..n])[id].ack
  {
    hide Run, Stored;
    RunIsSafe(ops);
    var log := Run(ops).log;
    StoredSays(log[..n], id);
    AckIsStored(log, id, Stored(log[..n])[id].ack.value);
  }

  /** A command whose refusal was stored never executes, before or after. */
  lemma RefusedNeverExecutes(ops: seq<Op>, i: nat, j: nat, id: string, a: Ack)
    requires i < |Run(ops).log| && Run(ops).log[i] == StoreAck(id, a) && !a.accepted && j < |Run(ops).log|
    ensures Run(ops).log[j] != Execute(id)
  {
    hide Run, Stored, Safe;
    var log := Run(ops).log;
    RunIsSafe(ops);
    if log[j] == Execute(id) {
      ExecutesOnlyAccepted(ops, j, id);
      StoredSays(log[..j], id);
      assert StoreAck(id, Ack(true, "")) in log;
      AckIsStored(log, id, a);
      AckIsStored(log, id, Ack(true, ""));
    }
  }

  // ---- results: final unless their publication raised ---------------------------------------------------

  lemma {:induction false} CountsGrow(log: seq<Effect>, i: nat, j: nat, id: string)
    requires i <= j <= |log|
    ensures Results(log[..i], id) <= Results(log[..j], id)
    ensures Raises(log[..i], id) < Raises(log[..j], id) ==> exists k :: i <= k < j && log[k] == PublishRaised(id)
    decreases j
  {
    if i < j {
      CountsGrow(log, i, j - 1, id);
      assert log[..j][..j - 1] == log[..j - 1];
    }
  }

  /** Over every run: the handler stores a second result only after publishing the first one raised. */
  lemma ResultReplacedOnlyAfterRaise(ops: seq<Op>, i: nat, j: nat, id: string, r: Result, r': Result)
    requires i < j < |Run(ops).log| && Run(ops).log[i] == StoreResult(id, r) && Run(ops).log[j] == StoreResult(id, r')
    ensures exists k :: i < k < j && Run(ops).log[k] == PublishRaised(id)
  {
    hide Run, Results, Raises;
    RunIsSafe(ops);
    var log := Run(ops).log;
    assert Disciplined(log[..i], log[i]) && Disciplined(log[..j], log[j]);
    assert log[..i + 1] == log[..i] + [log[i]];
    CountsConcat(log[..i], [log[i]], id);
    CountsOne(log[i], id);
    CountsGrow(log, i + 1, j, id);
  }

  lemma {:induction false} ResultKept(log: seq<Effect>, n: nat, id: string)
    requires n <= |log| && id in Stored(log[..n])
    requires forall k :: n <= k < |log| ==> !(log[k].id == id && (log[k].StoreResult? || log[k].LateResult?))
    ensures id in Stored(log) && Stored(log)[id].result == Stored(log[..n])[id].result
    decreases |log|
  {
    if n == |log| {
      assert log[..n] == log;
    } else {
      var init := log[..|log| - 1];
      assert init[..n] == log[..n];
      ResultKept(init, n, id);
    }
  }

  /** Without raising publications and late results for a command its stored result is final. */
  lemma ResultsAreFinal(ops: seq<Op>, n: nat, id: string)
    requires n <= |Run(ops).log| && id in Stored(Run(ops).log[..n]) && Stored(Run(ops).log[..n])[id].result.Some?
    requires forall k :: 0 <= k < |Run(ops).log| ==> Run(ops).log[k] != PublishRaised(id) && !(Run(ops).log[k].LateResult? && Run(ops).log[k].id == id)
    ensures id in Stored(Run(ops).log) && Stored(Run(ops).log)[id].result == Stored(Run(ops).log[..n])[id].result
  {
    hide Run, Stored;
    var log := Run(ops).log;
    StoredSays(log[..n], id);
    var r := Stored(log[..n])[id].result.value;
    assert StoreResult(id, r) in log[..n];
    var i :| 0 <= i < n && log[..n][i] == StoreResult(id, r);
    forall k | n <= k < |log| ensures !(log[k].id == id && (log[k].StoreResult? || log[k].LateResult?)) {
      if log[k].id == id && log[k].StoreResult? {
        ResultReplacedOnlyAfterRaise(ops, i, k, id, r, log[k].result);
      }
    }
    ResultKept(log, n, id);
  }

  /** The condition under which one delivery stores two results. */
  predicate Overwrites(s: Store, id: string, env: Env) {
    && id !in s && env.admission == Admitted && env.ackPublish.Fine? && env.run.Fine?
    && !env.taskStart && env.result.Some? && !env.resultPublish.Fine?
  }

  lemma FailureCounts(id: string, env: Env, r: Reply, acked: bool)
    ensures Results(Failure(id, env, r, acked), id) == 1
  {
    var result := Result("failed", Code(r));
    var head: seq<Effect> := if env.taskStart && acked then [ForceExit(id)] else [];
    CountsConcat(head, [StoreResult(id, result)], id);
    CountsConcat(head + [StoreResult(id, result)], [PublishResult(id, result)], id);
    assert Failure(id, env, r, acked) == head + [StoreResult(id, result)] + [PublishResult(id, result)];
    CountsOne(ForceExit(id), id);
    CountsOne(StoreResult(id, result), id);
    CountsOne(PublishResult(id, result), id);
  }

  lemma OutcomeCounts(id: string, env: Env)
    ensures Results(Outcome(id, env), id) <= 2
    ensures Results(Outcome(id, env), id) == 2 <==> env.run.Fine? && !env.taskStart && env.result.Some? && !env.resultPublish.Fine?
  {
    hide Failure, Results;
    FailureCounts(id, env, env.run, true);
    FailureCounts(id, env, env.resultPublish, true);
    if env.run.Fine? && !env.taskStart && env.result.Some? {
      var store := StoreResult(id, env.result.value);
      CountsOne(store, id);
      if env.resultPublish.Fine? {
        CountsOne(PublishResult(id, env.result.value), id);
        CountsConcat([store], [PublishResult(id, env.result.value)], id);
      } else {
        CountsOne(PublishRaised(id), id);
        CountsConcat([PublishRaised(id)], Failure(id, env, env.resultPublish, true), id);
        CountsConcat([store], [PublishRaised(id)] + Failure(id, env, env.resultPublish, true), id);
      }
    } else if env.run.Fine? {
      EmptyCounts(id);
    }
  }

  lemma EmptyCounts(id: string)
    ensures Results([], id) == 0
  {
  }

  /** Exactly when a whole delivery replaces the result it stored: a first delivery whose result could not be published. */
  lemma ResultReplacedIff(s: Store, id: string, env: Env)
    ensures Results(Attempt(s, id, env), id) <= 2
    ensures Results(Attempt(s, id, env), id) == 2 <==> Overwrites(s, id, env)
  {
    hide Failure, Results, Outcome;
    EmptyCounts(id);
    if id in s {
      var e := s[id];
      var a: seq<Effect> := if e.ack.Some? then [PublishAck(id, e.ack.value)] else [];
      var b: seq<Effect> := if e.result.Some? then [PublishResult(id, e.result.value)] else [];
      if e.ack.Some? {
        CountsOne(PublishAck(id, e.ack.value), id);
      }
      if e.result.Some? {
        CountsOne(PublishResult(id, e.result.value), id);
      }
      CountsConcat(a, b, id);
    } else {
      match env.admission
      case EarlyFault =>
      case LateFault =>
        FailureCounts(id, env, Fault, false);
      case AckStoreFault =>
        FailureCounts(id, env, Fault, true);
      case Refused(code) =>
        var a := Ack(false, code);
        CountsOne(StoreAck(id, a), id);
        CountsOne(PublishAck(id, a), id);
        CountsConcat([StoreAck(id, a)], [PublishAck(id, a)], id);
        assert [StoreAck(id, a)] + [PublishAck(id, a)] == [StoreAck(id, a), PublishAck(id, a)];
      case Admitted =>
        var a := Ack(true, "");
        CountsOne(StoreAck(id, a), id);
        CountsOne(PublishAck(id, a), id);
        CountsOne(Execute(id), id);
        FailureCounts(id, env, env.ackPublish, true);
        FailureCounts(id, env, env.prelaunch, true);
        OutcomeCounts(id, env);
        CountsConcat([Execute(id)], Outcome(id, env), id);
        CountsConcat([PublishAck(id, a)], Accepted(id, env), id);
        if env.ackPublish.Fine? {
          CountsConcat([StoreAck(id, a)], [PublishAck(id, a)] + Accepted(id, env), id);
        } else {
          CountsConcat([StoreAck(id, a)], Failure(id, env, env.ackPublish, true), id);
        }
    }
  }

  // ---- whole deliveries -------------------------------------------------------------------------------

  function Advances(n: nat): seq<Op> {
    seq(n, i => Advance)
  }

  lemma {:induction false} AdvancesDrain(ops: seq<Op>, n: nat)
    requires n <= |Run(ops).pending|
    ensures Run(ops + Advances(n)) == State(Run(ops).log + Run(ops).pending[..n], Run(ops).pending[n..])
  {
    hide Step;
    if n == 0 {
      assert ops + Advances(0) == ops;
    } else {
      AdvancesDrain(ops, n - 1);
      var all := ops + Advances(n);
      assert all[..|all| - 1] == ops + Advances(n - 1) && all[|all| - 1] == Advance;
      assert Run(all) == Step(Run(ops + Advances(n - 1)), Advance);
      OneMore(Run(ops), n);
    }
  }

  lemma OneMore(s: State, n: nat)
    requires 1 <= n <= |s.pending|
    ensures Step(State(s.log + s.pending[..n - 1], s.pending[n - 1..]), Advance) == State(s.log + s.pending[..n], s.pending[n..])
  {
    var p := s.pending;
    assert p[n - 1..][0] == p[n - 1] && p[n - 1..][1..] == p[n..] && p[..n - 1] + [p[n - 1]] == p[..n];
  }

  /** The operations of one delivery that nothing interrupts. */
  function Whole(ops: seq<Op>, id: string, env: Env): seq<Op> {
    ops + [Deliver(id, env)] + Advances(|Attempt(Stored(Run(ops).log), id, env)|)
  }

  lemma WholeDelivery(ops: seq<Op>, id: string, env: Env)
    requires Run(ops).pending == []
    ensures Run(Whole(ops, id, env)) == State(Run(ops).log + Attempt(Stored(Run(ops).log), id, env), [])
  {
    hide Attempt, Stored, Advances;
    var attempt := Attempt(Stored(Run(ops).log), id, env);
    var begun := ops + [Deliver(id, env)];
    assert begun[..|begun| - 1] == ops;
    assert Run(begun) == State(Run(ops).log, attempt);
    AdvancesDrain(begun, |attempt|);
    assert attempt[..|attempt|] == attempt && attempt[|attempt|..] == [];
  }

  lemma {:induction false} PublishesStoreNothing(log: seq<Effect>, more: seq<Effect>)
    requires forall k :: 0 <= k < |more| ==> more[k].PublishAck? || more[k].PublishResult?
    ensures Stored(log + more) == Stored(log)
  {
    if more == [] {
      assert log + more == log;
    } else {
      var init := more[..|more| - 1];
      assert (log + more)[..|log + more| - 1] == log + init;
      PublishesStoreNothing(log, init);
    }
  }

  /**
   After any run, delivering a known command again publishes its stored acknowledgement and
   its stored result, each exactly if it exists, does nothing else and changes no row.
   */
  lemma RepeatsRepublish(ops: seq<Op>, id: string, env: Env)
    requires Run(ops).pending == [] && id in Stored(Run(ops).log)
    ensures var before, after := Run(ops).log, Run(Whole(ops, id, env)).log;
            var row := Stored(before)[id];
            && before <= after && Stored(after) == Stored(before)
            && multiset(after[|before|..]) ==
                 (if row.ack.Some? then multiset{PublishAck(id, row.ack.value)} else multiset{}) +
                 (if row.result.Some? then multiset{PublishResult(id, row.result.value)} else multiset{})
  {
    hide Run, Stored, Whole;
    WholeDelivery(ops, id, env);
    var before := Run(ops).log;
    var more := Attempt(Stored(before), id, env);
    assert (before + more)[|before|..] == more;
    PublishesStoreNothing(before, more);
  }

  lemma StoredSnoc(log: seq<Effect>, e: Effect)
    ensures Stored(log + [e]) == Record(Stored(log), e)
  {
    assert (log + [e])[..|log|] == log;
  }

  /** Success, and a publication that raises. */
  const UNPUBLISHED := Env(false, Admitted, Fine, Fine, Fine, Some(Result("succeeded", "")), Fault)

  lemma UnpublishedAttempt(id: string)
    ensures Attempt(map[], id, UNPUBLISHED) ==
            [StoreAck(id, Ack(true, "")), PublishAck(id, Ack(true, "")), Execute(id),
             StoreResult(id, Result("succeeded", "")), PublishRaised(id)] +
            [StoreResult(id, Result("failed", "INTERNAL_ERROR"))] + [PublishResult(id, Result("failed", "INTERNAL_ERROR"))]
  {
  }

  /** A delivery whose successful result is replaced by an internal error, because publishing it raised. */
  lemma ReplacedResultWitness(id: string)
    ensures var log := Run(Whole([], id, UNPUBLISHED)).log;
            && id in Stored(log) && Stored(log)[id].result == Some(Result("failed", "INTERNAL_ERROR"))
            && StoreResult(id, Result("succeeded", "")) in log && Execute(id) in log
  {
    hide Attempt, Stored, Whole;
    WholeDelivery([], id, UNPUBLISHED);
    assert Run([]).log == [] && Stored([]) == map[] by {
      NothingStored();
    }
    UnpublishedAttempt(id);
    var first := [StoreAck(id, Ack(true, "")), PublishAck(id, Ack(true, "")), Execute(id),
                  StoreResult(id, Result("succeeded", "")), PublishRaised(id)];
    var second := first + [StoreResult(id, Result("failed", "INTERNAL_ERROR"))];
    StoredSnoc(first, StoreResult(id, Result("failed", "INTERNAL_ERROR")));
    StoredSnoc(second, PublishResult(id, Result("failed", "INTERNAL_ERROR")));
    assert first[3] == StoreResult(id, Result("succeeded", "")) && first[2] == Execute(id);
    assert Run(Whole([], id, UNPUBLISHED)).log == second + [PublishResult(id, Result("failed", "INTERNAL_ERROR"))];
    assert forall x :: x in first ==> x in second + [PublishResult(id, Result("failed", "INTERNAL_ERROR"))];
  }

  lemma NothingStored()
    ensures Stored([]) == map[]
  {
  }
}
