/**
 What a first delivery that nothing interrupts comes to, as a function of its circumstances:
 whether the command executes, what its row holds afterwards and what has been published.
 */
module CommandOutcomes {
  import opened Wrappers
  import opened Commands

  /** Admitted, acknowledged and, for a task, prepared. */
  predicate Executes(env: Env) {
    env.admission == Admitted && env.ackPublish.Fine? && (env.taskStart ==> env.prelaunch.Fine?)
  }

  /** The first call that fails after the command was let in. */
  function FirstFailure(env: Env): Option<Reply> {
    match env.admission
    case EarlyFault => None
    case Refused(_) => None
    case LateFault => Some(Fault)
    case AckStoreFault => Some(Fault)
    case Admitted =>
      if !env.ackPublish.Fine? then Some(env.ackPublish)
      else if env.taskStart && !env.prelaunch.Fine? then Some(env.prelaunch)
      else if !env.run.Fine? then Some(env.run)
      else if !env.taskStart && env.result.Some? && !env.resultPublish.Fine? then Some(env.resultPublish)
      else None
  }

  /** A protocol error is reported under its own code, anything else as an internal error. */
  function FailureOf(r: Reply): Result {
    Result("failed", match r case Protocol(code) => code case _ => "INTERNAL_ERROR")
  }

  function ExpectedAck(env: Env): Option<Ack> {
    match env.admission
    case Admitted => Some(Ack(true, ""))
    case Refused(code) => Some(Ack(false, code))
    case _ => None
  }

  function ExpectedResult(env: Env): Option<Result> {
    var f := FirstFailure(env);
    if f.Some? then Some(FailureOf(f.value))
    else if env.admission == Admitted && !env.taskStart then env.result
    else None
  }

  // ---- replaying effects on the store ------------------------------------------------------------------

  function Replay(s: Store, es: seq<Effect>): Store
    decreases |es|
  {
    if es == [] then s else Replay(Record(s, es[0]), es[1..])
  }

  lemma {:induction false} StoredThen(log: seq<Effect>, es: seq<Effect>)
    ensures Stored(log + es) == Replay(Stored(log), es)
    decreases |es|
  {
    if es == [] {
      assert log + es == log;
    } else {
      StoredSnoc(log, es[0]);
      StoredThen(log + [es[0]], es[1..]);
      assert log + [es[0]] + es[1..] == log + es;
    }
  }

  lemma {:induction false} ReplayConcat(s: Store, a: seq<Effect>, b: seq<Effect>)
    ensures Replay(s, a + b) == Replay(Replay(s, a), b)
    decreases |a|
  {
    if a == [] {
      assert a + b == b;
    } else {
      assert (a + b)[1..] == a[1..] + b;
      ReplayConcat(Record(s, a[0]), a[1..], b);
    }
  }

  lemma ReplayOne(s: Store, e: Effect)
    ensures Replay(s, [e]) == Record(s, e) && Replay(s, []) == s
  {
    assert [e][1..] == [];
  }

  /** The row of id holds this entry and no other row has changed. */
  ghost predicate RowIs(s: Store, s': Store, id: string, e: Entry) {
    s' == s[id := e]
  }

  // ---- the parts of a delivery -----------------------------------------------------------------------------

  lemma FailurePart(s: Store, id: string, env: Env, r: Reply, acked: bool)
    requires !r.Fine?
    ensures var es := Failure(id, env, r, acked);
            && RowIs(s, Replay(s, es), id, Entry(if id in s then s[id].ack else None, Some(FailureOf(r))))
            && Execute(id) !in es && (forall a :: PublishAck(id, a) !in es)
            && (ForceExit(id) in es <==> env.taskStart && acked)
            && PublishResult(id, FailureOf(r)) in es
  {
    hide Replay;
    var result := FailureOf(r);
    assert Result("failed", Code(r)) == result;
    var head: seq<Effect> := if env.taskStart && acked then [ForceExit(id)] else [];
    var es := Failure(id, env, r, acked);
    assert es == head + ([StoreResult(id, result)] + [PublishResult(id, result)]);
    ReplayConcat(s, head, [StoreResult(id, result)] + [PublishResult(id, result)]);
    ReplayConcat(s, [StoreResult(id, result)], [PublishResult(id, result)]);
    ReplayOne(s, ForceExit(id));
    ReplayOne(s, StoreResult(id, result));
    ReplayOne(Record(s, StoreResult(id, result)), PublishResult(id, result));
  }

  lemma OutcomePart(s: Store, id: string, env: Env)
    requires id in s && s[id].result.None? && Executes(env)
    ensures var es := Outcome(id, env);
            && RowIs(s, Replay(s, es), id, Entry(s[id].ack, ExpectedResult(env)))
            && Execute(id) !in es
            && (ForceExit(id) in es <==> env.taskStart && FirstFailure(env).Some?)
            && (ExpectedResult(env).Some? ==> PublishResult(id, ExpectedResult(env).value) in es)
  {
    hide Replay, Failure;
    ReplayOne(s, Execute(id));
    if !env.run.Fine? {
      FailurePart(s, id, env, env.run, true);
    } else if !env.taskStart && env.result.Some? {
      var store := StoreResult(id, env.result.value);
      var s1 := Record(s, store);
      ReplayOne(s, store);
      if env.resultPublish.Fine? {
        ReplayConcat(s, [store], [PublishResult(id, env.result.value)]);
        ReplayOne(s1, PublishResult(id, env.result.value));
      } else {
        var tail := Failure(id, env, env.resultPublish, true);
        ReplayConcat(s, [store], [PublishRaised(id)] + tail);
        ReplayConcat(s1, [PublishRaised(id)], tail);
        ReplayOne(s1, PublishRaised(id));
        FailurePart(s1, id, env, env.resultPublish, true);
      }
    }
  }

  /** After the acknowledgement was stored and published. */
  lemma AcceptedPart(s: Store, id: string, env: Env)
    requires id in s && s[id].result.None? && env.admission == Admitted && env.ackPublish.Fine?
    ensures var es := Accepted(id, env);
            && RowIs(s, Replay(s, es), id, Entry(s[id].ack, ExpectedResult(env)))
            && (Execute(id) in es <==> Executes(env))
            && (ForceExit(id) in es <==> env.taskStart && FirstFailure(env).Some?)
            && (ExpectedResult(env).Some? ==> PublishResult(id, ExpectedResult(env).value) in es)
  {
    hide Replay, Failure, Outcome;
    if env.taskStart && !env.prelaunch.Fine? {
      FailurePart(s, id, env, env.prelaunch, true);
    } else {
      ReplayConcat(s, [Execute(id)], Outcome(id, env));
      ReplayOne(s, Execute(id));
      OutcomePart(s, id, env);
    }
  }

  lemma AdmittedPart(s: Store, id: string, env: Env)
    requires id !in s && env.admission == Admitted
    ensures var es := Attempt(s, id, env);
            && RowIs(s, Replay(s, es), id, Entry(ExpectedAck(env), ExpectedResult(env)))
            && (Execute(id) in es <==> Executes(env))
            && (PublishAck(id, Ack(true, "")) in es <==> env.ackPublish.Fine?)
            && (ForceExit(id) in es <==> env.taskStart && FirstFailure(env).Some?)
            && (ExpectedResult(env).Some? ==> PublishResult(id, ExpectedResult(env).value) in es)
            && (Executes(env) ==> |es| >= 3 && es[1] == PublishAck(id, Ack(true, "")) && es[2] == Execute(id))
  {
    hide Replay, Failure, Outcome;
    var store := StoreAck(id, Ack(true, ""));
    var s1 := Record(s, store);
    ReplayOne(s, store);
    if !env.ackPublish.Fine? {
      var tail := Failure(id, env, env.ackPublish, true);
      ReplayConcat(s, [store], tail);
      FailurePart(s1, id, env, env.ackPublish, true);
    } else {
      var publish := PublishAck(id, Ack(true, ""));
      ReplayConcat(s, [store], [publish] + Accepted(id, env));
      ReplayConcat(s1, [publish], Accepted(id, env));
      ReplayOne(s1, publish);
      AcceptedPart(s1, id, env);
      assert publish in [publish];
    }
  }

  lemma RefusedPart(s: Store, id: string, env: Env)
    requires id !in s && env.admission.Refused?
    ensures var es := Attempt(s, id, env);
            && RowIs(s, Replay(s, es), id, Entry(ExpectedAck(env), None))
            && Execute(id) !in es && ForceExit(id) !in es && PublishAck(id, Ack(false, env.admission.code)) in es
  {
    hide Replay;
    var a := Ack(false, env.admission.code);
    assert Attempt(s, id, env) == [StoreAck(id, a)] + [PublishAck(id, a)];
    ReplayConcat(s, [StoreAck(id, a)], [PublishAck(id, a)]);
    ReplayOne(s, StoreAck(id, a));
    ReplayOne(Record(s, StoreAck(id, a)), PublishAck(id, a));
  }

  // ---- the whole delivery ------------------------------------------------------------------------------------

  /** What the first delivery of an id leaves behind, and what it has done on the way. */
  ghost predicate Delivered(before: seq<Effect>, after: seq<Effect>, id: string, env: Env) {
    before <= after &&
    var es := after[|before|..];
    && (if env.admission == EarlyFault then es == []
        else RowIs(Stored(before), Stored(after), id, Entry(ExpectedAck(env), ExpectedResult(env))))
    && (Execute(id) in es <==> Executes(env))
    && (Executes(env) ==> exists i, j :: 0 <= i < j < |es| && es[i] == PublishAck(id, Ack(true, "")) && es[j] == Execute(id))
    && (ForceExit(id) in es <==> env.taskStart && FirstFailure(env).Some? && env.admission != LateFault)
    && (ExpectedResult(env).Some? ==> PublishResult(id, ExpectedResult(env).value) in es)
    && (ExpectedAck(env).Some? ==> (PublishAck(id, ExpectedAck(env).value) in es <==> env.admission.Refused? || env.ackPublish.Fine?))
  }

  /**
   A whole first delivery after any run: the command executes exactly when it is admitted, its
   acknowledgement is published and a task is prepared, and then after that publication; its
   row holds the given result or the failure of the first call that failed; a task that fails
   once its acknowledgement exists is forced out; and what is stored has been published.
   */
  lemma FirstDelivery(ops: seq<Op>, id: string, env: Env)
    requires Run(ops).pending == [] && id !in Stored(Run(ops).log)
    ensures Delivered(Run(ops).log, Run(Whole(ops, id, env)).log, id, env)
  {
    hide Run, Whole, Attempt, Stored, Replay, Failure;
    WholeDelivery(ops, id, env);
    var before := Run(ops).log;
    var s := Stored(before);
    var es := Attempt(s, id, env);
    assert (before + es)[|before|..] == es;
    StoredThen(before, es);
    match env.admission
    case Admitted =>
      AdmittedPart(s, id, env);
    case Refused(code) =>
      RefusedPart(s, id, env);
    case EarlyFault =>
      FaultPart(s, id, env);
    case LateFault =>
      FaultPart(s, id, env);
      FailurePart(s, id, env, Fault, false);
    case AckStoreFault =>
      FaultPart(s, id, env);
      FailurePart(s, id, env, Fault, true);
  }

  lemma FaultPart(s: Store, id: string, env: Env)
    requires id !in s && (env.admission == EarlyFault || env.admission == LateFault || env.admission == AckStoreFault)
    ensures Attempt(s, id, env) ==
            match env.admission
            case EarlyFault => []
            case LateFault => Failure(id, env, Fault, false)
            case _ => Failure(id, env, Fault, true)
  {
  }

  /** A delivery that follows a handler given up halfway is a whole first delivery as well. */
  lemma DeliveredAfterAbandon(ops: seq<Op>, id: string, env: Env)
    requires id !in Stored(Run(ops).log)
    ensures Delivered(Run(ops).log, Run(Whole(ops + [Abandon], id, env)).log, id, env)
  {
    hide Stored, Attempt, Delivered, Whole;
    var all := ops + [Abandon];
    assert all[..|all| - 1] == ops && all[|all| - 1] == Abandon;
    assert Run(all).pending == [] && Run(all).log == Run(ops).log;
    FirstDelivery(all, id, env);
  }
}
