/**
 Temporary fusion profiles: the localization node changes its profile under a generation
 counter, Edge remembers the generation of the lease it holds, and several Edge threads,
 the node's own expiry and other callers interleave between atomic steps.
 */
module Fusion {
  import opened Wrappers

  datatype Profile = Nominal | LioHold | Balanced

  datatype Node = Node(profile: Profile, generation: nat)

  /** What the caller learns; a lost answer carries no generation. */
  datatype Reply = Reply(accepted: bool, generation: nat)

  /** Fate of one service call: answered, applied with the answer lost, or never applied. */
  datatype Channel = Answered | AnswerLost | CallLost

  predicate Applies(node: Node, expected: nat) {
    expected == 0 || expected == node.generation
  }

  /** The service callback: conditional unless no generation is named. */
  function SetProfile(node: Node, profile: Profile, expected: nat): Node {
    if Applies(node, expected) then Node(profile, node.generation + 1) else node
  }

  function Answer(node: Node, expected: nat): Reply {
    if Applies(node, expected) then Reply(true, node.generation + 1) else Reply(false, node.generation)
  }

  function Called(node: Node, profile: Profile, expected: nat, ch: Channel): Node {
    if ch == CallLost then node else SetProfile(node, profile, expected)
  }

  function Heard(node: Node, expected: nat, ch: Channel): Reply {
    if ch == Answered then Answer(node, expected) else Reply(false, 0)
  }

  /** The node's expiry timer: a temporary profile falls back to nominal under a new generation. */
  function Expired(node: Node): Node {
    if node.profile == Nominal then node else Node(Nominal, node.generation + 1)
  }

  /** A reported decision may be stale (any earlier node state) or unavailable. */
  function Reported(report: Option<Node>): nat {
    if report.None? || report.value.profile == Nominal then 0 else report.value.generation
  }

  /** What a thread remembers between its steps: a generation, and how long the history was then. */
  datatype Capture = Capture(generation: nat, at: nat)

  /** history ends with the node's present state; active is Edge's recorded lease, 0 for none; held is per thread. */
  datatype World = World(history: seq<Node>, active: nat, held: map<nat, Capture>)

  function Now(w: World): Node
    requires w.history != []
  {
    w.history[|w.history| - 1]
  }

  function Moved(w: World, node: Node): World {
    w.(history := w.history + [node])
  }

  function Held(w: World, thread: nat, g: nat): World {
    w.(held := w.held[thread := Capture(g, |w.history|)])
  }

  datatype Op =
    | ActivateHold(thread: nat, report: Option<nat>, channel: Channel)
    | BeginRestore(thread: nat, report: Option<nat>)
    | Finish(thread: nat, profile: Profile, channel: Channel)
    | Forget(generation: nat, report: Option<nat>)
    | NodeExpires
    | Foreign(profile: Profile, expected: nat)

  /** The node state a report shows: an index into the history. */
  function Seen(w: World, report: Option<nat>): Option<Node> {
    if report.Some? && report.value < |w.history| then Some(w.history[report.value]) else None
  }

  /** `_activate_lio_hold`; the thread that releases the hold later starts with its generation. */
  function Activated(w: World, thread: nat, report: Option<nat>, ch: Channel): World
    requires w.history != []
  {
    var expected := if w.active > 0 then w.active else Reported(Seen(w, report));
    var heard := Heard(Now(w), expected, ch);
    var w1 := Moved(w, Called(Now(w), LioHold, expected, ch));
    if heard.accepted && heard.generation > 0 then Held(w1.(active := heard.generation), thread, heard.generation)
    else if heard.accepted then Moved(w1, SetProfile(Now(w1), Nominal, 0))
    else w1
  }

  /** `_transition_temporary_fusion_profile`: the setter is reached only for the recorded generation. */
  function Transitioned(w: World, g: nat, profile: Profile, ch: Channel): World
    requires w.history != []
  {
    if g == 0 || w.active != g then w
    else
      var heard := Heard(Now(w), g, ch);
      var w1 := Moved(w, Called(Now(w), profile, g, ch));
      if heard.accepted then w1.(active := if profile == Nominal then 0 else heard.generation)
      else if heard.generation != 0 && heard.generation != g then w1.(active := 0)
      else w1
  }

  /** The first critical section of `_restore_temporary_fusion_profile`: without a record it adopts what is reported. */
  function RestoreBegun(w: World, thread: nat, report: Option<nat>): World {
    var g := if w.active > 0 then w.active else Reported(Seen(w, report));
    if g == 0 then w else Held(w.(active := g), thread, g)
  }

  /** The end of a restore, of a time-out or of a hand-over: a transition under the generation the thread holds. */
  function Finished(w: World, thread: nat, profile: Profile, ch: Channel): World
    requires w.history != []
  {
    if thread !in w.held then w
    else
      var w1 := Transitioned(w, w.held[thread].generation, profile, ch);
      w1.(held := w1.held - {thread})
  }

  function Forgotten(w: World, g: nat, report: Option<nat>): World {
    if w.active == g && Reported(Seen(w, report)) != g then w.(active := 0) else w
  }

  function Step(w: World, op: Op): World
    requires w.history != []
  {
    match op
    case ActivateHold(thread, report, ch) => Activated(w, thread, report, ch)
    case BeginRestore(thread, report) => RestoreBegun(w, thread, report)
    case Finish(thread, profile, ch) => Finished(w, thread, profile, ch)
    case Forget(g, report) => Forgotten(w, g, report)
    case NodeExpires => Moved(w, Expired(Now(w)))
    case Foreign(profile, expected) => Moved(w, SetProfile(Now(w), profile, expected))
  }

  function Run(w: World, ops: seq<Op>): (w': World)
    requires w.history != []
    ensures w'.history != []
  {
    if ops == [] then w else Step(Run(w, ops[..|ops| - 1]), ops[|ops| - 1])
  }

  /** Generations never go back, and one generation is one profile for ever. */
  ghost predicate Consistent(history: seq<Node>) {
    && (forall i, j :: 0 <= i < j < |history| ==> history[i].generation <= history[j].generation)
    && (forall i, j :: 0 <= i < j < |history| && history[i].generation == history[j].generation ==> history[i] == history[j])
  }

  /** No thread holds a generation that did not exist when it took hold of it. */
  ghost predicate CapturesArePast(w: World) {
    forall t :: t in w.held ==>
      && 1 <= w.held[t].at <= |w.history|
      && 0 < w.held[t].generation <= w.history[w.held[t].at - 1].generation
  }

  /** Edge never claims a generation that does not exist yet, nor one under which the node is nominal. */
  ghost predicate Inv(w: World) {
    && w.history != [] && Consistent(w.history)
    && w.active <= Now(w).generation
    && (w.active > 0 && w.active == Now(w).generation ==> Now(w).profile != Nominal)
    && (Now(w).generation == 0 ==> Now(w).profile == Nominal)
    && CapturesArePast(w)
  }

  lemma MovedConsistent(history: seq<Node>, node: Node)
    requires history != [] && Consistent(history)
    requires node == history[|history| - 1] || node.generation > history[|history| - 1].generation
    ensures Consistent(history + [node])
  {
    var last := history[|history| - 1];
    forall i | 0 <= i < |history|
      ensures history[i].generation <= node.generation && (history[i].generation == node.generation ==> history[i] == node)
    {
      if i < |history| - 1 {
        assert history[i].generation <= last.generation;
      }
    }
  }

  lemma MovedKeepsCaptures(w: World, node: Node)
    requires CapturesArePast(w)
    ensures CapturesArePast(Moved(w, node))
  {
    forall t | t in w.held ensures Moved(w, node).history[w.held[t].at - 1] == w.history[w.held[t].at - 1] {
    }
  }

  /** A reported temporary generation is an existing one, and current only if the node still shows that profile. */
  lemma ReportedIsPast(w: World, report: Option<nat>)
    requires w.history != [] && Consistent(w.history)
    ensures var g := Reported(Seen(w, report));
            g <= Now(w).generation && (g > 0 && g == Now(w).generation ==> Now(w).profile != Nominal)
  {
    var seen := Seen(w, report);
    if seen.Some? && report.value < |w.history| - 1 {
      assert w.history[report.value].generation <= Now(w).generation;
    }
  }

  lemma TransitionKeepsInv(w: World, g: nat, profile: Profile, ch: Channel)
    requires Inv(w)
    ensures Inv(Transitioned(w, g, profile, ch)) && Transitioned(w, g, profile, ch).held == w.held
  {
    hide Consistent, CapturesArePast;
    MovedConsistent(w.history, Called(Now(w), profile, g, ch));
    MovedKeepsCaptures(w, Called(Now(w), profile, g, ch));
    var w1 := Moved(w, Called(Now(w), profile, g, ch));
    assert CapturesArePast(w1.(active := 0)) && CapturesArePast(w1.(active := Now(w1).generation)) by {
      SameCaptures(w1, 0);
      SameCaptures(w1, Now(w1).generation);
    }
  }

  lemma SameCaptures(w: World, active: nat)
    requires CapturesArePast(w)
    ensures CapturesArePast(w.(active := active))
  {
  }

  lemma HoldKeepsCaptures(w: World, thread: nat, g: nat)
    requires CapturesArePast(w) && w.history != [] && 0 < g <= Now(w).generation
    ensures CapturesArePast(Held(w, thread, g))
  {
  }

  lemma ActivationKeepsInv(w: World, thread: nat, report: Option<nat>, ch: Channel)
    requires Inv(w)
    ensures Inv(Activated(w, thread, report, ch))
  {
    hide Consistent, CapturesArePast;
    var expected := if w.active > 0 then w.active else Reported(Seen(w, report));
    var node := Called(Now(w), LioHold, expected, ch);
    MovedConsistent(w.history, node);
    MovedKeepsCaptures(w, node);
    var w1 := Moved(w, node);
    SameCaptures(w1, Now(w1).generation);
    if Now(w1).generation > 0 {
      HoldKeepsCaptures(w1.(active := Now(w1).generation), thread, Now(w1).generation);
    }
  }

  lemma StepKeepsInv(w: World, op: Op)
    requires Inv(w)
    ensures Inv(Step(w, op))
  {
    hide Consistent, CapturesArePast, Transitioned, Activated;
    match op
    case ActivateHold(thread, report, ch) =>
      ActivationKeepsInv(w, thread, report, ch);
    case BeginRestore(thread, report) =>
      ReportedIsPast(w, report);
      var g := if w.active > 0 then w.active else Reported(Seen(w, report));
      SameCaptures(w, g);
      if g > 0 {
        HoldKeepsCaptures(w.(active := g), thread, g);
      }
    case Finish(thread, profile, ch) =>
      if thread in w.held {
        TransitionKeepsInv(w, w.held[thread].generation, profile, ch);
        FewerCaptures(Transitioned(w, w.held[thread].generation, profile, ch), thread);
      }
    case Forget(g, report) =>
      SameCaptures(w, 0);
    case NodeExpires =>
      MovedConsistent(w.history, Expired(Now(w)));
      MovedKeepsCaptures(w, Expired(Now(w)));
    case Foreign(profile, expected) =>
      MovedConsistent(w.history, SetProfile(Now(w), profile, expected));
      MovedKeepsCaptures(w, SetProfile(Now(w), profile, expected));
  }

  lemma FewerCaptures(w: World, thread: nat)
    requires CapturesArePast(w)
    ensures CapturesArePast(w.(held := w.held - {thread}))
  {
  }

  /** Over every interleaving: no record and no capture is ahead of the node, and none names a nominal one. */
  lemma {:induction false} RunKeepsInv(w: World, ops: seq<Op>)
    requires w.history != [] && Inv(w)
    ensures Inv(Run(w, ops))
  {
    hide Inv, Step;
    if ops != [] {
      RunKeepsInv(w, ops[..|ops| - 1]);
      StepKeepsInv(Run(w, ops[..|ops| - 1]), ops[|ops| - 1]);
    }
  }

  lemma StepGrows(w: World, op: Op)
    requires w.history != []
    ensures Now(Step(w, op)).generation >= Now(w).generation
    ensures Now(Step(w, op)) != Now(w) ==> Now(Step(w, op)).generation > Now(w).generation
  {
  }

  lemma {:induction false} RunGrows(w: World, ops: seq<Op>)
    requires w.history != []
    ensures Now(Run(w, ops)).generation >= Now(w).generation
  {
    hide Step;
    if ops != [] {
      RunGrows(w, ops[..|ops| - 1]);
      StepGrows(Run(w, ops[..|ops| - 1]), ops[|ops| - 1]);
    }
  }

  // ---- who may change what -------------------------------------------------------------------------------

  /** A thread changes the node exactly when its call arrives, Edge still records its generation and the node still has it. */
  lemma FinishChangesIff(w: World, thread: nat, profile: Profile, ch: Channel)
    requires Inv(w) && thread in w.held
    ensures Now(Step(w, Finish(thread, profile, ch))) != Now(w) <==>
              ch != CallLost && w.active == w.held[thread].generation == Now(w).generation
  {
    hide Consistent;
  }

  /** What was in force when the thread took hold of its generation. */
  ghost function AtCapture(w: World, thread: nat): Node
    requires CapturesArePast(w) && thread in w.held
  {
    w.history[w.held[thread].at - 1]
  }

  lemma OutdatedIsSpared(w: World, thread: nat, profile: Profile, ch: Channel)
    requires Inv(w) && thread in w.held && Now(w) != AtCapture(w, thread)
    ensures Now(Step(w, Finish(thread, profile, ch))) == Now(w)
  {
    hide Step;
    var i := w.held[thread].at - 1;
    assert w.history[i].generation <= Now(w).generation;
    FinishChangesIff(w, thread, profile, ch);
  }

  /** When it does, the node has the profile the thread asked for, under the next generation, which Edge records if it is temporary. */
  lemma FinishSets(w: World, thread: nat, profile: Profile, ch: Channel)
    requires Inv(w) && thread in w.held && Now(Step(w, Finish(thread, profile, ch))) != Now(w)
    ensures var w' := Step(w, Finish(thread, profile, ch));
            && Now(w') == Node(profile, Now(w).generation + 1)
            && (ch == Answered ==> w'.active == if profile == Nominal then 0 else Now(w').generation)
  {
    hide Consistent;
  }

  /**
   A hold that arrives puts the node into LIO hold exactly when it replaces the recorded lease,
   or the reported one, or nothing; if it is answered Edge records the new generation and the
   thread holds it. Otherwise the node and the record stay.
   */
  lemma HoldTakesEffect(w: World, thread: nat, report: Option<nat>, ch: Channel)
    requires Inv(w)
    ensures var w' := Step(w, ActivateHold(thread, report, ch));
            var expected := if w.active > 0 then w.active else Reported(Seen(w, report));
            if ch != CallLost && (expected == 0 || expected == Now(w).generation)
            then && Now(w') == Node(LioHold, Now(w).generation + 1)
                 && (ch == Answered ==> w'.active == Now(w').generation && thread in w'.held && w'.held[thread].generation == Now(w').generation)
                 && (ch != Answered ==> w'.active == w.active)
            else Now(w') == Now(w) && w'.active == w.active
  {
    hide Consistent;
  }

  /** The node's own expiry ends a temporary profile and leaves a nominal one. */
  lemma ExpiryEnds(w: World)
    requires Inv(w)
    ensures var w' := Step(w, NodeExpires);
            && Now(w').profile == Nominal && w'.active == w.active
            && Now(w').generation == Now(w).generation + if Now(w).profile == Nominal then 0 else 1
  {
    hide Consistent;
  }

  /**
   Nothing that came into force after a thread took hold of its generation is overwritten by
   that thread, whatever else ran in between.
   */
  lemma LaterProfilesAreSpared(start: World, ops: seq<Op>, w: World, thread: nat, profile: Profile, ch: Channel)
    requires start.history != [] && Inv(start) && w == Run(start, ops) && thread in w.held
    ensures Inv(w) && (Now(w) != AtCapture(w, thread) ==> Now(Step(w, Finish(thread, profile, ch))) == Now(w))
  {
    hide Step, Run;
    RunKeepsInv(start, ops);
    if Now(w) != AtCapture(w, thread) {
      OutdatedIsSpared(w, thread, profile, ch);
    }
  }

  /**
   A superseded lease stays powerless: once the node has moved past generation g, no later
   transition by the holder of g changes the node, whatever happens in between.
   */
  lemma SupersededIsPowerless(w: World, ops: seq<Op>, g: nat, profile: Profile, ch: Channel)
    requires w.history != [] && Now(w).generation > g
    ensures Now(Transitioned(Run(w, ops), g, profile, ch)) == Now(Run(w, ops))
  {
    hide Run;
    RunGrows(w, ops);
  }

  /** Edge records the generation in force, or some thread holds it. */
  ghost predicate Owns(w: World)
    requires w.history != []
  {
    (w.active > 0 && w.active == Now(w).generation) || exists t :: t in w.held && w.held[t].generation == Now(w).generation
  }

  /** The work of restores, time-outs, hand-overs and expiry bookkeeping. */
  predicate ReleaseWork(op: Op) {
    op.BeginRestore? || op.Finish? || op.Forget?
  }

  /** A restore that takes a profile over: Edge records none and the report shows the one in force. */
  predicate Adopts(w: World, op: Op)
    requires w.history != []
  {
    op.BeginRestore? && w.active == 0 && Reported(Seen(w, op.report)) > 0 && Reported(Seen(w, op.report)) == Now(w).generation
  }

  lemma ReleaseStepSpares(w: World, op: Op)
    requires Inv(w) && !Owns(w) && ReleaseWork(op) && !Adopts(w, op)
    ensures Now(Step(w, op)) == Now(w) && !Owns(Step(w, op))
  {
    hide Consistent;
  }

  /** A profile that no thread of Edge holds survives all their release work, as long as no restore adopts it. */
  lemma {:induction false} NewerProfileSurvives(w: World, ops: seq<Op>)
    requires w.history != [] && Inv(w) && !Owns(w) && forall k :: 0 <= k < |ops| ==> ReleaseWork(ops[k])
    requires forall k :: 0 <= k < |ops| ==> !Adopts(Run(w, ops[..k]), ops[k])
    ensures Now(Run(w, ops)) == Now(w) && !Owns(Run(w, ops)) && Inv(Run(w, ops))
  {
    hide Inv, Step, Owns, Adopts;
    if ops != [] {
      var init := ops[..|ops| - 1];
      forall k | 0 <= k < |init| ensures !Adopts(Run(w, init[..k]), init[k]) {
        assert init[..k] == ops[..k];
      }
      NewerProfileSurvives(w, init);
      ReleaseStepSpares(Run(w, init), ops[|ops| - 1]);
      StepKeepsInv(Run(w, init), ops[|ops| - 1]);
    }
  }

  /** A nominal profile is never adopted. */
  lemma {:induction false} NominalSurvives(w: World, ops: seq<Op>)
    requires Inv(w) && !Owns(w) && Now(w).profile == Nominal && forall k :: 0 <= k < |ops| ==> ReleaseWork(ops[k])
    ensures Now(Run(w, ops)) == Now(w) && !Owns(Run(w, ops)) && Inv(Run(w, ops))
  {
    hide Step, Owns, Consistent, CapturesArePast;
    if ops != [] {
      var init, op := ops[..|ops| - 1], ops[|ops| - 1];
      NominalSurvives(w, init);
      if op.BeginRestore? {
        ReportedIsPast(Run(w, init), op.report);
      }
      ReleaseStepSpares(Run(w, init), op);
      StepKeepsInv(Run(w, init), op);
    }
  }

  /** The report that shows the present state. */
  function Latest(w: World): Option<nat>
    requires w.history != []
  {
    Some(|w.history| - 1)
  }

  /** A restore that finds no record turns a reported temporary profile nominal, whoever set it. */
  lemma RestoreAdopts(w: World, thread: nat)
    requires Inv(w) && w.active == 0 && Now(w).profile != Nominal
    ensures var w1 := Step(w, BeginRestore(thread, Latest(w)));
            && Adopts(w, BeginRestore(thread, Latest(w)))
            && Now(Step(w1, Finish(thread, Nominal, Answered))) == Node(Nominal, Now(w).generation + 1)
  {
    hide Consistent, CapturesArePast;
  }

  /** A restore under an outdated record is refused and forgets the record. */
  lemma RestoreForgets(w: World, thread: nat)
    requires Inv(w) && !Owns(w) && w.active > 0
    ensures var w' := Step(Step(w, BeginRestore(thread, None)), Finish(thread, Nominal, Answered));
            w'.active == 0 && Now(w') == Now(w)
  {
    hide Consistent, CapturesArePast;
  }

  /**
   Exactly which profiles the release work of Edge can take away from another owner: the
   temporary ones. A nominal profile is safe in every interleaving; a temporary one is lost in
   at most two restores, the first of which drops an outdated record.
   */
  lemma ForeignProfileLostIff(w: World)
    requires w.history != [] && Inv(w) && !Owns(w)
    ensures (exists ops :: (forall k :: 0 <= k < |ops| ==> ReleaseWork(ops[k])) && Now(Run(w, ops)) != Now(w))
       <==> Now(w).profile != Nominal
  {
    hide Inv, Owns, Step;
    if Now(w).profile == Nominal {
      forall ops | forall k :: 0 <= k < |ops| ==> ReleaseWork(ops[k]) ensures Now(Run(w, ops)) == Now(w) {
        NominalSurvives(w, ops);
      }
    } else {
      var ops := LossOf(w);
      LossWorks(w);
      assert Now(Run(w, ops)) != Now(w);
    }
  }

  function LossOf(w: World): seq<Op>
    requires w.history != []
  {
    var clear: seq<Op> := if w.active > 0 then [BeginRestore(0, None), Finish(0, Nominal, Answered)] else [];
    var cleared := if w.active > 0 then Step(Step(w, clear[0]), clear[1]) else w;
    clear + [BeginRestore(0, Latest(cleared)), Finish(0, Nominal, Answered)]
  }

  lemma RunTwo(w: World, ops: seq<Op>, a: Op, b: Op)
    requires w.history != []
    ensures Run(w, ops + [a, b]) == Step(Step(Run(w, ops), a), b)
  {
    hide Step;
    var all := ops + [a, b];
    assert all[..|all| - 1] == ops + [a];
    assert (ops + [a])[..|ops|] == ops;
  }

  lemma LossWorks(w: World)
    requires w.history != [] && Inv(w) && !Owns(w) && Now(w).profile != Nominal
    ensures Now(Run(w, LossOf(w))) != Now(w) && forall k :: 0 <= k < |LossOf(w)| ==> ReleaseWork(LossOf(w)[k])
  {
    hide Inv, Owns, Step;
    var a, b := BeginRestore(0, None), Finish(0, Nominal, Answered);
    if w.active > 0 {
      RunTwo(w, [], a, b);
      assert [] + [a, b] == [a, b] && Run(w, []) == w;
      var cleared := Run(w, [a, b]);
      RestoreForgets(w, 0);
      RunKeepsInv(w, [a, b]);
      RestoreAdopts(cleared, 0);
      RunTwo(w, [a, b], BeginRestore(0, Latest(cleared)), b);
    } else {
      RestoreAdopts(w, 0);
      RunTwo(w, [], BeginRestore(0, Latest(w)), b);
    }
  }

  /** Edge holds the lease that is in force. */
  predicate Live(w: World)
    requires w.history != []
  {
    w.active > 0 && w.active == Now(w).generation
  }

  /**
   A live lease is dropped without the node moving in exactly one way: the expiry bookkeeping
   of that very generation reading a stale or missing report.
   */
  lemma LiveLeaseDroppedIff(w: World, op: Op)
    requires Inv(w) && Live(w)
    ensures Now(Step(w, op)) == Now(w) && Step(w, op).active == 0
       <==> op.Forget? && op.generation == w.active && Reported(Seen(w, op.report)) != w.active
  {
  }

  // ---- the two objects ---------------------------------------------------------------------------------

  class LocalizationNode {
    var node: Node
    ghost var history: seq<Node>

    ghost predicate Valid()
      reads this
    {
      history != [] && history[|history| - 1] == node
    }

    constructor ()
      ensures Valid() && node == Node(Nominal, 0) && history == [node]
    {
      node := Node(Nominal, 0);
      history := [Node(Nominal, 0)];
    }

    method Set(profile: Profile, expected: nat, ch: Channel) returns (heard: Reply)
      requires Valid()
      modifies this
      ensures Valid() && history == old(history) + [Called(old(node), profile, expected, ch)]
      ensures heard == Heard(old(node), expected, ch)
    {
      if ch == CallLost {
        heard := Reply(false, 0);
      } else if expected != 0 && expected != node.generation {
        heard := Reply(false, node.generation);
      } else {
        node := Node(profile, node.generation + 1);
        heard := Reply(true, node.generation);
      }
      if ch == AnswerLost {
        heard := Reply(false, 0);
      }
      history := history + [node];
    }
  }

  class EdgeFusion {
    const target: LocalizationNode
    var active: nat
    /** The generations that threads carry in their local variables. */
    ghost var held: map<nat, Capture>

    ghost function Contents(): World
      reads this, target
    {
      World(target.history, active, held)
    }

    ghost predicate Valid()
      reads this, target
    {
      target.Valid()
    }

    constructor (n: LocalizationNode)
      requires n.Valid()
      ensures target == n && Valid() && active == 0 && held == map[]
    {
      target, active, held := n, 0, map[];
    }

    method ActivateLioHold(ghost thread: nat, ghost seen: Option<nat>, shown: Option<Node>, ch: Channel)
      returns (accepted: bool, generation: nat)
      requires Valid() && shown == Seen(Contents(), seen)
      modifies this, target
      ensures Valid() && Contents() == Activated(old(Contents()), thread, seen, ch)
      ensures accepted == (ch == Answered && Applies(old(target.node), if old(active) > 0 then old(active) else Reported(shown)))
      ensures accepted ==> thread in held && held[thread].generation == generation
    {
      var expected := active;
      if expected <= 0 {
        expected := Reported(shown);
      }
      var heard := target.Set(LioHold, expected, ch);
      accepted, generation := heard.accepted, heard.generation;
      if heard.accepted {
        active := heard.generation;
        held := held[thread := Capture(heard.generation, |target.history|)];
      }
    }

    method TransitionProfile(g: nat, profile: Profile, ch: Channel) returns (accepted: bool)
      requires Valid()
      modifies this, target
      ensures Valid() && Contents() == Transitioned(old(Contents()), g, profile, ch)
      ensures accepted ==> ch == Answered && g > 0 && g == old(active) == old(target.node).generation
    {
      accepted := false;
      if g <= 0 || active != g {
        return;
      }
      var heard := target.Set(profile, g, ch);
      accepted := heard.accepted;
      if heard.accepted {
        if profile == Nominal {
          active := 0;
        } else {
          active := heard.generation;
        }
      } else if heard.generation != 0 && heard.generation != g {
        active := 0;
      }
    }

    /** First half of the restore: 0 means that there is nothing to restore. */
    method BeginRestoring(ghost thread: nat, ghost seen: Option<nat>, shown: Option<Node>) returns (generation: nat)
      requires Valid() && shown == Seen(Contents(), seen)
      modifies this
      ensures Valid() && Contents() == RestoreBegun(old(Contents()), thread, seen)
      ensures generation > 0 ==> thread in held && held[thread].generation == generation
    {
      generation := active;
      if generation <= 0 {
        generation := Reported(shown);
        if generation <= 0 {
          return;
        }
        active := generation;
      }
      held := held[thread := Capture(generation, |target.history|)];
    }

    /** The other half: the thread passes the generation it kept. */
    method FinishWith(ghost thread: nat, g: nat, profile: Profile, ch: Channel) returns (accepted: bool)
      requires Valid() && thread in held && held[thread].generation == g
      modifies this, target
      ensures Valid() && Contents() == Finished(old(Contents()), thread, profile, ch)
    {
      accepted := TransitionProfile(g, profile, ch);
      held := held - {thread};
    }

    method ForgetExpired(g: nat, ghost seen: Option<nat>, shown: Option<Node>)
      requires Valid() && shown == Seen(Contents(), seen)
      modifies this`active
      ensures Valid() && Contents() == Forgotten(old(Contents()), g, seen)
    {
      if active == g && Reported(shown) != g {
        active := 0;
      }
    }
  }
}
