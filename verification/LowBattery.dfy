/**
 The low-battery alert of the charging adapter: a confirmation counter, a cooldown, a manual
 inhibition window, and a latch that is written to the store before the alert is raised, so
 that it survives a restart of the process.
 */
module LowBattery {
  import opened Wrappers

  /** confirmations, cooldown and the two levels are configuration; hasStore says whether a store is attached. */
  datatype Config = Config(start: int, rearm: int, confirmations: int, cooldown: real, hasStore: bool)

  /** What writing the latch did: written or not, and whether the call came back without an exception. */
  datatype Persist = Done | RaisedUnwritten | RaisedWritten

  datatype State = State(samples: nat, lastAlertAt: Option<real>, inhibitUntil: real, active: bool, stored: bool)

  /** One critical section: a power sample, a manual or automatic stop, its second half, a new process. */
  datatype Op =
    | Observe(percent: Option<int>, now: real, charging: bool, alertRunning: bool, persist: Persist)
    | Stop(manual: bool, until: real)
    | ExtendInhibition(until: real)
    | Restart

  /** The sample carries a percentage and is not inside the inhibition window. */
  predicate Processed(s: State, op: Op) {
    op.Observe? && op.percent.Some? && op.now >= s.inhibitUntil
  }

  predicate Rearms(c: Config, s: State, op: Op) {
    Processed(s, op) && op.percent.value >= c.rearm
  }

  /** A sample that adds one confirmation. */
  predicate Counts(c: Config, s: State, op: Op) {
    Processed(s, op) && op.percent.value < c.rearm && op.percent.value < c.start && !s.active && !op.charging
  }

  predicate Cooled(c: Config, s: State, now: real) {
    s.lastAlertAt.None? || now - s.lastAlertAt.value >= c.cooldown
  }

  /** The latch closes. */
  predicate Triggers(c: Config, s: State, op: Op) {
    Counts(c, s, op) && s.samples + 1 >= c.confirmations && Cooled(c, s, op.now) && !op.alertRunning
  }

  /** The alert is raised: the latch closed and was written, or there is no store to write to. */
  predicate Alerts(c: Config, s: State, op: Op) {
    Triggers(c, s, op) && (c.hasStore ==> op.persist.Done?)
  }

  /** An operation after which no confirmation counts any more. */
  predicate Resets(c: Config, s: State, op: Op) {
    match op
    case Observe(_, _, _, _, _) =>
      !Processed(s, op) || op.percent.value >= c.rearm || op.percent.value >= c.start || Triggers(c, s, op)
    case Stop(manual, _) => manual
    case ExtendInhibition(_) => false
    case Restart => true
  }

  function StoredAfter(c: Config, stored: bool, value: bool, persist: Persist): bool {
    if !c.hasStore || persist.RaisedUnwritten? then stored else value
  }

  function Step(c: Config, s: State, op: Op): State {
    match op
    case Observe(percent, now, charging, alertRunning, persist) =>
      if Rearms(c, s, op) then
        State(0, s.lastAlertAt, s.inhibitUntil, false, if s.active then StoredAfter(c, s.stored, false, persist) else s.stored)
      else if Triggers(c, s, op) then
        State(0, Some(now), s.inhibitUntil, true, StoredAfter(c, s.stored, true, persist))
      else if Counts(c, s, op) then s.(samples := s.samples + 1)
      else if Resets(c, s, op) then s.(samples := 0)
      else s
    case Stop(manual, until) => if manual then s.(samples := 0, inhibitUntil := until) else s
    case ExtendInhibition(until) => s.(inhibitUntil := until)
    case Restart => Fresh(c, s.stored)
  }

  /** A new process on what the store holds. */
  function Fresh(c: Config, stored: bool): State {
    State(0, None, 0.0, c.hasStore && stored, stored)
  }

  /** The state reached before operation number |ops|. */
  function Run(c: Config, s: State, ops: seq<Op>): State {
    if ops == [] then s else Step(c, Run(c, s, ops[..|ops| - 1]), ops[|ops| - 1])
  }

  function At(c: Config, s: State, ops: seq<Op>, i: nat): State
    requires i <= |ops|
  {
    Run(c, s, ops[..i])
  }

  lemma AtNext(c: Config, s: State, ops: seq<Op>, i: nat)
    requires i < |ops|
    ensures At(c, s, ops, i + 1) == Step(c, At(c, s, ops, i), ops[i])
  {
    assert ops[..i + 1][..i] == ops[..i];
  }

  /** The adapter's fields for this detector; stored is the row kept in the store. */
  class ChargeControlAdapter {
    const config: Config
    var samples: nat
    var lastAlertAt: Option<real>
    var inhibitUntil: real
    var active: bool
    var stored: bool

    ghost function Contents(): State
      reads this
    {
      State(samples, lastAlertAt, inhibitUntil, active, stored)
    }

    constructor (c: Config, row: bool)
      ensures config == c && Contents() == Fresh(c, row)
    {
      config := c;
      samples, lastAlertAt, inhibitUntil := 0, None, 0.0;
      active, stored := c.hasStore && row, row;
    }

    /** `_persist_low_battery_episode` */
    method PersistEpisode(persist: Persist) returns (raised: bool)
      modifies this`stored
      ensures stored == StoredAfter(config, old(stored), active, persist)
      ensures raised == (config.hasStore && !persist.Done?)
    {
      if !config.hasStore {
        return false;
      }
      if !persist.RaisedUnwritten? {
        stored := active;
      }
      return !persist.Done?;
    }

    /** `_observe_low_battery`; alerted says that the alert thread was started. */
    method ObserveLowBattery(percent: Option<int>, now: real, charging: bool, alertRunning: bool, persist: Persist)
      returns (alerted: bool)
      modifies this
      ensures var op := Observe(percent, now, charging, alertRunning, persist);
              && Contents() == Step(config, old(Contents()), op)
              && alerted == Alerts(config, old(Contents()), op)
    {
      alerted := false;
      if percent.None? {
        samples := 0;
        return;
      }
      if now < inhibitUntil {
        samples := 0;
        return;
      }
      if percent.value >= config.rearm {
        samples := 0;
        if active {
          active := false;
          var raised := PersistEpisode(persist);
        }
        return;
      }
      if percent.value >= config.start {
        samples := 0;
        return;
      }
      if active || charging {
        return;
      }
      samples := samples + 1;
      var cooled := lastAlertAt.None? || now - lastAlertAt.value >= config.cooldown;
      if samples < config.confirmations || !cooled || alertRunning {
        return;
      }
      samples, lastAlertAt, active := 0, Some(now), true;
      var raised := PersistEpisode(persist);
      alerted := !raised;
    }

    /** The locked section that opens `stop`. */
    method StopCharging(manual: bool, until: real)
      modifies this
      ensures Contents() == Step(config, old(Contents()), Stop(manual, until))
    {
      if manual {
        samples, inhibitUntil := 0, until;
      }
    }

    /** The locked section that ends a manual `stop`. */
    method PauseAgain(until: real)
      modifies this`inhibitUntil
      ensures Contents() == Step(config, old(Contents()), ExtendInhibition(until))
    {
      inhibitUntil := until;
    }
  }

  // ---- the latch -------------------------------------------------------------------------------------

  /** An alert leaves the latch closed, in memory and (with a store) in the store. */
  ghost predicate Latched(c: Config, s: State) {
    s.active && (c.hasStore ==> s.stored)
  }

  lemma LatchKept(c: Config, s: State, op: Op)
    requires Latched(c, s) && !Rearms(c, s, op) && (op.Restart? ==> c.hasStore)
    ensures Latched(c, Step(c, s, op)) && !Alerts(c, s, op)
  {
  }

  lemma {:induction false} LatchedBetween(c: Config, s: State, ops: seq<Op>, i: nat, j: nat)
    requires i < j <= |ops| && Alerts(c, At(c, s, ops, i), ops[i])
    requires forall k :: i < k < j ==> !Rearms(c, At(c, s, ops, k), ops[k]) && (ops[k].Restart? ==> c.hasStore)
    ensures Latched(c, At(c, s, ops, j))
  {
    AtNext(c, s, ops, j - 1);
    if j > i + 1 {
      LatchedBetween(c, s, ops, i, j - 1);
      LatchKept(c, At(c, s, ops, j - 1), ops[j - 1]);
    }
  }

  /** Between two alerts some processed sample was at or above the re-arm level, restarts included. */
  lemma AlertsAreLatched(c: Config, s: State, ops: seq<Op>, i: nat, j: nat)
    requires i < j < |ops| && Alerts(c, At(c, s, ops, i), ops[i]) && Alerts(c, At(c, s, ops, j), ops[j])
    requires c.hasStore || forall k :: i < k < j ==> !ops[k].Restart?
    ensures exists k :: i < k < j && Rearms(c, At(c, s, ops, k), ops[k])
  {
    if forall k :: i < k < j ==> !Rearms(c, At(c, s, ops, k), ops[k]) {
      LatchedBetween(c, s, ops, i, j);
    }
  }

  // ---- the cooldown ------------------------------------------------------------------------------------

  /** Samples between i and j see a clock that never runs backwards. */
  ghost predicate ClockForward(ops: seq<Op>, i: nat, j: nat) {
    forall k, l :: i <= k <= l <= j < |ops| && ops[k].Observe? && ops[l].Observe? ==> ops[k].now <= ops[l].now
  }

  lemma {:induction false} LastAlertRemembered(c: Config, s: State, ops: seq<Op>, i: nat, j: nat)
    requires i < j < |ops| && Triggers(c, At(c, s, ops, i), ops[i]) && ClockForward(ops, i, j)
    requires forall k :: i < k < j ==> !ops[k].Restart?
    ensures var last := At(c, s, ops, j).lastAlertAt; last.Some? && last.value >= ops[i].now
  {
    AtNext(c, s, ops, j - 1);
    if j > i + 1 {
      LastAlertRemembered(c, s, ops, i, j - 1);
    }
  }

  /** Within one process two alerts are a cooldown apart. */
  lemma AlertsKeepCooldown(c: Config, s: State, ops: seq<Op>, i: nat, j: nat)
    requires i < j < |ops| && Alerts(c, At(c, s, ops, i), ops[i]) && Alerts(c, At(c, s, ops, j), ops[j])
    requires ClockForward(ops, i, j) && forall k :: i < k < j ==> !ops[k].Restart?
    ensures ops[j].now - ops[i].now >= c.cooldown
  {
    LastAlertRemembered(c, s, ops, i, j);
  }

  // ---- the confirmation ----------------------------------------------------------------------------------

  /** How many samples from i up to but not including j count. */
  function Counted(c: Config, s: State, ops: seq<Op>, i: nat, j: nat): nat
    requires i <= j <= |ops|
    decreases j - i
  {
    if i == j then 0
    else Counted(c, s, ops, i, j - 1) + if Counts(c, At(c, s, ops, j - 1), ops[j - 1]) then 1 else 0
  }

  /** Operation i is the first after a reset, or the first of a process. */
  ghost predicate CountStartsAt(c: Config, s: State, ops: seq<Op>, i: nat)
    requires i <= |ops|
  {
    if i == 0 then s.samples == 0 else Resets(c, At(c, s, ops, i - 1), ops[i - 1])
  }

  lemma NothingYet(c: Config, s: State, ops: seq<Op>)
    ensures At(c, s, ops, 0) == s
  {
  }

  lemma StepSamples(c: Config, s: State, op: Op)
    ensures Step(c, s, op).samples ==
            if Resets(c, s, op) then 0 else s.samples + if Counts(c, s, op) then 1 else 0
  {
  }

  lemma {:induction false} SamplesAreCounted(c: Config, s: State, ops: seq<Op>, i: nat, j: nat)
    requires i <= j <= |ops| && CountStartsAt(c, s, ops, i)
    requires forall k :: i <= k < j ==> !Resets(c, At(c, s, ops, k), ops[k])
    ensures At(c, s, ops, j).samples == Counted(c, s, ops, i, j)
    decreases j - i
  {
    hide Step, Resets, Counts, At;
    if i < j {
      SamplesAreCounted(c, s, ops, i, j - 1);
      AtNext(c, s, ops, j - 1);
      StepSamples(c, At(c, s, ops, j - 1), ops[j - 1]);
    } else if i > 0 {
      AtNext(c, s, ops, i - 1);
      StepSamples(c, At(c, s, ops, i - 1), ops[i - 1]);
    } else {
      NothingYet(c, s, ops);
    }
  }

  /** Exactly when the latch closes: enough counted samples since the last reset, cooled down, no alert still running. */
  lemma TriggersIff(c: Config, s: State, ops: seq<Op>, i: nat, j: nat)
    requires i <= j < |ops| && CountStartsAt(c, s, ops, i)
    requires forall k :: i <= k < j ==> !Resets(c, At(c, s, ops, k), ops[k])
    ensures Triggers(c, At(c, s, ops, j), ops[j]) <==>
            && Counts(c, At(c, s, ops, j), ops[j])
            && Counted(c, s, ops, i, j + 1) >= c.confirmations
            && Cooled(c, At(c, s, ops, j), ops[j].now)
            && !ops[j].alertRunning
  {
    SamplesAreCounted(c, s, ops, i, j);
  }

  lemma {:induction false} LastReset(c: Config, s: State, ops: seq<Op>, j: nat) returns (i: nat)
    requires j <= |ops| && s.samples == 0
    ensures i <= j && CountStartsAt(c, s, ops, i)
    ensures forall k :: i <= k < j ==> !Resets(c, At(c, s, ops, k), ops[k])
  {
    if j == 0 || Resets(c, At(c, s, ops, j - 1), ops[j - 1]) {
      i := j;
    } else {
      i := LastReset(c, s, ops, j - 1);
    }
  }

  /** From i on nothing resets before j, and at least one and as many as configured samples count, j included. */
  ghost predicate ConfirmedFrom(c: Config, s: State, ops: seq<Op>, i: nat, j: nat)
    requires i <= j < |ops|
  {
    && (forall k :: i <= k < j ==> !Resets(c, At(c, s, ops, k), ops[k]))
    && Counted(c, s, ops, i, j + 1) >= c.confirmations
    && Counted(c, s, ops, i, j + 1) >= 1
  }

  /** Every alert follows the configured number of low samples with nothing resetting between them. */
  lemma AlertsAreConfirmed(c: Config, s: State, ops: seq<Op>, j: nat)
    requires j < |ops| && s.samples == 0 && Alerts(c, At(c, s, ops, j), ops[j])
    ensures exists i :: 0 <= i <= j && ConfirmedFrom(c, s, ops, i, j)
  {
    var i := LastReset(c, s, ops, j);
    TriggersIff(c, s, ops, i, j);
    assert ConfirmedFrom(c, s, ops, i, j);
  }

  // ---- a store is what carries the latch over a restart -------------------------------------------------

  /** A sample below both levels. */
  function Low(c: Config): Op {
    Observe(Some((if c.start < c.rearm then c.start else c.rearm) - 1), 0.0, false, false, Done)
  }

  function Lows(c: Config, n: nat): seq<Op> {
    seq(n, i => Low(c))
  }

  function Needed(c: Config): (n: nat)
    ensures n >= 1
  {
    if c.confirmations < 1 then 1 else c.confirmations
  }

  /** One alert, a restart, one alert, and only low samples. */
  function TwoAlerts(c: Config): seq<Op> {
    Lows(c, Needed(c)) + [Restart] + Lows(c, Needed(c))
  }

  /** A low sample on a process that has counted n of them: one more, or the alert. */
  lemma LowStep(c: Config, n: nat)
    requires n < Needed(c)
    ensures var s := Fresh(c, false).(samples := n);
            if n + 1 < Needed(c) then Step(c, s, Low(c)) == s.(samples := n + 1)
            else Alerts(c, s, Low(c)) && (!c.hasStore ==> !Step(c, s, Low(c)).stored)
  {
  }

  lemma {:induction false} LowsCount(c: Config, s: State, prefix: seq<Op>, n: nat)
    requires n < Needed(c) && Run(c, s, prefix) == Fresh(c, false)
    ensures Run(c, s, prefix + Lows(c, n)) == Fresh(c, false).(samples := n)
  {
    hide Step, Alerts, Low;
    if n == 0 {
      assert prefix + Lows(c, 0) == prefix;
    } else {
      LowsCount(c, s, prefix, n - 1);
      LowStep(c, n - 1);
      var ops := prefix + Lows(c, n);
      assert ops[..|ops| - 1] == prefix + Lows(c, n - 1);
      assert ops[|ops| - 1] == Low(c);
    }
  }

  lemma LowsAlert(c: Config, s: State, prefix: seq<Op>)
    requires !c.hasStore && Run(c, s, prefix) == Fresh(c, false)
    ensures Alerts(c, Run(c, s, prefix + Lows(c, Needed(c) - 1)), Low(c))
    ensures !Run(c, s, prefix + Lows(c, Needed(c))).stored
  {
    hide Step, Alerts, Low;
    var n := Needed(c);
    LowsCount(c, s, prefix, n - 1);
    LowStep(c, n - 1);
    var ops := prefix + Lows(c, n);
    assert ops[..|ops| - 1] == prefix + Lows(c, n - 1);
    assert ops[|ops| - 1] == Low(c);
  }

  lemma LowNeverRearms(c: Config, s: State)
    ensures !Rearms(c, s, Low(c)) && !Rearms(c, s, Restart)
  {
  }

  lemma RestartAfterLows(c: Config, s: State, ops: seq<Op>)
    requires !Run(c, s, ops).stored
    ensures Run(c, s, ops + [Restart]) == Fresh(c, false)
  {
    assert (ops + [Restart])[..|ops|] == ops;
  }

  lemma LowsNeverRearm(c: Config, s: State, k: nat)
    requires k < 2 * Needed(c) + 1
    ensures |TwoAlerts(c)| == 2 * Needed(c) + 1 && !Rearms(c, s, TwoAlerts(c)[k])
  {
    hide Rearms, Low, Needed;
    LowNeverRearms(c, s);
  }

  /** The parts of the run: the first alert, the restart, the second alert. */
  lemma TwoAlertsParts(c: Config)
    ensures var ops, n := TwoAlerts(c), Needed(c);
            && |ops| == 2 * n + 1
            && ops[..n - 1] == [] + Lows(c, n - 1) && ops[n - 1] == Low(c)
            && ops[..2 * n] == [] + Lows(c, n) + [Restart] + Lows(c, n - 1) && ops[2 * n] == Low(c)
  {
    hide Low, Needed;
  }

  /** Whatever the levels and counts: without a store two alerts happen around a restart with no recovery between. */
  lemma RestartForgetsWithoutStore(c: Config)
    requires !c.hasStore
    ensures var ops, n := TwoAlerts(c), Needed(c);
            && |ops| == 2 * n + 1
            && Alerts(c, At(c, Fresh(c, false), ops, n - 1), ops[n - 1])
            && Alerts(c, At(c, Fresh(c, false), ops, 2 * n), ops[2 * n])
            && forall k :: 0 <= k < |ops| ==> !Rearms(c, At(c, Fresh(c, false), ops, k), ops[k])
  {
    hide Alerts, Rearms, Low, Needed, Step, TwoAlerts, Lows;
    var s, ops, n := Fresh(c, false), TwoAlerts(c), Needed(c);
    TwoAlertsParts(c);
    LowsAlert(c, s, []);
    RestartAfterLows(c, s, [] + Lows(c, n));
    LowsAlert(c, s, [] + Lows(c, n) + [Restart]);
    forall k | 0 <= k < |ops| ensures !Rearms(c, At(c, s, ops, k), ops[k]) {
      LowsNeverRearm(c, At(c, s, ops, k), k);
    }
  }

  /** Two alerts imply a recovery between them. */
  ghost predicate RecoveryBetween(c: Config, s: State, ops: seq<Op>, i: nat, j: nat) {
    i < j < |ops| && Alerts(c, At(c, s, ops, i), ops[i]) && Alerts(c, At(c, s, ops, j), ops[j]) ==>
      exists k :: i < k < j && Rearms(c, At(c, s, ops, k), ops[k])
  }

  /** Over all runs with restarts the latch holds exactly when a store is attached. */
  lemma LatchSurvivesRestartIff(c: Config)
    ensures c.hasStore <==> forall s, ops, i: nat, j: nat :: RecoveryBetween(c, s, ops, i, j)
  {
    if c.hasStore {
      forall s, ops, i: nat, j: nat ensures RecoveryBetween(c, s, ops, i, j) {
        if i < j < |ops| && Alerts(c, At(c, s, ops, i), ops[i]) && Alerts(c, At(c, s, ops, j), ops[j]) {
          AlertsAreLatched(c, s, ops, i, j);
        }
      }
    } else {
      RestartForgetsWithoutStore(c);
      assert !RecoveryBetween(c, Fresh(c, false), TwoAlerts(c), Needed(c) - 1, 2 * Needed(c));
    }
  }

  // ---- when no alert may be raised, and when one must be ---------------------------------------------------

  /** An alert means a low sample outside the inhibition, off the charger, and no alert still running. */
  lemma AlertMeans(c: Config, s: State, op: Op)
    requires Alerts(c, s, op)
    ensures op.Observe? && op.percent.Some? && op.percent.value < c.start && op.percent.value < c.rearm
    ensures op.now >= s.inhibitUntil && !op.charging && !op.alertRunning && !s.active
  {
  }

  /** Neither stops again, nor extends, nor restarts. */
  predicate KeepsWindow(op: Op) {
    !(op.Stop? && op.manual) && !op.ExtendInhibition? && !op.Restart?
  }

  lemma {:induction false} WindowLasts(c: Config, s: State, ops: seq<Op>, i: nat, j: nat)
    requires i < j <= |ops| && ((ops[i].Stop? && ops[i].manual) || ops[i].ExtendInhibition?)
    requires forall k :: i < k < j ==> KeepsWindow(ops[k])
    ensures At(c, s, ops, j).inhibitUntil == ops[i].until
    decreases j
  {
    AtNext(c, s, ops, j - 1);
    if j > i + 1 {
      WindowLasts(c, s, ops, i, j - 1);
    }
  }

  /** No alert falls into the window that a manual stop opens, counted from its last extension. */
  lemma NoAlertInWindow(c: Config, s: State, ops: seq<Op>, i: nat, j: nat)
    requires i < j < |ops| && ((ops[i].Stop? && ops[i].manual) || ops[i].ExtendInhibition?)
    requires (forall k :: i < k < j ==> KeepsWindow(ops[k])) && ops[j].Observe? && ops[j].now < ops[i].until
    ensures !Alerts(c, At(c, s, ops, j), ops[j]) && (ops[j].percent.Some? ==> At(c, s, ops, j + 1).samples == 0)
  {
    hide At;
    WindowLasts(c, s, ops, i, j);
    AtNext(c, s, ops, j);
  }

  /** A low sample that nothing stands in the way of. */
  predicate PlainLow(c: Config, op: Op) {
    && op.Observe? && op.percent.Some? && op.percent.value < c.start && op.percent.value < c.rearm
    && op.now >= 0.0 && !op.charging && !op.alertRunning && op.persist.Done?
  }

  lemma {:induction false} LowsAreCounted(c: Config, ops: seq<Op>, n: nat)
    requires n <= |ops| && n < Needed(c) && forall k :: 0 <= k < |ops| ==> PlainLow(c, ops[k])
    ensures At(c, Fresh(c, false), ops, n) == Fresh(c, false).(samples := n)
  {
    if n > 0 {
      LowsAreCounted(c, ops, n - 1);
      AtNext(c, Fresh(c, false), ops, n - 1);
      assert PlainLow(c, ops[n - 1]);
    } else {
      assert ops[..0] == [];
    }
  }

  /** A process without an open episode alerts at exactly the configured number of low samples in a row. */
  lemma LowSamplesAlert(c: Config, ops: seq<Op>, i: nat)
    requires |ops| == Needed(c) && i < |ops| && forall k :: 0 <= k < |ops| ==> PlainLow(c, ops[k])
    ensures Alerts(c, At(c, Fresh(c, false), ops, i), ops[i]) <==> i == |ops| - 1
  {
    hide At;
    LowsAreCounted(c, ops, i);
    assert PlainLow(c, ops[i]);
  }

  // ---- the end of an episode --------------------------------------------------------------------------------

  /** Exactly a processed sample at or above the re-arming level ends an episode. */
  lemma EpisodeEndsIff(c: Config, s: State, op: Op)
    requires s.active && op.Observe?
    ensures !Step(c, s, op).active <==> op.percent.Some? && op.now >= s.inhibitUntil && op.percent.value >= c.rearm
  {
  }

  /** An ended episode stays ended over a restart, and low samples then alert again. */
  lemma EndedAlertsAgain(c: Config, s: State, op: Op, ops: seq<Op>, i: nat)
    requires s.active && c.hasStore && op.Observe? && op.percent.Some? && op.now >= s.inhibitUntil && op.percent.value >= c.rearm
    requires op.persist.Done?
    requires |ops| == Needed(c) && i < |ops| && forall k :: 0 <= k < |ops| ==> PlainLow(c, ops[k])
    ensures Alerts(c, At(c, s, [op, Restart] + ops, i + 2), ops[i]) <==> i == |ops| - 1
  {
    hide Run, Step, At, Alerts, PlainLow, Fresh;
    EndedIsForgotten(c, s, op);
    LowSamplesAlert(c, ops, i);
    RestartedRun(c, s, [op, Restart], ops[..i]);
    assert ([op, Restart] + ops)[..i + 2] == [op, Restart] + ops[..i];
    AtIs(c, s, [op, Restart] + ops, i + 2);
    AtIs(c, Fresh(c, false), ops, i);
  }

  lemma AtIs(c: Config, s: State, ops: seq<Op>, i: nat)
    requires i <= |ops|
    ensures At(c, s, ops, i) == Run(c, s, ops[..i])
  {
  }

  lemma EndedIsForgotten(c: Config, s: State, op: Op)
    requires s.active && c.hasStore && op.Observe? && op.percent.Some? && op.now >= s.inhibitUntil && op.percent.value >= c.rearm
    requires op.persist.Done?
    ensures Run(c, s, [op, Restart]) == Fresh(c, false)
  {
    assert [op, Restart][..1] == [op] && [op][..0] == [];
    assert Run(c, s, [op]) == Step(c, s, op);
  }

  lemma {:induction false} RestartedRun(c: Config, s: State, a: seq<Op>, b: seq<Op>)
    ensures Run(c, s, a + b) == Run(c, Run(c, s, a), b)
    decreases |b|
  {
    if b == [] {
      assert a + b == a;
    } else {
      var init := b[..|b| - 1];
      assert (a + b)[..|a + b| - 1] == a + init;
      RestartedRun(c, s, a, init);
    }
  }
}
