/**
 The self-healing history: episode and action rows, the daily summary they are folded into,
 and the statistics that must not notice the folding. Times are seconds; a day is 86400 s.
 */
module SelfHealing {
  import opened Wrappers

  type Label = string

  datatype Episode = Episode(
    id: string, fault: Label, success: Option<bool>, duration: Option<real>, terminalLevel: Option<int>,
    terminalAction: string, reason: string, startedAt: int, finishedAt: Option<int>)

  datatype Action = Action(
    id: string, episodeId: string, level: int, kind: Label, success: Option<bool>, reason: string,
    duration: Option<real>, startedAt: int, finishedAt: Option<int>)

  datatype Category = Fault | ActionKind

  datatype Tally = Tally(total: int, succeeded: int, duration: real)

  const ZERO := Tally(0, 0, 0.0)

  function Plus(a: Tally, b: Tally): Tally {
    Tally(a.total + b.total, a.succeeded + b.succeeded, a.duration + b.duration)
  }

  datatype Cell = Cell(day: int, category: Category, name: Label)

  /** A row of `self_heal_daily_summary`, also used for one contributing record. */
  datatype Summary = Summary(cell: Cell, tally: Tally)

  /** Sum of the rows of one category and label. */
  function Sum(rows: seq<Summary>, category: Category, l: Label): Tally {
    if rows == [] then ZERO
    else
      var r := rows[0];
      var rest := Sum(rows[1..], category, l);
      if r.cell.category == category && r.cell.name == l then Plus(r.tally, rest) else rest
  }

  /** Insert, or add to the row with the same primary key. */
  function Upsert(rows: seq<Summary>, r: Summary): (u: seq<Summary>)
    ensures |u| > 0
  {
    if rows == [] then [r]
    else if rows[0].cell == r.cell then [rows[0].(tally := Plus(rows[0].tally, r.tally))] + rows[1..]
    else [rows[0]] + Upsert(rows[1..], r)
  }

  /** GROUP BY cell, each group in order of first appearance. */
  function Grouped(facts: seq<Summary>): seq<Summary> {
    if facts == [] then [] else Upsert(Grouped(facts[..|facts| - 1]), facts[|facts| - 1])
  }

  /** INSERT ... ON CONFLICT DO UPDATE of a whole query result. */
  function UpsertAll(rows: seq<Summary>, news: seq<Summary>): seq<Summary>
    decreases |news|
  {
    if news == [] then rows else UpsertAll(Upsert(rows, news[0]), news[1..])
  }

  lemma {:induction false} SumConcat(a: seq<Summary>, b: seq<Summary>, c: Category, l: Label)
    ensures Sum(a + b, c, l) == Plus(Sum(a, c, l), Sum(b, c, l))
  {
    if a == [] {
      assert a + b == b;
    } else {
      assert (a + b)[1..] == a[1..] + b;
      SumConcat(a[1..], b, c, l);
    }
  }

  lemma SumEmpty(c: Category, l: Label)
    ensures Sum([], c, l) == ZERO
  {
  }

  lemma SumSnoc(facts: seq<Summary>, keep: bool, f: Summary, c: Category, l: Label)
    ensures Sum(facts + (if keep then [f] else []), c, l) == Plus(Sum(facts, c, l), if keep then Sum([f], c, l) else ZERO)
  {
    SumConcat(facts, if keep then [f] else [], c, l);
  }

  lemma {:induction false} SumUpsert(rows: seq<Summary>, r: Summary, c: Category, l: Label)
    ensures Sum(Upsert(rows, r), c, l) == Plus(Sum(rows, c, l), Sum([r], c, l))
  {
    assert [r][1..] == [];
    if rows != [] {
      if rows[0].cell == r.cell {
        var merged := rows[0].(tally := Plus(rows[0].tally, r.tally));
        assert ([merged] + rows[1..])[1..] == rows[1..];
      } else {
        assert ([rows[0]] + Upsert(rows[1..], r))[1..] == Upsert(rows[1..], r);
        SumUpsert(rows[1..], r, c, l);
      }
    }
  }

  lemma {:induction false} SumUpsertAll(rows: seq<Summary>, news: seq<Summary>, c: Category, l: Label)
    ensures Sum(UpsertAll(rows, news), c, l) == Plus(Sum(rows, c, l), Sum(news, c, l))
    decreases |news|
  {
    hide Sum, Upsert;
    if news == [] {
      SumEmpty(c, l);
    } else {
      SumUpsertAll(Upsert(rows, news[0]), news[1..], c, l);
      SumUpsert(rows, news[0], c, l);
      assert [news[0]] + news[1..] == news;
      SumConcat([news[0]], news[1..], c, l);
    }
  }

  /** Grouping loses nothing: the groups add up to the grouped facts. */
  lemma {:induction false} SumGrouped(facts: seq<Summary>, c: Category, l: Label)
    ensures Sum(Grouped(facts), c, l) == Sum(facts, c, l)
  {
    if facts != [] {
      var init, last := facts[..|facts| - 1], facts[|facts| - 1];
      SumGrouped(init, c, l);
      SumUpsert(Grouped(init), last, c, l);
      assert init + [last] == facts;
      SumConcat(init, [last], c, l);
    }
  }

  /** The primary key of the summary table. */
  predicate DistinctCells(rows: seq<Summary>) {
    forall i, j :: 0 <= i < j < |rows| ==> rows[i].cell != rows[j].cell
  }

  lemma {:induction false} UpsertCells(rows: seq<Summary>, r: Summary)
    requires DistinctCells(rows)
    ensures DistinctCells(Upsert(rows, r))
    ensures forall i :: 0 <= i < |Upsert(rows, r)| ==>
              Upsert(rows, r)[i].cell == r.cell || exists j :: 0 <= j < |rows| && rows[j].cell == Upsert(rows, r)[i].cell
  {
    if rows != [] && rows[0].cell != r.cell {
      var rest := rows[1..];
      UpsertCells(rest, r);
      var u := Upsert(rest, r);
      forall i | 0 <= i < |u| ensures u[i].cell != rows[0].cell {
        if u[i].cell != r.cell {
          var j :| 0 <= j < |rest| && rest[j].cell == u[i].cell;
          assert rows[j + 1] == rest[j];
        }
      }
      forall i | 0 <= i < |Upsert(rows, r)|
        ensures Upsert(rows, r)[i].cell == r.cell || exists j :: 0 <= j < |rows| && rows[j].cell == Upsert(rows, r)[i].cell
      {
        if i > 0 && u[i - 1].cell != r.cell {
          var j :| 0 <= j < |rest| && rest[j].cell == u[i - 1].cell;
          assert rows[j + 1] == rest[j];
        }
      }
    }
  }

  lemma {:induction false} UpsertAllCells(rows: seq<Summary>, news: seq<Summary>)
    requires DistinctCells(rows)
    ensures DistinctCells(UpsertAll(rows, news))
    decreases |news|
  {
    if news != [] {
      UpsertCells(rows, news[0]);
      UpsertAllCells(Upsert(rows, news[0]), news[1..]);
    }
  }

  predicate Counted(rows: seq<Summary>) {
    forall i :: 0 <= i < |rows| ==> rows[i].tally.total >= 1
  }

  lemma {:induction false} UpsertCounted(rows: seq<Summary>, r: Summary)
    requires Counted(rows) && r.tally.total >= 1
    ensures Counted(Upsert(rows, r))
  {
    if rows != [] && rows[0].cell != r.cell {
      UpsertCounted(rows[1..], r);
    }
  }

  lemma {:induction false} UpsertAllCounted(rows: seq<Summary>, news: seq<Summary>)
    requires Counted(rows) && Counted(news)
    ensures Counted(UpsertAll(rows, news))
    decreases |news|
  {
    if news != [] {
      UpsertCounted(rows, news[0]);
      UpsertAllCounted(Upsert(rows, news[0]), news[1..]);
    }
  }

  lemma {:induction false} GroupedCounted(facts: seq<Summary>)
    requires Counted(facts)
    ensures Counted(Grouped(facts))
  {
    if facts != [] {
      GroupedCounted(facts[..|facts| - 1]);
      UpsertCounted(Grouped(facts[..|facts| - 1]), facts[|facts| - 1]);
    }
  }

  // ---- rows and the queries over them --------------------------------------------------

  const DAY := 86400

  function Measure(success: Option<bool>, duration: Option<real>): Tally {
    Tally(1, if success == Some(true) then 1 else 0, if duration.Some? then duration.value else 0.0)
  }

  function EpisodeFact(e: Episode): Summary {
    Summary(Cell(e.startedAt / DAY, Fault, e.fault), Measure(e.success, e.duration))
  }

  function ActionFact(a: Action): Summary {
    Summary(Cell(a.startedAt / DAY, ActionKind, a.kind), Measure(a.success, a.duration))
  }

  predicate Old(e: Episode, cutoff: int) {
    e.finishedAt.Some? && e.startedAt < cutoff
  }

  function OldEpisodeFacts(es: seq<Episode>, cutoff: int): seq<Summary> {
    if es == [] then []
    else
      var e := es[|es| - 1];
      OldEpisodeFacts(es[..|es| - 1], cutoff) + if Old(e, cutoff) then [EpisodeFact(e)] else []
  }

  function FinishedEpisodeFacts(es: seq<Episode>): seq<Summary> {
    if es == [] then []
    else
      var e := es[|es| - 1];
      FinishedEpisodeFacts(es[..|es| - 1]) + if e.finishedAt.Some? then [EpisodeFact(e)] else []
  }

  function KeptEpisodes(es: seq<Episode>, cutoff: int): seq<Episode> {
    if es == [] then []
    else
      var e := es[|es| - 1];
      KeptEpisodes(es[..|es| - 1], cutoff) + if Old(e, cutoff) then [] else [e]
  }

  predicate Matches(a: Action, e: Episode, cutoff: int) {
    e.id == a.episodeId && Old(e, cutoff)
  }

  predicate OfOldEpisode(a: Action, es: seq<Episode>, cutoff: int) {
    exists i :: 0 <= i < |es| && Matches(a, es[i], cutoff)
  }

  /** The join rows of one action: one per matching episode row. */
  function JoinRows(a: Action, es: seq<Episode>, cutoff: int): seq<Summary> {
    if es == [] then []
    else
      JoinRows(a, es[..|es| - 1], cutoff) + if Matches(a, es[|es| - 1], cutoff) then [ActionFact(a)] else []
  }

  function JoinedActionFacts(xs: seq<Action>, es: seq<Episode>, cutoff: int): seq<Summary> {
    if xs == [] then []
    else JoinedActionFacts(xs[..|xs| - 1], es, cutoff) + JoinRows(xs[|xs| - 1], es, cutoff)
  }

  function FinishedActionFacts(xs: seq<Action>): seq<Summary> {
    if xs == [] then []
    else
      var a := xs[|xs| - 1];
      FinishedActionFacts(xs[..|xs| - 1]) + if a.finishedAt.Some? then [ActionFact(a)] else []
  }

  function KeptActions(xs: seq<Action>, es: seq<Episode>, cutoff: int): seq<Action> {
    if xs == [] then []
    else
      var a := xs[|xs| - 1];
      KeptActions(xs[..|xs| - 1], es, cutoff) + if OfOldEpisode(a, es, cutoff) then [] else [a]
  }

  /** Unfinished actions that hang below an old finished episode: the rows pruning miscounts. */
  function StrayActionFacts(xs: seq<Action>, es: seq<Episode>, cutoff: int): seq<Summary> {
    if xs == [] then []
    else
      var a := xs[|xs| - 1];
      StrayActionFacts(xs[..|xs| - 1], es, cutoff) +
      if a.finishedAt.None? && OfOldEpisode(a, es, cutoff) then [ActionFact(a)] else []
  }

  datatype Db = Db(episodes: seq<Episode>, actions: seq<Action>, summary: seq<Summary>)

  predicate DistinctEpisodes(es: seq<Episode>) {
    forall i, j :: 0 <= i < j < |es| ==> es[i].id != es[j].id
  }

  /** Primary keys, the foreign key of the action table, and positive counts in the summary. */
  ghost predicate Sound(db: Db) {
    && DistinctEpisodes(db.episodes)
    && (forall i :: 0 <= i < |db.actions| ==> HasEpisode(db.actions[i], db.episodes))
    && DistinctCells(db.summary)
    && Counted(db.summary)
  }

  ghost predicate HasEpisode(a: Action, es: seq<Episode>) {
    exists j :: 0 <= j < |es| && es[j].id == a.episodeId
  }

  /** One line of `self_heal_statistics`, before averaging. */
  function Statistic(db: Db, c: Category, l: Label): Tally {
    Plus(Sum(if c == Fault then FinishedEpisodeFacts(db.episodes) else FinishedActionFacts(db.actions), c, l),
         Sum(db.summary, c, l))
  }

  datatype Line = Line(total: int, succeeded: int, average: real)

  /** The reported line: absent when nothing was counted, otherwise with the mean duration. */
  function Reported(t: Tally): Option<Line> {
    if t.total == 0 then None else Some(Line(t.total, t.succeeded, t.duration / t.total as real))
  }

  /** Totals can be read off a reported line: the mean times the count is the whole duration. */
  lemma ReportedIs(t: Tally)
    ensures Reported(t).None? <==> t.total == 0
    ensures t.total != 0 ==>
              var line := Reported(t).value;
              Tally(line.total, line.succeeded, line.average * line.total as real) == t
  {
    if t.total != 0 {
      QuotientTimes(t.duration, t.total as real);
    }
  }

  lemma QuotientTimes(a: real, b: real)
    requires b != 0.0
    ensures a / b * b == a
  {
  }

  function Pruned(db: Db, cutoff: int): Db {
    var s1 := UpsertAll(db.summary, Grouped(OldEpisodeFacts(db.episodes, cutoff)));
    var s2 := UpsertAll(s1, Grouped(JoinedActionFacts(db.actions, db.episodes, cutoff)));
    Db(KeptEpisodes(db.episodes, cutoff), KeptActions(db.actions, db.episodes, cutoff), s2)
  }

  // ---- pruning conserves the statistics -------------------------------------------------

  lemma FinishedEpisodesSnoc(es: seq<Episode>, e: Episode)
    ensures FinishedEpisodeFacts(es + [e]) == FinishedEpisodeFacts(es) + if e.finishedAt.Some? then [EpisodeFact(e)] else []
  {
    assert (es + [e])[..|es|] == es;
  }

  lemma FinishedActionsSnoc(xs: seq<Action>, a: Action)
    ensures FinishedActionFacts(xs + [a]) == FinishedActionFacts(xs) + if a.finishedAt.Some? then [ActionFact(a)] else []
  {
    assert (xs + [a])[..|xs|] == xs;
  }

  lemma {:induction false} EpisodesSplit(es: seq<Episode>, cutoff: int, c: Category, l: Label)
    ensures Sum(FinishedEpisodeFacts(es), c, l)
         == Plus(Sum(OldEpisodeFacts(es, cutoff), c, l), Sum(FinishedEpisodeFacts(KeptEpisodes(es, cutoff)), c, l))
  {
    hide Sum;
    if es == [] {
      SumEmpty(c, l);
    } else {
      var init, e := es[..|es| - 1], es[|es| - 1];
      EpisodesSplit(init, cutoff, c, l);
      var kept := KeptEpisodes(init, cutoff);
      assert kept + [] == kept;
      FinishedEpisodesSnoc(kept, e);
      SumSnoc(FinishedEpisodeFacts(init), e.finishedAt.Some?, EpisodeFact(e), c, l);
      SumSnoc(OldEpisodeFacts(init, cutoff), Old(e, cutoff), EpisodeFact(e), c, l);
      SumSnoc(FinishedEpisodeFacts(kept), e.finishedAt.Some?, EpisodeFact(e), c, l);
    }
  }

  /** An old episode id is unique, so the join yields each action at most once. */
  lemma {:induction false} JoinOnce(a: Action, es: seq<Episode>, cutoff: int)
    requires DistinctEpisodes(es)
    ensures JoinRows(a, es, cutoff) == if OfOldEpisode(a, es, cutoff) then [ActionFact(a)] else []
  {
    if es != [] {
      var init, e := es[..|es| - 1], es[|es| - 1];
      JoinOnce(a, init, cutoff);
      assert OfOldEpisode(a, init, cutoff) ==> OfOldEpisode(a, es, cutoff) by {
        if OfOldEpisode(a, init, cutoff) {
          var i :| 0 <= i < |init| && Matches(a, init[i], cutoff);
          assert Matches(a, es[i], cutoff);
        }
      }
      if Matches(a, e, cutoff) {
        assert Matches(a, es[|es| - 1], cutoff);
        assert forall i :: 0 <= i < |init| ==> init[i] == es[i];
        assert !OfOldEpisode(a, init, cutoff);
      } else if OfOldEpisode(a, es, cutoff) {
        var i :| 0 <= i < |es| && Matches(a, es[i], cutoff);
        assert Matches(a, init[i], cutoff);
      }
    }
  }

  /** What leaves the action table is what the join counted, up to the stray unfinished rows. */
  lemma {:induction false} ActionsSplit(xs: seq<Action>, es: seq<Episode>, cutoff: int, c: Category, l: Label)
    requires DistinctEpisodes(es)
    ensures Plus(Sum(FinishedActionFacts(xs), c, l), Sum(StrayActionFacts(xs, es, cutoff), c, l))
         == Plus(Sum(JoinedActionFacts(xs, es, cutoff), c, l), Sum(FinishedActionFacts(KeptActions(xs, es, cutoff)), c, l))
  {
    hide Sum, OfOldEpisode, Plus, ActionFact, JoinRows;
    if xs == [] {
      SumEmpty(c, l);
    } else {
      var init, a := xs[..|xs| - 1], xs[|xs| - 1];
      ActionsSplit(init, es, cutoff, c, l);
      JoinOnce(a, es, cutoff);
      var kept := KeptActions(init, es, cutoff);
      assert kept + [] == kept;
      FinishedActionsSnoc(kept, a);
      var old' := OfOldEpisode(a, es, cutoff);
      SumSnoc(FinishedActionFacts(init), a.finishedAt.Some?, ActionFact(a), c, l);
      SumSnoc(StrayActionFacts(init, es, cutoff), a.finishedAt.None? && old', ActionFact(a), c, l);
      SumSnoc(JoinedActionFacts(init, es, cutoff), old', ActionFact(a), c, l);
      SumSnoc(FinishedActionFacts(kept), a.finishedAt.Some?, ActionFact(a), c, l);
      Balance(Sum(FinishedActionFacts(init), c, l), Sum(StrayActionFacts(init, es, cutoff), c, l),
              Sum(JoinedActionFacts(init, es, cutoff), c, l), Sum(FinishedActionFacts(kept), c, l),
              Sum([ActionFact(a)], c, l), a.finishedAt.Some?, old');
    }
  }

  lemma Balance(f: Tally, s: Tally, j: Tally, k: Tally, x: Tally, finished: bool, old': bool)
    requires Plus(f, s) == Plus(j, k)
    ensures Plus(Plus(f, if finished then x else ZERO), Plus(s, if !finished && old' then x else ZERO))
         == Plus(Plus(j, if old' then x else ZERO), if old' then k else Plus(k, if finished then x else ZERO))
  {
  }

  /** Facts of one category contribute nothing to the other. */
  predicate AllOf(facts: seq<Summary>, c: Category) {
    forall i :: 0 <= i < |facts| ==> facts[i].cell.category == c && facts[i].tally.total == 1
  }

  lemma {:induction false} OtherCategory(facts: seq<Summary>, c: Category, d: Category, l: Label)
    requires AllOf(facts, c) && c != d
    ensures Sum(facts, d, l) == ZERO
  {
    if facts != [] {
      OtherCategory(facts[1..], c, d, l);
    }
  }

  lemma {:induction false} OldEpisodeFactsShape(es: seq<Episode>, cutoff: int)
    ensures AllOf(OldEpisodeFacts(es, cutoff), Fault)
  {
    if es != [] {
      OldEpisodeFactsShape(es[..|es| - 1], cutoff);
    }
  }

  lemma {:induction false} JoinedFactsShape(xs: seq<Action>, es: seq<Episode>, cutoff: int)
    requires DistinctEpisodes(es)
    ensures AllOf(JoinedActionFacts(xs, es, cutoff), ActionKind)
  {
    if xs != [] {
      JoinedFactsShape(xs[..|xs| - 1], es, cutoff);
      JoinOnce(xs[|xs| - 1], es, cutoff);
    }
  }

  lemma PrunedSummary(db: Db, cutoff: int, c: Category, l: Label)
    requires Sound(db)
    ensures Sum(Pruned(db, cutoff).summary, c, l)
         == Plus(Plus(Sum(db.summary, c, l), Sum(OldEpisodeFacts(db.episodes, cutoff), c, l)),
                 Sum(JoinedActionFacts(db.actions, db.episodes, cutoff), c, l))
  {
    hide Sum, UpsertAll, Grouped, OldEpisodeFacts, JoinedActionFacts, Plus;
    var facts, joined := OldEpisodeFacts(db.episodes, cutoff), JoinedActionFacts(db.actions, db.episodes, cutoff);
    SumUpsertAll(db.summary, Grouped(facts), c, l);
    SumUpsertAll(UpsertAll(db.summary, Grouped(facts)), Grouped(joined), c, l);
    SumGrouped(facts, c, l);
    SumGrouped(joined, c, l);
  }

  /** Every fault line is the same before and after pruning. */
  lemma PruneKeepsFaults(db: Db, cutoff: int, l: Label)
    requires Sound(db)
    ensures Statistic(Pruned(db, cutoff), Fault, l) == Statistic(db, Fault, l)
  {
    hide Sum, Pruned, OldEpisodeFacts, FinishedEpisodeFacts, KeptEpisodes, JoinedActionFacts, AllOf;
    PrunedSummary(db, cutoff, Fault, l);
    JoinedFactsShape(db.actions, db.episodes, cutoff);
    OtherCategory(JoinedActionFacts(db.actions, db.episodes, cutoff), ActionKind, Fault, l);
    EpisodesSplit(db.episodes, cutoff, Fault, l);
    PrunedTables(db, cutoff);
  }

  lemma PrunedTables(db: Db, cutoff: int)
    ensures Pruned(db, cutoff).episodes == KeptEpisodes(db.episodes, cutoff)
    ensures Pruned(db, cutoff).actions == KeptActions(db.actions, db.episodes, cutoff)
  {
  }

  /** Every action line grows by exactly the stray unfinished actions of pruned episodes. */
  lemma PruneActionsBy(db: Db, cutoff: int, l: Label)
    requires Sound(db)
    ensures Statistic(Pruned(db, cutoff), ActionKind, l)
         == Plus(Statistic(db, ActionKind, l), Sum(StrayActionFacts(db.actions, db.episodes, cutoff), ActionKind, l))
  {
    hide Sum, Pruned, OldEpisodeFacts, FinishedActionFacts, KeptActions, JoinedActionFacts, StrayActionFacts, AllOf;
    PrunedSummary(db, cutoff, ActionKind, l);
    OldEpisodeFactsShape(db.episodes, cutoff);
    OtherCategory(OldEpisodeFacts(db.episodes, cutoff), Fault, ActionKind, l);
    ActionsSplit(db.actions, db.episodes, cutoff, ActionKind, l);
    PrunedTables(db, cutoff);
  }

  /** An unfinished action recorded under a finished episode older than the cutoff. */
  predicate Stray(a: Action, es: seq<Episode>, cutoff: int) {
    a.finishedAt.None? && OfOldEpisode(a, es, cutoff)
  }

  lemma {:induction false} NoStrays(xs: seq<Action>, es: seq<Episode>, cutoff: int)
    ensures AllOf(StrayActionFacts(xs, es, cutoff), ActionKind)
    ensures StrayActionFacts(xs, es, cutoff) == [] <==> forall i :: 0 <= i < |xs| ==> !Stray(xs[i], es, cutoff)
  {
    hide OfOldEpisode;
    if xs != [] {
      var init := xs[..|xs| - 1];
      NoStrays(init, es, cutoff);
      assert forall i :: 0 <= i < |init| ==> xs[i] == init[i];
    }
  }

  lemma {:induction false} SumCounts(facts: seq<Summary>, c: Category, l: Label)
    requires AllOf(facts, c)
    ensures Sum(facts, c, l).total >= 0
    ensures facts != [] && facts[0].cell.name == l ==> Sum(facts, c, l).total >= 1
  {
    if facts != [] {
      SumCounts(facts[1..], c, l);
    }
  }

  /**
   Exactly when pruning leaves the action statistics alone: no unfinished action belongs to
   a finished episode older than the cutoff.
   */
  lemma PruneKeepsActionsIff(db: Db, cutoff: int)
    requires Sound(db)
    ensures (forall l :: Statistic(Pruned(db, cutoff), ActionKind, l) == Statistic(db, ActionKind, l))
       <==> (forall i :: 0 <= i < |db.actions| ==> !Stray(db.actions[i], db.episodes, cutoff))
  {
    hide Statistic, Pruned, Sum;
    var strays := StrayActionFacts(db.actions, db.episodes, cutoff);
    NoStrays(db.actions, db.episodes, cutoff);
    forall l ensures Statistic(Pruned(db, cutoff), ActionKind, l) == Plus(Statistic(db, ActionKind, l), Sum(strays, ActionKind, l)) {
      PruneActionsBy(db, cutoff, l);
    }
    if strays == [] {
      forall l ensures Sum(strays, ActionKind, l) == ZERO {
        SumEmpty(ActionKind, l);
      }
    } else {
      var l := strays[0].cell.name;
      SumCounts(strays, ActionKind, l);
      assert Statistic(Pruned(db, cutoff), ActionKind, l) != Statistic(db, ActionKind, l);
    }
  }

  /** The miscount on the smallest tables: pruning turns no counted action into one. */
  lemma StrayIsCounted(e: Episode, a: Action, cutoff: int)
    requires Old(e, cutoff) && a.episodeId == e.id && a.finishedAt.None?
    ensures var db := Db([e], [a], []);
            && Sound(db) && Stray(db.actions[0], db.episodes, cutoff)
            && Statistic(db, ActionKind, a.kind).total == 0
            && Statistic(Pruned(db, cutoff), ActionKind, a.kind).total == 1
  {
    hide *;
    var db := Db([e], [a], []);
    OneRowEach(e, a, cutoff);
    PruneActionsBy(db, cutoff, a.kind);
    OneStrayTotals(e, a, cutoff);
  }

  lemma OneStrayTotals(e: Episode, a: Action, cutoff: int)
    requires Stray(a, [e], cutoff)
    ensures Statistic(Db([e], [a], []), ActionKind, a.kind) == ZERO
    ensures ZERO.total == 0 && forall t :: Plus(ZERO, t) == t
    ensures Sum(StrayActionFacts([a], [e], cutoff), ActionKind, a.kind).total == 1
  {
    hide Sum, Stray, StrayActionFacts, FinishedActionFacts;
    OneStray(a, [e], cutoff);
    SumOne(ActionFact(a), ActionKind, a.kind);
    SumEmpty(ActionKind, a.kind);
  }

  lemma OneRowEach(e: Episode, a: Action, cutoff: int)
    requires Old(e, cutoff) && a.episodeId == e.id && a.finishedAt.None?
    ensures Sound(Db([e], [a], [])) && Stray(a, [e], cutoff)
  {
    assert Matches(a, [e][0], cutoff);
    assert [e][0].id == a.episodeId;
    assert HasEpisode(a, [e]);
  }

  /** Such rows exist: an episode finished before the cutoff and an action that never was. */
  lemma StrayWitness()
    ensures exists e: Episode, a: Action :: Old(e, 10) && a.episodeId == e.id && a.finishedAt.None?
  {
    var e := Episode("e", "lost", Some(true), Some(1.0), None, "", "", 0, Some(5));
    var a := Action("x", "e", 1, "search", None, "", None, 0, None);
    assert Old(e, 10) && a.episodeId == e.id;
  }

  lemma OneStray(a: Action, es: seq<Episode>, cutoff: int)
    requires Stray(a, es, cutoff)
    ensures StrayActionFacts([a], es, cutoff) == [ActionFact(a)] && FinishedActionFacts([a]) == []
  {
    hide OfOldEpisode;
    assert [a][..0] == [];
  }

  // ---- what pruning keeps ----------------------------------------------------------------

  lemma {:induction false} KeptEpisodeMembers(es: seq<Episode>, cutoff: int, e: Episode)
    ensures e in KeptEpisodes(es, cutoff) <==> e in es && !Old(e, cutoff)
  {
    if es != [] {
      KeptEpisodeMembers(es[..|es| - 1], cutoff, e);
      assert es == es[..|es| - 1] + [es[|es| - 1]];
    }
  }

  lemma {:induction false} KeptActionMembers(xs: seq<Action>, es: seq<Episode>, cutoff: int, a: Action)
    ensures a in KeptActions(xs, es, cutoff) <==> a in xs && !OfOldEpisode(a, es, cutoff)
  {
    hide OfOldEpisode;
    if xs != [] {
      KeptActionMembers(xs[..|xs| - 1], es, cutoff, a);
      assert xs == xs[..|xs| - 1] + [xs[|xs| - 1]];
    }
  }

  lemma {:induction false} KeptEpisodesDistinct(es: seq<Episode>, cutoff: int)
    requires DistinctEpisodes(es)
    ensures DistinctEpisodes(KeptEpisodes(es, cutoff))
  {
    if es != [] {
      var init, e := es[..|es| - 1], es[|es| - 1];
      KeptEpisodesDistinct(init, cutoff);
      var kept := KeptEpisodes(init, cutoff);
      forall i | 0 <= i < |kept| ensures kept[i].id != e.id {
        KeptEpisodeMembers(init, cutoff, kept[i]);
        var j :| 0 <= j < |init| && init[j] == kept[i];
        assert es[j] == init[j];
      }
    }
  }

  /** No action is left without its episode: the foreign-key check after a prune finds nothing. */
  lemma NoOrphans(db: Db, cutoff: int, a: Action)
    requires Sound(db) && a in KeptActions(db.actions, db.episodes, cutoff)
    ensures HasEpisode(a, KeptEpisodes(db.episodes, cutoff))
  {
    KeptActionMembers(db.actions, db.episodes, cutoff, a);
    var i :| 0 <= i < |db.actions| && db.actions[i] == a;
    var j :| 0 <= j < |db.episodes| && db.episodes[j].id == a.episodeId;
    var e := db.episodes[j];
    assert !Matches(a, db.episodes[j], cutoff);
    KeptEpisodeMembers(db.episodes, cutoff, e);
    var kept := KeptEpisodes(db.episodes, cutoff);
    var k :| 0 <= k < |kept| && kept[k] == e;
  }

  lemma PruneKeepsSound(db: Db, cutoff: int)
    requires Sound(db)
    ensures Sound(Pruned(db, cutoff))
  {
    var db' := Pruned(db, cutoff);
    KeptEpisodesDistinct(db.episodes, cutoff);
    forall i | 0 <= i < |db'.actions| ensures HasEpisode(db'.actions[i], db'.episodes) {
      NoOrphans(db, cutoff, db'.actions[i]);
    }
    var facts, joined := OldEpisodeFacts(db.episodes, cutoff), JoinedActionFacts(db.actions, db.episodes, cutoff);
    OldEpisodeFactsShape(db.episodes, cutoff);
    JoinedFactsShape(db.actions, db.episodes, cutoff);
    GroupedCounted(facts);
    GroupedCounted(joined);
    UpsertAllCounted(db.summary, Grouped(facts));
    UpsertAllCounted(UpsertAll(db.summary, Grouped(facts)), Grouped(joined));
    UpsertAllCells(db.summary, Grouped(facts));
    UpsertAllCells(UpsertAll(db.summary, Grouped(facts)), Grouped(joined));
  }

  lemma {:induction false} NothingOldLeft(es: seq<Episode>, cutoff: int)
    requires forall i :: 0 <= i < |es| ==> !Old(es[i], cutoff)
    ensures KeptEpisodes(es, cutoff) == es && OldEpisodeFacts(es, cutoff) == []
  {
    if es != [] {
      NothingOldLeft(es[..|es| - 1], cutoff);
    }
  }

  lemma {:induction false} NothingJoins(xs: seq<Action>, es: seq<Episode>, cutoff: int)
    requires forall i :: 0 <= i < |es| ==> !Old(es[i], cutoff)
    ensures KeptActions(xs, es, cutoff) == xs && JoinedActionFacts(xs, es, cutoff) == []
  {
    if xs != [] {
      NothingJoins(xs[..|xs| - 1], es, cutoff);
      NoJoinRows(xs[|xs| - 1], es, cutoff);
    }
  }

  lemma {:induction false} NoJoinRows(a: Action, es: seq<Episode>, cutoff: int)
    requires forall i :: 0 <= i < |es| ==> !Old(es[i], cutoff)
    ensures JoinRows(a, es, cutoff) == [] && !OfOldEpisode(a, es, cutoff)
  {
    if es != [] {
      NoJoinRows(a, es[..|es| - 1], cutoff);
    }
  }

  /** A second prune with the same cutoff changes nothing. */
  lemma PruneTwice(db: Db, cutoff: int)
    ensures Pruned(Pruned(db, cutoff), cutoff) == Pruned(db, cutoff)
  {
    var once := Pruned(db, cutoff);
    forall i | 0 <= i < |once.episodes| ensures !Old(once.episodes[i], cutoff) {
      KeptEpisodeMembers(db.episodes, cutoff, once.episodes[i]);
    }
    NothingOldLeft(once.episodes, cutoff);
    NothingJoins(once.actions, once.episodes, cutoff);
  }

  // ---- closing what a restart left open ----------------------------------------------------

  function Elapsed(now: int, startedAt: int): real {
    if now > startedAt then (now - startedAt) as real else 0.0
  }

  function ClosedAction(a: Action, now: int, reason: string): Action {
    if a.finishedAt.Some? then a
    else a.(success := Some(false), reason := reason, duration := Some(Elapsed(now, a.startedAt)), finishedAt := Some(now))
  }

  /** The action of an episode inserted last. */
  function LastAction(xs: seq<Action>, id: string): Option<Action> {
    if xs == [] then None
    else if xs[|xs| - 1].episodeId == id then Some(xs[|xs| - 1])
    else LastAction(xs[..|xs| - 1], id)
  }

  function ClosedEpisode(e: Episode, xs: seq<Action>, now: int, reason: string): Episode {
    if e.finishedAt.Some? then e
    else
      var last := LastAction(xs, e.id);
      e.(success := Some(false),
         terminalLevel := Some(if last.Some? then last.value.level else if e.terminalLevel.Some? then e.terminalLevel.value else 0),
         terminalAction := if last.Some? then last.value.kind else e.terminalAction,
         duration := Some(Elapsed(now, e.startedAt)), reason := reason, finishedAt := Some(now))
  }

  function Reconciled(db: Db, now: int, reason: string): Db {
    var xs := seq(|db.actions|, i requires 0 <= i < |db.actions| => ClosedAction(db.actions[i], now, reason));
    db.(actions := xs,
        episodes := seq(|db.episodes|, i requires 0 <= i < |db.episodes| => ClosedEpisode(db.episodes[i], xs, now, reason)))
  }

  lemma ReconcileKeepsSound(db: Db, now: int, reason: string)
    requires Sound(db)
    ensures Sound(Reconciled(db, now, reason))
  {
    var db' := Reconciled(db, now, reason);
    forall i | 0 <= i < |db'.actions| ensures HasEpisode(db'.actions[i], db'.episodes) {
      assert HasEpisode(db.actions[i], db.episodes);
      var j :| 0 <= j < |db.episodes| && db.episodes[j].id == db.actions[i].episodeId;
      assert db'.episodes[j].id == db'.actions[i].episodeId;
    }
  }

  /** After the start-up reconcile no action is unfinished, so pruning finds no stray. */
  lemma ReconcileLeavesNoStray(db: Db, now: int, reason: string, cutoff: int, i: nat)
    requires i < |db.actions|
    ensures !Stray(Reconciled(db, now, reason).actions[i], Reconciled(db, now, reason).episodes, cutoff)
  {
    hide OfOldEpisode;
  }

  /**
   Start-up: reconcile, then prune with one cutoff. Every reported line of both tables is
   the same before and after the prune, and the tables stay sound.
   */
  lemma StartupConservesHistory(db: Db, now: int, reason: string, cutoff: int, c: Category, l: Label)
    requires Sound(db)
    ensures var ready := Reconciled(db, now, reason);
            && Statistic(Pruned(ready, cutoff), c, l) == Statistic(ready, c, l)
            && Reported(Statistic(Pruned(ready, cutoff), c, l)) == Reported(Statistic(ready, c, l))
            && Sound(Pruned(ready, cutoff))
  {
    hide Statistic, Pruned, Sound, Stray;
    var ready := Reconciled(db, now, reason);
    ReconcileKeepsSound(db, now, reason);
    PruneKeepsSound(ready, cutoff);
    forall i | 0 <= i < |ready.actions| ensures !Stray(ready.actions[i], ready.episodes, cutoff) {
      ReconcileLeavesNoStray(db, now, reason, cutoff, i);
    }
    PruneKeepsActionsIff(ready, cutoff);
    PruneKeepsFaults(ready, cutoff, l);
  }

  function OpenFaults(es: seq<Episode>, l: Label): nat {
    if es == [] then 0
    else OpenFaults(es[..|es| - 1], l) + if es[|es| - 1].finishedAt.None? && es[|es| - 1].fault == l then 1 else 0
  }

  lemma {:induction false} ClosedEpisodesCount(es: seq<Episode>, closed: seq<Episode>, xs: seq<Action>, now: int, reason: string, l: Label)
    requires |closed| == |es| && forall i :: 0 <= i < |es| ==> closed[i] == ClosedEpisode(es[i], xs, now, reason)
    ensures var before, after := Sum(FinishedEpisodeFacts(es), Fault, l), Sum(FinishedEpisodeFacts(closed), Fault, l);
            after.total == before.total + OpenFaults(es, l) && after.succeeded == before.succeeded
  {
    hide Sum, ClosedEpisode;
    if es == [] {
      SumEmpty(Fault, l);
    } else {
      var n := |es| - 1;
      ClosedEpisodesCount(es[..n], closed[..n], xs, now, reason, l);
      SumSnoc(FinishedEpisodeFacts(es[..n]), es[n].finishedAt.Some?, EpisodeFact(es[n]), Fault, l);
      SumSnoc(FinishedEpisodeFacts(closed[..n]), closed[n].finishedAt.Some?, EpisodeFact(closed[n]), Fault, l);
      SumOne(EpisodeFact(closed[n]), Fault, l);
      ClosedEpisodeFact(es[n], xs, now, reason);
    }
  }

  lemma ClosedEpisodeFact(e: Episode, xs: seq<Action>, now: int, reason: string)
    ensures var e' := ClosedEpisode(e, xs, now, reason);
            && e'.finishedAt.Some? && e'.fault == e.fault
            && (e.finishedAt.Some? ==> e' == e)
            && (e.finishedAt.None? ==> e'.success == Some(false))
  {
  }

  lemma SumOne(f: Summary, c: Category, l: Label)
    ensures Sum([f], c, l) == if f.cell.category == c && f.cell.name == l then f.tally else ZERO
  {
    assert [f][1..] == [];
  }

  /** Reconciling counts every interrupted episode once, as a failure. */
  lemma ReconcileCountsInterrupted(db: Db, now: int, reason: string, l: Label)
    ensures var before, after := Statistic(db, Fault, l), Statistic(Reconciled(db, now, reason), Fault, l);
            after.total == before.total + OpenFaults(db.episodes, l) && after.succeeded == before.succeeded
  {
    hide Sum;
    var db' := Reconciled(db, now, reason);
    ClosedEpisodesCount(db.episodes, db'.episodes, db'.actions, now, reason, l);
  }
}
