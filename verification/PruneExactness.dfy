/**
 What pruning does to every single row, said on the fields of the rows: which episodes and
 actions leave, and what each line of the daily summary gains for them.
 */
module PruneExactness {
  import opened Wrappers
  import opened SelfHealing

  /** Exactly the finished episodes that began before the cutoff leave. */
  lemma EpisodeStaysIff(db: Db, cutoff: int, e: Episode)
    ensures e in Pruned(db, cutoff).episodes <==> e in db.episodes && (e.finishedAt.None? || e.startedAt >= cutoff)
  {
    PrunedTables(db, cutoff);
    KeptEpisodeMembers(db.episodes, cutoff, e);
  }

  /** An action stays exactly as long as its episode does. */
  lemma ActionStaysIff(db: Db, cutoff: int, a: Action)
    requires Sound(db)
    ensures a in Pruned(db, cutoff).actions <==>
              a in db.actions && exists e :: e in Pruned(db, cutoff).episodes && e.id == a.episodeId
  {
    hide Pruned, KeptEpisodes, KeptActions;
    PrunedTables(db, cutoff);
    KeptActionMembers(db.actions, db.episodes, cutoff, a);
    if a in Pruned(db, cutoff).actions {
      NoOrphans(db, cutoff, a);
      var kept := KeptEpisodes(db.episodes, cutoff);
      var j :| 0 <= j < |kept| && kept[j].id == a.episodeId;
      assert kept[j] in Pruned(db, cutoff).episodes;
    }
    if e :| e in Pruned(db, cutoff).episodes && e.id == a.episodeId {
      KeptEpisodeMembers(db.episodes, cutoff, e);
    }
  }

  // ---- the daily summary ------------------------------------------------------------------------------

  /** What the rows of one day, category and label add up to. */
  function CellSum(rows: seq<Summary>, cell: Cell): Tally {
    if rows == [] then ZERO
    else
      var rest := CellSum(rows[1..], cell);
      if Belongs(rows[0], cell) then Plus(rows[0].tally, rest) else rest
  }

  predicate Belongs(r: Summary, cell: Cell) {
    r.cell == cell
  }

  lemma {:induction false} CellConcat(a: seq<Summary>, b: seq<Summary>, cell: Cell)
    ensures CellSum(a + b, cell) == Plus(CellSum(a, cell), CellSum(b, cell))
  {
    hide Belongs, Plus;
    if a == [] {
      assert a + b == b;
      PlusLaws(ZERO, ZERO, CellSum(b, cell));
    } else {
      var ab := a + b;
      assert ab[1..] == a[1..] + b && ab[0] == a[0];
      CellConcat(a[1..], b, cell);
      PlusLaws(a[0].tally, CellSum(a[1..], cell), CellSum(b, cell));
    }
  }

  lemma PlusLaws(x: Tally, y: Tally, z: Tally)
    ensures Plus(x, Plus(y, z)) == Plus(Plus(x, y), z) && Plus(ZERO, z) == z
  {
  }

  lemma CellOne(r: Summary, cell: Cell)
    ensures CellSum([r], cell) == if r.cell == cell then r.tally else ZERO
    ensures CellSum([], cell) == ZERO
  {
    assert [r][1..] == [];
  }

  lemma {:induction false} CellUpsert(rows: seq<Summary>, r: Summary, cell: Cell)
    ensures CellSum(Upsert(rows, r), cell) == Plus(CellSum(rows, cell), CellSum([r], cell))
  {
    assert [r][1..] == [];
    if rows != [] {
      if rows[0].cell == r.cell {
        var merged := rows[0].(tally := Plus(rows[0].tally, r.tally));
        assert ([merged] + rows[1..])[1..] == rows[1..];
      } else {
        assert ([rows[0]] + Upsert(rows[1..], r))[1..] == Upsert(rows[1..], r);
        CellUpsert(rows[1..], r, cell);
      }
    }
  }

  lemma {:induction false} CellUpsertAll(rows: seq<Summary>, news: seq<Summary>, cell: Cell)
    ensures CellSum(UpsertAll(rows, news), cell) == Plus(CellSum(rows, cell), CellSum(news, cell))
    decreases |news|
  {
    hide CellSum, Upsert;
    if news == [] {
      CellOne(Summary(cell, ZERO), cell);
    } else {
      CellUpsertAll(Upsert(rows, news[0]), news[1..], cell);
      CellUpsert(rows, news[0], cell);
      assert [news[0]] + news[1..] == news;
      CellConcat([news[0]], news[1..], cell);
    }
  }

  lemma {:induction false} CellGrouped(facts: seq<Summary>, cell: Cell)
    ensures CellSum(Grouped(facts), cell) == CellSum(facts, cell)
  {
    hide Upsert;
    if facts != [] {
      var init, last := facts[..|facts| - 1], facts[|facts| - 1];
      assert facts == init + [last];
      CellGrouped(init, cell);
      CellConcat(init, [last], cell);
      CellUpsert(Grouped(init), last, cell);
    }
  }

  /** The share of one row in its line: counted once, as a success if it was one, with its duration. */
  function Share(success: Option<bool>, duration: Option<real>): Tally {
    Tally(1, if success == Some(true) then 1 else 0, if duration.Some? then duration.value else 0.0)
  }

  /** The faults with this label of this day that are finished and began before the cutoff. */
  function LeftFaults(es: seq<Episode>, cutoff: int, day: int, l: Label): Tally {
    if es == [] then ZERO
    else
      var e := es[|es| - 1];
      Plus(LeftFaults(es[..|es| - 1], cutoff, day, l),
           if e.finishedAt.Some? && e.startedAt < cutoff && e.startedAt / 86400 == day && e.fault == l
           then Share(e.success, e.duration) else ZERO)
  }

  predicate OfLeavingEpisode(a: Action, es: seq<Episode>, cutoff: int) {
    exists j :: 0 <= j < |es| && es[j].id == a.episodeId && es[j].finishedAt.Some? && es[j].startedAt < cutoff
  }

  /** The actions of this kind of this day whose episode leaves. */
  function LeftActions(xs: seq<Action>, es: seq<Episode>, cutoff: int, day: int, l: Label): Tally {
    if xs == [] then ZERO
    else
      var a := xs[|xs| - 1];
      Plus(LeftActions(xs[..|xs| - 1], es, cutoff, day, l),
           if OfLeavingEpisode(a, es, cutoff) && a.startedAt / 86400 == day && a.kind == l
           then Share(a.success, a.duration) else ZERO)
  }

  lemma {:induction false} FaultFacts(es: seq<Episode>, cutoff: int, cell: Cell)
    ensures CellSum(OldEpisodeFacts(es, cutoff), cell) ==
            if cell.category == Fault then LeftFaults(es, cutoff, cell.day, cell.name) else ZERO
  {
    if es != [] {
      var init, e := es[..|es| - 1], es[|es| - 1];
      FaultFacts(init, cutoff, cell);
      CellOne(EpisodeFact(e), cell);
      CellConcat(OldEpisodeFacts(init, cutoff), if Old(e, cutoff) then [EpisodeFact(e)] else [], cell);
    }
  }

  lemma OneAction(a: Action, es: seq<Episode>, cutoff: int, cell: Cell)
    requires DistinctEpisodes(es)
    ensures CellSum(JoinRows(a, es, cutoff), cell) ==
            if cell.category == ActionKind && OfLeavingEpisode(a, es, cutoff) && a.startedAt / 86400 == cell.day && a.kind == cell.name
            then Share(a.success, a.duration) else ZERO
  {
    hide JoinRows, CellSum, OfOldEpisode, OfLeavingEpisode;
    JoinOnce(a, es, cutoff);
    SameLeaving(a, es, cutoff);
    CellOne(ActionFact(a), cell);
  }

  lemma {:induction false} ActionFacts(xs: seq<Action>, es: seq<Episode>, cutoff: int, cell: Cell)
    requires DistinctEpisodes(es)
    ensures CellSum(JoinedActionFacts(xs, es, cutoff), cell) ==
            if cell.category == ActionKind then LeftActions(xs, es, cutoff, cell.day, cell.name) else ZERO
  {
    hide JoinRows, CellSum, OfLeavingEpisode, Share, DistinctEpisodes;
    if xs == [] {
      CellOne(Summary(cell, ZERO), cell);
    } else {
      var init, a := xs[..|xs| - 1], xs[|xs| - 1];
      ActionFacts(init, es, cutoff, cell);
      OneAction(a, es, cutoff, cell);
      CellConcat(JoinedActionFacts(init, es, cutoff), JoinRows(a, es, cutoff), cell);
    }
  }

  lemma SameLeaving(a: Action, es: seq<Episode>, cutoff: int)
    ensures OfOldEpisode(a, es, cutoff) <==> OfLeavingEpisode(a, es, cutoff)
  {
    if OfOldEpisode(a, es, cutoff) {
      var i :| 0 <= i < |es| && Matches(a, es[i], cutoff);
      assert es[i].id == a.episodeId;
    }
    if OfLeavingEpisode(a, es, cutoff) {
      var j :| 0 <= j < |es| && es[j].id == a.episodeId && es[j].finishedAt.Some? && es[j].startedAt < cutoff;
      assert Matches(a, es[j], cutoff);
    }
  }

  /** Each line of the summary gains, by day, category and label, exactly the rows that left. */
  lemma SummaryGains(db: Db, cutoff: int, day: int, l: Label)
    requires Sound(db)
    ensures var f := Cell(day, Fault, l);
            CellSum(Pruned(db, cutoff).summary, f) == Plus(CellSum(db.summary, f), LeftFaults(db.episodes, cutoff, day, l))
    ensures var k := Cell(day, ActionKind, l);
            CellSum(Pruned(db, cutoff).summary, k) == Plus(CellSum(db.summary, k), LeftActions(db.actions, db.episodes, cutoff, day, l))
  {
    LineGains(db, cutoff, Cell(day, Fault, l));
    LineGains(db, cutoff, Cell(day, ActionKind, l));
  }

  lemma LineGains(db: Db, cutoff: int, cell: Cell)
    requires Sound(db)
    ensures CellSum(Pruned(db, cutoff).summary, cell) ==
            Plus(CellSum(db.summary, cell),
                 if cell.category == Fault then LeftFaults(db.episodes, cutoff, cell.day, cell.name)
                 else LeftActions(db.actions, db.episodes, cutoff, cell.day, cell.name))
  {
    hide CellSum, OldEpisodeFacts, JoinedActionFacts, Grouped, UpsertAll, LeftFaults, LeftActions;
    var fs, xs := OldEpisodeFacts(db.episodes, cutoff), JoinedActionFacts(db.actions, db.episodes, cutoff);
    CellGrouped(fs, cell);
    CellGrouped(xs, cell);
    CellUpsertAll(db.summary, Grouped(fs), cell);
    CellUpsertAll(UpsertAll(db.summary, Grouped(fs)), Grouped(xs), cell);
    FaultFacts(db.episodes, cutoff, cell);
    ActionFacts(db.actions, db.episodes, cutoff, cell);
  }

  // ---- reconciling ----------------------------------------------------------------------------------------

  /** A finished action is left alone; an open one is closed now as a failure with the time it has run. */
  lemma ReconciledAction(db: Db, now: int, reason: string, i: nat)
    requires i < |db.actions|
    ensures |Reconciled(db, now, reason).actions| == |db.actions|
    ensures var a, a' := db.actions[i], Reconciled(db, now, reason).actions[i];
            if a.finishedAt.Some? then a' == a
            else
              && a' == a.(success := a'.success, reason := a'.reason, duration := a'.duration, finishedAt := a'.finishedAt)
              && a'.success == Some(false) && a'.reason == reason && a'.finishedAt == Some(now)
              && a'.duration == Some(if now < a.startedAt then 0.0 else (now - a.startedAt) as real)
  {
  }

  /** The action with index k is the one inserted last for this episode. */
  predicate IsLast(xs: seq<Action>, id: string, k: nat) {
    k < |xs| && xs[k].episodeId == id && forall j :: k < j < |xs| ==> xs[j].episodeId != id
  }

  lemma {:induction false} LastActionIs(xs: seq<Action>, id: string)
    ensures LastAction(xs, id).Some? ==> exists k: nat :: IsLast(xs, id, k) && LastAction(xs, id) == Some(xs[k])
    ensures LastAction(xs, id).None? ==> forall j :: 0 <= j < |xs| ==> xs[j].episodeId != id
  {
    if xs != [] {
      var n := |xs| - 1;
      var init := xs[..n];
      LastActionIs(init, id);
      if xs[n].episodeId == id {
        assert IsLast(xs, id, n);
      } else if LastAction(init, id).Some? {
        var k: nat :| IsLast(init, id, k) && LastAction(init, id) == Some(init[k]);
        assert IsLast(xs, id, k) by {
          forall j | k < j < |xs| ensures xs[j].episodeId != id {
            assert j < n ==> init[j] == xs[j];
          }
        }
      }
    }
  }

  /** An open episode is closed now as a failure, at the level and with the kind of its last action if it has one. */
  lemma ReconciledEpisode(db: Db, now: int, reason: string, i: nat)
    requires i < |db.episodes|
    ensures |Reconciled(db, now, reason).episodes| == |db.episodes|
    ensures var e, e', xs := db.episodes[i], Reconciled(db, now, reason).episodes[i], db.actions;
            if e.finishedAt.Some? then e' == e
            else
              && e'.id == e.id && e'.fault == e.fault && e'.startedAt == e.startedAt
              && e'.success == Some(false) && e'.reason == reason && e'.finishedAt == Some(now)
              && e'.duration == Some(if now < e.startedAt then 0.0 else (now - e.startedAt) as real)
              && (forall k: nat :: IsLast(xs, e.id, k) ==> e'.terminalLevel == Some(xs[k].level) && e'.terminalAction == xs[k].kind)
              && ((forall k :: 0 <= k < |xs| ==> xs[k].episodeId != e.id) ==>
                    e'.terminalLevel == Some(if e.terminalLevel.Some? then e.terminalLevel.value else 0) && e'.terminalAction == e.terminalAction)
  {
    var xs, ys, e := db.actions, Reconciled(db, now, reason).actions, db.episodes[i];
    LastActionIs(ys, e.id);
    assert |ys| == |xs| && forall k :: 0 <= k < |xs| ==> ys[k].episodeId == xs[k].episodeId && ys[k].level == xs[k].level && ys[k].kind == xs[k].kind;
    forall k: nat | IsLast(xs, e.id, k) && e.finishedAt.None?
      ensures var e' := Reconciled(db, now, reason).episodes[i]; e'.terminalLevel == Some(xs[k].level) && e'.terminalAction == xs[k].kind
    {
      assert ys[k].episodeId == e.id;
      var m: nat :| IsLast(ys, e.id, m) && LastAction(ys, e.id) == Some(ys[m]);
      assert m == k;
    }
  }
}
