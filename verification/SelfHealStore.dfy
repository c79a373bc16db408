/** The store object: each method is one transaction over the three self-healing tables. */
module SelfHealStore {
  import opened Wrappers
  import opened SelfHealing

  class LocalStore {
    var episodes: seq<Episode>
    var actions: seq<Action>
    var summary: seq<Summary>
    const retentionDays: int

    ghost function Contents(): Db
      reads this
    {
      Db(episodes, actions, summary)
    }

    ghost predicate Valid()
      reads this
    {
      Sound(Contents())
    }

    constructor (retention: int)
      ensures Valid() && Contents() == Db([], [], [])
      ensures retentionDays == if retention > 1 then retention else 1
    {
      episodes, actions, summary := [], [], [];
      retentionDays := if retention > 1 then retention else 1;
    }

    /** INSERT OR IGNORE: an id already present keeps its row. */
    method StartEpisode(id: string, fault: Label, now: int)
      requires Valid()
      modifies this`episodes
      ensures Valid()
      ensures episodes == if exists i :: 0 <= i < |old(episodes)| && old(episodes)[i].id == id then old(episodes)
                          else old(episodes) + [Episode(id, fault, None, None, None, "", "", now, None)]
    {
      ghost var before := Contents();
      for k := 0 to |episodes|
        invariant forall i :: 0 <= i < k ==> episodes[i].id != id
      {
        if episodes[k].id == id {
          return;
        }
      }
      episodes := episodes + [Episode(id, fault, None, None, None, "", "", now, None)];
      EpisodesGrow(before, Contents());
    }

    /** A known id is ignored first; a new action without its episode violates the foreign key and is refused. */
    method StartAction(id: string, episodeId: string, level: int, kind: Label, now: int) returns (refused: bool)
      requires Valid()
      modifies this`actions
      ensures Valid()
      ensures refused <==> !KnownAction(old(actions), id) && !KnownEpisode(episodes, episodeId)
      ensures actions == if refused || KnownAction(old(actions), id) then old(actions)
                         else old(actions) + [Action(id, episodeId, level, kind, None, "", None, now, None)]
    {
      ghost var before := Contents();
      for k := 0 to |actions|
        invariant forall i :: 0 <= i < k ==> actions[i].id != id
      {
        if actions[k].id == id {
          return false;
        }
      }
      var found := FindEpisode(episodeId);
      if !found {
        return true;
      }
      var a := Action(id, episodeId, level, kind, None, "", None, now, None);
      assert HasEpisode(a, episodes);
      actions := actions + [a];
      ActionsGrow(before, a);
      return false;
    }

    method FindEpisode(id: string) returns (found: bool)
      ensures found <==> KnownEpisode(episodes, id)
    {
      for k := 0 to |episodes|
        invariant forall j :: 0 <= j < k ==> episodes[j].id != id
      {
        if episodes[k].id == id {
          return true;
        }
      }
      return false;
    }

    /** `reconcile_unfinished_self_healing` with its two row counts. */
    method Reconcile(now: int, reason: string) returns (closedEpisodes: nat, closedActions: nat)
      requires Valid()
      modifies this`episodes, this`actions
      ensures Valid() && Contents() == Reconciled(old(Contents()), now, reason)
      ensures closedEpisodes == UnfinishedEpisodes(old(episodes)) && closedActions == UnfinishedActions(old(actions))
    {
      hide ClosedAction, ClosedEpisode, Sound, UnfinishedActions, UnfinishedEpisodes;
      ghost var before := Contents();
      closedActions := CloseActions(now, reason);
      closedEpisodes := CloseEpisodes(now, reason);
      ghost var after := Reconciled(before, now, reason);
      assert actions == after.actions;
      assert episodes == after.episodes;
      ReconcileKeepsSound(before, now, reason);
    }

    method CloseActions(now: int, reason: string) returns (closed: nat)
      modifies this`actions
      ensures |actions| == |old(actions)| && forall i :: 0 <= i < |actions| ==> actions[i] == ClosedAction(old(actions)[i], now, reason)
      ensures closed == UnfinishedActions(old(actions))
    {
      var xs: seq<Action> := [];
      closed := 0;
      assert actions[..0] == [];
      for k := 0 to |actions|
        invariant |xs| == k && forall i :: 0 <= i < k ==> xs[i] == ClosedAction(actions[i], now, reason)
        invariant closed == UnfinishedActions(actions[..k])
      {
        assert actions[..k + 1][..k] == actions[..k];
        xs := xs + [ClosedAction(actions[k], now, reason)];
        closed := closed + if actions[k].finishedAt.None? then 1 else 0;
      }
      assert actions[..|actions|] == actions;
      actions := xs;
    }

    method CloseEpisodes(now: int, reason: string) returns (closed: nat)
      modifies this`episodes
      ensures |episodes| == |old(episodes)|
      ensures forall i :: 0 <= i < |episodes| ==> episodes[i] == ClosedEpisode(old(episodes)[i], actions, now, reason)
      ensures closed == UnfinishedEpisodes(old(episodes))
    {
      hide ClosedEpisode;
      var es: seq<Episode> := [];
      closed := 0;
      assert episodes[..0] == [];
      for k := 0 to |episodes|
        invariant |es| == k && forall i :: 0 <= i < k ==> es[i] == ClosedEpisode(episodes[i], actions, now, reason)
        invariant closed == UnfinishedEpisodes(episodes[..k])
      {
        assert episodes[..k + 1][..k] == episodes[..k];
        es := es + [ClosedEpisode(episodes[k], actions, now, reason)];
        closed := closed + if episodes[k].finishedAt.None? then 1 else 0;
      }
      assert episodes[..|episodes|] == episodes;
      episodes := es;
    }

    /** `prune_self_healing`: two grouped inserts, two deletes, then the foreign-key check. */
    method Prune(now: int, days: Option<int>) returns (prunedEpisodes: nat, prunedActions: nat)
      requires Valid()
      modifies this`episodes, this`actions, this`summary
      ensures Valid()
      ensures var kept := if days.None? then retentionDays else days.value;
              Contents() == Pruned(old(Contents()), now - (if kept > 1 then kept else 1) * DAY)
      ensures prunedEpisodes == |old(episodes)| - |episodes| && prunedActions == |old(actions)| - |actions|
    {
      hide UpsertAll, Grouped, Sound, KeptActions, KeptEpisodes, OldEpisodeFacts, JoinedActionFacts;
      ghost var before := Contents();
      var kept := if days.None? then retentionDays else days.value;
      var cutoff := now - (if kept > 1 then kept else 1) * DAY;
      var groups := GroupEpisodes(cutoff);
      InsertSummary(groups);
      groups := GroupActions(cutoff);
      InsertSummary(groups);
      prunedActions := DeleteActions(cutoff);
      prunedEpisodes := DeleteEpisodes(cutoff);
      PruneKeepsSound(before, cutoff);
    }

    method GroupEpisodes(cutoff: int) returns (groups: seq<Summary>)
      ensures groups == Grouped(OldEpisodeFacts(episodes, cutoff))
    {
      groups := [];
      assert episodes[..0] == [];
      for k := 0 to |episodes|
        invariant groups == Grouped(OldEpisodeFacts(episodes[..k], cutoff))
      {
        assert episodes[..k + 1][..k] == episodes[..k];
        if Old(episodes[k], cutoff) {
          GroupedSnoc(OldEpisodeFacts(episodes[..k], cutoff), EpisodeFact(episodes[k]));
          groups := Upsert(groups, EpisodeFact(episodes[k]));
        } else {
          assert OldEpisodeFacts(episodes[..k], cutoff) + [] == OldEpisodeFacts(episodes[..k], cutoff);
        }
      }
      assert episodes[..|episodes|] == episodes;
    }

    method GroupActions(cutoff: int) returns (groups: seq<Summary>)
      ensures groups == Grouped(JoinedActionFacts(actions, episodes, cutoff))
    {
      groups := [];
      assert actions[..0] == [];
      for k := 0 to |actions|
        invariant groups == Grouped(JoinedActionFacts(actions[..k], episodes, cutoff))
      {
        assert actions[..k + 1][..k] == actions[..k];
        groups := GroupJoin(actions[k], cutoff, groups, JoinedActionFacts(actions[..k], episodes, cutoff));
      }
      assert actions[..|actions|] == actions;
    }

    /** The inner side of the join: one action against every episode row. */
    method GroupJoin(a: Action, cutoff: int, before: seq<Summary>, ghost done: seq<Summary>) returns (groups: seq<Summary>)
      requires before == Grouped(done)
      ensures groups == Grouped(done + JoinRows(a, episodes, cutoff))
    {
      hide Grouped, Upsert;
      groups := before;
      assert episodes[..0] == [] && done + [] == done;
      for j := 0 to |episodes|
        invariant groups == Grouped(done + JoinRows(a, episodes[..j], cutoff))
      {
        assert episodes[..j + 1][..j] == episodes[..j];
        ghost var rows := JoinRows(a, episodes[..j], cutoff);
        if Matches(a, episodes[j], cutoff) {
          GroupedSnoc(done + rows, ActionFact(a));
          assert (done + rows) + [ActionFact(a)] == done + (rows + [ActionFact(a)]);
          groups := Upsert(groups, ActionFact(a));
        } else {
          assert rows + [] == rows;
        }
      }
      assert episodes[..|episodes|] == episodes;
    }

    method InsertSummary(groups: seq<Summary>)
      modifies this`summary
      ensures summary == UpsertAll(old(summary), groups)
    {
      assert groups[0..] == groups;
      for k := 0 to |groups|
        invariant UpsertAll(summary, groups[k..]) == UpsertAll(old(summary), groups)
      {
        assert groups[k..][1..] == groups[k + 1..];
        summary := Upsert(summary, groups[k]);
      }
    }

    method DeleteActions(cutoff: int) returns (deleted: nat)
      modifies this`actions
      ensures actions == KeptActions(old(actions), episodes, cutoff) && deleted == |old(actions)| - |actions|
    {
      var kept: seq<Action> := [];
      deleted := 0;
      assert actions[..0] == [];
      for k := 0 to |actions|
        invariant kept == KeptActions(actions[..k], episodes, cutoff) && deleted == k - |kept|
      {
        assert actions[..k + 1][..k] == actions[..k];
        var old' := false;
        for j := 0 to |episodes|
          invariant old' <==> exists i :: 0 <= i < j && Matches(actions[k], episodes[i], cutoff)
        {
          if Matches(actions[k], episodes[j], cutoff) {
            old' := true;
          }
        }
        if old' {
          deleted := deleted + 1;
        } else {
          kept := kept + [actions[k]];
        }
      }
      assert actions[..|actions|] == actions;
      actions := kept;
    }

    method DeleteEpisodes(cutoff: int) returns (deleted: nat)
      modifies this`episodes
      ensures episodes == KeptEpisodes(old(episodes), cutoff) && deleted == |old(episodes)| - |episodes|
    {
      var kept: seq<Episode> := [];
      deleted := 0;
      assert episodes[..0] == [];
      for k := 0 to |episodes|
        invariant kept == KeptEpisodes(episodes[..k], cutoff) && deleted == k - |kept|
      {
        assert episodes[..k + 1][..k] == episodes[..k];
        if Old(episodes[k], cutoff) {
          deleted := deleted + 1;
        } else {
          kept := kept + [episodes[k]];
        }
      }
      assert episodes[..|episodes|] == episodes;
      episodes := kept;
    }
  }

  function UnfinishedActions(xs: seq<Action>): nat {
    if xs == [] then 0 else UnfinishedActions(xs[..|xs| - 1]) + if xs[|xs| - 1].finishedAt.None? then 1 else 0
  }

  function UnfinishedEpisodes(es: seq<Episode>): nat {
    if es == [] then 0 else UnfinishedEpisodes(es[..|es| - 1]) + if es[|es| - 1].finishedAt.None? then 1 else 0
  }

  lemma GroupedSnoc(facts: seq<Summary>, f: Summary)
    ensures Grouped(facts + [f]) == Upsert(Grouped(facts), f)
  {
    assert (facts + [f])[..|facts|] == facts;
  }

  predicate KnownEpisode(es: seq<Episode>, id: string) {
    exists j :: 0 <= j < |es| && es[j].id == id
  }

  predicate KnownAction(xs: seq<Action>, id: string) {
    exists i :: 0 <= i < |xs| && xs[i].id == id
  }

  lemma ActionsGrow(before: Db, a: Action)
    requires Sound(before) && HasEpisode(a, before.episodes)
    ensures Sound(before.(actions := before.actions + [a]))
  {
    hide HasEpisode;
  }

  lemma EpisodesGrow(before: Db, after: Db)
    requires Sound(before) && before.episodes <= after.episodes && after == before.(episodes := after.episodes)
    requires DistinctEpisodes(after.episodes)
    ensures Sound(after)
  {
    forall i | 0 <= i < |after.actions| ensures HasEpisode(after.actions[i], after.episodes) {
      assert HasEpisode(before.actions[i], before.episodes);
      var j :| 0 <= j < |before.episodes| && before.episodes[j].id == after.actions[i].episodeId;
      assert after.episodes[j].id == after.actions[i].episodeId;
    }
  }
}
