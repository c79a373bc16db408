/**
 Choosing loop closures among the retrieved candidates: the acceptance rule, one loop per
 unordered keyframe pair, the cap of thirty best, and the flags written back to the rows.
 The accepted list holds row indices because the source keeps the very same row objects in
 both lists.
 */
module LoopSelection {
  import opened Sorting

  const ACCEPT_DISTANCE := 0.30
  const GEOM_XY_LIMIT := 2.5
  const GEOM_YAW_LIMIT := 0.6
  const MIN_SLAM_XY := 2.0
  const MAX_SLAM_XY := 20.0
  const MAX_ACCEPTED := 30

  /** One retrieved candidate with its measurements; yawError is the wrapped heading difference. */
  datatype Observation = Observation(
    query: nat, match_: nat, rank: nat, distance: real, rounded: real, geomOk: bool,
    dx: real, dy: real, yawError: real, slamXy: real)

  datatype Row = Row(query: nat, match_: nat, distance: real, accepted: bool, reason: string)

  /** `_should_accept_loop` */
  predicate ShouldAccept(o: Observation) {
    o.rank == 1 && o.geomOk && o.distance <= ACCEPT_DISTANCE &&
    MIN_SLAM_XY <= o.slamXy <= MAX_SLAM_XY &&
    -GEOM_YAW_LIMIT <= o.yawError <= GEOM_YAW_LIMIT &&
    o.dx * o.dx + o.dy * o.dy <= GEOM_XY_LIMIT * GEOM_XY_LIMIT
  }

  /** `_loop_rejection_reason` */
  function Reason(o: Observation): (r: string)
    ensures r != "" && r != "accepted_loop_limit"
  {
    if o.rank != 1 then "not_top_rank"
    else if o.distance >= ACCEPT_DISTANCE then "descriptor_distance"
    else if !o.geomOk then "geometric_verification"
    else if o.slamXy < MIN_SLAM_XY then "slam_distance_too_near"
    else if o.slamXy > MAX_SLAM_XY then "slam_distance_too_far"
    else "rejected_other"
  }

  function Pair(q: nat, m: nat): (nat, nat) {
    if q <= m then (q, m) else (m, q)
  }

  function PairOf(o: Observation): (nat, nat) {
    Pair(o.query, o.match_)
  }

  /** Acceptable, and the first acceptable candidate of its unordered pair. */
  predicate Provisional(obs: seq<Observation>, i: nat)
    requires i < |obs|
  {
    ShouldAccept(obs[i]) && forall j :: 0 <= j < i && ShouldAccept(obs[j]) ==> PairOf(obs[j]) != PairOf(obs[i])
  }

  function Provisionals(obs: seq<Observation>, n: nat): (r: seq<nat>)
    requires n <= |obs|
    ensures forall i :: i in r <==> 0 <= i < n && Provisional(obs, i)
    ensures Distinct(r)
  {
    if n == 0 then [] else Provisionals(obs, n - 1) + if Provisional(obs, n - 1) then [n - 1] else []
  }

  function ByDistance(obs: seq<Observation>): nat -> real {
    (i: nat) => if i < |obs| then obs[i].rounded else 0.0
  }

  /** The thirty best, nearest first, ties in retrieval order. */
  function Chosen(obs: seq<Observation>): seq<nat> {
    First(SortBy(Provisionals(obs, |obs|), ByDistance(obs)), MAX_ACCEPTED)
  }

  function FinalRow(obs: seq<Observation>, i: nat): Row
    requires i < |obs|
  {
    var o := obs[i];
    if !ShouldAccept(o) then Row(o.query, o.match_, o.rounded, false, Reason(o))
    else if !Provisional(obs, i) then Row(o.query, o.match_, o.rounded, false, "duplicate_pair")
    else if i in Chosen(obs) then Row(o.query, o.match_, o.rounded, true, "")
    else Row(o.query, o.match_, o.rounded, false, "accepted_loop_limit")
  }

  /** The row as written by the first loop, before any cap. */
  function FirstRow(obs: seq<Observation>, i: nat): Row
    requires i < |obs|
  {
    var o := obs[i];
    if !ShouldAccept(o) then Row(o.query, o.match_, o.rounded, false, Reason(o))
    else if !Provisional(obs, i) then Row(o.query, o.match_, o.rounded, false, "duplicate_pair")
    else Row(o.query, o.match_, o.rounded, true, "")
  }

  method Classify(obs: seq<Observation>) returns (rows: seq<Row>, accepted: seq<nat>)
    ensures |rows| == |obs| && forall i :: 0 <= i < |obs| ==> rows[i] == FirstRow(obs, i)
    ensures accepted == Provisionals(obs, |obs|)
  {
    hide ShouldAccept;
    rows, accepted := [], [];
    var seen: set<(nat, nat)> := {};
    for i := 0 to |obs|
      invariant |rows| == i && forall k :: 0 <= k < i ==> rows[k] == FirstRow(obs, k)
      invariant accepted == Provisionals(obs, i)
      invariant forall p :: p in seen <==> exists k :: 0 <= k < i && ShouldAccept(obs[k]) && PairOf(obs[k]) == p
    {
      var o := obs[i];
      var pair := PairOf(o);
      var accept := ShouldAccept(o);
      var reason := "";
      if accept && pair in seen {
        accept, reason := false, "duplicate_pair";
      } else if !accept {
        reason := Reason(o);
      }
      assert accept == Provisional(obs, i);
      rows := rows + [Row(o.query, o.match_, o.rounded, accept, reason)];
      if accept {
        seen := seen + {pair};
        accepted := accepted + [i];
      }
    }
  }

  /** The selection part of `finalize_loop_closure`. */
  method Select(obs: seq<Observation>) returns (rows: seq<Row>, accepted: seq<nat>)
    ensures |rows| == |obs| && forall i :: 0 <= i < |obs| ==> rows[i] == FinalRow(obs, i)
    ensures accepted == Chosen(obs)
  {
    hide ShouldAccept, SortBy, Provisionals;
    rows, accepted := Classify(obs);
    ghost var all := accepted;
    accepted := SortBy(accepted, ByDistance(obs));
    SortKeepsMembers(all, ByDistance(obs));
    forall k | 0 <= k < |accepted| ensures accepted[k] < |obs| {
      assert accepted[k] in accepted && accepted[k] in all;
    }
    if |accepted| > MAX_ACCEPTED {
      var kept := set k | 0 <= k < MAX_ACCEPTED :: (rows[accepted[k]].query, rows[accepted[k]].match_);
      for i := 0 to |rows|
        invariant |rows| == |obs| && forall k :: 0 <= k < |accepted| ==> accepted[k] < |obs|
        invariant forall k :: 0 <= k < i ==> rows[k] == FinalRow(obs, k)
        invariant forall k :: i <= k < |rows| ==> rows[k] == FirstRow(obs, k)
        invariant kept == set k | 0 <= k < MAX_ACCEPTED :: (obs[accepted[k]].query, obs[accepted[k]].match_)
      {
        KeptByPair(obs, accepted, i, kept);
        if rows[i].accepted && (rows[i].query, rows[i].match_) !in kept {
          rows := rows[i := rows[i].(accepted := false, reason := "accepted_loop_limit")];
        }
      }
      accepted := accepted[..MAX_ACCEPTED];
    } else {
      forall i | 0 <= i < |obs| ensures rows[i] == FinalRow(obs, i) {
        assert Provisional(obs, i) ==> i in all;
      }
    }
  }

  /** Among first acceptable candidates the ordered pair identifies the row, so testing pairs tests membership. */
  lemma KeptByPair(obs: seq<Observation>, sorted: seq<nat>, i: nat, kept: set<(nat, nat)>)
    requires i < |obs| && sorted == SortBy(Provisionals(obs, |obs|), ByDistance(obs)) && |sorted| > MAX_ACCEPTED
    requires forall k :: 0 <= k < |sorted| ==> sorted[k] < |obs|
    requires kept == set k | 0 <= k < MAX_ACCEPTED :: (obs[sorted[k]].query, obs[sorted[k]].match_)
    ensures Provisional(obs, i) ==> ((obs[i].query, obs[i].match_) in kept <==> i in Chosen(obs))
  {
    hide ShouldAccept, SortBy;
    SortKeepsMembers(Provisionals(obs, |obs|), ByDistance(obs));
    if Provisional(obs, i) {
      if (obs[i].query, obs[i].match_) in kept {
        var k :| 0 <= k < MAX_ACCEPTED && (obs[sorted[k]].query, obs[sorted[k]].match_) == (obs[i].query, obs[i].match_);
        assert sorted[k] in sorted;
        OnePerPair(obs, i, sorted[k]);
        assert sorted[..MAX_ACCEPTED][k] == i;
      }
      if i in Chosen(obs) {
        var k :| 0 <= k < MAX_ACCEPTED && sorted[..MAX_ACCEPTED][k] == i;
        assert sorted[k] == i;
      }
    }
  }

  lemma OnePerPair(obs: seq<Observation>, i: nat, j: nat)
    requires i < |obs| && j < |obs| && Provisional(obs, i) && Provisional(obs, j) && PairOf(obs[i]) == PairOf(obs[j])
    ensures i == j
  {
    hide ShouldAccept;
  }

  // ---- what the selection guarantees ------------------------------------------------------------------

  lemma ChosenMembers(obs: seq<Observation>, i: nat)
    ensures i in Chosen(obs) ==> i < |obs| && Provisional(obs, i)
    ensures Distinct(Chosen(obs)) && |Chosen(obs)| <= MAX_ACCEPTED
  {
    hide ShouldAccept, SortBy;
    var sorted := SortBy(Provisionals(obs, |obs|), ByDistance(obs));
    SortKeepsMembers(Provisionals(obs, |obs|), ByDistance(obs));
    if i in Chosen(obs) {
      assert i in sorted;
    }
  }

  /** Flags, list, reasons and cap tell one story. */
  lemma SelectionIsConsistent(obs: seq<Observation>, i: nat)
    requires i < |obs|
    ensures FinalRow(obs, i).accepted <==> i in Chosen(obs)
    ensures FinalRow(obs, i).accepted <==> FinalRow(obs, i).reason == ""
    ensures FinalRow(obs, i).accepted ==> ShouldAccept(obs[i])
    ensures |Chosen(obs)| <= MAX_ACCEPTED
  {
    hide ShouldAccept, Chosen, Provisional;
    ChosenMembers(obs, i);
    ProvisionalAccepts(obs, i);
  }

  lemma ProvisionalAccepts(obs: seq<Observation>, i: nat)
    requires i < |obs|
    ensures Provisional(obs, i) ==> ShouldAccept(obs[i])
  {
  }

  /** No unordered keyframe pair is accepted twice. */
  lemma PairsAreUnique(obs: seq<Observation>, i: nat, j: nat)
    requires i < j < |Chosen(obs)|
    ensures Chosen(obs)[i] < |obs| && Chosen(obs)[j] < |obs|
    ensures var a, b := obs[Chosen(obs)[i]], obs[Chosen(obs)[j]];
            !(a.query == b.query && a.match_ == b.match_) && !(a.query == b.match_ && a.match_ == b.query)
  {
    hide ShouldAccept, Chosen, Provisional;
    var a, b := Chosen(obs)[i], Chosen(obs)[j];
    assert a in Chosen(obs) && b in Chosen(obs);
    ChosenMembers(obs, a);
    ChosenMembers(obs, b);
    if PairOf(obs[a]) == PairOf(obs[b]) {
      OnePerPair(obs, a, b);
    }
  }

  /** Every kept loop is at least as close as every loop dropped by the cap. */
  lemma CapKeepsNearest(obs: seq<Observation>, i: nat, j: nat)
    requires i < |obs| && j < |obs| && i in Chosen(obs) && FinalRow(obs, j).reason == "accepted_loop_limit"
    ensures obs[i].rounded <= obs[j].rounded
  {
    hide ShouldAccept, SortBy;
    var all := Provisionals(obs, |obs|);
    var sorted := SortBy(all, ByDistance(obs));
    SortKeepsMembers(all, ByDistance(obs));
    SortIsSorted(all, ByDistance(obs));
    assert j in sorted;
    var x :| 0 <= x < |Chosen(obs)| && Chosen(obs)[x] == i;
    var y :| 0 <= y < |sorted| && sorted[y] == j;
    assert sorted[x] == i;
    assert ByDistance(obs)(sorted[x]) <= ByDistance(obs)(sorted[y]);
  }

  /** The cap drops a loop only when thirty others are kept. */
  lemma CapOnlyWhenFull(obs: seq<Observation>, i: nat)
    requires i < |obs| && FinalRow(obs, i).reason == "accepted_loop_limit"
    ensures |Chosen(obs)| == 30
  {
    hide ShouldAccept, SortBy, Provisionals;
    SortKeepsMembers(Provisionals(obs, |obs|), ByDistance(obs));
  }

  /** The first acceptable candidate of a pair. */
  lemma FirstOfPair(obs: seq<Observation>, i: nat) returns (j: nat)
    requires i < |obs| && ShouldAccept(obs[i])
    ensures j <= i && Provisional(obs, j) && PairOf(obs[j]) == PairOf(obs[i])
  {
    hide ShouldAccept;
    if Provisional(obs, i) {
      j := i;
    } else {
      var k :| 0 <= k < i && ShouldAccept(obs[k]) && PairOf(obs[k]) == PairOf(obs[i]);
      j := FirstOfPair(obs, k);
    }
  }

  /** The same two keyframes, whichever of them asked. */
  predicate SamePair(a: Observation, b: Observation) {
    (a.query == b.query && a.match_ == b.match_) || (a.query == b.match_ && a.match_ == b.query)
  }

  /** No acceptable pair is lost: it is accepted once, unless the cap of thirty nearer ones took its place. */
  lemma PairsAreCovered(obs: seq<Observation>, i: nat)
    requires i < |obs| && ShouldAccept(obs[i])
    ensures exists j :: 0 <= j <= i && SamePair(obs[j], obs[i]) &&
                        (j in Chosen(obs) || FinalRow(obs, j).reason == "accepted_loop_limit")
  {
    hide ShouldAccept, Chosen, Provisional;
    var j := FirstOfPair(obs, i);
    ProvisionalAccepts(obs, j);
    assert SamePair(obs[j], obs[i]) && (j in Chosen(obs) || FinalRow(obs, j).reason == "accepted_loop_limit");
  }

  function Rejected(rows: seq<Row>): nat {
    if rows == [] then 0 else Rejected(rows[..|rows| - 1]) + if rows[|rows| - 1].accepted then 0 else 1
  }

  lemma {:induction false} RejectedCounts(rows: seq<Row>, flagged: set<int>)
    requires flagged == set i | 0 <= i < |rows| && rows[i].accepted
    ensures Rejected(rows) + |flagged| == |rows|
  {
    if rows != [] {
      var n := |rows| - 1;
      var init := rows[..n];
      forall i ensures i in flagged - {n} <==> 0 <= i < |init| && init[i].accepted {
        assert 0 <= i < n ==> init[i] == rows[i];
      }
      RejectedCounts(init, flagged - {n});
      if rows[n].accepted {
        assert flagged == (flagged - {n}) + {n};
      } else {
        assert flagged == flagged - {n};
      }
    }
  }

  lemma {:induction false} DistinctSize(xs: seq<nat>, members: set<int>)
    requires Distinct(xs) && members == set i | 0 <= i < |xs| :: xs[i] as int
    ensures |members| == |xs|
  {
    if xs != [] {
      var n := |xs| - 1;
      var init := xs[..n];
      var rest := set i | 0 <= i < n :: init[i] as int;
      DistinctSize(init, rest);
      assert members == rest + {xs[n]};
      assert xs[n] !in rest;
    }
  }

  /** Accepted plus rejected is the number of candidates. */
  lemma CountsAddUp(obs: seq<Observation>, rows: seq<Row>)
    requires |rows| == |obs| && forall i :: 0 <= i < |obs| ==> rows[i] == FinalRow(obs, i)
    ensures |Chosen(obs)| + Rejected(rows) == |rows|
  {
    hide ShouldAccept, Chosen, Provisional, FinalRow;
    var flagged := set i | 0 <= i < |rows| && rows[i].accepted;
    var members := set i | 0 <= i < |Chosen(obs)| :: Chosen(obs)[i] as int;
    RejectedCounts(rows, flagged);
    ChosenMembers(obs, 0);
    DistinctSize(Chosen(obs), members);
    forall i: int ensures i in flagged <==> i in members {
      if 0 <= i < |rows| {
        SelectionIsConsistent(obs, i);
      }
      if i in members {
        var k :| 0 <= k < |Chosen(obs)| && Chosen(obs)[k] as int == i;
        ChosenMembers(obs, Chosen(obs)[k]);
        SelectionIsConsistent(obs, Chosen(obs)[k]);
      }
    }
    assert flagged == members;
  }

  // ---- in numbers -------------------------------------------------------------------------------------------

  /** An accepted loop is the best match of its keyframe, verified, near in descriptor, place and heading, and not trivial. */
  lemma AcceptedMeans(obs: seq<Observation>, i: nat)
    requires i < |obs| && FinalRow(obs, i).accepted
    ensures var o := obs[i];
            && o.rank == 1 && o.geomOk && o.distance <= 0.3 && 2.0 <= o.slamXy <= 20.0
            && -0.6 <= o.yawError <= 0.6 && o.dx * o.dx + o.dy * o.dy <= 6.25
  {
    hide Chosen, Provisional;
    SelectionIsConsistent(obs, i);
  }

  /** Conversely such a candidate is accepted, unless an earlier one of its pair is or thirty nearer ones are. */
  lemma AcceptableIsAccepted(obs: seq<Observation>, i: nat)
    requires i < |obs|
    requires var o := obs[i];
             && o.rank == 1 && o.geomOk && o.distance <= 0.3 && 2.0 <= o.slamXy <= 20.0
             && -0.6 <= o.yawError <= 0.6 && o.dx * o.dx + o.dy * o.dy <= 6.25
    ensures FinalRow(obs, i).accepted || FinalRow(obs, i).reason == "duplicate_pair" || FinalRow(obs, i).reason == "accepted_loop_limit"
    ensures FinalRow(obs, i).reason == "duplicate_pair" ==>
              exists j :: 0 <= j < i && SamePair(obs[j], obs[i]) && ShouldAccept(obs[j])
  {
    hide Chosen;
    assert ShouldAccept(obs[i]);
    if FinalRow(obs, i).reason == "duplicate_pair" {
      var j :| 0 <= j < i && ShouldAccept(obs[j]) && PairOf(obs[j]) == PairOf(obs[i]);
      assert SamePair(obs[j], obs[i]);
    }
  }

  /** A row that fails the acceptance rule names the first test that it fails. */
  lemma ReasonIs(obs: seq<Observation>, i: nat)
    requires i < |obs| && !ShouldAccept(obs[i])
    ensures var o, r := obs[i], FinalRow(obs, i).reason;
            && (r == "not_top_rank" <==> o.rank != 1)
            && (r == "descriptor_distance" <==> o.rank == 1 && o.distance >= 0.3)
            && (r == "geometric_verification" <==> o.rank == 1 && o.distance < 0.3 && !o.geomOk)
            && (r == "slam_distance_too_near" <==> o.rank == 1 && o.distance < 0.3 && o.geomOk && o.slamXy < 2.0)
            && (r == "slam_distance_too_far" <==> o.rank == 1 && o.distance < 0.3 && o.geomOk && o.slamXy > 20.0)
  {
    hide Chosen, Provisional, ShouldAccept;
  }
}
