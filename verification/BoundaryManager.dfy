/**
 The boundary manager object: it holds the active boundary and the memory of the last
 observation. Its invariant carries the whole-run facts: folding every event ever emitted
 since the last map change gives the current sets, and the limit last reported as changed
 is the limit in force.
 */
module BoundaryManager {
  import opened Wrappers
  import opened Geometry
  import opened Polygon
  import opened PolygonDistance
  import opened Boundary
  import opened RouteSafety
  import opened ZoneEvents
  import RouteExactness

  datatype Command = Command(mapId: string, revision: int, outer: Polygon, safetyMargin: real, zones: seq<Zone>)

  /** What the speed watcher remembers: a limit (or none), or the marker left by a retry request. */
  datatype SpeedMemory = Known(limit: Option<real>) | Retry

  datatype Observation = Observation(
    violation: string, violationChanged: bool,
    speedLimit: Option<real>, speedChanged: bool, events: seq<Event>)

  function ActiveZones(zones: seq<Zone>): (r: seq<Zone>)
    ensures forall z :: z in r <==> z in zones && z.active
  {
    if zones == [] then []
    else (if zones[0].active then [zones[0]] else []) + ActiveZones(zones[1..])
  }

  /** Inactive zones are dropped and the others keep their order. */
  lemma {:induction false} ActiveZonesInOrder(a: seq<Zone>, b: seq<Zone>)
    ensures ActiveZones(a + b) == ActiveZones(a) + ActiveZones(b)
  {
    hide ActiveZones;
    if a == [] {
      assert a + b == b;
      NoZones();
    } else {
      assert (a + b)[1..] == a[1..] + b;
      FirstZone(a);
      FirstZone(a + b);
      ActiveZonesInOrder(a[1..], b);
      JoinAssociates(if a[0].active then [a[0]] else [], ActiveZones(a[1..]), ActiveZones(b));
    }
  }

  lemma JoinAssociates(x: seq<Zone>, y: seq<Zone>, z: seq<Zone>)
    ensures x + (y + z) == (x + y) + z
  {
  }

  lemma NoZones()
    ensures ActiveZones([]) == []
  {
  }

  lemma FirstZone(a: seq<Zone>)
    requires a != []
    ensures ActiveZones(a) == (if a[0].active then [a[0]] else []) + ActiveZones(a[1..])
  {
  }

  predicate UniqueKeys(zones: seq<Zone>) {
    forall i, j :: 0 <= i < j < |zones| ==> Key(zones[i]) != Key(zones[j])
  }

  /** Keys of the first k zones that contain p. */
  function Regions(zones: seq<Zone>, p: Point, k: nat): set<string>
    requires k <= |zones|
  {
    if k == 0 then {}
    else Regions(zones, p, k - 1) + if Inside(zones[k - 1].polygon, p) then {Key(zones[k - 1])} else {}
  }

  predicate IsNear(z: Zone, p: Point) {
    z.kind == Warning && !Inside(z.polygon, p) &&
    DistanceToPolygon(p, z.polygon).Within(if z.warningDistance > 0.0 then z.warningDistance else 0.0)
  }

  function NearKeys(zones: seq<Zone>, p: Point, k: nat): set<string>
    requires k <= |zones|
  {
    if k == 0 then {}
    else NearKeys(zones, p, k - 1) + if IsNear(zones[k - 1], p) then {Key(zones[k - 1])} else {}
  }

  predicate Limits(z: Zone, p: Point) {
    Inside(z.polygon, p) && z.kind == Restricted && z.speedLimit.Some?
  }

  function Tighter(a: Option<real>, b: real): Option<real> {
    if a.None? || b < a.value then Some(b) else a
  }

  /** Smallest limit among the restricted zones of the first k that contain p. */
  function SpeedLimit(zones: seq<Zone>, p: Point, k: nat): (r: Option<real>)
    requires k <= |zones|
    ensures r.None? <==> forall i :: 0 <= i < k ==> !Limits(zones[i], p)
    ensures r.Some? ==> exists i :: 0 <= i < k && Limits(zones[i], p) && zones[i].speedLimit == r
    ensures r.Some? ==> forall i :: 0 <= i < k && Limits(zones[i], p) ==> r.value <= zones[i].speedLimit.value
  {
    if k == 0 then None
    else
      var rest := SpeedLimit(zones, p, k - 1);
      if Limits(zones[k - 1], p) then Tighter(rest, zones[k - 1].speedLimit.value) else rest
  }

  /** The limit in force is the least one among the restricted zones around the pose that state one. */
  lemma SpeedLimitIs(zones: seq<Zone>, p: Point, limit: Option<real>)
    requires limit == SpeedLimit(zones, p, |zones|)
    ensures limit.None? <==> forall i :: 0 <= i < |zones| && zones[i].kind == Restricted && Inside(zones[i].polygon, p) ==> zones[i].speedLimit.None?
    ensures limit.Some? ==>
              && (exists i :: 0 <= i < |zones| && zones[i].kind == Restricted && Inside(zones[i].polygon, p) && zones[i].speedLimit == limit)
              && forall i :: 0 <= i < |zones| && zones[i].kind == Restricted && Inside(zones[i].polygon, p) && zones[i].speedLimit.Some? ==>
                   limit.value <= zones[i].speedLimit.value
  {
    hide Inside;
    if limit.Some? {
      var k :| 0 <= k < |zones| && Limits(zones[k], p) && zones[k].speedLimit == limit;
      assert zones[k].kind == Restricted;
    }
  }

  lemma {:induction false} RegionKeyWitness(zones: seq<Zone>, p: Point, k: nat, key: string)
    requires k <= |zones|
    ensures key in Regions(zones, p, k) <==> exists i :: 0 <= i < k && Inside(zones[i].polygon, p) && Key(zones[i]) == key
  {
    hide Inside;
    if k > 0 {
      RegionKeyWitness(zones, p, k - 1, key);
    }
  }

  lemma {:induction false} NearKeyWitness(zones: seq<Zone>, p: Point, k: nat, key: string)
    requires k <= |zones|
    ensures key in NearKeys(zones, p, k) <==> exists i :: 0 <= i < k && IsNear(zones[i], p) && Key(zones[i]) == key
  {
    hide IsNear;
    if k > 0 {
      NearKeyWitness(zones, p, k - 1, key);
    }
  }

  /** Near are the keys of warning zones that do not contain the pose but come within their warning distance. */
  lemma NearKeysAre(zones: seq<Zone>, p: Point, key: string)
    ensures key in NearKeys(zones, p, |zones|) <==>
              exists i :: 0 <= i < |zones| && Key(zones[i]) == key && zones[i].kind == Warning && !Inside(zones[i].polygon, p)
                          && DistanceToPolygon(p, zones[i].polygon).Within(if zones[i].warningDistance > 0.0 then zones[i].warningDistance else 0.0)
  {
    hide Inside, DistanceToPolygon, Distance.Within, NearKeys;
    NearKeyWitness(zones, p, |zones|, key);
    if key in NearKeys(zones, p, |zones|) {
      var i :| 0 <= i < |zones| && IsNear(zones[i], p) && Key(zones[i]) == key;
      assert zones[i].kind == Warning;
    }
    if i :| 0 <= i < |zones| && Key(zones[i]) == key && zones[i].kind == Warning && !Inside(zones[i].polygon, p)
            && DistanceToPolygon(p, zones[i].polygon).Within(if zones[i].warningDistance > 0.0 then zones[i].warningDistance else 0.0) {
      assert IsNear(zones[i], p);
    }
  }

  /** With distinct keys a zone is never both entered and near. */
  lemma RegionsAndNearDisjoint(zones: seq<Zone>, p: Point)
    requires UniqueKeys(zones)
    ensures Regions(zones, p, |zones|) !! NearKeys(zones, p, |zones|)
  {
    hide Inside;
    forall key | key in Regions(zones, p, |zones|) ensures key !in NearKeys(zones, p, |zones|) {
      RegionKeyWitness(zones, p, |zones|, key);
      NearKeyWitness(zones, p, |zones|, key);
    }
  }

  /** The `_last_*` fields. */
  datatype Memory = Memory(regions: set<string>, near: set<string>, violation: string, speed: SpeedMemory)

  const BLANK := Memory({}, {}, "", Known(None))

  /** What a consumer of the observations has been told since the last map change. */
  datatype Ledger = Ledger(emitted: seq<Event>, reportedSpeed: Option<real>, distinctKeys: bool)

  /** One observation on the active map: the report and the memory it leaves. */
  ghost predicate Reports(b: Boundary, p: Point, before: Memory, after: Memory, o: Observation) {
    var n := |b.zones|;
    && after == Memory(Regions(b.zones, p, n), NearKeys(b.zones, p, n), o.violation, Known(o.speedLimit))
    && StepEvents(o.events, before.regions, after.regions, before.near, after.near)
    && o.violation == Violation(b, p)
    && (o.violation == "" <==> Admits(b, p))
    && (o.violationChanged <==> o.violation != before.violation)
    && o.speedLimit == SpeedLimit(b.zones, p, n)
    && (o.speedChanged <==> before.speed != after.speed)
  }

  /** The memory is what folding the reports gives; the near half needs distinct zone keys. */
  ghost predicate Reconstructed(zones: seq<Zone>, last: Memory, told: Ledger) {
    && FoldRegions({}, told.emitted) == last.regions
    && (told.distinctKeys ==> UniqueKeys(zones) && last.regions !! last.near && FoldNear({}, told.emitted) == last.near)
    && (last.speed.Known? ==> last.speed.limit == told.reportedSpeed)
  }

  lemma ObservationReconstructs(b: Boundary, p: Point, before: Memory, after: Memory, o: Observation, told: Ledger)
    requires Reconstructed(b.zones, before, told) && Reports(b, p, before, after, o)
    ensures Reconstructed(b.zones, after, told.(
              emitted := told.emitted + o.events,
              reportedSpeed := if o.speedChanged then o.speedLimit else told.reportedSpeed))
  {
    hide Regions, NearKeys, SpeedLimit, FoldRegions, FoldNear, Violation, Admits, StepEvents, UniqueKeys;
    RunReconstructed(told.emitted, o.events, before.regions, after.regions, before.near, after.near);
    if told.distinctKeys {
      RegionsAndNearDisjoint(b.zones, p);
      NearRunReconstructed(told.emitted, o.events, before.regions, after.regions, before.near, after.near);
    }
  }

  ghost predicate SampledOn(a: Point, b: Point, p: Point) {
    exists j :: 1 <= j < SampleCount(a, b) && Sample(a, b, j, SampleCount(a, b)) == p
  }

  /** The points a route is judged by: its waypoints and the interior samples of its legs. */
  ghost predicate Visited(waypoints: seq<Point>, p: Point) {
    p in waypoints || exists i :: 0 <= i < |waypoints| - 1 && SampledOn(waypoints[i], waypoints[i + 1], p)
  }

  predicate WellFormed(c: Command) {
    c.mapId != "" && c.revision > 0 && |c.outer| >= 3
  }

  // ---- what is in force over time -----------------------------------------------------------------------

  /** What may happen to the manager; only the first two touch the boundary. */
  datatype Order = Applying(command: Command) | Activating(mapId: string) | Watching | Checking

  function InForce(active: Boundary, o: Order): Boundary {
    match o
    case Applying(c) =>
      if WellFormed(c) then Boundary(c.mapId, c.revision, c.outer, c.safetyMargin, ActiveZones(c.zones)) else active
    case Activating(mapId) => if active.mapId == mapId then active else NONE
    case _ => active
  }

  function InForceAfter(active: Boundary, orders: seq<Order>): Boundary {
    if orders == [] then active else InForce(InForceAfter(active, orders[..|orders| - 1]), orders[|orders| - 1])
  }

  /** Nothing that replaces the boundary of this map. */
  predicate Leaves(o: Order, mapId: string) {
    (o.Applying? ==> !WellFormed(o.command)) && (o.Activating? ==> o.mapId == mapId)
  }

  lemma {:induction false} BoundaryLasts(b: Boundary, orders: seq<Order>)
    requires forall i :: 0 <= i < |orders| ==> Leaves(orders[i], b.mapId)
    ensures InForceAfter(b, orders) == b
  {
    if orders != [] {
      BoundaryLasts(b, orders[..|orders| - 1]);
    }
  }

  /**
   From a well-formed command on, until the next one or another map, a call on its map that
   expects a revision is a mismatch exactly when it expects another one.
   */
  lemma RevisionAnswers(active: Boundary, c: Command, orders: seq<Order>, p: Point, expected: int)
    requires WellFormed(c) && forall i :: 0 <= i < |orders| ==> Leaves(orders[i], c.mapId)
    ensures var b := InForceAfter(InForce(active, Applying(c)), orders);
            PointVerdict(b, c.mapId, p, expected).RevisionMismatch? <==> expected != 0 && expected != c.revision
  {
    hide PointVerdict, Leaves;
    BoundaryLasts(InForce(active, Applying(c)), orders);
  }

  class NavigationBoundaryManager {
    var active: Boundary
    var last: Memory
    ghost var told: Ledger

    ghost predicate Valid()
      reads this
    {
      (active == NONE || Applied(active)) && Reconstructed(active.zones, last, told)
    }

    constructor ()
      ensures Valid() && active == NONE && last == BLANK && told == Ledger([], None, true)
    {
      active, last, told := NONE, BLANK, Ledger([], None, true);
    }

    /**
     The boundary is in force as soon as the command is well formed. When writing the mask or
     recording the boundary then raises, the command is refused although it has taken effect.
     */
    method Apply(c: Command, maskWritten: bool, recorded: bool) returns (v: Verdict)
      requires Valid()
      modifies this
      ensures Valid() && last == old(last) && active == InForce(old(active), Applying(c))
      ensures v == if !WellFormed(c) then Invalid else if !(maskWritten && recorded) then NotRecorded else Accepted
      ensures WellFormed(c) ==>
                && Applied(active)
                && active == Boundary(c.mapId, c.revision, c.outer, c.safetyMargin, ActiveZones(c.zones))
                && told == old(told).(distinctKeys := old(told).distinctKeys && UniqueKeys(active.zones))
      ensures !WellFormed(c) ==> active == old(active) && told == old(told)
    {
      if c.mapId == "" || c.revision <= 0 || |c.outer| < 3 {
        return Invalid;
      }
      active := Boundary(c.mapId, c.revision, c.outer, c.safetyMargin, ActiveZones(c.zones));
      told := told.(distinctKeys := told.distinctKeys && UniqueKeys(active.zones));
      if !maskWritten || !recorded {
        return NotRecorded;
      }
      return Accepted;
    }

    /**
     A different map drops the boundary and starts a new event stream. When recording that
     raises, the boundary is gone but the memory and the stream are not reset.
     */
    method ActivateMap(mapId: string, recorded: bool) returns (changed: bool)
      requires Valid()
      modifies this
      ensures Valid() && changed == (old(active).mapId != mapId && recorded) && active == InForce(old(active), Activating(mapId))
      ensures old(active).mapId != mapId ==> active == NONE
      ensures changed ==> last == BLANK && told == Ledger([], None, true)
      ensures !changed ==> last == old(last) && told == old(told)
      ensures old(active).mapId == mapId ==> active == old(active)
    {
      if active.mapId == mapId {
        return false;
      }
      active := NONE;
      if !recorded {
        return false;
      }
      last, told := BLANK, Ledger([], None, true);
      return true;
    }

    method ValidatePoint(mapId: string, p: Point, expected: int) returns (v: Verdict)
      ensures v == PointVerdict(active, mapId, p, expected)
    {
      hide Inside, DistanceToPolygon;
      if !RevisionOk(active, mapId, expected) {
        return RevisionMismatch;
      }
      if active.mapId != mapId {
        return Accepted;
      }
      var margin := Margin(active);
      if active.outer != [] {
        var inside := PointInPolygon(p, active.outer);
        if !inside || DistanceToPolygon(p, active.outer).Below(margin) {
          return OutsideBoundary;
        }
      }
      for k := 0 to |active.zones|
        invariant FirstBlocking(active.zones, p, margin) == FirstBlocking(active.zones[k..], p, margin)
      {
        var z := active.zones[k];
        var inside := PointInPolygon(p, z.polygon);
        if z.kind == Forbidden && (inside || DistanceToPolygon(p, z.polygon).Below(margin)) {
          return InForbiddenZone(z.name);
        }
        assert active.zones[k..][1..] == active.zones[k + 1..];
      }
      return Accepted;
    }

    /** Route admission: accepted exactly when every waypoint and every interior sample is. */
    method ValidateRoute(mapId: string, waypoints: seq<Point>, expected: int) returns (v: Verdict)
      ensures v.RevisionMismatch? <==> expected != 0 && (active.mapId != mapId || active.revision != expected)
      ensures v.Accepted? <==> !v.RevisionMismatch? && (active.mapId == mapId ==> RouteAdmitted(active, waypoints))
      ensures v.Accepted? && active.mapId == mapId ==> forall i :: 0 <= i < |waypoints| ==> Admits(active, waypoints[i])
      ensures !v.Accepted? && !v.RevisionMismatch? ==> exists p :: Visited(waypoints, p) && PointVerdict(active, mapId, p, expected) == v
    {
      hide Admits, SampleCount, PointVerdict, Sample;
      if !RevisionOk(active, mapId, expected) {
        return RevisionMismatch;
      }
      for i := 0 to |waypoints|
        invariant active.mapId == mapId ==> forall k :: 0 <= k < i ==> Admits(active, waypoints[k])
      {
        v := ValidatePoint(mapId, waypoints[i], expected);
        assert Visited(waypoints, waypoints[i]);
        if !v.Accepted? {
          return;
        }
      }
      var i := 0;
      while i + 1 < |waypoints|
        invariant i == 0 || i < |waypoints|
        invariant active.mapId == mapId ==> forall k :: 0 <= k < i ==> LegAdmitted(active, waypoints[k], waypoints[k + 1])
      {
        var a, b := waypoints[i], waypoints[i + 1];
        var n := SampleCount(a, b);
        for j := 1 to n
          invariant active.mapId == mapId ==> forall k :: 1 <= k < j ==> Admits(active, Sample(a, b, k, n))
        {
          v := ValidatePoint(mapId, Sample(a, b, j, n), expected);
          assert SampledOn(waypoints[i], waypoints[i + 1], Sample(a, b, j, n));
          assert Visited(waypoints, Sample(a, b, j, n));
          if !v.Accepted? {
            return;
          }
        }
        i := i + 1;
      }
      return Accepted;
    }

    method RetrySpeedApplication()
      requires Valid()
      modifies this`last
      ensures Valid() && last == old(last).(speed := Retry)
    {
      last := last.(speed := Retry);
    }

    method RetryViolationStop()
      requires Valid()
      modifies this`last
      ensures Valid() && last == old(last).(violation := "")
    {
      last := last.(violation := "");
    }

    /**
     One pose. On the active map the observation reports the violation, the tightest limit
     and the events that lead from the remembered sets to the current ones; elsewhere it
     reports nothing and remembers nothing.
     */
    method ObservePose(mapId: string, p: Point) returns (o: Observation)
      requires Valid()
      modifies this`last, this`told
      ensures Valid()
      ensures active == NONE || active.mapId != mapId ==>
                o == Observation("", false, None, false, []) && last == old(last) && told == old(told)
      ensures active != NONE && active.mapId == mapId ==>
                && Reports(active, p, old(last), last, o)
                && told == old(told).(emitted := old(told).emitted + o.events, reportedSpeed := o.speedLimit)
    {
      hide Inside, Violation, Admits, Regions, NearKeys, SpeedLimit, Batch, StepEvents, Reconstructed;
      if active == NONE || active.mapId != mapId {
        return Observation("", false, None, false, []);
      }
      var violation, regions, near, limit := Scan(active, p);
      var entered := Emit(Entered, regions - last.regions);
      var exited := Emit(Exited, last.regions - regions);
      var approaching := Emit(Approaching, near - last.near);
      var cleared := Emit(ApproachCleared, last.near - near - regions);
      var events := entered + exited + approaching + cleared;
      FourBatches(entered, exited, approaching, cleared, last.regions, regions, last.near, near);
      WatchdogAgreesWithAdmission(active, p);
      o := Observation(violation, violation != last.violation, limit, Known(limit) != last.speed, events);
      var after := Memory(regions, near, violation, Known(limit));
      ObservationReconstructs(active, p, last, after, o, told);
      SpeedToldUnchanged(active.zones, last, told, limit);
      told := told.(emitted := told.emitted + events, reportedSpeed := if o.speedChanged then limit else told.reportedSpeed);
      last := after;
    }
  }

  lemma SpeedToldUnchanged(zones: seq<Zone>, last: Memory, told: Ledger, limit: Option<real>)
    requires Reconstructed(zones, last, told)
    ensures last.speed == Known(limit) ==> told.reportedSpeed == limit
  {
  }

  /** The zone loop of `observe_pose`, followed by its second, margin-only pass. */
  method Scan(b: Boundary, p: Point)
    returns (violation: string, regions: set<string>, near: set<string>, limit: Option<real>)
    ensures violation == Violation(b, p)
    ensures regions == Regions(b.zones, p, |b.zones|)
    ensures near == NearKeys(b.zones, p, |b.zones|)
    ensures limit == SpeedLimit(b.zones, p, |b.zones|)
  {
    hide Inside, DistanceToPolygon;
    var inside := PointInPolygon(p, b.outer);
    violation := if !inside || DistanceToPolygon(p, b.outer).Below(Margin(b)) then "outside_boundary" else "";
    regions, near, limit := {}, {}, None;
    for k := 0 to |b.zones|
      invariant violation == ZoneViolation(b.zones, p, k, OuterViolation(b, p))
      invariant regions == Regions(b.zones, p, k)
      invariant near == NearKeys(b.zones, p, k)
      invariant limit == SpeedLimit(b.zones, p, k)
    {
      var z := b.zones[k];
      inside := PointInPolygon(p, z.polygon);
      if IsNear(z, p) {
        near := near + {Key(z)};
      }
      if inside {
        regions := regions + {Key(z)};
        if z.kind == Forbidden {
          violation := "forbidden:" + Key(z);
        } else if z.kind == Restricted && z.speedLimit.Some? {
          limit := Tighter(limit, z.speedLimit.value);
        }
      }
    }
    if violation == "" {
      for k := 0 to |b.zones|
        invariant violation == ""
        invariant MarginViolation(b.zones, p, Margin(b), 0) == MarginViolation(b.zones, p, Margin(b), k)
      {
        if b.zones[k].kind == Forbidden && DistanceToPolygon(p, b.zones[k].polygon).Below(Margin(b)) {
          return "forbidden:" + Key(b.zones[k]), regions, near, limit;
        }
      }
    }
  }

  lemma FourBatches(a: seq<Event>, b: seq<Event>, c: seq<Event>, d: seq<Event>, regions: set<string>, regions': set<string>, near: set<string>, near': set<string>)
    requires Batch(a, Entered, regions' - regions) && Batch(b, Exited, regions - regions')
    requires Batch(c, Approaching, near' - near) && Batch(d, ApproachCleared, near - near' - regions')
    ensures StepEvents(a + b + c + d, regions, regions', near, near')
  {
  }

  lemma RunReconstructed(past: seq<Event>, events: seq<Event>, regions: set<string>, regions': set<string>, near: set<string>, near': set<string>)
    requires FoldRegions({}, past) == regions && StepEvents(events, regions, regions', near, near')
    ensures FoldRegions({}, past + events) == regions'
  {
    FoldRegionsConcat({}, past, events);
    RegionsReconstructed(events, regions, regions', near, near');
  }

  lemma NearRunReconstructed(past: seq<Event>, events: seq<Event>, regions: set<string>, regions': set<string>, near: set<string>, near': set<string>)
    requires FoldNear({}, past) == near && StepEvents(events, regions, regions', near, near')
    requires regions !! near && regions' !! near'
    ensures FoldNear({}, past + events) == near'
  {
    FoldNearConcat({}, past, events);
    NearReconstructed(events, regions, regions', near, near');
  }

  // ---- two zones with one key --------------------------------------------------------------------------

  const ORIGIN := Point(0.0, 0.0)
  const ASIDE := Point(5.0, 5.0)

  /** A warning around the origin and a speed limit at the origin, both under the key "a". */
  const TWINS := [
    Zone("a", "warning", Warning, [ORIGIN, ORIGIN], 100.0, None, true),
    Zone("a", "slow", Restricted, RouteExactness.Square(ORIGIN, 1.0), 0.0, Some(0.3), true)]

  lemma PointDistance(p: Point)
    requires p == ORIGIN || p == ASIDE
    ensures SegmentDist2(p, ORIGIN, ORIGIN) <= 50.0
  {
    assert Lerp(ORIGIN, ORIGIN, NearestRatio(p, ORIGIN, ORIGIN)) == ORIGIN;
  }

  lemma DotDistance(p: Point)
    requires p == ORIGIN || p == ASIDE
    ensures DistanceToPolygon(p, [ORIGIN, ORIGIN]).Within(100.0) && !Inside([ORIGIN, ORIGIN], p)
  {
    hide SegmentDist2, OddCrossings;
    var poly := [ORIGIN, ORIGIN];
    PointDistance(p);
    assert Next(poly, 0) == ORIGIN && Next(poly, 1) == ORIGIN;
    assert EdgeMin(poly, p, 1) <= 50.0;
    assert EdgeMin(poly, p, 2) <= 50.0;
  }

  lemma TwinWarningIsNear(p: Point)
    requires p == ORIGIN || p == ASIDE
    ensures IsNear(TWINS[0], p) && !IsNear(TWINS[1], p)
  {
    hide Inside, DistanceToPolygon, Distance.Within;
    DotDistance(p);
  }

  lemma AsideIsOutside()
    ensures !Inside(RouteExactness.Square(ORIGIN, 1.0), ASIDE)
  {
    var poly := RouteExactness.Square(ORIGIN, 1.0);
    assert forall k :: 0 <= k < 4 ==> poly[k].y < 5.0;
    assert CrossingCount(poly, ASIDE, 1) == 0;
    assert CrossingCount(poly, ASIDE, 2) == 0;
    assert CrossingCount(poly, ASIDE, 3) == 0;
    assert CrossingCount(poly, ASIDE, 4) == 0;
  }

  lemma TwoZones(zones: seq<Zone>, p: Point)
    requires |zones| == 2 && Key(zones[0]) == Key(zones[1])
    ensures Regions(zones, p, 2) == if Inside(zones[0].polygon, p) || Inside(zones[1].polygon, p) then {Key(zones[0])} else {}
    ensures NearKeys(zones, p, 2) == if IsNear(zones[0], p) || IsNear(zones[1], p) then {Key(zones[0])} else {}
  {
    hide Inside, IsNear, Key;
    assert Regions(zones, p, 0) == {} && NearKeys(zones, p, 0) == {};
    assert Regions(zones, p, 1) == if Inside(zones[0].polygon, p) then {Key(zones[0])} else {};
    assert NearKeys(zones, p, 1) == if IsNear(zones[0], p) then {Key(zones[0])} else {};
  }

  lemma TwinSets()
    ensures Regions(TWINS, ASIDE, 2) == {} && Regions(TWINS, ORIGIN, 2) == {"a"}
    ensures NearKeys(TWINS, ASIDE, 2) == {"a"} && NearKeys(TWINS, ORIGIN, 2) == {"a"}
  {
    hide Inside, IsNear, Regions, NearKeys, RouteExactness.Square;
    TwinWarningIsNear(ASIDE);
    TwinWarningIsNear(ORIGIN);
    AsideIsOutside();
    RouteExactness.SquareContains(ORIGIN, 1.0, ORIGIN);
    DotDistance(ASIDE);
    DotDistance(ORIGIN);
    assert Key(TWINS[0]) == "a" && Key(TWINS[1]) == "a";
    TwoZones(TWINS, ASIDE);
    TwoZones(TWINS, ORIGIN);
  }

  /** Driving into the limit while the warning still holds: the entered event erases a warning that stays in force. */
  lemma SharedKeyLosesWarning(es: seq<Event>)
    requires StepEvents(es, Regions(TWINS, ASIDE, 2), Regions(TWINS, ORIGIN, 2), NearKeys(TWINS, ASIDE, 2), NearKeys(TWINS, ORIGIN, 2))
    ensures FoldNear(NearKeys(TWINS, ASIDE, 2), es) != NearKeys(TWINS, ORIGIN, 2)
  {
    hide Regions, NearKeys, FoldNear, StepEvents;
    TwinSets();
    NearReconstructed(es, Regions(TWINS, ASIDE, 2), Regions(TWINS, ORIGIN, 2), NearKeys(TWINS, ASIDE, 2), NearKeys(TWINS, ORIGIN, 2));
    assert "a" in ({"a"} * {"a"}) * ({"a"} - {});
  }
}
