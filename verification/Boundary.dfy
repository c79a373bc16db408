/**
 The navigation boundary: what admission accepts, what the runtime watchdog reports and
 what the raster mask leaves free. Each layer is written from its own copy of the test.
 */
module Boundary {
  import opened Wrappers
  import opened Geometry
  import opened Polygon
  import opened PolygonDistance

  datatype ZoneKind = Forbidden | Restricted | Warning | OtherKind

  datatype Zone = Zone(
    id: string, name: string, kind: ZoneKind, polygon: Polygon,
    warningDistance: real, speedLimit: Option<real>, active: bool)

  function Key(z: Zone): (k: string)
    ensures k != ""
  {
    if z.id != "" then z.id else if z.name != "" then z.name else "zone"
  }

  datatype Boundary = Boundary(mapId: string, revision: int, outer: Polygon, safetyMargin: real, zones: seq<Zone>)

  /** No boundary published: the source's empty dictionary. */
  const NONE := Boundary("", 0, [], 0.0, [])

  function Margin(b: Boundary): (m: real)
    ensures m >= 0.0 && m >= b.safetyMargin && (m == 0.0 || m == b.safetyMargin)
  {
    if b.safetyMargin > 0.0 then b.safetyMargin else 0.0
  }

  predicate Blocks(z: Zone, p: Point, m: real) {
    z.kind == Forbidden && (Inside(z.polygon, p) || DistanceToPolygon(p, z.polygon).Below(m))
  }

  /** Admission, as `validate_point` decides it on the active map. */
  predicate Admits(b: Boundary, p: Point) {
    (b.outer == [] || (Inside(b.outer, p) && !DistanceToPolygon(p, b.outer).Below(Margin(b)))) &&
    forall i :: 0 <= i < |b.zones| ==> !Blocks(b.zones[i], p, Margin(b))
  }

  datatype Verdict = Accepted | Invalid | NotRecorded | RevisionMismatch | OutsideBoundary | InForbiddenZone(zone: string)

  function FirstBlocking(zones: seq<Zone>, p: Point, m: real): (v: Verdict)
    ensures v.Accepted? <==> forall i :: 0 <= i < |zones| ==> !Blocks(zones[i], p, m)
    ensures v.Accepted? || v.InForbiddenZone?
    ensures v.InForbiddenZone? ==>
              exists i :: 0 <= i < |zones| && Blocks(zones[i], p, m) && v.zone == zones[i].name && forall j :: 0 <= j < i ==> !Blocks(zones[j], p, m)
  {
    if zones == [] then Accepted
    else if Blocks(zones[0], p, m) then InForbiddenZone(zones[0].name)
    else
      assert forall i :: 0 <= i < |zones| - 1 ==> zones[1..][i] == zones[i + 1];
      assert forall i :: 1 <= i < |zones| ==> zones[i] == zones[1..][i - 1];
      var v := FirstBlocking(zones[1..], p, m);
      assert v.InForbiddenZone? ==>
               exists i :: 1 <= i < |zones| && Blocks(zones[i], p, m) && v.zone == zones[i].name && forall j :: 0 <= j < i ==> !Blocks(zones[j], p, m) by {
        if v.InForbiddenZone? {
          var i :| 0 <= i < |zones| - 1 && Blocks(zones[1..][i], p, m) && v.zone == zones[1..][i].name && forall j :: 0 <= j < i ==> !Blocks(zones[1..][j], p, m);
          assert Blocks(zones[i + 1], p, m) && v.zone == zones[i + 1].name;
          forall j | 0 <= j < i + 1 ensures !Blocks(zones[j], p, m) {
            assert j > 0 ==> !Blocks(zones[1..][j - 1], p, m);
          }
        }
      }
      v
  }

  predicate RevisionOk(active: Boundary, mapId: string, expected: int) {
    expected == 0 || (active.mapId == mapId && active.revision == expected)
  }

  function PointVerdict(active: Boundary, mapId: string, p: Point, expected: int): (v: Verdict)
    ensures v.RevisionMismatch? <==> expected != 0 && (active.mapId != mapId || active.revision != expected)
    ensures v.Accepted? <==> !v.RevisionMismatch? && (active.mapId == mapId ==> Admits(active, p))
    ensures v.OutsideBoundary? <==>
              && !v.RevisionMismatch? && active.mapId == mapId && active.outer != []
              && (!Inside(active.outer, p) || DistanceToPolygon(p, active.outer).Below(Margin(active)))
  {
    if !RevisionOk(active, mapId, expected) then RevisionMismatch
    else if active.mapId != mapId then Accepted
    else if active.outer != [] &&
            (!Inside(active.outer, p) || DistanceToPolygon(p, active.outer).Below(Margin(active)))
    then OutsideBoundary
    else FirstBlocking(active.zones, p, Margin(active))
  }

  // ---- the raster mask -------------------------------------------------------------

  predicate MaskBlocksZone(z: Zone, p: Point, m: real) {
    z.active && z.kind == Forbidden &&
    (OddCrossings(z.polygon, p) || MaskPolygonDistance(p, z.polygon).Below(m))
  }

  /** One cell of `write_keepout_mask`, from the mask writer's own copies of the two tests. */
  predicate MaskFree(b: Boundary, p: Point) {
    OddCrossings(b.outer, p) && !MaskPolygonDistance(p, b.outer).Below(Margin(b)) &&
    forall i :: 0 <= i < |b.zones| ==> !MaskBlocksZone(b.zones[i], p, Margin(b))
  }

  /** Boundaries `apply` lets through: three outer vertices and only active zones. */
  predicate Applied(b: Boundary) {
    b.mapId != "" && b.revision > 0 && |b.outer| >= 3 && forall i :: 0 <= i < |b.zones| ==> b.zones[i].active
  }

  lemma MaskAgreesWithAdmission(b: Boundary, p: Point)
    requires Applied(b)
    ensures MaskFree(b, p) <==> Admits(b, p)
  {
    InsideCopiesAgree(b.outer, p);
    DistanceCopiesAgree(p, b.outer);
    forall i | 0 <= i < |b.zones|
      ensures MaskBlocksZone(b.zones[i], p, Margin(b)) <==> Blocks(b.zones[i], p, Margin(b))
    {
      InsideCopiesAgree(b.zones[i].polygon, p);
      DistanceCopiesAgree(p, b.zones[i].polygon);
    }
  }

  // ---- the runtime watchdog --------------------------------------------------------

  /** The violation text after the first k zones: the last forbidden zone entered wins. */
  function ZoneViolation(zones: seq<Zone>, p: Point, k: nat, outer: string): (v: string)
    requires k <= |zones|
    ensures v == "" <==> outer == "" && forall i :: 0 <= i < k ==> !(zones[i].kind == Forbidden && Inside(zones[i].polygon, p))
  {
    if k == 0 then outer
    else
      var z := zones[k - 1];
      if z.kind == Forbidden && Inside(z.polygon, p) then "forbidden:" + Key(z)
      else ZoneViolation(zones, p, k - 1, outer)
  }

  /** The first forbidden zone from index k on whose edges are within the margin. */
  function MarginViolation(zones: seq<Zone>, p: Point, m: real, k: nat): (v: string)
    requires k <= |zones|
    ensures v == "" <==> forall i :: k <= i < |zones| ==> !(zones[i].kind == Forbidden && DistanceToPolygon(p, zones[i].polygon).Below(m))
    decreases |zones| - k
  {
    if k == |zones| then ""
    else if zones[k].kind == Forbidden && DistanceToPolygon(p, zones[k].polygon).Below(m) then "forbidden:" + Key(zones[k])
    else MarginViolation(zones, p, m, k + 1)
  }

  function OuterViolation(b: Boundary, p: Point): string {
    if !Inside(b.outer, p) || DistanceToPolygon(p, b.outer).Below(Margin(b)) then "outside_boundary" else ""
  }

  function Violation(b: Boundary, p: Point): string {
    var v := ZoneViolation(b.zones, p, |b.zones|, OuterViolation(b, p));
    if v != "" then v else MarginViolation(b.zones, p, Margin(b), 0)
  }

  lemma WatchdogAgreesWithAdmission(b: Boundary, p: Point)
    requires b.outer != []
    ensures Violation(b, p) == "" <==> Admits(b, p)
  {
    var v := ZoneViolation(b.zones, p, |b.zones|, OuterViolation(b, p));
    if v == "" && MarginViolation(b.zones, p, Margin(b), 0) == "" {
      assert forall i :: 0 <= i < |b.zones| ==> !Blocks(b.zones[i], p, Margin(b));
    }
    if Admits(b, p) {
      assert forall i :: 0 <= i < |b.zones| ==> !Blocks(b.zones[i], p, Margin(b));
    }
  }

  /** The violation names its cause: the last forbidden zone entered, else the outer boundary, else the first zone too close. */
  lemma ViolationNames(b: Boundary, p: Point)
    ensures forall i :: 0 <= i < |b.zones| && Enters(b.zones[i], p) && (forall j :: i < j < |b.zones| ==> !Enters(b.zones[j], p)) ==>
              Violation(b, p) == "forbidden:" + Key(b.zones[i])
    ensures (forall i :: 0 <= i < |b.zones| ==> !Enters(b.zones[i], p)) ==>
              (Violation(b, p) == "outside_boundary" <==> !Inside(b.outer, p) || DistanceToPolygon(p, b.outer).Below(Margin(b)))
  {
    forall i | 0 <= i < |b.zones| && Enters(b.zones[i], p) && (forall j :: i < j < |b.zones| ==> !Enters(b.zones[j], p))
      ensures Violation(b, p) == "forbidden:" + Key(b.zones[i])
    {
      LastEntered(b.zones, p, |b.zones|, i, OuterViolation(b, p));
    }
    if forall i :: 0 <= i < |b.zones| ==> !Enters(b.zones[i], p) {
      NoneEntered(b.zones, p, |b.zones|, OuterViolation(b, p));
      MarginText(b.zones, p, Margin(b), 0);
    }
  }

  predicate Enters(z: Zone, p: Point) {
    z.kind == Forbidden && Inside(z.polygon, p)
  }

  lemma {:induction false} LastEntered(zones: seq<Zone>, p: Point, k: nat, i: nat, outer: string)
    requires i < k <= |zones| && Enters(zones[i], p) && forall j :: i < j < k ==> !Enters(zones[j], p)
    ensures ZoneViolation(zones, p, k, outer) == "forbidden:" + Key(zones[i])
  {
    hide Inside;
    if k > i + 1 {
      assert !Enters(zones[k - 1], p);
      LastEntered(zones, p, k - 1, i, outer);
    }
  }

  lemma {:induction false} NoneEntered(zones: seq<Zone>, p: Point, k: nat, outer: string)
    requires k <= |zones| && forall j :: 0 <= j < k ==> !Enters(zones[j], p)
    ensures ZoneViolation(zones, p, k, outer) == outer
  {
    hide Inside;
    if k > 0 {
      assert !Enters(zones[k - 1], p);
      NoneEntered(zones, p, k - 1, outer);
    }
  }

  lemma {:induction false} MarginText(zones: seq<Zone>, p: Point, m: real, k: nat)
    requires k <= |zones|
    ensures MarginViolation(zones, p, m, k) != "outside_boundary"
    decreases |zones| - k
  {
    hide DistanceToPolygon;
    if k < |zones| {
      MarginText(zones, p, m, k + 1);
      assert ("forbidden:" + Key(zones[k]))[0] == 'f' && "outside_boundary"[0] == 'o';
    }
  }

  /** The three enforcement layers give one answer everywhere. */
  lemma ThreeLayersAgree(b: Boundary, p: Point, expected: int)
    requires Applied(b) && (expected == 0 || expected == b.revision)
    ensures MaskFree(b, p) <==> PointVerdict(b, b.mapId, p, expected).Accepted?
    ensures MaskFree(b, p) <==> Violation(b, p) == ""
  {
    MaskAgreesWithAdmission(b, p);
    WatchdogAgreesWithAdmission(b, p);
  }
}
