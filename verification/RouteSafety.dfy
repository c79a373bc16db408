/**
 What a sampled route check buys. `validate_route` tests a leg only at points up to 5 cm
 apart; here the accepted leg is shown safe at every point, with the margin shrunk by half
 a sampling step, and the condition for that is shown to be exact.
 */
module RouteSafety {
  import opened Geometry
  import opened Polygon
  import opened PolygonDistance
  import opened Boundary

  const STEP := 0.05
  const MAX_SAMPLES := 2000

  /** The squared length that k steps of 5 cm cover. */
  function Reach2(k: nat): real {
    (k as real * STEP) * (k as real * STEP)
  }

  function SamplesFrom(d2: real, n: nat): (r: nat)
    requires 1 <= n <= MAX_SAMPLES
    ensures n <= r <= MAX_SAMPLES
    ensures r < MAX_SAMPLES ==> Reach2(r) >= d2
    ensures forall k :: n <= k < r ==> Reach2(k) < d2
    decreases MAX_SAMPLES - n
  {
    if n == MAX_SAMPLES || Reach2(n) >= d2 then n else SamplesFrom(d2, n + 1)
  }

  /** min(2000, max(1, ceil(length / 0.05))) read off the squared length. */
  function SampleCount(a: Point, b: Point): (n: nat)
    ensures 1 <= n <= MAX_SAMPLES
  {
    SamplesFrom(Dist2(b, a), 1)
  }

  function Ceil(x: real): int {
    -((-x).Floor)
  }

  /** The squared form computes exactly the count the source computes from the length. */
  lemma SampleCountIsCeiling(a: Point, b: Point, length: real)
    requires length >= 0.0 && length * length == Dist2(b, a)
    ensures var c := Ceil(length / STEP);
            SampleCount(a, b) == if c < 1 then 1 else if c > MAX_SAMPLES then MAX_SAMPLES else c
  {
    SamplesAreCeiling(Dist2(b, a), length);
  }

  lemma SamplesAreCeiling(d2: real, length: real)
    requires length >= 0.0 && length * length == d2
    ensures var c := Ceil(length / STEP);
            SamplesFrom(d2, 1) == if c < 1 then 1 else if c > MAX_SAMPLES then MAX_SAMPLES else c
  {
    hide Reach2, SamplesFrom;
    var n := SamplesFrom(d2, 1);
    if n < MAX_SAMPLES {
      ReachEnough(n, length);
    }
    if n > 1 {
      ReachStrict(n - 1, length);
    }
  }

  lemma ReachEnough(k: nat, length: real)
    requires Reach2(k) >= length * length
    ensures length <= k as real * STEP
  {
    SquareOrder(length, k as real * STEP);
  }

  lemma ReachStrict(k: nat, length: real)
    requires length >= 0.0 && Reach2(k) < length * length
    ensures k as real * STEP < length
  {
    if length <= k as real * STEP {
      MulMono(length, k as real * STEP, length, k as real * STEP);
    }
  }

  function Sample(a: Point, b: Point, j: nat, n: nat): Point
    requires n >= 1
  {
    Lerp(a, b, j as real / n as real)
  }

  predicate LegAdmitted(bd: Boundary, a: Point, b: Point) {
    Admits(bd, a) && Admits(bd, b) &&
    var n := SampleCount(a, b);
    forall j :: 1 <= j < n ==> Admits(bd, Sample(a, b, j, n))
  }

  predicate RouteAdmitted(bd: Boundary, waypoints: seq<Point>) {
    (forall i :: 0 <= i < |waypoints| ==> Admits(bd, waypoints[i])) &&
    (forall i :: 0 <= i < |waypoints| - 1 ==> LegAdmitted(bd, waypoints[i], waypoints[i + 1]))
  }

  /** Polygons whose edges the vehicle must keep away from. */
  ghost predicate IsFence(bd: Boundary, poly: Polygon) {
    poly == bd.outer || exists i :: 0 <= i < |bd.zones| && bd.zones[i].kind == Forbidden && bd.zones[i].polygon == poly
  }

  /** Every edge is longer than the source's degenerate limit or is a repeated vertex. */
  predicate WellScaledPolygon(poly: Polygon) {
    forall i :: 0 <= i < |poly| ==> Dist2(Next(poly, i), poly[i]) > DEGENERATE || Next(poly, i) == poly[i]
  }

  predicate WellScaled(bd: Boundary) {
    WellScaledPolygon(bd.outer) &&
    forall i :: 0 <= i < |bd.zones| && bd.zones[i].kind == Forbidden ==> WellScaledPolygon(bd.zones[i].polygon)
  }

  lemma AllSamplesAdmitted(bd: Boundary, a: Point, b: Point, j: nat)
    requires LegAdmitted(bd, a, b) && j <= SampleCount(a, b)
    ensures Admits(bd, Sample(a, b, j, SampleCount(a, b)))
  {
    hide Admits, SampleCount;
    var n := SampleCount(a, b);
    if j == 0 {
      assert Sample(a, b, j, n) == a;
    } else if j == n {
      assert j as real / n as real == 1.0;
      assert Sample(a, b, j, n) == b;
    }
  }

  lemma AdmittedIsClear(bd: Boundary, p: Point, poly: Polygon, i: nat)
    requires Admits(bd, p) && IsFence(bd, poly) && |poly| >= 2 && i < |poly|
    ensures SegmentDist2(p, poly[i], Next(poly, i)) >= Margin(bd) * Margin(bd)
  {
    hide *;
    NotBelowMargin(bd, p, poly);
    NotBelowMeansClear(p, poly, Margin(bd), i);
  }

  lemma NotBelowMargin(bd: Boundary, p: Point, poly: Polygon)
    requires Admits(bd, p) && IsFence(bd, poly) && |poly| >= 2
    ensures !DistanceToPolygon(p, poly).Below(Margin(bd))
  {
    hide Inside, DistanceToPolygon, Distance.Below;
    if poly != bd.outer {
      var z :| 0 <= z < |bd.zones| && bd.zones[z].kind == Forbidden && bd.zones[z].polygon == poly;
      assert !Blocks(bd.zones[z], p, Margin(bd));
    }
  }

  lemma NotBelowMeansClear(p: Point, poly: Polygon, m: real, i: nat)
    requires |poly| >= 2 && i < |poly| && !DistanceToPolygon(p, poly).Below(m)
    ensures SegmentDist2(p, poly[i], Next(poly, i)) >= m * m
  {
    hide SegmentDist2, EdgeMin;
    EdgeMinBound(poly, p, |poly|, m * m);
  }

  /** The length up to which the source takes an edge for a point: the root of its squared limit. */
  const GRAIN := 0.000000001

  /** What measuring an edge from one end only can hide. */
  function EdgeSlack(u: Point, v: Point): (r: real)
    ensures 0.0 <= r <= GRAIN
  {
    if Dist2(v, u) > DEGENERATE || v == u then 0.0 else GRAIN
  }

  /** No edge of a well-scaled boundary hides anything; otherwise it is a nanometre at most. */
  function Slack(bd: Boundary): (r: real)
    ensures 0.0 <= r <= GRAIN
  {
    if WellScaled(bd) then 0.0 else GRAIN
  }

  lemma EdgeSlackBound(bd: Boundary, poly: Polygon, i: nat)
    requires IsFence(bd, poly) && i < |poly|
    ensures EdgeSlack(poly[i], Next(poly, i)) <= Slack(bd)
  {
    hide Dist2;
  }

  lemma GrainOfEdge(a: Point, b: Point, s: real)
    requires Dist2(b, a) <= DEGENERATE && 0.0 <= s <= 1.0
    ensures Dist2(a, Lerp(a, b, s)) <= GRAIN * GRAIN
  {
    hide Dist2, Lerp;
    LerpDistance(a, b, 0.0, s);
    assert Lerp(a, b, 0.0) == a by {
      LerpStart(a, b);
    }
    NonNegativeDist2(b, a);
    MulMono(s, 1.0, s, 1.0);
    MulMono(s * s, 1.0, Dist2(b, a), DEGENERATE);
    assert (0.0 - s) * (0.0 - s) == s * s;
  }

  lemma LerpStart(a: Point, b: Point)
    ensures Lerp(a, b, 0.0) == a
  {
  }

  lemma NonNegativeDist2(p: Point, q: Point)
    ensures Dist2(p, q) >= 0.0
  {
    SquareNonNegative(p.x - q.x);
    SquareNonNegative(p.y - q.y);
  }

  lemma Dist2Symmetric(p: Point, q: Point)
    ensures Dist2(p, q) == Dist2(q, p)
  {
    var dx, dy := p.x - q.x, p.y - q.y;
    assert dx * dx == -dx * -dx && dy * dy == -dy * -dy;
  }

  /** A point that the source finds m away from an edge is m - slack away from every point of it. */
  lemma EdgePointsClear(p: Point, a: Point, b: Point, s: real, m: real)
    requires 0.0 <= s <= 1.0 && m >= EdgeSlack(a, b) && SegmentDist2(p, a, b) >= m * m
    ensures Dist2(p, Lerp(a, b, s)) >= (m - EdgeSlack(a, b)) * (m - EdgeSlack(a, b))
  {
    if b == a {
      assert Lerp(a, b, s) == a && Lerp(a, b, NearestRatio(p, a, b)) == a;
    } else if Dist2(b, a) > DEGENERATE {
      NearestPoint(p, a, b, s);
    } else {
      LerpStart(a, b);
      TinyEdgeClear(p, a, b, s, m);
    }
  }

  lemma TinyEdgeClear(p: Point, a: Point, b: Point, s: real, m: real)
    requires Dist2(b, a) <= DEGENERATE && 0.0 <= s <= 1.0 && m >= GRAIN && Dist2(p, a) >= m * m
    ensures Dist2(p, Lerp(a, b, s)) >= (m - GRAIN) * (m - GRAIN)
  {
    hide Dist2, Lerp;
    GrainOfEdge(a, b, s);
    Dist2Symmetric(p, a);
    DistanceLoss(a, Lerp(a, b, s), p, m, GRAIN);
    Dist2Symmetric(Lerp(a, b, s), p);
  }

  /** Half of one sampling step of a leg of the given length. */
  function HalfStep(length: real, n: nat): real
    requires n >= 1
  {
    length / n as real / 2.0
  }

  lemma SampleWithinHalfStep(a: Point, b: Point, t: real, n: nat, length: real) returns (k: nat)
    requires n >= 1 && 0.0 <= t <= 1.0
    requires length >= 0.0 && length * length == Dist2(b, a)
    ensures k <= n
    ensures Dist2(Sample(a, b, k, n), Lerp(a, b, t)) <= HalfStep(length, n) * HalfStep(length, n)
  {
    hide Dist2, Lerp;
    k := NearestSample(t, n);
    var nr, kr := n as real, k as real;
    var r, w := kr / nr, length / nr;
    LerpDistance(a, b, r, t);
    OffsetBound(kr, r, t, nr, length, w);
  }

  lemma OffsetBound(kr: real, r: real, t: real, nr: real, length: real, w: real)
    requires nr > 0.0 && -0.5 <= kr - t * nr <= 0.5
    requires r * nr == kr && w * nr == length
    ensures ((r - t) * (r - t)) * (length * length) <= (w / 2.0) * (w / 2.0)
  {
    var z := kr - t * nr;
    OffsetScale(r, t, nr, length, z, w);
    HalfStepBound(z, w);
  }

  lemma HalfStepBound(z: real, w: real)
    requires -0.5 <= z <= 0.5
    ensures (z * w) * (z * w) <= (w / 2.0) * (w / 2.0)
  {
    SquareNonNegative(z);
    SquareNonNegative(w);
    ProductSign(0.5 - z, 0.5 + z);
    assert (0.5 - z) * (0.5 + z) == 0.25 - z * z;
    MulMono(z * z, 0.25, w * w, w * w);
    assert (z * w) * (z * w) == (z * z) * (w * w);
  }

  lemma OffsetScale(r: real, t: real, nr: real, length: real, z: real, w: real)
    requires z == (r - t) * nr && length == w * nr
    ensures ((r - t) * (r - t)) * (length * length) == (z * w) * (z * w)
  {
    var x := r - t;
    assert z * w == x * length by {
      assert (x * nr) * w == x * (nr * w);
    }
    assert (x * x) * (length * length) == (x * length) * (x * length);
  }

  lemma NonNegativeHalfStep(length: real, n: nat)
    requires length >= 0.0 && n >= 1
    ensures HalfStep(length, n) >= 0.0
  {
  }

  /** The geometric core: a segment whose samples all keep m from an edge keeps m - step/2 - slack from it. */
  lemma SampledClearance(a: Point, b: Point, n: nat, length: real, u: Point, v: Point, m: real, s: real, t: real)
    requires n >= 1 && length >= 0.0 && length * length == Dist2(b, a)
    requires 0.0 <= s <= 1.0 && 0.0 <= t <= 1.0
    requires m >= HalfStep(length, n) + EdgeSlack(u, v)
    requires forall k :: 0 <= k <= n ==> SegmentDist2(Sample(a, b, k, n), u, v) >= m * m
    ensures var gap := m - HalfStep(length, n) - EdgeSlack(u, v); Dist2(Lerp(a, b, t), Lerp(u, v, s)) >= gap * gap
  {
    hide SegmentDist2, Dist2, Lerp, HalfStep, EdgeSlack;
    var k := SampleWithinHalfStep(a, b, t, n, length);
    var p := Sample(a, b, k, n);
    NonNegativeHalfStep(length, n);
    EdgePointsClear(p, u, v, s, m);
    DistanceLoss(p, Lerp(a, b, t), Lerp(u, v, s), m - EdgeSlack(u, v), HalfStep(length, n));
  }

  /**
   Every point of an accepted leg keeps at least margin - step/2 from every point of every
   outer or forbidden edge, less the slack of that edge alone.
   */
  lemma LegClearance(bd: Boundary, a: Point, b: Point, length: real, poly: Polygon, i: nat, s: real, t: real)
    requires LegAdmitted(bd, a, b)
    requires length >= 0.0 && length * length == Dist2(b, a)
    requires IsFence(bd, poly) && |poly| >= 2 && i < |poly|
    requires 0.0 <= s <= 1.0 && 0.0 <= t <= 1.0
    requires Margin(bd) >= HalfStep(length, SampleCount(a, b)) + EdgeSlack(poly[i], Next(poly, i))
    ensures var gap := Margin(bd) - HalfStep(length, SampleCount(a, b)) - EdgeSlack(poly[i], Next(poly, i));
            Dist2(Lerp(a, b, t), Lerp(poly[i], Next(poly, i), s)) >= gap * gap
  {
    hide Admits, SegmentDist2, Dist2, HalfStep, IsFence, EdgeSlack;
    var n := SampleCount(a, b);
    forall k | 0 <= k <= n
      ensures SegmentDist2(Sample(a, b, k, n), poly[i], Next(poly, i)) >= Margin(bd) * Margin(bd)
    {
      AllSamplesAdmitted(bd, a, b, k);
      AdmittedIsClear(bd, Sample(a, b, k, n), poly, i);
    }
    SampledClearance(a, b, n, length, poly[i], Next(poly, i), Margin(bd), s, t);
  }

  lemma ApartPoints(p: Point, q: Point, g2: real)
    requires g2 > 0.0 && Dist2(p, q) >= g2
    ensures p != q
  {
    var dx, dy := p.x - q.x, p.y - q.y;
    assert dx == 0.0 && dy == 0.0 ==> dx * dx + dy * dy == 0.0;
  }

  lemma PositiveSquare(gap: real) returns (g2: real)
    requires gap > 0.0
    ensures g2 == gap * gap && g2 > 0.0
  {
    g2 := gap * gap;
    assert g2 / gap == gap;
  }

  lemma NextOfPrevious(poly: Polygon, k: nat)
    requires k < |poly|
    ensures Next(poly, if k == 0 then |poly| - 1 else k - 1) == poly[k]
  {
    if k == 0 {
      assert |poly| % |poly| == 0;
    }
  }

  /** With the margin above half a step and the slack, an accepted leg touches no fence edge. */
  lemma LegMissesFences(bd: Boundary, a: Point, b: Point, length: real, poly: Polygon)
    requires LegAdmitted(bd, a, b)
    requires length >= 0.0 && length * length == Dist2(b, a)
    requires IsFence(bd, poly) && |poly| >= 2
    requires Margin(bd) > HalfStep(length, SampleCount(a, b)) + Slack(bd)
    ensures Misses(poly, a, b)
  {
    hide *;
    forall k | 0 <= k < |poly| ensures !SegmentsMeet(a, b, poly[k], Previous(poly, k)) {
      EdgeMissed(bd, a, b, length, poly, k);
    }
    AllEdgesMissed(poly, a, b);
  }

  lemma AllEdgesMissed(poly: Polygon, a: Point, b: Point)
    requires forall k :: 0 <= k < |poly| ==> !SegmentsMeet(a, b, poly[k], Previous(poly, k))
    ensures Misses(poly, a, b)
  {
    hide SegmentsMeet;
  }

  lemma EdgeMissed(bd: Boundary, a: Point, b: Point, length: real, poly: Polygon, k: nat)
    requires LegAdmitted(bd, a, b)
    requires length >= 0.0 && length * length == Dist2(b, a)
    requires IsFence(bd, poly) && |poly| >= 2 && k < |poly|
    requires Margin(bd) > HalfStep(length, SampleCount(a, b)) + Slack(bd)
    ensures !SegmentsMeet(a, b, poly[k], Previous(poly, k))
  {
    hide Admits, LegAdmitted, Slack, EdgeSlack, HalfStep, IsFence, Dist2, Lerp, SampleCount, Margin;
    var i := if k == 0 then |poly| - 1 else k - 1;
    var u, v := poly[i], poly[k];
    NextOfPrevious(poly, k);
    assert u == Previous(poly, k);
    if SegmentsMeet(a, b, v, u) {
      var t: real, s: real :| MeetAt(a, b, v, u, t, s);
      LerpReversed(u, v, s);
      EdgeSlackBound(bd, poly, i);
      var gap := Margin(bd) - HalfStep(length, SampleCount(a, b)) - EdgeSlack(u, v);
      var g2 := PositiveSquare(gap);
      LegClearance(bd, a, b, length, poly, i, 1.0 - s, t);
      ApartPoints(Lerp(a, b, t), Lerp(u, v, 1.0 - s), g2);
    }
  }

  /** The distance the source itself would measure from any point of the leg: here no slack is lost. */
  lemma MeasuredClearance(bd: Boundary, a: Point, b: Point, length: real, poly: Polygon, i: nat, t: real)
    requires LegAdmitted(bd, a, b)
    requires length >= 0.0 && length * length == Dist2(b, a)
    requires IsFence(bd, poly) && |poly| >= 2 && i < |poly| && 0.0 <= t <= 1.0
    requires Margin(bd) >= HalfStep(length, SampleCount(a, b))
    ensures var gap := Margin(bd) - HalfStep(length, SampleCount(a, b));
            SegmentDist2(Lerp(a, b, t), poly[i], Next(poly, i)) >= gap * gap
  {
    hide LegAdmitted, IsFence, Lerp, HalfStep, SampleCount, Margin, Dist2;
    var u, v := poly[i], Next(poly, i);
    var q := Lerp(a, b, t);
    if Dist2(v, u) > DEGENERATE || v == u {
      LegClearance(bd, a, b, length, poly, i, NearestRatio(q, u, v), t);
    } else {
      var n := SampleCount(a, b);
      var k := SampleWithinHalfStep(a, b, t, n, length);
      var p := Sample(a, b, k, n);
      AllSamplesAdmitted(bd, a, b, k);
      AdmittedIsClear(bd, p, poly, i);
      LerpStart(u, v);
      NonNegativeHalfStep(length, n);
      DistanceLoss(p, q, u, Margin(bd), HalfStep(length, n));
    }
  }

  lemma FencePointDistance(bd: Boundary, a: Point, b: Point, length: real, poly: Polygon, t: real)
    requires LegAdmitted(bd, a, b)
    requires length >= 0.0 && length * length == Dist2(b, a)
    requires IsFence(bd, poly) && |poly| >= 2
    requires 0.0 <= t <= 1.0
    requires Margin(bd) >= HalfStep(length, SampleCount(a, b))
    ensures !DistanceToPolygon(Lerp(a, b, t), poly).Below(Margin(bd) - HalfStep(length, SampleCount(a, b)))
  {
    hide LegAdmitted, IsFence, Dist2, Lerp, HalfStep, SampleCount, Margin, EdgeMin, SegmentDist2;
    var q := Lerp(a, b, t);
    var gap := Margin(bd) - HalfStep(length, SampleCount(a, b));
    forall i | 0 <= i < |poly| ensures SegmentDist2(q, poly[i], Next(poly, i)) >= gap * gap {
      MeasuredClearance(bd, a, b, length, poly, i, t);
    }
    EdgeMinBound(poly, q, |poly|, gap * gap);
  }

  /** An accepted leg stays on the accepted side of every fence polygon. */
  lemma LegKeepsSide(bd: Boundary, a: Point, b: Point, length: real, poly: Polygon, t: real)
    requires LegAdmitted(bd, a, b)
    requires length >= 0.0 && length * length == Dist2(b, a)
    requires IsFence(bd, poly)
    requires 0.0 <= t <= 1.0
    requires Margin(bd) > HalfStep(length, SampleCount(a, b)) + Slack(bd)
    ensures Inside(poly, Lerp(a, b, t)) <==> Inside(poly, a)
  {
    hide LegAdmitted, Slack, IsFence, Dist2, Lerp, HalfStep, SampleCount, Margin, OddCrossings, Misses;
    if |poly| >= 3 {
      LegMissesFences(bd, a, b, length, poly);
      MissesPrefix(poly, a, b, t);
      SameSide(poly, a, Lerp(a, b, t));
    }
  }

  /**
   The guarantee, for every boundary: if the margin exceeds half a sampling step, and by a
   nanometre where the boundary has edges too short to be measured, every point of an accepted
   leg would itself be admitted with the margin reduced by that half step. In particular
   the whole leg, not only its samples, lies inside the outer polygon and outside every
   forbidden zone.
   */
  lemma LegGuarantee(bd: Boundary, a: Point, b: Point, length: real, t: real)
    requires LegAdmitted(bd, a, b)
    requires length >= 0.0 && length * length == Dist2(b, a)
    requires Margin(bd) > HalfStep(length, SampleCount(a, b)) + Slack(bd)
    requires 0.0 <= t <= 1.0
    ensures Admits(bd.(safetyMargin := Margin(bd) - HalfStep(length, SampleCount(a, b))), Lerp(a, b, t))
  {
    hide Slack, Dist2, Lerp, HalfStep, SampleCount, Inside, Distance.Below, EdgeMin;
    var gap := Margin(bd) - HalfStep(length, SampleCount(a, b));
    var bd' := bd.(safetyMargin := gap);
    var q := Lerp(a, b, t);
    assert Admits(bd, a);
    if bd.outer != [] {
      LegKeepsSide(bd, a, b, length, bd.outer, t);
      assert |bd.outer| >= 3 by { InsideNeedsThree(bd.outer, a); }
      FencePointDistance(bd, a, b, length, bd.outer, t);
    }
    forall i | 0 <= i < |bd'.zones| ensures !Blocks(bd'.zones[i], q, gap) {
      var z := bd.zones[i];
      if z.kind == Forbidden {
        assert IsFence(bd, z.polygon);
        assert !Blocks(z, a, Margin(bd));
        LegKeepsSide(bd, a, b, length, z.polygon, t);
        if |z.polygon| >= 2 {
          FencePointDistance(bd, a, b, length, z.polygon, t);
        } else {
          InfiniteNotBelow(q, z.polygon, gap);
        }
      }
    }
  }

  lemma InsideNeedsThree(poly: Polygon, p: Point)
    requires Inside(poly, p)
    ensures |poly| >= 3
  {
  }

  lemma InfiniteNotBelow(p: Point, poly: Polygon, m: real)
    requires |poly| < 2
    ensures !DistanceToPolygon(p, poly).Below(m)
  {
  }

  /** Legs up to 100 m are sampled at most 5 cm apart. */
  lemma StepAtMostFiveCentimetres(a: Point, b: Point, length: real)
    requires 0.0 <= length <= 100.0 && length * length == Dist2(b, a)
    ensures HalfStep(length, SampleCount(a, b)) <= 0.025
  {
    hide Dist2, Reach2, SamplesFrom;
    var n := SampleCount(a, b);
    if n < MAX_SAMPLES {
      ReachEnough(n, length);
    }
    HalfStepFrom(length, n);
  }

  lemma HalfStepFrom(length: real, n: nat)
    requires n >= 1 && length <= n as real * STEP
    ensures HalfStep(length, n) <= 0.025
  {
    var w := length / n as real;
    assert w * n as real == length;
    assert (w - STEP) * n as real <= 0.0;
  }

  /** The figure an operator can use: margins above 2.5 cm (and a nanometre, with unmeasurably short edges) make whole routes safe, legs up to 100 m. */
  lemma RouteGuarantee(bd: Boundary, waypoints: seq<Point>, i: nat, length: real, t: real)
    requires RouteAdmitted(bd, waypoints) && i + 1 < |waypoints|
    requires 0.0 <= length <= 100.0 && length * length == Dist2(waypoints[i + 1], waypoints[i])
    requires Margin(bd) > 0.025 + Slack(bd) && 0.0 <= t <= 1.0
    ensures Admits(bd.(safetyMargin := Margin(bd) - 0.025), Lerp(waypoints[i], waypoints[i + 1], t))
  {
    hide Slack, Dist2, Lerp, HalfStep, SampleCount, Admits;
    var a, b := waypoints[i], waypoints[i + 1];
    StepAtMostFiveCentimetres(a, b, length);
    LegGuarantee(bd, a, b, length, t);
    var m1, m2 := Margin(bd) - HalfStep(length, SampleCount(a, b)), Margin(bd) - 0.025;
    SmallerMarginAdmits(bd.(safetyMargin := m1), bd.(safetyMargin := m2), Lerp(a, b, t));
  }

  lemma SmallerMarginAdmits(bd: Boundary, bd': Boundary, p: Point)
    requires Admits(bd, p) && bd' == bd.(safetyMargin := bd'.safetyMargin)
    requires 0.0 <= bd'.safetyMargin <= bd.safetyMargin
    ensures Admits(bd', p)
  {
    hide Inside, DistanceToPolygon;
    BelowMonotone(DistanceToPolygon(p, bd.outer), Margin(bd'), Margin(bd));
    forall i | 0 <= i < |bd'.zones| ensures !Blocks(bd'.zones[i], p, Margin(bd')) {
      assert !Blocks(bd.zones[i], p, Margin(bd));
      BelowMonotone(DistanceToPolygon(p, bd.zones[i].polygon), Margin(bd'), Margin(bd));
    }
  }

  lemma BelowMonotone(d: Distance, m: real, m': real)
    requires 0.0 <= m <= m'
    ensures d.Below(m) ==> d.Below(m')
  {
    MulMono(m, m', m, m');
  }
}
