/**
 The half-step margin is not a convenience of the proof: for every leg, a margin at or
 below half a sampling step lets some boundary be cut unnoticed. The witness is a forbidden
 blade standing on the leg midway between its first two samples, far inside a square.
 */
module RouteExactness {
  import opened Wrappers
  import opened Geometry
  import opened Polygon
  import opened PolygonDistance
  import opened Boundary
  import opened RouteSafety

  /** The leg touches no outer or forbidden edge. */
  ghost predicate LegClear(bd: Boundary, a: Point, b: Point) {
    forall poly: Polygon :: IsFence(bd, poly) && |poly| >= 2 ==> Misses(poly, a, b)
  }

  function Square(c: Point, r: real): Polygon {
    [Point(c.x - r, c.y - r), Point(c.x + r, c.y - r), Point(c.x + r, c.y + r), Point(c.x - r, c.y + r)]
  }

  lemma UprightEdge(u: Point, v: Point, y: real)
    requires u.x == v.x
    ensures XAt(u, v, y) == u.x
  {
    var h := if v.y - u.y == 0.0 then 0.000000000001 else v.y - u.y;
    assert (v.x - u.x) * (y - u.y) == 0.0;
    QuotientIs((v.x - u.x) * (y - u.y), h, 0.0);
  }

  lemma SquareContains(c: Point, r: real, p: Point)
    requires c.x - r < p.x < c.x + r && c.y - r < p.y < c.y + r
    ensures Inside(Square(c, r), p)
  {
    hide XAt;
    var poly := Square(c, r);
    UprightEdge(poly[0], poly[3], p.y);
    UprightEdge(poly[2], poly[1], p.y);
    assert CrossingCount(poly, p, 1) == 0;
    assert CrossingCount(poly, p, 2) == 0;
    assert CrossingCount(poly, p, 3) == 1;
    assert CrossingCount(poly, p, 4) == 1;
  }

  lemma AtLeastSquare(x: real, m: real)
    requires m >= 0.0 && (x >= m || x <= -m)
    ensures x * x >= m * m
  {
    if x >= m {
      MulMono(m, x, m, x);
    } else {
      MulMono(m, -x, m, -x);
      assert -x * -x == x * x;
    }
  }

  /** Far from the line an edge lies on means far from the edge. */
  lemma AxisEdgeFar(p: Point, u: Point, v: Point, m: real)
    requires m >= 0.0
    requires (u.x == v.x && (p.x - u.x >= m || p.x - u.x <= -m)) ||
             (u.y == v.y && (p.y - u.y >= m || p.y - u.y <= -m))
    ensures SegmentDist2(p, u, v) >= m * m
  {
    hide NearestRatio;
    var r := NearestRatio(p, u, v);
    var e := Lerp(u, v, r);
    var ex, ey := p.x - e.x, p.y - e.y;
    SquareNonNegative(ex);
    SquareNonNegative(ey);
    if u.x == v.x && (p.x - u.x >= m || p.x - u.x <= -m) {
      assert r * (v.x - u.x) == 0.0;
      AtLeastSquare(ex, m);
    } else {
      assert r * (v.y - u.y) == 0.0;
      AtLeastSquare(ey, m);
    }
  }

  lemma SquareFar(c: Point, r: real, p: Point, m: real)
    requires m >= 0.0
    requires c.x - (r - m) <= p.x <= c.x + (r - m) && c.y - (r - m) <= p.y <= c.y + (r - m)
    ensures !DistanceToPolygon(p, Square(c, r)).Below(m)
  {
    hide SegmentDist2;
    var poly := Square(c, r);
    forall i | 0 <= i < |poly| ensures SegmentDist2(p, poly[i], Next(poly, i)) >= m * m {
      AxisEdgeFar(p, poly[i], Next(poly, i), m);
    }
    EdgeMinBound(poly, p, |poly|, m * m);
  }

  /** Where the blade stands: halfway to the first sample. */
  function Foot(a: Point, b: Point, n: nat): Point
    requires n >= 1
  {
    Lerp(a, b, 0.5 / n as real)
  }

  /** A scale that makes the blade at least one metre tall whatever the leg's length. */
  predicate TallEnough(a: Point, b: Point, c: real) {
    c >= 1.0 && c * Dist2(b, a) >= 1.0
  }

  function Tip(f: Point, dx: real, dy: real, c: real): Point {
    Point(f.x + -(c * dy), f.y + c * dx)
  }

  /** The far end of the blade, straight above its foot. */
  function BladeTip(a: Point, b: Point, n: nat, c: real): Point
    requires n >= 1
  {
    Tip(Foot(a, b, n), b.x - a.x, b.y - a.y, c)
  }

  function Blade(a: Point, b: Point, n: nat, length: real, m: real, c: real): Boundary
    requires n >= 1
  {
    Boundary("map", 1, Square(a, length + m + 1.0), m,
             [Zone("blade", "", Forbidden, [Foot(a, b, n), BladeTip(a, b, n, c)], 0.0, None, true)])
  }

  lemma BladeIsUpright(a: Point, b: Point, n: nat, c: real, t: real)
    requires n >= 1 && TallEnough(a, b, c)
    ensures Dot(Foot(a, b, n), BladeTip(a, b, n, c), Lerp(a, b, t)) == 0.0
    ensures Dist2(BladeTip(a, b, n, c), Foot(a, b, n)) >= 1.0
  {
    hide Dot, Dist2, Tip;
    OffsetDist2(a, b.x - a.x, b.y - a.y);
    assert b == Point(a.x + (b.x - a.x), a.y + (b.y - a.y));
    var t0 := 0.5 / n as real;
    Slide(a.x, b.x - a.x, t0, t);
    Slide(a.y, b.y - a.y, t0, t);
    assert Lerp(a, b, t) == Along(Foot(a, b, n), b.x - a.x, b.y - a.y, t - t0);
    UprightAt(Foot(a, b, n), b.x - a.x, b.y - a.y, c, t - t0);
  }

  function Along(f: Point, dx: real, dy: real, z: real): Point {
    Point(f.x + z * dx, f.y + z * dy)
  }

  lemma UprightAt(f: Point, dx: real, dy: real, c: real, z: real)
    requires c >= 1.0 && c * (dx * dx + dy * dy) >= 1.0
    ensures Dot(f, Tip(f, dx, dy, c), Along(f, dx, dy, z)) == 0.0
    ensures Dist2(Tip(f, dx, dy, c), f) >= 1.0
  {
    hide Dot, Dist2;
    OffsetDot(f, -(c * dy), c * dx, z * dx, z * dy);
    Perpendicular(c, z, dx, dy);
    OffsetDist2(f, -(c * dy), c * dx);
    LongEnough(c, dx, dy);
  }

  lemma Slide(x: real, d: real, t0: real, t: real)
    ensures x + t * d == (x + t0 * d) + (t - t0) * d
  {
  }

  lemma OffsetDist2(f: Point, dx: real, dy: real)
    ensures Dist2(Point(f.x + dx, f.y + dy), f) == dx * dx + dy * dy
  {
  }

  lemma OffsetDot(f: Point, dx: real, dy: real, ox: real, oy: real)
    ensures Dot(f, Point(f.x + dx, f.y + dy), Point(f.x + ox, f.y + oy)) == ox * dx + oy * dy
  {
  }

  lemma Perpendicular(c: real, z: real, dx: real, dy: real)
    ensures (z * dx) * -(c * dy) + (z * dy) * (c * dx) == 0.0
  {
  }

  lemma LongEnough(c: real, dx: real, dy: real)
    requires c >= 1.0 && c * (dx * dx + dy * dy) >= 1.0
    ensures -(c * dy) * -(c * dy) + (c * dx) * (c * dx) >= 1.0
  {
    var k := c * (dx * dx + dy * dy);
    assert -(c * dy) * -(c * dy) + (c * dx) * (c * dx) == c * k;
    MulMono(1.0, c, 1.0, k);
  }

  /** Samples are at least half a step away from the blade's foot, hence from the blade. */
  lemma BladeFar(a: Point, b: Point, n: nat, length: real, j: nat, u: Point, v: Point, c: real)
    requires n >= 1 && length > 0.0 && TallEnough(a, b, c) && length * length == Dist2(b, a) && j <= n
    requires (u == Foot(a, b, n) && v == BladeTip(a, b, n, c)) || (v == Foot(a, b, n) && u == BladeTip(a, b, n, c))
    ensures SegmentDist2(Sample(a, b, j, n), u, v) >= HalfStep(length, n) * HalfStep(length, n)
  {
    hide Dist2, Dot, NearestRatio, BladeTip, Foot, Lerp;
    var p, f, tip := Sample(a, b, j, n), Foot(a, b, n), BladeTip(a, b, n, c);
    var r := NearestRatio(p, u, v);
    var s := if u == f then r else 1.0 - r;
    LerpReversed(f, tip, r);
    assert Lerp(u, v, r) == Lerp(f, tip, s);
    BladeIsUpright(a, b, n, c, j as real / n as real);
    Quadratic(p, f, tip, s);
    SquareNonNegative(s);
    FootFar(a, b, n, length, j);
  }

  lemma FootFar(a: Point, b: Point, n: nat, length: real, j: nat)
    requires n >= 1 && length > 0.0 && length * length == Dist2(b, a)
    ensures Dist2(Sample(a, b, j, n), Foot(a, b, n)) >= HalfStep(length, n) * HalfStep(length, n)
  {
    hide Dist2, Lerp;
    var nr, jr := n as real, j as real;
    LerpDistance(a, b, jr / nr, 0.5 / nr);
    FootOffset(nr, jr, length, jr / nr, 0.5 / nr, length / nr);
  }

  lemma FootOffset(nr: real, jr: real, length: real, x: real, x0: real, w: real)
    requires nr > 0.0 && (jr <= 0.0 || jr >= 1.0)
    requires x * nr == jr && x0 * nr == 0.5 && w * nr == length
    ensures ((x - x0) * (x - x0)) * (length * length) >= (w / 2.0) * (w / 2.0)
  {
    var z := jr - 0.5;
    OffsetScale(x, x0, nr, length, z, w);
    AtLeastSquare(z, 0.5);
    SquareNonNegative(w);
    MulMono(0.25, z * z, w * w, w * w);
    assert (z * w) * (z * w) == (z * z) * (w * w);
  }

  lemma LegWithinLength(a: Point, b: Point, length: real, t: real)
    requires length > 0.0 && length * length == Dist2(b, a) && 0.0 <= t <= 1.0
    ensures var p := Lerp(a, b, t);
            a.x - length <= p.x <= a.x + length && a.y - length <= p.y <= a.y + length
  {
    var dx, dy := b.x - a.x, b.y - a.y;
    SquareNonNegative(dx);
    SquareNonNegative(dy);
    Bounded(dx, length, t);
    Bounded(dy, length, t);
  }

  lemma Bounded(d: real, length: real, t: real)
    requires length >= 0.0 && d * d <= length * length && 0.0 <= t <= 1.0
    ensures -length <= t * d <= length
  {
    SquareOrder(d, length);
    assert -d * -d == d * d;
    SquareOrder(-d, length);
    Between(0.0, d, t);
  }

  lemma BladeAdmits(a: Point, b: Point, n: nat, length: real, m: real, j: nat, c: real)
    requires n >= 1 && length > 0.0 && TallEnough(a, b, c) && length * length == Dist2(b, a) && j <= n
    requires 0.0 <= m <= HalfStep(length, n)
    ensures Admits(Blade(a, b, n, length, m, c), Sample(a, b, j, n))
  {
    hide Dist2, Lerp, HalfStep, BladeTip, Foot, Inside, SegmentDist2, DistanceToPolygon, Square;
    var bd := Blade(a, b, n, length, m, c);
    var p := Sample(a, b, j, n);
    UnitRatio(j as real, n as real);
    LegWithinLength(a, b, length, j as real / n as real);
    SquareContains(a, length + m + 1.0, p);
    SquareFar(a, length + m + 1.0, p, m);
    BladeNotNear(a, b, n, length, m, j, c);
    assert !Inside(bd.zones[0].polygon, p) by { TwoVerticesOutside(bd.zones[0].polygon, p); }
    assert !Blocks(bd.zones[0], p, Margin(bd));
  }

  lemma TwoVerticesOutside(poly: Polygon, p: Point)
    requires |poly| < 3
    ensures !Inside(poly, p)
  {
  }

  lemma BladeNotNear(a: Point, b: Point, n: nat, length: real, m: real, j: nat, c: real)
    requires n >= 1 && length > 0.0 && TallEnough(a, b, c) && length * length == Dist2(b, a) && j <= n
    requires 0.0 <= m <= HalfStep(length, n)
    ensures !DistanceToPolygon(Sample(a, b, j, n), [Foot(a, b, n), BladeTip(a, b, n, c)]).Below(m)
  {
    hide Dist2, HalfStep, BladeTip, Foot, SegmentDist2, EdgeMin;
    var poly := [Foot(a, b, n), BladeTip(a, b, n, c)];
    var p := Sample(a, b, j, n);
    MulMono(m, HalfStep(length, n), m, HalfStep(length, n));
    BladeFar(a, b, n, length, j, poly[0], poly[1], c);
    BladeFar(a, b, n, length, j, poly[1], poly[0], c);
    forall i | 0 <= i < |poly| ensures SegmentDist2(p, poly[i], Next(poly, i)) >= m * m {
      assert (i == 0 && Next(poly, i) == poly[1]) || (i == 1 && Next(poly, i) == poly[0]);
    }
    EdgeMinBound(poly, p, |poly|, m * m);
  }

  lemma SquareEdgesLong(c: Point, r: real)
    requires r >= 1.0
    ensures WellScaledPolygon(Square(c, r))
  {
    hide Dist2, Square, Next;
    var poly := Square(c, r);
    SquareSides(c, r);
    forall i | 0 <= i < |poly| ensures Dist2(Next(poly, i), poly[i]) > DEGENERATE {
      assert i == 0 || i == 1 || i == 2 || i == 3;
      LongSide(Next(poly, i), poly[i]);
    }
  }

  lemma SquareSides(c: Point, r: real)
    requires r >= 1.0
    ensures var s := Square(c, r);
            && |s| == 4
            && Next(s, 0).x - s[0].x >= 2.0
            && Next(s, 1).y - s[1].y >= 2.0
            && Next(s, 2).x - s[2].x <= -2.0
            && Next(s, 3).y - s[3].y <= -2.0
  {
    hide Next;
    var s := Square(c, r);
    FourSides(s);
  }

  lemma FourSides(s: Polygon)
    requires |s| == 4
    ensures Next(s, 0) == s[1] && Next(s, 1) == s[2] && Next(s, 2) == s[3] && Next(s, 3) == s[0]
  {
  }

  lemma LongSide(p: Point, q: Point)
    requires var dx, dy := p.x - q.x, p.y - q.y; dx >= 2.0 || dx <= -2.0 || dy >= 2.0 || dy <= -2.0
    ensures Dist2(p, q) > DEGENERATE
  {
    var dx, dy := p.x - q.x, p.y - q.y;
    SquareNonNegative(dx);
    SquareNonNegative(dy);
    if dx >= 2.0 || dx <= -2.0 {
      AtLeastSquare(dx, 2.0);
    } else {
      AtLeastSquare(dy, 2.0);
    }
  }

  lemma BladeWellScaled(a: Point, b: Point, n: nat, length: real, m: real, c: real)
    requires n >= 1 && length > 0.0 && TallEnough(a, b, c) && m >= 0.0 && length * length == Dist2(b, a)
    ensures WellScaled(Blade(a, b, n, length, m, c))
  {
    hide Dist2, BladeTip, Foot, Square;
    SquareEdgesLong(a, length + m + 1.0);
    BladeIsUpright(a, b, n, c, 0.0);
    var f, tip := Foot(a, b, n), BladeTip(a, b, n, c);
    Dist2Symmetric(f, tip);
    var poly := [f, tip];
    assert Next(poly, 0) == tip && Next(poly, 1) == f;
  }

  lemma BladeIsApplied(a: Point, b: Point, n: nat, length: real, m: real, c: real)
    requires n >= 1
    ensures Applied(Blade(a, b, n, length, m, c))
  {
  }

  /** An accepted leg that runs straight through a forbidden edge. */
  lemma BladeIsCut(a: Point, b: Point, length: real, m: real, c: real)
    requires length > 0.0 && length * length == Dist2(b, a) && TallEnough(a, b, c)
    requires 0.0 <= m <= HalfStep(length, SampleCount(a, b))
    ensures var bd := Blade(a, b, SampleCount(a, b), length, m, c);
            bd.safetyMargin == m && Applied(bd) && WellScaled(bd) && LegAdmitted(bd, a, b) && !LegClear(bd, a, b)
  {
    hide Dist2, HalfStep, BladeTip, Foot, Square, Admits, SampleCount, WellScaled, Lerp;
    var n := SampleCount(a, b);
    var bd := Blade(a, b, n, length, m, c);
    BladeWellScaled(a, b, n, length, m, c);
    BladeIsApplied(a, b, n, length, m, c);
    forall j | 0 <= j <= n ensures Admits(bd, Sample(a, b, j, n)) {
      BladeAdmits(a, b, n, length, m, j, c);
    }
    SampleEnds(a, b, n);
    var poly := bd.zones[0].polygon;
    assert IsFence(bd, poly);
    FootMeets(a, b, n, poly[1]);
    assert !Misses(poly, a, b) by {
      assert poly[0] == Foot(a, b, n) && Previous(poly, 0) == poly[1];
    }
  }

  lemma TallScale(l2: real)
    requires l2 > 0.0
    ensures var c := 1.0 + 1.0 / l2; c >= 1.0 && c * l2 >= 1.0
  {
    var q := 1.0 / l2;
    assert q * l2 == 1.0;
    assert (1.0 + q) * l2 == l2 + q * l2;
  }

  lemma FootMeets(a: Point, b: Point, n: nat, v: Point)
    requires n >= 1
    ensures SegmentsMeet(a, b, Foot(a, b, n), v)
  {
    var t := 0.5 / n as real;
    UnitRatio(0.5, n as real);
    assert MeetAt(a, b, Foot(a, b, n), v, t, 0.0);
  }

  lemma SampleEnds(a: Point, b: Point, n: nat)
    requires n >= 1
    ensures Sample(a, b, 0, n) == a && Sample(a, b, n, n) == b
  {
    assert n as real / n as real == 1.0;
  }

  /**
   Exactly when the sampled check protects a leg: acceptance under margin m implies that the
   leg touches no fence of any applied boundary if and only if m exceeds half a sampling step.
   */
  lemma SamplingIsExact(a: Point, b: Point, length: real, m: real)
    requires length > 0.0 && length * length == Dist2(b, a) && m >= 0.0
    ensures (forall bd: Boundary :: bd.safetyMargin == m && Applied(bd) && WellScaled(bd) && LegAdmitted(bd, a, b) ==> LegClear(bd, a, b))
       <==> m > HalfStep(length, SampleCount(a, b))
  {
    hide Dist2, HalfStep, SampleCount, WellScaled, LegAdmitted, IsFence, Misses;
    if m > HalfStep(length, SampleCount(a, b)) {
      forall bd: Boundary | bd.safetyMargin == m && Applied(bd) && WellScaled(bd) && LegAdmitted(bd, a, b)
        ensures LegClear(bd, a, b)
      {
        forall poly: Polygon | IsFence(bd, poly) && |poly| >= 2 ensures Misses(poly, a, b) {
          LegMissesFences(bd, a, b, length, poly);
        }
      }
    } else {
      var l2 := PositiveSquare(length);
      var c := 1.0 + 1.0 / l2;
      TallScale(l2);
      BladeIsCut(a, b, length, m, c);
    }
  }
}
