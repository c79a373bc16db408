/**
 Plane geometry behind the geofence: squared distances, the clamped projection onto a
 segment, and the real-number facts (nearest point, triangle inequality, sampling) that
 the route guarantee rests on. Coordinates are reals; `hypot` comparisons are squared.
 */
module Geometry {
  datatype Point = Point(x: real, y: real)

  /** Squared lengths at or below this are treated as a single point by the source. */
  const DEGENERATE := 0.000000000000000001

  function Dist2(p: Point, q: Point): real {
    (p.x - q.x) * (p.x - q.x) + (p.y - q.y) * (p.y - q.y)
  }

  function Dot(a: Point, b: Point, p: Point): real {
    (p.x - a.x) * (b.x - a.x) + (p.y - a.y) * (b.y - a.y)
  }

  function Lerp(a: Point, b: Point, t: real): Point {
    Point(a.x + t * (b.x - a.x), a.y + t * (b.y - a.y))
  }

  function Clamp01(r: real): (c: real)
    ensures 0.0 <= c <= 1.0
  {
    if r < 0.0 then 0.0 else if r > 1.0 then 1.0 else r
  }

  /** Where the source puts the nearest point of segment a-b, as a fraction of the segment. */
  function NearestRatio(p: Point, a: Point, b: Point): (r: real)
    ensures 0.0 <= r <= 1.0
  {
    var l2 := Dist2(b, a);
    if l2 <= DEGENERATE then 0.0 else Clamp01(Dot(a, b, p) / l2)
  }

  function SegmentDist2(p: Point, a: Point, b: Point): real {
    Dist2(p, Lerp(a, b, NearestRatio(p, a, b)))
  }

  lemma SquareOfOffset(w: real, d: real, s: real)
    ensures (w - s * d) * (w - s * d) == w * w - 2.0 * (s * (w * d)) + (s * s) * (d * d)
  {
    var z := s * d;
    assert (w - z) * (w - z) == w * w - 2.0 * (w * z) + z * z;
    assert w * z == s * (w * d);
    assert z * z == (s * s) * (d * d);
  }

  /** Distance from p to the point at fraction s, as a quadratic in s. */
  lemma Quadratic(p: Point, a: Point, b: Point, s: real)
    ensures Dist2(p, Lerp(a, b, s)) == Dist2(p, a) - 2.0 * (s * Dot(a, b, p)) + (s * s) * Dist2(b, a)
  {
    var wx, wy, dx, dy := p.x - a.x, p.y - a.y, b.x - a.x, b.y - a.y;
    SquareOfOffset(wx, dx, s);
    SquareOfOffset(wy, dy, s);
    assert p.x - (a.x + s * dx) == wx - s * dx;
    assert p.y - (a.y + s * dy) == wy - s * dy;
    Distribute(s, wx * dx, wy * dy);
    Distribute(s * s, dx * dx, dy * dy);
  }

  lemma Distribute(k: real, x: real, y: real)
    ensures k * (x + y) == k * x + k * y
  {
  }

  lemma ProductSign(x: real, y: real)
    requires (x >= 0.0 && y >= 0.0) || (x <= 0.0 && y <= 0.0)
    ensures x * y >= 0.0
  {
  }

  lemma FactorGap(s: real, r: real, rho: real, l2: real)
    ensures ((s - r) * (s + r - 2.0 * rho)) * l2
         == ((s * s) * l2 - 2.0 * (s * (rho * l2))) - ((r * r) * l2 - 2.0 * (r * (rho * l2)))
  {
    assert (s - r) * (s + r - 2.0 * rho) == s * s - r * r - 2.0 * (s * rho) + 2.0 * (r * rho);
  }

  /** The clamped projection really is the nearest point of the segment. */
  lemma NearestPoint(p: Point, a: Point, b: Point, s: real)
    requires Dist2(b, a) > DEGENERATE
    requires 0.0 <= s <= 1.0
    ensures SegmentDist2(p, a, b) <= Dist2(p, Lerp(a, b, s))
  {
    hide Dist2, Dot, Lerp;
    var l2 := Dist2(b, a);
    var dot := Dot(a, b, p);
    var rho := dot / l2;
    var r := NearestRatio(p, a, b);
    Quadratic(p, a, b, s);
    Quadratic(p, a, b, r);
    NearestFactor(s, r, rho, l2, dot, Dist2(p, a));
  }

  lemma NearestFactor(s: real, r: real, rho: real, l2: real, dot: real, c: real)
    requires l2 > 0.0 && 0.0 <= s <= 1.0 && r == Clamp01(rho) && rho == dot / l2
    ensures c - 2.0 * (r * dot) + (r * r) * l2 <= c - 2.0 * (s * dot) + (s * s) * l2
  {
    assert dot == rho * l2;
    FactorGap(s, r, rho, l2);
    ProductSign(s - r, s + r - 2.0 * rho);
    ProductSign((s - r) * (s + r - 2.0 * rho), l2);
  }

  lemma SquareNonNegative(x: real)
    ensures x * x >= 0.0
  {
    ProductSign(x, x);
  }

  lemma PositiveProduct(x: real, y: real)
    requires x > 0.0 && y > 0.0
    ensures x * y > 0.0
  {
  }

  lemma SquareOrder(x: real, y: real)
    requires y >= 0.0 && x * x <= y * y
    ensures x <= y
  {
    assert x * x - y * y == (x - y) * (x + y);
    if x > y {
      PositiveProduct(x - y, x + y);
    }
  }

  lemma MulMono(a: real, b: real, c: real, d: real)
    requires 0.0 <= a <= b && 0.0 <= c <= d
    ensures a * c <= b * d
  {
    assert a * c <= b * c;
    assert b * c <= b * d;
  }

  lemma CauchySchwarz(ax: real, ay: real, vx: real, vy: real)
    ensures (ax * vx + ay * vy) * (ax * vx + ay * vy) <= (ax * ax + ay * ay) * (vx * vx + vy * vy)
  {
    var cross := ax * vy - ay * vx;
    var dot := ax * vx + ay * vy;
    assert cross * cross == (ax * vy) * (ax * vy) - 2.0 * ((ax * vy) * (ay * vx)) + (ay * vx) * (ay * vx);
    assert dot * dot == (ax * vx) * (ax * vx) + 2.0 * ((ax * vx) * (ay * vy)) + (ay * vy) * (ay * vy);
    assert (ax * vy) * (ay * vx) == (ax * vx) * (ay * vy);
    assert (ax * vy) * (ax * vy) == (ax * ax) * (vy * vy);
    assert (ay * vx) * (ay * vx) == (ay * ay) * (vx * vx);
    assert (ax * vx) * (ax * vx) == (ax * ax) * (vx * vx);
    assert (ay * vy) * (ay * vy) == (ay * ay) * (vy * vy);
    ExpandProduct(ax * ax, ay * ay, vx * vx, vy * vy);
    SquareNonNegative(cross);
  }

  lemma ExpandProduct(a: real, b: real, c: real, d: real)
    ensures (a + b) * (c + d) == a * c + a * d + b * c + b * d
  {
  }

  /** |a + b| >= m and |b| <= d give |a| >= m - d, stated on squares. */
  lemma ReverseTriangle(ax: real, ay: real, vx: real, vy: real, m: real, d: real)
    requires 0.0 <= d <= m
    requires (ax + vx) * (ax + vx) + (ay + vy) * (ay + vy) >= m * m
    requires vx * vx + vy * vy <= d * d
    ensures ax * ax + ay * ay >= (m - d) * (m - d)
  {
    var a2, b2, dot, c := ax * ax + ay * ay, vx * vx + vy * vy, ax * vx + ay * vy, m - d;
    assert (ax + vx) * (ax + vx) + (ay + vy) * (ay + vy) == a2 + 2.0 * dot + b2;
    assert m * m == c * c + 2.0 * (c * d) + d * d;
    assert (c * c) * (d * d) == (c * d) * (c * d);
    CauchySchwarz(ax, ay, vx, vy);
    SquareNonNegative(ax);
    SquareNonNegative(ay);
    SquareNonNegative(vx);
    SquareNonNegative(vy);
    ProductSign(c, d);
    if a2 < c * c {
      MulMono(a2, c * c, b2, d * d);
      SquareOrder(dot, c * d);
    }
  }

  /** Moving by at most d loses at most d of the distance to any fixed point. */
  lemma DistanceLoss(p: Point, q: Point, e: Point, m: real, d: real)
    requires 0.0 <= d <= m
    requires Dist2(p, e) >= m * m && Dist2(p, q) <= d * d
    ensures Dist2(q, e) >= (m - d) * (m - d)
  {
    var ax, ay, vx, vy := q.x - e.x, q.y - e.y, p.x - q.x, p.y - q.y;
    assert ax + vx == p.x - e.x && ay + vy == p.y - e.y;
    ReverseTriangle(ax, ay, vx, vy, m, d);
  }

  /** Two points of one segment are as far apart as their fractions say. */
  lemma LerpDistance(a: Point, b: Point, s: real, t: real)
    ensures Dist2(Lerp(a, b, s), Lerp(a, b, t)) == ((s - t) * (s - t)) * Dist2(b, a)
  {
    var dx, dy, z := b.x - a.x, b.y - a.y, s - t;
    assert (a.x + s * dx) - (a.x + t * dx) == z * dx;
    assert (a.y + s * dy) - (a.y + t * dy) == z * dy;
    assert (z * dx) * (z * dx) == (z * z) * (dx * dx);
    assert (z * dy) * (z * dy) == (z * z) * (dy * dy);
    Distribute(z * z, dx * dx, dy * dy);
  }

  /** Any fraction of a segment cut into n equal parts is within half a part of a cut. */
  lemma NearestSample(t: real, n: nat) returns (k: nat)
    requires n >= 1 && 0.0 <= t <= 1.0
    ensures k <= n
    ensures -1.0 <= 2.0 * (t * n as real - k as real) <= 1.0
  {
    var z := t * n as real;
    assert 0.0 <= z <= n as real;
    k := (z + 0.5).Floor;
  }
}
