/**
 Ray casting. The source writes the same even-odd loop twice, once with a guard for fewer
 than three vertices (admission and watchdog) and once without (raster mask). Both are
 proved to compute the parity of the crossing count, and that parity is proved constant
 along any segment that meets no edge: this is what makes "inside" a region.
 */
module Polygon {
  import opened Geometry

  type Polygon = seq<Point>

  function Previous(poly: Polygon, k: nat): Point
    requires k < |poly|
  {
    poly[if k == 0 then |poly| - 1 else k - 1]
  }

  /** The x at which the line through u and v reaches height y, guarded as the source guards it. */
  function XAt(u: Point, v: Point, y: real): real {
    (v.x - u.x) * (y - u.y) / (if v.y - u.y == 0.0 then 0.000000000001 else v.y - u.y) + u.x
  }

  /** The toggle condition of one loop iteration: u is the current vertex, v the previous one. */
  predicate Crosses(p: Point, u: Point, v: Point) {
    (u.y > p.y) != (v.y > p.y) && p.x < XAt(u, v, p.y)
  }

  /** How many of the first k edges the rightward ray from p crosses. */
  function CrossingCount(poly: Polygon, p: Point, k: nat): nat
    requires k <= |poly|
  {
    if k == 0 then 0
    else CrossingCount(poly, p, k - 1) + if Crosses(p, poly[k - 1], Previous(poly, k - 1)) then 1 else 0
  }

  predicate OddCrossings(poly: Polygon, p: Point) {
    Odd(CrossingCount(poly, p, |poly|))
  }

  predicate Inside(poly: Polygon, p: Point) {
    |poly| >= 3 && OddCrossings(poly, p)
  }

  /** `_point_in_polygon` of the boundary manager. */
  method PointInPolygon(p: Point, poly: Polygon) returns (inside: bool)
    ensures inside <==> Inside(poly, p)
  {
    if |poly| < 3 {
      return false;
    }
    inside := false;
    var previous := |poly| - 1;
    for index := 0 to |poly|
      invariant previous == if index == 0 then |poly| - 1 else index - 1
      invariant inside <==> CrossingCount(poly, p, index) % 2 == 1
    {
      if Crosses(p, poly[index], poly[previous]) {
        inside := !inside;
      }
      previous := index;
    }
  }

  /** `_inside` of the mask writer: the same loop without the vertex-count guard. */
  method MaskInside(p: Point, poly: Polygon) returns (inside: bool)
    ensures inside <==> OddCrossings(poly, p)
  {
    inside := false;
    var previous := |poly| - 1;
    for index := 0 to |poly|
      invariant previous == if index == 0 then |poly| - 1 else index - 1
      invariant inside <==> CrossingCount(poly, p, index) % 2 == 1
    {
      if Crosses(p, poly[index], poly[previous]) {
        inside := !inside;
      }
      previous := index;
    }
  }

  lemma QuotientIs(a: real, b: real, c: real)
    requires b != 0.0 && a == c * b
    ensures a / b == c
  {
  }

  /** The crossing height is met at the same x whichever end the edge is read from. */
  lemma XAtSymmetric(u: Point, v: Point, y: real)
    requires u.y != v.y
    ensures XAt(u, v, y) == XAt(v, u, y)
  {
    var h := v.y - u.y;
    var r := (y - u.y) / h;
    assert (y - v.y) / (u.y - v.y) == 1.0 - r by {
      assert y - u.y == r * h;
      assert y - v.y == (1.0 - r) * (u.y - v.y);
      QuotientIs(y - v.y, u.y - v.y, 1.0 - r);
    }
    assert (v.x - u.x) * (y - u.y) / h == (v.x - u.x) * r;
    assert (u.x - v.x) * (y - v.y) / (u.y - v.y) == (u.x - v.x) * (1.0 - r);
  }

  lemma CrossesSymmetric(p: Point, u: Point, v: Point)
    ensures Crosses(p, u, v) == Crosses(p, v, u)
  {
    if (u.y > p.y) != (v.y > p.y) {
      XAtSymmetric(u, v, p.y);
    }
  }

  /** Why the missing guard of the mask copy is harmless: two vertices or fewer never enclose a point. */
  lemma TinyPolygonsEncloseNothing(poly: Polygon, p: Point)
    requires |poly| < 3
    ensures !OddCrossings(poly, p)
  {
    if |poly| == 2 {
      CrossesSymmetric(p, poly[0], poly[1]);
      assert CrossingCount(poly, p, 1) == if Crosses(p, poly[0], poly[1]) then 1 else 0;
    } else if |poly| == 1 {
      assert CrossingCount(poly, p, 0) == 0;
    }
  }

  lemma InsideCopiesAgree(poly: Polygon, p: Point)
    ensures OddCrossings(poly, p) <==> Inside(poly, p)
  {
    if |poly| < 3 {
      TinyPolygonsEncloseNothing(poly, p);
    }
  }

  ghost predicate SegmentsMeet(p: Point, q: Point, u: Point, v: Point) {
    exists t: real, s: real :: MeetAt(p, q, u, v, t, s)
  }

  ghost predicate MeetAt(p: Point, q: Point, u: Point, v: Point, t: real, s: real) {
    0.0 <= t <= 1.0 && 0.0 <= s <= 1.0 && Lerp(p, q, t) == Lerp(u, v, s)
  }

  predicate YInside(a: real, b: real, y: real) {
    a <= y <= b || b <= y <= a
  }

  lemma UnitRatio(a: real, b: real)
    requires b != 0.0 && YInside(0.0, b, a)
    ensures 0.0 <= a / b <= 1.0 && a / b * b == a
  {
    var r := a / b;
    assert r * b == a;
    assert (r - 1.0) * b == a - b;
  }

  /** The point of a non-horizontal segment at a height it spans. */
  lemma PointAtHeight(u: Point, v: Point, y: real) returns (s: real)
    requires u.y != v.y && YInside(u.y, v.y, y)
    ensures 0.0 <= s <= 1.0 && Lerp(u, v, s) == Point(XAt(u, v, y), y)
  {
    var h := v.y - u.y;
    UnitRatio(y - u.y, h);
    s := (y - u.y) / h;
    QuotientIs((v.x - u.x) * (y - u.y), h, s * (v.x - u.x));
  }

  lemma XAtLinear(u: Point, v: Point, y1: real, y2: real, k: real)
    requires u.y != v.y
    ensures XAt(u, v, y1 + k * (y2 - y1)) == XAt(u, v, y1) + k * (XAt(u, v, y2) - XAt(u, v, y1))
  {
    var c := (v.x - u.x) / (v.y - u.y);
    XAtSlope(u, v, c, y1);
    XAtSlope(u, v, c, y2);
    XAtSlope(u, v, c, y1 + k * (y2 - y1));
    assert c * (y1 + k * (y2 - y1) - u.y) == c * (y1 - u.y) + k * (c * (y2 - u.y) - c * (y1 - u.y));
  }

  lemma XAtSlope(u: Point, v: Point, c: real, y: real)
    requires u.y != v.y && c == (v.x - u.x) / (v.y - u.y)
    ensures XAt(u, v, y) == c * (y - u.y) + u.x
  {
    QuotientIs((v.x - u.x) * (y - u.y), v.y - u.y, c * (y - u.y));
  }

  lemma XAtEnds(u: Point, v: Point)
    requires u.y != v.y
    ensures XAt(u, v, u.y) == u.x && XAt(u, v, v.y) == v.x
  {
    QuotientIs((v.x - u.x) * (v.y - u.y), v.y - u.y, v.x - u.x);
  }

  /** How far the line u-v runs to the right of the line p-q at height y. */
  function Lead(p: Point, q: Point, u: Point, v: Point, y: real): real
    requires p.y != q.y && u.y != v.y
  {
    XAt(u, v, y) - XAt(p, q, y)
  }

  lemma LeadLinear(p: Point, q: Point, u: Point, v: Point, y1: real, y2: real, k: real)
    requires p.y != q.y && u.y != v.y
    ensures Lead(p, q, u, v, y1 + k * (y2 - y1))
         == Lead(p, q, u, v, y1) + k * (Lead(p, q, u, v, y2) - Lead(p, q, u, v, y1))
  {
    XAtLinear(u, v, y1, y2, k);
    XAtLinear(p, q, y1, y2, k);
    var a, b, c, d := XAt(u, v, y1), XAt(u, v, y2), XAt(p, q, y1), XAt(p, q, y2);
    assert k * (b - a) - k * (d - c) == k * ((b - d) - (a - c));
  }

  lemma Root(g1: real, g2: real) returns (k: real)
    requires g1 <= 0.0 <= g2
    ensures 0.0 <= k <= 1.0 && g1 + k * (g2 - g1) == 0.0
  {
    if g1 == g2 {
      k := 0.0;
    } else {
      UnitRatio(-g1, g2 - g1);
      k := -g1 / (g2 - g1);
    }
  }

  lemma MeetAtHeight(p: Point, q: Point, u: Point, v: Point, y: real)
    requires p.y != q.y && u.y != v.y
    requires YInside(p.y, q.y, y) && YInside(u.y, v.y, y)
    requires Lead(p, q, u, v, y) == 0.0
    ensures SegmentsMeet(p, q, u, v)
  {
    var t := PointAtHeight(p, q, y);
    var s := PointAtHeight(u, v, y);
    assert MeetAt(p, q, u, v, t, s);
  }

  lemma RootHeight(p: Point, q: Point, u: Point, v: Point, y1: real, y2: real) returns (y: real)
    requires p.y != q.y && u.y != v.y
    requires Lead(p, q, u, v, y1) <= 0.0 <= Lead(p, q, u, v, y2)
    ensures YInside(y1, y2, y) && Lead(p, q, u, v, y) == 0.0
  {
    var k := Root(Lead(p, q, u, v, y1), Lead(p, q, u, v, y2));
    y := y1 + k * (y2 - y1);
    Between(y1, y2, k);
    LeadLinear(p, q, u, v, y1, y2, k);
  }

  /** Two segments that swap sides between two heights they both span must meet. */
  lemma SwapMeets(p: Point, q: Point, u: Point, v: Point, y1: real, y2: real)
    requires p.y != q.y && u.y != v.y
    requires YInside(p.y, q.y, y1) && YInside(p.y, q.y, y2)
    requires YInside(u.y, v.y, y1) && YInside(u.y, v.y, y2)
    requires Lead(p, q, u, v, y1) <= 0.0 <= Lead(p, q, u, v, y2)
    ensures SegmentsMeet(p, q, u, v)
  {
    var y := RootHeight(p, q, u, v, y1, y2);
    MeetAtHeight(p, q, u, v, y);
  }

  lemma Between(a: real, b: real, k: real)
    requires 0.0 <= k <= 1.0
    ensures YInside(a, b, a + k * (b - a))
  {
    var d := b - a;
    assert (1.0 - k) * d == d - k * d;
    if d >= 0.0 {
      ProductSign(k, d);
      ProductSign(1.0 - k, d);
    } else {
      ProductSign(k, -d);
      ProductSign(1.0 - k, -d);
      assert k * -d == -(k * d) && (1.0 - k) * -d == -((1.0 - k) * d);
    }
  }

  /** Segments that do not meet keep their sides at all heights they both span. */
  lemma KeepsSide(p: Point, q: Point, u: Point, v: Point, y1: real, y2: real)
    requires p.y != q.y && u.y != v.y
    requires YInside(p.y, q.y, y1) && YInside(p.y, q.y, y2)
    requires YInside(u.y, v.y, y1) && YInside(u.y, v.y, y2)
    requires !SegmentsMeet(p, q, u, v)
    ensures (Lead(p, q, u, v, y1) > 0.0) == (Lead(p, q, u, v, y2) > 0.0)
  {
    if Lead(p, q, u, v, y1) <= 0.0 <= Lead(p, q, u, v, y2) {
      SwapMeets(p, q, u, v, y1, y2);
    } else if Lead(p, q, u, v, y2) <= 0.0 <= Lead(p, q, u, v, y1) {
      SwapMeets(p, q, u, v, y2, y1);
    }
  }

  /** A level segment misses p-q only if both its ends lie on the same side of p-q. */
  lemma LevelKeepsSide(p: Point, q: Point, u: Point, v: Point)
    requires p.y != q.y && u.y == v.y && YInside(p.y, q.y, u.y)
    requires !SegmentsMeet(p, q, u, v)
    ensures (XAt(p, q, u.y) < u.x) == (XAt(p, q, u.y) < v.x)
  {
    var x := XAt(p, q, u.y);
    if u.x <= x <= v.x || v.x <= x <= u.x {
      var t := PointAtHeight(p, q, u.y);
      if u.x != v.x {
        UnitRatio(x - u.x, v.x - u.x);
      }
      var s := if u.x == v.x then 0.0 else (x - u.x) / (v.x - u.x);
      assert MeetAt(p, q, u, v, t, s);
    }
  }

  /**
   The half-open strip to the right of segment p-q (p not above q): the vertices the two
   rays disagree about. Entering or leaving it is the only way an edge can change parity.
   */
  predicate InWedge(p: Point, q: Point, w: Point)
    requires p.y <= q.y
  {
    p.y < w.y <= q.y && XAt(p, q, w.y) < w.x
  }

  lemma EdgeParity(p: Point, q: Point, u: Point, v: Point)
    requires p.y <= q.y
    requires !SegmentsMeet(p, q, u, v)
    ensures (Crosses(p, u, v) != Crosses(q, u, v)) == (InWedge(p, q, u) != InWedge(p, q, v))
  {
    if u.y == v.y {
      if p.y < u.y <= q.y {
        LevelKeepsSide(p, q, u, v);
      }
    } else if p.y == q.y {
      LevelRayParity(p, q, u, v);
    } else {
      SlopedEdgeParity(p, q, u, v);
    }
  }

  lemma LevelRayParity(p: Point, q: Point, u: Point, v: Point)
    requires p.y == q.y && u.y != v.y
    requires !SegmentsMeet(p, q, u, v)
    ensures Crosses(p, u, v) == Crosses(q, u, v)
  {
    if YInside(u.y, v.y, p.y) {
      XAtSide(u, v, p, q);
    }
  }

  lemma XAtSide(u: Point, v: Point, p: Point, q: Point)
    requires u.y != v.y && p.y == q.y && YInside(u.y, v.y, p.y)
    requires !SegmentsMeet(p, q, u, v)
    ensures (p.x < XAt(u, v, p.y)) == (q.x < XAt(u, v, p.y))
  {
    var x := XAt(u, v, p.y);
    if p.x <= x <= q.x || q.x <= x <= p.x {
      var s := PointAtHeight(u, v, p.y);
      if p.x != q.x {
        UnitRatio(x - p.x, q.x - p.x);
      }
      var t := if p.x == q.x then 0.0 else (x - p.x) / (q.x - p.x);
      assert MeetAt(p, q, u, v, t, s);
    }
  }

  lemma SlopedEdgeParity(p: Point, q: Point, u: Point, v: Point)
    requires p.y < q.y && u.y != v.y
    requires !SegmentsMeet(p, q, u, v)
    ensures (Crosses(p, u, v) != Crosses(q, u, v)) == (InWedge(p, q, u) != InWedge(p, q, v))
  {
    XAtEnds(p, q);
    XAtEnds(u, v);
    var lo, hi := if u.y < v.y then u else v, if u.y < v.y then v else u;
    assert Crosses(p, u, v) <==> lo.y <= p.y < hi.y && Lead(p, q, u, v, p.y) > 0.0;
    assert Crosses(q, u, v) <==> lo.y <= q.y < hi.y && Lead(p, q, u, v, q.y) > 0.0;
    assert InWedge(p, q, lo) <==> p.y < lo.y <= q.y && Lead(p, q, u, v, lo.y) > 0.0;
    assert InWedge(p, q, hi) <==> p.y < hi.y <= q.y && Lead(p, q, u, v, hi.y) > 0.0;
    // the heights both segments span run from `from` to `to`
    var from := if lo.y <= p.y then p.y else lo.y;
    var to := if hi.y > q.y then q.y else hi.y;
    if from <= to {
      KeepsSide(p, q, u, v, from, to);
    }
  }

  /** No edge of the polygon touches the segment p-q. */
  ghost predicate Misses(poly: Polygon, p: Point, q: Point) {
    forall k :: 0 <= k < |poly| ==> !SegmentsMeet(p, q, poly[k], Previous(poly, k))
  }

  predicate Odd(n: nat) {
    n % 2 == 1
  }

  lemma ParityStep(m: nat, n: nat, x: bool, y: bool)
    ensures (Odd(m + if x then 1 else 0) != Odd(n + if y then 1 else 0)) == ((Odd(m) != Odd(n)) != (x != y))
  {
  }

  /** The parity changes of the first k edges telescope to the two end vertices of that chain. */
  lemma {:induction false} ChainParity(poly: Polygon, p: Point, q: Point, k: nat)
    requires p.y <= q.y && 1 <= k <= |poly|
    requires Misses(poly, p, q)
    ensures (Odd(CrossingCount(poly, p, k)) != Odd(CrossingCount(poly, q, k)))
         == (InWedge(p, q, poly[k - 1]) != InWedge(p, q, poly[|poly| - 1]))
  {
    hide XAt, Crosses, InWedge, Odd;
    var u, v := poly[k - 1], Previous(poly, k - 1);
    EdgeParity(p, q, u, v);
    ParityStep(CrossingCount(poly, p, k - 1), CrossingCount(poly, q, k - 1), Crosses(p, u, v), Crosses(q, u, v));
    if k > 1 {
      ChainParity(poly, p, q, k - 1);
    }
  }

  /** Inside and outside are separated by the edges: a segment that meets none stays on one side. */
  lemma SameSide(poly: Polygon, p: Point, q: Point)
    requires Misses(poly, p, q)
    ensures Inside(poly, p) <==> Inside(poly, q)
  {
    if |poly| >= 3 {
      if p.y <= q.y {
        ChainParity(poly, p, q, |poly|);
      } else {
        MissesReversed(poly, p, q);
        ChainParity(poly, q, p, |poly|);
      }
    }
  }

  lemma MissesReversed(poly: Polygon, p: Point, q: Point)
    requires Misses(poly, p, q)
    ensures Misses(poly, q, p)
  {
    forall k | 0 <= k < |poly| ensures !SegmentsMeet(q, p, poly[k], Previous(poly, k)) {
      var u, v := poly[k], Previous(poly, k);
      if SegmentsMeet(q, p, u, v) {
        var t: real, s: real :| MeetAt(q, p, u, v, t, s);
        LerpReversed(p, q, t);
        assert MeetAt(p, q, u, v, 1.0 - t, s);
      }
    }
  }

  lemma LerpReversed(p: Point, q: Point, t: real)
    ensures Lerp(q, p, t) == Lerp(p, q, 1.0 - t)
  {
  }

  lemma LerpOfLerp(p: Point, q: Point, t: real, k: real)
    ensures Lerp(p, Lerp(p, q, t), k) == Lerp(p, q, k * t)
  {
    var dx, dy := q.x - p.x, q.y - p.y;
    assert (p.x + t * dx) - p.x == t * dx && (p.y + t * dy) - p.y == t * dy;
    assert k * (t * dx) == (k * t) * dx;
    assert k * (t * dy) == (k * t) * dy;
  }

  /** Missing the whole segment means missing every initial piece of it. */
  lemma MissesPrefix(poly: Polygon, p: Point, q: Point, t: real)
    requires Misses(poly, p, q) && 0.0 <= t <= 1.0
    ensures Misses(poly, p, Lerp(p, q, t))
  {
    forall k | 0 <= k < |poly| ensures !SegmentsMeet(p, Lerp(p, q, t), poly[k], Previous(poly, k)) {
      var u, v := poly[k], Previous(poly, k);
      if SegmentsMeet(p, Lerp(p, q, t), u, v) {
        var r: real, s: real :| MeetAt(p, Lerp(p, q, t), u, v, r, s);
        LerpOfLerp(p, q, t, r);
        MulMono(r, 1.0, t, 1.0);
        ProductSign(r, t);
        assert MeetAt(p, q, u, v, r * t, s);
      }
    }
  }
}
