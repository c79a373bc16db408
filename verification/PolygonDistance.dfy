/** Distance from a point to a closed polygon, as a minimum over its edges (squared). */
module PolygonDistance {
  import opened Geometry
  import opened Polygon

  /** `math.inf` for fewer than two vertices, otherwise the squared distance. */
  datatype Distance = Infinite | Finite(sq: real) {
    predicate Below(m: real) {
      Finite? && sq < m * m
    }

    predicate Within(m: real) {
      Finite? && sq <= m * m
    }
  }

  function Next(poly: Polygon, k: nat): Point
    requires k < |poly|
  {
    poly[(k + 1) % |poly|]
  }

  function Min(a: real, b: real): (m: real)
    ensures m <= a && m <= b && (m == a || m == b)
  {
    if b < a then b else a
  }

  function EdgeMin(poly: Polygon, p: Point, k: nat): real
    requires 1 <= k <= |poly|
  {
    var d := SegmentDist2(p, poly[k - 1], Next(poly, k - 1));
    if k == 1 then d else Min(EdgeMin(poly, p, k - 1), d)
  }

  /** `_distance_to_polygon` */
  function DistanceToPolygon(p: Point, poly: Polygon): Distance {
    if |poly| < 2 then Infinite else Finite(EdgeMin(poly, p, |poly|))
  }

  /** The minimum is below a bound exactly when some edge is. */
  lemma {:induction false} EdgeMinBound(poly: Polygon, p: Point, k: nat, bound: real)
    requires 1 <= k <= |poly|
    ensures EdgeMin(poly, p, k) >= bound
       <==> forall i :: 0 <= i < k ==> SegmentDist2(p, poly[i], Next(poly, i)) >= bound
  {
    if k > 1 {
      EdgeMinBound(poly, p, k - 1, bound);
    }
  }

  /** The mask writer subtracts in another order; over the reals it is the same number. */
  function MaskSegmentDist2(p: Point, a: Point, b: Point): real {
    var dx, dy := b.x - a.x, b.y - a.y;
    var r := NearestRatio(p, a, b);
    (p.x - a.x - r * dx) * (p.x - a.x - r * dx) + (p.y - a.y - r * dy) * (p.y - a.y - r * dy)
  }

  function MaskEdgeMin(poly: Polygon, p: Point, k: nat): real
    requires 1 <= k <= |poly|
  {
    var d := MaskSegmentDist2(p, poly[k - 1], Next(poly, k - 1));
    if k == 1 then d else Min(MaskEdgeMin(poly, p, k - 1), d)
  }

  /** `_polygon_distance` of the mask writer */
  function MaskPolygonDistance(p: Point, poly: Polygon): Distance {
    if |poly| >= 2 then Finite(MaskEdgeMin(poly, p, |poly|)) else Infinite
  }

  lemma MaskSegmentAgrees(p: Point, a: Point, b: Point)
    ensures MaskSegmentDist2(p, a, b) == SegmentDist2(p, a, b)
  {
    var r := NearestRatio(p, a, b);
    assert p.x - a.x - r * (b.x - a.x) == p.x - (a.x + r * (b.x - a.x));
    assert p.y - a.y - r * (b.y - a.y) == p.y - (a.y + r * (b.y - a.y));
  }

  lemma {:induction false} MaskEdgeMinAgrees(poly: Polygon, p: Point, k: nat)
    requires 1 <= k <= |poly|
    ensures MaskEdgeMin(poly, p, k) == EdgeMin(poly, p, k)
  {
    MaskSegmentAgrees(p, poly[k - 1], Next(poly, k - 1));
    if k > 1 {
      MaskEdgeMinAgrees(poly, p, k - 1);
    }
  }

  lemma DistanceCopiesAgree(p: Point, poly: Polygon)
    ensures MaskPolygonDistance(p, poly) == DistanceToPolygon(p, poly)
  {
    if |poly| >= 2 {
      MaskEdgeMinAgrees(poly, p, |poly|);
    }
  }
}
