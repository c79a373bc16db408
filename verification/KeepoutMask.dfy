/**
 The raster side of the geofence: the keepout mask writer maps cells to world points, the
 manual cleanup filter maps world points back to cells.
 */
module KeepoutMask {
  import opened Wrappers
  import opened Geometry
  import opened Polygon
  import opened PolygonDistance
  import opened Boundary

  /** Raster geometry; the yaw enters the projection only through its cosine and sine. */
  datatype Grid = Grid(
    width: int, height: int, resolution: real, originX: real, originY: real, yaw: real, cosYaw: real, sinYaw: real)

  /** The robot's own map file: none configured, one that cannot be read, or its header. */
  datatype LocalMap =
    | Absent
    | Unreadable
    | Header(width: int, height: int, resolution: real, originX: real, originY: real, yaw: real)

  predicate Close(x: real, y: real, tolerance: real) {
    -tolerance <= x - y <= tolerance
  }

  /** A local map must have the same size, resolution and origin. */
  predicate Agrees(g: Grid, l: LocalMap) {
    match l
    case Absent => true
    case Unreadable => false
    case Header(width, height, resolution, x, y, yaw) =>
      width == g.width && height == g.height && Close(resolution, g.resolution, 0.000000001) &&
      Close(x, g.originX, 0.000001) && Close(y, g.originY, 0.000001) && Close(yaw, g.yaw, 0.000001)
  }

  const MAX_CELLS := 100_000_000

  predicate Usable(g: Grid) {
    g.width > 0 && g.height > 0 && g.resolution > 0.0 && g.width * g.height <= MAX_CELLS
  }

  predicate Rotation(g: Grid) {
    g.cosYaw * g.cosYaw + g.sinYaw * g.sinYaw == 1.0
  }

  function ToWorld(g: Grid, lx: real, ly: real): Point {
    Point(g.originX + g.cosYaw * lx - g.sinYaw * ly, g.originY + g.sinYaw * lx + g.cosYaw * ly)
  }

  /** World position of the centre of a cell; row 0 is the top row. */
  function Centre(g: Grid, row: int, column: int): Point {
    ToWorld(g, (column as real + 0.5) * g.resolution, ((g.height - row) as real - 0.5) * g.resolution)
  }

  function Pixel(b: Boundary, g: Grid, i: nat): int
    requires g.width > 0
  {
    if MaskFree(b, Centre(g, i / g.width, i % g.width)) then 255 else 0
  }

  function Zeros(s: seq<int>): nat {
    if s == [] then 0 else Zeros(s[..|s| - 1]) + if s[|s| - 1] == 0 then 1 else 0
  }

  method CellBlocked(b: Boundary, p: Point) returns (blocked: bool)
    ensures blocked <==> !MaskFree(b, p)
  {
    hide OddCrossings, MaskPolygonDistance;
    var inside := MaskInside(p, b.outer);
    blocked := !inside || MaskPolygonDistance(p, b.outer).Below(Margin(b));
    if !blocked {
      for k := 0 to |b.zones|
        invariant !blocked
        invariant forall i :: 0 <= i < k ==> !MaskBlocksZone(b.zones[i], p, Margin(b))
      {
        var z := b.zones[k];
        if z.active && z.kind == Forbidden {
          inside := MaskInside(p, z.polygon);
          if inside || MaskPolygonDistance(p, z.polygon).Below(Margin(b)) {
            assert MaskBlocksZone(b.zones[k], p, Margin(b));
            return true;
          }
        }
      }
    }
  }

  /** `write_keepout_mask`: every cell of the raster, and the count of occupied ones. */
  method WriteKeepoutMask(b: Boundary, g: Grid, local: LocalMap) returns (r: Option<array<int>>, occupied: nat)
    ensures r.Some? <==> Usable(g) && Agrees(g, local)
    ensures r.Some? ==> g.width > 0 && g.height > 0 && g.resolution > 0.0 && g.width * g.height <= 100_000_000
    ensures r.Some? && !local.Absent? ==>
              local.Header? && local.width == g.width && local.height == g.height &&
              -0.000000001 <= local.resolution - g.resolution <= 0.000000001
    ensures r.Some? ==> fresh(r.value) && r.value.Length == g.width * g.height
    ensures r.Some? ==> Filled(b, g, r.value[..])
    ensures r.Some? ==> occupied == Zeros(r.value[..])
  {
    hide Pixel, Zeros;
    if g.width <= 0 || g.height <= 0 || g.resolution <= 0.0 || g.width * g.height > MAX_CELLS {
      return None, 0;
    }
    if !Agrees(g, local) {
      return None, 0;
    }
    var pixels := new int[g.width * g.height];
    occupied := 0;
    NoZeros();
    var start := 0;
    for row := 0 to g.height
      invariant start == row * g.width <= pixels.Length
      invariant Filled(b, g, pixels[..start])
      invariant occupied == Zeros(pixels[..start])
    {
      RowFits(row, g.width, g.height);
      var blocked := FillRow(b, g, pixels, row, start);
      occupied := occupied + blocked;
      start := start + g.width;
    }
    assert pixels[..] == pixels[..start];
    return Some(pixels), occupied;
  }

  lemma RowFits(row: int, width: int, height: int)
    requires 0 <= row < height && width > 0
    ensures 0 <= row * width && row * width + width <= width * height && row * width + width == (row + 1) * width
  {
    CellIndex(row, width - 1, width, height);
  }

  /** The inner loop over the columns of one row, which starts at flat index `start`. */
  method FillRow(b: Boundary, g: Grid, pixels: array<int>, row: int, start: nat) returns (blockedCells: nat)
    requires 0 <= row < g.height && g.width > 0 && start == row * g.width && start + g.width <= pixels.Length
    requires Filled(b, g, pixels[..start])
    modifies pixels
    ensures Filled(b, g, pixels[..start + g.width])
    ensures Zeros(pixels[..start + g.width]) == old(Zeros(pixels[..start])) + blockedCells
  {
    hide Pixel, Zeros;
    blockedCells := 0;
    for column := 0 to g.width
      invariant Filled(b, g, pixels[..start + column])
      invariant Zeros(pixels[..start + column]) == old(Zeros(pixels[..start])) + blockedCells
    {
      ghost var prefix := pixels[..start + column];
      var blocked := CellBlocked(b, Centre(g, row, column));
      pixels[start + column] := if blocked then 0 else 255;
      blockedCells := blockedCells + if blocked then 1 else 0;
      assert pixels[..start + column + 1] == prefix + [pixels[start + column]];
      FillOne(b, g, prefix, row, column, pixels[start + column]);
    }
  }

  predicate Filled(b: Boundary, g: Grid, s: seq<int>)
    requires g.width > 0
  {
    forall i :: 0 <= i < |s| ==> s[i] == Pixel(b, g, i)
  }

  lemma NoZeros()
    ensures Zeros([]) == 0
  {
  }

  lemma FillOne(b: Boundary, g: Grid, prefix: seq<int>, row: int, column: int, x: int)
    requires 0 <= row < g.height && 0 <= column < g.width && |prefix| == row * g.width + column
    requires Filled(b, g, prefix) && x == if MaskFree(b, Centre(g, row, column)) then 255 else 0
    ensures Filled(b, g, prefix + [x]) && Zeros(prefix + [x]) == Zeros(prefix) + if x == 0 then 1 else 0
  {
    hide MaskFree, Centre;
    CellIndex(row, column, g.width, g.height);
    assert (prefix + [x])[..|prefix|] == prefix;
  }

  lemma CellIndex(row: int, column: int, width: int, height: int)
    requires 0 <= row < height && 0 <= column < width
    ensures 0 <= row * width + column < width * height
    ensures (row * width + column) / width == row && (row * width + column) % width == column
  {
    CellInRange(row, column, width, height);
    DivisionUnique(row * width + column, width, row, column);
  }

  lemma CellInRange(row: int, column: int, width: int, height: int)
    requires 0 <= row < height && 0 <= column < width
    ensures 0 <= row * width + column < width * height
  {
    var above := height - 1 - row;
    assert row * width >= 0 && above * width >= 0;
    assert width * height == row * width + width + above * width;
  }

  lemma DivisionUnique(x: int, w: int, q: int, r: int)
    requires w > 0 && 0 <= r < w && x == q * w + r
    ensures x / w == q && x % w == r
  {
    var d := q - x / w;
    assert x == (x / w) * w + x % w;
    assert d * w == x % w - r;
    assert d >= 1 ==> d * w >= w;
    assert d <= -1 ==> d * w <= -w;
  }

  /** A mask cell is free exactly when admission accepts its centre and the watchdog stays silent there. */
  lemma MaskCellsAgree(b: Boundary, g: Grid, row: int, column: int, expected: int)
    requires Applied(b) && Usable(g) && (expected == 0 || expected == b.revision)
    requires 0 <= row < g.height && 0 <= column < g.width
    ensures 0 <= row * g.width + column
    ensures var free := Pixel(b, g, row * g.width + column) == 255;
            var c := Centre(g, row, column);
            (free <==> PointVerdict(b, b.mapId, c, expected).Accepted?) && (free <==> Violation(b, c) == "")
  {
    hide MaskFree, Centre, PointVerdict, Violation;
    CellIndex(row, column, g.width, g.height);
    ThreeLayersAgree(b, Centre(g, row, column), expected);
  }

  // ---- back from the world to the raster ---------------------------------------------

  function LocalX(g: Grid, p: Point): real {
    g.cosYaw * (p.x - g.originX) + g.sinYaw * (p.y - g.originY)
  }

  function LocalY(g: Grid, p: Point): real {
    -g.sinYaw * (p.x - g.originX) + g.cosYaw * (p.y - g.originY)
  }

  /** The cleanup filter's projection. */
  function Column(g: Grid, p: Point): int
    requires g.resolution > 0.0
  {
    (LocalX(g, p) / g.resolution).Floor
  }

  function Row(g: Grid, p: Point): int
    requires g.resolution > 0.0
  {
    g.height - 1 - (LocalY(g, p) / g.resolution).Floor
  }

  lemma RotateBack(c: real, s: real, lx: real, ly: real)
    requires c * c + s * s == 1.0
    ensures c * (c * lx - s * ly) + s * (s * lx + c * ly) == lx
    ensures -s * (c * lx - s * ly) + c * (s * lx + c * ly) == ly
  {
    var k := c * c + s * s;
    assert c * (c * lx - s * ly) + s * (s * lx + c * ly) == k * lx;
    assert -s * (c * lx - s * ly) + c * (s * lx + c * ly) == k * ly;
  }

  /** Rotating into the world and back changes no local coordinate. */
  lemma WorldRoundTrip(g: Grid, lx: real, ly: real)
    requires Rotation(g)
    ensures LocalX(g, ToWorld(g, lx, ly)) == lx && LocalY(g, ToWorld(g, lx, ly)) == ly
  {
    RotateBack(g.cosYaw, g.sinYaw, lx, ly);
    var p := ToWorld(g, lx, ly);
    assert p.x - g.originX == g.cosYaw * lx - g.sinYaw * ly;
    assert p.y - g.originY == g.sinYaw * lx + g.cosYaw * ly;
  }

  lemma FloorOfScaled(x: real, k: int, f: real, resolution: real)
    requires resolution > 0.0 && 0.0 <= f < 1.0 && x == (k as real + f) * resolution
    ensures (x / resolution).Floor == k
  {
    QuotientIs(x, resolution, k as real + f);
  }

  /**
   Every point of a cell, not only its centre, is projected back into that cell: u and v are
   the fractions of a cell to the right of and above its lower left corner.
   */
  lemma GridRoundTrip(g: Grid, row: int, column: int, u: real, v: real, lx: real, ly: real)
    requires g.resolution > 0.0 && Rotation(g)
    requires 0.0 <= u < 1.0 && 0.0 <= v < 1.0
    requires lx == (column as real + u) * g.resolution && ly == ((g.height - row - 1) as real + v) * g.resolution
    ensures Column(g, ToWorld(g, lx, ly)) == column && Row(g, ToWorld(g, lx, ly)) == row
  {
    hide ToWorld, LocalX, LocalY, Rotation;
    WorldRoundTrip(g, lx, ly);
    FloorOfScaled(lx, column, u, g.resolution);
    FloorOfScaled(ly, g.height - row - 1, v, g.resolution);
  }

  /** The mask writer's cell centre is projected back to the same row and column. */
  lemma CentreRoundTrip(g: Grid, row: int, column: int)
    requires g.resolution > 0.0 && Rotation(g)
    ensures Column(g, Centre(g, row, column)) == column && Row(g, Centre(g, row, column)) == row
  {
    hide Column, Row, Rotation;
    var lx, ly := (column as real + 0.5) * g.resolution, ((g.height - row) as real - 0.5) * g.resolution;
    assert Centre(g, row, column) == ToWorld(g, lx, ly);
    assert (g.height - row - 1) as real + 0.5 == (g.height - row) as real - 0.5;
    GridRoundTrip(g, row, column, 0.5, 0.5, lx, ly);
  }

  /** A cloud point as the filter sees it: None when a coordinate is not finite. */
  type CloudPoint = Option<Point>

  predicate Erases(g: Grid, erased: set<(int, int)>, c: CloudPoint)
    requires g.resolution > 0.0
  {
    c.Some? &&
    var row, column := Row(g, c.value), Column(g, c.value);
    0 <= row < g.height && 0 <= column < g.width && (row, column) in erased
  }

  /** `_filter_point_cloud`: the keep mask, overwritten in place for finite points inside the image. */
  method KeepMask(g: Grid, erased: set<(int, int)>, points: seq<CloudPoint>) returns (keep: array<bool>)
    requires g.resolution > 0.0
    ensures fresh(keep) && keep.Length == |points|
    ensures forall i :: 0 <= i < |points| ==> keep[i] == !Erases(g, erased, points[i])
  {
    hide Row, Column;
    keep := new bool[|points|](_ => true);
    if erased != {} {
      for i := 0 to |points|
        invariant forall k :: 0 <= k < i ==> keep[k] == !Erases(g, erased, points[k])
        invariant forall k :: i <= k < |points| ==> keep[k]
      {
        if points[i].Some? {
          var row, column := Row(g, points[i].value), Column(g, points[i].value);
          if 0 <= row < g.height && 0 <= column < g.width {
            keep[i] := (row, column) !in erased;
          }
        }
      }
    }
  }

  /** A finite point anywhere in a cell is erased exactly when that cell is in the image and erased; others are kept. */
  lemma ErasedIff(g: Grid, erased: set<(int, int)>, row: int, column: int, u: real, v: real, lx: real, ly: real)
    requires g.resolution > 0.0 && Rotation(g)
    requires 0.0 <= u < 1.0 && 0.0 <= v < 1.0
    requires lx == (column as real + u) * g.resolution && ly == ((g.height - row - 1) as real + v) * g.resolution
    ensures Erases(g, erased, Some(ToWorld(g, lx, ly))) <==>
              0 <= row < g.height && 0 <= column < g.width && (row, column) in erased
    ensures !Erases(g, erased, None)
  {
    hide Row, Column, ToWorld, Rotation;
    GridRoundTrip(g, row, column, u, v, lx, ly);
  }
}
