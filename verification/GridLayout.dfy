/** How lat/lon map to grid cells: centers, footprints and the index boxes scanned for a polygon. */
module GridLayout {
  import opened Vectors
  import opened Segments
  import opened RayCast
  import opened PolygonRect
  import opened AxisSearch

  datatype GridIndex = GridIndex(ny: nat, nx: nat, lat: seq<real>, lon: seq<real>)

  datatype SpatialLayout =
    | Rectilinear(lat: Axis, lon: Axis)
    | Curvilinear(grid: GridIndex)
    | Points(plat: seq<real>, plon: seq<real>)

  /** Half-open index box. */
  datatype BBox = BBox(rMin: int, rMax: int, cMin: int, cMax: int)

  ghost predicate ValidGrid(grid: GridIndex) {
    |grid.lat| == |grid.lon| == grid.ny * grid.nx
  }

  ghost predicate ValidLayout(layout: SpatialLayout) {
    match layout
    case Rectilinear(lat, lon) => Monotone(lat) && Monotone(lon)
    case Curvilinear(grid) => ValidGrid(grid)
    case Points(lat, lon) => |lat| == |lon|
  }

  function NRows(layout: SpatialLayout): nat {
    match layout
    case Rectilinear(lat, _) => |lat|
    case Curvilinear(grid) => grid.ny
    case Points(lat, _) => |lat|
  }

  function NCols(layout: SpatialLayout): nat {
    match layout
    case Rectilinear(_, lon) => |lon|
    case Curvilinear(grid) => grid.nx
    case Points(_, _) => 1
  }

  ghost predicate InGrid(layout: SpatialLayout, i: int, j: int) {
    0 <= i < NRows(layout) && 0 <= j < NCols(layout)
  }

  function GridAt(grid: GridIndex, i: nat, j: nat): Point
    requires ValidGrid(grid) && i < grid.ny && j < grid.nx
  {
    SlabInside(i, grid.ny, grid.nx);
    Point(grid.lat[i * grid.nx + j], grid.lon[i * grid.nx + j])
  }

  function Center(layout: SpatialLayout, i: nat, j: nat): Point
    requires ValidLayout(layout) && InGrid(layout, i, j)
  {
    match layout
    case Rectilinear(lat, lon) => Point(lat[i], lon[j])
    case Curvilinear(grid) => GridAt(grid, i, j)
    case Points(lat, lon) => Point(lat[i], lon[i])
  }

  predicate HasFootprints(layout: SpatialLayout) {
    !layout.Points?
  }

  // -------------------------------------------------- curvilinear footprints

  /** Half the step towards a neighbour, if there is one. */
  function Half(grid: GridIndex, i: nat, j: nat, ii: int, jj: int): Option<Point>
    requires ValidGrid(grid) && i < grid.ny && j < grid.nx
  {
    if ii < 0 || ii >= grid.ny || jj < 0 || jj >= grid.nx then None
    else
      var c, n := GridAt(grid, i, j), GridAt(grid, ii, jj);
      Some(Point((n.y - c.y) / 2.0, (n.x - c.x) / 2.0))
  }

  /** Opposite half steps; a missing one mirrors the other. */
  function Pair(a: Option<Point>, b: Option<Point>): seq<Point> {
    match (a, b)
    case (Some(p), Some(q)) => [p, q]
    case (Some(p), None) => [p, Point(-p.y, -p.x)]
    case (None, Some(q)) => [Point(-q.y, -q.x), q]
    case (None, None) => []
  }

  function Offsets(grid: GridIndex, i: nat, j: nat): seq<Point>
    requires ValidGrid(grid) && i < grid.ny && j < grid.nx
  {
    Pair(Half(grid, i, j, i - 1, j), Half(grid, i, j, i + 1, j))
    + Pair(Half(grid, i, j, i, j - 1), Half(grid, i, j, i, j + 1))
  }

  /** The center followed by its midpoints towards the neighbours. */
  ghost function CellPoints(c: Point, offsets: seq<Point>): (points: seq<Point>)
    ensures |points| == |offsets| + 1
  {
    [c] + seq(|offsets|, k requires 0 <= k < |offsets| => Point(c.y + offsets[k].y, c.x + offsets[k].x))
  }

  /** The least rectangle around a cell's center and midpoints. */
  ghost function Footprint2d(grid: GridIndex, i: nat, j: nat): Rect
    requires ValidGrid(grid) && i < grid.ny && j < grid.nx
  {
    var e := EnvelopeOf(CellPoints(GridAt(grid, i, j), Offsets(grid, i, j)));
    Rect(e.latMin, e.latMax, e.lonMin, e.lonMax)
  }

  lemma CellPointsGrow(c: Point, offsets: seq<Point>, k: nat)
    requires k < |offsets|
    ensures CellPoints(c, offsets[..k + 1]) == CellPoints(c, offsets[..k]) + [Point(c.y + offsets[k].y, c.x + offsets[k].x)]
  {
  }

  lemma EnvelopeGrows(e: Envelope, points: seq<Point>, v: Point)
    requires IsEnvelope(e, points)
    ensures IsEnvelope(Envelope(MinR(v.y, e.latMin), MaxR(v.y, e.latMax), MinR(v.x, e.lonMin), MaxR(v.x, e.lonMax)), points + [v])
  {
    assert forall w :: w in points + [v] <==> w in points || w == v;
  }

  method CellBounds2d(grid: GridIndex, i: nat, j: nat) returns (r: Rect)
    requires ValidGrid(grid) && i < grid.ny && j < grid.nx
    ensures r == Footprint2d(grid, i, j)
  {
    hide IsEnvelope, Offsets, GridAt, CellPoints, EnvelopeOf, ValidGrid;
    var c := GridAt(grid, i, j);
    var offsets := Offsets(grid, i, j);
    var latLo, latHi, lonLo, lonHi := c.y, c.y, c.x, c.x;
    SinglePointEnvelope(c, offsets);
    var k := 0;
    while k < |offsets|
      invariant 0 <= k <= |offsets|
      invariant IsEnvelope(Envelope(latLo, latHi, lonLo, lonHi), CellPoints(c, offsets[..k]))
    {
      var la := c.y + offsets[k].y;
      var lo := c.x + offsets[k].x;
      CellPointsGrow(c, offsets, k);
      EnvelopeGrows(Envelope(latLo, latHi, lonLo, lonHi), CellPoints(c, offsets[..k]), Point(la, lo));
      if la < latLo { latLo := la; }
      if la > latHi { latHi := la; }
      if lo < lonLo { lonLo := lo; }
      if lo > lonHi { lonHi := lo; }
      k := k + 1;
    }
    assert offsets[..k] == offsets;
    EnvelopeUnique(Envelope(latLo, latHi, lonLo, lonHi), EnvelopeOf(CellPoints(c, offsets)), CellPoints(c, offsets));
    r := Rect(latLo, latHi, lonLo, lonHi);
  }

  lemma SinglePointEnvelope(c: Point, offsets: seq<Point>)
    ensures IsEnvelope(Envelope(c.y, c.y, c.x, c.x), CellPoints(c, offsets[..0]))
  {
    assert CellPoints(c, offsets[..0]) == [c];
    assert c in [c];
  }

  // -------------------------------------------------------------- footprints

  ghost function Footprint(layout: SpatialLayout, i: nat, j: nat): Rect
    requires ValidLayout(layout) && HasFootprints(layout) && InGrid(layout, i, j)
  {
    match layout
    case Rectilinear(lat, lon) =>
      Rect(AxisCellSpan(lat, i).0, AxisCellSpan(lat, i).1, AxisCellSpan(lon, j).0, AxisCellSpan(lon, j).1)
    case Curvilinear(grid) => Footprint2d(grid, i, j)
  }

  // ------------------------------------------------ what a footprint should be

  /** Where the grid puts a cell. */
  ghost function Spot(grid: GridIndex, i: int, j: int): Point
    requires ValidGrid(grid) && 0 <= i < grid.ny && 0 <= j < grid.nx
  {
    SlabInside(i, grid.ny, grid.nx);
    Point(grid.lat[i * grid.nx + j], grid.lon[i * grid.nx + j])
  }

  /** The middle of `c` and `n`. */
  ghost predicate IsMiddle(p: Point, c: Point, n: Point) {
    2.0 * p.y == c.y + n.y && 2.0 * p.x == c.x + n.x
  }

  /** The midpoint towards one neighbour; where there is none, the opposite midpoint mirrored at the center. */
  ghost predicate EdgePoint(grid: GridIndex, i: int, j: int, di: int, dj: int, p: Point)
    requires ValidGrid(grid) && 0 <= i < grid.ny && 0 <= j < grid.nx
  {
    var c := Spot(grid, i, j);
    if 0 <= i + di < grid.ny && 0 <= j + dj < grid.nx then IsMiddle(p, c, Spot(grid, i + di, j + dj))
    else
      && 0 <= i - di < grid.ny && 0 <= j - dj < grid.nx
      && IsMiddle(Point(2.0 * c.y - p.y, 2.0 * c.x - p.x), c, Spot(grid, i - di, j - dj))
  }

  /** The points a curvilinear footprint is drawn around: the center and the four edge points. */
  ghost predicate DrawnAround(grid: GridIndex, i: int, j: int, p: Point)
    requires ValidGrid(grid) && 0 <= i < grid.ny && 0 <= j < grid.nx
  {
    || p == Spot(grid, i, j)
    || EdgePoint(grid, i, j, -1, 0, p) || EdgePoint(grid, i, j, 1, 0, p)
    || EdgePoint(grid, i, j, 0, -1, p) || EdgePoint(grid, i, j, 0, 1, p)
  }

  /** The least rectangle around those points. */
  ghost predicate IsDrawn(grid: GridIndex, i: int, j: int, r: Rect)
    requires ValidGrid(grid) && 0 <= i < grid.ny && 0 <= j < grid.nx
  {
    && (forall p: Point :: DrawnAround(grid, i, j, p) ==> r.latLo <= p.y <= r.latHi && r.lonLo <= p.x <= r.lonHi)
    && (exists p: Point :: DrawnAround(grid, i, j, p) && p.y == r.latLo)
    && (exists p: Point :: DrawnAround(grid, i, j, p) && p.y == r.latHi)
    && (exists p: Point :: DrawnAround(grid, i, j, p) && p.x == r.lonLo)
    && (exists p: Point :: DrawnAround(grid, i, j, p) && p.x == r.lonHi)
  }

  /** `r` is the footprint of a cell. */
  ghost predicate IsFootprint(layout: SpatialLayout, i: int, j: int, r: Rect)
    requires ValidLayout(layout)
  {
    match layout
    case Rectilinear(lat, lon) =>
      0 <= i < |lat| && 0 <= j < |lon| && IsSpan(lat, i, r.latLo, r.latHi) && IsSpan(lon, j, r.lonLo, r.lonHi)
    case Curvilinear(grid) => 0 <= i < grid.ny && 0 <= j < grid.nx && IsDrawn(grid, i, j, r)
    case Points(_, _) => false
  }

  lemma GridAtIsSpot(grid: GridIndex, i: nat, j: nat)
    requires ValidGrid(grid) && i < grid.ny && j < grid.nx
    ensures GridAt(grid, i, j) == Spot(grid, i, j)
  {
  }

  /** A half step ends at the midpoint. */
  lemma HalfIsMiddle(grid: GridIndex, i: nat, j: nat, ii: int, jj: int, p: Point)
    requires ValidGrid(grid) && i < grid.ny && j < grid.nx
    ensures Half(grid, i, j, ii, jj).Some? <==> 0 <= ii < grid.ny && 0 <= jj < grid.nx
    ensures Half(grid, i, j, ii, jj).Some? ==>
              var c, n, h := Spot(grid, i, j), Spot(grid, ii, jj), Half(grid, i, j, ii, jj).value;
              && (p == Point(c.y + h.y, c.x + h.x) <==> IsMiddle(p, c, n))
              && (p == Point(c.y - h.y, c.x - h.x) <==> IsMiddle(Point(2.0 * c.y - p.y, 2.0 * c.x - p.x), c, n))
  {
    hide GridAt, ValidGrid, Spot;
    GridAtIsSpot(grid, i, j);
    if 0 <= ii < grid.ny && 0 <= jj < grid.nx {
      GridAtIsSpot(grid, ii, jj);
    }
  }

  /** Some offset of the list leads from `c` to `p`. */
  ghost predicate Leads(c: Point, offsets: seq<Point>, p: Point) {
    exists k :: 0 <= k < |offsets| && p == Point(c.y + offsets[k].y, c.x + offsets[k].x)
  }

  /** One pair of opposite half steps leads to the two edge points. */
  lemma PairLeads(grid: GridIndex, i: nat, j: nat, di: int, dj: int, p: Point)
    requires ValidGrid(grid) && i < grid.ny && j < grid.nx
    ensures Leads(Spot(grid, i, j), Pair(Half(grid, i, j, i - di, j - dj), Half(grid, i, j, i + di, j + dj)), p)
       <==> EdgePoint(grid, i, j, -di, -dj, p) || EdgePoint(grid, i, j, di, dj, p)
  {
    hide ValidGrid, Spot, Half, IsMiddle, Pair, Leads;
    var c := Spot(grid, i, j);
    HalfIsMiddle(grid, i, j, i - di, j - dj, p);
    HalfIsMiddle(grid, i, j, i + di, j + dj, p);
    PairMembers(c, Half(grid, i, j, i - di, j - dj), Half(grid, i, j, i + di, j + dj), p);
  }

  lemma PairMembers(c: Point, a: Option<Point>, b: Option<Point>, p: Point)
    ensures Leads(c, Pair(a, b), p) <==>
              || (a.Some? && p == Point(c.y + a.value.y, c.x + a.value.x))
              || (b.Some? && p == Point(c.y + b.value.y, c.x + b.value.x))
              || (a.Some? && b.None? && p == Point(c.y - a.value.y, c.x - a.value.x))
              || (a.None? && b.Some? && p == Point(c.y - b.value.y, c.x - b.value.x))
  {
    var r := Pair(a, b);
    if |r| == 2 {
      assert Leads(c, r, p) <==> p == Point(c.y + r[0].y, c.x + r[0].x) || p == Point(c.y + r[1].y, c.x + r[1].x);
    }
  }

  lemma LeadsJoin(c: Point, a: seq<Point>, b: seq<Point>, p: Point)
    ensures Leads(c, a + b, p) <==> Leads(c, a, p) || Leads(c, b, p)
  {
    var all := a + b;
    if Leads(c, a, p) {
      var k :| 0 <= k < |a| && p == Point(c.y + a[k].y, c.x + a[k].x);
      assert all[k] == a[k];
    }
    if Leads(c, b, p) {
      var k :| 0 <= k < |b| && p == Point(c.y + b[k].y, c.x + b[k].x);
      assert all[|a| + k] == b[k];
    }
    if Leads(c, all, p) {
      var k :| 0 <= k < |all| && p == Point(c.y + all[k].y, c.x + all[k].x);
      assert k < |a| ==> all[k] == a[k];
      assert k >= |a| ==> all[k] == b[k - |a|];
    }
  }

  lemma CellPointsMembers(c: Point, offsets: seq<Point>, p: Point)
    ensures p in CellPoints(c, offsets) <==> p == c || Leads(c, offsets, p)
  {
    var points := CellPoints(c, offsets);
    assert points[0] == c;
    if Leads(c, offsets, p) {
      var k :| 0 <= k < |offsets| && p == Point(c.y + offsets[k].y, c.x + offsets[k].x);
      assert points[k + 1] == p;
    }
  }

  /** The points of a cell are those its footprint is drawn around. */
  lemma CellPointsAreDrawn(grid: GridIndex, i: nat, j: nat, p: Point)
    requires ValidGrid(grid) && i < grid.ny && j < grid.nx
    ensures p in CellPoints(GridAt(grid, i, j), Offsets(grid, i, j)) <==> DrawnAround(grid, i, j, p)
  {
    hide GridAt, ValidGrid, Spot, Half, Pair, Leads, EdgePoint, CellPoints;
    var c := Spot(grid, i, j);
    GridAtIsSpot(grid, i, j);
    CellPointsMembers(c, Offsets(grid, i, j), p);
    LeadsJoin(c, Pair(Half(grid, i, j, i - 1, j), Half(grid, i, j, i + 1, j)), Pair(Half(grid, i, j, i, j - 1), Half(grid, i, j, i, j + 1)), p);
    PairLeads(grid, i, j, 1, 0, p);
    PairLeads(grid, i, j, 0, 1, p);
  }

  lemma Footprint2dIsDrawn(grid: GridIndex, i: nat, j: nat)
    requires ValidGrid(grid) && i < grid.ny && j < grid.nx
    ensures IsDrawn(grid, i, j, Footprint2d(grid, i, j))
  {
    hide GridAt, ValidGrid, DrawnAround, CellPoints, EnvelopeOf, Offsets;
    forall p: Point ensures p in CellPoints(GridAt(grid, i, j), Offsets(grid, i, j)) <==> DrawnAround(grid, i, j, p) {
      CellPointsAreDrawn(grid, i, j, p);
    }
  }

  /** What the reader computes for a cell is its footprint. */
  lemma FootprintIsDrawn(layout: SpatialLayout, i: nat, j: nat)
    requires ValidLayout(layout) && HasFootprints(layout) && InGrid(layout, i, j)
    ensures IsFootprint(layout, i, j, Footprint(layout, i, j))
  {
    hide AxisCellSpan, Footprint2d, IsDrawn, IsSpan;
    match layout
    case Rectilinear(lat, lon) =>
      SpanIsMidpoints(lat, i);
      SpanIsMidpoints(lon, j);
    case Curvilinear(grid) => Footprint2dIsDrawn(grid, i, j);
  }

  lemma SpanUnique(axis: Axis, i: nat, lo: real, hi: real, lo2: real, hi2: real)
    requires i < |axis| && IsSpan(axis, i, lo, hi) && IsSpan(axis, i, lo2, hi2)
    ensures lo == lo2 && hi == hi2
  {
  }

  /** A cell has one footprint. */
  lemma FootprintIsUnique(layout: SpatialLayout, i: int, j: int, r: Rect, q: Rect)
    requires ValidLayout(layout) && IsFootprint(layout, i, j, r) && IsFootprint(layout, i, j, q)
    ensures r == q
  {
    hide DrawnAround, IsSpan;
    match layout
    case Rectilinear(lat, lon) =>
      SpanUnique(lat, i, r.latLo, r.latHi, q.latLo, q.latHi);
      SpanUnique(lon, j, r.lonLo, r.lonHi, q.lonLo, q.lonHi);
    case Curvilinear(grid) =>
  }

  /** A footprint is a proper rectangle around the cell's center. */
  lemma FootprintHoldsCenter(layout: SpatialLayout, i: nat, j: nat)
    requires ValidLayout(layout) && HasFootprints(layout) && InGrid(layout, i, j)
    ensures Proper(Footprint(layout, i, j)) && InRect(Center(layout, i, j), Footprint(layout, i, j))
  {
    match layout
    case Rectilinear(lat, lon) =>
      SpanHoldsCenter(lat, i);
      SpanHoldsCenter(lon, j);
    case Curvilinear(grid) =>
      var points := CellPoints(GridAt(grid, i, j), Offsets(grid, i, j));
      assert points[0] in points;
  }

  method CellBounds(layout: SpatialLayout, i: nat, j: nat) returns (r: Rect)
    requires ValidLayout(layout) && HasFootprints(layout) && InGrid(layout, i, j)
    ensures r == Footprint(layout, i, j)
  {
    match layout
    case Rectilinear(lat, lon) =>
      var rows, cols := AxisCellSpan(lat, i), AxisCellSpan(lon, j);
      r := Rect(rows.0, rows.1, cols.0, cols.1);
    case Curvilinear(grid) =>
      r := CellBounds2d(grid, i, j);
  }

  // ------------------------------------------------------------- index boxes

  ghost predicate RectOverlaps(r: Rect, env: Envelope) {
    r.latHi >= env.latMin && r.latLo <= env.latMax && r.lonHi >= env.lonMin && r.lonLo <= env.lonMax
  }

  /** What the box scan looks for: centers, or in cover mode footprints, that reach the envelope. */
  ghost predicate Reaches(layout: SpatialLayout, env: Envelope, cover: bool, i: nat, j: nat)
    requires ValidLayout(layout) && InGrid(layout, i, j)
  {
    if cover && HasFootprints(layout) then RectOverlaps(Footprint(layout, i, j), env)
    else InEnvelope(Center(layout, i, j), env)
  }

  ghost predicate BoxInGrid(layout: SpatialLayout, b: BBox) {
    0 <= b.rMin <= b.rMax <= NRows(layout) && 0 <= b.cMin <= b.cMax <= NCols(layout)
  }

  predicate InBBox(b: BBox, i: int, j: int) {
    b.rMin <= i < b.rMax && b.cMin <= j < b.cMax
  }

  function MinI(a: int, b: int): int { if a <= b then a else b }

  function MaxI(a: int, b: int): int { if a >= b then a else b }

  function ClampRange(lo: int, hi: int, n: nat): (r: (nat, nat))
    ensures r.0 <= r.1 <= n
    ensures 0 <= lo <= hi <= n ==> r == (lo as nat, hi as nat)
  {
    var a := MaxI(0, MinI(lo, n));
    var b := MaxI(a, MinI(hi, n));
    (a, b)
  }

  /** Cell `(r, c)` comes before `(i, j)` in row-major order. */
  ghost predicate Before(r: int, c: int, i: int, j: int) {
    r < i || (r == i && c < j)
  }

  ghost predicate ScanHolds(grid: GridIndex, env: Envelope, cover: bool, i: int, j: int, rMin: int, rMax: int, cMin: int, cMax: int)
    requires ValidGrid(grid)
  {
    && 0 <= rMin && rMax < grid.ny && 0 <= cMin && cMax < grid.nx
    && forall r, c :: 0 <= r < grid.ny && 0 <= c < grid.nx && Reaches(Curvilinear(grid), env, cover, r, c) ==>
        Before(r, c, i, j) ==> rMin <= r <= rMax && cMin <= c <= cMax
  }

  lemma ScanCell(grid: GridIndex, env: Envelope, cover: bool, i: nat, j: nat, rMin: int, rMax: int, cMin: int, cMax: int)
    requires ValidGrid(grid) && i < grid.ny && j < grid.nx
    requires ScanHolds(grid, env, cover, i, j, rMin, rMax, cMin, cMax)
    ensures !Reaches(Curvilinear(grid), env, cover, i, j) ==> ScanHolds(grid, env, cover, i, j + 1, rMin, rMax, cMin, cMax)
    ensures Reaches(Curvilinear(grid), env, cover, i, j) ==>
              ScanHolds(grid, env, cover, i, j + 1, MinI(i, rMin), MaxI(i, rMax), MinI(j, cMin), MaxI(j, cMax))
  {
    hide Reaches;
  }

  lemma ScanBounds(grid: GridIndex, env: Envelope, cover: bool, i: nat, j: nat, rMin: int, rMax: int, cMin: int, cMax: int)
    requires ValidGrid(grid) && ScanHolds(grid, env, cover, i, j, rMin, rMax, cMin, cMax)
    ensures 0 <= rMin && rMax < grid.ny && 0 <= cMin && cMax < grid.nx
  {
  }

  lemma ScanRow(grid: GridIndex, env: Envelope, cover: bool, i: nat, rMin: int, rMax: int, cMin: int, cMax: int)
    requires ValidGrid(grid) && ScanHolds(grid, env, cover, i, grid.nx, rMin, rMax, cMin, cMax)
    ensures ScanHolds(grid, env, cover, i + 1, 0, rMin, rMax, cMin, cMax)
  {
    hide Reaches;
  }

  lemma ScanBegins(grid: GridIndex, env: Envelope, cover: bool)
    requires ValidGrid(grid)
    ensures ScanHolds(grid, env, cover, 0, 0, grid.ny, -1, grid.nx, -1)
  {
  }

  lemma ScanEnds(grid: GridIndex, env: Envelope, cover: bool, rMin: int, rMax: int, cMin: int, cMax: int)
    requires ValidGrid(grid) && ScanHolds(grid, env, cover, grid.ny, 0, rMin, rMax, cMin, cMax)
    ensures 0 <= rMin && rMax < grid.ny && 0 <= cMin && cMax < grid.nx
    ensures forall r, c :: InGrid(Curvilinear(grid), r, c) && Reaches(Curvilinear(grid), env, cover, r, c) ==>
              rMin <= r <= rMax && cMin <= c <= cMax
  {
    hide Reaches;
  }

  ghost predicate Reached(grid: GridIndex, env: Envelope, cover: bool, r: int, c: int)
    requires ValidGrid(grid)
  {
    0 <= r < grid.ny && 0 <= c < grid.nx && Reaches(Curvilinear(grid), env, cover, r, c)
  }

  ghost predicate RowReached(grid: GridIndex, env: Envelope, cover: bool, r: int)
    requires ValidGrid(grid)
  {
    exists c :: Reached(grid, env, cover, r, c)
  }

  ghost predicate ColReached(grid: GridIndex, env: Envelope, cover: bool, c: int)
    requires ValidGrid(grid)
  {
    exists r :: Reached(grid, env, cover, r, c)
  }

  /** Each bound found so far is that of a cell that reaches the envelope. */
  ghost predicate Attained(grid: GridIndex, env: Envelope, cover: bool, rMin: int, rMax: int, cMin: int, cMax: int)
    requires ValidGrid(grid)
  {
    if rMax == -1 then rMin == grid.ny && cMin == grid.nx && cMax == -1
    else
      && rMin <= rMax && cMin <= cMax
      && RowReached(grid, env, cover, rMin) && RowReached(grid, env, cover, rMax)
      && ColReached(grid, env, cover, cMin) && ColReached(grid, env, cover, cMax)
  }

  lemma NoneAttained(grid: GridIndex, env: Envelope, cover: bool)
    requires ValidGrid(grid)
    ensures Attained(grid, env, cover, grid.ny, -1, grid.nx, -1)
  {
  }

  lemma AttainedGrows(grid: GridIndex, env: Envelope, cover: bool, i: nat, j: nat, rMin: int, rMax: int, cMin: int, cMax: int)
    requires ValidGrid(grid) && i < grid.ny && j < grid.nx && rMax < grid.ny && cMax < grid.nx
    requires Attained(grid, env, cover, rMin, rMax, cMin, cMax)
    ensures Reaches(Curvilinear(grid), env, cover, i, j) ==>
              Attained(grid, env, cover, MinI(i, rMin), MaxI(i, rMax), MinI(j, cMin), MaxI(j, cMax))
  {
    hide Reaches, ValidGrid;
    if Reaches(Curvilinear(grid), env, cover, i, j) {
      assert Reached(grid, env, cover, i, j);
      assert RowReached(grid, env, cover, i) && ColReached(grid, env, cover, j);
      hide RowReached, ColReached;
    }
  }

  /** No smaller box holds every cell that reaches the envelope; with no such cell the box is empty. */
  ghost predicate LeastBox(grid: GridIndex, env: Envelope, cover: bool, b: BBox)
    requires ValidGrid(grid)
  {
    || (b == BBox(0, 0, 0, 0) && forall r, c :: !Reached(grid, env, cover, r, c))
    || (RowReached(grid, env, cover, b.rMin) && RowReached(grid, env, cover, b.rMax - 1)
        && ColReached(grid, env, cover, b.cMin) && ColReached(grid, env, cover, b.cMax - 1))
  }

  lemma AttainedIsLeast(grid: GridIndex, env: Envelope, cover: bool, rMin: int, rMax: int, cMin: int, cMax: int)
    requires ValidGrid(grid) && Attained(grid, env, cover, rMin, rMax, cMin, cMax)
    requires forall r, c :: InGrid(Curvilinear(grid), r, c) && Reaches(Curvilinear(grid), env, cover, r, c) ==>
              rMin <= r <= rMax && cMin <= c <= cMax
    ensures if rMin > rMax || cMin > cMax then LeastBox(grid, env, cover, BBox(0, 0, 0, 0))
            else LeastBox(grid, env, cover, BBox(rMin, rMax + 1, cMin, cMax + 1))
  {
    hide Reaches, RowReached, ColReached, ValidGrid;
  }

  method ReachesEnvelope(grid: GridIndex, env: Envelope, cover: bool, i: nat, j: nat) returns (hit: bool)
    requires ValidGrid(grid) && i < grid.ny && j < grid.nx
    ensures hit == Reaches(Curvilinear(grid), env, cover, i, j)
  {
    if cover {
      var b := CellBounds2d(grid, i, j);
      hit := b.latHi >= env.latMin && b.latLo <= env.latMax && b.lonHi >= env.lonMin && b.lonLo <= env.lonMax;
    } else {
      var c := GridAt(grid, i, j);
      hit := c.y >= env.latMin && c.y <= env.latMax && c.x >= env.lonMin && c.x <= env.lonMax;
    }
  }

  /** Full-grid scan for the index box; `ny` and `nx` stand for the initial infinities. */
  method ScanBBox(grid: GridIndex, ring: Ring, cover: bool) returns (b: BBox)
    requires ValidGrid(grid) && ring != []
    ensures BoxInGrid(Curvilinear(grid), b)
    ensures forall i, j :: InGrid(Curvilinear(grid), i, j) && Reaches(Curvilinear(grid), EnvelopeOf(ring), cover, i, j) ==> InBBox(b, i, j)
    ensures LeastBox(grid, EnvelopeOf(ring), cover, b)
  {
    hide Reaches, ScanHolds, ValidGrid, Attained, LeastBox;
    NoneAttained(grid, EnvelopeOf(ring), cover);
    var env := PolygonEnvelope(ring);
    ScanBegins(grid, env, cover);
    var rMin, rMax, cMin, cMax := grid.ny as int, -1, grid.nx as int, -1;
    var i := 0;
    while i < grid.ny
      invariant 0 <= i <= grid.ny
      invariant ScanHolds(grid, env, cover, i, 0, rMin, rMax, cMin, cMax)
      invariant Attained(grid, env, cover, rMin, rMax, cMin, cMax)
    {
      var j := 0;
      while j < grid.nx
        invariant 0 <= j <= grid.nx
        invariant ScanHolds(grid, env, cover, i, j, rMin, rMax, cMin, cMax)
        invariant Attained(grid, env, cover, rMin, rMax, cMin, cMax)
      {
        var hit := ReachesEnvelope(grid, env, cover, i, j);
        ScanCell(grid, env, cover, i, j, rMin, rMax, cMin, cMax);
        ScanBounds(grid, env, cover, i, j, rMin, rMax, cMin, cMax);
        AttainedGrows(grid, env, cover, i, j, rMin, rMax, cMin, cMax);
        if hit {
          if i < rMin { rMin := i; }
          if i > rMax { rMax := i; }
          if j < cMin { cMin := j; }
          if j > cMax { cMax := j; }
        }
        j := j + 1;
      }
      ScanRow(grid, env, cover, i, rMin, rMax, cMin, cMax);
      i := i + 1;
    }
    ScanEnds(grid, env, cover, rMin, rMax, cMin, cMax);
    AttainedIsLeast(grid, env, cover, rMin, rMax, cMin, cMax);
    if rMin > rMax || cMin > cMax {
      return BBox(0, 0, 0, 0);
    }
    var rows := ClampRange(rMin, rMax + 1, grid.ny);
    var cols := ClampRange(cMin, cMax + 1, grid.nx);
    b := BBox(rows.0, rows.1, cols.0, cols.1);
  }

  method BBox1d(lat: Axis, lon: Axis, ring: Ring) returns (b: BBox)
    requires Monotone(lat) && Monotone(lon) && ring != []
    ensures BoxInGrid(Rectilinear(lat, lon), b)
    ensures forall i, j :: InGrid(Rectilinear(lat, lon), i, j) ==>
              (Reaches(Rectilinear(lat, lon), EnvelopeOf(ring), false, i, j) <==> InBBox(b, i, j))
  {
    hide Monotone;
    var env := PolygonEnvelope(ring);
    var rMin, rMax := AxisRange(lat, env.latMin, env.latMax);
    var cMin, cMax := AxisRange(lon, env.lonMin, env.lonMax);
    b := BBox(rMin, rMax, cMin, cMax);
  }

  method CoverBBox1d(lat: Axis, lon: Axis, ring: Ring) returns (b: BBox)
    requires Monotone(lat) && Monotone(lon) && ring != []
    ensures BoxInGrid(Rectilinear(lat, lon), b)
    ensures forall i, j :: InGrid(Rectilinear(lat, lon), i, j) ==>
              (Reaches(Rectilinear(lat, lon), EnvelopeOf(ring), true, i, j) <==> InBBox(b, i, j))
  {
    hide AxisCellSpan, Monotone;
    var env := PolygonEnvelope(ring);
    var rMin, rMax := AxisFootprintRange(lat, env.latMin, env.latMax);
    var cMin, cMax := AxisFootprintRange(lon, env.lonMin, env.lonMax);
    b := BBox(rMin, rMax, cMin, cMax);
    forall i, j | InGrid(Rectilinear(lat, lon), i, j)
      ensures Reaches(Rectilinear(lat, lon), env, true, i, j) <==> InBBox(b, i, j)
    {
      if rMin <= i < rMax {
        OverlapsFormOneRun(lat, rMin, i, rMax - 1, env.latMin, env.latMax);
      }
      if cMin <= j < cMax {
        OverlapsFormOneRun(lon, cMin, j, cMax - 1, env.lonMin, env.lonMax);
      }
      assert Reaches(Rectilinear(lat, lon), env, true, i, j) ==
             (SpanOverlaps(lat, i, env.latMin, env.latMax) && SpanOverlaps(lon, j, env.lonMin, env.lonMax));
    }
  }

  ghost predicate RowMeets(layout: SpatialLayout, env: Envelope, cover: bool, r: int)
    requires ValidLayout(layout)
  {
    exists c :: InGrid(layout, r, c) && Reaches(layout, env, cover, r, c)
  }

  ghost predicate ColMeets(layout: SpatialLayout, env: Envelope, cover: bool, c: int)
    requires ValidLayout(layout)
  {
    exists r :: InGrid(layout, r, c) && Reaches(layout, env, cover, r, c)
  }

  /** The least box around the cells that reach the envelope, if any does; the whole axis for points. */
  ghost predicate TightBox(layout: SpatialLayout, env: Envelope, cover: bool, b: BBox)
    requires ValidLayout(layout)
  {
    && (forall i, j :: InGrid(layout, i, j) && Reaches(layout, env, cover, i, j) ==> InBBox(b, i, j))
    && match layout
       case Points(lat, _) => b == BBox(0, |lat|, 0, 1)
       case _ =>
         b.rMin < b.rMax && b.cMin < b.cMax ==>
           && RowMeets(layout, env, cover, b.rMin) && RowMeets(layout, env, cover, b.rMax - 1)
           && ColMeets(layout, env, cover, b.cMin) && ColMeets(layout, env, cover, b.cMax - 1)
  }

  lemma ExactIsTight(layout: SpatialLayout, env: Envelope, cover: bool, b: BBox)
    requires ValidLayout(layout) && layout.Rectilinear? && BoxInGrid(layout, b)
    requires forall i, j :: InGrid(layout, i, j) ==> (Reaches(layout, env, cover, i, j) <==> InBBox(b, i, j))
    ensures TightBox(layout, env, cover, b)
  {
    hide Reaches, ValidLayout;
    if b.rMin < b.rMax && b.cMin < b.cMax {
      assert Reaches(layout, env, cover, b.rMin, b.cMin) && Reaches(layout, env, cover, b.rMax - 1, b.cMax - 1);
    }
  }

  lemma LeastIsTight(grid: GridIndex, env: Envelope, cover: bool, b: BBox)
    requires ValidGrid(grid) && LeastBox(grid, env, cover, b)
    requires forall i, j :: InGrid(Curvilinear(grid), i, j) && Reaches(Curvilinear(grid), env, cover, i, j) ==> InBBox(b, i, j)
    ensures TightBox(Curvilinear(grid), env, cover, b)
  {
    hide Reaches, ValidGrid;
    if b.rMin < b.rMax && b.cMin < b.cMax {
      MetRow(grid, env, cover, b.rMin);
      MetRow(grid, env, cover, b.rMax - 1);
      MetCol(grid, env, cover, b.cMin);
      MetCol(grid, env, cover, b.cMax - 1);
    }
  }

  lemma MetRow(grid: GridIndex, env: Envelope, cover: bool, r: int)
    requires ValidGrid(grid)
    ensures RowReached(grid, env, cover, r) ==> RowMeets(Curvilinear(grid), env, cover, r)
  {
    hide Reaches;
    if RowReached(grid, env, cover, r) {
      var c :| Reached(grid, env, cover, r, c);
      assert InGrid(Curvilinear(grid), r, c);
    }
  }

  lemma MetCol(grid: GridIndex, env: Envelope, cover: bool, c: int)
    requires ValidGrid(grid)
    ensures ColReached(grid, env, cover, c) ==> ColMeets(Curvilinear(grid), env, cover, c)
  {
    hide Reaches;
    if ColReached(grid, env, cover, c) {
      var r :| Reached(grid, env, cover, r, c);
      assert InGrid(Curvilinear(grid), r, c);
    }
  }

  /** The index box of a polygon, by layout and membership rule. */
  method ResolveBBox(layout: SpatialLayout, ring: Ring, cover: bool) returns (b: BBox)
    requires ValidLayout(layout) && ring != []
    ensures BoxInGrid(layout, b) && TightBox(layout, EnvelopeOf(ring), cover, b)
  {
    hide Reaches, LeastBox, TightBox;
    match layout
    case Rectilinear(lat, lon) =>
      if cover {
        b := CoverBBox1d(lat, lon, ring);
      } else {
        b := BBox1d(lat, lon, ring);
      }
      ExactIsTight(layout, EnvelopeOf(ring), cover, b);
    case Curvilinear(grid) =>
      b := ScanBBox(grid, ring, cover);
      LeastIsTight(grid, EnvelopeOf(ring), cover, b);
    case Points(lat, lon) =>
      b := BBox(0, |lat|, 0, 1);
      PointBoxIsTight(lat, lon, EnvelopeOf(ring), cover);
  }

  lemma PointBoxIsTight(lat: seq<real>, lon: seq<real>, env: Envelope, cover: bool)
    requires |lat| == |lon|
    ensures TightBox(Points(lat, lon), env, cover, BBox(0, |lat|, 0, 1))
  {
    hide Reaches;
  }
}
