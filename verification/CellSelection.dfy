/**
 Which cells a polygon selects: the strided gather over the index box, the stride search, and
 the proof that pruning by the box loses nothing against a scan of the whole grid.
 */
module CellSelection {
  import opened Vectors
  import opened ChunkIndexing
  import opened Segments
  import opened RayCast
  import opened PolygonRect
  import opened TriangleFan
  import opened AxisSearch
  import opened GridLayout

  datatype PolygonCell = PolygonCell(i: int, j: int, lat: real, lon: real)

  datatype PolygonSelection = PolygonSelection(cells: seq<PolygonCell>, bbox: BBox, stride: nat)

  function CellAt(layout: SpatialLayout, i: nat, j: nat): PolygonCell
    requires ValidLayout(layout) && InGrid(layout, i, j)
  {
    var c := Center(layout, i, j);
    PolygonCell(i, j, c.y, c.x)
  }

  /** Membership: center in the ring, or in cover mode the footprint overlaps the filled polygon. */
  ghost predicate Keep(layout: SpatialLayout, ring: Ring, cover: bool, i: nat, j: nat)
    requires ValidLayout(layout) && InGrid(layout, i, j)
  {
    Inside(Center(layout, i, j), ring)
    || (cover && !layout.Points? && RectMeetsPolygon(ring, Footprint(layout, i, j)))
  }

  /** The kept cells of row `i` among columns `c0, c0 + stride, …` below `c1`. */
  ghost function RowCells(layout: SpatialLayout, ring: Ring, cover: bool, i: nat, c0: nat, c1: nat, stride: nat): seq<PolygonCell>
    requires ValidLayout(layout) && i < NRows(layout) && c1 <= NCols(layout) && stride > 0
    decreases c1 - c0
  {
    if c0 >= c1 then []
    else (if Keep(layout, ring, cover, i, c0) then [CellAt(layout, i, c0)] else [])
         + RowCells(layout, ring, cover, i, c0 + stride, c1, stride)
  }

  /** The kept cells of rows `r0, r0 + stride, …` below `r1`, row-major. */
  ghost function GridCells(layout: SpatialLayout, ring: Ring, cover: bool, r0: nat, r1: nat, c0: nat, c1: nat, stride: nat): seq<PolygonCell>
    requires ValidLayout(layout) && r1 <= NRows(layout) && c1 <= NCols(layout) && stride > 0
    decreases r1 - r0
  {
    if r0 >= r1 then []
    else RowCells(layout, ring, cover, r0, c0, c1, stride)
         + GridCells(layout, ring, cover, r0 + stride, r1, c0, c1, stride)
  }

  ghost function BoxCells(layout: SpatialLayout, ring: Ring, cover: bool, b: BBox, stride: nat): seq<PolygonCell>
    requires ValidLayout(layout) && BoxInGrid(layout, b) && stride > 0
  {
    GridCells(layout, ring, cover, b.rMin, b.rMax, b.cMin, b.cMax, stride)
  }

  /** The brute-force selection: every cell of the grid is tested. */
  ghost function WholeGridCells(layout: SpatialLayout, ring: Ring, cover: bool): seq<PolygonCell>
    requires ValidLayout(layout)
  {
    GridCells(layout, ring, cover, 0, NRows(layout), 0, NCols(layout), 1)
  }

  // ------------------------------------------------------------------ the gather

  method KeepCell(layout: SpatialLayout, ring: Ring, footprint: bool, i: nat, j: nat) returns (keep: bool)
    requires ValidLayout(layout) && InGrid(layout, i, j) && (footprint ==> HasFootprints(layout))
    ensures keep == Keep(layout, ring, footprint, i, j)
  {
    hide Inside, RectMeetsPolygon, Footprint, Monotone;
    var c := Center(layout, i, j);
    keep := PointInPolygon(c.y, c.x, ring);
    if !keep && footprint {
      var b := CellBounds(layout, i, j);
      FootprintHoldsCenter(layout, i, j);
      keep := PolygonOverlapsRect(ring, b.latLo, b.latHi, b.lonLo, b.lonHi);
    }
  }

  lemma RowCellsStep(layout: SpatialLayout, ring: Ring, cover: bool, i: nat, c0: nat, c1: nat, stride: nat, done: seq<PolygonCell>)
    requires ValidLayout(layout) && i < NRows(layout) && c0 < c1 <= NCols(layout) && stride > 0
    ensures done + RowCells(layout, ring, cover, i, c0, c1, stride)
         == done + (if Keep(layout, ring, cover, i, c0) then [CellAt(layout, i, c0)] else [])
            + RowCells(layout, ring, cover, i, c0 + stride, c1, stride)
  {
    hide Keep, ValidLayout, CellAt;
    var head := if Keep(layout, ring, cover, i, c0) then [CellAt(layout, i, c0)] else [];
    Associate(done, head, RowCells(layout, ring, cover, i, c0 + stride, c1, stride));
  }

  lemma Associate<T>(a: seq<T>, b: seq<T>, c: seq<T>)
    ensures a + (b + c) == a + b + c
  {
  }

  method GatherRow(layout: SpatialLayout, b: BBox, ring: Ring, stride: nat, footprint: bool, i: nat) returns (cells: seq<PolygonCell>)
    requires ValidLayout(layout) && BoxInGrid(layout, b) && stride > 0 && i < b.rMax
    requires footprint ==> HasFootprints(layout)
    ensures cells == RowCells(layout, ring, footprint, i, b.cMin, b.cMax, stride)
  {
    hide Keep, ValidLayout, RowCells, Center;
    NoRowCells(layout, ring, footprint, i, b.cMax, stride);
    cells := [];
    var j := b.cMin;
    while j < b.cMax
      invariant b.cMin <= j
      invariant cells + RowCells(layout, ring, footprint, i, j, b.cMax, stride)
             == RowCells(layout, ring, footprint, i, b.cMin, b.cMax, stride)
      decreases b.cMax - j
    {
      RowCellsStep(layout, ring, footprint, i, j, b.cMax, stride, cells);
      var keep := KeepCell(layout, ring, footprint, i, j);
      if keep {
        var c := Center(layout, i, j);
        cells := cells + [PolygonCell(i, j, c.y, c.x)];
      }
      j := j + stride;
    }
  }

  lemma NoRowCells(layout: SpatialLayout, ring: Ring, cover: bool, i: nat, c1: nat, stride: nat)
    requires ValidLayout(layout) && i < NRows(layout) && c1 <= NCols(layout) && stride > 0
    ensures forall c0: nat :: c0 >= c1 ==> RowCells(layout, ring, cover, i, c0, c1, stride) == []
  {
  }

  method GatherCells(layout: SpatialLayout, b: BBox, ring: Ring, stride: nat, footprint: bool) returns (cells: seq<PolygonCell>)
    requires ValidLayout(layout) && BoxInGrid(layout, b) && stride > 0
    requires footprint ==> HasFootprints(layout)
    ensures cells == BoxCells(layout, ring, footprint, b, stride)
  {
    hide ValidLayout, RowCells;
    cells := [];
    var i := b.rMin;
    while i < b.rMax
      invariant b.rMin <= i
      invariant cells + GridCells(layout, ring, footprint, i, b.rMax, b.cMin, b.cMax, stride)
             == BoxCells(layout, ring, footprint, b, stride)
      decreases b.rMax - i
    {
      var row := GatherRow(layout, b, ring, stride, footprint, i);
      cells := cells + row;
      i := i + stride;
    }
  }

  // ----------------------------------------------- pruning loses nothing

  lemma {:induction false} RowCellsNone(layout: SpatialLayout, ring: Ring, cover: bool, i: nat, c0: nat, c1: nat)
    requires ValidLayout(layout) && i < NRows(layout) && c1 <= NCols(layout)
    requires forall j: nat :: c0 <= j < c1 ==> !Keep(layout, ring, cover, i, j)
    ensures RowCells(layout, ring, cover, i, c0, c1, 1) == []
    decreases c1 - c0
  {
    hide Keep, ValidLayout;
    if c0 < c1 {
      RowCellsNone(layout, ring, cover, i, c0 + 1, c1);
    }
  }

  lemma {:induction false} RowCellsSplit(layout: SpatialLayout, ring: Ring, cover: bool, i: nat, c0: nat, m: nat, c1: nat)
    requires ValidLayout(layout) && i < NRows(layout) && c0 <= m <= c1 <= NCols(layout)
    ensures RowCells(layout, ring, cover, i, c0, c1, 1)
         == RowCells(layout, ring, cover, i, c0, m, 1) + RowCells(layout, ring, cover, i, m, c1, 1)
    decreases m - c0
  {
    hide Keep, ValidLayout;
    if c0 < m {
      RowCellsSplit(layout, ring, cover, i, c0 + 1, m, c1);
    }
  }

  lemma {:induction false} GridCellsNone(layout: SpatialLayout, ring: Ring, cover: bool, r0: nat, r1: nat, c0: nat, c1: nat)
    requires ValidLayout(layout) && r1 <= NRows(layout) && c1 <= NCols(layout)
    requires forall i: nat, j: nat :: r0 <= i < r1 && c0 <= j < c1 ==> !Keep(layout, ring, cover, i, j)
    ensures GridCells(layout, ring, cover, r0, r1, c0, c1, 1) == []
    decreases r1 - r0
  {
    hide Keep, ValidLayout;
    if r0 < r1 {
      RowCellsNone(layout, ring, cover, r0, c0, c1);
      GridCellsNone(layout, ring, cover, r0 + 1, r1, c0, c1);
    }
  }

  lemma {:induction false} GridCellsSplit(layout: SpatialLayout, ring: Ring, cover: bool, r0: nat, m: nat, r1: nat, c0: nat, c1: nat)
    requires ValidLayout(layout) && r0 <= m <= r1 <= NRows(layout) && c1 <= NCols(layout)
    ensures GridCells(layout, ring, cover, r0, r1, c0, c1, 1)
         == GridCells(layout, ring, cover, r0, m, c0, c1, 1) + GridCells(layout, ring, cover, m, r1, c0, c1, 1)
    decreases m - r0
  {
    hide RowCells, ValidLayout;
    if r0 < m {
      GridCellsSplit(layout, ring, cover, r0 + 1, m, r1, c0, c1);
    }
  }

  /** Rows of the grid, widened from the box's columns to all columns. */
  lemma {:induction false} GridCellsWiden(layout: SpatialLayout, ring: Ring, cover: bool, r0: nat, r1: nat, b: BBox)
    requires ValidLayout(layout) && BoxInGrid(layout, b) && r1 <= NRows(layout)
    requires forall i: nat, j: nat :: InGrid(layout, i, j) && Keep(layout, ring, cover, i, j) ==> InBBox(b, i, j)
    ensures GridCells(layout, ring, cover, r0, r1, 0, NCols(layout), 1)
         == GridCells(layout, ring, cover, r0, r1, b.cMin, b.cMax, 1)
    decreases r1 - r0
  {
    hide Keep, ValidLayout, RowCells;
    if r0 < r1 {
      RowCellsSplit(layout, ring, cover, r0, 0, b.cMin, NCols(layout));
      RowCellsSplit(layout, ring, cover, r0, b.cMin, b.cMax, NCols(layout));
      RowCellsNone(layout, ring, cover, r0, 0, b.cMin);
      RowCellsNone(layout, ring, cover, r0, b.cMax, NCols(layout));
      GridCellsWiden(layout, ring, cover, r0 + 1, r1, b);
    }
  }

  /** If the box holds every kept cell, the box scan is the whole-grid scan. */
  lemma BoxScanIsWholeScan(layout: SpatialLayout, ring: Ring, cover: bool, b: BBox)
    requires ValidLayout(layout) && BoxInGrid(layout, b)
    requires forall i: nat, j: nat :: InGrid(layout, i, j) && Keep(layout, ring, cover, i, j) ==> InBBox(b, i, j)
    ensures BoxCells(layout, ring, cover, b, 1) == WholeGridCells(layout, ring, cover)
  {
    hide Keep, ValidLayout, GridCells;
    var n := NRows(layout);
    GridCellsWiden(layout, ring, cover, 0, n, b);
    GridCellsSplit(layout, ring, cover, 0, b.rMin, n, b.cMin, b.cMax);
    GridCellsSplit(layout, ring, cover, b.rMin, b.rMax, n, b.cMin, b.cMax);
    GridCellsNone(layout, ring, cover, 0, b.rMin, b.cMin, b.cMax);
    GridCellsNone(layout, ring, cover, b.rMax, n, b.cMin, b.cMax);
  }

  /** Filled-polygon points lie in the envelope. */
  lemma FilledInEnvelope(ring: Ring, p: Point)
    requires InFilledPolygon(p, ring)
    ensures ring != [] && InEnvelope(p, EnvelopeOf(ring))
  {
    hide IsEnvelope;
    if Inside(p, ring) {
      InsideInEnvelope(ring, p);
    } else {
      var k :| 0 <= k < |ring| && OnSegment(p, Previous(ring, k), ring[k]);
      var e := EnvelopeOf(ring);
      VertexInEnvelope(ring, k);
      VertexInEnvelope(ring, if k == 0 then |ring| - 1 else k - 1);
      SegmentInRect(p, Previous(ring, k), ring[k], Rect(e.latMin, e.latMax, e.lonMin, e.lonMax));
    }
  }

  lemma VertexInEnvelope(ring: Ring, k: nat)
    requires k < |ring|
    ensures InEnvelope(ring[k], EnvelopeOf(ring))
  {
    assert ring[k] in ring;
  }

  /** Every kept cell is one the box scan looks for. */
  lemma KeptIsReached(layout: SpatialLayout, ring: Ring, cover: bool, i: nat, j: nat)
    requires ValidLayout(layout) && InGrid(layout, i, j) && Keep(layout, ring, cover, i, j)
    ensures ring != [] && Reaches(layout, EnvelopeOf(ring), cover, i, j)
  {
    hide Inside, Footprint, ValidLayout, EnvelopeOf, OnRing;
    if Inside(Center(layout, i, j), ring) {
      FilledInEnvelope(ring, Center(layout, i, j));
      if cover && HasFootprints(layout) {
        FootprintHoldsCenter(layout, i, j);
      }
    } else {
      var p: Point :| InRect(p, Footprint(layout, i, j)) && InFilledPolygon(p, ring);
      FilledInEnvelope(ring, p);
    }
  }

  /**
   In cover mode the footprint test alone decides: a cell is kept exactly when its footprint
   meets the filled polygon, so cover keeps every cell that center keeps.
   */
  lemma CoverIsFootprintOverlap(layout: SpatialLayout, ring: Ring, i: nat, j: nat)
    requires ValidLayout(layout) && HasFootprints(layout) && InGrid(layout, i, j)
    ensures Keep(layout, ring, true, i, j) <==> RectMeetsPolygon(ring, Footprint(layout, i, j))
    ensures Keep(layout, ring, false, i, j) ==> Keep(layout, ring, true, i, j)
  {
    hide Inside, Footprint, ValidLayout;
    if Inside(Center(layout, i, j), ring) {
      FootprintHoldsCenter(layout, i, j);
      assert InFilledPolygon(Center(layout, i, j), ring);
    }
  }

  // ------------------------------------------------- what the scan contains

  lemma {:induction false} RowCellsMembers(layout: SpatialLayout, ring: Ring, cover: bool, i: nat, c0: nat, c1: nat, cell: PolygonCell)
    requires ValidLayout(layout) && i < NRows(layout) && c1 <= NCols(layout)
    ensures cell in RowCells(layout, ring, cover, i, c0, c1, 1) <==>
              c0 <= cell.j < c1 && Keep(layout, ring, cover, i, cell.j) && cell == CellAt(layout, i, cell.j)
    decreases c1 - c0
  {
    hide Keep, ValidLayout;
    if c0 < c1 {
      RowCellsMembers(layout, ring, cover, i, c0 + 1, c1, cell);
    }
  }

  /** A scan holds exactly the kept cells of its box, with their positions. */
  lemma {:induction false} GridCellsMembers(layout: SpatialLayout, ring: Ring, cover: bool, r0: nat, r1: nat, c0: nat, c1: nat, cell: PolygonCell)
    requires ValidLayout(layout) && r1 <= NRows(layout) && c1 <= NCols(layout)
    ensures cell in GridCells(layout, ring, cover, r0, r1, c0, c1, 1) <==>
              && r0 <= cell.i < r1 && c0 <= cell.j < c1
              && Keep(layout, ring, cover, cell.i, cell.j) && cell == CellAt(layout, cell.i, cell.j)
    decreases r1 - r0
  {
    hide Keep, ValidLayout, RowCells;
    if r0 < r1 {
      RowCellsMembers(layout, ring, cover, r0, c0, c1, cell);
      GridCellsMembers(layout, ring, cover, r0 + 1, r1, c0, c1, cell);
    }
  }

  lemma NextSample(n: nat, stride: nat)
    requires stride > 0
    ensures n % stride == 0 <==> n == 0 || (n >= stride && (n - stride) % stride == 0)
  {
    if n >= stride {
      var q, r := (n - stride) / stride, (n - stride) % stride;
      assert n - stride == q * stride + r;
      assert n == (q + 1) * stride + r;
      DivModUnique(n, q + 1, r, stride);
    } else {
      DivModUnique(n, 0, n, stride);
    }
  }

  lemma {:induction false} RowSamples(layout: SpatialLayout, ring: Ring, cover: bool, i: nat, c0: nat, c1: nat, stride: nat, cell: PolygonCell)
    requires ValidLayout(layout) && i < NRows(layout) && c1 <= NCols(layout) && stride > 0
    ensures cell in RowCells(layout, ring, cover, i, c0, c1, stride) <==>
              && c0 <= cell.j < c1 && (cell.j - c0) % stride == 0
              && Keep(layout, ring, cover, i, cell.j) && cell == CellAt(layout, i, cell.j)
    decreases c1 - c0
  {
    hide Keep, ValidLayout;
    if c0 < c1 {
      RowSamples(layout, ring, cover, i, c0 + stride, c1, stride, cell);
      if cell.j >= c0 {
        NextSample(cell.j - c0, stride);
      }
    }
  }

  /** A strided scan holds exactly the kept cells of the sampled positions. */
  lemma {:induction false} GridSamples(layout: SpatialLayout, ring: Ring, cover: bool, r0: nat, r1: nat, c0: nat, c1: nat, stride: nat, cell: PolygonCell)
    requires ValidLayout(layout) && r1 <= NRows(layout) && c1 <= NCols(layout) && stride > 0
    ensures cell in GridCells(layout, ring, cover, r0, r1, c0, c1, stride) <==>
              && r0 <= cell.i < r1 && (cell.i - r0) % stride == 0 && c0 <= cell.j < c1 && (cell.j - c0) % stride == 0
              && Keep(layout, ring, cover, cell.i, cell.j) && cell == CellAt(layout, cell.i, cell.j)
    decreases r1 - r0
  {
    hide Keep, ValidLayout, RowCells;
    if r0 < r1 {
      RowSamples(layout, ring, cover, r0, c0, c1, stride, cell);
      GridSamples(layout, ring, cover, r0 + stride, r1, c0, c1, stride, cell);
      if cell.i >= r0 {
        NextSample(cell.i - r0, stride);
      }
    }
  }

  ghost predicate RowMajor(cells: seq<PolygonCell>) {
    forall a, b :: 0 <= a < b < |cells| ==> Before(cells[a].i, cells[a].j, cells[b].i, cells[b].j)
  }

  lemma NoCellsOrdered()
    ensures RowMajor([])
  {
  }

  lemma OrderedPrepend(head: seq<PolygonCell>, rest: seq<PolygonCell>, i: nat, c: nat)
    requires |head| <= 1 && RowMajor(rest)
    requires forall cell :: cell in head ==> cell.i == i && cell.j == c
    requires forall cell :: cell in rest ==> cell.i == i && cell.j > c
    ensures RowMajor(head + rest)
    ensures forall cell :: cell in head + rest ==> cell.i == i && cell.j >= c
  {
    var all := head + rest;
    forall a, b | 0 <= a < b < |all| ensures Before(all[a].i, all[a].j, all[b].i, all[b].j) {
      assert all[b] in rest;
      if |head| == 1 && a == 0 {
        assert all[a] in head;
      } else {
        assert all[a] == rest[a - |head|] && all[b] == rest[b - |head|];
      }
    }
  }

  lemma {:induction false} RowCellsOrdered(layout: SpatialLayout, ring: Ring, cover: bool, i: nat, c0: nat, c1: nat, stride: nat)
    requires ValidLayout(layout) && i < NRows(layout) && c1 <= NCols(layout) && stride > 0
    ensures RowMajor(RowCells(layout, ring, cover, i, c0, c1, stride))
    ensures forall cell :: cell in RowCells(layout, ring, cover, i, c0, c1, stride) ==> cell.i == i && c0 <= cell.j < c1
    decreases c1 - c0
  {
    hide Keep, ValidLayout, RowMajor;
    if c0 < c1 {
      RowCellsOrdered(layout, ring, cover, i, c0 + stride, c1, stride);
      var head := if Keep(layout, ring, cover, i, c0) then [CellAt(layout, i, c0)] else [];
      OrderedPrepend(head, RowCells(layout, ring, cover, i, c0 + stride, c1, stride), i, c0);
    } else {
      assert RowMajor([]) by { NoCellsOrdered(); }
    }
  }

  /** Scans list their cells in strict row-major order, inside the box. */
  lemma {:induction false} GridCellsOrdered(layout: SpatialLayout, ring: Ring, cover: bool, r0: nat, r1: nat, c0: nat, c1: nat, stride: nat)
    requires ValidLayout(layout) && r1 <= NRows(layout) && c1 <= NCols(layout) && stride > 0
    ensures RowMajor(GridCells(layout, ring, cover, r0, r1, c0, c1, stride))
    ensures forall cell :: cell in GridCells(layout, ring, cover, r0, r1, c0, c1, stride) ==> r0 <= cell.i < r1 && c0 <= cell.j < c1
    decreases r1 - r0
  {
    hide Keep, ValidLayout, RowCells;
    if r0 < r1 {
      var row := RowCells(layout, ring, cover, r0, c0, c1, stride);
      var rest := GridCells(layout, ring, cover, r0 + stride, r1, c0, c1, stride);
      RowCellsOrdered(layout, ring, cover, r0, c0, c1, stride);
      GridCellsOrdered(layout, ring, cover, r0 + stride, r1, c0, c1, stride);
      OrderedAppend(row, rest, r0);
    }
  }

  lemma OrderedAppend(row: seq<PolygonCell>, rest: seq<PolygonCell>, r: nat)
    requires RowMajor(row) && RowMajor(rest)
    requires forall cell :: cell in row ==> cell.i == r
    requires forall cell :: cell in rest ==> cell.i > r
    ensures RowMajor(row + rest)
  {
    var all := row + rest;
    forall a, b | 0 <= a < b < |all| ensures Before(all[a].i, all[a].j, all[b].i, all[b].j) {
      if a < |row| <= b {
        assert all[a] in row && all[b] in rest;
      }
    }
  }

  // ---------------------------------------------------------------- the stride

  ghost predicate Fits(rows: nat, cols: nat, maxCells: nat, k: nat)
    requires k > 0
  {
    CeilDiv(rows, k) * CeilDiv(cols, k) <= maxCells
  }

  lemma CeilDivAntitone(a: nat, j: nat, k: nat)
    requires 0 < j <= k
    ensures CeilDiv(a, k) <= CeilDiv(a, j)
  {
    CeilDivLeast(a, j, CeilDiv(a, j));
    MulMonotone(j, k, CeilDiv(a, j));
    CeilDivLeast(a, k, CeilDiv(a, j));
  }

  lemma FitsMonotone(rows: nat, cols: nat, maxCells: nat, j: nat, k: nat)
    requires 0 < j <= k && Fits(rows, cols, maxCells, j)
    ensures Fits(rows, cols, maxCells, k)
  {
    hide CeilDiv;
    CeilDivAntitone(rows, j, k);
    CeilDivAntitone(cols, j, k);
    ProductMonotone(CeilDiv(rows, k), CeilDiv(rows, j), CeilDiv(cols, k), CeilDiv(cols, j));
  }

  lemma ProductMonotone(a: nat, b: nat, c: nat, d: nat)
    requires a <= b && c <= d
    ensures a * c <= b * d
  {
    MulMonotone(a, b, c);
    MulMonotone(c, d, b);
  }

  lemma CeilDivOne(a: nat, k: nat)
    requires k > 0
    ensures CeilDiv(a, 1) == a
    ensures 0 < a <= k ==> CeilDiv(a, k) == 1
  {
    CeilDivLeast(a, k, 1);
    CeilDivLeast(a, k, 0);
  }

  /** The smallest stride whose sampled box fits the budget. */
  method ComputeStride(rows: nat, cols: nat, maxCells: Option<nat>) returns (stride: nat)
    requires rows > 0 && cols > 0 && (maxCells.Some? ==> maxCells.value > 0)
    ensures stride > 0
    ensures maxCells.None? ==> stride == 1
    ensures maxCells.Some? ==> Fits(rows, cols, maxCells.value, stride)
    ensures maxCells.Some? ==> forall k :: 0 < k < stride ==> !Fits(rows, cols, maxCells.value, k)
  {
    hide Fits;
    if maxCells.None? {
      return 1;
    }
    if rows * cols <= maxCells.value {
      UnitStrideFits(rows, cols, maxCells.value);
      return 1;
    }
    var lo := 1;
    var hi := if rows >= cols then rows else cols;
    WidestStrideFits(rows, cols, maxCells.value, hi);
    while lo < hi
      invariant 0 < lo <= hi
      invariant Fits(rows, cols, maxCells.value, hi)
      invariant forall k :: 0 < k < lo ==> !Fits(rows, cols, maxCells.value, k)
    {
      var mid := (lo + hi) / 2;
      var fits := CeilDiv(rows, mid) * CeilDiv(cols, mid) <= maxCells.value;
      FitsMeaning(rows, cols, maxCells.value, mid);
      if fits {
        hi := mid;
      } else {
        forall k | 0 < k <= mid ensures !Fits(rows, cols, maxCells.value, k) {
          if Fits(rows, cols, maxCells.value, k) {
            FitsMonotone(rows, cols, maxCells.value, k, mid);
          }
        }
        lo := mid + 1;
      }
    }
    return lo;
  }

  lemma FitsMeaning(rows: nat, cols: nat, maxCells: nat, k: nat)
    requires k > 0
    ensures Fits(rows, cols, maxCells, k) == (CeilDiv(rows, k) * CeilDiv(cols, k) <= maxCells)
  {
  }

  lemma UnitStrideFits(rows: nat, cols: nat, maxCells: nat)
    requires rows * cols <= maxCells
    ensures Fits(rows, cols, maxCells, 1)
  {
    CeilDivOne(rows, 1);
    CeilDivOne(cols, 1);
  }

  lemma WidestStrideFits(rows: nat, cols: nat, maxCells: nat, k: nat)
    requires 0 < rows <= k && 0 < cols <= k && maxCells > 0
    ensures Fits(rows, cols, maxCells, k)
  {
    CeilDivOne(rows, k);
    CeilDivOne(cols, k);
  }

  lemma CeilDivStep(n: nat, stride: nat)
    requires stride > 0 && n > 0
    ensures CeilDiv(n, stride) == 1 + (if n > stride then CeilDiv(n - stride, stride) else 0)
  {
    if n > stride {
      var q, r := (n - 1) / stride, (n - 1) % stride;
      assert n - 1 == q * stride + r;
      DivModUnique(n - stride + stride - 1, q, r, stride);
      assert n + stride - 1 == (q + 1) * stride + r;
      DivModUnique(n + stride - 1, q + 1, r, stride);
    } else {
      CeilDivOne(n, stride);
    }
  }

  lemma {:induction false} RowCellsBudget(layout: SpatialLayout, ring: Ring, cover: bool, i: nat, c0: nat, c1: nat, stride: nat)
    requires ValidLayout(layout) && i < NRows(layout) && c0 <= c1 <= NCols(layout) && stride > 0
    ensures |RowCells(layout, ring, cover, i, c0, c1, stride)| <= CeilDiv(c1 - c0, stride)
    decreases c1 - c0
  {
    hide Keep, ValidLayout, CeilDiv;
    if c0 < c1 {
      CeilDivStep(c1 - c0, stride);
      if c0 + stride < c1 {
        RowCellsBudget(layout, ring, cover, i, c0 + stride, c1, stride);
      }
    }
  }

  /** A strided scan lists at most one cell per sampled position. */
  lemma {:induction false} GridCellsBudget(layout: SpatialLayout, ring: Ring, cover: bool, r0: nat, r1: nat, c0: nat, c1: nat, stride: nat)
    requires ValidLayout(layout) && r0 <= r1 <= NRows(layout) && c0 <= c1 <= NCols(layout) && stride > 0
    ensures |GridCells(layout, ring, cover, r0, r1, c0, c1, stride)| <= CeilDiv(r1 - r0, stride) * CeilDiv(c1 - c0, stride)
    decreases r1 - r0
  {
    hide Keep, ValidLayout, RowCells, CeilDiv;
    if r0 < r1 {
      CeilDivStep(r1 - r0, stride);
      RowCellsBudget(layout, ring, cover, r0, c0, c1, stride);
      var w := CeilDiv(c1 - c0, stride);
      if r0 + stride < r1 {
        GridCellsBudget(layout, ring, cover, r0 + stride, r1, c0, c1, stride);
        OneMore(CeilDiv(r1 - (r0 + stride), stride), w);
      } else {
        OneMore(0, w);
      }
    }
  }

  // --------------------------------------------------------- resolveSelection

  ghost predicate LeastFit(rows: nat, cols: nat, maxCells: nat, least: nat) {
    least > 0 && Fits(rows, cols, maxCells, least) && forall k :: 0 < k < least ==> !Fits(rows, cols, maxCells, k)
  }

  /**
   The budget, seen from the least fitting stride: the stride was only lowered past strides that
   lose every cell, and where it was not lowered the budget is met.
   */
  ghost predicate BudgetFrom(layout: SpatialLayout, ring: Ring, cover: bool, maxCells: nat, sel: PolygonSelection, least: nat)
    requires ValidLayout(layout) && BoxInGrid(layout, sel.bbox)
  {
    && LeastFit(sel.bbox.rMax - sel.bbox.rMin, sel.bbox.cMax - sel.bbox.cMin, maxCells, least)
    && 0 < sel.stride <= least
    && (forall k :: sel.stride < k <= least ==> BoxCells(layout, ring, cover, sel.bbox, k) == [])
    && (sel.stride == least ==> |sel.cells| <= maxCells)
  }

  ghost predicate WithinBudget(layout: SpatialLayout, ring: Ring, cover: bool, maxCells: nat, sel: PolygonSelection)
    requires ValidLayout(layout) && BoxInGrid(layout, sel.bbox)
  {
    exists least: nat :: BudgetFrom(layout, ring, cover, maxCells, sel, least)
  }

  /** What a resolved selection promises. */
  ghost predicate Resolved(layout: SpatialLayout, ring: Ring, cover: bool, maxCells: Option<nat>, sel: PolygonSelection)
    requires ValidLayout(layout)
  {
    && ring != [] && BoxInGrid(layout, sel.bbox) && sel.stride > 0
    && TightBox(layout, EnvelopeOf(ring), cover, sel.bbox)
    && sel.cells == BoxCells(layout, ring, cover, sel.bbox, sel.stride)
    && BoxCells(layout, ring, cover, sel.bbox, 1) == WholeGridCells(layout, ring, cover)
    && (maxCells.None? ==> sel.stride == 1)
    && (sel.cells == [] ==> sel.stride == 1 && WholeGridCells(layout, ring, cover) == [])
    && (maxCells.Some? ==> WithinBudget(layout, ring, cover, maxCells.value, sel))
  }

  // ------------------------------- cover degrades to center without footprints

  lemma {:induction false} RowIgnoresCover(layout: SpatialLayout, ring: Ring, i: nat, c0: nat, c1: nat, stride: nat)
    requires ValidLayout(layout) && layout.Points? && i < NRows(layout) && c1 <= NCols(layout) && stride > 0
    ensures RowCells(layout, ring, true, i, c0, c1, stride) == RowCells(layout, ring, false, i, c0, c1, stride)
    decreases c1 - c0
  {
    hide Inside;
    if c0 < c1 {
      RowIgnoresCover(layout, ring, i, c0 + stride, c1, stride);
    }
  }

  lemma {:induction false} GridIgnoresCover(layout: SpatialLayout, ring: Ring, r0: nat, r1: nat, c0: nat, c1: nat, stride: nat)
    requires ValidLayout(layout) && layout.Points? && r1 <= NRows(layout) && c1 <= NCols(layout) && stride > 0
    ensures GridCells(layout, ring, true, r0, r1, c0, c1, stride) == GridCells(layout, ring, false, r0, r1, c0, c1, stride)
    decreases r1 - r0
  {
    hide RowCells;
    if r0 < r1 {
      RowIgnoresCover(layout, ring, r0, c0, c1, stride);
      GridIgnoresCover(layout, ring, r0 + stride, r1, c0, c1, stride);
    }
  }

  lemma BudgetIgnoresCover(layout: SpatialLayout, ring: Ring, maxCells: nat, sel: PolygonSelection)
    requires ValidLayout(layout) && layout.Points? && BoxInGrid(layout, sel.bbox)
    requires WithinBudget(layout, ring, false, maxCells, sel)
    ensures WithinBudget(layout, ring, true, maxCells, sel)
  {
    hide GridCells, ValidLayout, LeastFit;
    var least: nat :| BudgetFrom(layout, ring, false, maxCells, sel, least);
    var b := sel.bbox;
    forall k: nat | 0 < k ensures BoxCells(layout, ring, true, b, k) == BoxCells(layout, ring, false, b, k) {
      GridIgnoresCover(layout, ring, b.rMin, b.rMax, b.cMin, b.cMax, k);
    }
    assert BudgetFrom(layout, ring, true, maxCells, sel, least);
  }

  lemma TightIgnoresCover(layout: SpatialLayout, env: Envelope, b: BBox)
    requires ValidLayout(layout) && layout.Points? && TightBox(layout, env, false, b)
    ensures TightBox(layout, env, true, b)
  {
    hide InEnvelope, ValidLayout;
  }

  lemma ResolvedIgnoresCover(layout: SpatialLayout, ring: Ring, maxCells: Option<nat>, sel: PolygonSelection)
    requires ValidLayout(layout) && layout.Points? && Resolved(layout, ring, false, maxCells, sel)
    ensures Resolved(layout, ring, true, maxCells, sel)
  {
    hide GridCells, ValidLayout, WithinBudget, TightBox;
    var b := sel.bbox;
    GridIgnoresCover(layout, ring, b.rMin, b.rMax, b.cMin, b.cMax, sel.stride);
    GridIgnoresCover(layout, ring, b.rMin, b.rMax, b.cMin, b.cMax, 1);
    GridIgnoresCover(layout, ring, 0, NRows(layout), 0, NCols(layout), 1);
    TightIgnoresCover(layout, EnvelopeOf(ring), b);
    if maxCells.Some? {
      BudgetIgnoresCover(layout, ring, maxCells.value, sel);
    }
  }

  // ------------------------------------------------ what a selection should be

  /** A cell of the grid, with the position that the layout gives it. */
  ghost predicate IsCell(layout: SpatialLayout, cell: PolygonCell)
    requires ValidLayout(layout)
  {
    match layout
    case Rectilinear(lat, lon) =>
      0 <= cell.i < |lat| && 0 <= cell.j < |lon| && cell.lat == lat[cell.i] && cell.lon == lon[cell.j]
    case Curvilinear(grid) =>
      0 <= cell.i < grid.ny && 0 <= cell.j < grid.nx && Point(cell.lat, cell.lon) == Spot(grid, cell.i, cell.j)
    case Points(lat, lon) => 0 <= cell.i < |lat| && cell.j == 0 && cell.lat == lat[cell.i] && cell.lon == lon[cell.i]
  }

  ghost predicate FootprintMeets(layout: SpatialLayout, ring: Ring, i: int, j: int)
    requires ValidLayout(layout)
  {
    exists r: Rect :: IsFootprint(layout, i, j, r) && RectMeetsPolygon(ring, r)
  }

  /**
   A cell belongs to a polygon when its center is inside or, for cover on a grid, when its
   footprint meets the filled polygon.
   */
  ghost predicate Chosen(layout: SpatialLayout, ring: Ring, cover: bool, cell: PolygonCell)
    requires ValidLayout(layout)
  {
    && IsCell(layout, cell)
    && if cover && !layout.Points? then FootprintMeets(layout, ring, cell.i, cell.j) else Inside(Point(cell.lat, cell.lon), ring)
  }

  /** The cell is one of the box's sampled positions. */
  ghost predicate OnStride(b: BBox, stride: nat, cell: PolygonCell)
    requires stride > 0
  {
    && b.rMin <= cell.i < b.rMax && (cell.i - b.rMin) % stride == 0
    && b.cMin <= cell.j < b.cMax && (cell.j - b.cMin) % stride == 0
  }

  /**
   What a selection is: in row-major order exactly the chosen cells of the box's sampled positions,
   where the box holds every chosen cell, and no cell only if there is none to choose; without a
   cap every position is sampled, so every chosen cell is selected.
   */
  ghost predicate Selects(layout: SpatialLayout, ring: Ring, cover: bool, capped: bool, sel: PolygonSelection)
    requires ValidLayout(layout)
  {
    && sel.stride > 0 && RowMajor(sel.cells)
    && (forall cell :: cell in sel.cells <==> Chosen(layout, ring, cover, cell) && OnStride(sel.bbox, sel.stride, cell))
    && (forall cell :: Chosen(layout, ring, cover, cell) ==>
          sel.bbox.rMin <= cell.i < sel.bbox.rMax && sel.bbox.cMin <= cell.j < sel.bbox.cMax)
    && (sel.cells == [] ==> forall cell :: !Chosen(layout, ring, cover, cell))
    && (!capped ==> sel.stride == 1 && forall cell :: cell in sel.cells <==> Chosen(layout, ring, cover, cell))
  }

  lemma CellAtIsCell(layout: SpatialLayout, cell: PolygonCell)
    requires ValidLayout(layout)
    ensures IsCell(layout, cell) <==> InGrid(layout, cell.i, cell.j) && cell == CellAt(layout, cell.i, cell.j)
  {
    if layout.Curvilinear? && InGrid(layout, cell.i, cell.j) {
      hide Monotone, Spot, GridAt;
      GridAtIsSpot(layout.grid, cell.i, cell.j);
    }
  }

  lemma MeetsIsOverlap(layout: SpatialLayout, ring: Ring, i: nat, j: nat)
    requires ValidLayout(layout) && HasFootprints(layout) && InGrid(layout, i, j)
    ensures FootprintMeets(layout, ring, i, j) <==> RectMeetsPolygon(ring, Footprint(layout, i, j))
  {
    hide ValidLayout, IsFootprint, Footprint, RectMeetsPolygon;
    var f := Footprint(layout, i, j);
    FootprintIsDrawn(layout, i, j);
    forall r: Rect | IsFootprint(layout, i, j, r) ensures r == f {
      FootprintIsUnique(layout, i, j, r, f);
    }
  }

  /** The cells a scan keeps are the chosen ones. */
  lemma ChosenIsKept(layout: SpatialLayout, ring: Ring, cover: bool, cell: PolygonCell)
    requires ValidLayout(layout)
    ensures Chosen(layout, ring, cover, cell) <==>
              InGrid(layout, cell.i, cell.j) && Keep(layout, ring, cover, cell.i, cell.j) && cell == CellAt(layout, cell.i, cell.j)
  {
    hide ValidLayout, Inside, Footprint, RectMeetsPolygon, FootprintMeets, IsCell;
    CellAtIsCell(layout, cell);
    if InGrid(layout, cell.i, cell.j) && cover && !layout.Points? {
      MeetsIsOverlap(layout, ring, cell.i, cell.j);
      CoverIsFootprintOverlap(layout, ring, cell.i, cell.j);
    }
  }

  lemma ChosenIsReached(layout: SpatialLayout, ring: Ring, cover: bool, b: BBox, cell: PolygonCell)
    requires ValidLayout(layout) && ring != [] && TightBox(layout, EnvelopeOf(ring), cover, b) && Chosen(layout, ring, cover, cell)
    ensures b.rMin <= cell.i < b.rMax && b.cMin <= cell.j < b.cMax
  {
    hide ValidLayout, Keep, Reaches, Chosen, EnvelopeOf;
    ChosenIsKept(layout, ring, cover, cell);
    KeptIsReached(layout, ring, cover, cell.i, cell.j);
  }

  lemma WholeScanHolds(layout: SpatialLayout, ring: Ring, cover: bool, cell: PolygonCell)
    requires ValidLayout(layout)
    ensures cell in WholeGridCells(layout, ring, cover) <==> Chosen(layout, ring, cover, cell)
  {
    hide ValidLayout, Keep, GridCells, Chosen;
    ChosenIsKept(layout, ring, cover, cell);
    GridCellsMembers(layout, ring, cover, 0, NRows(layout), 0, NCols(layout), cell);
  }

  lemma BoxScanHolds(layout: SpatialLayout, ring: Ring, cover: bool, b: BBox, stride: nat, cell: PolygonCell)
    requires ValidLayout(layout) && BoxInGrid(layout, b) && stride > 0
    ensures cell in BoxCells(layout, ring, cover, b, stride) <==> Chosen(layout, ring, cover, cell) && OnStride(b, stride, cell)
  {
    hide ValidLayout, Keep, GridCells, Chosen;
    ChosenIsKept(layout, ring, cover, cell);
    GridSamples(layout, ring, cover, b.rMin, b.rMax, b.cMin, b.cMax, stride, cell);
  }

  /** A resolved selection is what a selection should be. */
  lemma ResolvedSelects(layout: SpatialLayout, ring: Ring, cover: bool, maxCells: Option<nat>, sel: PolygonSelection)
    requires ValidLayout(layout) && Resolved(layout, ring, cover, maxCells, sel)
    ensures Selects(layout, ring, cover, maxCells.Some?, sel)
  {
    hide ValidLayout, BoxCells, WholeGridCells, WithinBudget, Chosen, TightBox, RowMajor, OnStride, EnvelopeOf;
    BoxScanOrdered(layout, ring, cover, sel.bbox, sel.stride);
    forall cell ensures cell in sel.cells <==> Chosen(layout, ring, cover, cell) && OnStride(sel.bbox, sel.stride, cell) {
      BoxScanHolds(layout, ring, cover, sel.bbox, sel.stride, cell);
    }
    forall cell ensures cell in WholeGridCells(layout, ring, cover) <==> Chosen(layout, ring, cover, cell) {
      WholeScanHolds(layout, ring, cover, cell);
    }
    forall cell | Chosen(layout, ring, cover, cell)
      ensures sel.bbox.rMin <= cell.i < sel.bbox.rMax && sel.bbox.cMin <= cell.j < sel.bbox.cMax
    {
      ChosenIsReached(layout, ring, cover, sel.bbox, cell);
    }
  }

  lemma BoxScanOrdered(layout: SpatialLayout, ring: Ring, cover: bool, b: BBox, stride: nat)
    requires ValidLayout(layout) && BoxInGrid(layout, b) && stride > 0
    ensures RowMajor(BoxCells(layout, ring, cover, b, stride))
  {
    hide ValidLayout, GridCells, RowMajor;
    GridCellsOrdered(layout, ring, cover, b.rMin, b.rMax, b.cMin, b.cMax, stride);
  }

  lemma PrunedBox(layout: SpatialLayout, ring: Ring, cover: bool, b: BBox)
    requires ValidLayout(layout) && ring != [] && BoxInGrid(layout, b) && TightBox(layout, EnvelopeOf(ring), cover, b)
    ensures BoxCells(layout, ring, cover, b, 1) == WholeGridCells(layout, ring, cover)
  {
    hide Keep, Reaches, ValidLayout, EnvelopeOf;
    forall i: nat, j: nat | InGrid(layout, i, j) && Keep(layout, ring, cover, i, j) ensures InBBox(b, i, j) {
      KeptIsReached(layout, ring, cover, i, j);
    }
    BoxScanIsWholeScan(layout, ring, cover, b);
  }

  lemma EmptyBox(layout: SpatialLayout, ring: Ring, cover: bool, b: BBox, maxCells: Option<nat>)
    requires ValidLayout(layout) && BoxInGrid(layout, b)
    requires b.rMax == b.rMin || b.cMax == b.cMin
    ensures BoxCells(layout, ring, cover, b, 1) == []
    ensures maxCells.Some? ==> LeastFit(b.rMax - b.rMin, b.cMax - b.cMin, maxCells.value, 1)
  {
    hide Keep, ValidLayout;
    GridCellsNone(layout, ring, cover, b.rMin, b.rMax, b.cMin, b.cMax);
    CeilDivOne(b.rMax - b.rMin, 1);
    CeilDivOne(b.cMax - b.cMin, 1);
  }

  lemma BudgetMet(layout: SpatialLayout, ring: Ring, cover: bool, b: BBox, maxCells: nat, stride: nat)
    requires ValidLayout(layout) && BoxInGrid(layout, b) && stride > 0
    requires Fits(b.rMax - b.rMin, b.cMax - b.cMin, maxCells, stride)
    ensures |BoxCells(layout, ring, cover, b, stride)| <= maxCells
  {
    hide CeilDiv, GridCells, ValidLayout;
    GridCellsBudget(layout, ring, cover, b.rMin, b.rMax, b.cMin, b.cMax, stride);
  }

  /** Lower the stride until a cell survives. */
  method GatherSurvivors(layout: SpatialLayout, b: BBox, ring: Ring, footprint: bool, least: nat)
    returns (cells: seq<PolygonCell>, stride: nat)
    requires ValidLayout(layout) && BoxInGrid(layout, b) && least > 0
    requires footprint ==> HasFootprints(layout)
    ensures 0 < stride <= least && cells == BoxCells(layout, ring, footprint, b, stride)
    ensures forall k :: stride < k <= least ==> BoxCells(layout, ring, footprint, b, k) == []
    ensures cells == [] ==> stride == 1
  {
    hide BoxCells, ValidLayout;
    stride := least;
    cells := GatherCells(layout, b, ring, stride, footprint);
    while |cells| == 0 && stride > 1
      invariant 0 < stride <= least && cells == BoxCells(layout, ring, footprint, b, stride)
      invariant forall k :: stride < k <= least ==> BoxCells(layout, ring, footprint, b, k) == []
      decreases stride
    {
      stride := stride - 1;
      cells := GatherCells(layout, b, ring, stride, footprint);
    }
  }

  method ResolveSelection(layout: SpatialLayout, ring: Ring, cover: bool, maxCells: Option<nat>) returns (sel: PolygonSelection)
    requires ValidLayout(layout) && ring != [] && (maxCells.Some? ==> maxCells.value > 0)
    ensures Resolved(layout, ring, cover, maxCells, sel)
    ensures Selects(layout, ring, cover, maxCells.Some?, sel)
  {
    hide Resolved, Selects, ValidLayout;
    var footprint := cover && HasFootprints(layout);
    sel := ResolveBy(layout, ring, footprint, maxCells);
    if cover && !footprint {
      ResolvedIgnoresCover(layout, ring, maxCells, sel);
    }
    ResolvedSelects(layout, ring, cover, maxCells, sel);
  }

  method ResolveBy(layout: SpatialLayout, ring: Ring, footprint: bool, maxCells: Option<nat>) returns (sel: PolygonSelection)
    requires ValidLayout(layout) && ring != [] && (maxCells.Some? ==> maxCells.value > 0)
    requires footprint ==> HasFootprints(layout)
    ensures Resolved(layout, ring, footprint, maxCells, sel)
  {
    hide BoxCells, ValidLayout, LeastFit, WholeGridCells, TightBox, EnvelopeOf;
    var b := ResolveBBox(layout, ring, footprint);
    PrunedBox(layout, ring, footprint, b);
    var rows, cols := b.rMax - b.rMin, b.cMax - b.cMin;
    if rows <= 0 || cols <= 0 {
      EmptyBox(layout, ring, footprint, b, maxCells);
      sel := PolygonSelection([], b, 1);
      assert maxCells.Some? ==> BudgetFrom(layout, ring, footprint, maxCells.value, sel, 1);
      return;
    }
    var least := ComputeStride(rows, cols, maxCells);
    var cells, stride := GatherSurvivors(layout, b, ring, footprint, least);
    sel := PolygonSelection(cells, b, stride);
    if maxCells.Some? {
      IsLeastFit(rows, cols, maxCells.value, least);
      if stride == least {
        BudgetMet(layout, ring, footprint, b, maxCells.value, stride);
      }
      assert BudgetFrom(layout, ring, footprint, maxCells.value, sel, least);
    }
  }

  lemma IsLeastFit(rows: nat, cols: nat, maxCells: nat, least: nat)
    requires least > 0 && Fits(rows, cols, maxCells, least)
    requires forall k :: 0 < k < least ==> !Fits(rows, cols, maxCells, k)
    ensures LeastFit(rows, cols, maxCells, least)
  {
  }

  /**
   The selection without a cap is the brute-force filter of the whole grid: a cell is selected
   exactly when it is chosen, in row-major order.
   */
  lemma UncappedSelection(layout: SpatialLayout, ring: Ring, cover: bool, sel: PolygonSelection)
    requires ValidLayout(layout) && Resolved(layout, ring, cover, None, sel)
    ensures sel.cells == WholeGridCells(layout, ring, cover)
    ensures RowMajor(sel.cells)
    ensures forall cell :: cell in sel.cells <==> Chosen(layout, ring, cover, cell)
  {
    hide Chosen, ValidLayout, BoxCells, WholeGridCells, RowMajor, TightBox;
    ResolvedSelects(layout, ring, cover, None, sel);
  }

  /** Without a cap, cover selects what center selects and, on a grid, every cell whose footprint meets the polygon. */
  lemma CoverContainsCenter(layout: SpatialLayout, ring: Ring, center: PolygonSelection, covered: PolygonSelection)
    requires ValidLayout(layout) && Resolved(layout, ring, false, None, center) && Resolved(layout, ring, true, None, covered)
    ensures forall cell :: cell in covered.cells <==>
              || cell in center.cells
              || (!layout.Points? && IsCell(layout, cell) && FootprintMeets(layout, ring, cell.i, cell.j))
  {
    hide IsCell, ValidLayout, Resolved, FootprintMeets, Inside;
    UncappedSelection(layout, ring, false, center);
    UncappedSelection(layout, ring, true, covered);
    forall cell | cell in center.cells ensures cell in covered.cells {
      CenterIsCovered(layout, ring, cell);
    }
  }

  lemma CenterIsCovered(layout: SpatialLayout, ring: Ring, cell: PolygonCell)
    requires ValidLayout(layout) && Chosen(layout, ring, false, cell)
    ensures Chosen(layout, ring, true, cell)
  {
    hide ValidLayout, Chosen, Inside, RectMeetsPolygon, Footprint;
    ChosenIsKept(layout, ring, false, cell);
    ChosenIsKept(layout, ring, true, cell);
  }

  // --------------------------------------------- when the cap is a hard bound

  lemma LeastFitUnique(rows: nat, cols: nat, maxCells: nat, a: nat, b: nat)
    requires LeastFit(rows, cols, maxCells, a) && LeastFit(rows, cols, maxCells, b)
    ensures a == b
  {
    hide Fits;
  }

  /**
   The loop lowers the stride exactly when the least fitting one is not 1 and keeps no cell; where
   it does not, the budget is met.
   */
  lemma BudgetUnlessLowered(layout: SpatialLayout, ring: Ring, cover: bool, maxCells: nat, sel: PolygonSelection, least: nat)
    requires ValidLayout(layout) && Resolved(layout, ring, cover, Some(maxCells), sel)
    requires LeastFit(sel.bbox.rMax - sel.bbox.rMin, sel.bbox.cMax - sel.bbox.cMin, maxCells, least)
    ensures sel.stride == least <==> least == 1 || BoxCells(layout, ring, cover, sel.bbox, least) != []
    ensures least == 1 || BoxCells(layout, ring, cover, sel.bbox, least) != [] ==> |sel.cells| <= maxCells
  {
    hide ValidLayout, BoxCells, WholeGridCells, LeastFit;
    var found: nat :| BudgetFrom(layout, ring, cover, maxCells, sel, found);
    LeastFitUnique(sel.bbox.rMax - sel.bbox.rMin, sel.bbox.cMax - sel.bbox.cMin, maxCells, least, found);
  }

  /** In every case the stride is the largest one, up to the least fitting, that keeps a cell, or 1. */
  lemma StrideIsLargestSurvivor(layout: SpatialLayout, ring: Ring, cover: bool, maxCells: nat, sel: PolygonSelection, least: nat)
    requires ValidLayout(layout) && Resolved(layout, ring, cover, Some(maxCells), sel)
    requires LeastFit(sel.bbox.rMax - sel.bbox.rMin, sel.bbox.cMax - sel.bbox.cMin, maxCells, least)
    ensures 0 < sel.stride <= least
    ensures forall k :: sel.stride < k <= least ==> BoxCells(layout, ring, cover, sel.bbox, k) == []
    ensures sel.stride == 1 || BoxCells(layout, ring, cover, sel.bbox, sel.stride) != []
  {
    hide ValidLayout, BoxCells, WholeGridCells, LeastFit;
    var found: nat :| BudgetFrom(layout, ring, cover, maxCells, sel, found);
    LeastFitUnique(sel.bbox.rMax - sel.bbox.rMin, sel.bbox.cMax - sel.bbox.cMin, maxCells, least, found);
  }

  /** Lowered or not, the stride bounds the selection by its sampled positions. */
  lemma SampledBound(layout: SpatialLayout, ring: Ring, cover: bool, maxCells: Option<nat>, sel: PolygonSelection)
    requires ValidLayout(layout) && Resolved(layout, ring, cover, maxCells, sel)
    ensures |sel.cells| <= CeilDiv(sel.bbox.rMax - sel.bbox.rMin, sel.stride) * CeilDiv(sel.bbox.cMax - sel.bbox.cMin, sel.stride)
  {
    hide ValidLayout, GridCells, WholeGridCells, CeilDiv, WithinBudget;
    var b := sel.bbox;
    GridCellsBudget(layout, ring, cover, b.rMin, b.rMax, b.cMin, b.cMax, sel.stride);
  }

  lemma UnitLeastFit(rows: nat, cols: nat, maxCells: nat)
    requires rows * cols <= maxCells
    ensures LeastFit(rows, cols, maxCells, 1)
  {
    UnitStrideFits(rows, cols, maxCells);
  }

  /** A cap of at least the whole grid is met, at stride 1. */
  lemma AmpleCapIsMet(layout: SpatialLayout, ring: Ring, cover: bool, maxCells: nat, sel: PolygonSelection)
    requires ValidLayout(layout) && Resolved(layout, ring, cover, Some(maxCells), sel)
    requires NRows(layout) * NCols(layout) <= maxCells
    ensures sel.stride == 1 && |sel.cells| <= maxCells
    ensures sel.cells == WholeGridCells(layout, ring, cover)
  {
    hide ValidLayout, BoxCells, WholeGridCells, LeastFit, WithinBudget, NRows, NCols;
    var rows, cols := sel.bbox.rMax - sel.bbox.rMin, sel.bbox.cMax - sel.bbox.cMin;
    ProductMonotone(rows, NRows(layout), cols, NCols(layout));
    UnitLeastFit(rows, cols, maxCells);
    BudgetUnlessLowered(layout, ring, cover, maxCells, sel, 1);
  }

  // --------------------------------------------- the cap is not a hard bound

  /** A 3 by 3 grid with unit steps, and a triangle that leaves the three cells around its origin corner outside. */
  const UNIT_GRID := Rectilinear([0.0, 1.0, 2.0], [0.0, 1.0, 2.0])
  const CORNERLESS: Ring := [Point(3.0, -1.5), Point(3.0, 3.0), Point(-1.5, 3.0)]
  const WHOLE_BOX := BBox(0, 3, 0, 3)

  lemma SampledCenters()
    ensures !Inside(Point(0.0, 0.0), CORNERLESS) && Inside(Point(0.0, 2.0), CORNERLESS)
    ensures Inside(Point(2.0, 0.0), CORNERLESS) && Inside(Point(2.0, 2.0), CORNERLESS)
  {
    hide Inside;
    forall p ensures Inside(p, CORNERLESS) ==
      ((Crosses(CORNERLESS[0], CORNERLESS[2], p) != Crosses(CORNERLESS[1], CORNERLESS[0], p)) != Crosses(CORNERLESS[2], CORNERLESS[1], p))
    {
      TriangleParity(CORNERLESS[0], CORNERLESS[1], CORNERLESS[2], p);
    }
  }

  lemma UnitGridIsValid()
    ensures ValidLayout(UNIT_GRID) && BoxInGrid(UNIT_GRID, WHOLE_BOX)
  {
  }

  lemma StrideThreeRow()
    requires ValidLayout(UNIT_GRID) && !Keep(UNIT_GRID, CORNERLESS, false, 0, 0)
    ensures RowCells(UNIT_GRID, CORNERLESS, false, 0, 0, 3, 3) == []
  {
    hide Keep, ValidLayout;
    assert RowCells(UNIT_GRID, CORNERLESS, false, 0, 3, 3, 3) == [];
  }

  lemma StrideTwoRow(i: nat)
    requires ValidLayout(UNIT_GRID) && i < 3
    ensures |RowCells(UNIT_GRID, CORNERLESS, false, i, 0, 3, 2)|
         == (if Keep(UNIT_GRID, CORNERLESS, false, i, 0) then 1 else 0) + (if Keep(UNIT_GRID, CORNERLESS, false, i, 2) then 1 else 0)
  {
    hide Keep, ValidLayout;
    assert RowCells(UNIT_GRID, CORNERLESS, false, i, 4, 3, 2) == [];
    assert |RowCells(UNIT_GRID, CORNERLESS, false, i, 2, 3, 2)| == if Keep(UNIT_GRID, CORNERLESS, false, i, 2) then 1 else 0;
  }

  lemma KeptSamples()
    requires ValidLayout(UNIT_GRID)
    ensures !Keep(UNIT_GRID, CORNERLESS, false, 0, 0) && Keep(UNIT_GRID, CORNERLESS, false, 0, 2)
    ensures Keep(UNIT_GRID, CORNERLESS, false, 2, 0) && Keep(UNIT_GRID, CORNERLESS, false, 2, 2)
  {
    hide Inside;
    SampledCenters();
  }

  /**
   Lowering the stride can exceed the cap: with a budget of one cell the least fitting stride is 3,
   which loses every cell here, and stride 2 selects three.
   */
  lemma CapCanBeExceeded()
    ensures LeastFit(3, 3, 1, 3)
    ensures ValidLayout(UNIT_GRID) && BoxInGrid(UNIT_GRID, WHOLE_BOX)
    ensures BoxCells(UNIT_GRID, CORNERLESS, false, WHOLE_BOX, 3) == []
    ensures |BoxCells(UNIT_GRID, CORNERLESS, false, WHOLE_BOX, 2)| == 3
  {
    UnitGridIsValid();
    hide Keep, ValidLayout, RowCells;
    KeptSamples();
    StrideThreeRow();
    StrideTwoRow(0);
    StrideTwoRow(2);
    assert GridCells(UNIT_GRID, CORNERLESS, false, 3, 3, 0, 3, 3) == [];
    assert GridCells(UNIT_GRID, CORNERLESS, false, 4, 3, 0, 3, 2) == [];
    assert GridCells(UNIT_GRID, CORNERLESS, false, 2, 3, 0, 3, 2) == RowCells(UNIT_GRID, CORNERLESS, false, 2, 0, 3, 2) + [];
  }

  lemma WholeGridHolds(sel: PolygonSelection, i: nat, j: nat)
    requires ValidLayout(UNIT_GRID) && Resolved(UNIT_GRID, CORNERLESS, false, Some(1), sel)
    requires InGrid(UNIT_GRID, i, j) && Keep(UNIT_GRID, CORNERLESS, false, i, j)
    ensures InBBox(sel.bbox, i, j) && WholeGridCells(UNIT_GRID, CORNERLESS, false) != []
  {
    hide ValidLayout, Keep, GridCells, WithinBudget, CellAt, UNIT_GRID, CORNERLESS;
    var cell, b := CellAt(UNIT_GRID, i, j), sel.bbox;
    CellPosition(i, j);
    GridCellsMembers(UNIT_GRID, CORNERLESS, false, 0, NRows(UNIT_GRID), 0, NCols(UNIT_GRID), cell);
    GridCellsMembers(UNIT_GRID, CORNERLESS, false, b.rMin, b.rMax, b.cMin, b.cMax, cell);
  }

  lemma CellPosition(i: nat, j: nat)
    requires ValidLayout(UNIT_GRID) && InGrid(UNIT_GRID, i, j)
    ensures CellAt(UNIT_GRID, i, j).i == i && CellAt(UNIT_GRID, i, j).j == j
  {
  }

  lemma ResolvedBoxIsWhole(sel: PolygonSelection)
    requires ValidLayout(UNIT_GRID) && Resolved(UNIT_GRID, CORNERLESS, false, Some(1), sel)
    ensures sel.bbox == WHOLE_BOX && WholeGridCells(UNIT_GRID, CORNERLESS, false) != []
  {
    hide ValidLayout, Keep, Resolved, WholeGridCells;
    KeptSamples();
    WholeGridHolds(sel, 0, 2);
    WholeGridHolds(sel, 2, 0);
    BoxOfResolved(sel);
  }

  lemma BoxOfResolved(sel: PolygonSelection)
    requires ValidLayout(UNIT_GRID) && Resolved(UNIT_GRID, CORNERLESS, false, Some(1), sel)
    ensures BoxInGrid(UNIT_GRID, sel.bbox)
  {
  }

  /** Whatever meets the resolver's promise on this input has three cells under a cap of one. */
  lemma ResolvedExceedsCap(sel: PolygonSelection)
    requires ValidLayout(UNIT_GRID) && Resolved(UNIT_GRID, CORNERLESS, false, Some(1), sel)
    ensures sel.bbox == WHOLE_BOX && sel.stride == 2 && |sel.cells| == 3
  {
    hide ValidLayout, WholeGridCells, BoxCells, LeastFit, WithinBudget;
    CapCanBeExceeded();
    ResolvedBoxIsWhole(sel);
    StrideIsLargestSurvivor(UNIT_GRID, CORNERLESS, false, 1, sel, 3);
  }

  /** So the selection resolved for this grid and triangle exceeds its cap. */
  method ResolveOverCap() returns (sel: PolygonSelection)
    ensures sel.stride == 2 && |sel.cells| == 3
  {
    hide Resolved, ValidLayout;
    UnitGridIsValid();
    sel := ResolveSelection(UNIT_GRID, CORNERLESS, false, Some(1));
    ResolvedExceedsCap(sel);
  }
}
