/** The polygon reader: input checks, the block read of each time step and the values it yields. */
module PolygonReader {
  import opened Vectors
  import opened ChunkIndexing
  import opened Segments
  import opened RayCast
  import opened GridLayout
  import opened CellSelection
  import opened ArrayModel
  import opened ArrayMeaning
  import opened ArrayLoad
  import opened Loader

  datatype Result<+T> = Ok(value: T) | SliceError

  datatype PolygonReadOptions = PolygonReadOptions(
    polygon: Ring, cover: bool, maxCells: Option<int>, timeAxis: Option<int>,
    timeRange: Option<(int, int)>, resolvedSelection: Option<PolygonSelection>)

  datatype Timestep = Timestep(t: nat, values: seq<Elem>)

  /** The steps yielded, and the job whose error ended the read, if one did. */
  datatype Reading = Reading(steps: seq<Timestep>, error: Option<nat>)

  // ------------------------------------------------------------- input checks

  ghost predicate ValidInput(opts: PolygonReadOptions, nTime: nat) {
    && |set v | v in opts.polygon| >= 3
    && (opts.timeAxis == None || opts.timeAxis == Some(0))
    && (opts.timeRange.Some? ==> 0 <= opts.timeRange.value.0 <= opts.timeRange.value.1 <= nTime)
    && (opts.maxCells.Some? ==> opts.maxCells.value >= 1)
  }

  method DistinctVertexCount(ring: Ring) returns (count: nat)
    ensures count == |set v | v in ring|
  {
    var seen: set<Point> := {};
    for k := 0 to |ring|
      invariant seen == set v | v in ring[..k]
    {
      assert ring[..k + 1] == ring[..k] + [ring[k]];
      seen := seen + {ring[k]};
    }
    assert ring[..|ring|] == ring;
    count := |seen|;
  }

  method ValidatePolygonReadInput(opts: PolygonReadOptions, nTime: nat) returns (ok: bool)
    ensures ok <==> ValidInput(opts, nTime)
  {
    var count := DistinctVertexCount(opts.polygon);
    if count < 3 {
      return false;
    }
    if opts.timeAxis.Some? && opts.timeAxis.value != 0 {
      return false;
    }
    if opts.timeRange.Some? {
      var start, end := opts.timeRange.value.0, opts.timeRange.value.1;
      if start < 0 || end > nTime || end < start {
        return false;
      }
    }
    if opts.maxCells.Some? && opts.maxCells.value < 1 {
      return false;
    }
    return true;
  }

  /** Axes a layout addresses: time, then rows and columns or the point axis. */
  function NDim(layout: SpatialLayout): nat {
    if layout.Points? then 2 else 3
  }

  /** The dimensions between time and the trailing point axis, or rows and columns, all have size 1. */
  ghost predicate RankFits(arr: ZarrArray, layout: SpatialLayout) {
    var spatial := if layout.Points? then 1 else 2;
    && 1 + spatial <= |arr.shape|
    && forall d :: 1 <= d < |arr.shape| - spatial ==> arr.shape[d] == 1
  }

  /** The number of size-1 dimensions between time and space, if the rank fits. */
  method AssertArrayRank(arr: ZarrArray, layout: SpatialLayout) returns (r: Result<nat>)
    ensures r.Ok? <==> RankFits(arr, layout)
    ensures r.Ok? ==> r.value == |arr.shape| - (if layout.Points? then 2 else 3)
  {
    var k := |arr.shape| - NDim(layout);
    if k < 0 {
      return SliceError;
    }
    for d := 1 to 1 + k
      invariant forall e :: 1 <= e < d ==> arr.shape[e] == 1
    {
      if arr.shape[d] != 1 {
        return SliceError;
      }
    }
    return Ok(k);
  }

  /** The array's own trailing extents; a point layout has one synthetic column. */
  function SpatialExtents(arr: ZarrArray, layout: SpatialLayout): (nat, nat)
    requires NDim(layout) <= |arr.shape|
  {
    var rank := |arr.shape|;
    if layout.Points? then (arr.shape[rank - 1], 1) else (arr.shape[rank - 2], arr.shape[rank - 1])
  }

  /** The box lies in the array's trailing dimensions, a point axis having one column, and holds every cell. */
  ghost predicate SelectionFits(sel: PolygonSelection, arr: ZarrArray, layout: SpatialLayout)
    requires (if layout.Points? then 2 else 3) <= |arr.shape|
  {
    var rank, b := |arr.shape|, sel.bbox;
    && 0 <= b.rMin <= b.rMax <= (if layout.Points? then arr.shape[rank - 1] else arr.shape[rank - 2])
    && 0 <= b.cMin <= b.cMax <= (if layout.Points? then 1 else arr.shape[rank - 1])
    && forall k :: 0 <= k < |sel.cells| ==> b.rMin <= sel.cells[k].i < b.rMax && b.cMin <= sel.cells[k].j < b.cMax
  }

  method AssertSelectionInBounds(sel: PolygonSelection, layout: SpatialLayout, arr: ZarrArray) returns (ok: bool)
    requires (if layout.Points? then 2 else 3) <= |arr.shape|
    ensures ok <==> SelectionFits(sel, arr, layout)
  {
    var b := sel.bbox;
    var extents := SpatialExtents(arr, layout);
    if b.rMin < 0 || b.cMin < 0 || b.rMax > extents.0 || b.cMax > extents.1 || b.rMax < b.rMin || b.cMax < b.cMin {
      return false;
    }
    for k := 0 to |sel.cells|
      invariant forall n :: 0 <= n < k ==> InBBox(b, sel.cells[n].i, sel.cells[n].j)
    {
      var cell := sel.cells[k];
      if cell.i < b.rMin || cell.i >= b.rMax || cell.j < b.cMin || cell.j >= b.cMax {
        return false;
      }
    }
    return true;
  }

  /** A layout describes the array's trailing dimensions. */
  ghost predicate LayoutFits(arr: ZarrArray, layout: SpatialLayout) {
    NDim(layout) <= |arr.shape| ==> SpatialExtents(arr, layout) == (NRows(layout), NCols(layout))
  }

  // -------------------------------------------------------- one step's block

  /** The block of one time step: index 0 of every middle dimension, then the box. */
  function StepSelection(layout: SpatialLayout, t: nat, b: BBox, k: nat): Selection
    requires 0 <= b.rMin && 0 <= b.rMax && 0 <= b.cMin && 0 <= b.cMax
  {
    [At(t)] + seq(k, _ => At(0))
    + (if layout.Points? then [Between(b.rMin, b.rMax)] else [Between(b.rMin, b.rMax), Between(b.cMin, b.cMax)])
  }

  /** The array index of a cell at a time step. */
  function CellIndex(layout: SpatialLayout, t: nat, k: nat, i: nat, j: nat): Vec {
    [t] + seq(k, _ => 0) + (if layout.Points? then [i] else [i, j])
  }

  ghost predicate StepFits(arr: ZarrArray, layout: SpatialLayout, t: nat, b: BBox, k: nat) {
    && ValidArray(arr) && RankFits(arr, layout) && k == |arr.shape| - NDim(layout) && t < arr.shape[0]
    && 0 <= b.rMin < b.rMax <= SpatialExtents(arr, layout).0
    && 0 <= b.cMin < b.cMax <= SpatialExtents(arr, layout).1
  }

  ghost function StepRanges(arr: ZarrArray, layout: SpatialLayout, t: nat, b: BBox, k: nat): (ranges: seq<DimRange>)
    requires StepFits(arr, layout, t, b, k)
    ensures ValidRanges(arr, ranges)
  {
    NormalizeSelection(StepSelection(layout, t, b, k), arr.shape)
  }

  lemma {:induction false} ZeroRavel(idx: Vec, shape: Vec)
    requires |idx| == |shape| && forall d :: 0 <= d < |idx| ==> idx[d] == 0
    ensures Ravel(idx, shape) == 0
  {
    if idx != [] {
      ZeroRavel(idx[1..], shape[1..]);
    }
  }

  /** Leading zero coordinates do not move a row-major rank over the last two axes. */
  lemma TailRavel(zeros: Vec, lead: Vec, r: nat, rows: nat, c: nat, cols: nat)
    requires |zeros| == |lead| && forall d :: 0 <= d < |zeros| ==> zeros[d] == 0
    ensures Ravel(zeros + [r], lead + [rows]) == r
    ensures Ravel(zeros + [r] + [c], lead + [rows] + [cols]) == r * cols + c
  {
    ZeroRavel(zeros, lead);
    RavelAppend(zeros, r, lead, rows);
    RavelAppend(zeros + [r], c, lead + [rows], cols);
  }

  function LocalIndex(layout: SpatialLayout, k: nat, r: nat, c: nat): Vec {
    seq(1 + k, _ => 0) + (if layout.Points? then [r] else [r] + [c])
  }

  lemma StepShape(arr: ZarrArray, layout: SpatialLayout, t: nat, b: BBox, k: nat)
    requires StepFits(arr, layout, t, b, k)
    ensures var rows, cols := b.rMax - b.rMin, b.cMax - b.cMin;
            OutShape(StepRanges(arr, layout, t, b, k))
            == seq(1 + k, _ => 1) + (if layout.Points? then [rows] else [rows] + [cols])
  {
  }

  lemma StepGlobal(arr: ZarrArray, layout: SpatialLayout, t: nat, b: BBox, k: nat, i: nat, j: nat)
    requires StepFits(arr, layout, t, b, k) && InBBox(b, i, j)
    ensures Global(StepRanges(arr, layout, t, b, k), LocalIndex(layout, k, i - b.rMin, j - b.cMin))
         == CellIndex(layout, t, k, i, j)
  {
  }

  /** The block position that the reader computes for a cell. */
  function BlockOffset(b: BBox, i: int, j: int): int {
    (i - b.rMin) * (b.cMax - b.cMin) + (j - b.cMin)
  }

  lemma LocalRank(layout: SpatialLayout, b: BBox, k: nat, i: nat, j: nat)
    requires InBBox(b, i, j) && (layout.Points? ==> b.cMin == 0 && b.cMax == 1)
    ensures var rows, cols := b.rMax - b.rMin, b.cMax - b.cMin;
            Ravel(LocalIndex(layout, k, i - b.rMin, j - b.cMin),
                  seq(1 + k, _ => 1) + (if layout.Points? then [rows] else [rows] + [cols]))
            == BlockOffset(b, i, j)
  {
    var zeros, ones: Vec := seq(1 + k, _ => 0), seq(1 + k, _ => 1);
    var r, rows, c, cols := i - b.rMin, b.rMax - b.rMin, j - b.cMin, b.cMax - b.cMin;
    TailRavel(zeros, ones, r, rows, c, cols);
    assert zeros + ([r] + [c]) == zeros + [r] + [c];
    assert ones + ([rows] + [cols]) == ones + [rows] + [cols];
  }

  /** The block, read at a cell's offset, is the logical array at that cell. */
  lemma BlockHoldsCell(arr: ZarrArray, store: Store, layout: SpatialLayout, t: nat, b: BBox, k: nat, i: nat, j: nat)
    requires StepFits(arr, layout, t, b, k) && InBBox(b, i, j) && ValidStore(arr, store)
    ensures 0 <= BlockOffset(b, i, j) < |ReadSpec(arr, store, StepRanges(arr, layout, t, b, k))|
    ensures ReadSpec(arr, store, StepRanges(arr, layout, t, b, k))[BlockOffset(b, i, j)]
         == Logical(arr, store, CellIndex(layout, t, k, i, j))
  {
    hide ReadSpec, Logical, ValidStore, StepRanges, Global, OutShape;
    var o := LocalIndex(layout, k, i - b.rMin, j - b.cMin);
    StepShape(arr, layout, t, b, k);
    StepGlobal(arr, layout, t, b, k, i, j);
    LocalRank(layout, b, k, i, j);
    ReadSpecAt(arr, store, StepRanges(arr, layout, t, b, k), o);
  }

  // ------------------------------------------------------------- the reading

  ghost predicate CellsIn(b: BBox, cells: seq<PolygonCell>) {
    forall n :: 0 <= n < |cells| ==> InBBox(b, cells[n].i, cells[n].j)
  }

  /** The reference meaning of one step: the logical array at time `t` and each cell, in cell order. */
  ghost function StepValues(arr: ZarrArray, store: Store, layout: SpatialLayout, b: BBox, cells: seq<PolygonCell>, k: nat, t: nat): seq<Elem>
    requires StepFits(arr, layout, t, b, k) && ValidStore(arr, store) && CellsIn(b, cells)
  {
    seq(|cells|, n requires 0 <= n < |cells| => Logical(arr, store, CellIndex(layout, t, k, cells[n].i, cells[n].j)))
  }

  lemma StepIsWanted(arr: ZarrArray, store: Store, layout: SpatialLayout, b: BBox, k: nat, t: nat)
    requires StepFits(arr, layout, t, b, k) && ValidStore(arr, store)
    ensures var selection := Some(StepSelection(layout, t, b, k));
            && ValidWanted(arr, selection)
            && WantedValues(arr, store, selection) == ReadSpec(arr, store, StepRanges(arr, layout, t, b, k))
  {
    hide ReadSpec, ValidStore;
    var selection := StepSelection(layout, t, b, k);
    assert |selection| == |arr.shape| && NormalizeSelection(selection, arr.shape) == StepRanges(arr, layout, t, b, k);
  }

  /** The offset as the reader writes it. */
  lemma CellValue(arr: ZarrArray, store: Store, layout: SpatialLayout, b: BBox, cells: seq<PolygonCell>, k: nat, t: nat, n: nat, offset: int)
    requires StepFits(arr, layout, t, b, k) && ValidStore(arr, store) && CellsIn(b, cells) && n < |cells|
    requires offset == BlockOffset(b, cells[n].i, cells[n].j)
    ensures 0 <= offset < |ReadSpec(arr, store, StepRanges(arr, layout, t, b, k))|
    ensures ReadSpec(arr, store, StepRanges(arr, layout, t, b, k))[offset]
         == StepValues(arr, store, layout, b, cells, k, t)[n]
  {
    hide ReadSpec, Logical, ValidStore, StepRanges, BlockOffset, CellIndex;
    BlockHoldsCell(arr, store, layout, t, b, k, cells[n].i, cells[n].j);
  }

  /** `s` is an end of the load of step `t`'s block that started with this cache. */
  ghost predicate StepLoaded(arr: ZarrArray, store: Store, layout: SpatialLayout, b: BBox, k: nat, t: nat,
    o: LoadOptions, cache: map<string, Bytes>, s: State)
    requires StepFits(arr, layout, t, b, k) && ValidStore(arr, store)
  {
    StepIsWanted(arr, store, layout, b, k, t);
    Loaded(arr, store, Some(StepSelection(layout, t, b, k)), o, cache, s)
  }

  /** The cells' values out of the block of their box. */
  method GatherValues(arr: ZarrArray, ghost store: Store, layout: SpatialLayout, b: BBox, cells: seq<PolygonCell>, k: nat, ghost t: nat,
    block: seq<Elem>)
    returns (values: array<Elem>)
    requires StepFits(arr, layout, t, b, k) && ValidStore(arr, store) && CellsIn(b, cells)
    requires block == ReadSpec(arr, store, StepRanges(arr, layout, t, b, k))
    ensures fresh(values) && values[..] == StepValues(arr, store, layout, b, cells, k, t)
  {
    hide ValidStore, ReadSpec, Logical, StepRanges, CellsIn, SpatialExtents, RankFits, CellIndex;
    var rowStride := b.cMax - b.cMin;
    values := new Elem[|cells|](_ => []);
    for n := 0 to |cells|
      invariant fresh(values)
      invariant values[..n] == StepValues(arr, store, layout, b, cells, k, t)[..n]
    {
      var localR, localC := cells[n].i - b.rMin, cells[n].j - b.cMin;
      var offset := localR * rowStride + localC;
      CellValue(arr, store, layout, b, cells, k, t, n, offset);
      values[n] := block[offset];
    }
  }

  /** One time step: load its block through the shared cache, then gather the cells' values. */
  method ReadStep(arr: ZarrArray, store: Store, layout: SpatialLayout, b: BBox, cells: seq<PolygonCell>, k: nat, t: nat,
    o: LoadOptions, cache: map<string, Bytes>)
    returns (step: Result<Timestep>, s: State)
    requires StepFits(arr, layout, t, b, k) && ValidStore(arr, store) && CellsIn(b, cells)
    requires Coherent(arr, store, cache) && o.concurrency >= 1
    ensures StepLoaded(arr, store, layout, b, k, t, o, cache, s) && Coherent(arr, store, s.cache) && |s.runs| == 1
    ensures step.Ok? <==> !s.runs[0].failed
    ensures s.runs[0].failed ==> s.runs[0].firstError.Some?
    ensures step.Ok? ==> step.value == Timestep(t, StepValues(arr, store, layout, b, cells, k, t))
  {
    hide ValidStore, ReadSpec, StepRanges, StepSelection, CellsIn, StepValues, StepFits, Loaded, WantedValues, ValidWanted, Coherent;
    StepBoxBounds(arr, layout, b, k, t);
    StepIsWanted(arr, store, layout, b, k, t);
    var got;
    got, s := Get(arr, store, Some(StepSelection(layout, t, b, k)), o, cache);
    if got.LoadFailed? {
      return SliceError, s;
    }
    var values := GatherValues(arr, store, layout, b, cells, k, t, got.values);
    return Ok(Timestep(t, values[..])), s;
  }

  lemma StepBoxBounds(arr: ZarrArray, layout: SpatialLayout, b: BBox, k: nat, t: nat)
    requires StepFits(arr, layout, t, b, k)
    ensures 0 <= b.rMin && 0 <= b.rMax && 0 <= b.cMin && 0 <= b.cMax
  {
  }

  /** Accepted inputs: everything the reader checks before it reads. */
  ghost predicate Accepted(arr: ZarrArray, layout: SpatialLayout, opts: PolygonReadOptions) {
    && |arr.shape| > 0 && ValidInput(opts, arr.shape[0]) && RankFits(arr, layout)
    && (opts.resolvedSelection.Some? ==> SelectionFits(opts.resolvedSelection.value, arr, layout))
  }

  function CapOf(opts: PolygonReadOptions): Option<nat>
    requires opts.maxCells.Some? ==> opts.maxCells.value >= 1
  {
    if opts.maxCells.Some? then Some(opts.maxCells.value) else None
  }

  lemma ValidRing(opts: PolygonReadOptions, nTime: nat)
    requires ValidInput(opts, nTime)
    ensures opts.polygon != []
  {
    assert opts.polygon == [] ==> (set v | v in opts.polygon) == {};
  }

  /** The selection of the polygon by the rule and the cap that the options ask for. */
  ghost predicate SelectedFor(layout: SpatialLayout, opts: PolygonReadOptions, sel: PolygonSelection)
    requires ValidLayout(layout)
  {
    && (opts.maxCells.Some? ==> opts.maxCells.value >= 1)
    && Resolved(layout, opts.polygon, opts.cover, if opts.maxCells.Some? then Some(opts.maxCells.value) else None, sel)
    && Selects(layout, opts.polygon, opts.cover, opts.maxCells.Some?, sel)
  }

  /** Resolve the time-invariant selection, or reject the input. */
  method ResolvePolygonCells(arr: ZarrArray, layout: SpatialLayout, opts: PolygonReadOptions) returns (r: Result<PolygonSelection>)
    requires ValidLayout(layout) && |arr.shape| > 0
    ensures r.Ok? <==> ValidInput(opts, arr.shape[0]) && RankFits(arr, layout)
    ensures r.Ok? ==> SelectedFor(layout, opts, r.value)
  {
    hide ValidLayout, Resolved, RankFits, Selects;
    var valid := ValidatePolygonReadInput(opts, arr.shape[0]);
    if !valid {
      return SliceError;
    }
    var rank := AssertArrayRank(arr, layout);
    if rank.SliceError? {
      return SliceError;
    }
    ValidRing(opts, arr.shape[0]);
    var sel := ResolveSelection(layout, opts.polygon, opts.cover, CapOf(opts));
    return Ok(sel);
  }

  lemma BoxCellsInside(layout: SpatialLayout, ring: Ring, cover: bool, sel: PolygonSelection)
    requires ValidLayout(layout) && BoxInGrid(layout, sel.bbox) && sel.stride > 0
    requires sel.cells == BoxCells(layout, ring, cover, sel.bbox, sel.stride)
    ensures CellsIn(sel.bbox, sel.cells)
  {
    hide Keep, ValidLayout, GridCells;
    var b := sel.bbox;
    GridCellsOrdered(layout, ring, cover, b.rMin, b.rMax, b.cMin, b.cMax, sel.stride);
    forall n | 0 <= n < |sel.cells| ensures InBBox(b, sel.cells[n].i, sel.cells[n].j) {
      assert sel.cells[n] in sel.cells;
    }
  }

  lemma ResolvedFits(arr: ZarrArray, layout: SpatialLayout, ring: Ring, cover: bool, maxCells: Option<nat>, sel: PolygonSelection)
    requires ValidLayout(layout) && NDim(layout) <= |arr.shape| && LayoutFits(arr, layout)
    requires Resolved(layout, ring, cover, maxCells, sel)
    ensures SelectionFits(sel, arr, layout)
  {
    hide ValidLayout, BoxCells, WholeGridCells, WithinBudget;
    BoxCellsInside(layout, ring, cover, sel);
  }

  lemma NonEmptyBox(arr: ZarrArray, layout: SpatialLayout, sel: PolygonSelection, t: nat)
    requires ValidArray(arr) && RankFits(arr, layout) && t < arr.shape[0]
    requires SelectionFits(sel, arr, layout) && sel.cells != []
    ensures StepFits(arr, layout, t, sel.bbox, |arr.shape| - NDim(layout)) && CellsIn(sel.bbox, sel.cells)
  {
    assert InBBox(sel.bbox, sel.cells[0].i, sel.cells[0].j);
  }

  /** What one step of a read must yield. */
  ghost function StepAt(arr: ZarrArray, store: Store, layout: SpatialLayout, sel: PolygonSelection, t: nat): Timestep
    requires ValidArray(arr) && ValidStore(arr, store) && RankFits(arr, layout) && t < arr.shape[0]
    requires SelectionFits(sel, arr, layout) && sel.cells != []
  {
    NonEmptyBox(arr, layout, sel, t);
    Timestep(t, StepValues(arr, store, layout, sel.bbox, sel.cells, |arr.shape| - NDim(layout), t))
  }

  /** What a whole read must yield: one step per time index, nothing for an empty selection. */
  ghost function StepsOf(arr: ZarrArray, store: Store, layout: SpatialLayout, sel: PolygonSelection, tStart: nat, tEnd: nat): seq<Timestep>
    requires ValidArray(arr) && ValidStore(arr, store) && RankFits(arr, layout) && tStart <= tEnd <= arr.shape[0]
    requires SelectionFits(sel, arr, layout)
  {
    if sel.cells == [] then []
    else seq(tEnd - tStart, d requires 0 <= d < tEnd - tStart => StepAt(arr, store, layout, sel, tStart + d))
  }

  // --------------------------------------------------- what the steps should be

  /** The array index of a cell at a time: zero in every dimension between. */
  ghost predicate IsCellIndex(arr: ZarrArray, layout: SpatialLayout, t: nat, cell: PolygonCell, idx: Vec)
    requires |arr.shape| >= 3 || (layout.Points? && |arr.shape| >= 2)
  {
    var rank, spatial := |arr.shape|, if layout.Points? then 1 else 2;
    && |idx| == rank && idx[0] == t
    && (forall d :: 1 <= d < rank - spatial ==> idx[d] == 0)
    && idx[rank - spatial] == cell.i && (!layout.Points? ==> idx[rank - 1] == cell.j)
  }

  /** One value of a step is the array's element at the step's time and the cell. */
  ghost predicate IsCellValue(arr: ZarrArray, store: Store, layout: SpatialLayout, t: nat, cell: PolygonCell, e: Elem)
    requires |arr.shape| >= 3 || (layout.Points? && |arr.shape| >= 2)
  {
    exists idx: Vec :: IsCellIndex(arr, layout, t, cell, idx) && IsElement(arr, store, idx, e)
  }

  /** The steps are those from time `start` on, in ascending order, each with a value per cell, in cell order. */
  ghost predicate StepsHold(arr: ZarrArray, store: Store, layout: SpatialLayout, cells: seq<PolygonCell>, start: int, steps: seq<Timestep>)
    requires |arr.shape| >= 3 || (layout.Points? && |arr.shape| >= 2)
  {
    forall d :: 0 <= d < |steps| ==> StepHolds(arr, store, layout, cells, start + d, steps[d])
  }

  ghost predicate StepHolds(arr: ZarrArray, store: Store, layout: SpatialLayout, cells: seq<PolygonCell>, t: int, step: Timestep)
    requires |arr.shape| >= 3 || (layout.Points? && |arr.shape| >= 2)
  {
    && step.t == t && |step.values| == |cells|
    && forall n :: 0 <= n < |cells| ==> IsCellValue(arr, store, layout, step.t, cells[n], step.values[n])
  }

  lemma CellIndexIs(arr: ZarrArray, layout: SpatialLayout, t: nat, k: nat, cell: PolygonCell)
    requires |arr.shape| >= 3 || (layout.Points? && |arr.shape| >= 2)
    requires k == |arr.shape| - NDim(layout) && cell.i >= 0 && cell.j >= 0
    ensures IsCellIndex(arr, layout, t, cell, CellIndex(layout, t, k, cell.i, cell.j))
  {
  }

  lemma StepAtHolds(arr: ZarrArray, store: Store, layout: SpatialLayout, sel: PolygonSelection, t: nat)
    requires ValidArray(arr) && ValidStore(arr, store) && RankFits(arr, layout) && t < arr.shape[0]
    requires SelectionFits(sel, arr, layout) && sel.cells != []
    ensures StepHolds(arr, store, layout, sel.cells, t, StepAt(arr, store, layout, sel, t))
  {
    hide ValidStore, Logical, IsElement, CellIndex, IsCellIndex;
    NonEmptyBox(arr, layout, sel, t);
    var k := |arr.shape| - NDim(layout);
    var step := StepAt(arr, store, layout, sel, t);
    forall n | 0 <= n < |sel.cells| ensures IsCellValue(arr, store, layout, t, sel.cells[n], step.values[n]) {
      CellIndexIs(arr, layout, t, k, sel.cells[n]);
      LogicalIsElement(arr, store, CellIndex(layout, t, k, sel.cells[n].i, sel.cells[n].j));
    }
  }

  /** The reference steps are what they should be. */
  lemma ReferenceHolds(arr: ZarrArray, store: Store, layout: SpatialLayout, sel: PolygonSelection, tStart: nat, tEnd: nat)
    requires ValidArray(arr) && ValidStore(arr, store) && RankFits(arr, layout) && tStart <= tEnd <= arr.shape[0]
    requires SelectionFits(sel, arr, layout)
    ensures StepsHold(arr, store, layout, sel.cells, tStart, StepsOf(arr, store, layout, sel, tStart, tEnd))
  {
    hide ValidStore, StepAt, StepHolds, SelectionFits;
    var steps := StepsOf(arr, store, layout, sel, tStart, tEnd);
    forall d | 0 <= d < |steps| ensures StepHolds(arr, store, layout, sel.cells, tStart + d, steps[d]) {
      StepAtHolds(arr, store, layout, sel, tStart + d);
    }
  }

  /** What a read yields, whole or up to its error, is what it should be. */
  lemma ReadingHolds(arr: ZarrArray, store: Store, layout: SpatialLayout, sel: PolygonSelection, tStart: nat, tEnd: nat,
    loads: seq<State>, r: Reading)
    requires ValidArray(arr) && ValidStore(arr, store) && RankFits(arr, layout) && tStart <= tEnd <= arr.shape[0]
    requires SelectionFits(sel, arr, layout) && Reads(arr, store, layout, sel, tStart, tEnd, loads, r)
    ensures StepsHold(arr, store, layout, sel.cells, tStart, r.steps)
    ensures sel.cells == [] ==> r == Reading([], None)
    ensures sel.cells != [] && r.error.None? ==> |r.steps| == tEnd - tStart
    ensures sel.cells != [] && r.error.Some? ==> |r.steps| < tEnd - tStart
  {
    hide ValidStore, StepAt, IsCellValue, SelectionFits, StepsHold;
    ReferenceHolds(arr, store, layout, sel, tStart, tEnd);
    if sel.cells != [] && r.error.Some? {
      ReferenceHolds(arr, store, layout, sel, tStart, tStart + |loads| - 1);
    }
  }

  /** The cache a step starts with: the one given, then what the step before left. */
  ghost function CacheBefore(cache: map<string, Bytes>, loads: seq<State>, d: nat): map<string, Bytes>
    requires d <= |loads|
  {
    if d == 0 then cache else loads[d - 1].cache
  }

  /** The loads of the steps from `tStart` on, one after the other, through one cache. */
  ghost predicate LoadChain(arr: ZarrArray, store: Store, layout: SpatialLayout, sel: PolygonSelection, tStart: nat,
    o: LoadOptions, cache: map<string, Bytes>, loads: seq<State>)
    requires ValidArray(arr) && ValidStore(arr, store) && RankFits(arr, layout) && tStart + |loads| <= arr.shape[0]
    requires SelectionFits(sel, arr, layout) && sel.cells != []
  {
    forall d :: 0 <= d < |loads| ==> ChainLink(arr, store, layout, sel, tStart, o, cache, loads, d)
  }

  ghost predicate ChainLink(arr: ZarrArray, store: Store, layout: SpatialLayout, sel: PolygonSelection, tStart: nat,
    o: LoadOptions, cache: map<string, Bytes>, loads: seq<State>, d: nat)
    requires ValidArray(arr) && ValidStore(arr, store) && RankFits(arr, layout) && tStart + |loads| <= arr.shape[0]
    requires SelectionFits(sel, arr, layout) && sel.cells != [] && d < |loads|
  {
    NonEmptyBox(arr, layout, sel, tStart + d);
    && |loads[d].runs| == 1 && (d < |loads| - 1 ==> !loads[d].runs[0].failed)
    && StepLoaded(arr, store, layout, sel.bbox, |arr.shape| - NDim(layout), tStart + d, o, CacheBefore(cache, loads, d), loads[d])
  }

  /** What a read yields when its steps were loaded so: every step up to the first whose load failed. */
  ghost predicate Reads(arr: ZarrArray, store: Store, layout: SpatialLayout, sel: PolygonSelection, tStart: nat, tEnd: nat,
    loads: seq<State>, r: Reading)
    requires ValidArray(arr) && ValidStore(arr, store) && RankFits(arr, layout) && tStart <= tEnd <= arr.shape[0]
    requires SelectionFits(sel, arr, layout)
  {
    if sel.cells == [] then r == Reading([], None) && loads == []
    else if loads != [] && |loads[|loads| - 1].runs| == 1 && loads[|loads| - 1].runs[0].failed then
      && |loads| <= tEnd - tStart && r.error.Some? && r.error == loads[|loads| - 1].runs[0].firstError
      && r.steps == StepsOf(arr, store, layout, sel, tStart, tStart + |loads| - 1)
    else
      && |loads| == tEnd - tStart && r.error.None?
      && r.steps == StepsOf(arr, store, layout, sel, tStart, tEnd)
  }

  lemma ChainGrows(arr: ZarrArray, store: Store, layout: SpatialLayout, sel: PolygonSelection, tStart: nat,
    o: LoadOptions, cache: map<string, Bytes>, loads: seq<State>, s: State)
    requires ValidArray(arr) && ValidStore(arr, store) && RankFits(arr, layout) && tStart + |loads| < arr.shape[0]
    requires SelectionFits(sel, arr, layout) && sel.cells != []
    requires LoadChain(arr, store, layout, sel, tStart, o, cache, loads)
    requires loads != [] ==> |loads[|loads| - 1].runs| == 1 && !loads[|loads| - 1].runs[0].failed
    requires ChainLink(arr, store, layout, sel, tStart, o, cache, loads + [s], |loads|)
    ensures LoadChain(arr, store, layout, sel, tStart, o, cache, loads + [s])
  {
    hide ValidStore, StepLoaded, RankFits, SelectionFits, ValidArray;
    var longer := loads + [s];
    forall d | 0 <= d < |longer| ensures ChainLink(arr, store, layout, sel, tStart, o, cache, longer, d) {
      NonEmptyBox(arr, layout, sel, tStart + d);
      if d < |loads| {
        assert ChainLink(arr, store, layout, sel, tStart, o, cache, loads, d);
      }
    }
  }

  method ReadSteps(arr: ZarrArray, store: Store, layout: SpatialLayout, sel: PolygonSelection, k: nat,
    tStart: nat, tEnd: nat, o: LoadOptions, cache: map<string, Bytes>)
    returns (r: Reading, ghost loads: seq<State>)
    requires ValidArray(arr) && ValidStore(arr, store) && RankFits(arr, layout) && tStart <= tEnd <= arr.shape[0]
    requires SelectionFits(sel, arr, layout) && sel.cells != [] && k == |arr.shape| - NDim(layout)
    requires Coherent(arr, store, cache) && o.concurrency >= 1
    ensures |loads| <= tEnd - tStart && LoadChain(arr, store, layout, sel, tStart, o, cache, loads)
    ensures Reads(arr, store, layout, sel, tStart, tEnd, loads, r)
    ensures tStart + |r.steps| <= tEnd && r.steps == StepsOf(arr, store, layout, sel, tStart, tStart + |r.steps|)
    ensures r.error.None? ==> |r.steps| == tEnd - tStart
  {
    hide ValidStore, StepValues, RankFits, SelectionFits, StepLoaded, Coherent, LoadChain, ValidArray;
    var steps, shared := [], cache;
    loads := [];
    NoLoads(arr, store, layout, sel, tStart, o, cache);
    for t := tStart to tEnd
      invariant |loads| == t - tStart && shared == CacheBefore(cache, loads, |loads|) && Coherent(arr, store, shared)
      invariant LoadChain(arr, store, layout, sel, tStart, o, cache, loads)
      invariant loads != [] ==> |loads[|loads| - 1].runs| == 1 && !loads[|loads| - 1].runs[0].failed
      invariant steps == StepsOf(arr, store, layout, sel, tStart, t)
    {
      NonEmptyBox(arr, layout, sel, t);
      var step, s := ReadStep(arr, store, layout, sel.bbox, sel.cells, k, t, o, shared);
      ChainGrows(arr, store, layout, sel, tStart, o, cache, loads, s);
      loads := loads + [s];
      shared := s.cache;
      if step.SliceError? {
        return Reading(steps, s.runs[0].firstError), loads;
      }
      StepsGrow(arr, store, layout, sel, tStart, t);
      steps := steps + [step.value];
    }
    r := Reading(steps, None);
  }

  lemma NoLoads(arr: ZarrArray, store: Store, layout: SpatialLayout, sel: PolygonSelection, tStart: nat, o: LoadOptions, cache: map<string, Bytes>)
    requires ValidArray(arr) && ValidStore(arr, store) && RankFits(arr, layout) && tStart <= arr.shape[0]
    requires SelectionFits(sel, arr, layout) && sel.cells != []
    ensures LoadChain(arr, store, layout, sel, tStart, o, cache, [])
  {
  }

  lemma StepsGrow(arr: ZarrArray, store: Store, layout: SpatialLayout, sel: PolygonSelection, tStart: nat, t: nat)
    requires ValidArray(arr) && ValidStore(arr, store) && RankFits(arr, layout) && tStart <= t < arr.shape[0]
    requires SelectionFits(sel, arr, layout) && sel.cells != []
    ensures StepsOf(arr, store, layout, sel, tStart, t + 1)
         == StepsOf(arr, store, layout, sel, tStart, t) + [StepAt(arr, store, layout, sel, t)]
  {
    hide ValidStore, StepAt, SelectionFits, RankFits, ValidArray;
  }

  /**
   Read a polygon over a range of time steps, each step's block loaded in any interleaving through
   one shared cache. The selection is the supplied one or the resolved one; the steps are those of
   the given time range, or of the whole time axis, in ascending order, each with the array's value
   at that time, index 0 of every middle dimension and the cell, in cell order. A failed load ends
   the read early with its error.
   */
  method ReadPolygon(arr: ZarrArray, store: Store, layout: SpatialLayout, opts: PolygonReadOptions,
    o: LoadOptions, cache: map<string, Bytes>)
    returns (r: Result<Reading>, ghost sel: PolygonSelection, ghost loads: seq<State>)
    requires ValidArray(arr) && ValidStore(arr, store) && ValidLayout(layout)
    requires opts.resolvedSelection.None? ==> LayoutFits(arr, layout)
    requires Coherent(arr, store, cache) && o.concurrency >= 1
    ensures r.Ok? <==> Accepted(arr, layout, opts)
    ensures r.Ok? ==> SelectionFits(sel, arr, layout)
    ensures r.Ok? && opts.resolvedSelection.Some? ==> sel == opts.resolvedSelection.value
    ensures r.Ok? && opts.resolvedSelection.None? ==> SelectedFor(layout, opts, sel)
    ensures r.Ok? ==> StepsHold(arr, store, layout, sel.cells, if opts.timeRange.Some? then opts.timeRange.value.0 else 0, r.value.steps)
    ensures r.Ok? && sel.cells == [] ==> r.value == Reading([], None)
    ensures r.Ok? && sel.cells != [] && opts.timeRange.Some? ==>
              var n := opts.timeRange.value.1 - opts.timeRange.value.0;
              if r.value.error.None? then |r.value.steps| == n else |r.value.steps| < n
    ensures r.Ok? && sel.cells != [] && opts.timeRange.None? ==>
              if r.value.error.None? then |r.value.steps| == arr.shape[0] else |r.value.steps| < arr.shape[0]
    ensures r.Ok? && sel.cells != [] ==>
              var start := if opts.timeRange.Some? then opts.timeRange.value.0 else 0;
              start + |loads| <= arr.shape[0] && LoadChain(arr, store, layout, sel, start, o, cache, loads)
    ensures r.Ok? ==>
              Reads(arr, store, layout, sel, if opts.timeRange.Some? then opts.timeRange.value.0 else 0,
                if opts.timeRange.Some? then opts.timeRange.value.1 else arr.shape[0], loads, r.value)
  {
    hide ValidLayout, SelectedFor, ValidStore, LayoutFits, Coherent, LoadChain, StepsHold, SelectionFits, Resolved, Selects;
    loads := [];
    var nTime := arr.shape[0];
    sel := PolygonSelection([], BBox(0, 0, 0, 0), 1);
    var valid := ValidatePolygonReadInput(opts, nTime);
    if !valid {
      return SliceError, sel, loads;
    }
    var rank := AssertArrayRank(arr, layout);
    if rank.SliceError? {
      return SliceError, sel, loads;
    }
    var chosen: PolygonSelection;
    if opts.resolvedSelection.Some? {
      var fits := AssertSelectionInBounds(opts.resolvedSelection.value, layout, arr);
      if !fits {
        return SliceError, sel, loads;
      }
      chosen := opts.resolvedSelection.value;
    } else {
      ValidRing(opts, nTime);
      chosen := ResolveSelection(layout, opts.polygon, opts.cover, CapOf(opts));
      ResolvedFits(arr, layout, opts.polygon, opts.cover, CapOf(opts), chosen);
      SelectionIsFor(layout, opts, chosen);
    }
    sel := chosen;
    var range := if opts.timeRange.Some? then opts.timeRange.value else (0, nTime);
    if |chosen.cells| == 0 {
      ReadingHolds(arr, store, layout, sel, range.0, range.1, loads, Reading([], None));
      return Ok(Reading([], None)), sel, loads;
    }
    var reading;
    reading, loads := ReadSteps(arr, store, layout, chosen, rank.value, range.0, range.1, o, cache);
    ReadingHolds(arr, store, layout, sel, range.0, range.1, loads, reading);
    return Ok(reading), sel, loads;
  }

  lemma SelectionIsFor(layout: SpatialLayout, opts: PolygonReadOptions, sel: PolygonSelection)
    requires ValidLayout(layout) && (opts.maxCells.Some? ==> opts.maxCells.value >= 1)
    requires Resolved(layout, opts.polygon, opts.cover, CapOf(opts), sel)
    requires Selects(layout, opts.polygon, opts.cover, opts.maxCells.Some?, sel)
    ensures SelectedFor(layout, opts, sel)
  {
    hide Resolved, Selects, ValidLayout;
  }

  /**
   Caching, eviction and interleaving change no value: two reads of one selection, over whatever
   caches and loads, agree on every step that both yield, and entirely if neither fails.
   */
  lemma ReadsAgree(arr: ZarrArray, store: Store, layout: SpatialLayout, sel: PolygonSelection, tStart: nat, tEnd: nat,
    loads: seq<State>, r: Reading, otherLoads: seq<State>, other: Reading)
    requires ValidArray(arr) && ValidStore(arr, store) && RankFits(arr, layout) && tStart <= tEnd <= arr.shape[0]
    requires SelectionFits(sel, arr, layout)
    requires Reads(arr, store, layout, sel, tStart, tEnd, loads, r) && Reads(arr, store, layout, sel, tStart, tEnd, otherLoads, other)
    ensures forall d :: 0 <= d < |r.steps| && d < |other.steps| ==> r.steps[d] == other.steps[d]
    ensures r.error.None? && other.error.None? ==> r == other
  {
    hide ValidStore, StepAt, SelectionFits, RankFits, ValidArray;
  }
}
