/**
 Reading a selection: task building, the in-place copies, and reassembly of the chunks in
 whatever order they are delivered (src/array.ts).
 */
module ArrayRead {
  import opened Vectors
  import opened ChunkIndexing
  import opened BlockCopy
  import opened ArrayModel
  import opened ArrayMeaning
  import opened ChunkOverlap

  // -------------------------------------------------------------------- tasks

  datatype ChunkTask = ChunkTask(key: string, chunkCoord: Vec, byteRange: Option<ByteRange>)

  datatype LoadedChunk = LoadedChunk(chunkCoord: Vec, data: Bytes, partial: bool)

  predicate CanByteRange(arr: ZarrArray) {
    arr.codec.NoCodec? && arr.order.OrderC? && arr.hasGetRange
  }

  ghost function SliceChunkRanges(arr: ZarrArray, ranges: seq<DimRange>): (r: seq<Vec>)
    requires ValidArray(arr) && ValidRanges(arr, ranges)
    ensures |r| == |ranges| && Positive(Lens(r))
  {
    var r := seq(|ranges|, d requires 0 <= d < |ranges| => SliceChunkRange(ranges[d], arr.chunks[d]));
    assert Positive(Lens(r)) by {
      forall d | 0 <= d < |r| ensures |r[d]| > 0 {
        DivMonotone(ranges[d].start, ranges[d].stop - 1, arr.chunks[d]);
      }
    }
    r
  }

  ghost function TaskFor(arr: ZarrArray, ranges: seq<DimRange>, coord: Vec, sliced: bool): ChunkTask
    requires ValidArray(arr) && ValidRanges(arr, ranges) && |coord| == |arr.chunks|
  {
    ChunkTask(KeyOf(arr, coord), coord, if sliced && CanByteRange(arr) then ByteRangeOf(arr, coord, ranges) else None)
  }

  /** One task per chunk the selection meets, in row-major chunk order. */
  ghost function TasksFor(arr: ZarrArray, ranges: seq<DimRange>, sliced: bool): (tasks: seq<ChunkTask>)
    requires ValidArray(arr) && ValidRanges(arr, ranges)
  {
    var coords := CoordsOf(SliceChunkRanges(arr, ranges));
    seq(|coords|, i requires 0 <= i < |coords| => TaskFor(arr, ranges, coords[i], sliced))
  }

  lemma CoordTouches(arr: ZarrArray, ranges: seq<DimRange>, i: nat)
    requires ValidArray(arr) && ValidRanges(arr, ranges)
    requires i < |CoordsOf(SliceChunkRanges(arr, ranges))|
    ensures Touches(arr, ranges, CoordsOf(SliceChunkRanges(arr, ranges))[i])
  {
    var rs := SliceChunkRanges(arr, ranges);
    var indices := Unravel(i, Lens(rs));
    forall d | 0 <= d < |rs|
      ensures ranges[d].start / arr.chunks[d] <= rs[d][indices[d]] <= (ranges[d].stop - 1) / arr.chunks[d]
    {
      assert indices[d] < Lens(rs)[d] == |rs[d]|;
    }
  }

  lemma ChunkRangeHolds(r: DimRange, g: nat, chunk: nat)
    requires chunk > 0 && r.start <= g < r.stop
    ensures r.start / chunk <= g / chunk
    ensures g / chunk - r.start / chunk < |SliceChunkRange(r, chunk)|
    ensures SliceChunkRange(r, chunk)[g / chunk - r.start / chunk] == g / chunk
  {
    DivMonotone(r.start, g, chunk);
    DivMonotone(g, r.stop - 1, chunk);
  }

  ghost function ChunkPositions(arr: ZarrArray, ranges: seq<DimRange>, coord: Vec): (indices: Vec)
    requires ValidArray(arr) && ValidRanges(arr, ranges) && |coord| == |ranges|
    ensures |indices| == |ranges|
  {
    seq(|ranges|, d requires 0 <= d < |ranges| =>
      if ranges[d].start / arr.chunks[d] <= coord[d] then coord[d] - ranges[d].start / arr.chunks[d] else 0)
  }

  /** The chunk of every selected cell has a task. */
  lemma CellHasTask(arr: ZarrArray, ranges: seq<DimRange>, o: Vec, sliced: bool) returns (i: nat)
    requires ValidArray(arr) && ValidRanges(arr, ranges) && InBounds(o, OutShape(ranges))
    ensures i < |TasksFor(arr, ranges, sliced)|
    ensures TasksFor(arr, ranges, sliced)[i] == TaskFor(arr, ranges, ChunkOf(arr, Global(ranges, o)), sliced)
  {
    var rs := SliceChunkRanges(arr, ranges);
    var coord := ChunkOf(arr, Global(ranges, o));
    var indices := ChunkPositions(arr, ranges, coord);
    forall d | 0 <= d < |rs|
      ensures indices[d] < Lens(rs)[d] && rs[d][indices[d]] == coord[d]
    {
      ChunkRangeHolds(ranges[d], Global(ranges, o)[d], arr.chunks[d]);
    }
    i := TaskAtPosition(arr, ranges, indices, coord, sliced);
  }

  lemma TaskAtPosition(arr: ZarrArray, ranges: seq<DimRange>, indices: Vec, coord: Vec, sliced: bool) returns (i: nat)
    requires ValidArray(arr) && ValidRanges(arr, ranges) && |coord| == |arr.chunks|
    requires InBounds(indices, Lens(SliceChunkRanges(arr, ranges)))
    requires forall d :: 0 <= d < |coord| ==> SliceChunkRanges(arr, ranges)[d][indices[d]] == coord[d]
    ensures i < |TasksFor(arr, ranges, sliced)|
    ensures TasksFor(arr, ranges, sliced)[i] == TaskFor(arr, ranges, coord, sliced)
  {
    var rs := SliceChunkRanges(arr, ranges);
    UnravelRavel(indices, Lens(rs));
    i := Ravel(indices, Lens(rs));
    assert Pick(rs, indices) == coord;
    assert CoordsOf(rs)[i] == coord;
  }

  lemma ChunkMeets(r: DimRange, c: nat, chunk: nat)
    requires chunk > 0 && r.start < r.stop
    ensures r.start / chunk <= c <= (r.stop - 1) / chunk <==> c * chunk < r.stop && r.start < c * chunk + chunk
  {
    var p, q := r.start / chunk, (r.stop - 1) / chunk;
    assert r.start == p * chunk + r.start % chunk && r.stop - 1 == q * chunk + (r.stop - 1) % chunk;
    if c < p {
      SlabInside(c, p, chunk);
    } else {
      MulMonotone(p, c, chunk);
    }
    if q < c {
      SlabInside(q, c, chunk);
    } else {
      MulMonotone(c, q, chunk);
    }
  }

  /** The chunk has an index of the selection in every dimension. */
  ghost predicate Meets(arr: ZarrArray, ranges: seq<DimRange>, coord: Vec) {
    && |coord| == |arr.chunks| == |ranges|
    && forall d :: 0 <= d < |coord| ==>
        coord[d] * arr.chunks[d] < ranges[d].stop && ranges[d].start < coord[d] * arr.chunks[d] + arr.chunks[d]
  }

  lemma TouchingIsMeeting(arr: ZarrArray, ranges: seq<DimRange>, coord: Vec)
    requires ValidArray(arr) && ValidRanges(arr, ranges)
    ensures Touches(arr, ranges, coord) <==> Meets(arr, ranges, coord)
  {
    if |coord| == |arr.chunks| {
      forall d | 0 <= d < |coord|
        ensures ranges[d].start / arr.chunks[d] <= coord[d] <= (ranges[d].stop - 1) / arr.chunks[d] <==>
                  coord[d] * arr.chunks[d] < ranges[d].stop && ranges[d].start < coord[d] * arr.chunks[d] + arr.chunks[d]
      {
        ChunkMeets(ranges[d], coord[d], arr.chunks[d]);
      }
    }
  }

  lemma TouchedHasTask(arr: ZarrArray, ranges: seq<DimRange>, coord: Vec, sliced: bool) returns (i: nat)
    requires ValidArray(arr) && ValidRanges(arr, ranges) && Touches(arr, ranges, coord)
    ensures i < |TasksFor(arr, ranges, sliced)| && TasksFor(arr, ranges, sliced)[i] == TaskFor(arr, ranges, coord, sliced)
  {
    var rs := SliceChunkRanges(arr, ranges);
    var indices := ChunkPositions(arr, ranges, coord);
    forall d | 0 <= d < |rs|
      ensures indices[d] < Lens(rs)[d] && rs[d][indices[d]] == coord[d]
    {
    }
    i := TaskAtPosition(arr, ranges, indices, coord, sliced);
  }

  /** A range is asked for where nothing is compressed, order is C, the store reads ranges and only the first dimension cuts the chunk. */
  ghost predicate MayUseRange(arr: ZarrArray, ranges: seq<DimRange>, coord: Vec)
    requires |coord| == |arr.chunks| == |ranges|
  {
    && arr.codec == NoCodec && arr.order == OrderC && arr.hasGetRange
    && forall d :: 1 <= d < |coord| ==>
        ranges[d].start <= coord[d] * arr.chunks[d] && coord[d] * arr.chunks[d] + arr.chunks[d] <= ranges[d].stop
  }

  lemma SpansChunk(start: nat, stop: nat, c: nat, chunk: nat, extent: nat)
    requires chunk > 0 && start < stop <= extent && Max(start, c * chunk) < Min(stop, Min((c + 1) * chunk, extent))
    ensures Min(stop, Min((c + 1) * chunk, extent)) - Max(start, c * chunk) == chunk <==> start <= c * chunk && c * chunk + chunk <= stop
  {
    assert (c + 1) * chunk == c * chunk + chunk;
  }

  lemma RangeIsOffered(arr: ZarrArray, ranges: seq<DimRange>, coord: Vec)
    requires ValidArray(arr) && ValidRanges(arr, ranges) && Touches(arr, ranges, coord)
    ensures CanByteRange(arr) && Contiguous(arr, coord, ranges) <==> MayUseRange(arr, ranges, coord)
  {
    forall d | 0 <= d < |coord|
      ensures OverlapShape(arr, coord, ranges)[d] == arr.chunks[d] <==>
                ranges[d].start <= coord[d] * arr.chunks[d] && coord[d] * arr.chunks[d] + arr.chunks[d] <= ranges[d].stop
    {
      OverlapBounds(arr, ranges, coord, d);
      SpansChunk(ranges[d].start, ranges[d].stop, coord[d], arr.chunks[d], arr.shape[d]);
    }
  }

  /** A task is for one chunk, under its key, and has a byte range exactly where one may be used. */
  ghost predicate AsksFor(arr: ZarrArray, ranges: seq<DimRange>, sliced: bool, task: ChunkTask) {
    && Meets(arr, ranges, task.chunkCoord) && task.key == StoreKey(arr, task.chunkCoord)
    && (task.byteRange.Some? <==> sliced && MayUseRange(arr, ranges, task.chunkCoord))
  }

  /** The tasks of a read are for exactly the chunks that the selection meets, each once. */
  lemma TasksAreChunksMet(arr: ZarrArray, ranges: seq<DimRange>, sliced: bool)
    requires ValidArray(arr) && ValidRanges(arr, ranges)
    ensures forall i :: 0 <= i < |TasksFor(arr, ranges, sliced)| ==> AsksFor(arr, ranges, sliced, TasksFor(arr, ranges, sliced)[i])
    ensures forall coord: Vec :: Meets(arr, ranges, coord) ==> TaskOfChunk(arr, ranges, sliced, coord)
    ensures forall i, j :: 0 <= i < j < |TasksFor(arr, ranges, sliced)| ==>
              TasksFor(arr, ranges, sliced)[i].chunkCoord != TasksFor(arr, ranges, sliced)[j].chunkCoord
  {
    hide CoordsOf, SliceChunkRanges, Touches, Contiguous, CanByteRange, KeyOf, StoreKey, Meets, MayUseRange;
    var tasks := TasksFor(arr, ranges, sliced);
    forall i | 0 <= i < |tasks| ensures AsksFor(arr, ranges, sliced, tasks[i]) {
      CoordTouches(arr, ranges, i);
      var coord := CoordsOf(SliceChunkRanges(arr, ranges))[i];
      TouchingIsMeeting(arr, ranges, coord);
      RangeIsOffered(arr, ranges, coord);
      KeysAgree(arr, coord);
    }
    forall coord: Vec | Meets(arr, ranges, coord) ensures TaskOfChunk(arr, ranges, sliced, coord) {
      TouchingIsMeeting(arr, ranges, coord);
      var i := TouchedHasTask(arr, ranges, coord, sliced);
      assert tasks[i].chunkCoord == coord;
    }
    forall i, j | 0 <= i < j < |tasks| ensures tasks[i].chunkCoord != tasks[j].chunkCoord {
      CoordsApart(arr, ranges, i, j);
    }
  }

  ghost predicate TaskOfChunk(arr: ZarrArray, ranges: seq<DimRange>, sliced: bool, coord: Vec)
    requires ValidArray(arr) && ValidRanges(arr, ranges)
  {
    exists i :: 0 <= i < |TasksFor(arr, ranges, sliced)| && TasksFor(arr, ranges, sliced)[i].chunkCoord == coord
  }

  lemma CoordsApart(arr: ZarrArray, ranges: seq<DimRange>, i: nat, j: nat)
    requires ValidArray(arr) && ValidRanges(arr, ranges) && i < j < |CoordsOf(SliceChunkRanges(arr, ranges))|
    ensures CoordsOf(SliceChunkRanges(arr, ranges))[i] != CoordsOf(SliceChunkRanges(arr, ranges))[j]
  {
    hide CoordsOf;
    var rs := SliceChunkRanges(arr, ranges);
    RavelUnravel(i, Lens(rs));
    RavelUnravel(j, Lens(rs));
    CoordsEnumerateProduct(rs, Unravel(i, Lens(rs)), i);
    CoordsEnumerateProduct(rs, Unravel(i, Lens(rs)), j);
  }

  // ---------------------------------------------------------------- the copies

  ghost predicate SliceCopyEnv(axes: seq<Axis>, chunkStart: Vec, overlapStart: Vec, overlapEnd: Vec,
    ranges: seq<DimRange>, chunkStrides: Vec, outputStrides: Vec)
  {
    && ValidAxes(axes)
    && |axes| == |chunkStart| == |overlapStart| == |overlapEnd| == |ranges| == |chunkStrides| == |outputStrides|
    && (forall d :: 0 <= d < |axes| ==>
        && chunkStart[d] <= overlapStart[d] && ranges[d].start <= overlapStart[d] < overlapEnd[d]
        && axes[d].src == overlapStart[d] - chunkStart[d]
        && axes[d].lo == overlapStart[d] - ranges[d].start
        && axes[d].hi == overlapEnd[d] - ranges[d].start
        && axes[d].stride == chunkStrides[d])
    && outputStrides == CStridesOf(Extents(axes))
  }

  lemma OutputStride(axes: seq<Axis>, dim: nat)
    requires dim < |axes|
    ensures CStridesOf(Extents(axes))[dim] == Block(axes[dim..][1..])
    ensures axes[dim..][1..] == axes[dim + 1..]
  {
    CStridesAt(Extents(axes), dim);
    BlockIsProd(axes[dim + 1..]);
    assert Extents(axes[dim + 1..]) == Extents(axes)[dim + 1..];
  }

  /** The slab at position `q` of dimension `dim` starts at these offsets and stays in both buffers. */
  ghost predicate SlabAt(axes: seq<Axis>, dim: nat, q: nat, base: nat, at: nat, baseNext: nat, atNext: nat) {
    && ValidAxes(axes) && dim < |axes| && axes[dim].lo <= q < axes[dim].hi
    && baseNext == base + SrcCoord(axes[dim], q) * axes[dim].stride
    && atNext == at + q * CStridesOf(Extents(axes))[dim]
  }

  lemma SlabStaysInside(axes: seq<Axis>, dim: nat, q: nat, base: nat, at: nat, baseNext: nat, atNext: nat)
    requires SlabAt(axes, dim, q, base, at, baseNext, atNext)
    ensures baseNext + Top(axes[dim + 1..]) <= base + Top(axes[dim..])
    ensures atNext + Block(axes[dim + 1..]) <= at + Block(axes[dim..])
  {
    var a := axes[dim];
    OutputStride(axes, dim);
    SlabInside(q, a.n, Block(axes[dim + 1..]));
    MulMonotone(SrcCoord(a, q), SrcCoord(a, a.hi - 1), a.stride);
  }

  lemma NothingLeft(axes: seq<Axis>)
    requires ValidAxes(axes)
    ensures axes[|axes|..] == [] && Top(axes[|axes|..]) == 0 && Block(axes[|axes|..]) == 1
  {
  }

  lemma SlabCopied(axes: seq<Axis>, dim: nat, q: nat, base: nat, at: nat, baseNext: nat, atNext: nat,
    before: seq<Elem>, mid: seq<Elem>, after: seq<Elem>, data: seq<Elem>)
    requires SlabAt(axes, dim, q, base, at, baseNext, atNext)
    requires Block(axes[dim..][1..]) > 0
    requires Copied(axes[dim..], before, mid, data, base, at, q)
    requires Done(axes[dim + 1..], mid, after, data, baseNext, atNext)
    ensures Copied(axes[dim..], before, after, data, base, at, q + 1)
  {
    OutputStride(axes, dim);
    CopiedStep(axes[dim..], before, mid, after, data, base, at, q);
  }

  method CopySliceRecursive(dim: nat, chunkLinear: nat, outputLinear: nat, chunkData: seq<Elem>, output: array<Elem>,
    chunkStart: Vec, overlapStart: Vec, overlapEnd: Vec, ranges: seq<DimRange>, chunkStrides: Vec, outputStrides: Vec,
    ghost axes: seq<Axis>)
    requires SliceCopyEnv(axes, chunkStart, overlapStart, overlapEnd, ranges, chunkStrides, outputStrides)
    requires dim <= |axes|
    requires chunkLinear + Top(axes[dim..]) < |chunkData|
    requires outputLinear + Block(axes[dim..]) <= output.Length
    modifies output
    ensures Done(axes[dim..], old(output[..]), output[..], chunkData, chunkLinear, outputLinear)
    decreases |axes| - dim
  {
    hide Copied, Done, Top, Block, Extents, CStridesOf;
    ghost var before := output[..];
    if dim == |ranges| {
      NothingLeft(axes);
      CopyOne(before, chunkData, chunkLinear, outputLinear);
      output[outputLinear] := chunkData[chunkLinear];
      assert output[..] == before[outputLinear := chunkData[chunkLinear]];
      return;
    }
    ghost var rest := axes[dim..];
    OutputStride(axes, dim);
    BlockPositive(rest[1..]);
    CopiedNone(rest, before, chunkData, chunkLinear, outputLinear);
    var i := overlapStart[dim];
    while i < overlapEnd[dim]
      invariant overlapStart[dim] <= i <= overlapEnd[dim]
      invariant Copied(rest, before, output[..], chunkData, chunkLinear, outputLinear, i - ranges[dim].start)
    {
      var chunkIdx := i - chunkStart[dim];
      var outputIdx := i - ranges[dim].start;
      var chunkNext := chunkLinear + chunkIdx * chunkStrides[dim];
      var outputNext := outputLinear + outputIdx * outputStrides[dim];
      ghost var mid := output[..];
      SlabStaysInside(axes, dim, outputIdx, chunkLinear, outputLinear, chunkNext, outputNext);
      CopySliceRecursive(dim + 1, chunkNext, outputNext, chunkData, output,
        chunkStart, overlapStart, overlapEnd, ranges, chunkStrides, outputStrides, axes);
      SlabCopied(axes, dim, outputIdx, chunkLinear, outputLinear, chunkNext, outputNext, before, mid, output[..], chunkData);
      i := i + 1;
    }
    CopiedAll(rest, before, output[..], chunkData, chunkLinear, outputLinear);
  }

  method CopySliceChunkToOutput(arr: ZarrArray, chunkData: seq<Elem>, output: array<Elem>, chunkCoord: Vec,
    ranges: seq<DimRange>, chunkStrides: Vec, outputStrides: Vec)
    requires ValidArray(arr) && ValidRanges(arr, ranges) && Touches(arr, ranges, chunkCoord)
    requires chunkStrides == ChunkStrides(arr) && outputStrides == CStridesOf(OutShape(ranges))
    requires |chunkData| == Prod(arr.chunks) && output.Length == Prod(OutShape(ranges))
    modifies output
    ensures Done(SliceAxes(arr, ranges, chunkCoord, chunkStrides), old(output[..]), output[..], chunkData, 0, 0)
  {
    var chunkStart := ChunkStart(arr, chunkCoord);
    var overlapStart := OverlapStart(arr, chunkCoord, ranges);
    var overlapEnd := OverlapEnd(arr, chunkCoord, ranges);
    ghost var axes := SliceAxes(arr, ranges, chunkCoord, chunkStrides);
    forall d | 0 <= d < |chunkCoord|
      ensures chunkStart[d] <= overlapStart[d] && ranges[d].start <= overlapStart[d] < overlapEnd[d] <= ranges[d].stop
    {
      OverlapBounds(arr, ranges, chunkCoord, d);
    }
    TopOfSlice(arr, ranges, chunkCoord);
    BlockIsProd(axes);
    assert axes[0..] == axes;
    CopySliceRecursive(0, 0, 0, chunkData, output, chunkStart, overlapStart, overlapEnd, ranges, chunkStrides, outputStrides, axes);
  }

  ghost predicate PartialCopyEnv(axes: seq<Axis>, overlapStart: Vec, overlapShape: Vec, ranges: seq<DimRange>,
    partialStrides: Vec, outputStrides: Vec)
  {
    && ValidAxes(axes)
    && |axes| == |overlapStart| == |overlapShape| == |ranges| == |partialStrides| == |outputStrides|
    && (forall d :: 0 <= d < |axes| ==>
        && ranges[d].start <= overlapStart[d]
        && axes[d].src == 0
        && axes[d].lo == overlapStart[d] - ranges[d].start
        && axes[d].hi == axes[d].lo + overlapShape[d]
        && axes[d].stride == partialStrides[d])
    && outputStrides == CStridesOf(Extents(axes))
  }

  method CopyPartialRecursive(dim: nat, partialLinear: nat, outputLinear: nat, partialData: seq<Elem>, output: array<Elem>,
    overlapStart: Vec, overlapShape: Vec, ranges: seq<DimRange>, partialStrides: Vec, outputStrides: Vec,
    ghost axes: seq<Axis>)
    requires PartialCopyEnv(axes, overlapStart, overlapShape, ranges, partialStrides, outputStrides)
    requires dim <= |axes|
    requires partialLinear + Top(axes[dim..]) < |partialData|
    requires outputLinear + Block(axes[dim..]) <= output.Length
    modifies output
    ensures Done(axes[dim..], old(output[..]), output[..], partialData, partialLinear, outputLinear)
    decreases |axes| - dim
  {
    hide Copied, Done, Top, Block, Extents, CStridesOf;
    ghost var before := output[..];
    if dim == |ranges| {
      NothingLeft(axes);
      CopyOne(before, partialData, partialLinear, outputLinear);
      output[outputLinear] := partialData[partialLinear];
      assert output[..] == before[outputLinear := partialData[partialLinear]];
      return;
    }
    ghost var rest := axes[dim..];
    OutputStride(axes, dim);
    BlockPositive(rest[1..]);
    CopiedNone(rest, before, partialData, partialLinear, outputLinear);
    var i := 0;
    while i < overlapShape[dim]
      invariant 0 <= i <= overlapShape[dim]
      invariant Copied(rest, before, output[..], partialData, partialLinear, outputLinear, axes[dim].lo + i)
    {
      var outputIdx := overlapStart[dim] - ranges[dim].start + i;
      var partialNext := partialLinear + i * partialStrides[dim];
      var outputNext := outputLinear + outputIdx * outputStrides[dim];
      ghost var mid := output[..];
      SlabStaysInside(axes, dim, outputIdx, partialLinear, outputLinear, partialNext, outputNext);
      CopyPartialRecursive(dim + 1, partialNext, outputNext, partialData, output,
        overlapStart, overlapShape, ranges, partialStrides, outputStrides, axes);
      SlabCopied(axes, dim, outputIdx, partialLinear, outputLinear, partialNext, outputNext, before, mid, output[..], partialData);
      i := i + 1;
    }
    CopiedAll(rest, before, output[..], partialData, partialLinear, outputLinear);
  }

  method CopyPartialToOutput(arr: ZarrArray, partialData: seq<Elem>, output: array<Elem>, chunkCoord: Vec,
    ranges: seq<DimRange>, outputStrides: Vec)
    requires ValidArray(arr) && ValidRanges(arr, ranges) && Touches(arr, ranges, chunkCoord)
    requires outputStrides == CStridesOf(OutShape(ranges))
    requires |partialData| == NumElements(arr, chunkCoord, ranges) && output.Length == Prod(OutShape(ranges))
    modifies output
    ensures Done(PartialAxes(arr, ranges, chunkCoord), old(output[..]), output[..], partialData, 0, 0)
  {
    var overlapStart := OverlapStart(arr, chunkCoord, ranges);
    var overlapShape := OverlapShape(arr, chunkCoord, ranges);
    var partialStrides := CStrides(overlapShape);
    ghost var axes := PartialAxes(arr, ranges, chunkCoord);
    forall d | 0 <= d < |chunkCoord|
      ensures ranges[d].start <= overlapStart[d] && axes[d].hi == axes[d].lo + overlapShape[d]
    {
      OverlapBounds(arr, ranges, chunkCoord, d);
    }
    TopOfPartial(arr, ranges, chunkCoord);
    BlockIsProd(axes);
    assert axes[0..] == axes;
    CopyPartialRecursive(0, 0, 0, partialData, output, overlapStart, overlapShape, ranges, partialStrides, outputStrides, axes);
  }

  ghost predicate ChunkCopyEnv(axes: seq<Axis>, globalOffset: Vec, actualChunkShape: Vec, chunkStrides: Vec, outputStrides: Vec) {
    && ValidAxes(axes)
    && |axes| == |globalOffset| == |actualChunkShape| == |chunkStrides| == |outputStrides|
    && (forall d :: 0 <= d < |axes| ==>
        && axes[d].src == 0
        && axes[d].lo == globalOffset[d]
        && axes[d].hi == globalOffset[d] + actualChunkShape[d]
        && axes[d].stride == chunkStrides[d])
    && outputStrides == CStridesOf(Extents(axes))
  }

  method CopyChunkRecursive(dim: nat, chunkLinear: nat, outputLinear: nat, chunkData: seq<Elem>, output: array<Elem>,
    globalOffset: Vec, actualChunkShape: Vec, chunkStrides: Vec, outputStrides: Vec, ghost axes: seq<Axis>)
    requires ChunkCopyEnv(axes, globalOffset, actualChunkShape, chunkStrides, outputStrides)
    requires dim <= |axes|
    requires chunkLinear + Top(axes[dim..]) < |chunkData|
    requires outputLinear + Block(axes[dim..]) <= output.Length
    modifies output
    ensures Done(axes[dim..], old(output[..]), output[..], chunkData, chunkLinear, outputLinear)
    decreases |axes| - dim
  {
    hide Copied, Done, Top, Block, Extents, CStridesOf;
    ghost var before := output[..];
    if dim == |globalOffset| {
      NothingLeft(axes);
      CopyOne(before, chunkData, chunkLinear, outputLinear);
      output[outputLinear] := chunkData[chunkLinear];
      assert output[..] == before[outputLinear := chunkData[chunkLinear]];
      return;
    }
    ghost var rest := axes[dim..];
    OutputStride(axes, dim);
    BlockPositive(rest[1..]);
    CopiedNone(rest, before, chunkData, chunkLinear, outputLinear);
    var i := 0;
    while i < actualChunkShape[dim]
      invariant 0 <= i <= actualChunkShape[dim]
      invariant Copied(rest, before, output[..], chunkData, chunkLinear, outputLinear, globalOffset[dim] + i)
    {
      var chunkNext := chunkLinear + i * chunkStrides[dim];
      var outputNext := outputLinear + (globalOffset[dim] + i) * outputStrides[dim];
      ghost var mid, q := output[..], globalOffset[dim] + i;
      SlabStaysInside(axes, dim, q, chunkLinear, outputLinear, chunkNext, outputNext);
      CopyChunkRecursive(dim + 1, chunkNext, outputNext, chunkData, output,
        globalOffset, actualChunkShape, chunkStrides, outputStrides, axes);
      SlabCopied(axes, dim, q, chunkLinear, outputLinear, chunkNext, outputNext, before, mid, output[..], chunkData);
      i := i + 1;
    }
    CopiedAll(rest, before, output[..], chunkData, chunkLinear, outputLinear);
  }

  /** The whole array as a selection. */
  function FullRanges(shape: Vec): (ranges: seq<DimRange>)
    ensures |ranges| == |shape|
  {
    seq(|shape|, d requires 0 <= d < |shape| => DimRange(0, shape[d]))
  }

  /** Chunk extent clipped at the array edge. */
  function ActualChunkShape(arr: ZarrArray, coord: Vec): (s: Vec)
    requires |coord| == |arr.chunks| == |arr.shape|
    ensures |s| == |coord|
  {
    seq(|coord|, d requires 0 <= d < |coord| =>
      var start := coord[d] * arr.chunks[d];
      if start <= arr.shape[d] then Min(arr.chunks[d], arr.shape[d] - start) else 0)
  }

  lemma FullOverlap(arr: ZarrArray, coord: Vec, d: nat)
    requires ValidArray(arr) && Touches(arr, FullRanges(arr.shape), coord) && d < |coord|
    ensures OverlapStart(arr, coord, FullRanges(arr.shape))[d] == ChunkStart(arr, coord)[d]
    ensures OverlapEnd(arr, coord, FullRanges(arr.shape))[d] == ChunkStart(arr, coord)[d] + ActualChunkShape(arr, coord)[d]
  {
    OverlapBounds(arr, FullRanges(arr.shape), coord, d);
    assert (coord[d] + 1) * arr.chunks[d] == coord[d] * arr.chunks[d] + arr.chunks[d];
  }

  method CopyChunkToOutput(arr: ZarrArray, chunkData: seq<Elem>, output: array<Elem>, chunkCoord: Vec,
    actualChunkShape: Vec, chunkStrides: Vec, outputStrides: Vec)
    requires ValidArray(arr) && Touches(arr, FullRanges(arr.shape), chunkCoord)
    requires actualChunkShape == ActualChunkShape(arr, chunkCoord)
    requires chunkStrides == ChunkStrides(arr) && outputStrides == CStridesOf(arr.shape)
    requires |chunkData| == Prod(arr.chunks) && output.Length == Prod(arr.shape)
    modifies output
    ensures Done(SliceAxes(arr, FullRanges(arr.shape), chunkCoord, chunkStrides), old(output[..]), output[..], chunkData, 0, 0)
  {
    var globalOffset := ChunkStart(arr, chunkCoord);
    ghost var ranges := FullRanges(arr.shape);
    ghost var axes := SliceAxes(arr, ranges, chunkCoord, chunkStrides);
    assert OutShape(ranges) == arr.shape;
    forall d | 0 <= d < |chunkCoord|
      ensures axes[d].src == 0 && axes[d].lo == globalOffset[d]
      ensures axes[d].hi == globalOffset[d] + actualChunkShape[d]
    {
      FullOverlap(arr, chunkCoord, d);
    }
    TopOfSlice(arr, ranges, chunkCoord);
    BlockIsProd(axes);
    assert axes[0..] == axes;
    CopyChunkRecursive(0, 0, 0, chunkData, output, globalOffset, actualChunkShape, chunkStrides, outputStrides, axes);
  }

  // ------------------------------------------------------------- the deliveries

  /** A delivery is what the store holds for one of the requested chunks: its decoded chunk, or the bytes of its range. */
  ghost predicate Genuine(arr: ZarrArray, store: Store, tasks: seq<ChunkTask>, chunk: LoadedChunk) {
    exists i :: 0 <= i < |tasks| && GenuineFor(arr, store, tasks[i], chunk)
  }

  ghost predicate GenuineFor(arr: ZarrArray, store: Store, task: ChunkTask, chunk: LoadedChunk) {
    && chunk.chunkCoord == task.chunkCoord
    && task.key in store
    && if chunk.partial then
         && task.byteRange.Some?
         && var br := task.byteRange.value;
            br.offset + br.length <= |store[task.key]| && chunk.data == store[task.key][br.offset..br.offset + br.length]
       else chunk.data == DecodeRaw(arr.codec, store[task.key])
  }

  ghost predicate Delivered(deliveries: seq<LoadedChunk>, coord: Vec) {
    exists k :: 0 <= k < |deliveries| && deliveries[k].chunkCoord == coord
  }

  /** A finished load: only genuine chunks came, in any order, and every stored one came. */
  ghost predicate Complete(arr: ZarrArray, store: Store, tasks: seq<ChunkTask>, deliveries: seq<LoadedChunk>) {
    && (forall k :: 0 <= k < |deliveries| ==> Genuine(arr, store, tasks, deliveries[k]))
    && (forall i :: 0 <= i < |tasks| && tasks[i].key in store ==> Delivered(deliveries, tasks[i].chunkCoord))
  }

  /** The output once some chunks have arrived: their cells hold logical values, the others the fill value. */
  ghost predicate Filled(arr: ZarrArray, store: Store, ranges: seq<DimRange>, deliveries: seq<LoadedChunk>, out: seq<Elem>)
    requires ValidArray(arr) && ValidStore(arr, store) && ValidRanges(arr, ranges)
    requires |out| == Prod(OutShape(ranges))
  {
    forall k :: 0 <= k < |out| ==> out[k] == FilledCell(arr, store, ranges, deliveries, k)
  }

  ghost function FilledCell(arr: ZarrArray, store: Store, ranges: seq<DimRange>, deliveries: seq<LoadedChunk>, k: nat): Elem
    requires ValidArray(arr) && ValidStore(arr, store) && ValidRanges(arr, ranges)
    requires k < Prod(OutShape(ranges))
  {
    var idx := Global(ranges, Unravel(k, OutShape(ranges)));
    if Delivered(deliveries, ChunkOf(arr, idx)) then Logical(arr, store, idx) else FillOf(arr)
  }

  lemma DeliveredAppend(deliveries: seq<LoadedChunk>, chunk: LoadedChunk, coord: Vec)
    ensures Delivered(deliveries + [chunk], coord) <==> Delivered(deliveries, coord) || chunk.chunkCoord == coord
  {
    var all := deliveries + [chunk];
    assert all[|deliveries|] == chunk;
    if Delivered(deliveries, coord) {
      var k :| 0 <= k < |deliveries| && deliveries[k].chunkCoord == coord;
      assert all[k] == deliveries[k];
    }
  }

  /** One output cell after copying a whole chunk. */
  lemma FullCell(arr: ZarrArray, store: Store, ranges: seq<DimRange>, coord: Vec, k: nat, before: Elem)
    requires ValidArray(arr) && ValidStore(arr, store) && ValidRanges(arr, ranges) && Touches(arr, ranges, coord)
    requires KeyOf(arr, coord) in store && k < Prod(OutShape(ranges))
    ensures Cell(SliceAxes(arr, ranges, coord, ChunkStrides(arr)), k, ChunkElems(arr, store, coord), 0, before)
         == (var idx := Global(ranges, Unravel(k, OutShape(ranges)));
             if ChunkOf(arr, idx) == coord then Logical(arr, store, idx) else before)
  {
    var o := Unravel(k, OutShape(ranges));
    var axes := SliceAxes(arr, ranges, coord, ChunkStrides(arr));
    RavelUnravel(k, OutShape(ranges));
    SrcOfRavel(axes, o);
    InBoxIsInChunk(arr, ranges, coord, ChunkStrides(arr), o);
    SliceLastInChunk(arr, ranges, coord, ChunkStrides(arr));
    ChunkElemsLength(arr, store, coord);
    ChunkOffsetBelow(arr, LocalOf(arr, Global(ranges, o)));
  }

  /** After a whole chunk is copied, the output is filled with one more delivery. */
  lemma FilledStep(arr: ZarrArray, store: Store, ranges: seq<DimRange>, deliveries: seq<LoadedChunk>, chunk: LoadedChunk,
    before: seq<Elem>, after: seq<Elem>)
    requires ValidArray(arr) && ValidStore(arr, store) && ValidRanges(arr, ranges)
    requires Touches(arr, ranges, chunk.chunkCoord) && KeyOf(arr, chunk.chunkCoord) in store
    requires |before| == Prod(OutShape(ranges)) && Filled(arr, store, ranges, deliveries, before)
    requires Done(SliceAxes(arr, ranges, chunk.chunkCoord, ChunkStrides(arr)), before, after,
               ChunkElems(arr, store, chunk.chunkCoord), 0, 0)
    ensures Filled(arr, store, ranges, deliveries + [chunk], after)
  {
    var axes := SliceAxes(arr, ranges, chunk.chunkCoord, ChunkStrides(arr));
    BlockIsProd(axes);
    forall k | 0 <= k < |after| ensures after[k] == FilledCell(arr, store, ranges, deliveries + [chunk], k) {
      FullCell(arr, store, ranges, chunk.chunkCoord, k, before[k]);
      DeliveredAppend(deliveries, chunk, ChunkOf(arr, Global(ranges, Unravel(k, OutShape(ranges)))));
      assert before[k] == FilledCell(arr, store, ranges, deliveries, k);
    }
  }

  /** A byte-range delivery leaves the same output as delivering the whole chunk. */
  lemma PartialIsFull(arr: ZarrArray, store: Store, ranges: seq<DimRange>, coord: Vec, data: Bytes,
    before: seq<Elem>, after: seq<Elem>)
    requires ValidArray(arr) && ValidStore(arr, store) && ValidRanges(arr, ranges) && Touches(arr, ranges, coord)
    requires KeyOf(arr, coord) in store && CanByteRange(arr)
    requires GenuineFor(arr, store, TaskFor(arr, ranges, coord, true), LoadedChunk(coord, data, true))
    requires Done(PartialAxes(arr, ranges, coord), before, after, TypedChunk(data, arr.byteSize, arr.bigEndian), 0, 0)
    ensures Done(SliceAxes(arr, ranges, coord, ChunkStrides(arr)), before, after, ChunkElems(arr, store, coord), 0, 0)
  {
    var whole := ChunkElems(arr, store, coord);
    PartialView(arr, store, ranges, coord, data);
    ChunkElemsLength(arr, store, coord);
    BlockIsProd(PartialAxes(arr, ranges, coord));
    BlockIsProd(SliceAxes(arr, ranges, coord, ChunkStrides(arr)));
    forall k: nat, e: Elem
      ensures Cell(SliceAxes(arr, ranges, coord, ChunkStrides(arr)), k, whole, 0, e)
           == Cell(PartialAxes(arr, ranges, coord), k, TypedChunk(data, arr.byteSize, arr.bigEndian), 0, e)
    {
      PartialCellIsFullCell(arr, ranges, coord, whole, k, e);
    }
  }

  /** The bytes of the range view as the overlap's elements. */
  lemma PartialView(arr: ZarrArray, store: Store, ranges: seq<DimRange>, coord: Vec, data: Bytes)
    requires ValidArray(arr) && ValidStore(arr, store) && ValidRanges(arr, ranges) && Touches(arr, ranges, coord)
    requires KeyOf(arr, coord) in store && CanByteRange(arr)
    requires GenuineFor(arr, store, TaskFor(arr, ranges, coord, true), LoadedChunk(coord, data, true))
    ensures Contiguous(arr, coord, ranges)
    ensures
      var first, n := FirstElement(arr, coord, ranges), NumElements(arr, coord, ranges);
            && first + n <= Prod(arr.chunks) == |ChunkElems(arr, store, coord)|
            && |TypedChunk(data, arr.byteSize, arr.bigEndian)| == n
            && TypedChunk(data, arr.byteSize, arr.bigEndian) == ChunkElems(arr, store, coord)[first..first + n]
  {
    var first, n := FirstElement(arr, coord, ranges), NumElements(arr, coord, ranges);
    ByteRangeInsideChunk(arr, ranges, coord);
    ChunkElemsLength(arr, store, coord);
    MulMonotone(first + n, Prod(arr.chunks), arr.byteSize);
    TypedSlice(store[KeyOf(arr, coord)], first, n, arr.byteSize, arr.bigEndian);
  }

  lemma FilledNone(arr: ZarrArray, store: Store, ranges: seq<DimRange>, out: seq<Elem>)
    requires ValidArray(arr) && ValidStore(arr, store) && ValidRanges(arr, ranges)
    requires |out| == Prod(OutShape(ranges))
    requires forall k :: 0 <= k < |out| ==> out[k] == FillOf(arr)
    ensures Filled(arr, store, ranges, [], out)
  {
  }

  /** Once every stored chunk has come, the output is the logical array over the selection. */
  lemma FilledAll(arr: ZarrArray, store: Store, ranges: seq<DimRange>, deliveries: seq<LoadedChunk>, out: seq<Elem>, sliced: bool)
    requires ValidArray(arr) && ValidStore(arr, store) && ValidRanges(arr, ranges)
    requires |out| == Prod(OutShape(ranges)) && Filled(arr, store, ranges, deliveries, out)
    requires Complete(arr, store, TasksFor(arr, ranges, sliced), deliveries)
    ensures out == ReadSpec(arr, store, ranges)
  {
    forall k | 0 <= k < |out| ensures out[k] == ReadSpec(arr, store, ranges)[k] {
      var idx := Global(ranges, Unravel(k, OutShape(ranges)));
      var i := CellHasTask(arr, ranges, Unravel(k, OutShape(ranges)), sliced);
      assert out[k] == FilledCell(arr, store, ranges, deliveries, k);
      assert KeyOf(arr, ChunkOf(arr, idx)) in store ==> Delivered(deliveries, ChunkOf(arr, idx));
    }
  }

  // ------------------------------------------------------------------ the reads

  method PrefillOutput(arr: ZarrArray, output: array<Elem>)
    requires ValidArray(arr)
    requires forall k :: 0 <= k < output.Length ==> output[k] == seq(arr.byteSize, _ => 0 as byte)
    modifies output
    ensures forall k :: 0 <= k < output.Length ==> output[k] == FillOf(arr)
  {
    if arr.fill.None? {
      return;
    }
    var i := 0;
    while i < output.Length
      invariant 0 <= i <= output.Length
      invariant forall k :: 0 <= k < i ==> output[k] == FillOf(arr)
    {
      output[i] := arr.fill.value;
      i := i + 1;
    }
  }

  method BuildTask(arr: ZarrArray, ranges: seq<DimRange>, coord: Vec, sliced: bool) returns (task: ChunkTask)
    requires ValidArray(arr) && ValidRanges(arr, ranges) && Touches(arr, ranges, coord)
    ensures task == TaskFor(arr, ranges, coord, sliced)
  {
    task := ChunkTask(KeyOf(arr, coord), coord, None);
    if sliced && CanByteRange(arr) {
      var br := ComputeChunkByteRange(arr, coord, ranges);
      if br.Some? {
        task := task.(byteRange := br);
      }
    }
  }

  method BuildTasks(arr: ZarrArray, ranges: seq<DimRange>, coords: seq<Vec>, sliced: bool) returns (tasks: seq<ChunkTask>)
    requires ValidArray(arr) && ValidRanges(arr, ranges)
    requires coords == CoordsOf(SliceChunkRanges(arr, ranges))
    ensures tasks == TasksFor(arr, ranges, sliced)
  {
    hide Touches, TaskFor, TasksFor, CoordsOf, SliceChunkRanges;
    tasks := [];
    TasksLength(arr, ranges, sliced);
    for i := 0 to |coords|
      invariant tasks == TasksFor(arr, ranges, sliced)[..i]
    {
      CoordTouches(arr, ranges, i);
      var task := BuildTask(arr, ranges, coords[i], sliced);
      TaskAt(arr, ranges, sliced, i);
      tasks := tasks + [task];
    }
  }

  lemma TasksLength(arr: ZarrArray, ranges: seq<DimRange>, sliced: bool)
    requires ValidArray(arr) && ValidRanges(arr, ranges)
    ensures |TasksFor(arr, ranges, sliced)| == |CoordsOf(SliceChunkRanges(arr, ranges))|
  {
  }

  lemma TaskAt(arr: ZarrArray, ranges: seq<DimRange>, sliced: bool, i: nat)
    requires ValidArray(arr) && ValidRanges(arr, ranges) && i < |CoordsOf(SliceChunkRanges(arr, ranges))|
    ensures |TasksFor(arr, ranges, sliced)| == |CoordsOf(SliceChunkRanges(arr, ranges))|
    ensures |CoordsOf(SliceChunkRanges(arr, ranges))[i]| == |arr.chunks|
    ensures TasksFor(arr, ranges, sliced)[i] == TaskFor(arr, ranges, CoordsOf(SliceChunkRanges(arr, ranges))[i], sliced)
  {
    hide TaskFor, CoordsOf, SliceChunkRanges;
    CoordTouches(arr, ranges, i);
  }

  method SliceTasks(arr: ZarrArray, ranges: seq<DimRange>) returns (tasks: seq<ChunkTask>)
    requires ValidArray(arr) && ValidRanges(arr, ranges)
    ensures tasks == TasksFor(arr, ranges, true)
  {
    hide TasksFor, CoordsOf;
    var chunkRanges := ComputeSliceChunkRanges(ranges, arr.chunks);
    assert chunkRanges == SliceChunkRanges(arr, ranges);
    var coords := AllChunkCoords(chunkRanges);
    tasks := BuildTasks(arr, ranges, coords, true);
  }

  method FullTasks(arr: ZarrArray) returns (tasks: seq<ChunkTask>)
    requires ValidArray(arr)
    ensures tasks == TasksFor(arr, FullRanges(arr.shape), false)
  {
    hide TasksFor, CoordsOf, CeilDiv, Interval, SliceChunkRanges;
    var ranges := ComputeChunkRanges(arr.shape, arr.chunks);
    FullChunkRanges(arr, ranges);
    var coords := AllChunkCoords(ranges);
    tasks := BuildTasks(arr, FullRanges(arr.shape), coords, false);
  }

  /** A genuine delivery is for a chunk the selection meets, and a partial one is a byte range of it. */
  lemma DeliveryIsForTask(arr: ZarrArray, store: Store, ranges: seq<DimRange>, chunk: LoadedChunk, sliced: bool)
    requires ValidArray(arr) && ValidStore(arr, store) && ValidRanges(arr, ranges)
    requires Genuine(arr, store, TasksFor(arr, ranges, sliced), chunk)
    ensures Touches(arr, ranges, chunk.chunkCoord) && KeyOf(arr, chunk.chunkCoord) in store
    ensures chunk.partial ==> sliced && CanByteRange(arr)
    ensures GenuineFor(arr, store, TaskFor(arr, ranges, chunk.chunkCoord, sliced), chunk)
    ensures !chunk.partial ==> chunk.data == DecodeRaw(arr.codec, store[KeyOf(arr, chunk.chunkCoord)])
  {
    var tasks := TasksFor(arr, ranges, sliced);
    var i :| 0 <= i < |tasks| && GenuineFor(arr, store, tasks[i], chunk);
    CoordTouches(arr, ranges, i);
  }

  method ChunkDataStrides(arr: ZarrArray) returns (strides: Vec)
    ensures strides == ChunkStrides(arr)
  {
    if arr.order.OrderF? {
      strides := FStrides(arr.chunks);
    } else {
      strides := CStrides(arr.chunks);
    }
  }

  /** Copy one delivered chunk of a sliced read into the output. */
  method OnSliceChunk(arr: ZarrArray, ghost store: Store, ranges: seq<DimRange>, outputStrides: Vec, chunk: LoadedChunk,
    output: array<Elem>, ghost deliveries: seq<LoadedChunk>)
    requires ValidArray(arr) && ValidStore(arr, store) && ValidRanges(arr, ranges)
    requires outputStrides == CStridesOf(OutShape(ranges))
    requires output.Length == Prod(OutShape(ranges))
    requires Genuine(arr, store, TasksFor(arr, ranges, true), chunk)
    requires Filled(arr, store, ranges, deliveries, output[..])
    modifies output
    ensures Filled(arr, store, ranges, deliveries + [chunk], output[..])
  {
    hide Done, Filled;
    ghost var before := output[..];
    DeliveryIsForTask(arr, store, ranges, chunk, true);
    ChunkElemsLength(arr, store, chunk.chunkCoord);
    var chunkTyped := TypedChunk(chunk.data, arr.byteSize, arr.bigEndian);
    if chunk.partial {
      PartialView(arr, store, ranges, chunk.chunkCoord, chunk.data);
      CopyPartialToOutput(arr, chunkTyped, output, chunk.chunkCoord, ranges, outputStrides);
      PartialIsFull(arr, store, ranges, chunk.chunkCoord, chunk.data, before, output[..]);
    } else {
      var chunkDataStrides := ChunkDataStrides(arr);
      CopySliceChunkToOutput(arr, chunkTyped, output, chunk.chunkCoord, ranges, chunkDataStrides, outputStrides);
    }
    FilledStep(arr, store, ranges, deliveries, chunk, before, output[..]);
  }

  /**
   Read a selection. `deliveries` is what the loader handed over, in the order it did so: any
   complete list of genuine chunks will do, and the output is the same for all of them.
   */
  method GetSlice(arr: ZarrArray, ghost store: Store, selection: Selection, deliveries: seq<LoadedChunk>)
    returns (output: array<Elem>, tasks: seq<ChunkTask>)
    requires ValidArray(arr) && ValidStore(arr, store)
    requires |selection| == |arr.shape| && ValidRanges(arr, NormalizeSelection(selection, arr.shape))
    requires Complete(arr, store, TasksFor(arr, NormalizeSelection(selection, arr.shape), true), deliveries)
    ensures fresh(output)
    ensures tasks == TasksFor(arr, NormalizeSelection(selection, arr.shape), true)
    ensures output[..] == ReadSpec(arr, store, NormalizeSelection(selection, arr.shape))
    ensures HoldsSelection(arr, store, selection, output[..])
  {
    hide Filled, ValidStore, TasksFor, Prod, CStridesOf, CoordsOf, FilledCell, HoldsSelection, ReadSpec;
    var ranges := NormalizeSelection(selection, arr.shape);
    tasks := SliceTasks(arr, ranges);
    var outputShape := OutShape(ranges);
    output := new Elem[Prod(outputShape)](_ => seq(arr.byteSize, _ => 0 as byte));
    PrefillOutput(arr, output);
    var outputStrides := CStrides(outputShape);
    FilledNone(arr, store, ranges, output[..]);
    assert deliveries[..0] == [];
    for k := 0 to |deliveries|
      invariant Filled(arr, store, ranges, deliveries[..k], output[..])
    {
      assert deliveries[..k + 1] == deliveries[..k] + [deliveries[k]];
      OnSliceChunk(arr, store, ranges, outputStrides, deliveries[k], output, deliveries[..k]);
    }
    assert deliveries[..|deliveries|] == deliveries;
    FilledAll(arr, store, ranges, deliveries, output[..], true);
    SpecHoldsSelection(arr, store, selection);
  }

  /** Copy one delivered chunk of a full read into the output. */
  method OnFullChunk(arr: ZarrArray, ghost store: Store, outputStrides: Vec, chunk: LoadedChunk,
    output: array<Elem>, ghost deliveries: seq<LoadedChunk>)
    requires ValidArray(arr) && ValidStore(arr, store)
    requires outputStrides == CStridesOf(arr.shape) && output.Length == Prod(OutShape(FullRanges(arr.shape)))
    requires Genuine(arr, store, TasksFor(arr, FullRanges(arr.shape), false), chunk)
    requires Filled(arr, store, FullRanges(arr.shape), deliveries, output[..])
    modifies output
    ensures Filled(arr, store, FullRanges(arr.shape), deliveries + [chunk], output[..])
  {
    hide Done, Filled;
    ghost var ranges, before := FullRanges(arr.shape), output[..];
    assert OutShape(ranges) == arr.shape;
    DeliveryIsForTask(arr, store, ranges, chunk, false);
    ChunkElemsLength(arr, store, chunk.chunkCoord);
    var chunkTyped := TypedChunk(chunk.data, arr.byteSize, arr.bigEndian);
    var actualChunkShape := ActualChunkShape(arr, chunk.chunkCoord);
    var chunkDataStrides := ChunkDataStrides(arr);
    CopyChunkToOutput(arr, chunkTyped, output, chunk.chunkCoord, actualChunkShape, chunkDataStrides, outputStrides);
    FilledStep(arr, store, ranges, deliveries, chunk, before, output[..]);
  }

  lemma CeilIsLastChunk(extent: nat, chunk: nat)
    requires extent > 0 && chunk > 0
    ensures CeilDiv(extent, chunk) == (extent - 1) / chunk + 1
  {
    var q, r := (extent - 1) / chunk, (extent - 1) % chunk;
    assert extent + chunk - 1 == (q + 1) * chunk + r;
    DivModUnique(extent + chunk - 1, q + 1, r, chunk);
  }

  lemma FullChunkRanges(arr: ZarrArray, ranges: seq<Vec>)
    requires ValidArray(arr) && |ranges| == |arr.shape|
    requires forall d :: 0 <= d < |arr.shape| ==> ranges[d] == Interval(0, CeilDiv(arr.shape[d], arr.chunks[d]))
    ensures ranges == SliceChunkRanges(arr, FullRanges(arr.shape))
  {
    forall d | 0 <= d < |arr.shape| ensures ranges[d] == SliceChunkRanges(arr, FullRanges(arr.shape))[d] {
      CeilIsLastChunk(arr.shape[d], arr.chunks[d]);
    }
  }

  method GetFull(arr: ZarrArray, ghost store: Store, deliveries: seq<LoadedChunk>)
    returns (output: array<Elem>, tasks: seq<ChunkTask>)
    requires ValidArray(arr) && ValidStore(arr, store)
    requires Complete(arr, store, TasksFor(arr, FullRanges(arr.shape), false), deliveries)
    ensures fresh(output)
    ensures tasks == TasksFor(arr, FullRanges(arr.shape), false)
    ensures output[..] == ReadSpec(arr, store, FullRanges(arr.shape))
    ensures HoldsWhole(arr, store, output[..])
  {
    hide Filled, ValidStore, TasksFor, Prod, CStridesOf, CoordsOf, CeilDiv, Interval, SliceChunkRanges, HoldsWhole, ReadSpec;
    ghost var full := FullRanges(arr.shape);
    assert OutShape(full) == arr.shape;
    tasks := FullTasks(arr);
    output := new Elem[Prod(arr.shape)](_ => seq(arr.byteSize, _ => 0 as byte));
    PrefillOutput(arr, output);
    var outputStrides := CStrides(arr.shape);
    FilledNone(arr, store, full, output[..]);
    assert deliveries[..0] == [];
    for k := 0 to |deliveries|
      invariant Filled(arr, store, full, deliveries[..k], output[..])
    {
      assert deliveries[..k + 1] == deliveries[..k] + [deliveries[k]];
      OnFullChunk(arr, store, outputStrides, deliveries[k], output, deliveries[..k]);
    }
    assert deliveries[..|deliveries|] == deliveries;
    FilledAll(arr, store, full, deliveries, output[..], false);
    SpecHoldsWhole(arr, store);
  }

  /** The reference output of a full read holds the array. */
  lemma SpecHoldsWhole(arr: ZarrArray, store: Store)
    requires ValidArray(arr) && ValidStore(arr, store)
    ensures HoldsWhole(arr, store, ReadSpec(arr, store, FullRanges(arr.shape)))
  {
    hide ValidStore, Logical, IsElement, ReadSpec;
    var out := ReadSpec(arr, store, FullRanges(arr.shape));
    assert OutShape(FullRanges(arr.shape)) == arr.shape;
    FullReadIsOpenSlice(arr, store);
    forall idx: Vec | InBounds(idx, arr.shape)
      ensures Ravel(idx, arr.shape) < |out| && IsElement(arr, store, idx, out[Ravel(idx, arr.shape)])
    {
      LogicalIsElement(arr, store, idx);
    }
  }

  /** A full read is the read of the selection that leaves every dimension open. */
  lemma FullReadIsOpenSlice(arr: ZarrArray, store: Store)
    requires ValidArray(arr) && ValidStore(arr, store)
    ensures NormalizeSelection(seq(|arr.shape|, _ => All), arr.shape) == FullRanges(arr.shape)
    ensures ReadSpec(arr, store, NormalizeSelection(seq(|arr.shape|, _ => All), arr.shape))
         == ReadSpec(arr, store, FullRanges(arr.shape))
    ensures forall idx: Vec :: InBounds(idx, arr.shape) ==>
              && Ravel(idx, arr.shape) < |ReadSpec(arr, store, FullRanges(arr.shape))|
              && ReadSpec(arr, store, FullRanges(arr.shape))[Ravel(idx, arr.shape)] == Logical(arr, store, idx)
  {
    var full := FullRanges(arr.shape);
    assert NormalizeSelection(seq(|arr.shape|, _ => All), arr.shape) == full;
    assert OutShape(full) == arr.shape;
    forall idx: Vec | InBounds(idx, arr.shape)
      ensures Ravel(idx, arr.shape) < |ReadSpec(arr, store, full)|
      ensures ReadSpec(arr, store, full)[Ravel(idx, arr.shape)] == Logical(arr, store, idx)
    {
      ReadSpecAt(arr, store, full, idx);
      assert Global(full, idx) == idx;
    }
  }
}
