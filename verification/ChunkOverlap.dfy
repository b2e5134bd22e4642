/** The overlap of one chunk with a selection, and the contiguous byte range that covers it. */
module ChunkOverlap {
  import opened Vectors
  import opened ChunkIndexing
  import opened BlockCopy
  import opened ArrayModel

  function Min(a: nat, b: nat): nat { if a <= b then a else b }

  function Max(a: nat, b: nat): nat { if a >= b then a else b }

  function ChunkStart(arr: ZarrArray, coord: Vec): (s: Vec)
    requires |coord| == |arr.chunks|
    ensures |s| == |coord|
  {
    seq(|coord|, d requires 0 <= d < |coord| => coord[d] * arr.chunks[d])
  }

  function ChunkEnd(arr: ZarrArray, coord: Vec): (s: Vec)
    requires |coord| == |arr.chunks| == |arr.shape|
    ensures |s| == |coord|
  {
    seq(|coord|, d requires 0 <= d < |coord| => Min((coord[d] + 1) * arr.chunks[d], arr.shape[d]))
  }

  function OverlapStart(arr: ZarrArray, coord: Vec, ranges: seq<DimRange>): (s: Vec)
    requires |coord| == |arr.chunks| == |arr.shape| == |ranges|
    ensures |s| == |coord|
  {
    seq(|coord|, d requires 0 <= d < |coord| => Max(ranges[d].start, ChunkStart(arr, coord)[d]))
  }

  function OverlapEnd(arr: ZarrArray, coord: Vec, ranges: seq<DimRange>): (s: Vec)
    requires |coord| == |arr.chunks| == |arr.shape| == |ranges|
    ensures |s| == |coord|
  {
    seq(|coord|, d requires 0 <= d < |coord| => Min(ranges[d].stop, ChunkEnd(arr, coord)[d]))
  }

  /** The chunks a selection asks for: per dimension, between the first and the last chunk it meets. */
  ghost predicate Touches(arr: ZarrArray, ranges: seq<DimRange>, coord: Vec)
    requires ValidArray(arr) && ValidRanges(arr, ranges)
  {
    && |coord| == |arr.chunks|
    && forall d :: 0 <= d < |coord| ==>
        ranges[d].start / arr.chunks[d] <= coord[d] <= (ranges[d].stop - 1) / arr.chunks[d]
  }

  lemma OverlapOneDim(start: nat, stop: nat, c: nat, chunk: nat, extent: nat)
    requires chunk > 0 && start < stop <= extent
    requires start / chunk <= c <= (stop - 1) / chunk
    ensures c * chunk < (c + 1) * chunk
    ensures Max(start, c * chunk) < Min(stop, Min((c + 1) * chunk, extent))
  {
    assert start == start / chunk * chunk + start % chunk;
    assert stop - 1 == (stop - 1) / chunk * chunk + (stop - 1) % chunk;
    MulMonotone(start / chunk, c, chunk);
    MulMonotone(c, (stop - 1) / chunk, chunk);
  }

  lemma OverlapBounds(arr: ZarrArray, ranges: seq<DimRange>, coord: Vec, d: nat)
    requires ValidArray(arr) && ValidRanges(arr, ranges) && Touches(arr, ranges, coord)
    requires d < |coord|
    ensures ranges[d].start <= OverlapStart(arr, coord, ranges)[d] < OverlapEnd(arr, coord, ranges)[d] <= ranges[d].stop
    ensures ChunkStart(arr, coord)[d] <= OverlapStart(arr, coord, ranges)[d]
    ensures OverlapEnd(arr, coord, ranges)[d] <= ChunkStart(arr, coord)[d] + arr.chunks[d]
  {
    OverlapOneDim(ranges[d].start, ranges[d].stop, coord[d], arr.chunks[d], arr.shape[d]);
  }

  function OverlapShape(arr: ZarrArray, coord: Vec, ranges: seq<DimRange>): (s: Vec)
    requires |coord| == |arr.chunks| == |arr.shape| == |ranges|
    ensures |s| == |coord|
  {
    var lo, hi := OverlapStart(arr, coord, ranges), OverlapEnd(arr, coord, ranges);
    seq(|coord|, d requires 0 <= d < |coord| => if lo[d] <= hi[d] then hi[d] - lo[d] else 0)
  }

  /** Position of the overlap's first element inside the chunk. */
  function FirstLocal(arr: ZarrArray, coord: Vec, ranges: seq<DimRange>): (s: Vec)
    requires |coord| == |arr.chunks| == |arr.shape| == |ranges|
    ensures |s| == |coord|
  {
    var lo, cs := OverlapStart(arr, coord, ranges), ChunkStart(arr, coord);
    seq(|coord|, d requires 0 <= d < |coord| => if cs[d] <= lo[d] then lo[d] - cs[d] else 0)
  }

  /** The copy a full chunk calls for. */
  ghost function SliceAxes(arr: ZarrArray, ranges: seq<DimRange>, coord: Vec, strides: Vec): (axes: seq<Axis>)
    requires ValidArray(arr) && ValidRanges(arr, ranges) && Touches(arr, ranges, coord)
    requires |strides| == |coord|
    ensures |axes| == |coord| && ValidAxes(axes)
    ensures Extents(axes) == OutShape(ranges)
  {
    var axes := seq(|coord|, d requires 0 <= d < |coord| =>
      OverlapBounds(arr, ranges, coord, d);
      Axis(ranges[d].stop - ranges[d].start,
        OverlapStart(arr, coord, ranges)[d] - ranges[d].start,
        OverlapEnd(arr, coord, ranges)[d] - ranges[d].start,
        FirstLocal(arr, coord, ranges)[d], strides[d]));
    assert ValidAxes(axes) by {
      forall d | 0 <= d < |axes| ensures axes[d].lo < axes[d].hi <= axes[d].n {
        OverlapBounds(arr, ranges, coord, d);
      }
    }
    axes
  }

  lemma ChunkOneDim(g: nat, start: nat, stop: nat, c: nat, chunk: nat, extent: nat)
    requires chunk > 0 && start <= g < stop <= extent
    ensures Max(start, c * chunk) <= g < Min(stop, Min((c + 1) * chunk, extent)) <==> g / chunk == c
    ensures g / chunk == c ==> g % chunk == g - c * chunk
  {
    SlabOf(g, c, chunk);
    assert (c + 1) * chunk == c * chunk + chunk;
  }

  /** A cell is in the copied box exactly when the chunk holds its array index. */
  lemma InBoxIsInChunk(arr: ZarrArray, ranges: seq<DimRange>, coord: Vec, strides: Vec, o: Vec)
    requires ValidArray(arr) && ValidRanges(arr, ranges) && Touches(arr, ranges, coord)
    requires |strides| == |coord| && InBounds(o, OutShape(ranges))
    ensures InBox(SliceAxes(arr, ranges, coord, strides), o) <==> ChunkOf(arr, Global(ranges, o)) == coord
    ensures InBox(SliceAxes(arr, ranges, coord, strides), o) ==>
              SrcIndex(SliceAxes(arr, ranges, coord, strides), o) == LocalOf(arr, Global(ranges, o))
  {
    var axes, g := SliceAxes(arr, ranges, coord, strides), Global(ranges, o);
    forall d | 0 <= d < |coord|
      ensures axes[d].lo <= o[d] < axes[d].hi <==> ChunkOf(arr, g)[d] == coord[d]
      ensures axes[d].lo <= o[d] < axes[d].hi ==> axes[d].src + (o[d] - axes[d].lo) == LocalOf(arr, g)[d]
    {
      OverlapBounds(arr, ranges, coord, d);
      ChunkOneDim(g[d], ranges[d].start, ranges[d].stop, coord[d], arr.chunks[d], arr.shape[d]);
    }
    if InBox(axes, o) {
      assert ChunkOf(arr, g) == coord;
    }
    if ChunkOf(arr, g) == coord {
      assert forall d :: 0 <= d < |coord| ==> axes[d].lo <= o[d] < axes[d].hi;
    }
  }

  lemma SliceLastInChunk(arr: ZarrArray, ranges: seq<DimRange>, coord: Vec, strides: Vec)
    requires ValidArray(arr) && ValidRanges(arr, ranges) && Touches(arr, ranges, coord)
    requires |strides| == |coord|
    ensures InBounds(LastIndex(SliceAxes(arr, ranges, coord, strides)), arr.chunks)
    ensures Strides(SliceAxes(arr, ranges, coord, strides)) == strides
  {
    var axes := SliceAxes(arr, ranges, coord, strides);
    forall d | 0 <= d < |coord| ensures LastIndex(axes)[d] < arr.chunks[d] {
      OverlapBounds(arr, ranges, coord, d);
    }
  }

  // ------------------------------------------------------------- byte ranges

  datatype ByteRange = ByteRange(offset: nat, length: nat)

  /** The overlap spans the stored chunk in every dimension but the first. */
  ghost predicate Contiguous(arr: ZarrArray, coord: Vec, ranges: seq<DimRange>)
    requires |coord| == |arr.chunks| == |arr.shape| == |ranges|
  {
    forall d :: 1 <= d < |coord| ==> OverlapShape(arr, coord, ranges)[d] == arr.chunks[d]
  }

  /** Offset of the overlap's first element in the stored chunk, and how many elements it has. */
  ghost function FirstElement(arr: ZarrArray, coord: Vec, ranges: seq<DimRange>): nat
    requires |coord| == |arr.chunks| == |arr.shape| == |ranges|
  {
    Ravel(FirstLocal(arr, coord, ranges), arr.chunks)
  }

  ghost function NumElements(arr: ZarrArray, coord: Vec, ranges: seq<DimRange>): nat
    requires |coord| == |arr.chunks| == |arr.shape| == |ranges|
  {
    Prod(OverlapShape(arr, coord, ranges))
  }

  ghost function ByteRangeOf(arr: ZarrArray, coord: Vec, ranges: seq<DimRange>): Option<ByteRange>
    requires |coord| == |arr.chunks| == |arr.shape| == |ranges|
  {
    if Contiguous(arr, coord, ranges) then
      Some(ByteRange(FirstElement(arr, coord, ranges) * arr.byteSize, NumElements(arr, coord, ranges) * arr.byteSize))
    else None
  }

  lemma {:induction false} DotPrefix(a: Vec, b: Vec, d: nat)
    requires |a| == |b| && d < |a|
    ensures Dot(a[..d + 1], b[..d + 1]) == Dot(a[..d], b[..d]) + a[d] * b[d]
  {
    if d == 0 {
      assert a[..1] == [a[0]] && b[..1] == [b[0]];
      assert a[..0] == [] && b[..0] == [];
      assert Dot([a[0]], [b[0]]) == a[0] * b[0] + Dot([], []);
    } else {
      DotPrefix(a[1..], b[1..], d - 1);
      assert a[..d + 1][1..] == a[1..][..d] && b[..d + 1][1..] == b[1..][..d];
      assert a[..d][1..] == a[1..][..d - 1] && b[..d][1..] == b[1..][..d - 1];
    }
  }

  method ComputeChunkByteRange(arr: ZarrArray, chunkCoord: Vec, ranges: seq<DimRange>) returns (range: Option<ByteRange>)
    requires ValidArray(arr) && ValidRanges(arr, ranges) && Touches(arr, ranges, chunkCoord)
    ensures range == ByteRangeOf(arr, chunkCoord, ranges)
  {
    var ndim := |arr.shape|;
    var chunkStart := ChunkStart(arr, chunkCoord);
    var overlapStart := OverlapStart(arr, chunkCoord, ranges);
    var overlapEnd := OverlapEnd(arr, chunkCoord, ranges);
    var d := ndim - 1;
    while d >= 1
      invariant 0 <= d <= ndim - 1
      invariant forall e :: d < e < ndim ==> OverlapShape(arr, chunkCoord, ranges)[e] == arr.chunks[e]
    {
      OverlapBounds(arr, ranges, chunkCoord, d);
      var overlapSize := overlapEnd[d] - overlapStart[d];
      if overlapSize != arr.chunks[d] {
        return None;
      }
      d := d - 1;
    }
    var strides := CStrides(arr.chunks);
    var firstLocal := FirstLocal(arr, chunkCoord, ranges);
    var startElement := 0;
    var e := 0;
    while e < ndim
      invariant 0 <= e <= ndim
      invariant startElement == Dot(firstLocal[..e], strides[..e])
    {
      DotPrefix(firstLocal, strides, e);
      startElement := startElement + firstLocal[e] * strides[e];
      e := e + 1;
    }
    assert firstLocal[..ndim] == firstLocal && strides[..ndim] == strides;
    DotCStrides(firstLocal, arr.chunks);
    var numElements := Prod(OverlapShape(arr, chunkCoord, ranges));
    range := Some(ByteRange(startElement * arr.byteSize, numElements * arr.byteSize));
  }

  /** The number of cells a contiguous overlap and its chunk span below the first dimension. */
  lemma ContiguousRows(arr: ZarrArray, ranges: seq<DimRange>, coord: Vec)
    requires ValidArray(arr) && ValidRanges(arr, ranges) && Touches(arr, ranges, coord)
    requires Contiguous(arr, coord, ranges)
    ensures OverlapShape(arr, coord, ranges)[1..] == arr.chunks[1..]
    ensures FirstLocal(arr, coord, ranges)[1..] == seq(|coord| - 1, _ => 0)
    ensures Ravel(FirstLocal(arr, coord, ranges), arr.chunks) == FirstLocal(arr, coord, ranges)[0] * Prod(arr.chunks[1..])
  {
    forall d | 1 <= d < |coord| ensures FirstLocal(arr, coord, ranges)[d] == 0 {
      OverlapBounds(arr, ranges, coord, d);
    }
    RavelZero(arr.chunks[1..]);
  }

  lemma RowsFit(first: nat, n: nat, chunk: nat, rows: nat, byteSize: nat)
    requires n > 0 && rows > 0 && first + n <= chunk
    ensures n * rows > 0 && first * rows + n * rows <= chunk * rows
    ensures (first * rows) * byteSize + (n * rows) * byteSize <= (chunk * rows) * byteSize
  {
    MulMonotone(first + n, chunk, rows);
    assert (first + n) * rows == first * rows + n * rows;
    MulMonotone(first * rows + n * rows, chunk * rows, byteSize);
    var f, m := first * rows, n * rows;
    assert (f + m) * byteSize == f * byteSize + m * byteSize;
  }

  lemma ContiguousSizes(arr: ZarrArray, ranges: seq<DimRange>, coord: Vec)
    requires ValidArray(arr) && ValidRanges(arr, ranges) && Touches(arr, ranges, coord)
    requires Contiguous(arr, coord, ranges)
    ensures Prod(arr.chunks[1..]) > 0
    ensures OverlapShape(arr, coord, ranges)[0] > 0
    ensures FirstLocal(arr, coord, ranges)[0] + OverlapShape(arr, coord, ranges)[0] <= arr.chunks[0]
    ensures FirstElement(arr, coord, ranges) == FirstLocal(arr, coord, ranges)[0] * Prod(arr.chunks[1..])
    ensures NumElements(arr, coord, ranges) == OverlapShape(arr, coord, ranges)[0] * Prod(arr.chunks[1..])
    ensures Prod(arr.chunks) == arr.chunks[0] * Prod(arr.chunks[1..])
  {
    ContiguousRows(arr, ranges, coord);
    OverlapBounds(arr, ranges, coord, 0);
    ProdPositive(arr.chunks[1..]);
  }

  /** A returned byte range is non-empty and lies inside the stored chunk. */
  lemma ByteRangeInsideChunk(arr: ZarrArray, ranges: seq<DimRange>, coord: Vec)
    requires ValidArray(arr) && ValidRanges(arr, ranges) && Touches(arr, ranges, coord)
    requires ByteRangeOf(arr, coord, ranges).Some?
    ensures NumElements(arr, coord, ranges) > 0
    ensures FirstElement(arr, coord, ranges) + NumElements(arr, coord, ranges) <= Prod(arr.chunks)
    ensures ByteRangeOf(arr, coord, ranges).value.offset + ByteRangeOf(arr, coord, ranges).value.length
         <= Prod(arr.chunks) * arr.byteSize
  {
    ContiguousSizes(arr, ranges, coord);
    RowsFit(FirstLocal(arr, coord, ranges)[0], OverlapShape(arr, coord, ranges)[0], arr.chunks[0], Prod(arr.chunks[1..]), arr.byteSize);
  }

  /** The copy a byte-range chunk calls for: its data is the overlap itself, packed. */
  ghost function PartialAxes(arr: ZarrArray, ranges: seq<DimRange>, coord: Vec): (axes: seq<Axis>)
    requires ValidArray(arr) && ValidRanges(arr, ranges) && Touches(arr, ranges, coord)
    ensures |axes| == |coord| && ValidAxes(axes)
    ensures Extents(axes) == OutShape(ranges)
  {
    var full := SliceAxes(arr, ranges, coord, CStridesOf(arr.chunks));
    var packed := CStridesOf(OverlapShape(arr, coord, ranges));
    seq(|coord|, d requires 0 <= d < |coord| => full[d].(src := 0, stride := packed[d]))
  }

  /** Below the first dimension, packed and stored layouts of a contiguous overlap coincide. */
  lemma PartialTail(arr: ZarrArray, ranges: seq<DimRange>, coord: Vec)
    requires ValidArray(arr) && ValidRanges(arr, ranges) && Touches(arr, ranges, coord)
    requires Contiguous(arr, coord, ranges)
    ensures PartialAxes(arr, ranges, coord)[1..] == SliceAxes(arr, ranges, coord, CStridesOf(arr.chunks))[1..]
    ensures PartialAxes(arr, ranges, coord)[0].stride == Prod(arr.chunks[1..])
  {
    var part, full := PartialAxes(arr, ranges, coord), SliceAxes(arr, ranges, coord, CStridesOf(arr.chunks));
    ContiguousRows(arr, ranges, coord);
    assert CStridesOf(OverlapShape(arr, coord, ranges))[1..] == CStridesOf(arr.chunks)[1..];
    forall d | 1 <= d < |coord| ensures part[d] == full[d] {
      assert FirstLocal(arr, coord, ranges)[1..][d - 1] == 0;
      assert CStridesOf(OverlapShape(arr, coord, ranges))[1..][d - 1] == CStridesOf(arr.chunks)[1..][d - 1];
    }
  }

  lemma ShiftedRow(f: nat, q: nat, rows: nat)
    ensures (f + q) * rows == f * rows + q * rows
  {
  }

  /** The packed copy reads the same elements as the full copy, shifted by the overlap's first element. */
  lemma PartialSrc(arr: ZarrArray, ranges: seq<DimRange>, coord: Vec, k: nat)
    requires ValidArray(arr) && ValidRanges(arr, ranges) && Touches(arr, ranges, coord)
    requires Contiguous(arr, coord, ranges)
    ensures match SrcOf(PartialAxes(arr, ranges, coord), k)
            case None => SrcOf(SliceAxes(arr, ranges, coord, CStridesOf(arr.chunks)), k) == None
            case Some(s) =>
              SrcOf(SliceAxes(arr, ranges, coord, CStridesOf(arr.chunks)), k) == Some(FirstElement(arr, coord, ranges) + s)
  {
    var part, full := PartialAxes(arr, ranges, coord), SliceAxes(arr, ranges, coord, CStridesOf(arr.chunks));
    ContiguousSizes(arr, ranges, coord);
    PartialTail(arr, ranges, coord);
    BlockPositive(part[1..]);
    var b := Block(part[1..]);
    if part[0].lo <= k / b < part[0].hi {
      match SrcOf(part[1..], k % b)
      case None =>
      case Some(s) => ShiftedRow(full[0].src, SrcCoord(part[0], k / b), full[0].stride);
    }
  }

  /** Copying the packed bytes writes what copying the whole chunk would write, cell for cell. */
  lemma {:induction false} PartialCellIsFullCell(arr: ZarrArray, ranges: seq<DimRange>, coord: Vec, whole: seq<Elem>, k: nat, before: Elem)
    requires ValidArray(arr) && ValidRanges(arr, ranges) && Touches(arr, ranges, coord)
    requires Contiguous(arr, coord, ranges)
    requires FirstElement(arr, coord, ranges) + NumElements(arr, coord, ranges) <= |whole|
    ensures Cell(PartialAxes(arr, ranges, coord), k,
              whole[FirstElement(arr, coord, ranges)..FirstElement(arr, coord, ranges) + NumElements(arr, coord, ranges)], 0, before)
         == Cell(SliceAxes(arr, ranges, coord, CStridesOf(arr.chunks)), k, whole, 0, before)
  {
    PartialSrc(arr, ranges, coord, k);
    if SrcOf(PartialAxes(arr, ranges, coord), k).Some? {
      SrcBelowTop(PartialAxes(arr, ranges, coord), k);
      TopOfPartial(arr, ranges, coord);
    }
  }

  lemma {:induction false} SrcBelowTop(axes: seq<Axis>, k: nat)
    requires ValidAxes(axes) && SrcOf(axes, k).Some?
    ensures SrcOf(axes, k).value <= Top(axes)
  {
    if axes != [] {
      var a, b := axes[0], Block(axes[1..]);
      SrcBelowTop(axes[1..], k % b);
      MulMonotone(SrcCoord(a, k / b), SrcCoord(a, a.hi - 1), a.stride);
    }
  }

  /** The packed copy stays inside the fetched elements. */
  lemma TopOfPartial(arr: ZarrArray, ranges: seq<DimRange>, coord: Vec)
    requires ValidArray(arr) && ValidRanges(arr, ranges) && Touches(arr, ranges, coord)
    ensures Top(PartialAxes(arr, ranges, coord)) < Prod(OverlapShape(arr, coord, ranges))
  {
    var axes, shape := PartialAxes(arr, ranges, coord), OverlapShape(arr, coord, ranges);
    TopIsLast(axes);
    assert Strides(axes) == CStridesOf(shape);
    forall d | 0 <= d < |coord| ensures LastIndex(axes)[d] < shape[d] {
      OverlapBounds(arr, ranges, coord, d);
    }
    DotCStrides(LastIndex(axes), shape);
    RavelBelow(LastIndex(axes), shape);
  }

  /** A full copy stays inside the stored chunk, in either order. */
  lemma TopOfSlice(arr: ZarrArray, ranges: seq<DimRange>, coord: Vec)
    requires ValidArray(arr) && ValidRanges(arr, ranges) && Touches(arr, ranges, coord)
    ensures Top(SliceAxes(arr, ranges, coord, ChunkStrides(arr))) < Prod(arr.chunks)
  {
    var axes := SliceAxes(arr, ranges, coord, ChunkStrides(arr));
    TopIsLast(axes);
    SliceLastInChunk(arr, ranges, coord, ChunkStrides(arr));
    ChunkOffsetBelow(arr, LastIndex(axes));
  }
}
