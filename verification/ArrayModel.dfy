/**
 The stored array: its geometry, its chunk bytes, and the logical value at an index.
 Everything `src/array.ts` computes is judged against `Logical`.
 */
module ArrayModel {
  import opened Vectors
  import opened ChunkIndexing

  type byte = bv8
  type Bytes = seq<byte>

  /** One element of the typed array, as its bytes in native (little-endian) order. */
  type Elem = Bytes

  datatype Order = OrderC | OrderF

  datatype Codec = NoCodec | Codec(decode: Bytes -> Bytes)

  datatype ZarrArray = ZarrArray(
    shape: Vec, chunks: Vec, order: Order, byteSize: nat, bigEndian: bool, fill: Option<Elem>,
    separator: char, basePath: string, codec: Codec, hasGetRange: bool)

  /** Raw chunk bytes by key; a chunk without a key is missing. */
  type Store = map<string, Bytes>

  ghost predicate ValidArray(arr: ZarrArray) {
    && |arr.shape| == |arr.chunks| >= 1
    && Positive(arr.shape) && Positive(arr.chunks)
    && arr.byteSize > 0
    && (arr.fill.Some? ==> |arr.fill.value| == arr.byteSize)
  }

  function KeyOf(arr: ZarrArray, coord: Vec): string {
    if arr.basePath == "" then ChunkKey(coord, arr.separator)
    else arr.basePath + "/" + ChunkKey(coord, arr.separator)
  }

  function DecodeRaw(codec: Codec, raw: Bytes): Bytes {
    match codec
    case NoCodec => raw
    case Codec(decode) => decode(raw)
  }

  /** Zarr v2 stores every chunk whole, edge chunks included. */
  ghost predicate ValidStore(arr: ZarrArray, store: Store) {
    forall coord: Vec :: |coord| == |arr.chunks| && KeyOf(arr, coord) in store ==>
      |DecodeRaw(arr.codec, store[KeyOf(arr, coord)])| == Prod(arr.chunks) * arr.byteSize
  }

  lemma WithinBytes(i: nat, n: nat, byteSize: nat)
    requires byteSize > 0 && i < n / byteSize
    ensures i * byteSize + byteSize <= n
  {
    SlabInside(i, n / byteSize, byteSize);
    assert n == n / byteSize * byteSize + n % byteSize;
  }

  function ElemAt(data: Bytes, i: nat, byteSize: nat, bigEndian: bool): Elem
    requires byteSize > 0 && i < |data| / byteSize
  {
    WithinBytes(i, |data|, byteSize);
    var e := data[i * byteSize..i * byteSize + byteSize];
    if bigEndian then Reverse(e) else e
  }

  /** The typed view over chunk bytes, byte-swapped when the data is big-endian. */
  function TypedChunk(data: Bytes, byteSize: nat, bigEndian: bool): (typed: seq<Elem>)
    requires byteSize > 0
    ensures |typed| == |data| / byteSize
  {
    seq(|data| / byteSize, i requires 0 <= i < |data| / byteSize => ElemAt(data, i, byteSize, bigEndian))
  }

  lemma SliceBounds(len: nat, from: nat, n: nat, byteSize: nat)
    requires byteSize > 0 && (from + n) * byteSize <= len
    ensures from + n <= len / byteSize
    ensures from * byteSize + n * byteSize <= len
    ensures n * byteSize / byteSize == n
  {
    assert (from + n) * byteSize == from * byteSize + n * byteSize;
    DivModUnique(n * byteSize, n, 0, byteSize);
    var q := len / byteSize;
    assert len == q * byteSize + len % byteSize;
    if q < from + n {
      SlabInside(q, from + n, byteSize);
    }
  }

  /** A whole-element slice of the bytes views as the same slice of the elements. */
  lemma TypedSlice(data: Bytes, from: nat, n: nat, byteSize: nat, bigEndian: bool)
    requires byteSize > 0 && (from + n) * byteSize <= |data|
    ensures from + n <= |data| / byteSize
    ensures from * byteSize + n * byteSize <= |data|
    ensures TypedChunk(data[from * byteSize..from * byteSize + n * byteSize], byteSize, bigEndian)
         == TypedChunk(data, byteSize, bigEndian)[from..from + n]
  {
    SliceBounds(|data|, from, n, byteSize);
    var part := data[from * byteSize..from * byteSize + n * byteSize];
    forall i | 0 <= i < n
      ensures ElemAt(part, i, byteSize, bigEndian) == ElemAt(data, from + i, byteSize, bigEndian)
    {
      TypedSliceAt(data, from, n, i, byteSize);
    }
  }

  lemma SliceOfSlice(data: Bytes, a: nat, n: nat, x: nat, m: nat)
    requires a + n <= |data| && x + m <= n
    ensures data[a..a + n][x..x + m] == data[a + x..a + x + m]
  {
    var l, r := data[a..a + n][x..x + m], data[a + x..a + x + m];
    assert forall j :: 0 <= j < m ==> l[j] == data[a + x + j] && r[j] == data[a + x + j];
  }

  lemma TypedSliceAt(data: Bytes, from: nat, n: nat, i: nat, byteSize: nat)
    requires i < n && byteSize > 0 && (from + n) * byteSize <= |data|
    ensures i * byteSize + byteSize <= n * byteSize
    ensures from * byteSize + n * byteSize <= |data|
    ensures (from + i) * byteSize + byteSize <= |data|
    ensures data[from * byteSize..from * byteSize + n * byteSize][i * byteSize..i * byteSize + byteSize]
         == data[(from + i) * byteSize..(from + i) * byteSize + byteSize]
  {
    SlabInside(i, n, byteSize);
    assert (from + i) * byteSize == from * byteSize + i * byteSize;
    assert (from + n) * byteSize == from * byteSize + n * byteSize;
    SliceOfSlice(data, from * byteSize, n * byteSize, i * byteSize, byteSize);
  }

  /** What an absent chunk reads as; a fresh typed array is zeroed. */
  function FillOf(arr: ZarrArray): Elem {
    match arr.fill
    case None => seq(arr.byteSize, _ => 0 as byte)
    case Some(v) => v
  }

  // ------------------------------------------------------- the logical array

  ghost function ChunkOf(arr: ZarrArray, idx: Vec): (coord: Vec)
    requires ValidArray(arr) && |idx| == |arr.chunks|
    ensures |coord| == |idx|
  {
    seq(|idx|, d requires 0 <= d < |idx| => idx[d] / arr.chunks[d])
  }

  ghost function LocalOf(arr: ZarrArray, idx: Vec): (local: Vec)
    requires ValidArray(arr) && |idx| == |arr.chunks|
    ensures InBounds(local, arr.chunks)
  {
    seq(|idx|, d requires 0 <= d < |idx| => idx[d] % arr.chunks[d])
  }

  ghost function ChunkStrides(arr: ZarrArray): (strides: Vec)
    ensures |strides| == |arr.chunks|
  {
    match arr.order
    case OrderC => CStridesOf(arr.chunks)
    case OrderF => FStridesFrom(arr.chunks, 1)
  }

  /** Every in-chunk position lies inside the stored chunk, in either order. */
  lemma ChunkOffsetBelow(arr: ZarrArray, local: Vec)
    requires ValidArray(arr) && InBounds(local, arr.chunks)
    ensures Dot(local, ChunkStrides(arr)) < Prod(arr.chunks)
  {
    match arr.order
    case OrderC =>
      DotCStrides(local, arr.chunks);
      RavelBelow(local, arr.chunks);
    case OrderF =>
      DotFStridesFrom(local, arr.chunks, 1);
      ColRankBelow(local, arr.chunks);
  }

  ghost function ChunkElems(arr: ZarrArray, store: Store, coord: Vec): seq<Elem>
    requires ValidArray(arr) && KeyOf(arr, coord) in store
  {
    TypedChunk(DecodeRaw(arr.codec, store[KeyOf(arr, coord)]), arr.byteSize, arr.bigEndian)
  }

  lemma ChunkElemsLength(arr: ZarrArray, store: Store, coord: Vec)
    requires ValidArray(arr) && ValidStore(arr, store)
    requires |coord| == |arr.chunks| && KeyOf(arr, coord) in store
    ensures |ChunkElems(arr, store, coord)| == Prod(arr.chunks)
  {
    DivModUnique(Prod(arr.chunks) * arr.byteSize, Prod(arr.chunks), 0, arr.byteSize);
  }

  /** The array value at an index: its chunk's element, or the fill value where the chunk is missing. */
  ghost function Logical(arr: ZarrArray, store: Store, idx: Vec): Elem
    requires ValidArray(arr) && ValidStore(arr, store) && |idx| == |arr.chunks|
  {
    var coord := ChunkOf(arr, idx);
    if KeyOf(arr, coord) in store then
      ChunkElemsLength(arr, store, coord);
      ChunkOffsetBelow(arr, LocalOf(arr, idx));
      ChunkElems(arr, store, coord)[Dot(LocalOf(arr, idx), ChunkStrides(arr))]
    else FillOf(arr)
  }

  // -------------------------------------------------------------- selections

  ghost predicate ValidRanges(arr: ZarrArray, ranges: seq<DimRange>) {
    && |ranges| == |arr.shape|
    && forall d :: 0 <= d < |ranges| ==> ranges[d].start < ranges[d].stop <= arr.shape[d]
  }

  function RangeSize(r: DimRange): nat {
    if r.start <= r.stop then r.stop - r.start else 0
  }

  function OutShape(ranges: seq<DimRange>): (s: Vec)
    ensures |s| == |ranges|
  {
    seq(|ranges|, d requires 0 <= d < |ranges| => RangeSize(ranges[d]))
  }

  /** Array index of output position `o`. */
  ghost function Global(ranges: seq<DimRange>, o: Vec): (idx: Vec)
    requires |o| == |ranges|
    ensures |idx| == |o|
  {
    seq(|o|, d requires 0 <= d < |o| => ranges[d].start + o[d])
  }

  /** The one-line specification of a read: the logical array over the selection, row-major. */
  ghost function ReadSpec(arr: ZarrArray, store: Store, ranges: seq<DimRange>): (out: seq<Elem>)
    requires ValidArray(arr) && ValidStore(arr, store) && ValidRanges(arr, ranges)
    ensures |out| == Prod(OutShape(ranges))
  {
    seq(Prod(OutShape(ranges)), k requires 0 <= k < Prod(OutShape(ranges)) =>
      Logical(arr, store, Global(ranges, Unravel(k, OutShape(ranges)))))
  }

  /** Read back by index: the output cell of `o` is the logical element at the selection start plus `o`. */
  lemma ReadSpecAt(arr: ZarrArray, store: Store, ranges: seq<DimRange>, o: Vec)
    requires ValidArray(arr) && ValidStore(arr, store) && ValidRanges(arr, ranges)
    requires InBounds(o, OutShape(ranges))
    ensures Ravel(o, OutShape(ranges)) < |ReadSpec(arr, store, ranges)|
    ensures ReadSpec(arr, store, ranges)[Ravel(o, OutShape(ranges))] == Logical(arr, store, Global(ranges, o))
  {
    UnravelRavel(o, OutShape(ranges));
  }
}
