/**
 What a read must return, from the stored bytes up: which bytes of which chunk an element is, and
 which element each output cell holds.
 */
module ArrayMeaning {
  import opened Vectors
  import opened ChunkIndexing
  import opened ArrayModel

  // -------------------------------------------------------------- one element

  /** The index is position `local` of chunk `coord`. */
  ghost predicate InChunk(arr: ZarrArray, idx: Vec, coord: Vec, local: Vec) {
    && |idx| == |coord| == |local| == |arr.chunks|
    && forall d :: 0 <= d < |idx| ==> local[d] < arr.chunks[d] && idx[d] == coord[d] * arr.chunks[d] + local[d]
  }

  /** Where a chunk is kept: its indices under the array's path. */
  ghost function StoreKey(arr: ZarrArray, coord: Vec): string {
    (if arr.basePath == "" then "" else arr.basePath + "/") + ChunkKey(coord, arr.separator)
  }

  /** The element at rank `rank` of these bytes, least significant byte first. */
  ghost predicate ElementAt(e: Elem, data: Bytes, rank: nat, byteSize: nat, bigEndian: bool) {
    && |e| == byteSize && rank * byteSize + byteSize <= |data|
    && forall k :: 0 <= k < byteSize ==> e[k] == data[rank * byteSize + if bigEndian then byteSize - 1 - k else k]
  }

  /** Position in a stored chunk: last dimension fastest in C order, first dimension fastest in F order. */
  ghost function RankInChunk(arr: ZarrArray, local: Vec): nat
    requires |local| == |arr.chunks|
  {
    match arr.order
    case OrderC => Ravel(local, arr.chunks)
    case OrderF => Ravel(Reverse(local), Reverse(arr.chunks))
  }

  /** The value of a chunk's element, or the fill value, zero if none is set, where the chunk is missing. */
  ghost predicate HoldsElement(arr: ZarrArray, store: Store, coord: Vec, local: Vec, e: Elem)
    requires |local| == |arr.chunks|
  {
    if StoreKey(arr, coord) in store then
      var raw := store[StoreKey(arr, coord)];
      var data := match arr.codec case NoCodec => raw case Codec(decode) => decode(raw);
      ElementAt(e, data, RankInChunk(arr, local), arr.byteSize, arr.bigEndian)
    else if arr.fill.Some? then e == arr.fill.value
    else |e| == arr.byteSize && forall k :: 0 <= k < |e| ==> e[k] == 0
  }

  /** `e` is the array's value at an index. */
  ghost predicate IsElement(arr: ZarrArray, store: Store, idx: Vec, e: Elem) {
    exists coord: Vec, local: Vec :: InChunk(arr, idx, coord, local) && HoldsElement(arr, store, coord, local, e)
  }

  lemma OffsetIsRank(arr: ZarrArray, local: Vec)
    requires |local| == |arr.chunks|
    ensures Dot(local, ChunkStrides(arr)) == RankInChunk(arr, local)
  {
    DotCStrides(local, arr.chunks);
    DotFStrides(local, arr.chunks);
  }

  lemma KeysAgree(arr: ZarrArray, coord: Vec)
    ensures KeyOf(arr, coord) == StoreKey(arr, coord)
  {
    assert "" + ChunkKey(coord, arr.separator) == ChunkKey(coord, arr.separator);
  }

  lemma TypedElement(data: Bytes, rank: nat, byteSize: nat, bigEndian: bool)
    requires byteSize > 0 && rank < |data| / byteSize
    ensures ElementAt(TypedChunk(data, byteSize, bigEndian)[rank], data, rank, byteSize, bigEndian)
  {
    WithinBytes(rank, |data|, byteSize);
    var e := data[rank * byteSize..rank * byteSize + byteSize];
    forall k | 0 <= k < byteSize ensures Reverse(e)[k] == e[byteSize - 1 - k] {
      ReverseAt(e, k);
    }
  }

  lemma ChunkAndLocal(arr: ZarrArray, idx: Vec)
    requires ValidArray(arr) && |idx| == |arr.chunks|
    ensures InChunk(arr, idx, ChunkOf(arr, idx), LocalOf(arr, idx))
  {
    forall d | 0 <= d < |idx|
      ensures LocalOf(arr, idx)[d] < arr.chunks[d] && idx[d] == ChunkOf(arr, idx)[d] * arr.chunks[d] + LocalOf(arr, idx)[d]
    {
      assert idx[d] == idx[d] / arr.chunks[d] * arr.chunks[d] + idx[d] % arr.chunks[d];
    }
  }

  lemma LogicalHolds(arr: ZarrArray, store: Store, idx: Vec)
    requires ValidArray(arr) && ValidStore(arr, store) && |idx| == |arr.chunks|
    ensures HoldsElement(arr, store, ChunkOf(arr, idx), LocalOf(arr, idx), Logical(arr, store, idx))
  {
    hide ValidStore, TypedChunk;
    var coord, local := ChunkOf(arr, idx), LocalOf(arr, idx);
    KeysAgree(arr, coord);
    if KeyOf(arr, coord) in store {
      ChunkElemsLength(arr, store, coord);
      ChunkOffsetBelow(arr, local);
      OffsetIsRank(arr, local);
      TypedElement(DecodeRaw(arr.codec, store[KeyOf(arr, coord)]), RankInChunk(arr, local), arr.byteSize, arr.bigEndian);
    }
  }

  /** The logical array holds, at every index, the element that the stored bytes give. */
  lemma LogicalIsElement(arr: ZarrArray, store: Store, idx: Vec)
    requires ValidArray(arr) && ValidStore(arr, store) && |idx| == |arr.chunks|
    ensures IsElement(arr, store, idx, Logical(arr, store, idx))
  {
    hide ValidStore, Logical, HoldsElement, InChunk, LocalOf;
    ChunkAndLocal(arr, idx);
    LogicalHolds(arr, store, idx);
  }

  lemma ChunkIsUnique(arr: ZarrArray, idx: Vec, a: Vec, p: Vec, b: Vec, q: Vec)
    requires InChunk(arr, idx, a, p) && InChunk(arr, idx, b, q)
    ensures a == b && p == q
  {
    forall d | 0 <= d < |idx| ensures a[d] == b[d] && p[d] == q[d] {
      DivModUnique(idx[d], a[d], p[d], arr.chunks[d]);
      DivModUnique(idx[d], b[d], q[d], arr.chunks[d]);
    }
  }

  /** An index has one value. */
  lemma ElementIsUnique(arr: ZarrArray, store: Store, idx: Vec, e: Elem, f: Elem)
    requires IsElement(arr, store, idx, e) && IsElement(arr, store, idx, f)
    ensures e == f
  {
    hide RankInChunk, StoreKey;
    var a: Vec, p: Vec :| InChunk(arr, idx, a, p) && HoldsElement(arr, store, a, p, e);
    var b: Vec, q: Vec :| InChunk(arr, idx, b, q) && HoldsElement(arr, store, b, q, f);
    ChunkIsUnique(arr, idx, a, p, b, q);
  }

  // --------------------------------------------------------------- the output

  /** How many indices a selection of one dimension covers, and the first of them. */
  ghost function Width(sel: SliceElement, extent: nat): nat {
    match sel
    case All => extent
    case At(_) => 1
    case Between(lo, hi) => if lo <= hi then hi - lo else 0
  }

  ghost function First(sel: SliceElement): nat {
    match sel
    case All => 0
    case At(i) => i
    case Between(lo, _) => lo
  }

  ghost function Widths(selection: Selection, shape: Vec): (w: Vec)
    requires |selection| == |shape|
    ensures |w| == |shape|
  {
    seq(|shape|, d requires 0 <= d < |shape| => Width(selection[d], shape[d]))
  }

  ghost function Selected(selection: Selection, o: Vec): (idx: Vec)
    requires |selection| == |o|
    ensures |idx| == |o|
  {
    seq(|o|, d requires 0 <= d < |o| => First(selection[d]) + o[d])
  }

  /** One cell of the output, row-major, is the array's value at the selected index. */
  ghost predicate CellHolds(arr: ZarrArray, store: Store, selection: Selection, output: seq<Elem>, o: Vec)
    requires |selection| == |arr.shape| == |o|
  {
    && Ravel(o, Widths(selection, arr.shape)) < |output|
    && IsElement(arr, store, Selected(selection, o), output[Ravel(o, Widths(selection, arr.shape))])
  }

  /** The output is the array over a selection. */
  ghost predicate HoldsSelection(arr: ZarrArray, store: Store, selection: Selection, output: seq<Elem>)
    requires |selection| == |arr.shape|
  {
    && |output| == Prod(Widths(selection, arr.shape))
    && forall o: Vec :: InBounds(o, Widths(selection, arr.shape)) ==> CellHolds(arr, store, selection, output, o)
  }

  /** The output is the whole array. */
  ghost predicate HoldsWhole(arr: ZarrArray, store: Store, output: seq<Elem>) {
    && |output| == Prod(arr.shape)
    && forall idx: Vec :: InBounds(idx, arr.shape) ==>
        Ravel(idx, arr.shape) < |output| && IsElement(arr, store, idx, output[Ravel(idx, arr.shape)])
  }

  /** The output is the array over the selection, or whole where there is none. */
  ghost predicate HoldsWanted(arr: ZarrArray, store: Store, selection: Option<Selection>, output: seq<Elem>)
    requires selection.Some? ==> |selection.value| == |arr.shape|
  {
    if selection.Some? then HoldsSelection(arr, store, selection.value, output) else HoldsWhole(arr, store, output)
  }

  lemma SelectionShape(arr: ZarrArray, selection: Selection)
    requires |selection| == |arr.shape|
    ensures OutShape(NormalizeSelection(selection, arr.shape)) == Widths(selection, arr.shape)
  {
  }

  lemma SelectionIndex(arr: ZarrArray, selection: Selection, o: Vec)
    requires |selection| == |arr.shape| == |o|
    ensures Global(NormalizeSelection(selection, arr.shape), o) == Selected(selection, o)
  {
  }

  /** The reference output holds the selection. */
  lemma SpecHoldsSelection(arr: ZarrArray, store: Store, selection: Selection)
    requires ValidArray(arr) && ValidStore(arr, store)
    requires |selection| == |arr.shape| && ValidRanges(arr, NormalizeSelection(selection, arr.shape))
    ensures HoldsSelection(arr, store, selection, ReadSpec(arr, store, NormalizeSelection(selection, arr.shape)))
  {
    hide ValidStore, Logical, IsElement, NormalizeSelection, OutShape, Widths, Selected, Global, ReadSpec;
    var ranges := NormalizeSelection(selection, arr.shape);
    var shape := Widths(selection, arr.shape);
    SelectionShape(arr, selection);
    forall o: Vec | InBounds(o, shape) ensures CellHolds(arr, store, selection, ReadSpec(arr, store, ranges), o) {
      ReadSpecAt(arr, store, ranges, o);
      SelectionIndex(arr, selection, o);
      LogicalIsElement(arr, store, Selected(selection, o));
    }
  }

  /** Two outputs that hold one selection are the same. */
  lemma SelectionIsUnique(arr: ZarrArray, store: Store, selection: Selection, a: seq<Elem>, b: seq<Elem>)
    requires |selection| == |arr.shape| && Positive(Widths(selection, arr.shape))
    requires HoldsSelection(arr, store, selection, a) && HoldsSelection(arr, store, selection, b)
    ensures a == b
  {
    hide IsElement, Widths, Selected;
    var shape := Widths(selection, arr.shape);
    forall k | 0 <= k < |a| ensures a[k] == b[k] {
      var o := Unravel(k, shape);
      RavelUnravel(k, shape);
      assert CellHolds(arr, store, selection, a, o) && CellHolds(arr, store, selection, b, o);
      ElementIsUnique(arr, store, Selected(selection, o), a[k], b[k]);
    }
  }
}
