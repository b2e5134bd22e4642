/** Chunk grids, chunk keys, the coordinate odometer and the two stride orders (src/chunk/indexing.ts). */
module ChunkIndexing {
  import opened Vectors

  // ---------------------------------------------------------------- strides

  ghost function CStridesOf(shape: Vec): (s: Vec)
    ensures |s| == |shape|
  {
    if shape == [] then [] else [Prod(shape[1..])] + CStridesOf(shape[1..])
  }

  ghost function FStridesFrom(shape: Vec, base: nat): (s: Vec)
    ensures |s| == |shape|
  {
    if shape == [] then [] else [base] + FStridesFrom(shape[1..], base * shape[0])
  }

  lemma CStridesAt(shape: Vec, d: nat)
    requires d < |shape|
    ensures CStridesOf(shape)[d] == Prod(shape[d + 1..])
  {
    if d > 0 {
      CStridesAt(shape[1..], d - 1);
      assert shape[1..][d..] == shape[d + 1..];
    }
  }

  lemma ProductShifts(a: nat, b: nat, c: nat)
    ensures a * b * c == a * (b * c)
  {
  }

  lemma {:induction false} FStridesAt(shape: Vec, base: nat, d: nat)
    requires d < |shape|
    ensures FStridesFrom(shape, base)[d] == base * Prod(shape[..d])
  {
    if d > 0 {
      var x, before := shape[0], Prod(shape[1..][..d - 1]);
      FStridesAt(shape[1..], base * x, d - 1);
      assert shape[..d][1..] == shape[1..][..d - 1];
      ProductShifts(base, x, before);
    }
  }

  method CStrides(shape: Vec) returns (strides: Vec)
    ensures strides == CStridesOf(shape)
  {
    var ndim := |shape|;
    strides := seq(ndim, _ => 0);
    if ndim == 0 {
      return;
    }
    strides := strides[ndim - 1 := 1];
    var d := ndim - 2;
    while d >= 0
      invariant -1 <= d <= ndim - 2 && |strides| == ndim
      invariant forall e :: d < e < ndim ==> strides[e] == Prod(shape[e + 1..])
    {
      ProdSplit(shape, d + 1);
      strides := strides[d := strides[d + 1] * shape[d + 1]];
      d := d - 1;
    }
    forall e | 0 <= e < ndim ensures strides[e] == CStridesOf(shape)[e] {
      CStridesAt(shape, e);
    }
  }

  method FStrides(shape: Vec) returns (strides: Vec)
    ensures strides == FStridesFrom(shape, 1)
  {
    var ndim := |shape|;
    strides := seq(ndim, _ => 0);
    if ndim == 0 {
      return;
    }
    strides := strides[0 := 1];
    var d := 1;
    while d < ndim
      invariant 1 <= d <= ndim && |strides| == ndim
      invariant forall e :: 0 <= e < d ==> strides[e] == Prod(shape[..e])
    {
      assert shape[..d] == shape[..d - 1] + [shape[d - 1]];
      ProdAppend(shape[..d - 1], shape[d - 1]);
      strides := strides[d := strides[d - 1] * shape[d - 1]];
      d := d + 1;
    }
    forall e | 0 <= e < ndim ensures strides[e] == FStridesFrom(shape, 1)[e] {
      FStridesAt(shape, 1, e);
    }
  }

  /** C strides address the row-major rank. */
  lemma {:induction false} DotCStrides(idx: Vec, shape: Vec)
    requires |idx| == |shape|
    ensures Dot(idx, CStridesOf(shape)) == Ravel(idx, shape)
  {
    if idx != [] {
      DotCStrides(idx[1..], shape[1..]);
      assert CStridesOf(shape)[1..] == CStridesOf(shape[1..]);
    }
  }

  /** Column-major rank, first coordinate fastest. */
  ghost function ColRank(idx: Vec, shape: Vec): nat
    requires |idx| == |shape|
  {
    if idx == [] then 0 else idx[0] + shape[0] * ColRank(idx[1..], shape[1..])
  }

  lemma {:induction false} DotFStridesFrom(idx: Vec, shape: Vec, base: nat)
    requires |idx| == |shape|
    ensures Dot(idx, FStridesFrom(shape, base)) == base * ColRank(idx, shape)
  {
    if idx != [] {
      DotFStridesFrom(idx[1..], shape[1..], base * shape[0]);
      assert FStridesFrom(shape, base)[1..] == FStridesFrom(shape[1..], base * shape[0]);
      var c := ColRank(idx[1..], shape[1..]);
      assert idx[0] * base + base * shape[0] * c == base * (idx[0] + shape[0] * c);
    } else {
      assert base * 0 == 0;
    }
  }

  lemma {:induction false} RavelAppend(a: Vec, x: nat, shape: Vec, n: nat)
    requires |a| == |shape|
    ensures Ravel(a + [x], shape + [n]) == Ravel(a, shape) * n + x
  {
    if a == [] {
      assert a + [x] == [x] && shape + [n] == [n];
      assert Ravel([x], [n]) == x * Prod([]) + Ravel([], []);
    } else {
      RavelAppend(a[1..], x, shape[1..], n);
      assert (a + [x])[1..] == a[1..] + [x];
      assert (shape + [n])[1..] == shape[1..] + [n];
      ProdAppend(shape[1..], n);
      var p, r := Prod(shape[1..]), Ravel(a[1..], shape[1..]);
      assert a[0] * (p * n) + (r * n + x) == (a[0] * p + r) * n + x;
    }
  }

  /** F strides address the row-major rank of the reversed index in the reversed shape. */
  lemma {:induction false} DotFStrides(idx: Vec, shape: Vec)
    requires |idx| == |shape|
    ensures Dot(idx, FStridesFrom(shape, 1)) == Ravel(Reverse(idx), Reverse(shape))
  {
    DotFStridesFrom(idx, shape, 1);
    ColRankReversed(idx, shape);
  }

  lemma {:induction false} ColRankReversed(idx: Vec, shape: Vec)
    requires |idx| == |shape|
    ensures ColRank(idx, shape) == Ravel(Reverse(idx), Reverse(shape))
  {
    if idx != [] {
      ColRankReversed(idx[1..], shape[1..]);
      RavelAppend(Reverse(idx[1..]), idx[0], Reverse(shape[1..]), shape[0]);
    }
  }

  lemma {:induction false} ColRankBelow(idx: Vec, shape: Vec)
    requires InBounds(idx, shape)
    ensures ColRank(idx, shape) < Prod(shape)
  {
    if idx != [] {
      ColRankBelow(idx[1..], shape[1..]);
      SlabInside(ColRank(idx[1..], shape[1..]), Prod(shape[1..]), shape[0]);
    }
  }

  // ------------------------------------------------------------- selections

  datatype DimRange = DimRange(start: nat, stop: nat)

  datatype SliceElement = All | At(index: nat) | Between(lo: nat, hi: nat)

  type Selection = seq<SliceElement>

  function NormalizeOne(sel: SliceElement, extent: nat): DimRange {
    match sel
    case All => DimRange(0, extent)
    case At(i) => DimRange(i, i + 1)
    case Between(lo, hi) => DimRange(lo, hi)
  }

  function NormalizeSelection(selection: Selection, shape: Vec): seq<DimRange>
    requires |selection| <= |shape|
  {
    seq(|selection|, d requires 0 <= d < |selection| => NormalizeOne(selection[d], shape[d]))
  }

  // ------------------------------------------------------------ chunk grids

  function Interval(lo: nat, hi: nat): seq<nat> {
    if hi <= lo then [] else seq(hi - lo, i requires 0 <= i => lo + i)
  }

  function CeilDiv(a: nat, b: nat): nat
    requires b > 0
  {
    (a + b - 1) / b
  }

  /** The ceiling is the least number of chunks that covers the extent. */
  lemma CeilDivLeast(a: nat, b: nat, n: nat)
    requires b > 0
    ensures a <= n * b <==> CeilDiv(a, b) <= n
  {
    var q, r := (a + b - 1) / b, (a + b - 1) % b;
    assert a + b - 1 == q * b + r;
    if n < q {
      SlabInside(n, q, b);
    } else {
      MulMonotone(q, n, b);
    }
  }

  method ComputeChunkRanges(shape: Vec, chunks: Vec) returns (ranges: seq<Vec>)
    requires |shape| == |chunks| && Positive(chunks)
    ensures |ranges| == |shape|
    ensures forall d :: 0 <= d < |shape| ==> ranges[d] == Interval(0, CeilDiv(shape[d], chunks[d]))
  {
    ranges := [];
    for d := 0 to |shape|
      invariant |ranges| == d
      invariant forall e :: 0 <= e < d ==> ranges[e] == Interval(0, CeilDiv(shape[e], chunks[e]))
    {
      var numChunks := CeilDiv(shape[d], chunks[d]);
      var range := [];
      for i := 0 to numChunks
        invariant range == Interval(0, i)
      {
        range := range + [i];
      }
      ranges := ranges + [range];
    }
  }

  ghost predicate NonEmptyRanges(ranges: seq<DimRange>) {
    forall d :: 0 <= d < |ranges| ==> ranges[d].start < ranges[d].stop
  }

  ghost function SliceChunkRange(r: DimRange, chunk: nat): Vec
    requires chunk > 0 && r.start < r.stop
  {
    Interval(r.start / chunk, (r.stop - 1) / chunk + 1)
  }

  method ComputeSliceChunkRanges(ranges: seq<DimRange>, chunks: Vec) returns (result: seq<Vec>)
    requires |ranges| == |chunks| && Positive(chunks) && NonEmptyRanges(ranges)
    ensures |result| == |ranges|
    ensures forall d :: 0 <= d < |ranges| ==> result[d] == SliceChunkRange(ranges[d], chunks[d])
  {
    result := [];
    for d := 0 to |ranges|
      invariant |result| == d
      invariant forall e :: 0 <= e < d ==> result[e] == SliceChunkRange(ranges[e], chunks[e])
    {
      var firstChunk := ranges[d].start / chunks[d];
      var lastChunk := (ranges[d].stop - 1) / chunks[d];
      DivMonotone(ranges[d].start, ranges[d].stop - 1, chunks[d]);
      var range := [];
      for i := firstChunk to lastChunk + 1
        invariant range == Interval(firstChunk, i)
      {
        range := range + [i];
      }
      result := result + [range];
    }
  }

  lemma DivMonotone(a: nat, b: nat, c: nat)
    requires a <= b && c > 0
    ensures a / c <= b / c
  {
    var p, q := a / c, b / c;
    assert a == p * c + a % c && b == q * c + b % c;
    if q < p {
      SlabInside(q, p, c);
    }
  }

  // ---------------------------------------------------------- the odometer

  function Lens(ranges: seq<Vec>): Vec {
    seq(|ranges|, d requires 0 <= d < |ranges| => |ranges[d]|)
  }

  function Pick(ranges: seq<Vec>, indices: Vec): Vec
    requires InBounds(indices, Lens(ranges))
  {
    seq(|ranges|, d requires 0 <= d < |ranges| => ranges[d][indices[d]])
  }

  /** The cartesian product of the ranges, in row-major order. */
  ghost function CoordsOf(ranges: seq<Vec>): (coords: seq<Vec>)
    requires Positive(Lens(ranges))
    ensures |coords| == Prod(Lens(ranges))
  {
    seq(Prod(Lens(ranges)), k requires 0 <= k < Prod(Lens(ranges)) => Pick(ranges, Unravel(k, Lens(ranges))))
  }

  /** One turn of the odometer: `Carried` holds the digits right of `d` at zero. */
  ghost predicate Carried(indices: Vec, maxes: Vec, d: int, k: nat) {
    && InBounds(indices, maxes)
    && -1 <= d < |maxes|
    && (forall e :: d < e < |maxes| ==> indices[e] == 0)
    && Ravel(indices, maxes) + Prod(maxes[d + 1..]) == k + 1
  }

  lemma CarryStop(indices: Vec, maxes: Vec, d: nat, k: nat)
    requires Carried(indices, maxes, d, k) && indices[d] + 1 < maxes[d]
    ensures InBounds(indices[d := indices[d] + 1], maxes)
    ensures Ravel(indices[d := indices[d] + 1], maxes) == k + 1
  {
    RavelUpdate(indices, maxes, d, indices[d] + 1);
    OneMore(indices[d], Prod(maxes[d + 1..]));
  }

  lemma OneMore(i: nat, p: nat)
    ensures (i + 1) * p == i * p + p
  {
  }

  lemma CarryOn(indices: Vec, maxes: Vec, d: nat, k: nat)
    requires Carried(indices, maxes, d, k) && indices[d] + 1 >= maxes[d]
    ensures Carried(indices[d := 0], maxes, d - 1, k)
  {
    RavelUpdate(indices, maxes, d, 0);
    ProdSplit(maxes, d);
    OneMore(indices[d], Prod(maxes[d + 1..]));
    assert indices[d] + 1 == maxes[d];
    assert maxes[d - 1 + 1..] == maxes[d..];
  }

  method Increment(maxes: Vec, indices: Vec, ghost k: nat) returns (next: Vec, d: int)
    requires Positive(maxes) && InBounds(indices, maxes) && Ravel(indices, maxes) == k
    ensures d < 0 ==> k + 1 == Prod(maxes)
    ensures d >= 0 ==> InBounds(next, maxes) && Ravel(next, maxes) == k + 1
  {
    next := indices;
    d := |maxes| - 1;
    assert maxes[d + 1..] == [];
    while d >= 0
      invariant Carried(next, maxes, d, k)
      decreases d
    {
      var bumped := next[d] + 1;
      if bumped < maxes[d] {
        CarryStop(next, maxes, d, k);
        next := next[d := bumped];
        return;
      }
      CarryOn(next, maxes, d, k);
      next := next[d := 0];
      d := d - 1;
    }
    assert next == seq(|maxes|, _ => 0);
    RavelZero(maxes);
    assert maxes[0..] == maxes;
  }

  lemma NoDimensions(ranges: seq<Vec>)
    requires ranges == []
    ensures CoordsOf(ranges) == [[]]
  {
    assert Lens(ranges) == [] && Prod([]) == 1;
    assert CoordsOf(ranges)[0] == Pick(ranges, Unravel(0, Lens(ranges))) == [];
  }

  method AllChunkCoords(ranges: seq<Vec>) returns (coords: seq<Vec>)
    requires Positive(Lens(ranges))
    ensures coords == CoordsOf(ranges)
  {
    hide Prod, Ravel;
    var ndim := |ranges|;
    var maxes := Lens(ranges);
    coords := [];
    if ndim == 0 {
      NoDimensions(ranges);
      coords := [[]];
      return;
    }
    var indices := seq(ndim, _ => 0);
    RavelZero(maxes);
    ProdPositive(maxes);
    ghost var k := 0;
    while true
      invariant InBounds(indices, maxes) && Ravel(indices, maxes) == k < Prod(maxes)
      invariant coords == CoordsOf(ranges)[..k]
      decreases Prod(maxes) - k
    {
      UnravelRavel(indices, maxes);
      coords := coords + [Pick(ranges, indices)];
      var next, d := Increment(maxes, indices, k);
      k := k + 1;
      if d < 0 {
        break;
      }
      indices := next;
      RavelBelow(indices, maxes);
    }
  }

  /** The odometer yields every coordinate of the product exactly once. */
  lemma {:induction false} CoordsEnumerateProduct(ranges: seq<Vec>, indices: Vec, k: nat)
    requires Positive(Lens(ranges)) && InBounds(indices, Lens(ranges))
    requires k < Prod(Lens(ranges))
    requires forall d, i, j :: 0 <= d < |ranges| && 0 <= i < j < |ranges[d]| ==> ranges[d][i] != ranges[d][j]
    ensures CoordsOf(ranges)[k] == Pick(ranges, indices) <==> k == Ravel(indices, Lens(ranges))
  {
    var lens := Lens(ranges);
    UnravelRavel(indices, lens);
    RavelUnravel(k, lens);
    var other := Unravel(k, lens);
    if Pick(ranges, other) == Pick(ranges, indices) {
      forall d | 0 <= d < |ranges| ensures other[d] == indices[d] {
        assert Pick(ranges, other)[d] == ranges[d][other[d]];
        assert Pick(ranges, indices)[d] == ranges[d][indices[d]];
      }
      assert other == indices;
    }
  }

  // ------------------------------------------------------------- chunk keys

  function Digit(d: nat): char
    requires d < 10
  {
    ['0', '1', '2', '3', '4', '5', '6', '7', '8', '9'][d]
  }

  function Decimal(n: nat): string {
    if n < 10 then [Digit(n)] else Decimal(n / 10) + [Digit(n % 10)]
  }

  /** Join the chunk indices with the dimension separator. */
  function ChunkKey(indices: Vec, separator: char): string {
    if indices == [] then ""
    else if |indices| == 1 then Decimal(indices[0])
    else Decimal(indices[0]) + [separator] + ChunkKey(indices[1..], separator)
  }

  /** Read a key back: runs of decimal digits between separators. */
  ghost function ParseKey(key: string, acc: nat, separator: char): Vec {
    if key == [] then [acc]
    else if key[0] == separator then [acc] + ParseKey(key[1..], 0, separator)
    else if '0' <= key[0] <= '9' then ParseKey(key[1..], acc * 10 + (key[0] as int - '0' as int), separator)
    else []
  }

  lemma ParseDigit(d: nat, rest: string, acc: nat, separator: char)
    requires d < 10 && (separator == '.' || separator == '/')
    ensures ParseKey([Digit(d)] + rest, acc, separator) == ParseKey(rest, acc * 10 + d, separator)
  {
    var key := [Digit(d)] + rest;
    assert key[0] == Digit(d) && key[1..] == rest;
  }

  lemma {:induction false} ParseDecimal(n: nat, rest: string, separator: char)
    requires separator == '.' || separator == '/'
    ensures ParseKey(Decimal(n) + rest, 0, separator) == ParseKey(rest, n, separator)
  {
    if n < 10 {
      ParseDigit(n, rest, 0, separator);
    } else {
      var tail := [Digit(n % 10)] + rest;
      assert Decimal(n) + rest == Decimal(n / 10) + tail;
      ParseDecimal(n / 10, tail, separator);
      ParseDigit(n % 10, rest, n / 10, separator);
    }
  }

  /** No leading zeros: only zero itself begins with one. */
  lemma {:induction false} DecimalIsCanonical(n: nat)
    ensures Decimal(n) != "" && (Decimal(n)[0] == '0' <==> n == 0) && (n == 0 ==> Decimal(n) == "0")
  {
    if n >= 10 {
      DecimalIsCanonical(n / 10);
    }
  }

  /** A chunk key is its indices in decimal, joined by the separator, and can be read back. */
  lemma {:induction false} ChunkKeyRoundTrip(indices: Vec, separator: char)
    requires indices != [] && (separator == '.' || separator == '/')
    ensures ParseKey(ChunkKey(indices, separator), 0, separator) == indices
  {
    var head := Decimal(indices[0]);
    if |indices| == 1 {
      assert head + "" == head;
      ParseDecimal(indices[0], "", separator);
    } else {
      var rest := [separator] + ChunkKey(indices[1..], separator);
      assert head + [separator] + ChunkKey(indices[1..], separator) == head + rest;
      ParseDecimal(indices[0], rest, separator);
      ChunkKeyRoundTrip(indices[1..], separator);
    }
  }

  lemma ChunkKeyInjective(a: Vec, b: Vec, separator: char)
    requires a != [] && b != [] && (separator == '.' || separator == '/')
    requires ChunkKey(a, separator) == ChunkKey(b, separator)
    ensures a == b
  {
    ChunkKeyRoundTrip(a, separator);
    ChunkKeyRoundTrip(b, separator);
  }
}
