/** Mixed-radix index arithmetic: row-major ranks of index vectors and their inverse. */
module Vectors {

  datatype Option<+T> = None | Some(value: T)

  type Vec = seq<nat>

  /** Number of cells in a box of the given shape. */
  function Prod(shape: Vec): nat {
    if shape == [] then 1 else shape[0] * Prod(shape[1..])
  }

  function Dot(a: Vec, b: Vec): nat
    requires |a| == |b|
  {
    if a == [] then 0 else a[0] * b[0] + Dot(a[1..], b[1..])
  }

  predicate Positive(shape: Vec) {
    forall d :: 0 <= d < |shape| ==> shape[d] > 0
  }

  predicate InBounds(idx: Vec, shape: Vec) {
    && |idx| == |shape|
    && forall d :: 0 <= d < |shape| ==> idx[d] < shape[d]
  }

  /** Row-major rank of an index vector: the reference meaning of a C-order offset. */
  function Ravel(idx: Vec, shape: Vec): nat
    requires |idx| == |shape|
  {
    if idx == [] then 0 else idx[0] * Prod(shape[1..]) + Ravel(idx[1..], shape[1..])
  }

  /** The index vector with row-major rank `k`. */
  function Unravel(k: nat, shape: Vec): (idx: Vec)
    requires Positive(shape) && k < Prod(shape)
    ensures InBounds(idx, shape)
  {
    if shape == [] then [] else
    var digit := LeadingDigit(k, shape);
    var rest := Unravel(digit.1, shape[1..]);
    ConsInBounds(digit.0, rest, shape);
    [digit.0] + rest
  }

  lemma ConsInBounds(q: nat, rest: Vec, shape: Vec)
    requires shape != [] && q < shape[0] && InBounds(rest, shape[1..])
    ensures InBounds([q] + rest, shape)
  {
  }

  /** The first coordinate of a rank, and the rank of the others. */
  function LeadingDigit(k: nat, shape: Vec): (digit: (nat, nat))
    requires Positive(shape) && shape != [] && k < Prod(shape)
    ensures digit.0 < shape[0] && digit.1 < Prod(shape[1..])
    ensures k == digit.0 * Prod(shape[1..]) + digit.1
  {
    var b := Prod(shape[1..]);
    ProdPositive(shape[1..]);
    DivBelow(k, b, shape[0]);
    (k / b, k % b)
  }

  lemma ProdPositive(shape: Vec)
    requires Positive(shape)
    ensures Prod(shape) > 0
  {
    if shape != [] {
      ProdPositive(shape[1..]);
    }
  }

  lemma MulMonotone(a: nat, b: nat, c: nat)
    requires a <= b
    ensures a * c <= b * c
  {
    assert b * c == a * c + (b - a) * c;
    assert (b - a) * c >= 0;
  }

  lemma SlabInside(q: nat, n: nat, b: nat)
    requires q < n
    ensures q * b + b <= n * b
  {
    assert n * b == q * b + b + (n - q - 1) * b;
    assert (n - q - 1) * b >= 0;
  }

  lemma DivModUnique(k: nat, q: nat, r: nat, b: nat)
    requires r < b && k == q * b + r
    ensures k / b == q && k % b == r
  {
    var q', r' := k / b, k % b;
    assert k == q' * b + r';
    if q' < q {
      SlabInside(q', q, b);
    } else if q' > q {
      SlabInside(q, q', b);
    }
  }

  lemma DivBelow(k: nat, b: nat, n: nat)
    requires b > 0 && k < n * b
    ensures k / b < n && k % b < b && k == k / b * b + k % b
  {
    var q := k / b;
    assert k == q * b + k % b;
    if q >= n {
      MulMonotone(n, q, b);
    }
  }

  /** Every in-bounds index has a rank inside the box. */
  lemma {:induction false} RavelBelow(idx: Vec, shape: Vec)
    requires InBounds(idx, shape)
    ensures Ravel(idx, shape) < Prod(shape)
  {
    if idx != [] {
      RavelBelow(idx[1..], shape[1..]);
      SlabInside(idx[0], shape[0], Prod(shape[1..]));
    }
  }

  lemma {:induction false} UnravelRavel(idx: Vec, shape: Vec)
    requires Positive(shape) && InBounds(idx, shape)
    ensures Ravel(idx, shape) < Prod(shape)
    ensures Unravel(Ravel(idx, shape), shape) == idx
  {
    RavelBelow(idx, shape);
    if idx != [] {
      RavelBelow(idx[1..], shape[1..]);
      DivModUnique(Ravel(idx, shape), idx[0], Ravel(idx[1..], shape[1..]), Prod(shape[1..]));
      UnravelRavel(idx[1..], shape[1..]);
    }
  }

  lemma {:induction false} RavelUnravel(k: nat, shape: Vec)
    requires Positive(shape) && k < Prod(shape)
    ensures Ravel(Unravel(k, shape), shape) == k
  {
    if shape != [] {
      var b := Prod(shape[1..]);
      ProdPositive(shape[1..]);
      DivBelow(k, b, shape[0]);
      RavelUnravel(k % b, shape[1..]);
    }
  }

  /** Changing one coordinate moves the rank by that coordinate's stride. */
  lemma {:induction false} RavelUpdate(idx: Vec, shape: Vec, d: nat, v: nat)
    requires |idx| == |shape| && d < |idx|
    ensures Ravel(idx[d := v], shape) + idx[d] * Prod(shape[d + 1..]) == Ravel(idx, shape) + v * Prod(shape[d + 1..])
  {
    if d > 0 {
      RavelUpdate(idx[1..], shape[1..], d - 1, v);
      assert idx[d := v][1..] == idx[1..][d - 1 := v];
      assert shape[1..][d..] == shape[d + 1..];
    } else {
      assert idx[0 := v][1..] == idx[1..];
    }
  }

  lemma {:induction false} RavelZero(shape: Vec)
    ensures Ravel(seq(|shape|, _ => 0), shape) == 0
  {
    if shape != [] {
      assert seq(|shape|, _ => 0)[1..] == seq(|shape| - 1, _ => 0);
      RavelZero(shape[1..]);
    }
  }

  lemma {:induction false} ProdSplit(shape: Vec, d: nat)
    requires d < |shape|
    ensures Prod(shape[d..]) == shape[d] * Prod(shape[d + 1..])
  {
    assert shape[d..][1..] == shape[d + 1..];
  }

  lemma {:induction false} ProdAppend(a: Vec, x: nat)
    ensures Prod(a + [x]) == Prod(a) * x
  {
    if a == [] {
      assert [] + [x] == [x];
      assert Prod([x]) == x * Prod([]);
    } else {
      assert (a + [x])[1..] == a[1..] + [x];
      ProdAppend(a[1..], x);
      assert a[0] * (Prod(a[1..]) * x) == a[0] * Prod(a[1..]) * x;
    }
  }

  function Reverse<T>(s: seq<T>): (r: seq<T>)
    ensures |r| == |s|
  {
    if s == [] then [] else Reverse(s[1..]) + [s[0]]
  }

  lemma {:induction false} ReverseAt<T>(s: seq<T>, k: nat)
    requires k < |s|
    ensures Reverse(s)[k] == s[|s| - 1 - k]
  {
    if k < |s| - 1 {
      ReverseAt(s[1..], k);
    }
  }

  // ---------------------------------------------------------------- repetition

  predicate Distinct(s: seq<nat>) {
    forall i, j :: 0 <= i < j < |s| ==> s[i] != s[j]
  }

  lemma DistinctHead(s: seq<nat>)
    requires Distinct(s) && s != []
    ensures Distinct(s[1..]) && s[0] !in s[1..] && s[0] in s
    ensures forall x :: x in s <==> x == s[0] || x in s[1..]
  {
    assert s == [s[0]] + s[1..];
    assert forall i :: 0 <= i < |s| - 1 ==> s[1..][i] == s[i + 1];
  }

  lemma {:induction false} DistinctCount(s: seq<nat>, x: nat)
    requires Distinct(s)
    ensures multiset(s)[x] == if x in s then 1 else 0
  {
    if s != [] {
      DistinctHead(s);
      assert s == [s[0]] + s[1..];
      DistinctCount(s[1..], x);
    }
  }

  // ---------------------------------------------------------------------- sums

  function Sum(s: seq<nat>): nat {
    if s == [] then 0 else s[0] + Sum(s[1..])
  }

  lemma {:induction false} SumUpdate(s: seq<nat>, j: nat, v: nat)
    requires j < |s|
    ensures Sum(s[j := v]) + s[j] == Sum(s) + v
  {
    if j == 0 {
      assert s[j := v][1..] == s[1..];
    } else {
      SumUpdate(s[1..], j - 1, v);
      assert s[j := v][1..] == s[1..][j - 1 := v];
    }
  }

  lemma {:induction false} SumZero(s: seq<nat>)
    requires forall j :: 0 <= j < |s| ==> s[j] == 0
    ensures Sum(s) == 0
  {
    if s != [] {
      SumZero(s[1..]);
    }
  }

  lemma {:induction false} SumAtLeast(s: seq<nat>, j: nat)
    requires j < |s|
    ensures s[j] <= Sum(s)
  {
    if j > 0 {
      SumAtLeast(s[1..], j - 1);
    }
  }

  lemma {:induction false} SumMonotone(a: seq<nat>, b: seq<nat>)
    requires |a| == |b| && forall j :: 0 <= j < |a| ==> a[j] <= b[j]
    ensures Sum(a) <= Sum(b)
  {
    if a != [] {
      SumMonotone(a[1..], b[1..]);
    }
  }

  lemma {:induction false} SumConcat(a: seq<nat>, b: seq<nat>)
    ensures Sum(a + b) == Sum(a) + Sum(b)
  {
    if a == [] {
      assert a + b == b;
    } else {
      SumConcat(a[1..], b);
      assert (a + b)[1..] == a[1..] + b;
    }
  }

  lemma {:induction false} SumAppend(a: seq<nat>, x: nat)
    ensures Sum(a + [x]) == Sum(a) + x
  {
    if a == [] {
      assert a + [x] == [x];
    } else {
      SumAppend(a[1..], x);
      assert (a + [x])[1..] == a[1..] + [x];
    }
  }
}
