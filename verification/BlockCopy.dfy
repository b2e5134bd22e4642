/**
 The recursive copy loops of src/array.ts on plain sequences: which output cells one copy
 writes and which source element each of them gets.
 */
module BlockCopy {
  import opened Vectors
  import opened ChunkIndexing

  /**
   One dimension of a copy: the output has `n` positions, positions `lo <= q < hi` are written,
   and position `q` reads source coordinate `src + (q - lo)`, which lies `stride` elements apart.
   */
  datatype Axis = Axis(n: nat, lo: nat, hi: nat, src: nat, stride: nat)

  ghost predicate ValidAxes(axes: seq<Axis>) {
    forall d :: 0 <= d < |axes| ==> axes[d].lo < axes[d].hi <= axes[d].n
  }

  ghost function Extents(axes: seq<Axis>): (s: Vec)
    ensures |s| == |axes|
  {
    seq(|axes|, d requires 0 <= d < |axes| => axes[d].n)
  }

  /** Source coordinate read by output position `q`. */
  ghost function SrcCoord(a: Axis, q: nat): nat {
    if a.lo <= q then a.src + (q - a.lo) else 0
  }

  /** Cells in the output block spanned by these axes. */
  ghost function Block(axes: seq<Axis>): nat {
    if axes == [] then 1 else axes[0].n * Block(axes[1..])
  }

  /** Source offset of output cell `k` of the block, if the copy writes that cell. */
  ghost function SrcOf(axes: seq<Axis>, k: nat): Option<nat> {
    if axes == [] then Some(0)
    else if Block(axes[1..]) == 0 then None
    else
      var a, b := axes[0], Block(axes[1..]);
      if a.lo <= k / b < a.hi then
        match SrcOf(axes[1..], k % b)
        case None => None
        case Some(s) => Some(SrcCoord(a, k / b) * a.stride + s)
      else None
  }

  /** Largest source offset a copy reads. */
  ghost function Top(axes: seq<Axis>): nat
    requires ValidAxes(axes)
  {
    if axes == [] then 0
    else SrcCoord(axes[0], axes[0].hi - 1) * axes[0].stride + Top(axes[1..])
  }

  ghost function Cell<T>(axes: seq<Axis>, k: nat, data: seq<T>, base: nat, before: T): T {
    match SrcOf(axes, k)
    case None => before
    case Some(s) => if base + s < |data| then data[base + s] else before
  }

  /** `after` is `before` with the block at `at` overwritten by the copy. */
  ghost predicate Done<T>(axes: seq<Axis>, before: seq<T>, after: seq<T>, data: seq<T>, base: nat, at: nat) {
    && |after| == |before|
    && forall k :: 0 <= k < |before| ==>
        after[k] == if at <= k < at + Block(axes) then Cell(axes, k - at, data, base, before[k]) else before[k]
  }

  /** The first `upto` slabs of the block have been copied. */
  ghost predicate Copied<T>(axes: seq<Axis>, before: seq<T>, after: seq<T>, data: seq<T>, base: nat, at: nat, upto: nat)
    requires axes != [] && Block(axes[1..]) > 0
  {
    && |after| == |before|
    && forall k :: 0 <= k < |before| ==>
        after[k] == if at <= k < at + Block(axes) && (k - at) / Block(axes[1..]) < upto
                    then Cell(axes, k - at, data, base, before[k]) else before[k]
  }

  lemma BlockPositive(axes: seq<Axis>)
    requires ValidAxes(axes)
    ensures Block(axes) > 0
  {
    if axes != [] {
      BlockPositive(axes[1..]);
    }
  }

  lemma {:induction false} BlockIsProd(axes: seq<Axis>)
    ensures Block(axes) == Prod(Extents(axes))
  {
    if axes != [] {
      BlockIsProd(axes[1..]);
      assert Extents(axes)[1..] == Extents(axes[1..]);
    }
  }

  lemma CopyOne<T>(before: seq<T>, data: seq<T>, base: nat, at: nat)
    requires at < |before| && base < |data|
    ensures Done([], before, before[at := data[base]], data, base, at)
  {
  }

  lemma CopiedNone<T>(axes: seq<Axis>, before: seq<T>, data: seq<T>, base: nat, at: nat)
    requires axes != [] && Block(axes[1..]) > 0
    ensures Copied(axes, before, before, data, base, at, axes[0].lo)
  {
  }

  lemma SlabOf(k: nat, q: nat, b: nat)
    requires b > 0
    ensures k / b == q <==> q * b <= k < q * b + b
    ensures k / b == q ==> k % b == k - q * b
  {
    if q * b <= k < q * b + b {
      DivModUnique(k, q, k - q * b, b);
    }
  }

  lemma SlabCell<T>(axes: seq<Axis>, q: nat, r: nat, data: seq<T>, base: nat, before: T)
    requires axes != [] && r < Block(axes[1..])
    requires axes[0].lo <= q < axes[0].hi
    ensures Cell(axes, q * Block(axes[1..]) + r, data, base, before)
         == Cell(axes[1..], r, data, base + SrcCoord(axes[0], q) * axes[0].stride, before)
  {
    DivModUnique(q * Block(axes[1..]) + r, q, r, Block(axes[1..]));
  }

  /** Copying the slab at position `q` extends the copied prefix by one slab. */
  lemma CopiedStep<T>(axes: seq<Axis>, before: seq<T>, mid: seq<T>, after: seq<T>, data: seq<T>, base: nat, at: nat, q: nat)
    requires axes != [] && Block(axes[1..]) > 0
    requires axes[0].lo <= q < axes[0].hi <= axes[0].n
    requires Copied(axes, before, mid, data, base, at, q)
    requires Done(axes[1..], mid, after, data, base + SrcCoord(axes[0], q) * axes[0].stride, at + q * Block(axes[1..]))
    ensures Copied(axes, before, after, data, base, at, q + 1)
  {
    var b, whole := Block(axes[1..]), Block(axes);
    var slab := q * b;
    SlabInside(q, axes[0].n, b);
    forall k | 0 <= k < |before|
      ensures after[k] == if at <= k < at + whole && (k - at) / b < q + 1
                          then Cell(axes, k - at, data, base, before[k]) else before[k]
    {
      if at <= k < at + whole {
        SlabOf(k - at, q, b);
        if slab <= k - at < slab + b {
          SlabCell(axes, q, k - at - slab, data, base, before[k]);
          assert mid[k] == before[k];
        } else {
          assert after[k] == mid[k];
        }
      } else {
        assert after[k] == mid[k] == before[k];
      }
    }
  }

  lemma CopiedAll<T>(axes: seq<Axis>, before: seq<T>, after: seq<T>, data: seq<T>, base: nat, at: nat)
    requires axes != [] && Block(axes[1..]) > 0
    requires Copied(axes, before, after, data, base, at, axes[0].hi)
    ensures Done(axes, before, after, data, base, at)
  {
  }

  // ------------------------------------------------- the copy on index vectors

  ghost predicate InBox(axes: seq<Axis>, o: Vec)
    requires |o| == |axes|
  {
    forall d :: 0 <= d < |axes| ==> axes[d].lo <= o[d] < axes[d].hi
  }

  ghost function SrcIndex(axes: seq<Axis>, o: Vec): (s: Vec)
    requires |o| == |axes| && InBox(axes, o)
    ensures |s| == |axes|
  {
    seq(|axes|, d requires 0 <= d < |axes| => SrcCoord(axes[d], o[d]))
  }

  ghost function Strides(axes: seq<Axis>): (s: Vec)
    ensures |s| == |axes|
  {
    seq(|axes|, d requires 0 <= d < |axes| => axes[d].stride)
  }

  lemma SrcOfHead(axes: seq<Axis>, k: nat, q: nat, r: nat)
    requires axes != [] && r < Block(axes[1..]) && k == q * Block(axes[1..]) + r
    ensures SrcOf(axes, k) ==
            if axes[0].lo <= q < axes[0].hi && SrcOf(axes[1..], r).Some?
            then Some(SrcCoord(axes[0], q) * axes[0].stride + SrcOf(axes[1..], r).value) else None
  {
    DivModUnique(k, q, r, Block(axes[1..]));
  }

  lemma InBoxHead(axes: seq<Axis>, o: Vec)
    requires |o| == |axes| && axes != []
    ensures InBox(axes, o) <==> axes[0].lo <= o[0] < axes[0].hi && InBox(axes[1..], o[1..])
  {
    forall d | 1 <= d < |axes| ensures axes[d] == axes[1..][d - 1] && o[d] == o[1..][d - 1] {
    }
  }

  /** A copy writes exactly the box, and cell `o` gets the element at its source index. */
  lemma {:induction false} SrcOfRavel(axes: seq<Axis>, o: Vec)
    requires ValidAxes(axes) && InBounds(o, Extents(axes))
    ensures SrcOf(axes, Ravel(o, Extents(axes))) ==
            if InBox(axes, o) then Some(Dot(SrcIndex(axes, o), Strides(axes))) else None
  {
    hide SrcOf, InBox, Prod, Block;
    if axes == [] {
      NoAxes(axes, o);
    } else {
      var rest := axes[1..];
      var r := Ravel(o[1..], Extents(rest));
      assert Extents(axes)[1..] == Extents(rest);
      SrcOfRavel(rest, o[1..]);
      RavelBelow(o[1..], Extents(rest));
      BlockIsProd(rest);
      SrcOfHead(axes, Ravel(o, Extents(axes)), o[0], r);
      InBoxHead(axes, o);
      if InBox(axes, o) {
        assert SrcIndex(axes, o)[1..] == SrcIndex(rest, o[1..]);
        assert Strides(axes)[1..] == Strides(rest);
      }
    }
  }

  lemma NoAxes(axes: seq<Axis>, o: Vec)
    requires axes == [] && o == []
    ensures InBox(axes, o) && SrcOf(axes, Ravel(o, Extents(axes))) == Some(Dot(SrcIndex(axes, o), Strides(axes)))
  {
  }

  /** The index with the largest source offset. */
  ghost function LastIndex(axes: seq<Axis>): (s: Vec)
    requires ValidAxes(axes)
    ensures |s| == |axes|
  {
    seq(|axes|, d requires 0 <= d < |axes| => SrcCoord(axes[d], axes[d].hi - 1))
  }

  lemma {:induction false} TopIsLast(axes: seq<Axis>)
    requires ValidAxes(axes)
    ensures Top(axes) == Dot(LastIndex(axes), Strides(axes))
  {
    if axes != [] {
      TopIsLast(axes[1..]);
      assert LastIndex(axes)[1..] == LastIndex(axes[1..]);
      assert Strides(axes)[1..] == Strides(axes[1..]);
    }
  }
}
