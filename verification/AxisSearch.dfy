/** Index ranges on a monotone coordinate axis: the binary searches and the cell footprints. */
module AxisSearch {
  import opened Segments

  type Axis = seq<real>

  ghost predicate Ascending(axis: Axis) {
    forall i, j :: 0 <= i <= j < |axis| ==> axis[i] <= axis[j]
  }

  ghost predicate Descending(axis: Axis) {
    forall i, j :: 0 <= i <= j < |axis| ==> axis[i] >= axis[j]
  }

  ghost predicate Monotone(axis: Axis) {
    Ascending(axis) || Descending(axis)
  }

  /** First index of an ascending axis with `axis[i] >= target`. */
  method LowerBoundAsc(axis: Axis, target: real) returns (lo: nat)
    requires Ascending(axis)
    ensures lo <= |axis|
    ensures forall i :: 0 <= i < |axis| ==> (axis[i] >= target <==> lo <= i)
  {
    lo := 0;
    var hi := |axis|;
    while lo < hi
      invariant lo <= hi <= |axis|
      invariant forall i :: 0 <= i < lo ==> axis[i] < target
      invariant forall i :: hi <= i < |axis| ==> axis[i] >= target
    {
      var mid := (lo + hi) / 2;
      if axis[mid] < target { lo := mid + 1; } else { hi := mid; }
    }
  }

  /** First index of an ascending axis with `axis[i] > target`. */
  method UpperBoundAsc(axis: Axis, target: real) returns (lo: nat)
    requires Ascending(axis)
    ensures lo <= |axis|
    ensures forall i :: 0 <= i < |axis| ==> (axis[i] > target <==> lo <= i)
  {
    lo := 0;
    var hi := |axis|;
    while lo < hi
      invariant lo <= hi <= |axis|
      invariant forall i :: 0 <= i < lo ==> axis[i] <= target
      invariant forall i :: hi <= i < |axis| ==> axis[i] > target
    {
      var mid := (lo + hi) / 2;
      if axis[mid] <= target { lo := mid + 1; } else { hi := mid; }
    }
  }

  /** First index of a descending axis with `axis[i] <= target`. */
  method LowerBoundDesc(axis: Axis, target: real) returns (lo: nat)
    requires Descending(axis)
    ensures lo <= |axis|
    ensures forall i :: 0 <= i < |axis| ==> (axis[i] <= target <==> lo <= i)
  {
    lo := 0;
    var hi := |axis|;
    while lo < hi
      invariant lo <= hi <= |axis|
      invariant forall i :: 0 <= i < lo ==> axis[i] > target
      invariant forall i :: hi <= i < |axis| ==> axis[i] <= target
    {
      var mid := (lo + hi) / 2;
      if axis[mid] > target { lo := mid + 1; } else { hi := mid; }
    }
  }

  /** First index of a descending axis with `axis[i] < target`. */
  method UpperBoundDesc(axis: Axis, target: real) returns (lo: nat)
    requires Descending(axis)
    ensures lo <= |axis|
    ensures forall i :: 0 <= i < |axis| ==> (axis[i] < target <==> lo <= i)
  {
    lo := 0;
    var hi := |axis|;
    while lo < hi
      invariant lo <= hi <= |axis|
      invariant forall i :: 0 <= i < lo ==> axis[i] >= target
      invariant forall i :: hi <= i < |axis| ==> axis[i] < target
    {
      var mid := (lo + hi) / 2;
      if axis[mid] >= target { lo := mid + 1; } else { hi := mid; }
    }
  }

  lemma DirectionFromEnds(axis: Axis)
    requires Monotone(axis) && axis != []
    ensures axis[|axis| - 1] >= axis[0] ==> Ascending(axis)
    ensures axis[|axis| - 1] < axis[0] ==> Descending(axis)
  {
    if Descending(axis) && axis[|axis| - 1] >= axis[0] {
      forall i, j | 0 <= i <= j < |axis| ensures axis[i] <= axis[j] {
        assert axis[0] >= axis[i] && axis[j] >= axis[|axis| - 1];
      }
    }
  }

  /** The indices whose coordinate lies in `[lo, hi]`, on an axis of either direction. */
  method AxisRange(axis: Axis, lo: real, hi: real) returns (start: nat, end: nat)
    requires Monotone(axis)
    ensures start <= end <= |axis|
    ensures forall i :: 0 <= i < |axis| ==> (lo <= axis[i] <= hi <==> start <= i < end)
  {
    var n := |axis|;
    if n == 0 {
      return 0, 0;
    }
    DirectionFromEnds(axis);
    var ascending := if n == 1 then true else axis[n - 1] >= axis[0];
    if ascending {
      start := LowerBoundAsc(axis, lo);
      end := UpperBoundAsc(axis, hi);
    } else {
      start := LowerBoundDesc(axis, hi);
      end := UpperBoundDesc(axis, lo);
    }
    if start >= end {
      start, end := 0, 0;
    }
  }

  // ------------------------------------------------------------- footprints

  /** Half-way to the neighbours, the one-sided step mirrored at either end. */
  function AxisCellSpan(axis: Axis, i: nat): (real, real)
    requires i < |axis|
  {
    var v, n := axis[i], |axis|;
    var lo := if i > 0 then (v + axis[i - 1]) / 2.0 else if n > 1 then v - (axis[1] - axis[0]) / 2.0 else v;
    var hi := if i < n - 1 then (v + axis[i + 1]) / 2.0 else if n > 1 then v + (axis[n - 1] - axis[n - 2]) / 2.0 else v;
    (MinR(lo, hi), MaxR(lo, hi))
  }

  /**
   The footprint of cell `i`: its ends are the midpoints to its neighbours; at either end of the axis
   the one midpoint is mirrored at the cell's coordinate, and a cell alone is a point.
   */
  ghost predicate IsSpan(axis: Axis, i: nat, lo: real, hi: real)
    requires i < |axis|
  {
    var n := |axis|;
    && lo <= hi
    && if n == 1 then lo == axis[0] == hi
       else if i == 0 then lo + hi == 2.0 * axis[0] && ((axis[0] + axis[1]) / 2.0 == lo || (axis[0] + axis[1]) / 2.0 == hi)
       else if i == n - 1 then
         lo + hi == 2.0 * axis[n - 1] && ((axis[n - 2] + axis[n - 1]) / 2.0 == lo || (axis[n - 2] + axis[n - 1]) / 2.0 == hi)
       else
         var before, after := (axis[i - 1] + axis[i]) / 2.0, (axis[i] + axis[i + 1]) / 2.0;
         (lo == before && hi == after) || (lo == after && hi == before)
  }

  /** What the reader computes is that footprint. */
  lemma SpanIsMidpoints(axis: Axis, i: nat)
    requires i < |axis|
    ensures IsSpan(axis, i, AxisCellSpan(axis, i).0, AxisCellSpan(axis, i).1)
  {
  }

  predicate SpanOverlaps(axis: Axis, i: nat, lo: real, hi: real)
    requires i < |axis|
  {
    AxisCellSpan(axis, i).1 >= lo && AxisCellSpan(axis, i).0 <= hi
  }

  /** On a monotone axis a footprint contains its center. */
  lemma SpanHoldsCenter(axis: Axis, i: nat)
    requires Monotone(axis) && i < |axis|
    ensures AxisCellSpan(axis, i).0 <= axis[i] <= AxisCellSpan(axis, i).1
  {
    var n := |axis|;
    if n > 1 {
      assert Ascending(axis) ==> axis[0] <= axis[1] && axis[n - 2] <= axis[n - 1];
      assert Descending(axis) ==> axis[0] >= axis[1] && axis[n - 2] >= axis[n - 1];
      if i > 0 {
        assert Ascending(axis) ==> axis[i - 1] <= axis[i];
        assert Descending(axis) ==> axis[i - 1] >= axis[i];
      }
      if i < n - 1 {
        assert Ascending(axis) ==> axis[i] <= axis[i + 1];
        assert Descending(axis) ==> axis[i] >= axis[i + 1];
      }
    }
  }

  /** Footprints of neighbours share an end: on a monotone axis they tile its extent. */
  lemma SpansTile(axis: Axis, i: nat)
    requires Monotone(axis) && i + 1 < |axis|
    ensures if Ascending(axis) then AxisCellSpan(axis, i).1 == AxisCellSpan(axis, i + 1).0
            else AxisCellSpan(axis, i).0 == AxisCellSpan(axis, i + 1).1
  {
    SpanHoldsCenter(axis, i);
    SpanHoldsCenter(axis, i + 1);
    assert Ascending(axis) ==> axis[i] <= axis[i + 1];
    assert Descending(axis) ==> axis[i] >= axis[i + 1];
    if i > 0 {
      assert Ascending(axis) ==> axis[i - 1] <= axis[i];
      assert Descending(axis) ==> axis[i - 1] >= axis[i];
    }
    if i + 2 < |axis| {
      assert Ascending(axis) ==> axis[i + 1] <= axis[i + 2];
      assert Descending(axis) ==> axis[i + 1] >= axis[i + 2];
    }
  }

  lemma SpanStep(axis: Axis, i: nat)
    requires Monotone(axis) && i + 1 < |axis|
    ensures if Ascending(axis)
            then AxisCellSpan(axis, i).0 <= AxisCellSpan(axis, i + 1).0 && AxisCellSpan(axis, i).1 <= AxisCellSpan(axis, i + 1).1
            else AxisCellSpan(axis, i).0 >= AxisCellSpan(axis, i + 1).0 && AxisCellSpan(axis, i).1 >= AxisCellSpan(axis, i + 1).1
  {
    SpansTile(axis, i);
    SpanHoldsCenter(axis, i);
    SpanHoldsCenter(axis, i + 1);
  }

  lemma {:induction false} SpansOrdered(axis: Axis, i: nat, j: nat)
    requires Monotone(axis) && i <= j < |axis|
    ensures if Ascending(axis)
            then AxisCellSpan(axis, i).0 <= AxisCellSpan(axis, j).0 && AxisCellSpan(axis, i).1 <= AxisCellSpan(axis, j).1
            else AxisCellSpan(axis, i).0 >= AxisCellSpan(axis, j).0 && AxisCellSpan(axis, i).1 >= AxisCellSpan(axis, j).1
    decreases j
  {
    hide AxisCellSpan;
    if i < j {
      SpansOrdered(axis, i, j - 1);
      SpanStep(axis, j - 1);
    }
  }

  /** On a monotone axis the footprints that overlap an interval form one run. */
  lemma OverlapsFormOneRun(axis: Axis, first: nat, i: nat, last: nat, lo: real, hi: real)
    requires Monotone(axis) && first <= i <= last < |axis|
    requires SpanOverlaps(axis, first, lo, hi) && SpanOverlaps(axis, last, lo, hi)
    ensures SpanOverlaps(axis, i, lo, hi)
  {
    hide AxisCellSpan;
    SpansOrdered(axis, first, i);
    SpansOrdered(axis, i, last);
  }

  /** The least index run that holds every footprint overlapping `[lo, hi]`. */
  method AxisFootprintRange(axis: Axis, lo: real, hi: real) returns (start: nat, end: nat)
    ensures start <= end <= |axis|
    ensures forall i :: 0 <= i < |axis| && SpanOverlaps(axis, i, lo, hi) ==> start <= i < end
    ensures start < end ==> SpanOverlaps(axis, start, lo, hi) && SpanOverlaps(axis, end - 1, lo, hi)
  {
    var first, last := -1, -1;
    var i := 0;
    while i < |axis|
      invariant 0 <= i <= |axis|
      invariant first < 0 ==> forall k :: 0 <= k < i ==> !SpanOverlaps(axis, k, lo, hi)
      invariant first >= 0 ==> first <= last < i && SpanOverlaps(axis, first, lo, hi) && SpanOverlaps(axis, last, lo, hi)
      invariant first >= 0 ==> forall k :: 0 <= k < i && SpanOverlaps(axis, k, lo, hi) ==> first <= k <= last
    {
      var span := AxisCellSpan(axis, i);
      if span.1 >= lo && span.0 <= hi {
        if first < 0 {
          first := i;
        }
        last := i;
      }
      i := i + 1;
    }
    if first < 0 {
      return 0, 0;
    }
    return first, last + 1;
  }
}
