/** Does the filled polygon overlap a rectangle? The corner, vertex and edge tests together are exact. */
module PolygonRect {
  import opened Segments
  import opened RayCast
  import opened EvenOddRegions

  datatype Rect = Rect(latLo: real, latHi: real, lonLo: real, lonHi: real)

  ghost predicate InRect(p: Point, r: Rect) {
    r.latLo <= p.y <= r.latHi && r.lonLo <= p.x <= r.lonHi
  }

  ghost predicate Proper(r: Rect) {
    r.latLo <= r.latHi && r.lonLo <= r.lonHi
  }

  function Corners(r: Rect): (c: seq<Point>)
    ensures |c| == 4
  {
    [Point(r.latLo, r.lonLo), Point(r.latLo, r.lonHi), Point(r.latHi, r.lonHi), Point(r.latHi, r.lonLo)]
  }

  ghost predicate OnRing(p: Point, ring: Ring) {
    exists k :: 0 <= k < |ring| && OnSegment(p, Previous(ring, k), ring[k])
  }

  /** The filled polygon: its even-odd interior together with its boundary. */
  ghost predicate InFilledPolygon(p: Point, ring: Ring) {
    Inside(p, ring) || OnRing(p, ring)
  }

  /** The closed rectangle and the filled polygon have a point in common. */
  ghost predicate RectMeetsPolygon(ring: Ring, r: Rect) {
    exists p: Point :: InRect(p, r) && InFilledPolygon(p, ring)
  }

  // ------------------------------------------------------------ convexity

  lemma LerpStays(a: real, b: real, t: real, lo: real, hi: real)
    requires 0.0 <= t <= 1.0 && lo <= a <= hi && lo <= b <= hi
    ensures lo <= a + t * (b - a) <= hi
  {
    LerpBetween(a, b, t);
  }

  lemma SegmentInRect(s: Point, p: Point, q: Point, r: Rect)
    requires OnSegment(s, p, q) && InRect(p, r) && InRect(q, r)
    ensures InRect(s, r)
  {
    var t :| 0.0 <= t <= 1.0 && s == Lerp(p, q, t);
    LerpStays(p.y, q.y, t, r.latLo, r.latHi);
    LerpStays(p.x, q.x, t, r.lonLo, r.lonHi);
  }

  lemma SubSegment(s: Point, p: Point, a: Point, b: Point)
    requires OnSegment(p, a, b) && OnSegment(s, p, a)
    ensures OnSegment(s, a, b)
  {
    hide Lerp;
    var t :| 0.0 <= t <= 1.0 && p == Lerp(a, b, t);
    var u :| 0.0 <= u <= 1.0 && s == Lerp(p, a, u);
    LerpEnds(a, b);
    LerpOfLerp(a, b, t, 0.0, u);
    LerpStays(t, 0.0, u, 0.0, 1.0);
  }

  // -------------------------------------- a segment that leaves the rectangle

  ghost function Along(p: real, a: real, t: real): real {
    p + t * (a - p)
  }

  /** Where a coordinate leaves `[lo, hi]` on its way from `p` inside to `a` outside. */
  lemma ExitTime(p: real, a: real, lo: real, hi: real) returns (t: real)
    requires lo <= p <= hi && !(lo <= a <= hi)
    ensures 0.0 <= t <= 1.0
    ensures Along(p, a, t) == lo || Along(p, a, t) == hi
  {
    t := Fraction((if a > hi then hi else lo) - p, a - p);
  }

  /** Until then it stays inside. */
  lemma BeforeExit(p: real, a: real, t: real, u: real, lo: real, hi: real)
    requires 0.0 <= u <= t && lo <= p <= hi && lo <= Along(p, a, t) <= hi
    ensures lo <= Along(p, a, u) <= hi
  {
    assert Along(p, a, t) == Along(p, a, u) + (t - u) * (a - p);
    if a >= p {
      MulNonNeg(u, a - p);
      MulNonNeg(t - u, a - p);
    } else {
      MulNonNeg(u, p - a);
      MulNonNeg(t - u, p - a);
      assert u * (p - a) == -(u * (a - p)) && (t - u) * (p - a) == -((t - u) * (a - p));
    }
  }

  /** A point of the rectangle on one of its four sides. */
  ghost predicate OnBorder(s: Point, r: Rect) {
    InRect(s, r) && (s.y == r.latLo || s.y == r.latHi || s.x == r.lonLo || s.x == r.lonHi)
  }

  /** The time at which a walk from inside the rectangle to outside it reaches the border. */
  lemma BorderTime(p: Point, a: Point, r: Rect) returns (t: real)
    requires InRect(p, r) && !InRect(a, r)
    ensures 0.0 <= t <= 1.0 && OnBorder(Point(Along(p.y, a.y, t), Along(p.x, a.x, t)), r)
  {
    hide Along;
    if r.latLo <= a.y <= r.latHi {
      t := ExitTime(p.x, a.x, r.lonLo, r.lonHi);
      WholeWay(p.y, a.y);
      BeforeExit(p.y, a.y, 1.0, t, r.latLo, r.latHi);
    } else if r.lonLo <= a.x <= r.lonHi {
      t := ExitTime(p.y, a.y, r.latLo, r.latHi);
      WholeWay(p.x, a.x);
      BeforeExit(p.x, a.x, 1.0, t, r.lonLo, r.lonHi);
    } else {
      var ty := ExitTime(p.y, a.y, r.latLo, r.latHi);
      var tx := ExitTime(p.x, a.x, r.lonLo, r.lonHi);
      t := MinR(ty, tx);
      BeforeExit(p.y, a.y, ty, t, r.latLo, r.latHi);
      BeforeExit(p.x, a.x, tx, t, r.lonLo, r.lonHi);
    }
  }

  lemma WholeWay(p: real, a: real)
    ensures Along(p, a, 1.0) == a
  {
  }

  /** The segment from a point of the rectangle to a point outside meets the border. */
  lemma ExitPoint(p: Point, a: Point, r: Rect) returns (s: Point)
    requires InRect(p, r) && !InRect(a, r)
    ensures OnSegment(s, p, a) && OnBorder(s, r)
  {
    var t := BorderTime(p, a, r);
    s := Point(Along(p.y, a.y, t), Along(p.x, a.x, t));
    assert s == Lerp(p, a, t);
  }

  lemma BorderSide(s: Point, r: Rect) returns (e: nat)
    requires OnBorder(s, r)
    ensures e < 4 && OnSegment(s, Corners(r)[e], Corners(r)[(e + 1) % 4])
  {
    e := if s.y == r.latLo then 0 else if s.x == r.lonHi then 1 else if s.y == r.latHi then 2 else 3;
    BoxToSegment(s, Corners(r)[e], Corners(r)[(e + 1) % 4]);
  }

  // ------------------------------------------------------------- the theorem

  ghost predicate NoCornerInside(ring: Ring, r: Rect) {
    forall m :: 0 <= m < 4 ==> !Inside(Corners(r)[m], ring)
  }

  ghost predicate NoVertexInRect(ring: Ring, r: Rect) {
    forall k :: 0 <= k < |ring| ==> !InRect(ring[k], r)
  }

  /** Ring edge `k` meets side `e` of the rectangle. */
  ghost predicate HitsSide(ring: Ring, r: Rect, k: nat, e: nat)
    requires k < |ring| && e < 4
  {
    SegmentsIntersect(Previous(ring, k), ring[k], Corners(r)[e], Corners(r)[(e + 1) % 4])
  }

  ghost predicate EdgeClearOfSides(ring: Ring, r: Rect, k: nat)
    requires k < |ring|
  {
    forall e :: 0 <= e < 4 ==> !HitsSide(ring, r, k, e)
  }

  /** An edge that reaches into the rectangle from a vertex outside meets one of its sides. */
  lemma EdgeHitsSide(ring: Ring, r: Rect, k: nat, p: Point) returns (e: nat)
    requires k < |ring| && OnSegment(p, Previous(ring, k), ring[k])
    requires InRect(p, r) && !InRect(Previous(ring, k), r)
    ensures e < 4 && HitsSide(ring, r, k, e)
  {
    hide SegmentsIntersect;
    var a, b := Previous(ring, k), ring[k];
    var s := ExitPoint(p, a, r);
    e := BorderSide(s, r);
    SubSegment(s, p, a, b);
    SegmentsIntersectExact(a, b, Corners(r)[e], Corners(r)[(e + 1) % 4]);
  }

  /** An edge with no end in the rectangle that meets none of its sides has no point in it. */
  lemma EdgeOutside(ring: Ring, r: Rect, k: nat, p: Point)
    requires k < |ring| && NoVertexInRect(ring, r) && EdgeClearOfSides(ring, r, k)
    requires OnSegment(p, Previous(ring, k), ring[k])
    ensures !InRect(p, r)
  {
    hide HitsSide;
    if InRect(p, r) {
      var e := EdgeHitsSide(ring, r, k, p);
    }
  }

  /** If all three tests fail, the rectangle is disjoint from the filled polygon. */
  lemma NothingMissed(ring: Ring, r: Rect)
    requires Proper(r) && NoCornerInside(ring, r) && NoVertexInRect(ring, r)
    requires forall k :: 0 <= k < |ring| ==> EdgeClearOfSides(ring, r, k)
    ensures !RectMeetsPolygon(ring, r)
  {
    hide EdgeClearOfSides, NoVertexInRect, Inside, OnSegment;
    forall p: Point | InRect(p, r) ensures !InFilledPolygon(p, ring) {
      forall k | 0 <= k < |ring| ensures !OnSegment(p, Previous(ring, k), ring[k]) {
        if OnSegment(p, Previous(ring, k), ring[k]) {
          EdgeOutside(ring, r, k, p);
        }
      }
      var corner := Corners(r)[0];
      ClearWalk(ring, r, p, corner);
      SameSideOfRing(ring, p, corner);
    }
  }

  /** No edge meets a walk inside the rectangle. */
  lemma ClearWalk(ring: Ring, r: Rect, p: Point, q: Point)
    requires InRect(p, r) && InRect(q, r) && NoVertexInRect(ring, r)
    requires forall k :: 0 <= k < |ring| ==> EdgeClearOfSides(ring, r, k)
    ensures !RingTouches(ring, p, q)
  {
    hide EdgeClearOfSides, NoVertexInRect, OnSegment;
    forall k | 0 <= k < |ring| ensures !Meet(Previous(ring, k), ring[k], p, q) {
      if Meet(Previous(ring, k), ring[k], p, q) {
        var s: Point :| OnSegment(s, Previous(ring, k), ring[k]) && OnSegment(s, p, q);
        SegmentInRect(s, p, q, r);
        EdgeOutside(ring, r, k, s);
      }
    }
  }

  lemma VertexOnRing(ring: Ring, k: nat)
    requires k < |ring|
    ensures OnRing(ring[k], ring)
  {
    EndpointsOnSegment(Previous(ring, k), ring[k]);
  }

  lemma SideCrossed(ring: Ring, r: Rect, k: nat, e: nat)
    requires Proper(r) && k < |ring| && e < 4
    requires HitsSide(ring, r, k, e)
    ensures RectMeetsPolygon(ring, r)
  {
    hide SegmentsIntersect, OnSegment;
    var c, d := Corners(r)[e], Corners(r)[(e + 1) % 4];
    SegmentsIntersectExact(Previous(ring, k), ring[k], c, d);
    var s: Point :| OnSegment(s, Previous(ring, k), ring[k]) && OnSegment(s, c, d);
    SegmentInRect(s, c, d, r);
  }

  lemma CornerInRect(r: Rect, m: nat)
    requires Proper(r) && m < 4
    ensures InRect(Corners(r)[m], r)
  {
  }

  method AnySideCrossed(ring: Ring, corners: seq<Point>, ghost r: Rect, i: nat, j: nat) returns (hit: bool)
    requires corners == Corners(r) && i < |ring| && j == (if i == 0 then |ring| - 1 else i - 1)
    requires Proper(r)
    ensures hit ==> RectMeetsPolygon(ring, r)
    ensures !hit ==> EdgeClearOfSides(ring, r, i)
  {
    hide SegmentsIntersect, RectMeetsPolygon;
    var e := 0;
    while e < 4
      invariant 0 <= e <= 4
      invariant forall c :: 0 <= c < e ==> !HitsSide(ring, r, i, c)
    {
      if SegmentsIntersect(ring[j], ring[i], corners[e], corners[(e + 1) % 4]) {
        SideCrossed(ring, r, i, e);
        return true;
      }
      e := e + 1;
    }
    return false;
  }

  method PolygonOverlapsRect(ring: Ring, latLo: real, latHi: real, lonLo: real, lonHi: real) returns (overlaps: bool)
    requires Proper(Rect(latLo, latHi, lonLo, lonHi))
    ensures overlaps <==> RectMeetsPolygon(ring, Rect(latLo, latHi, lonLo, lonHi))
  {
    hide Inside, OnSegment, EdgeClearOfSides, OnRing;
    var r := Rect(latLo, latHi, lonLo, lonHi);
    var corners := Corners(r);
    var m := 0;
    while m < 4
      invariant 0 <= m <= 4
      invariant forall c :: 0 <= c < m ==> !Inside(corners[c], ring)
    {
      var inside := PointInPolygon(corners[m].y, corners[m].x, ring);
      if inside {
        CornerInRect(r, m);
        assert InFilledPolygon(corners[m], ring);
        return true;
      }
      m := m + 1;
    }
    var k := 0;
    while k < |ring|
      invariant 0 <= k <= |ring|
      invariant forall c :: 0 <= c < k ==> !InRect(ring[c], r)
    {
      var v := ring[k];
      if v.y >= latLo && v.y <= latHi && v.x >= lonLo && v.x <= lonHi {
        VertexOnRing(ring, k);
        assert InRect(v, r) && InFilledPolygon(v, ring);
        return true;
      }
      k := k + 1;
    }
    var i, j := 0, |ring| - 1;
    while i < |ring|
      invariant 0 <= i <= |ring| && j == (if i == 0 then |ring| - 1 else i - 1)
      invariant forall c :: 0 <= c < i ==> EdgeClearOfSides(ring, r, c)
    {
      var hit := AnySideCrossed(ring, corners, r, i, j);
      if hit {
        return true;
      }
      j := i;
      i := i + 1;
    }
    NothingMissed(ring, r);
    return false;
  }

  // ------------------------------------------------- corners and edges suffice

  /** Some ring edge has a point in the closed rectangle. */
  ghost predicate EdgeInRect(ring: Ring, r: Rect) {
    exists p: Point :: InRect(p, r) && OnRing(p, ring)
  }

  lemma TouchIsInRect(ring: Ring, r: Rect, p: Point, q: Point)
    requires InRect(p, r) && InRect(q, r) && RingTouches(ring, p, q)
    ensures EdgeInRect(ring, r)
  {
    hide OnSegment;
    var k :| 0 <= k < |ring| && Meet(Previous(ring, k), ring[k], p, q);
    var s: Point :| OnSegment(s, Previous(ring, k), ring[k]) && OnSegment(s, p, q);
    SegmentInRect(s, p, q, r);
    assert OnRing(s, ring);
  }

  /**
   The rectangle meets the filled polygon exactly when a corner passes the even-odd test or some
   ring edge has a point in the rectangle, whether or not a vertex is inside.
   */
  lemma CornerOrEdge(ring: Ring, r: Rect)
    requires Proper(r)
    ensures RectMeetsPolygon(ring, r) <==> !NoCornerInside(ring, r) || EdgeInRect(ring, r)
  {
    hide Inside, OnRing, RingTouches;
    if RectMeetsPolygon(ring, r) && !EdgeInRect(ring, r) {
      var p: Point :| InRect(p, r) && InFilledPolygon(p, ring);
      CornerInRect(r, 0);
      if RingTouches(ring, p, Corners(r)[0]) {
        TouchIsInRect(ring, r, p, Corners(r)[0]);
      } else {
        SameSideOfRing(ring, p, Corners(r)[0]);
      }
    }
    if !NoCornerInside(ring, r) {
      var m :| 0 <= m < 4 && Inside(Corners(r)[m], ring);
      CornerInRect(r, m);
      assert InFilledPolygon(Corners(r)[m], ring);
    }
    if EdgeInRect(ring, r) {
      var p: Point :| InRect(p, r) && OnRing(p, ring);
      assert InFilledPolygon(p, ring);
    }
  }
}
