/** Points, closed segments and the orientation test for their intersection (src/spatial/polygon-reader.ts). */
module Segments {

  /** A [lat, lon] vertex; latitude is the y axis, longitude the x axis. */
  datatype Point = Point(y: real, x: real)

  function MinR(a: real, b: real): real { if a <= b then a else b }

  function MaxR(a: real, b: real): real { if a >= b then a else b }

  function Cross(o: Point, p: Point, q: Point): real {
    (p.y - o.y) * (q.x - o.x) - (p.x - o.x) * (q.y - o.y)
  }

  /** `p` lies in the bounding box of `o` and `q`. */
  predicate OnSeg(o: Point, p: Point, q: Point) {
    && MinR(o.y, q.y) <= p.y <= MaxR(o.y, q.y)
    && MinR(o.x, q.x) <= p.x <= MaxR(o.x, q.x)
  }

  predicate SegmentsIntersect(a1: Point, a2: Point, b1: Point, b2: Point) {
    var d1 := Cross(b1, b2, a1);
    var d2 := Cross(b1, b2, a2);
    var d3 := Cross(a1, a2, b1);
    var d4 := Cross(a1, a2, b2);
    if (d1 > 0.0) != (d2 > 0.0) && (d3 > 0.0) != (d4 > 0.0) then true
    else if d1 == 0.0 && OnSeg(b1, a1, b2) then true
    else if d2 == 0.0 && OnSeg(b1, a2, b2) then true
    else if d3 == 0.0 && OnSeg(a1, b1, a2) then true
    else if d4 == 0.0 && OnSeg(a1, b2, a2) then true
    else false
  }

  // ------------------------------------------------ what the test should mean

  ghost function Lerp(a: Point, b: Point, t: real): Point {
    Point(a.y + t * (b.y - a.y), a.x + t * (b.x - a.x))
  }

  /** `p` is a point of the closed segment from `a` to `b`. */
  ghost predicate OnSegment(p: Point, a: Point, b: Point) {
    exists t: real :: 0.0 <= t <= 1.0 && p == Lerp(a, b, t)
  }

  /** The two closed segments share a point. */
  ghost predicate Meet(a1: Point, a2: Point, b1: Point, b2: Point) {
    exists p: Point :: OnSegment(p, a1, a2) && OnSegment(p, b1, b2)
  }

  // --------------------------------------------------------------- arithmetic

  lemma Cancel(a: real, b: real, c: real)
    requires c != 0.0 && a * c == b * c
    ensures a == b
  {
    assert (a - b) * c == 0.0;
  }

  /** A quotient of ordered numbers is a fraction. */
  lemma Fraction(n: real, d: real) returns (t: real)
    requires d != 0.0
    requires 0.0 <= n <= d || d <= n <= 0.0
    ensures t == n / d && 0.0 <= t <= 1.0 && t * d == n
  {
    t := n / d;
  }

  lemma CrossLerp(o: Point, p: Point, a: Point, b: Point, t: real)
    ensures Cross(o, p, Lerp(a, b, t)) == (1.0 - t) * Cross(o, p, a) + t * Cross(o, p, b)
  {
    var u, v := p.y - o.y, p.x - o.x;
    var l := Lerp(a, b, t);
    assert l.x - o.x == (1.0 - t) * (a.x - o.x) + t * (b.x - o.x);
    assert l.y - o.y == (1.0 - t) * (a.y - o.y) + t * (b.y - o.y);
  }

  lemma MulNonNeg(a: real, b: real)
    requires a >= 0.0 && b >= 0.0
    ensures a * b >= 0.0
  {
  }

  lemma LerpBetween(a: real, b: real, t: real)
    requires 0.0 <= t <= 1.0
    ensures MinR(a, b) <= a + t * (b - a) <= MaxR(a, b)
  {
    if a <= b {
      MulNonNeg(t, b - a);
      MulNonNeg(1.0 - t, b - a);
    } else {
      MulNonNeg(t, a - b);
      MulNonNeg(1.0 - t, a - b);
    }
  }

  // --------------------------------------------- points of a segment, two ways

  lemma SegmentToBox(p: Point, a: Point, b: Point)
    requires OnSegment(p, a, b)
    ensures Cross(a, b, p) == 0.0 && OnSeg(a, p, b)
  {
    var t :| 0.0 <= t <= 1.0 && p == Lerp(a, b, t);
    LerpInBox(a, b, t);
    LerpIsCollinear(a, b, t);
  }

  lemma LerpInBox(a: Point, b: Point, t: real)
    requires 0.0 <= t <= 1.0
    ensures OnSeg(a, Lerp(a, b, t), b)
  {
    hide MinR, MaxR;
    LerpBetween(a.y, b.y, t);
    LerpBetween(a.x, b.x, t);
  }

  lemma LerpIsCollinear(a: Point, b: Point, t: real)
    ensures Cross(a, b, Lerp(a, b, t)) == 0.0
  {
    CrossLerp(a, b, a, b, t);
    CrossOfEnds(a, b);
    hide Cross, Lerp;
  }

  lemma CrossOfEnds(a: Point, b: Point)
    ensures Cross(a, b, a) == 0.0 && Cross(a, b, b) == 0.0
  {
  }

  lemma SlopeHolds(u: real, v: real, t: real, dx: real, dy: real)
    requires v != 0.0 && t * v == dx && u * dx == v * dy
    ensures u * t == dy
  {
    assert u * t * v == u * (t * v) == dy * v;
    Cancel(u * t, dy, v);
  }

  lemma BoxToSegment(p: Point, a: Point, b: Point)
    requires Cross(a, b, p) == 0.0 && OnSeg(a, p, b)
    ensures OnSegment(p, a, b)
  {
    if b.x != a.x {
      SlantedBox(p, a, b);
    } else {
      UprightBox(p, a, b);
    }
  }

  lemma SlantedBox(p: Point, a: Point, b: Point)
    requires Cross(a, b, p) == 0.0 && OnSeg(a, p, b) && b.x != a.x
    ensures OnSegment(p, a, b)
  {
    var t := Fraction(p.x - a.x, b.x - a.x);
    SlopeHolds(b.y - a.y, b.x - a.x, t, p.x - a.x, p.y - a.y);
    assert p == Lerp(a, b, t);
  }

  lemma UprightBox(p: Point, a: Point, b: Point)
    requires OnSeg(a, p, b) && b.x == a.x
    ensures OnSegment(p, a, b)
  {
    if b.y != a.y {
      var t := Fraction(p.y - a.y, b.y - a.y);
      assert p == Lerp(a, b, t);
    } else {
      assert p == Lerp(a, b, 0.0);
    }
  }

  /** `OnSeg` on a collinear point is membership in the closed segment. */
  lemma OnSegIsMembership(p: Point, a: Point, b: Point)
    ensures Cross(a, b, p) == 0.0 && OnSeg(a, p, b) <==> OnSegment(p, a, b)
  {
    if OnSegment(p, a, b) {
      SegmentToBox(p, a, b);
    } else if Cross(a, b, p) == 0.0 && OnSeg(a, p, b) {
      BoxToSegment(p, a, b);
    }
  }

  lemma EndpointsOnSegment(a: Point, b: Point)
    ensures OnSegment(a, a, b) && OnSegment(b, a, b)
  {
    assert a == Lerp(a, b, 0.0);
    assert b == Lerp(a, b, 1.0);
  }

  // ------------------------------------------------------ the test is exact

  lemma CrossShift(a1: Point, a2: Point, b1: Point, b2: Point)
    ensures Cross(b1, b2, a1) - Cross(b1, b2, a2) == Cross(a1, a2, b2) - Cross(a1, a2, b1)
  {
  }

  /** The two lines cross where their orientation fractions say. */
  lemma LinesCross(a1: Point, a2: Point, b1: Point, b2: Point, d: real, s: real, t: real)
    requires d == Cross(b1, b2, a1) - Cross(b1, b2, a2) && d != 0.0
    requires s * d == Cross(b1, b2, a1) && t * d == -Cross(a1, a2, b1)
    ensures Lerp(a1, a2, s) == Lerp(b1, b2, t)
  {
    assert d == (a2.y - a1.y) * (b2.x - b1.x) - (a2.x - a1.x) * (b2.y - b1.y);
    LinesCrossAt(a2.y - a1.y, a2.x - a1.x, b2.y - b1.y, b2.x - b1.x, b1.y - a1.y, b1.x - a1.x, d, s, t);
  }

  lemma LinesCrossAt(uy: real, ux: real, vy: real, vx: real, wy: real, wx: real, d: real, s: real, t: real)
    requires d == uy * vx - ux * vy && d != 0.0
    requires s * d == -(vy * wx - vx * wy)
    requires t * d == -(uy * wx - ux * wy)
    ensures s * uy == wy + t * vy && s * ux == wx + t * vx
  {
    assert (s * uy) * d == (s * d) * uy && (wy + t * vy) * d == wy * d + (t * d) * vy;
    Cancel(s * uy, wy + t * vy, d);
    assert (s * ux) * d == (s * d) * ux && (wx + t * vx) * d == wx * d + (t * d) * vx;
    Cancel(s * ux, wx + t * vx, d);
  }

  lemma ProperCrossingMeets(a1: Point, a2: Point, b1: Point, b2: Point)
    requires (Cross(b1, b2, a1) > 0.0) != (Cross(b1, b2, a2) > 0.0)
    requires (Cross(a1, a2, b1) > 0.0) != (Cross(a1, a2, b2) > 0.0)
    ensures Meet(a1, a2, b1, b2)
  {
    var d1, d2 := Cross(b1, b2, a1), Cross(b1, b2, a2);
    var d3, d4 := Cross(a1, a2, b1), Cross(a1, a2, b2);
    CrossShift(a1, a2, b1, b2);
    var d := d1 - d2;
    var s := Fraction(d1, d);
    var t := Fraction(-d3, d);
    LinesCross(a1, a2, b1, b2, d, s, t);
    assert OnSegment(Lerp(a1, a2, s), a1, a2);
    assert OnSegment(Lerp(b1, b2, t), b1, b2);
  }

  lemma IntersectMeans(a1: Point, a2: Point, b1: Point, b2: Point)
    requires SegmentsIntersect(a1, a2, b1, b2)
    ensures Meet(a1, a2, b1, b2)
  {
    EndpointsOnSegment(a1, a2);
    EndpointsOnSegment(b1, b2);
    OnSegIsMembership(a1, b1, b2);
    OnSegIsMembership(a2, b1, b2);
    OnSegIsMembership(b1, a1, a2);
    OnSegIsMembership(b2, a1, a2);
    hide Cross, OnSeg, OnSegment;
    if (Cross(b1, b2, a1) > 0.0) != (Cross(b1, b2, a2) > 0.0) && (Cross(a1, a2, b1) > 0.0) != (Cross(a1, a2, b2) > 0.0) {
      ProperCrossingMeets(a1, a2, b1, b2);
    }
  }

  /** A point of the line through two distinct points has a coordinate on it. */
  lemma LineCoordinate(p: Point, a: Point, b: Point) returns (t: real)
    requires a != b && Cross(a, b, p) == 0.0
    ensures p == Lerp(a, b, t)
  {
    var u, v := b.y - a.y, b.x - a.x;
    if v != 0.0 {
      t := (p.x - a.x) / v;
      assert t * v == p.x - a.x;
      assert u * t * v == u * (t * v);
      Cancel(u * t, p.y - a.y, v);
    } else {
      t := (p.y - a.y) / u;
    }
  }

  lemma LineCoordinateUnique(a: Point, b: Point, s: real, t: real)
    requires a != b && Lerp(a, b, s) == Lerp(a, b, t)
    ensures s == t
  {
    if a.y != b.y {
      Cancel(s, t, b.y - a.y);
    } else {
      Cancel(s, t, b.x - a.x);
    }
  }

  lemma LerpOfLerp(a: Point, b: Point, s: real, t: real, r: real)
    ensures Lerp(Lerp(a, b, s), Lerp(a, b, t), r) == Lerp(a, b, s + r * (t - s))
  {
    LerpOfLerpAt(a.y, b.y - a.y, s, t, r);
    LerpOfLerpAt(a.x, b.x - a.x, s, t, r);
  }

  lemma LerpOfLerpAt(a: real, v: real, s: real, t: real, r: real)
    ensures a + s * v + r * (a + t * v - (a + s * v)) == a + (s + r * (t - s)) * v
  {
    assert r * (a + t * v - (a + s * v)) == r * ((t - s) * v) == (r * (t - s)) * v;
  }

  lemma LerpEnds(a: Point, b: Point)
    ensures Lerp(a, b, 0.0) == a && Lerp(a, b, 1.0) == b
  {
  }

  /** An interval that straddles the unit interval reaches zero. */
  lemma ReachesZero(alpha: real, beta: real, s: real) returns (r: real)
    requires 0.0 <= s <= 1.0 && 0.0 <= alpha + s * (beta - alpha) <= 1.0
    requires !(0.0 <= alpha <= 1.0) && !(0.0 <= beta <= 1.0)
    ensures 0.0 <= r <= 1.0 && alpha + r * (beta - alpha) == 0.0
  {
    LerpBetween(alpha, beta, s);
    r := Fraction(-alpha, beta - alpha);
  }

  /** Overlapping collinear segments: an endpoint of one lies on the other. */
  lemma CollinearTouch(a1: Point, a2: Point, b1: Point, b2: Point, p: Point)
    requires b1 != b2 && Cross(b1, b2, a1) == 0.0 && Cross(b1, b2, a2) == 0.0
    requires OnSegment(p, a1, a2) && OnSegment(p, b1, b2)
    ensures OnSegment(a1, b1, b2) || OnSegment(a2, b1, b2) || OnSegment(b1, a1, a2)
  {
    hide Lerp, Cross;
    var alpha := LineCoordinate(a1, b1, b2);
    var beta := LineCoordinate(a2, b1, b2);
    var s :| 0.0 <= s <= 1.0 && p == Lerp(a1, a2, s);
    var t :| 0.0 <= t <= 1.0 && p == Lerp(b1, b2, t);
    LerpOfLerp(b1, b2, alpha, beta, s);
    LineCoordinateUnique(b1, b2, t, alpha + s * (beta - alpha));
    if !(0.0 <= alpha <= 1.0) && !(0.0 <= beta <= 1.0) {
      var r := ReachesZero(alpha, beta, s);
      LerpOfLerp(b1, b2, alpha, beta, r);
      LerpEnds(b1, b2);
    }
  }

  /** If no endpoint lies on the other segment, a shared point separates `a1` from `a2`. */
  lemma Separated(a1: Point, a2: Point, b1: Point, b2: Point, p: Point)
    requires OnSegment(p, a1, a2) && OnSegment(p, b1, b2)
    requires !OnSegment(a1, b1, b2) && !OnSegment(a2, b1, b2) && !OnSegment(b1, a1, a2)
    ensures (Cross(b1, b2, a1) > 0.0) != (Cross(b1, b2, a2) > 0.0)
  {
    hide Lerp, Cross, OnSeg;
    var s :| 0.0 <= s <= 1.0 && p == Lerp(a1, a2, s);
    SegmentToBox(p, b1, b2);
    CrossLerp(b1, b2, a1, a2, s);
    LerpEnds(a1, a2);
    var d1, d2 := Cross(b1, b2, a1), Cross(b1, b2, a2);
    if d1 == 0.0 && d2 == 0.0 {
      if b1 == b2 {
        SinglePoint(p, b1);
      } else {
        CollinearTouch(a1, a2, b1, b2, p);
      }
    } else if d1 == 0.0 {
      Cancel(s, 0.0, d2);
    } else if d2 == 0.0 {
      Cancel(1.0 - s, 0.0, d1);
    } else {
      OppositeSigns(d1, d2, s);
    }
  }

  lemma SinglePoint(p: Point, a: Point)
    requires OnSegment(p, a, a)
    ensures p == a
  {
  }

  lemma OppositeSigns(d1: real, d2: real, s: real)
    requires 0.0 <= s <= 1.0 && d1 != 0.0 && d2 != 0.0 && (1.0 - s) * d1 + s * d2 == 0.0
    ensures (d1 > 0.0) != (d2 > 0.0)
  {
    if d1 > 0.0 && d2 > 0.0 {
      MulNonNeg(1.0 - s, d1);
      MulNonNeg(s, d2);
      if s > 0.0 {
        Cancel(s, 0.0, d2);
      }
    } else if d1 < 0.0 && d2 < 0.0 {
      MulNonNeg(1.0 - s, -d1);
      MulNonNeg(s, -d2);
      if s > 0.0 {
        Cancel(s, 0.0, d2);
      }
    }
  }

  lemma MeetIntersects(a1: Point, a2: Point, b1: Point, b2: Point)
    requires Meet(a1, a2, b1, b2)
    ensures SegmentsIntersect(a1, a2, b1, b2)
  {
    hide OnSegment, Cross, OnSeg;
    OnSegIsMembership(a1, b1, b2);
    OnSegIsMembership(a2, b1, b2);
    OnSegIsMembership(b1, a1, a2);
    OnSegIsMembership(b2, a1, a2);
    var p: Point :| OnSegment(p, a1, a2) && OnSegment(p, b1, b2);
    if !OnSegment(a1, b1, b2) && !OnSegment(a2, b1, b2) && !OnSegment(b1, a1, a2) && !OnSegment(b2, a1, a2) {
      Separated(a1, a2, b1, b2, p);
      Separated(b1, b2, a1, a2, p);
    }
  }

  /**
   The orientation test answers true exactly when the closed segments share a point: proper
   crossings, touching endpoints, collinear overlap and segments that are single points.
   */
  lemma SegmentsIntersectExact(a1: Point, a2: Point, b1: Point, b2: Point)
    ensures SegmentsIntersect(a1, a2, b1, b2) <==> Meet(a1, a2, b1, b2)
  {
    if SegmentsIntersect(a1, a2, b1, b2) {
      IntersectMeans(a1, a2, b1, b2);
    }
    if Meet(a1, a2, b1, b2) {
      MeetIntersects(a1, a2, b1, b2);
    }
  }
}
