/**
 Why the even-odd test is about regions: along a segment that does not touch the ring the
 answer is constant, so it can change only by crossing the ring.
 */
module EvenOddRegions {
  import opened Segments
  import opened RayCast

  // -------------------------------------------------- lines at a given latitude

  lemma XAtEnds(a: Point, b: Point)
    requires a.y != b.y
    ensures XAt(a, b, a.y) == a.x && XAt(a, b, b.y) == b.x
  {
    XAtMeets(a, b, a.y, a.x);
    XAtMeets(a, b, b.y, b.x);
  }

  lemma XAtOnSegment(a: Point, b: Point, y: real)
    requires a.y < b.y && a.y <= y <= b.y
    ensures OnSegment(Point(y, XAt(a, b, y)), a, b)
  {
    var t := Fraction(y - a.y, b.y - a.y);
    var x := a.x + t * (b.x - a.x);
    assert t * (b.x - a.x) * (b.y - a.y) == t * (b.y - a.y) * (b.x - a.x);
    XAtMeets(a, b, y, x);
    assert Point(y, x) == Lerp(a, b, t);
  }

  lemma XAtAffine(a: Point, b: Point, lo: real, hi: real, s: real)
    requires a.y != b.y
    ensures XAt(a, b, lo + s * (hi - lo)) == XAt(a, b, lo) + s * (XAt(a, b, hi) - XAt(a, b, lo))
  {
    var l, h := XAt(a, b, lo), XAt(a, b, hi);
    XAtMeets(a, b, lo, l);
    XAtMeets(a, b, hi, h);
    XAtMeets(a, b, lo + s * (hi - lo), l + s * (h - l));
    AffineAt(l - a.x, h - a.x, lo - a.y, hi - a.y, b.y - a.y, b.x - a.x, s);
  }

  lemma AffineAt(l: real, h: real, lo: real, hi: real, dy: real, dx: real, s: real)
    requires l * dy == dx * lo && h * dy == dx * hi
    ensures (l + s * (h - l)) * dy == dx * (lo + s * (hi - lo))
  {
    assert (l + s * (h - l)) * dy == l * dy + s * (h * dy - l * dy);
    assert dx * (lo + s * (hi - lo)) == dx * lo + s * (dx * hi - dx * lo);
  }

  lemma ZeroBetween(f: real, g: real) returns (s: real)
    requires (f > 0.0) != (g > 0.0)
    ensures 0.0 <= s <= 1.0 && f + s * (g - f) == 0.0
  {
    s := Fraction(f, f - g);
  }

  lemma HighFraction(lo: real, hi: real, s: real)
    requires lo <= hi && 0.0 <= s <= 1.0
    ensures lo <= lo + s * (hi - lo) <= hi
  {
    LerpBetween(lo, hi, s);
  }

  /** Two lines that swap their left-right order between two latitudes agree in between. */
  lemma CrossingLatitude(v: Point, w: Point, p: Point, q: Point, lo: real, hi: real) returns (y: real)
    requires v.y != w.y && p.y != q.y && lo <= hi
    requires (XAt(v, w, lo) > XAt(p, q, lo)) != (XAt(v, w, hi) > XAt(p, q, hi))
    ensures lo <= y <= hi && XAt(v, w, y) == XAt(p, q, y)
  {
    hide XAt;
    var s := ZeroBetween(XAt(v, w, lo) - XAt(p, q, lo), XAt(v, w, hi) - XAt(p, q, hi));
    HighFraction(lo, hi, s);
    XAtAffine(v, w, lo, hi, s);
    XAtAffine(p, q, lo, hi, s);
    SplitDifference(XAt(v, w, lo), XAt(v, w, hi), XAt(p, q, lo), XAt(p, q, hi), s);
    y := lo + s * (hi - lo);
  }

  /** Two segments that both span `[lo, hi]` and do not meet keep their left-right order there. */
  lemma SameOrder(v: Point, w: Point, p: Point, q: Point, lo: real, hi: real)
    requires v.y < w.y && p.y < q.y
    requires MaxR(v.y, p.y) <= lo <= hi <= MinR(w.y, q.y)
    requires !Meet(v, w, p, q)
    ensures (XAt(v, w, lo) > XAt(p, q, lo)) == (XAt(v, w, hi) > XAt(p, q, hi))
  {
    hide XAt, OnSegment;
    if (XAt(v, w, lo) > XAt(p, q, lo)) != (XAt(v, w, hi) > XAt(p, q, hi)) {
      var y := CrossingLatitude(v, w, p, q, lo, hi);
      XAtOnSegment(v, w, y);
      XAtOnSegment(p, q, y);
    }
  }

  lemma SplitDifference(a: real, b: real, c: real, d: real, s: real)
    requires (a - c) + s * ((b - d) - (a - c)) == 0.0
    ensures a + s * (b - a) == c + s * (d - c)
  {
  }

  lemma LevelPointBetween(a: Point, b: Point, x: real)
    requires a.y == b.y && (a.x < x) != (b.x < x)
    ensures OnSegment(Point(a.y, x), a, b)
  {
    var t := Fraction(x - a.x, b.x - a.x);
    assert Point(a.y, x) == Lerp(a, b, t);
  }

  // ------------------------------------------------------- one edge at a time

  /** `v` lies in the latitude band of the segment `pq`, to its right. */
  ghost predicate Beside(v: Point, p: Point, q: Point) {
    (v.y > p.y) != (v.y > q.y) && v.x > XAt(p, q, v.y)
  }

  /**
   Walking from `p` to `q` changes whether the edge is crossed exactly when the edge enters or
   leaves the strip to the right of the walk at one of its ends.
   */
  ghost predicate Balanced(v: Point, w: Point, p: Point, q: Point) {
    (Crosses(w, v, p) != Crosses(w, v, q)) == (Beside(v, p, q) != Beside(w, p, q))
  }

  lemma LevelWalk(v: Point, w: Point, p: Point, q: Point)
    requires p.y == q.y && v.y <= w.y && !Meet(v, w, p, q)
    ensures Balanced(v, w, p, q)
  {
    if Straddles(w, v, p.y) {
      var x := XAt(v, w, p.y);
      XAtReversed(v, w, p.y);
      if (p.x < x) != (q.x < x) {
        XAtOnSegment(v, w, p.y);
        LevelPointBetween(p, q, x);
      }
    }
  }

  lemma LevelEdge(v: Point, w: Point, p: Point, q: Point)
    requires p.y < q.y && v.y == w.y && !Meet(v, w, p, q)
    ensures Balanced(v, w, p, q)
  {
    hide XAt, OnSegment;
    if p.y < v.y <= q.y {
      var x := XAt(p, q, v.y);
      if (v.x > x) != (w.x > x) {
        XAtOnSegment(p, q, v.y);
        LevelTouch(v, w, x);
      }
    }
  }

  lemma LevelTouch(v: Point, w: Point, x: real)
    requires v.y == w.y && (v.x > x) != (w.x > x)
    ensures OnSegment(Point(v.y, x), v, w)
  {
    var t := Fraction(x - v.x, w.x - v.x);
    assert Point(v.y, x) == Lerp(v, w, t);
  }

  lemma SlantedWalk(v: Point, w: Point, p: Point, q: Point)
    requires p.y < q.y && v.y < w.y && !Meet(v, w, p, q)
    ensures Balanced(v, w, p, q)
  {
    hide XAt, Meet;
    if p.y < w.y && v.y <= q.y {
      var lo, hi := MaxR(v.y, p.y), MinR(w.y, q.y);
      XAtEnds(v, w);
      XAtEnds(p, q);
      XAtReversed(v, w, p.y);
      XAtReversed(v, w, q.y);
      SameOrder(v, w, p, q, lo, hi);
      assert (XAt(v, w, lo) > XAt(p, q, lo)) == (Crosses(w, v, p) != Beside(v, p, q));
      assert (XAt(v, w, hi) > XAt(p, q, hi)) == (Crosses(w, v, q) != Beside(w, p, q));
    }
  }

  lemma OnSegmentFlipped(s: Point, a: Point, b: Point)
    requires OnSegment(s, a, b)
    ensures OnSegment(s, b, a)
  {
    var t :| 0.0 <= t <= 1.0 && s == Lerp(a, b, t);
    assert s == Lerp(b, a, 1.0 - t);
  }

  lemma MeetFlipped(v: Point, w: Point, p: Point, q: Point)
    ensures Meet(w, v, p, q) ==> Meet(v, w, p, q)
    ensures Meet(v, w, q, p) ==> Meet(v, w, p, q)
    ensures Meet(p, q, v, w) ==> Meet(v, w, p, q)
  {
    if Meet(w, v, p, q) {
      var s: Point :| OnSegment(s, w, v) && OnSegment(s, p, q);
      OnSegmentFlipped(s, w, v);
    }
    if Meet(v, w, q, p) {
      var s: Point :| OnSegment(s, v, w) && OnSegment(s, q, p);
      OnSegmentFlipped(s, q, p);
    }
  }

  lemma UpwardWalk(v: Point, w: Point, p: Point, q: Point)
    requires p.y <= q.y && v.y <= w.y && !Meet(v, w, p, q)
    ensures Balanced(v, w, p, q)
  {
    if p.y == q.y {
      LevelWalk(v, w, p, q);
    } else if v.y == w.y {
      LevelEdge(v, w, p, q);
    } else {
      SlantedWalk(v, w, p, q);
    }
  }

  lemma BesideFlipped(v: Point, p: Point, q: Point)
    ensures Beside(v, p, q) == Beside(v, q, p)
  {
    if p.y != q.y {
      XAtReversed(p, q, v.y);
    }
  }

  /** Every edge the walk does not touch is balanced. */
  lemma EdgeBalanced(v: Point, w: Point, p: Point, q: Point)
    requires !Meet(v, w, p, q)
    ensures Balanced(v, w, p, q)
  {
    hide Crosses, Beside, Meet;
    MeetFlipped(v, w, p, q);
    MeetFlipped(w, v, p, q);
    MeetFlipped(v, w, q, p);
    var a, b := if v.y <= w.y then v else w, if v.y <= w.y then w else v;
    var s, t := if p.y <= q.y then p else q, if p.y <= q.y then q else p;
    UpwardWalk(a, b, s, t);
    CrossesSymmetric(v, w, p);
    CrossesSymmetric(v, w, q);
    BesideFlipped(v, p, q);
    BesideFlipped(w, p, q);
  }

  // ------------------------------------------------------------ the whole ring

  lemma {:induction false} PathBalanced(path: seq<Point>, p: Point, q: Point)
    requires path != [] && forall k :: 0 < k < |path| ==> !Meet(path[k - 1], path[k], p, q)
    ensures (OddCrossings(path, p) != OddCrossings(path, q)) == (Beside(path[0], p, q) != Beside(path[|path| - 1], p, q))
  {
    hide Crosses, Beside, Meet;
    if |path| >= 2 {
      EdgeBalanced(path[0], path[1], p, q);
      var rest := path[1..];
      forall k | 0 < k < |rest| ensures !Meet(rest[k - 1], rest[k], p, q) {
        assert rest[k - 1] == path[k] && rest[k] == path[k + 1];
      }
      PathBalanced(rest, p, q);
    }
  }

  /** Some edge of the ring shares a point with the segment `pq`. */
  ghost predicate RingTouches(ring: Ring, p: Point, q: Point) {
    exists k :: 0 <= k < |ring| && Meet(Previous(ring, k), ring[k], p, q)
  }

  /** The even-odd answer is the same at both ends of any walk that does not touch the ring. */
  lemma SameSideOfRing(ring: Ring, p: Point, q: Point)
    requires !RingTouches(ring, p, q)
    ensures Inside(p, ring) == Inside(q, ring)
  {
    hide OddCrossings, Meet;
    if ring != [] {
      var path := Around(ring);
      forall k | 0 < k < |path| ensures !Meet(path[k - 1], path[k], p, q) {
        assert path[k] == ring[k - 1] && path[k - 1] == Previous(ring, k - 1);
      }
      PathBalanced(path, p, q);
    }
  }
}
