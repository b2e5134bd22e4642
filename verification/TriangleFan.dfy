/**
 What the even-odd answer means: in a triangle it is the interior, in any ring it is the parity of
 the triangles that its edges span from one point, and the border of a rectangle shows which edges
 count as inside.
 */
module TriangleFan {
  import opened Segments
  import opened RayCast
  import opened PolygonRect

  // ------------------------------------------------------------- rectangles

  lemma UprightCrossing(x: real, y0: real, y1: real, p: Point)
    ensures Crosses(Point(y0, x), Point(y1, x), p) <==> (y0 > p.y) != (y1 > p.y) && p.x < x
  {
    if y0 != y1 {
      XAtMeets(Point(y0, x), Point(y1, x), p.y, x);
    }
  }

  lemma LevelCrossing(y: real, x0: real, x1: real, p: Point)
    ensures !Crosses(Point(y, x0), Point(y, x1), p)
  {
  }

  lemma FourEdges(a: Point, b: Point, c: Point, d: Point, p: Point)
    ensures Inside(p, [a, b, c, d])
         == (((Crosses(a, d, p) != Crosses(b, a, p)) != Crosses(c, b, p)) != Crosses(d, c, p))
  {
    hide Crosses;
    var path := Around([a, b, c, d]);
    assert path == [d, a, b, c, d] && path[1..] == [a, b, c, d] && [a, b, c, d][1..] == [b, c, d] && [b, c, d][1..] == [c, d];
    OddCrossingsEdge(c, d, p);
    assert OddCrossings([b, c, d], p) == (Crosses(c, b, p) != OddCrossings([c, d], p));
    assert OddCrossings([a, b, c, d], p) == (Crosses(b, a, p) != OddCrossings([b, c, d], p));
    assert OddCrossings(path, p) == (Crosses(a, d, p) != OddCrossings([a, b, c, d], p));
  }

  /** In a rectangle the lower and the left edge count as inside, the upper and the right edge do not. */
  lemma RectangleInside(r: Rect, p: Point)
    requires Proper(r)
    ensures Inside(p, Corners(r)) <==> r.latLo <= p.y < r.latHi && r.lonLo <= p.x < r.lonHi
  {
    hide Inside, Crosses;
    var c := Corners(r);
    FourEdges(c[0], c[1], c[2], c[3], p);
    assert c == [c[0], c[1], c[2], c[3]];
    UprightCrossing(r.lonLo, r.latLo, r.latHi, p);
    LevelCrossing(r.latLo, r.lonHi, r.lonLo, p);
    UprightCrossing(r.lonHi, r.latHi, r.latLo, p);
    LevelCrossing(r.latHi, r.lonLo, r.lonHi, p);
  }

  // -------------------------------------------------------------- triangles

  lemma TriangleParity(a: Point, b: Point, c: Point, p: Point)
    ensures Inside(p, [a, b, c]) == ((Crosses(a, c, p) != Crosses(b, a, p)) != Crosses(c, b, p))
  {
    hide Crosses;
    var path := Around([a, b, c]);
    assert path == [c, a, b, c] && path[1..] == [a, b, c] && [a, b, c][1..] == [b, c];
    OddCrossingsEdge(b, c, p);
    assert OddCrossings([a, b, c], p) == (Crosses(b, a, p) != OddCrossings([b, c], p));
    assert OddCrossings(path, p) == (Crosses(a, c, p) != OddCrossings([a, b, c], p));
  }

  /** `v` of the way from `a` towards `b`, and from there `w` of the way from `a` towards `c`. */
  ghost function Blend(a: real, b: real, c: real, v: real, w: real): real {
    a + v * (b - a) + w * (c - a)
  }

  /** The point that is `v` of the way towards `b` and `w` of the way towards `c`. */
  ghost function Mix(a: Point, b: Point, c: Point, v: real, w: real): Point {
    Point(Blend(a.y, b.y, c.y, v, w), Blend(a.x, b.x, c.x, v, w))
  }

  /** The closed triangle: the mixtures of its corners. */
  ghost predicate InTriangle(p: Point, a: Point, b: Point, c: Point) {
    exists v: real, w: real :: v >= 0.0 && w >= 0.0 && v + w <= 1.0 && p == Mix(a, b, c, v, w)
  }

  /** The closed triangle does not depend on the corner it is described from. */
  lemma TurnTriangle(p: Point, a: Point, b: Point, c: Point)
    requires InTriangle(p, a, b, c)
    ensures InTriangle(p, b, c, a)
  {
    hide Blend;
    var v: real, w: real :| v >= 0.0 && w >= 0.0 && v + w <= 1.0 && p == Mix(a, b, c, v, w);
    TurnAt(a.y, b.y, c.y, v, w);
    TurnAt(a.x, b.x, c.x, v, w);
    assert p == Mix(b, c, a, w, 1.0 - v - w);
  }

  lemma TurnAt(a: real, b: real, c: real, v: real, w: real)
    ensures Blend(a, b, c, v, w) == Blend(b, c, a, w, 1.0 - v - w)
  {
  }

  /** A point of a segment, by coordinates. */
  lemma LerpAlong(a: Point, b: Point, t: real)
    ensures Lerp(a, b, t) == Point(Along(a.y, b.y, t), Along(a.x, b.x, t))
  {
  }

  lemma Regroup(a: real, b: real, c: real)
    ensures a * b * c == a * (b * c) && a * b * c == a * c * b
  {
  }

  /** An edge reaches every level it straddles, at `XAt`. */
  lemma CrossingOnEdge(a: Point, b: Point, y: real) returns (t: real)
    requires Straddles(a, b, y)
    ensures 0.0 <= t <= 1.0 && Point(y, XAt(a, b, y)) == Lerp(a, b, t) && t * (b.y - a.y) == y - a.y
  {
    hide XAt, Along;
    t := Fraction(y - a.y, b.y - a.y);
    XAtIs(a, b, y, t);
    LerpAlong(a, b, t);
    AlongIs(a.y, b.y, y, t);
  }

  lemma AlongIs(a: real, b: real, x: real, t: real)
    ensures Along(a, b, t) == x <==> t * (b - a) == x - a
  {
  }

  lemma AlongStays(a: real, t: real)
    ensures Along(a, a, t) == a
  {
  }

  /** Two ways of `f` and `g`, and a way between their ends. */
  lemma Between(f: real, g: real, t: real, u: real, s: real)
    ensures t * f + s * (u * g - t * f) == (1.0 - s) * t * f + s * u * g
  {
    Regroup(s, u, g);
    Regroup(1.0 - s, t, f);
    Spread(s, t * f, u * g);
  }

  lemma Spread(s: real, m: real, n: real)
    ensures m + s * (n - m) == (1.0 - s) * m + s * n
  {
  }

  lemma MixOfLerps(a: real, b: real, c: real, t: real, u: real, s: real)
    ensures Along(Along(a, b, t), Along(a, c, u), s) == Blend(a, b, c, (1.0 - s) * t, s * u)
  {
    Between(b - a, c - a, t, u, s);
    assert Along(a, c, u) - Along(a, b, t) == u * (c - a) - t * (b - a);
  }

  lemma Weights(t: real, u: real, s: real)
    requires 0.0 <= t <= 1.0 && 0.0 <= u <= 1.0 && 0.0 <= s <= 1.0
    ensures (1.0 - s) * t >= 0.0 && s * u >= 0.0 && (1.0 - s) * t + s * u <= 1.0
  {
    Part(1.0 - s, t);
    Part(s, u);
    AtMost((1.0 - s) * t, 1.0 - s, s * u, s);
  }

  lemma AtMost(m: real, a: real, n: real, b: real)
    requires m <= a && n <= b
    ensures m + n <= a + b
  {
  }

  lemma Part(s: real, t: real)
    requires 0.0 <= s && 0.0 <= t <= 1.0
    ensures 0.0 <= s * t <= s
  {
    MulNonNeg(s, t);
    MulNonNeg(s, 1.0 - t);
  }

  lemma MixIs(a: Point, b: Point, c: Point, t: real, u: real, s: real)
    ensures Lerp(Lerp(a, b, t), Lerp(a, c, u), s) == Mix(a, b, c, (1.0 - s) * t, s * u)
  {
    hide Lerp, Along, Blend;
    LerpAlong(a, b, t);
    LerpAlong(a, c, u);
    LerpAlong(Lerp(a, b, t), Lerp(a, c, u), s);
    MixOfLerps(a.y, b.y, c.y, t, u, s);
    MixOfLerps(a.x, b.x, c.x, t, u, s);
  }

  /** A point between points of two sides is in the triangle. */
  lemma BetweenSides(a: Point, b: Point, c: Point, t: real, u: real, s: real)
    requires 0.0 <= t <= 1.0 && 0.0 <= u <= 1.0 && 0.0 <= s <= 1.0
    ensures InTriangle(Lerp(Lerp(a, b, t), Lerp(a, c, u), s), a, b, c)
  {
    hide Lerp, Mix;
    Weights(t, u, s);
    MixIs(a, b, c, t, u, s);
  }

  /** One corner is on one side of the level, the two others on the other. */
  ghost predicate Apart(p: Point, a: Point, b: Point, c: Point) {
    Straddles(a, b, p.y) && Straddles(a, c, p.y)
  }

  lemma ApartParity(p: Point, a: Point, b: Point, c: Point)
    requires Apart(p, a, b, c)
    ensures Inside(p, [a, b, c]) <==> (p.x < XAt(a, b, p.y)) != (p.x < XAt(a, c, p.y))
  {
    hide Inside, XAt;
    TriangleParity(a, b, c, p);
    CrossesSymmetric(b, a, p);
  }

  lemma LerpLevel(y: real, x0: real, x1: real, x: real, s: real)
    requires s * (x1 - x0) == x - x0
    ensures Lerp(Point(y, x0), Point(y, x1), s) == Point(y, x)
  {
    hide Lerp, Along;
    LerpAlong(Point(y, x0), Point(y, x1), s);
    AlongStays(y, s);
    AlongIs(x0, x1, x, s);
  }

  /** Between the two sides it reaches, an inside point is in the triangle. */
  lemma InsideApart(p: Point, a: Point, b: Point, c: Point)
    requires Apart(p, a, b, c) && Inside(p, [a, b, c])
    ensures InTriangle(p, a, b, c)
  {
    hide Inside, XAt, InTriangle, Mix;
    var x0, x1 := XAt(a, b, p.y), XAt(a, c, p.y);
    ApartParity(p, a, b, c);
    var t := CrossingOnEdge(a, b, p.y);
    var u := CrossingOnEdge(a, c, p.y);
    var s := Fraction(p.x - x0, x1 - x0);
    LerpLevel(p.y, x0, x1, p.x, s);
    BetweenSides(a, b, c, t, u, s);
  }

  /** Where a mixture lies on its level, between the two sides. */
  lemma MixOnLevel(p: Point, a: Point, b: Point, c: Point, v: real, w: real) returns (s: real)
    requires Apart(p, a, b, c) && v >= 0.0 && w >= 0.0 && p == Mix(a, b, c, v, w) && p.y != a.y
    ensures 0.0 <= s <= 1.0 && p.x == Along(XAt(a, b, p.y), XAt(a, c, p.y), s)
  {
    hide XAt, Blend, Along;
    var h, d, e := p.y - a.y, b.y - a.y, c.y - a.y;
    BlendRise(a.y, b.y, c.y, v, w);
    SameSign(v, d, w, e, h);
    s := Fraction(w * e, h);
    var t := Quotient(h, d);
    var u := Quotient(h, e);
    FirstWeight(v, d, w, e, h, s, t);
    SecondWeight(w, e, h, s, u);
    XAtIs(a, b, p.y, t);
    XAtIs(a, c, p.y, u);
    MixOfLerps(a.x, b.x, c.x, t, u, s);
  }

  lemma BlendRise(a: real, b: real, c: real, v: real, w: real)
    ensures Blend(a, b, c, v, w) - a == v * (b - a) + w * (c - a)
  {
  }

  lemma Quotient(h: real, d: real) returns (t: real)
    requires d != 0.0
    ensures t * d == h
  {
    t := h / d;
  }

  /** Two terms of one sign are a fraction of their sum each. */
  lemma SameSign(v: real, d: real, w: real, e: real, h: real)
    requires v >= 0.0 && w >= 0.0 && h == v * d + w * e && h != 0.0 && ((d > 0.0 && e > 0.0) || (d < 0.0 && e < 0.0))
    ensures 0.0 <= w * e <= h || h <= w * e <= 0.0
  {
    if d > 0.0 {
      MulNonNeg(v, d);
      MulNonNeg(w, e);
    } else {
      MulNonNeg(v, -d);
      MulNonNeg(w, -e);
    }
  }

  lemma FirstWeight(v: real, d: real, w: real, e: real, h: real, s: real, t: real)
    requires h == v * d + w * e && d != 0.0 && s * h == w * e && t * d == h
    ensures (1.0 - s) * t == v
  {
    Regroup(1.0 - s, t, d);
    Spread(s, h, 0.0);
    Cancel((1.0 - s) * t, v, d);
  }

  lemma SecondWeight(w: real, e: real, h: real, s: real, u: real)
    requires e != 0.0 && s * h == w * e && u * e == h
    ensures s * u == w
  {
    Regroup(s, u, e);
    Cancel(s * u, w, e);
  }

  lemma XAtIs(a: Point, b: Point, y: real, t: real)
    requires a.y != b.y && t * (b.y - a.y) == y - a.y
    ensures XAt(a, b, y) == Along(a.x, b.x, t)
  {
    hide XAt;
    XAtMeets(a, b, y, Along(a.x, b.x, t));
    Regroup(t, b.x - a.x, b.y - a.y);
    Commute(y - a.y, b.x - a.x);
  }

  lemma Commute(a: real, b: real)
    ensures a * b == b * a
  {
  }

  lemma EdgesOfTriangle(a: Point, b: Point, c: Point, p: Point)
    ensures OnRing(p, [a, b, c]) <==> OnSegment(p, c, a) || OnSegment(p, a, b) || OnSegment(p, b, c)
  {
    hide OnSegment;
    var ring := [a, b, c];
    assert Previous(ring, 0) == c && Previous(ring, 1) == a && Previous(ring, 2) == b;
    assert ring[0] == a && ring[1] == b && ring[2] == c;
  }

  /** A point of the triangle that is not inside lies on an edge, where the level separates the corners. */
  lemma TriangleApart(p: Point, a: Point, b: Point, c: Point)
    requires Apart(p, a, b, c) && InTriangle(p, a, b, c) && !Inside(p, [a, b, c])
    ensures OnSegment(p, a, b) || OnSegment(p, a, c)
  {
    hide Inside, XAt, Mix;
    ApartParity(p, a, b, c);
    var v: real, w: real :| v >= 0.0 && w >= 0.0 && v + w <= 1.0 && p == Mix(a, b, c, v, w);
    var t := CrossingOnEdge(a, b, p.y);
    var u := CrossingOnEdge(a, c, p.y);
    if p.y == a.y {
      AtCorner(p, a, b, c, v, w);
    } else {
      var s := MixOnLevel(p, a, b, c, v, w);
      LerpBetween(XAt(a, b, p.y), XAt(a, c, p.y), s);
    }
  }

  lemma AtCorner(p: Point, a: Point, b: Point, c: Point, v: real, w: real)
    requires Apart(p, a, b, c) && v >= 0.0 && w >= 0.0 && p == Mix(a, b, c, v, w) && p.y == a.y
    ensures OnSegment(p, a, b)
  {
    var d, e := b.y - a.y, c.y - a.y;
    assert d > 0.0 && e > 0.0;
    MulNonNeg(v, d);
    MulNonNeg(w, e);
    assert v * d == 0.0 && w * e == 0.0;
    Cancel(v, 0.0, d);
    Cancel(w, 0.0, e);
    LerpEnds(a, b);
  }

  // --------------------------------------- levels that separate no corners

  /** All corners are above the level, or none is. */
  ghost predicate Together(p: Point, a: Point, b: Point, c: Point) {
    (a.y > p.y) == (b.y > p.y) == (c.y > p.y)
  }

  /** A mixture on its highest corners' level is made of those corners only. */
  lemma Highest(p: Point, a: Point, b: Point, c: Point, v: real, w: real)
    requires v >= 0.0 && w >= 0.0 && v + w <= 1.0 && p == Mix(a, b, c, v, w) && Together(p, a, b, c)
    ensures a.y <= p.y && b.y <= p.y && c.y <= p.y
    ensures (v + w == 1.0 || a.y == p.y) && (v == 0.0 || b.y == p.y) && (w == 0.0 || c.y == p.y)
  {
    var u := 1.0 - v - w;
    var f, g, h := p.y - a.y, p.y - b.y, p.y - c.y;
    assert u * f + v * g + w * h == 0.0 by { TurnAt(a.y, b.y, c.y, v, w); Weighted(a.y, b.y, c.y, p.y, v, w); }
    if a.y > p.y {
      NoneAbove(u, v, w, -f, -g, -h);
    } else {
      MulNonNeg(u, f);
      MulNonNeg(v, g);
      MulNonNeg(w, h);
    }
  }

  lemma Weighted(a: real, b: real, c: real, y: real, v: real, w: real)
    requires y == a + v * (b - a) + w * (c - a)
    ensures (1.0 - v - w) * (y - a) + v * (y - b) + w * (y - c) == 0.0
  {
  }

  lemma NoneAbove(u: real, v: real, w: real, f: real, g: real, h: real)
    requires u >= 0.0 && v >= 0.0 && w >= 0.0 && u + v + w == 1.0 && f > 0.0 && g > 0.0 && h > 0.0
    ensures u * f + v * g + w * h > 0.0
  {
    MulNonNeg(u, f);
    MulNonNeg(v, g);
    MulNonNeg(w, h);
    if u > 0.0 {
      assert u * f > 0.0;
    } else if v > 0.0 {
      assert v * g > 0.0;
    } else {
      assert w * h > 0.0;
    }
  }

  lemma OnLevelEdge(p: Point, a: Point, b: Point)
    requires a.y == b.y == p.y && MinR(a.x, b.x) <= p.x <= MaxR(a.x, b.x)
    ensures OnSegment(p, a, b)
  {
    if a.x == b.x {
      LerpEnds(a, b);
    } else {
      var t := Fraction(p.x - a.x, b.x - a.x);
      assert p == Lerp(a, b, t);
    }
  }

  /** Three corners on one level: a mixture lies between two of them. */
  lemma FlatTriangle(p: Point, a: Point, b: Point, c: Point, v: real, w: real)
    requires v >= 0.0 && w >= 0.0 && v + w <= 1.0 && p == Mix(a, b, c, v, w) && a.y == b.y == c.y == p.y
    ensures OnSegment(p, a, b) || OnSegment(p, b, c) || OnSegment(p, c, a)
  {
    hide OnSegment;
    var u := 1.0 - v - w;
    Weighted(a.x, b.x, c.x, p.x, v, w);
    var f, g, h := p.x - a.x, p.x - b.x, p.x - c.x;
    if f > 0.0 && g > 0.0 && h > 0.0 {
      NoneAbove(u, v, w, f, g, h);
    } else if f < 0.0 && g < 0.0 && h < 0.0 {
      NoneAbove(u, v, w, -f, -g, -h);
    } else if MinR(a.x, b.x) <= p.x <= MaxR(a.x, b.x) {
      OnLevelEdge(p, a, b);
    } else if MinR(b.x, c.x) <= p.x <= MaxR(b.x, c.x) {
      OnLevelEdge(p, b, c);
    } else {
      OnLevelEdge(p, c, a);
    }
  }

  lemma MixOnSide(a: Point, b: Point, c: Point, v: real, w: real)
    ensures v + w == 1.0 ==> Mix(a, b, c, v, w) == Lerp(b, c, w)
    ensures v == 0.0 ==> Mix(a, b, c, v, w) == Lerp(c, a, 1.0 - w)
    ensures w == 0.0 ==> Mix(a, b, c, v, w) == Lerp(a, b, v)
  {
    hide Lerp, Along, Blend;
    LerpAlong(b, c, w);
    LerpAlong(c, a, 1.0 - w);
    LerpAlong(a, b, v);
    OnSides(a.y, b.y, c.y, v, w);
    OnSides(a.x, b.x, c.x, v, w);
  }

  lemma OnSides(a: real, b: real, c: real, v: real, w: real)
    ensures v + w == 1.0 ==> Blend(a, b, c, v, w) == Along(b, c, w)
    ensures v == 0.0 ==> Blend(a, b, c, v, w) == Along(c, a, 1.0 - w)
    ensures w == 0.0 ==> Blend(a, b, c, v, w) == Along(a, b, v)
  {
    if v + w == 1.0 {
      OnFarSide(a, b, c, v, w);
    }
    OnNearSide(a, c, w);
  }

  /** Where the level separates no corners, a point of the triangle lies on an edge. */
  lemma TriangleTogether(p: Point, a: Point, b: Point, c: Point)
    requires Together(p, a, b, c) && InTriangle(p, a, b, c)
    ensures OnSegment(p, a, b) || OnSegment(p, b, c) || OnSegment(p, c, a)
  {
    hide Lerp, Mix;
    var v: real, w: real :| v >= 0.0 && w >= 0.0 && v + w <= 1.0 && p == Mix(a, b, c, v, w);
    Highest(p, a, b, c, v, w);
    MixOnSide(a, b, c, v, w);
    if v + w < 1.0 && v > 0.0 && w > 0.0 {
      FlatTriangle(p, a, b, c, v, w);
    }
  }

  lemma OnFarSide(a: real, b: real, c: real, v: real, w: real)
    requires v + w == 1.0
    ensures Blend(a, b, c, v, w) == Along(b, c, w)
  {
  }

  lemma OnNearSide(a: real, c: real, w: real)
    ensures Along(a, c, w) == Along(c, a, 1.0 - w)
  {
  }

  lemma NobodyCrossed(p: Point, a: Point, b: Point, c: Point)
    requires Together(p, a, b, c)
    ensures !Inside(p, [a, b, c])
  {
    hide Inside, XAt;
    TriangleParity(a, b, c, p);
  }

  lemma TurnInside(p: Point, a: Point, b: Point, c: Point)
    ensures Inside(p, [b, c, a]) == Inside(p, [a, b, c])
  {
    hide Inside, Crosses;
    TriangleParity(a, b, c, p);
    TriangleParity(b, c, a, p);
    CrossesSymmetric(a, b, p);
    CrossesSymmetric(a, c, p);
  }

  /**
   Off its edges, the even-odd answer of a triangle is its interior: inside points are mixtures of
   the corners, and a mixture that is not inside lies on an edge.
   */
  lemma TriangleInside(p: Point, a: Point, b: Point, c: Point)
    ensures Inside(p, [a, b, c]) ==> InTriangle(p, a, b, c)
    ensures InTriangle(p, a, b, c) && !Inside(p, [a, b, c]) ==> OnRing(p, [a, b, c])
  {
    hide Inside, InTriangle, OnRing, OnSegment;
    EdgesOfTriangle(a, b, c, p);
    if Together(p, a, b, c) {
      NobodyCrossed(p, a, b, c);
      if InTriangle(p, a, b, c) {
        TriangleTogether(p, a, b, c);
      }
    } else if Apart(p, a, b, c) {
      TriangleAt(p, a, b, c);
    } else if Apart(p, b, c, a) {
      TurnInside(p, a, b, c);
      TriangleAt(p, b, c, a);
    } else {
      TurnInside(p, a, b, c);
      TurnInside(p, b, c, a);
      TriangleAt(p, c, a, b);
    }
    Turns(p, a, b, c);
  }

  lemma Turns(p: Point, a: Point, b: Point, c: Point)
    ensures InTriangle(p, a, b, c) <==> InTriangle(p, b, c, a)
    ensures InTriangle(p, a, b, c) <==> InTriangle(p, c, a, b)
  {
    hide InTriangle;
    if InTriangle(p, a, b, c) { TurnTriangle(p, a, b, c); TurnTriangle(p, b, c, a); }
    if InTriangle(p, b, c, a) { TurnTriangle(p, b, c, a); TurnTriangle(p, c, a, b); }
    if InTriangle(p, c, a, b) { TurnTriangle(p, c, a, b); }
  }

  lemma TriangleAt(p: Point, a: Point, b: Point, c: Point)
    requires Apart(p, a, b, c)
    ensures Inside(p, [a, b, c]) ==> InTriangle(p, a, b, c)
    ensures InTriangle(p, a, b, c) && !Inside(p, [a, b, c]) ==> OnSegment(p, a, b) || OnSegment(p, c, a)
  {
    hide Inside, InTriangle, OnSegment;
    if Inside(p, [a, b, c]) {
      InsideApart(p, a, b, c);
    } else if InTriangle(p, a, b, c) {
      TriangleApart(p, a, b, c);
      if OnSegment(p, a, c) {
        SegmentTurned(p, a, c);
      }
    }
  }

  lemma SegmentTurned(p: Point, a: Point, b: Point)
    requires OnSegment(p, a, b)
    ensures OnSegment(p, b, a)
  {
    hide Lerp, Along;
    var t: real :| 0.0 <= t <= 1.0 && p == Lerp(a, b, t);
    OnNearSide(a.y, b.y, t);
    OnNearSide(a.x, b.x, t);
    assert p == Lerp(b, a, 1.0 - t) by {
      LerpAlong(a, b, t);
      LerpAlong(b, a, 1.0 - t);
    }
  }

  // ------------------------------------------------------------------- fans

  /** The parity of the triangles, among those of the first `n` edges seen from `o`, that hold the point. */
  ghost predicate OddTriangles(ring: Ring, o: Point, p: Point, n: nat)
    requires n <= |ring|
  {
    n > 0 && OddTriangles(ring, o, p, n - 1) != Inside(p, [o, Previous(ring, n - 1), ring[n - 1]])
  }

  lemma {:induction false} FanSoFar(ring: Ring, o: Point, p: Point, n: nat)
    requires ring != [] && n <= |ring|
    ensures OddTriangles(ring, o, p, n)
         == (OddCrossings(Around(ring)[..n + 1], p) != (Crosses(o, Around(ring)[n], p) != Crosses(o, Around(ring)[0], p)))
  {
    hide Inside, Crosses, OddCrossings, Around;
    if n == 0 {
      SinglePointPath(Around(ring)[..1], p);
    } else {
      var u, v := Previous(ring, n - 1), ring[n - 1];
      FanSoFar(ring, o, p, n - 1);
      OneMoreEdge(ring, n - 1, p);
      TriangleParity(o, u, v, p);
      CrossesSymmetric(u, o, p);
      StepsAround(ring, n);
    }
  }

  lemma StepsAround(ring: Ring, n: nat)
    requires 0 < n <= |ring|
    ensures Around(ring)[n] == ring[n - 1] && Around(ring)[n - 1] == Previous(ring, n - 1)
  {
  }

  /** A point is inside a ring exactly if it is inside an odd number of the triangles of its edges, seen from any point. */
  lemma FanParity(ring: Ring, o: Point, p: Point)
    requires ring != []
    ensures Inside(p, ring) == OddTriangles(ring, o, p, |ring|)
  {
    FanSoFar(ring, o, p, |ring|);
    assert Around(ring)[..|ring| + 1] == Around(ring);
  }
}
