/**
 The even-odd ray cast (src/spatial/polygon-reader.ts). Besides the loop itself: the answer does
 not depend on closing, rotating or reversing the ring, inside points lie in the envelope, and
 the answer can only change across the ring.
 */
module RayCast {
  import opened Segments

  type Ring = seq<Point>

  ghost predicate Straddles(vi: Point, vj: Point, y: real) {
    (vi.y > y) != (vj.y > y)
  }

  /** Longitude at which the line of a non-horizontal edge reaches latitude `y`. */
  ghost function XAt(vi: Point, vj: Point, y: real): real
    requires vi.y != vj.y
  {
    (vj.x - vi.x) * (y - vi.y) / (vj.y - vi.y) + vi.x
  }

  /** The ray going right from `p` crosses the edge. */
  ghost predicate Crosses(vi: Point, vj: Point, p: Point) {
    Straddles(vi, vj, p.y) && p.x < XAt(vi, vj, p.y)
  }

  /** Parity of the crossings with the edges of an open path. */
  ghost predicate OddCrossings(path: seq<Point>, p: Point) {
    if |path| < 2 then false else Crosses(path[1], path[0], p) != OddCrossings(path[1..], p)
  }

  /** The path that runs once around the ring. */
  ghost function Around(ring: Ring): (path: seq<Point>)
    requires ring != []
    ensures |path| == |ring| + 1 && path[0] == path[|ring|] == ring[|ring| - 1]
  {
    [ring[|ring| - 1]] + ring
  }

  ghost predicate Inside(p: Point, ring: Ring) {
    ring != [] && OddCrossings(Around(ring), p)
  }

  lemma {:induction false} OddCrossingsJoin(left: seq<Point>, v: Point, right: seq<Point>, p: Point)
    ensures OddCrossings(left + [v] + right, p) == (OddCrossings(left + [v], p) != OddCrossings([v] + right, p))
  {
    if left == [] {
      assert left + [v] + right == [v] + right;
      assert |left + [v]| == 1;
    } else {
      OddCrossingsJoin(left[1..], v, right, p);
      assert (left + [v] + right)[1..] == left[1..] + [v] + right;
      assert (left + [v])[1..] == left[1..] + [v];
      assert (left + [v] + right)[1] == (left + [v])[1];
    }
  }

  lemma OddCrossingsEdge(a: Point, b: Point, p: Point)
    ensures OddCrossings([a, b], p) == Crosses(b, a, p)
  {
    assert [a, b][1..] == [b];
  }

  ghost function Previous(ring: Ring, i: nat): Point
    requires i < |ring|
  {
    ring[if i == 0 then |ring| - 1 else i - 1]
  }

  lemma OneMoreEdge(ring: Ring, i: nat, p: Point)
    requires i < |ring|
    ensures OddCrossings(Around(ring)[..i + 2], p)
         == (OddCrossings(Around(ring)[..i + 1], p) != Crosses(ring[i], Previous(ring, i), p))
  {
    var a, b := Previous(ring, i), ring[i];
    var front := Around(ring)[..i];
    assert Around(ring)[..i + 1] == front + [a];
    assert Around(ring)[..i + 2] == front + [a] + [b];
    OddCrossingsJoin(front, a, [b], p);
    assert [a] + [b] == [a, b];
    OddCrossingsEdge(a, b, p);
  }

  lemma CrossesMeans(vi: Point, vj: Point, p: Point)
    ensures Crosses(vi, vj, p) <==> (vi.y > p.y) != (vj.y > p.y) && p.x < (vj.x - vi.x) * (p.y - vi.y) / (vj.y - vi.y) + vi.x
  {
  }

  method PointInPolygon(lat: real, lon: real, ring: Ring) returns (inside: bool)
    ensures inside <==> Inside(Point(lat, lon), ring)
  {
    hide OddCrossings, Crosses;
    ghost var p := Point(lat, lon);
    inside := false;
    var n := |ring|;
    if n == 0 {
      return;
    }
    var i, j := 0, n - 1;
    SinglePointPath(Around(ring)[..1], p);
    while i < n
      invariant 0 <= i <= n && j == (if i == 0 then n - 1 else i - 1)
      invariant inside == OddCrossings(Around(ring)[..i + 1], p)
    {
      OneMoreEdge(ring, i, p);
      var vi, vj := ring[i], ring[j];
      CrossesMeans(vi, vj, p);
      if (vi.y > lat) != (vj.y > lat) && lon < (vj.x - vi.x) * (lat - vi.y) / (vj.y - vi.y) + vi.x {
        inside := !inside;
      }
      j := i;
      i := i + 1;
    }
    assert Around(ring)[..n + 1] == Around(ring);
  }

  lemma SinglePointPath(path: seq<Point>, p: Point)
    requires |path| == 1
    ensures !OddCrossings(path, p)
  {
  }

  // ------------------------------------------ the ring, not its description

  lemma XAtReversed(a: Point, b: Point, y: real)
    requires a.y != b.y
    ensures XAt(a, b, y) == XAt(b, a, y)
  {
    XAtMeets(a, b, y, XAt(a, b, y));
    XAtMeets(b, a, y, XAt(a, b, y));
  }

  /** `XAt` solves the line equation. */
  lemma XAtMeets(a: Point, b: Point, y: real, x: real)
    requires a.y != b.y
    ensures x == XAt(a, b, y) <==> (x - a.x) * (b.y - a.y) == (b.x - a.x) * (y - a.y)
  {
    var d, n := b.y - a.y, (b.x - a.x) * (y - a.y);
    assert n / d * d == n;
    if (x - a.x) * d == n {
      Cancel(x - a.x, n / d, d);
    }
  }

  lemma CrossesSymmetric(a: Point, b: Point, p: Point)
    ensures Crosses(a, b, p) == Crosses(b, a, p)
  {
    if a.y != b.y {
      XAtReversed(a, b, p.y);
    }
  }

  lemma CrossesSelf(a: Point, p: Point)
    ensures !Crosses(a, a, p)
  {
  }

  lemma OddCrossingsCons(v: Point, rest: seq<Point>, p: Point)
    requires rest != []
    ensures OddCrossings([v] + rest, p) == (Crosses(rest[0], v, p) != OddCrossings(rest, p))
  {
    assert ([v] + rest)[1..] == rest;
  }

  /** The closing edge counts the same at either end of the walk. */
  lemma CloseAtEitherEnd(ring: Ring, p: Point)
    requires ring != []
    ensures OddCrossings(ring + [ring[0]], p) == OddCrossings(Around(ring), p)
  {
    var n, first, last := |ring|, ring[0], ring[|ring| - 1];
    var front := ring[..n - 1];
    OddCrossingsJoin(front, last, [first], p);
    assert front + [last] == ring;
    assert [last] + [first] == [last, first];
    OddCrossingsEdge(last, first, p);
    OddCrossingsCons(last, ring, p);
  }

  /** Repeating the first vertex at the end changes nothing. */
  lemma ClosingKeepsInside(ring: Ring, p: Point)
    requires ring != []
    ensures Inside(p, ring + [ring[0]]) == Inside(p, ring)
  {
    CloseAtEitherEnd(ring, p);
    OddCrossingsCons(ring[0], ring + [ring[0]], p);
    CrossesSelf(ring[0], p);
  }

  /** Starting the ring at its second vertex changes nothing. */
  lemma RotatingOnce(ring: Ring, p: Point)
    requires ring != []
    ensures Inside(p, ring[1..] + [ring[0]]) == Inside(p, ring)
  {
    CloseAtEitherEnd(ring, p);
    var turned := ring[1..] + [ring[0]];
    assert Around(turned) == ring + [ring[0]];
  }

  /** Starting the ring at any other vertex changes nothing. */
  lemma {:induction false} RotatingKeepsInside(ring: Ring, k: nat, p: Point)
    requires k <= |ring|
    ensures Inside(p, ring[k..] + ring[..k]) == Inside(p, ring)
  {
    if k == 0 {
      assert ring[0..] + ring[..0] == ring;
    } else {
      RotatingKeepsInside(ring, k - 1, p);
      var before := ring[k - 1..] + ring[..k - 1];
      RotatingOnce(before, p);
      assert before[1..] + [before[0]] == ring[k..] + ring[..k];
    }
  }

  ghost function Reversed(path: seq<Point>): (r: seq<Point>)
    ensures |r| == |path|
  {
    if path == [] then [] else Reversed(path[1..]) + [path[0]]
  }

  lemma {:induction false} ReversedPath(path: seq<Point>, p: Point)
    ensures OddCrossings(Reversed(path), p) == OddCrossings(path, p)
  {
    if |path| >= 2 {
      var a, b := path[0], path[1];
      ReversedPath(path[1..], p);
      assert path[1..][0] == b;
      var back := Reversed(path[1..][1..]);
      assert Reversed(path[1..]) == back + [b];
      assert Reversed(path) == back + [b] + [a];
      OddCrossingsJoin(back, b, [a], p);
      assert [b] + [a] == [b, a];
      OddCrossingsEdge(b, a, p);
      CrossesSymmetric(a, b, p);
    }
  }

  lemma {:induction false} ReversedAppend(a: seq<Point>, v: Point)
    ensures Reversed(a + [v]) == [v] + Reversed(a)
  {
    if a != [] {
      assert (a + [v])[1..] == a[1..] + [v];
      ReversedAppend(a[1..], v);
    } else {
      assert a + [v] == [v];
    }
  }

  /** Walking the ring the other way changes nothing. */
  lemma ReversingKeepsInside(ring: Ring, p: Point)
    ensures Inside(p, Reversed(ring)) == Inside(p, ring)
  {
    if ring != [] {
      var n, first, last := |ring|, ring[0], ring[|ring| - 1];
      var back := Reversed(ring);
      assert ring == ring[..n - 1] + [last];
      ReversedAppend(ring[..n - 1], last);
      assert back[|back| - 1] == first && back[0] == last;
      ReversedPath(Around(ring), p);
      ReversedAppend([last] + ring[..n - 1], last);
      assert Around(ring) == [last] + ring;
      assert Around(ring)[1..] == ring;
      assert Reversed(Around(ring)) == back + [last];
      assert back + [last] == [last] + back[1..] + [last];
      RotatingOnce(back, p);
      assert back[1..] + [last] == back[1..] + [back[0]];
      var turned := back[1..] + [last];
      assert Around(turned) == [last] + turned;
      assert [last] + turned == back + [last];
    }
  }

  // -------------------------------------------------------------- the envelope

  datatype Envelope = Envelope(latMin: real, latMax: real, lonMin: real, lonMax: real)

  ghost predicate InEnvelope(p: Point, env: Envelope) {
    env.latMin <= p.y <= env.latMax && env.lonMin <= p.x <= env.lonMax
  }

  /** `env` is the least box that holds all these vertices. */
  ghost predicate IsEnvelope(env: Envelope, vertices: seq<Point>) {
    && (forall v :: v in vertices ==> InEnvelope(v, env))
    && (exists v :: v in vertices && v.y == env.latMin)
    && (exists v :: v in vertices && v.y == env.latMax)
    && (exists v :: v in vertices && v.x == env.lonMin)
    && (exists v :: v in vertices && v.x == env.lonMax)
  }

  ghost function EnvelopeOf(ring: Ring): (env: Envelope)
    requires ring != []
    ensures IsEnvelope(env, ring)
  {
    var v := ring[0];
    assert v in ring;
    if |ring| == 1 then Envelope(v.y, v.y, v.x, v.x)
    else
      var e := EnvelopeOf(ring[1..]);
      assert forall w :: w in ring <==> w == v || w in ring[1..];
      Envelope(MinR(v.y, e.latMin), MaxR(v.y, e.latMax), MinR(v.x, e.lonMin), MaxR(v.x, e.lonMax))
  }

  lemma EnvelopeUnique(a: Envelope, b: Envelope, vertices: seq<Point>)
    requires IsEnvelope(a, vertices) && IsEnvelope(b, vertices)
    ensures a == b
  {
  }

  method PolygonEnvelope(ring: Ring) returns (env: Envelope)
    requires ring != []
    ensures env == EnvelopeOf(ring)
  {
    var latMin, latMax := ring[0].y, ring[0].y;
    var lonMin, lonMax := ring[0].x, ring[0].x;
    var k := 1;
    assert ring[0] in ring[..1];
    while k < |ring|
      invariant 1 <= k <= |ring|
      invariant IsEnvelope(Envelope(latMin, latMax, lonMin, lonMax), ring[..k])
    {
      var v := ring[k];
      if v.y < latMin { latMin := v.y; }
      if v.y > latMax { latMax := v.y; }
      if v.x < lonMin { lonMin := v.x; }
      if v.x > lonMax { lonMax := v.x; }
      assert ring[..k + 1] == ring[..k] + [v];
      assert v in ring[..k + 1];
      k := k + 1;
    }
    assert ring[..k] == ring;
    env := Envelope(latMin, latMax, lonMin, lonMax);
    EnvelopeUnique(env, EnvelopeOf(ring), ring);
  }

  lemma XAtBetween(vi: Point, vj: Point, y: real)
    requires Straddles(vi, vj, y)
    ensures MinR(vi.x, vj.x) <= XAt(vi, vj, y) <= MaxR(vi.x, vj.x)
  {
    var t := Fraction(y - vi.y, vj.y - vi.y);
    LerpBetween(vi.x, vj.x, t);
    XAtMeets(vi, vj, y, vi.x + t * (vj.x - vi.x));
    assert t * (vj.x - vi.x) * (vj.y - vi.y) == t * (vj.y - vi.y) * (vj.x - vi.x);
  }

  /** The path is above, below or to the left of the point, all of it. */
  ghost predicate ClearOfRay(path: seq<Point>, p: Point) {
    (forall v :: v in path ==> v.y > p.y) || (forall v :: v in path ==> v.y <= p.y) || (forall v :: v in path ==> v.x <= p.x)
  }

  /** A ray from outside the latitude span, or from the right of the ring, crosses nothing. */
  lemma {:induction false} NothingCrossed(path: seq<Point>, p: Point)
    requires ClearOfRay(path, p)
    ensures !OddCrossings(path, p)
  {
    if |path| >= 2 {
      assert path[0] in path && path[1] in path;
      if Straddles(path[1], path[0], p.y) {
        XAtBetween(path[1], path[0], p.y);
      }
      NothingCrossed(path[1..], p);
    }
  }

  /** A ray from the left of the ring crosses every straddling edge: their parity telescopes. */
  lemma {:induction false} AllStraddlingCrossed(path: seq<Point>, p: Point)
    requires path != [] && forall v :: v in path ==> v.x > p.x
    ensures OddCrossings(path, p) == ((path[0].y > p.y) != (path[|path| - 1].y > p.y))
  {
    if |path| >= 2 {
      assert path[0] in path && path[1] in path;
      if Straddles(path[1], path[0], p.y) {
        XAtBetween(path[1], path[0], p.y);
      }
      AllStraddlingCrossed(path[1..], p);
    }
  }

  /** Inside points lie in the envelope of the ring. */
  lemma InsideInEnvelope(ring: Ring, p: Point)
    requires Inside(p, ring)
    ensures InEnvelope(p, EnvelopeOf(ring))
  {
    var env, path := EnvelopeOf(ring), Around(ring);
    assert forall v :: v in path ==> v in ring;
    if p.y < env.latMin || p.y > env.latMax || p.x > env.lonMax {
      NothingCrossed(path, p);
    } else if p.x < env.lonMin {
      AllStraddlingCrossed(path, p);
    }
  }
}
