/**
Point-in-polygon by ray casting, in exact real arithmetic.

`tol` and `guard` stand for the two literals of the source, 1e-10 and 1e-20. Division by zero follows
IEEE 754: a signed infinity compares like one, and a quotient 0/0 makes the comparison false.
*/
module PolygonTest {
  import opened Common

  type Width = r: real | 0.0 <= r

  datatype Point = Point(x: real, y: real)

  const TOL := 0.0000000001
  const GUARD := 0.00000000000000000001

  function Min(a: real, b: real): real { if b < a then b else a }

  function Max(a: real, b: real): real { if a < b then b else a }

  /** `px < n / d + x`, with the IEEE meaning of a zero divisor. */
  predicate LeftOf(px: real, n: real, d: real, x: real) {
    if d == 0.0 then n > 0.0 else px < n / d + x
  }

  /** The edge from vertex `b` (index j) to vertex `a` (index i) passes within `tol` of the point. */
  predicate OnEdge(p: Point, a: Point, b: Point, tol: Width) {
    var dx, dy := b.x - a.x, b.y - a.y;
    if Abs(dy) > tol then
      var t := (p.y - a.y) / dy;
      0.0 <= t <= 1.0 && Abs(p.x - (a.x + t * dx)) < tol
    else
      Abs(p.y - a.y) < tol && Min(a.x, b.x) <= p.x <= Max(a.x, b.x)
  }

  /** The point is on the level of the point at part `t` of the segment and within `tol` of it. */
  predicate NearPart(p: Point, a: Point, b: Point, tol: Width, t: real) {
    0.0 <= t <= 1.0 && p.y == a.y + t * (b.y - a.y) && Abs(p.x - (a.x + t * (b.x - a.x))) < tol
  }

  /**
  On an edge higher than the tolerance: within it, to the left or right, of some point of the segment. On one lower:
  within it above or below the first end, and in the segment's range.
  */
  lemma OnEdgeExactly(p: Point, a: Point, b: Point, tol: Width)
    ensures Abs(b.y - a.y) > tol ==> (OnEdge(p, a, b, tol) <==> exists t :: NearPart(p, a, b, tol, t))
    ensures Abs(b.y - a.y) <= tol ==>
      (OnEdge(p, a, b, tol) <==> Abs(p.y - a.y) < tol && Min(a.x, b.x) <= p.x <= Max(a.x, b.x))
  {
    if Abs(b.y - a.y) > tol {
      var s := (p.y - a.y) / (b.y - a.y);
      OnEdgePart(p, a, b, tol, s);
      hide OnEdge, NearPart;
      forall t | NearPart(p, a, b, tol, t)
        ensures OnEdge(p, a, b, tol)
      {
        PartOnEdge(p, a, b, tol, t);
      }
    }
  }

  lemma PartOnEdge(p: Point, a: Point, b: Point, tol: Width, t: real)
    requires Abs(b.y - a.y) > tol && NearPart(p, a, b, tol, t)
    ensures OnEdge(p, a, b, tol)
  {
    var dx, dy, h := b.x - a.x, b.y - a.y, p.y - a.y;
    var s := Quotient(h, dy);
    assert h == t * dy;
    SamePart(t, s, dy, h);
    hide Abs;
  }

  lemma OnEdgePart(p: Point, a: Point, b: Point, tol: Width, t: real)
    requires Abs(b.y - a.y) > tol && t == (p.y - a.y) / (b.y - a.y)
    ensures OnEdge(p, a, b, tol) ==> NearPart(p, a, b, tol, t)
  {
    var s := Quotient(p.y - a.y, b.y - a.y);
    assert s == t;
    hide Abs;
  }

  lemma SamePart(t: real, s: real, d: real, h: real)
    requires d != 0.0 && h == t * d && s * d == h
    ensures t == s
  {
    assert (t - s) * d == t * d - s * d;
    ZeroFactor(t - s, d);
  }

  predicate Straddles(p: Point, a: Point, b: Point) {
    (a.y > p.y) != (b.y > p.y)
  }

  /** The ray from the point to the right crosses the edge. */
  predicate Crosses(p: Point, a: Point, b: Point, guard: Width) {
    Straddles(p, a, b) && LeftOf(p.x, (b.x - a.x) * (p.y - a.y), b.y - a.y + guard, a.x)
  }

  function Before(n: nat, i: nat): (j: nat)
    requires i < n
    ensures j < n
  {
    if i == 0 then n - 1 else i - 1
  }

  /** Edge `i` of the closed polygon runs between vertex `i` and the one before it. */
  ghost predicate OnSomeEdge(p: Point, poly: seq<Point>, tol: Width) {
    exists i :: 0 <= i < |poly| && OnEdge(p, poly[i], poly[Before(|poly|, i)], tol)
  }

  predicate Odd(n: nat) { n % 2 == 1 }

  function Bit(b: bool): nat { if b then 1 else 0 }

  /** How many of the first `n` edges the ray crosses. */
  function Crossings(p: Point, poly: seq<Point>, guard: Width, n: nat): nat
    requires n <= |poly|
  {
    if n == 0 then 0
    else Crossings(p, poly, guard, n - 1) + Bit(Crosses(p, poly[n - 1], poly[Before(|poly|, n - 1)], guard))
  }

  /** What the test decides: on an edge, or an odd number of crossings. */
  ghost predicate Inside(p: Point, poly: seq<Point>, tol: Width, guard: Width) {
    |poly| >= 3 && (OnSomeEdge(p, poly, tol) || Odd(Crossings(p, poly, guard, |poly|)))
  }

  lemma CrossingsParity(p: Point, poly: seq<Point>, guard: Width, i: nat)
    requires i < |poly|
    ensures
      Odd(Crossings(p, poly, guard, i + 1)) <==>
      Odd(Crossings(p, poly, guard, i)) != Crosses(p, poly[i], poly[Before(|poly|, i)], guard)
  {
    hide Crosses;
  }

  /** The loop of the source: it toggles `inside` edge by edge and returns early on an edge. */
  method IsPointInPolygon(p: Point, poly: seq<Point>, tol: Width, guard: Width) returns (inside: bool)
    ensures inside <==> Inside(p, poly, tol, guard)
    ensures |poly| < 3 ==> !inside
  {
    var n := |poly|;
    if n < 3 {
      return false;
    }
    assert Crossings(p, poly, guard, 0) == 0;
    hide OnEdge, Crosses, Crossings;
    inside := false;
    var i, j := 0, n - 1;
    while i < n
      invariant 0 <= i <= n && (i < n ==> j == Before(n, i))
      invariant forall k :: 0 <= k < i ==> !OnEdge(p, poly[k], poly[Before(n, k)], tol)
      invariant inside <==> Odd(Crossings(p, poly, guard, i))
    {
      CrossingsParity(p, poly, guard, i);
      if OnEdge(p, poly[i], poly[j], tol) {
        return true;
      }
      if Crosses(p, poly[i], poly[j], guard) {
        inside := !inside;
      }
      j := i;
      i := i + 1;
    }
  }

  // ----- the answer depends on the edges, not on where the list starts or which way it runs -----

  function Rotated(poly: seq<Point>): seq<Point>
    requires poly != []
  {
    poly[1..] + [poly[0]]
  }

  lemma {:induction false} RotatedCrossings(p: Point, poly: seq<Point>, guard: Width, n: nat)
    requires n < |poly|
    ensures Crossings(p, Rotated(poly), guard, n) == Crossings(p, poly, guard, n + 1) - Crossings(p, poly, guard, 1)
  {
    if n > 0 {
      RotatedCrossings(p, poly, guard, n - 1);
      var r := Rotated(poly);
      assert r[n - 1] == poly[n] && r[Before(|r|, n - 1)] == poly[n - 1];
    }
  }

  function Onward(n: nat, k: nat): (i: nat)
    requires k < n
    ensures i < n && Before(n, i) == k
  {
    if k + 1 < n then k + 1 else 0
  }

  lemma RotatedVertex(poly: seq<Point>, i: nat)
    requires i < |poly|
    ensures Rotated(poly)[Before(|poly|, i)] == poly[i]
  {
  }

  lemma RotatedEdges(p: Point, poly: seq<Point>, tol: Width)
    requires poly != []
    ensures OnSomeEdge(p, Rotated(poly), tol) <==> OnSomeEdge(p, poly, tol)
  {
    var r, n := Rotated(poly), |poly|;
    if OnSomeEdge(p, poly, tol) {
      var i: nat :| i < n && OnEdge(p, poly[i], poly[Before(n, i)], tol);
      var k := Before(n, i);
      RotatedVertex(poly, i);
      RotatedVertex(poly, k);
      assert OnEdge(p, r[k], r[Before(n, k)], tol);
    } else {
      forall k: nat | k < n ensures !OnEdge(p, r[k], r[Before(n, k)], tol) {
        var i := Onward(n, k);
        RotatedVertex(poly, i);
        RotatedVertex(poly, k);
        assert !OnEdge(p, poly[i], poly[Before(n, i)], tol);
      }
    }
  }

  /** For every polygon, point and pair of literals, starting the vertex list elsewhere changes nothing. */
  lemma {:induction false} RotationInvariant(p: Point, poly: seq<Point>, tol: Width, guard: Width, k: nat)
    requires k <= |poly|
    ensures Inside(p, poly[k..] + poly[..k], tol, guard) <==> Inside(p, poly, tol, guard)
  {
    if k == 0 {
      assert poly[0..] + poly[..0] == poly;
    } else {
      RotationInvariant(p, poly, tol, guard, k - 1);
      var r := poly[k - 1..] + poly[..k - 1];
      assert Rotated(r) == poly[k..] + poly[..k];
      RotatedEdges(p, r, tol);
      RotatedTotal(p, r, guard);
    }
  }

  lemma RotatedTotal(p: Point, poly: seq<Point>, guard: Width)
    requires poly != []
    ensures Crossings(p, Rotated(poly), guard, |poly|) == Crossings(p, poly, guard, |poly|)
  {
    var r, n := Rotated(poly), |poly|;
    RotatedCrossings(p, poly, guard, n - 1);
    assert r[n - 1] == poly[0] && r[Before(n, n - 1)] == poly[n - 1];
    assert Crossings(p, poly, guard, 0) == 0;
  }

  /** Twice the signed area of the triangle `a`, `b`, `c`: positive when it turns left. */
  function Orient(a: Point, b: Point, c: Point): real {
    (b.x - a.x) * (c.y - a.y) - (b.y - a.y) * (c.x - a.x)
  }

  lemma QuotientBelow(px: real, n: real, d: real, x: real)
    requires d != 0.0
    ensures px < n / d + x <==> if d > 0.0 then (px - x) * d < n else (px - x) * d > n
  {
    var q := n / d;
    assert q * d == n;
    var e := px - x - q;
    assert (px - x) * d == n + e * d;
    if d > 0.0 {
      assert e < 0.0 <==> e * d < 0.0;
    } else {
      assert e < 0.0 <==> e * d > 0.0;
    }
  }

  /** The guard literal lifts the far end of the edge: a crossing is decided by the side of that lifted edge. */
  lemma CrossesByLiftedSide(p: Point, a: Point, b: Point, guard: Width)
    ensures
      var side, rise := Orient(a, Point(b.x, b.y + guard), p), b.y - a.y + guard;
      Crosses(p, a, b, guard) <==> Straddles(p, a, b) && if rise >= 0.0 then side > 0.0 else side < 0.0
  {
    var dx, rise, h, e := b.x - a.x, b.y - a.y + guard, p.y - a.y, p.x - a.x;
    var n := dx * h;
    assert Orient(a, Point(b.x, b.y + guard), p) == n - rise * e;
    assert (p.x - a.x) * rise == rise * e;
    hide Orient, Straddles;
    if rise != 0.0 {
      QuotientBelow(p.x, n, rise, a.x);
    }
  }

  /** Without the guard literal it is the side of the edge itself. */
  lemma CrossesBySide(p: Point, a: Point, b: Point)
    ensures Crosses(p, a, b, 0.0) <==>
      Straddles(p, a, b) && if b.y > a.y then Orient(a, b, p) > 0.0 else Orient(a, b, p) < 0.0
  {
    CrossesByLiftedSide(p, a, b, 0.0);
    assert Point(b.x, b.y + 0.0) == b;
  }

  lemma OrientSwap(a: Point, b: Point, p: Point)
    ensures Orient(b, a, p) == -Orient(a, b, p)
  {
    var u, v := b.x - a.x, b.y - a.y;
    var s, t := p.x - a.x, p.y - a.y;
    assert p.x - b.x == s - u && p.y - b.y == t - v;
    assert Orient(b, a, p) == (-u) * (t - v) - (-v) * (s - u);
    assert (-u) * (t - v) == -(u * t) + u * v;
    assert (-v) * (s - u) == -(v * s) + v * u;
  }

  /** An edge the tolerance does not treat as horizontal unless it is. */
  predicate Clear(a: Point, b: Point, tol: Width) {
    a.y == b.y || Abs(b.y - a.y) > tol
  }

  /** An edge whose crossings do not depend on its direction: guard zero, level, or vertical. */
  predicate Undirected(a: Point, b: Point, guard: Width) {
    guard == 0.0 || a.y == b.y || (a.x == b.x && Abs(b.y - a.y) != guard)
  }

  predicate Reversible(a: Point, b: Point, tol: Width, guard: Width) { Clear(a, b, tol) && Undirected(a, b, guard) }

  lemma CrossesSwap(p: Point, a: Point, b: Point, guard: Width)
    requires Undirected(a, b, guard)
    ensures Crosses(p, a, b, guard) <==> Crosses(p, b, a, guard)
  {
    if guard == 0.0 {
      CrossesBySide(p, a, b);
      CrossesBySide(p, b, a);
      OrientSwap(a, b, p);
    } else if Straddles(p, a, b) {
      var h, h' := p.y - a.y, p.y - b.y;
      assert (b.x - a.x) * h == 0.0 && (a.x - b.x) * h' == 0.0;
      ZeroQuotient(b.y - a.y + guard);
      ZeroQuotient(a.y - b.y + guard);
    }
  }

  lemma ZeroQuotient(d: real)
    requires d != 0.0
    ensures 0.0 / d == 0.0
  {
  }

  lemma ZeroFactor(e: real, d: real)
    requires d != 0.0 && e * d == 0.0
    ensures e == 0.0
  {
    assert e == (e * d) / d;
  }

  ghost predicate AllReversible(poly: seq<Point>, tol: Width, guard: Width) {
    forall i :: 0 <= i < |poly| ==> Reversible(poly[i], poly[Before(|poly|, i)], tol, guard)
  }

  lemma OnEdgeSwap(p: Point, a: Point, b: Point, tol: Width)
    requires Clear(a, b, tol)
    ensures OnEdge(p, a, b, tol) <==> OnEdge(p, b, a, tol)
  {
    var dx, dy := b.x - a.x, b.y - a.y;
    if Abs(dy) > tol {
      var t, t' := (p.y - a.y) / dy, (p.y - b.y) / (-dy);
      assert t * dy == p.y - a.y && t' * (-dy) == p.y - b.y;
      assert (t + t' - 1.0) * dy == t * dy - t' * (-dy) - dy;
      assert (t + t' - 1.0) * dy == 0.0;
      ZeroFactor(t + t' - 1.0, dy);
      assert t' == 1.0 - t;
      assert b.x + t' * (-dx) == a.x + t * dx;
    }
  }

  function Reversed(poly: seq<Point>): (r: seq<Point>)
    ensures |r| == |poly| && forall k :: 0 <= k < |poly| ==> r[k] == poly[|poly| - 1 - k]
  {
    if poly == [] then [] else Reversed(poly[1..]) + [poly[0]]
  }

  lemma {:induction false} ReversedCrossings(p: Point, poly: seq<Point>, tol: Width, guard: Width, n: nat)
    requires 1 <= n <= |poly| && AllReversible(poly, tol, guard)
    ensures Crossings(p, Reversed(poly), guard, n)
            == Crossings(p, poly, guard, 1) + Crossings(p, poly, guard, |poly|)
               - Crossings(p, poly, guard, |poly| - n + 1)
  {
    var r, len := Reversed(poly), |poly|;
    if n == 1 {
      CrossesSwap(p, poly[0], poly[len - 1], guard);
      assert r[0] == poly[len - 1] && r[len - 1] == poly[0];
      assert Crossings(p, r, guard, 0) == 0 == Crossings(p, poly, guard, 0);
    } else {
      ReversedCrossings(p, poly, tol, guard, n - 1);
      CrossesSwap(p, poly[len - n + 1], poly[len - n], guard);
      assert r[n - 1] == poly[len - n] && r[n - 2] == poly[len - n + 1];
    }
  }

  lemma ReversedEdge(p: Point, poly: seq<Point>, tol: Width, i: nat)
    requires i < |poly| && Clear(poly[i], poly[Before(|poly|, i)], tol)
    ensures
      var r, k := Reversed(poly), if i == 0 then 0 else |poly| - i;
      OnEdge(p, poly[i], poly[Before(|poly|, i)], tol) <==> OnEdge(p, r[k], r[Before(|r|, k)], tol)
  {
    var r, k := Reversed(poly), if i == 0 then 0 else |poly| - i;
    assert r[k] == poly[Before(|poly|, i)] && r[Before(|r|, k)] == poly[i];
    OnEdgeSwap(p, poly[i], poly[Before(|poly|, i)], tol);
  }

  lemma ReversedEdges(p: Point, poly: seq<Point>, tol: Width, guard: Width)
    requires AllReversible(poly, tol, guard)
    ensures OnSomeEdge(p, Reversed(poly), tol) <==> OnSomeEdge(p, poly, tol)
  {
    var r, n := Reversed(poly), |poly|;
    if OnSomeEdge(p, poly, tol) {
      var i: nat :| 0 <= i < n && OnEdge(p, poly[i], poly[Before(n, i)], tol);
      ReversedEdge(p, poly, tol, i);
    }
    if OnSomeEdge(p, r, tol) {
      var k: nat :| 0 <= k < n && OnEdge(p, r[k], r[Before(n, k)], tol);
      ReversedEdge(p, poly, tol, if k == 0 then 0 else n - k);
    }
  }

  /** Listing the vertices in the other direction changes nothing either when every edge is reversible. */
  lemma ReversalInvariant(p: Point, poly: seq<Point>, tol: Width, guard: Width)
    requires AllReversible(poly, tol, guard)
    ensures Inside(p, Reversed(poly), tol, guard) <==> Inside(p, poly, tol, guard)
  {
    ReversedEdges(p, poly, tol, guard);
    if poly != [] {
      ReversedCrossings(p, poly, tol, guard, |poly|);
    }
  }

  /** What the loop decides about one edge, in both directions. */
  predicate SameBothWays(p: Point, a: Point, b: Point, tol: Width, guard: Width) {
    && (OnEdge(p, a, b, tol) <==> OnEdge(p, b, a, tol))
    && (Crosses(p, a, b, guard) <==> Crosses(p, b, a, guard))
  }

  /** A nearly level edge reaches a little farther beyond the end it is measured from. */
  lemma NearlyLevelDiffers(a: Point, b: Point, tol: Width) returns (p: Point)
    requires !Clear(a, b, tol)
    ensures OnEdge(p, a, b, tol) && !OnEdge(p, b, a, tol)
  {
    var dy := b.y - a.y;
    var k := tol - Abs(dy) / 2.0;
    p := Point(a.x, if dy > 0.0 then a.y - k else a.y + k);
    assert Abs(p.y - a.y) == k < tol;
    assert Abs(p.y - b.y) == k + Abs(dy) >= tol;
  }

  lemma InterceptsApart(dx: real, dy: real, g: real, q: real)
    requires q * (dy - g) == -(dx * dy) && dx != 0.0 && g > 0.0
    ensures q != -dx
  {
    assert (-dx) * (dy - g) == -(dx * dy) + dx * g;
    SignOf(dx, g);
  }

  /** A rising edge that is neither vertical nor read without a guard: seen from its lower end the directions differ. */
  lemma DirectionsDiffer(a: Point, b: Point, guard: Width) returns (p: Point)
    requires a.y < b.y && guard > 0.0 && (a.x != b.x || b.y - a.y == guard)
    ensures Crosses(p, a, b, guard) != Crosses(p, b, a, guard)
  {
    var dx, dy, d := b.x - a.x, b.y - a.y, a.y - b.y + guard;
    assert (b.x - a.x) * (a.y - a.y) == 0.0;
    ZeroQuotient(dy + guard);
    assert (a.x - b.x) * (a.y - b.y) == dx * dy;
    if d == 0.0 {
      p := Point(if dx > 0.0 then a.x else a.x - 1.0, a.y);
      SignOf(dx, dy);
    } else {
      var q := Quotient(dx * dy, d);
      assert q * (dy - guard) == -(q * d);
      InterceptsApart(dx, dy, guard, q);
      p := Point(Min(q + b.x, a.x), a.y);
    }
  }

  /** Direction does not matter to an edge, at any point, exactly when it is reversible. */
  lemma ReversibleExactly(a: Point, b: Point, tol: Width, guard: Width)
    ensures (forall p :: SameBothWays(p, a, b, tol, guard)) <==> Reversible(a, b, tol, guard)
  {
    if Reversible(a, b, tol, guard) {
      forall p
        ensures SameBothWays(p, a, b, tol, guard)
      {
        OnEdgeSwap(p, a, b, tol);
        CrossesSwap(p, a, b, guard);
      }
    } else if !Clear(a, b, tol) {
      var p := NearlyLevelDiffers(a, b, tol);
      assert !SameBothWays(p, a, b, tol, guard);
    } else {
      var p;
      if a.y < b.y {
        p := DirectionsDiffer(a, b, guard);
      } else {
        p := DirectionsDiffer(b, a, guard);
      }
      assert !SameBothWays(p, a, b, tol, guard);
    }
  }

  // ----- outside the bounding box -----

  ghost predicate Below(p: Point, poly: seq<Point>, m: Width) { forall v :: v in poly ==> p.y < v.y - m }
  ghost predicate Above(p: Point, poly: seq<Point>, m: Width) { forall v :: v in poly ==> p.y > v.y + m }
  ghost predicate LeftSide(p: Point, poly: seq<Point>, m: Width) { forall v :: v in poly ==> p.x < v.x - m }
  ghost predicate RightSide(p: Point, poly: seq<Point>, m: Width) { forall v :: v in poly ==> p.x > v.x + m }

  /** Farther than `m` from the bounding box on some side. */
  ghost predicate OutsideBox(p: Point, poly: seq<Point>, m: Width) {
    Below(p, poly, m) || Above(p, poly, m) || LeftSide(p, poly, m) || RightSide(p, poly, m)
  }

  /**
  How far the guard literal may move the intercept of an edge. Only a descending edge can be moved out of its range:
  one higher than the guard is stretched, one lower is turned over, and one of just that height divides by zero.
  */
  predicate Steady(a: Point, b: Point, guard: Width, m: Width) {
    var w, d := Abs(b.x - a.x), a.y - b.y;
    d > 0.0 ==>
      if d > guard then w * guard <= m * (d - guard)
      else d < guard && w * d <= m * (guard - d)
  }

  /** A height `h` above the edge's start, an edge of extent `dx` and signed height `rise` that is steady. */
  predicate SteadyAt(dx: real, h: real, rise: real, guard: Width, m: Width) {
    || 0.0 <= h < rise
    || (rise <= h < 0.0 && -rise > guard && Abs(dx) * guard <= m * (-rise - guard))
    || (rise <= h < 0.0 && -rise < guard && Abs(dx) * (-rise) <= m * (guard + rise))
  }

  lemma Scaled(d: real, r: real)
    requires 0.0 <= r <= 1.0
    ensures Min(0.0, d) <= d * r <= Max(0.0, d)
  {
    assert d * (1.0 - r) == d - d * r;
    if d >= 0.0 {
      NonNegProduct(d, r);
      NonNegProduct(d, 1.0 - r);
    } else {
      NonNegProduct(-d, r);
      NonNegProduct(-d, 1.0 - r);
      assert (-d) * r == -(d * r) && (-d) * (1.0 - r) == -(d * (1.0 - r));
    }
  }

  lemma Cancel(n: real, d: real, q: real)
    requires d != 0.0 && q * d == n
    ensures n / d == q
  {
    ZeroFactor(n / d - q, d);
  }

  lemma DivideOut(u: real, v: real, d: real)
    requires d > 0.0 && u * d <= v * d
    ensures u <= v
  {
    assert (v - u) * d >= 0.0;
  }

  lemma RatioAtMostOne(h: real, d: real)
    requires d > 0.0 && 0.0 <= h <= d
    ensures 0.0 <= h / d <= 1.0
  {
    var r := h / d;
    assert r * d == h;
    DivideOut(0.0, r, d);
    DivideOut(r, 1.0, d);
  }

  /** On an edge that descends by `d + guard`, the guard stretches the parameter range from [0,1] to [0,1+e]. */
  lemma RatioDescending(h: real, d: real, guard: Width)
    requires d > 0.0 && 0.0 <= h <= d + guard
    ensures 0.0 <= h / d <= 1.0 + guard / d
  {
    var r := Quotient(h, d);
    var e := Quotient(guard, d);
    DivideOut(0.0, r, d);
    AtMostSum(r, e, d, h, guard);
  }

  lemma Quotient(n: real, d: real) returns (q: real)
    requires d != 0.0
    ensures q == n / d && q * d == n
  {
    q := n / d;
  }

  lemma AtMostSum(r: real, e: real, d: real, h: real, g: real)
    requires d > 0.0 && r * d == h && e * d == g && h <= d + g
    ensures r <= 1.0 + e
  {
    assert (r - e) * d == r * d - e * d;
    DivideOut(r - e, 1.0, d);
  }

  lemma NonNegProduct(u: real, v: real)
    requires 0.0 <= u && 0.0 <= v
    ensures 0.0 <= u * v
  {
  }

  lemma Stretched(dx: real, r: real, e: real, m: Width)
    requires 0.0 <= r <= 1.0 + e && 0.0 <= e && Abs(dx) * e <= m
    ensures Min(0.0, dx) - m <= dx * r <= Max(0.0, dx) + m
  {
    if r <= 1.0 {
      Scaled(dx, r);
    } else {
      var k := r - 1.0;
      NonNegProduct(Abs(dx), e - k);
      assert Abs(dx) * (e - k) == Abs(dx) * e - Abs(dx) * k;
      NonNegProduct(Abs(dx), k);
      assert dx * r == dx + dx * k;
      assert dx * k == if dx < 0.0 then -(Abs(dx) * k) else Abs(dx) * k;
    }
  }

  lemma ScaledQuotient(dx: real, h: real, d: real)
    requires d != 0.0
    ensures dx * h / d == dx * (h / d)
  {
    var r := h / d;
    assert r * d == h;
    assert (dx * r) * d == dx * (r * d);
    Cancel(dx * h, d, dx * r);
  }

  lemma NegatedQuotient(h: real, d: real)
    requires d != 0.0
    ensures (-h) / (-d) == h / d
  {
    var r := h / d;
    assert r * d == h;
    assert r * (-d) == -(r * d);
    Cancel(-h, -d, r);
  }

  /** A straddling edge is met within its x-range, give or take `m`: `dx` is its extent, `h` how far up the
      point is, `rise` its signed height. */
  lemma InterceptInRange(dx: real, h: real, rise: real, guard: Width, m: Width)
    requires SteadyAt(dx, h, rise, guard, m)
    ensures rise + guard != 0.0
    ensures Min(0.0, dx) - m <= dx * h / (rise + guard) <= Max(0.0, dx) + m
  {
    var d := rise + guard;
    if rise > 0.0 {
      InterceptRising(dx, h, d, m);
    } else if d > 0.0 {
      InterceptShort(dx, h, -rise, d, m);
    } else {
      assert -rise - guard == -d;
      InterceptFalling(dx, h, d, guard, m);
    }
  }

  lemma LeftOfDecided(px: real, n: real, d: real, x: real, dx: real, m: Width)
    requires d != 0.0 && Min(0.0, dx) - m <= n / d <= Max(0.0, dx) + m
    ensures px < x - m && px < x + dx - m ==> LeftOf(px, n, d, x)
    ensures px > x + m && px > x + dx + m ==> !LeftOf(px, n, d, x)
  {
  }

  lemma InterceptRising(dx: real, h: real, d: real, m: Width)
    requires d > 0.0 && 0.0 <= h <= d
    ensures Min(0.0, dx) - m <= dx * h / d <= Max(0.0, dx) + m
  {
    ScaledQuotient(dx, h, d);
    RatioAtMostOne(h, d);
    Scaled(dx, h / d);
  }

  lemma InterceptFalling(dx: real, h: real, d: real, guard: Width, m: Width)
    requires d < 0.0 && 0.0 <= -h <= -d + guard && Abs(dx) * guard <= m * (-d)
    ensures Min(0.0, dx) - m <= dx * h / d <= Max(0.0, dx) + m
  {
    ScaledQuotient(dx, h, d);
    RatioDescending(-h, -d, guard);
    NegatedQuotient(h, d);
    SteadyShift(dx, guard, -d, m);
    Stretched(dx, h / d, guard / (-d), m);
  }

  /** An edge lower than the guard is met on the other side of its start, at most `m` away. */
  lemma InterceptShort(dx: real, h: real, drop: real, d: real, m: Width)
    requires d > 0.0 && 0.0 < -h <= drop && Abs(dx) * drop <= m * d
    ensures Min(0.0, dx) - m <= dx * h / d <= Max(0.0, dx) + m
  {
    var r := Quotient(h, d);
    var e := Quotient(drop, d);
    ScaledQuotient(dx, h, d);
    DivideOut(r, 0.0, d);
    assert (-r) * d == -h;
    DivideOut(-r, e, d);
    SteadyShift(dx, drop, d, m);
    ShrunkBy(dx, -r, e, m);
    assert dx * r == -(dx * (-r));
  }

  lemma ShrunkBy(dx: real, r: real, e: real, m: real)
    requires 0.0 <= r <= e && Abs(dx) * e <= m
    ensures -m <= dx * r <= m
  {
    NonNegProduct(Abs(dx), e - r);
    assert Abs(dx) * (e - r) == Abs(dx) * e - Abs(dx) * r;
    NonNegProduct(Abs(dx), r);
    assert dx * r == if dx < 0.0 then -(Abs(dx) * r) else Abs(dx) * r;
  }

  lemma SteadyShift(dx: real, guard: Width, d: real, m: Width)
    requires d > 0.0 && Abs(dx) * guard <= m * d
    ensures 0.0 <= guard / d && Abs(dx) * (guard / d) <= m
  {
    var e := guard / d;
    assert e * d == guard;
    DivideOut(0.0, e, d);
    assert (Abs(dx) * e) * d == Abs(dx) * (e * d);
    DivideOut(Abs(dx) * e, m, d);
  }

  predicate OutsideOf(p: Point, a: Point, b: Point, m: Width) {
    || (p.y < a.y - m && p.y < b.y - m)
    || (p.y > a.y + m && p.y > b.y + m)
    || (p.x < a.x - m && p.x < b.x - m)
    || (p.x > a.x + m && p.x > b.x + m)
  }

  lemma NotOnEdge(p: Point, a: Point, b: Point, tol: Width)
    requires OutsideOf(p, a, b, tol)
    ensures !OnEdge(p, a, b, tol)
  {
    var dx, dy := b.x - a.x, b.y - a.y;
    if Abs(dy) > tol {
      var t := (p.y - a.y) / dy;
      assert t * dy == p.y - a.y;
      if 0.0 <= t && t <= 1.0 {
        Scaled(dx, t);
        Scaled(dy, t);
        assert dy * t == p.y - a.y;
        assert dx * t == t * dx;
        var x := a.x + t * dx;
        assert Min(a.x, b.x) <= x <= Max(a.x, b.x);
        assert Min(a.y, b.y) <= p.y <= Max(a.y, b.y);
        assert Abs(p.x - x) >= tol;
      }
    }
  }

  lemma SteadyStraddling(p: Point, a: Point, b: Point, guard: Width, m: Width)
    requires Steady(a, b, guard, m) && Straddles(p, a, b)
    ensures SteadyAt(b.x - a.x, p.y - a.y, b.y - a.y, guard, m)
  {
    var rise := b.y - a.y;
    assert a.y - b.y == -rise && -rise - guard == a.y - b.y - guard && guard + rise == guard - (a.y - b.y);
  }

  lemma OutsideCrossing(p: Point, a: Point, b: Point, guard: Width, m: Width)
    requires OutsideOf(p, a, b, m) && Steady(a, b, guard, m)
    ensures Crosses(p, a, b, guard) <==> Straddles(p, a, b) && p.x < a.x - m && p.x < b.x - m
  {
    if Straddles(p, a, b) {
      SteadyStraddling(p, a, b, guard, m);
      hide Steady, SteadyAt;
      CrossingDecided(p.x, a.x, b.x - a.x, p.y - a.y, b.y - a.y, guard, m);
    }
  }

  // What an edge decides about the points outside its range, exactly.

  predicate Decided(p: Point, a: Point, b: Point, guard: Width, m: Width) {
    Crosses(p, a, b, guard) <==> Straddles(p, a, b) && p.x < a.x - m && p.x < b.x - m
  }

  lemma DivideOutStrict(u: real, v: real, d: real)
    requires d > 0.0 && u * d < v * d
    ensures u < v
  {
    assert (v - u) * d > 0.0;
  }

  lemma Overshoot(w: real, g: real, d: real, m: Width) returns (e: real, k: real)
    requires d > 0.0 && w * g > m * d
    ensures e == g / d && e * d == g && m < k < w * e
  {
    e := Quotient(g, d);
    assert (w * e) * d == w * (e * d);
    DivideOutStrict(m, w * e, d);
    k := (m + w * e) / 2.0;
  }

  /** A descending edge higher than the guard, stretched by more than `m`. */
  lemma StretchedOut(a: Point, b: Point, guard: Width, m: Width) returns (p: Point)
    requires a.y - b.y > guard && Abs(b.x - a.x) * guard > m * (a.y - b.y - guard)
    ensures OutsideOf(p, a, b, m) && !Decided(p, a, b, guard, m)
  {
    var dx, drop := b.x - a.x, a.y - b.y;
    var e, k := Overshoot(Abs(dx), guard, drop - guard, m);
    var q := dx + dx * e;
    StretchedAt(dx, drop, guard, e);
    Cancel(dx * (-drop), -drop + guard, q);
    assert dx * e == if dx < 0.0 then -(Abs(dx) * e) else Abs(dx) * e;
    NonZeroFactor(dx, guard, m, drop - guard);
    p := Point(if dx > 0.0 then b.x + k else b.x - k, b.y);
    assert p.y - a.y == -drop && b.y - a.y == -drop;
    assert LeftOf(p.x, dx * (-drop), -drop + guard, a.x) <==> p.x < q + a.x;
  }

  lemma StretchedAt(dx: real, drop: real, guard: real, e: real)
    requires e * (drop - guard) == guard
    ensures (dx + dx * e) * (-drop + guard) == dx * (-drop)
  {
    var d := drop - guard;
    assert (dx * e) * d == dx * (e * d);
    assert (dx + dx * e) * d == dx * d + (dx * e) * d;
    assert dx * d == dx * drop - dx * guard;
    assert (dx + dx * e) * (-d) == -((dx + dx * e) * d);
  }

  lemma NonZeroFactor(dx: real, g: real, m: Width, d: real)
    requires d > 0.0 && Abs(dx) * g > m * d
    ensures dx != 0.0
  {
    NonNegProduct(m, d);
  }

  /** A descending edge lower than the guard, met more than `m` beyond its start. */
  lemma TurnedOver(a: Point, b: Point, guard: Width, m: Width) returns (p: Point)
    requires 0.0 < a.y - b.y < guard && Abs(b.x - a.x) * (a.y - b.y) > m * (guard - (a.y - b.y))
    ensures OutsideOf(p, a, b, m) && !Decided(p, a, b, guard, m)
  {
    var dx, drop := b.x - a.x, a.y - b.y;
    var e, k := Overshoot(Abs(dx), drop, guard - drop, m);
    var q := -(dx * e);
    assert q * (-drop + guard) == -(dx * (e * (guard - drop)));
    assert -(dx * drop) == dx * (-drop);
    Cancel(dx * (-drop), -drop + guard, q);
    assert dx * e == if dx < 0.0 then -(Abs(dx) * e) else Abs(dx) * e;
    NonZeroFactor(dx, drop, m, guard - drop);
    p := Point(if dx > 0.0 then a.x - k else a.x + k, b.y);
    assert p.y - a.y == -drop && b.y - a.y == -drop;
    assert LeftOf(p.x, dx * (-drop), -drop + guard, a.x) <==> p.x < q + a.x;
  }

  /** A descending edge of just the guard's height divides by zero and is always misplaced. */
  lemma DividedByZero(a: Point, b: Point, guard: Width, m: Width) returns (p: Point)
    requires 0.0 < a.y - b.y == guard
    ensures OutsideOf(p, a, b, m) && !Decided(p, a, b, guard, m)
  {
    var dx, g: real := b.x - a.x, guard;
    p := Point(if dx < 0.0 then a.x + m + 1.0 else a.x - m - 1.0, b.y);
    assert p.y - a.y == -g;
    if dx < 0.0 {
      assert dx * (-g) > 0.0;
    } else {
      assert dx * (-g) <= 0.0;
    }
  }

  /** An edge decides every point outside its range rightly exactly when it is steady. */
  lemma EdgeExactly(a: Point, b: Point, guard: Width, m: Width)
    ensures (forall p :: OutsideOf(p, a, b, m) ==> Decided(p, a, b, guard, m)) <==> Steady(a, b, guard, m)
  {
    if Steady(a, b, guard, m) {
      forall p | OutsideOf(p, a, b, m)
        ensures Decided(p, a, b, guard, m)
      {
        OutsideCrossing(p, a, b, guard, m);
      }
    } else {
      var p;
      if a.y - b.y > guard {
        p := StretchedOut(a, b, guard, m);
      } else if a.y - b.y < guard {
        p := TurnedOver(a, b, guard, m);
      } else {
        p := DividedByZero(a, b, guard, m);
      }
    }
  }

  lemma CrossingDecided(px: real, x: real, dx: real, h: real, rise: real, guard: Width, m: Width)
    requires SteadyAt(dx, h, rise, guard, m)
    ensures px < x - m && px < x + dx - m ==> LeftOf(px, dx * h, rise + guard, x)
    ensures px > x + m && px > x + dx + m ==> !LeftOf(px, dx * h, rise + guard, x)
  {
    InterceptInRange(dx, h, rise, guard, m);
    LeftOfDecided(px, dx * h, rise + guard, x, dx, m);
  }

  lemma EdgeOutside(p: Point, poly: seq<Point>, a: Point, b: Point, m: Width)
    requires OutsideBox(p, poly, m) && a in poly && b in poly
    ensures OutsideOf(p, a, b, m)
    ensures Straddles(p, a, b) && p.x < a.x - m && p.x < b.x - m ==> LeftSide(p, poly, m)
    ensures LeftSide(p, poly, m) ==> p.x < a.x - m && p.x < b.x - m
  {
  }

  lemma CrossingOutside(p: Point, poly: seq<Point>, guard: Width, m: Width, a: Point, b: Point)
    requires OutsideBox(p, poly, m) && a in poly && b in poly && Steady(a, b, guard, m)
    ensures Crosses(p, a, b, guard) <==> Straddles(p, a, b) && LeftSide(p, poly, m)
  {
    EdgeOutside(p, poly, a, b, m);
    OutsideCrossing(p, a, b, guard, m);
  }

  /** Where crossings are the sign changes around the polygon, or none at all, their number is even up to the last. */
  lemma {:induction false} CrossingParity(p: Point, poly: seq<Point>, guard: Width, left: bool, n: nat)
    requires n <= |poly|
    requires forall i :: 0 <= i < |poly| ==>
      (Crosses(p, poly[i], poly[Before(|poly|, i)], guard) <==> Straddles(p, poly[i], poly[Before(|poly|, i)]) && left)
    ensures Crossings(p, poly, guard, n) % 2 ==
      if n == 0 || !left then 0 else Bit((poly[n - 1].y > p.y) != (poly[|poly| - 1].y > p.y))
  {
    if n > 0 {
      CrossingParity(p, poly, guard, left, n - 1);
      var a, b := poly[n - 1], poly[Before(|poly|, n - 1)];
      assert Crosses(p, a, b, guard) <==> Straddles(p, a, b) && left;
    }
  }

  /** A point farther from the bounding box than the tolerance is classified outside when every edge is steady. */
  lemma OutsideBoxIsOutside(p: Point, poly: seq<Point>, tol: Width, guard: Width, m: Width)
    requires OutsideBox(p, poly, m) && tol <= m
    requires forall i :: 0 <= i < |poly| ==> Steady(poly[i], poly[Before(|poly|, i)], guard, m)
    ensures !Inside(p, poly, tol, guard)
  {
    forall i | 0 <= i < |poly|
      ensures Crosses(p, poly[i], poly[Before(|poly|, i)], guard)
              <==> Straddles(p, poly[i], poly[Before(|poly|, i)]) && LeftSide(p, poly, m)
    {
      CrossingOutside(p, poly, guard, m, poly[i], poly[Before(|poly|, i)]);
    }
    CrossingParity(p, poly, guard, LeftSide(p, poly, m), |poly|);
    forall i | 0 <= i < |poly| ensures !OnEdge(p, poly[i], poly[Before(|poly|, i)], tol) {
      EdgeOutside(p, poly, poly[i], poly[Before(|poly|, i)], m);
      NotOnEdge(p, poly[i], poly[Before(|poly|, i)], tol);
    }
  }

  /** Without the guard literal this holds of every polygon. */
  lemma OutsideBoxExact(p: Point, poly: seq<Point>, tol: Width)
    requires OutsideBox(p, poly, tol)
    ensures !Inside(p, poly, tol, 0.0)
  {
    OutsideBoxIsOutside(p, poly, tol, 0.0, tol);
  }

  /** With the source's own literals the condition on the edges cannot be dropped: this point lies two units
      right of its triangle and is still classified inside. */
  lemma GuardMovesIntercept()
    ensures
      var poly := [Point(10.0, 0.0), Point(0.0, 0.00000000000000000002), Point(5.0, -1.0)];
      var p := Point(12.0, 0.000000000000000000005);
      RightSide(p, poly, 1.0) && Inside(p, poly, 0.0000000001, 0.00000000000000000001)
  {
    var a, b, c := Point(10.0, 0.0), Point(0.0, 2.0 * GUARD), Point(5.0, -1.0);
    var poly, p := [a, b, c], Point(12.0, 0.5 * GUARD);
    assert !Crosses(p, a, c, GUARD);
    assert Crosses(p, b, a, GUARD) by {
      Cancel((a.x - b.x) * (p.y - b.y), a.y - b.y + GUARD, 15.0);
    }
    assert !Crosses(p, c, b, GUARD) by {
      var n, d := (b.x - c.x) * (p.y - c.y), b.y - c.y + GUARD;
      assert n < 0.0 && d > 0.0;
      var q := n / d;
      assert q * d == n;
      assert q < 0.0;
    }
    assert Crossings(p, poly, GUARD, 0) == 0;
    assert Crossings(p, poly, GUARD, 1) == 0;
    assert Crossings(p, poly, GUARD, 2) == 1;
    assert Crossings(p, poly, GUARD, 3) == 1;
  }

  // ----- triangles -----

  /** The point lies on the same closed side of all three edges. */
  predicate InTriangle(p: Point, a: Point, b: Point, c: Point) {
    || (Orient(a, b, p) >= 0.0 && Orient(b, c, p) >= 0.0 && Orient(c, a, p) >= 0.0)
    || (Orient(a, b, p) <= 0.0 && Orient(b, c, p) <= 0.0 && Orient(c, a, p) <= 0.0)
  }

  /** The three side values weigh the vertices to give the point. */
  lemma Barycentric(p: Point, a: Point, b: Point, c: Point)
    ensures Orient(a, b, p) + Orient(b, c, p) + Orient(c, a, p) == Orient(a, b, c)
    ensures (c.y - p.y) * Orient(a, b, p) + (a.y - p.y) * Orient(b, c, p) + (b.y - p.y) * Orient(c, a, p) == 0.0
    ensures (c.x - p.x) * Orient(a, b, p) + (a.x - p.x) * Orient(b, c, p) + (b.x - p.x) * Orient(c, a, p) == 0.0
  {
    var a1, a2, b1, b2, c1, c2 := a.x - p.x, a.y - p.y, b.x - p.x, b.y - p.y, c.x - p.x, c.y - p.y;
    OrientFromPoint(p, a, b);
    OrientFromPoint(p, b, c);
    OrientFromPoint(p, c, a);
    assert Orient(a, b, c) == (b1 - a1) * (c2 - a2) - (b2 - a2) * (c1 - a1);
    AreaIdentity(a1, a2, b1, b2, c1, c2);
  }

  lemma AreaIdentity(a1: real, a2: real, b1: real, b2: real, c1: real, c2: real)
    ensures (b1 - a1) * (c2 - a2) - (b2 - a2) * (c1 - a1)
            == (a1 * b2 - a2 * b1) + (b1 * c2 - b2 * c1) + (c1 * a2 - c2 * a1)
    ensures c2 * (a1 * b2 - a2 * b1) + a2 * (b1 * c2 - b2 * c1) + b2 * (c1 * a2 - c2 * a1) == 0.0
    ensures c1 * (a1 * b2 - a2 * b1) + a1 * (b1 * c2 - b2 * c1) + b1 * (c1 * a2 - c2 * a1) == 0.0
  {
  }

  lemma OrientFromPoint(p: Point, a: Point, b: Point)
    ensures Orient(a, b, p) == (a.x - p.x) * (b.y - p.y) - (a.y - p.y) * (b.x - p.x)
  {
    var a1, a2, b1, b2 := a.x - p.x, a.y - p.y, b.x - p.x, b.y - p.y;
    assert Orient(a, b, p) == (b1 - a1) * (-a2) - (b2 - a2) * (-a1);
    assert (b1 - a1) * (-a2) == -(b1 * a2) + a1 * a2;
    assert (b2 - a2) * (-a1) == -(b2 * a1) + a2 * a1;
  }

  lemma AlongEdge(dx: real, dy: real, h: real, e: real)
    requires (0.0 <= h < dy) || (dy <= h < 0.0)
    requires e * dy == dx * h
    ensures 0.0 <= h / dy <= 1.0 && h / dy * dx == e && Min(0.0, dx) <= e <= Max(0.0, dx)
    ensures h == dy ==> e == dx
  {
    if dy > 0.0 {
      RatioAtMostOne(h, dy);
    } else {
      RatioAtMostOne(-h, -dy);
      NegatedQuotient(h, dy);
    }
    ScaledQuotient(dx, h, dy);
    Cancel(dx * h, dy, e);
    Scaled(dx, h / dy);
    assert h == dy ==> h / dy == 1.0;
    assert h / dy == 1.0 ==> dx * (h / dy) == dx;
  }

  /** A point other than its end on the line of a straddling edge is on the edge. */
  lemma OnStraddlingEdge(p: Point, a: Point, b: Point, tol: Width)
    requires Straddles(p, a, b) && Orient(a, b, p) == 0.0 && tol > 0.0 && p != b
    ensures OnEdge(p, a, b, tol)
  {
    var dx, dy, h, e := b.x - a.x, b.y - a.y, p.y - a.y, p.x - a.x;
    assert e * dy == dx * h;
    AlongEdge(dx, dy, h, e);
    var t := h / dy;
    assert a.x + t * dx == p.x;
  }

  /** A vertex is on every edge that starts there. */
  lemma OnOwnEdge(a: Point, b: Point, tol: Width)
    requires tol > 0.0
    ensures OnEdge(a, a, b, tol)
  {
  }

  /** Seen from the vertex that lies alone on its side of the horizontal line through the point,
      with both edges at that vertex straddling: one crossing exactly when the point is inside. */
  lemma TwoStraddlingEdges(p: Point, a: Point, b: Point, c: Point)
    requires (a.y > p.y) != (b.y > p.y) && (b.y > p.y) == (c.y > p.y)
    requires Orient(a, b, p) != 0.0 && Orient(c, a, p) != 0.0
    ensures Bit(Crosses(p, b, a, 0.0)) + Bit(Crosses(p, a, c, 0.0)) + Bit(Crosses(p, c, b, 0.0)) == 1
            <==> InTriangle(p, a, b, c)
    ensures !Crosses(p, c, b, 0.0)
  {
    var u, v, w := Orient(a, b, p), Orient(c, a, p), Orient(b, c, p);
    CrossesBySide(p, b, a);
    CrossesBySide(p, a, c);
    OrientSwap(a, b, p);
    OrientSwap(c, a, p);
    Barycentric(p, a, b, c);
    var i, j, k := a.y - p.y, b.y - p.y, c.y - p.y;
    assert i * w == -(k * u) - j * v;
    if u > 0.0 && v > 0.0 {
      SideOfThird(i, j, k, u, v, w);
    } else if u < 0.0 && v < 0.0 {
      assert k * (-u) == -(k * u) && j * (-v) == -(j * v) && i * (-w) == -(i * w);
      SideOfThird(i, j, k, -u, -v, -w);
    }
  }

  lemma SideOfThird(i: real, j: real, k: real, u: real, v: real, w: real)
    requires i * w == -(k * u) - j * v && u > 0.0 && v > 0.0
    requires (i > 0.0 && j <= 0.0 && k <= 0.0) || (i <= 0.0 && j > 0.0 && k > 0.0)
    ensures w >= 0.0
  {
    if i > 0.0 {
      NonNegProduct(-k, u);
      NonNegProduct(-j, v);
      assert (-k) * u == -(k * u) && (-j) * v == -(j * v);
      assert i * w >= 0.0;
      DivideOut(0.0, w, i);
    } else {
      assert k * u > 0.0 && j * v > 0.0;
      assert i * w < 0.0;
      if w < 0.0 {
        NonNegProduct(-i, -w);
      }
    }
  }

  lemma OnLevelEdge(p: Point, a: Point, b: Point, tol: Width)
    requires tol > 0.0 && a.y == b.y == p.y && Min(a.x, b.x) <= p.x <= Max(a.x, b.x)
    ensures OnEdge(p, a, b, tol)
  {
  }

  /** All vertices on one side of the horizontal line through the point: inside the triangle means on its rim. */
  lemma NoStraddlingEdge(p: Point, a: Point, b: Point, c: Point, tol: Width)
    requires (a.y > p.y) == (b.y > p.y) == (c.y > p.y)
    requires Orient(a, b, c) != 0.0 && InTriangle(p, a, b, c)
    requires tol > 0.0 && p != a && p != b && p != c
    ensures OnEdge(p, a, c, tol) || OnEdge(p, b, a, tol) || OnEdge(p, c, b, tol)
  {
    Barycentric(p, a, b, c);
    var u, v, w := Orient(a, b, p), Orient(b, c, p), Orient(c, a, p);
    if u >= 0.0 && v >= 0.0 && w >= 0.0 {
      LevelWeights(p, a, b, c, u, v, w, tol);
    } else {
      assert (c.y - p.y) * (-u) == -((c.y - p.y) * u) && (a.y - p.y) * (-v) == -((a.y - p.y) * v)
             && (b.y - p.y) * (-w) == -((b.y - p.y) * w);
      assert (c.x - p.x) * (-u) == -((c.x - p.x) * u) && (a.x - p.x) * (-v) == -((a.x - p.x) * v)
             && (b.x - p.x) * (-w) == -((b.x - p.x) * w);
      LevelWeights(p, a, b, c, -u, -v, -w, tol);
    }
  }

  /** `u`, `v`, `w` weigh `c`, `a`, `b`; a vertex off the level of the point weighs nothing. */
  lemma LevelWeights(p: Point, a: Point, b: Point, c: Point, u: real, v: real, w: real, tol: Width)
    requires u >= 0.0 && v >= 0.0 && w >= 0.0 && u + v + w > 0.0
    requires (c.y - p.y) * u + (a.y - p.y) * v + (b.y - p.y) * w == 0.0
    requires (c.x - p.x) * u + (a.x - p.x) * v + (b.x - p.x) * w == 0.0
    requires (a.y > p.y) == (b.y > p.y) == (c.y > p.y)
    requires tol > 0.0 && p != a && p != b && p != c
    ensures OnEdge(p, a, c, tol) || OnEdge(p, b, a, tol) || OnEdge(p, c, b, tol)
  {
    OffLevel(c.y - p.y, u, a.y - p.y, v, b.y - p.y, w);
    OnRim(p, a, b, c, c.x - p.x, a.x - p.x, b.x - p.x, u, v, w, tol);
  }

  lemma OnRim(p: Point, a: Point, b: Point, c: Point, i: real, j: real, k: real, u: real, v: real, w: real, tol: Width)
    requires i == c.x - p.x && j == a.x - p.x && k == b.x - p.x
    requires u >= 0.0 && v >= 0.0 && w >= 0.0 && u + v + w > 0.0 && i * u + j * v + k * w == 0.0
    requires (u == 0.0 || c.y == p.y) && (v == 0.0 || a.y == p.y) && (w == 0.0 || b.y == p.y)
    requires tol > 0.0 && p != a && p != b && p != c
    ensures OnEdge(p, a, c, tol) || OnEdge(p, b, a, tol) || OnEdge(p, c, b, tol)
  {
    if u == 0.0 {
      WeighTwo(p, b, a, k, j, w, v, tol);
    } else if v == 0.0 {
      WeighTwo(p, c, b, i, k, u, w, tol);
    } else if w == 0.0 {
      WeighTwo(p, a, c, j, i, v, u, tol);
    } else {
      LevelThree(p, a, b, c, i, j, k, u, v, w, tol);
    }
  }

  /** Products of one sign that sum to zero all vanish. */
  lemma OffLevel(i: real, u: real, j: real, v: real, k: real, w: real)
    requires u >= 0.0 && v >= 0.0 && w >= 0.0 && i * u + j * v + k * w == 0.0
    requires (i > 0.0 && j > 0.0 && k > 0.0) || (i <= 0.0 && j <= 0.0 && k <= 0.0)
    ensures (u == 0.0 || i == 0.0) && (v == 0.0 || j == 0.0) && (w == 0.0 || k == 0.0)
  {
    if i > 0.0 {
      NonNegProduct(i, u);
      NonNegProduct(j, v);
      NonNegProduct(k, w);
    } else {
      NonNegProduct(-i, u);
      NonNegProduct(-j, v);
      NonNegProduct(-k, w);
      assert (-i) * u == -(i * u) && (-j) * v == -(j * v) && (-k) * w == -(k * w);
    }
    assert i * u == 0.0 && j * v == 0.0 && k * w == 0.0;
    if u != 0.0 { ZeroFactor(i, u); }
    if v != 0.0 { ZeroFactor(j, v); }
    if w != 0.0 { ZeroFactor(k, w); }
  }

  lemma ZeroFactors(i: real, s: real, j: real, t: real)
    requires i * s + j * t == 0.0
    ensures t == 0.0 && s != 0.0 ==> i == 0.0
    ensures s == 0.0 && t != 0.0 ==> j == 0.0
  {
    if t == 0.0 && s != 0.0 {
      ZeroFactor(i, s);
    }
    if s == 0.0 && t != 0.0 {
      ZeroFactor(j, t);
    }
  }

  lemma WeighTwo(p: Point, a: Point, b: Point, i: real, j: real, s: real, t: real, tol: Width)
    requires i == a.x - p.x && j == b.x - p.x
    requires s >= 0.0 && t >= 0.0 && s + t > 0.0 && tol > 0.0 && p != a && p != b
    requires (s == 0.0 || a.y == p.y) && (t == 0.0 || b.y == p.y)
    requires i * s + j * t == 0.0
    ensures OnEdge(p, a, b, tol)
  {
    ZeroFactors(i, s, j, t);
    Between(i, s, j, t);
    OnLevelEdge(p, a, b, tol);
  }

  lemma SignOf(j: real, t: real)
    requires t > 0.0
    ensures (j * t < 0.0 <==> j < 0.0) && (j * t > 0.0 <==> j > 0.0)
  {
    if j < 0.0 {
      assert (-j) * t > 0.0;
      assert (-j) * t == -(j * t);
    }
  }

  lemma Between(i: real, s: real, j: real, t: real)
    requires s > 0.0 && t > 0.0 && i * s + j * t == 0.0
    ensures Min(i, j) <= 0.0 <= Max(i, j)
  {
    SignOf(i, s);
    SignOf(j, t);
  }

  lemma LevelThree(p: Point, a: Point, b: Point, c: Point, i: real, j: real, k: real, u: real, v: real, w: real,
                   tol: Width)
    requires i == c.x - p.x && j == a.x - p.x && k == b.x - p.x
    requires u > 0.0 && v > 0.0 && w > 0.0 && tol > 0.0 && i * u + j * v + k * w == 0.0
    requires a.y == b.y == c.y == p.y
    ensures OnEdge(p, a, c, tol) || OnEdge(p, b, a, tol)
  {
    OneOpposite(i, u, j, v, k, w);
    if Min(j, i) <= 0.0 <= Max(j, i) {
      OnLevelEdge(p, a, c, tol);
    } else {
      OnLevelEdge(p, b, a, tol);
    }
  }

  lemma OneOpposite(i: real, u: real, j: real, v: real, k: real, w: real)
    requires u > 0.0 && v > 0.0 && w > 0.0 && i * u + j * v + k * w == 0.0
    ensures Min(j, i) <= 0.0 <= Max(j, i) || Min(j, k) <= 0.0 <= Max(j, k)
  {
    SignOf(i, u);
    SignOf(j, v);
    SignOf(k, w);
  }

  /** On every non-degenerate triangle the test answers yes exactly for the points of the closed triangle
      and those within the tolerance of an edge. */
  lemma TriangleExact(p: Point, a: Point, b: Point, c: Point, tol: Width)
    requires Orient(a, b, c) != 0.0 && tol > 0.0
    ensures Inside(p, [a, b, c], tol, 0.0) <==> InTriangle(p, a, b, c) || OnSomeEdge(p, [a, b, c], tol)
  {
    var poly := [a, b, c];
    assert poly[Before(3, 0)] == c && poly[Before(3, 1)] == a && poly[Before(3, 2)] == b;
    var n := Bit(Crosses(p, a, c, 0.0)) + Bit(Crosses(p, b, a, 0.0)) + Bit(Crosses(p, c, b, 0.0));
    assert Crossings(p, poly, 0.0, 3) == n by {
      assert Crossings(p, poly, 0.0, 0) == 0;
      assert Crossings(p, poly, 0.0, 1) == Bit(Crosses(p, a, c, 0.0));
      assert Crossings(p, poly, 0.0, 2) == Crossings(p, poly, 0.0, 1) + Bit(Crosses(p, b, a, 0.0));
    }
    if !OnSomeEdge(p, poly, tol) {
      assert !OnEdge(p, poly[0], c, tol) && !OnEdge(p, poly[1], a, tol) && !OnEdge(p, poly[2], b, tol);
      TriangleOffEdges(p, a, b, c, tol);
    }
  }

  lemma TriangleOffEdges(p: Point, a: Point, b: Point, c: Point, tol: Width)
    requires Orient(a, b, c) != 0.0
    requires tol > 0.0 && !OnEdge(p, a, c, tol) && !OnEdge(p, b, a, tol) && !OnEdge(p, c, b, tol)
    ensures (Bit(Crosses(p, a, c, 0.0)) + Bit(Crosses(p, b, a, 0.0)) + Bit(Crosses(p, c, b, 0.0))) % 2 == 1
            <==> InTriangle(p, a, b, c)
  {
    OnOwnEdge(a, c, tol);
    OnOwnEdge(b, a, tol);
    OnOwnEdge(c, b, tol);
    OffLine(p, a, c, tol);
    OffLine(p, b, a, tol);
    OffLine(p, c, b, tol);
    OrientSwap(a, c, p);
    OrientSwap(b, a, p);
    OrientSwap(c, b, p);
    if (a.y > p.y) == (b.y > p.y) == (c.y > p.y) {
      if InTriangle(p, a, b, c) {
        NoStraddlingEdge(p, a, b, c, tol);
      }
    } else if (b.y > p.y) == (c.y > p.y) {
      TwoStraddlingEdges(p, a, b, c);
    } else if (c.y > p.y) == (a.y > p.y) {
      TwoStraddlingEdges(p, b, c, a);
    } else {
      TwoStraddlingEdges(p, c, a, b);
    }
  }

  lemma OffLine(p: Point, a: Point, b: Point, tol: Width)
    requires tol > 0.0 && p != b && !OnEdge(p, a, b, tol)
    ensures Straddles(p, a, b) ==> Orient(a, b, p) != 0.0
  {
    if Straddles(p, a, b) && Orient(a, b, p) == 0.0 {
      OnStraddlingEdge(p, a, b, tol);
    }
  }
}
