/**
One-pass segmentation of a radar scan into regions that lie inside the limit polygon.

A region opens at an inside point and closes on the fifth outside point in a row. The region object is
obtained once per scan and never renewed, so every region of a scan is the same object.
*/
module ScanSegmentation {
  import opened Common
  import opened PolygonTest

  const END_MISSES := 5
  const PADDING := 600

  const ORIGIN := Point(0.0, 0.0)

  class Region {
    var points: seq<Point>
    var angle: real
    var size: int
  }

  // ----- what a scan means -----

  /** The scan without the points at the origin, which the loop skips. */
  function Valid(scan: seq<Point>): seq<Point> {
    if scan == [] then []
    else
      var n := |scan| - 1;
      if scan[n] == ORIGIN then Valid(scan[..n]) else Valid(scan[..n]) + [scan[n]]
  }

  ghost predicate Hit(p: Point, poly: seq<Point>) {
    Inside(p, poly, TOL, GUARD)
  }

  ghost function Hits(pts: seq<Point>, poly: seq<Point>): (h: seq<bool>)
    ensures |h| == |pts|
  {
    if pts == [] then [] else Hits(pts[..|pts| - 1], poly) + [Hit(pts[|pts| - 1], poly)]
  }

  /** The inside points among `pts`, in scan order. */
  ghost function Inner(pts: seq<Point>, poly: seq<Point>): (r: seq<Point>) {
    if pts == [] then []
    else
      var n := |pts| - 1;
      Inner(pts[..n], poly) + if Hit(pts[n], poly) then [pts[n]] else []
  }

  /** After `k` points a region is open exactly when one of the last five of them was inside. */
  ghost predicate Open(h: seq<bool>, k: nat)
    requires k <= |h|
  {
    exists j :: 0 <= j < k && k - END_MISSES <= j && h[j]
  }

  ghost predicate Rises(h: seq<bool>, k: nat)
    requires k < |h|
  {
    !Open(h, k) && Open(h, k + 1)
  }

  ghost predicate Falls(h: seq<bool>, k: nat)
    requires k < |h|
  {
    Open(h, k) && !Open(h, k + 1)
  }

  function HitCount(h: seq<bool>, k: nat): nat
    requires k <= |h|
  {
    if k == 0 then 0 else HitCount(h, k - 1) + if h[k - 1] then 1 else 0
  }

  /** Closed regions that are kept: the object holds more than five points when the region closes. */
  ghost function Kept(h: seq<bool>, base: nat, k: nat): nat
    requires k <= |h|
  {
    if k == 0 then 0
    else Kept(h, base, k - 1) + if Falls(h, k - 1) && base + HitCount(h, k) > 5 then 1 else 0
  }

  ghost function RiseCount(h: seq<bool>, k: nat): nat
    requires k <= |h|
  {
    if k == 0 then 0 else RiseCount(h, k - 1) + if Rises(h, k - 1) then 1 else 0
  }

  /** The angle left on the object: that of the middle point at the last kept closing. */
  ghost function Angle(pts: seq<Point>, poly: seq<Point>, start: seq<Point>, bearing: Point -> real,
                       initial: real): real
  {
    if pts == [] then initial
    else
      var n := |pts| - 1;
      var all := start + Inner(pts, poly);
      if Falls(Hits(pts, poly), n) && |all| > 5
      then bearing(all[|all| / 2 - 1])
      else Angle(pts[..n], poly, start, bearing, initial)
  }

  // ----- one more point -----

  lemma AppendPoint(pts: seq<Point>, p: Point, poly: seq<Point>, start: seq<Point>, bearing: Point -> real,
                    initial: real)
    ensures Hits(pts + [p], poly) == Hits(pts, poly) + [Hit(p, poly)]
    ensures Inner(pts + [p], poly) == Inner(pts, poly) + if Hit(p, poly) then [p] else []
    ensures
      var all := start + Inner(pts + [p], poly);
      Angle(pts + [p], poly, start, bearing, initial)
      == if Falls(Hits(pts + [p], poly), |pts|) && |all| > 5 then bearing(all[|all| / 2 - 1])
         else Angle(pts, poly, start, bearing, initial)
  {
    assert (pts + [p])[..|pts|] == pts;
  }

  /** The two loop variables against the points seen so far. */
  ghost predicate Marked(h: seq<bool>, open: bool, misses: int) {
    && (open <==> Open(h, |h|))
    && 0 <= misses < END_MISSES
    && (open ==> misses < |h| && h[|h| - 1 - misses] && forall k :: |h| - misses <= k < |h| ==> !h[k])
  }

  lemma HitStep(h: seq<bool>, open: bool, misses: int)
    requires Marked(h, open, misses)
    ensures Marked(h + [true], true, 0) && !Falls(h + [true], |h|)
  {
    assert (h + [true])[|h|];
  }

  lemma MissStep(h: seq<bool>, open: bool, misses: int)
    requires Marked(h, open, misses)
    ensures misses + 1 < END_MISSES ==> Marked(h + [false], open, misses + 1) && !Falls(h + [false], |h|)
    ensures misses + 1 >= END_MISSES ==> Marked(h + [false], false, 0) && (Falls(h + [false], |h|) <==> open)
  {
    var h' := h + [false];
    OpenPrefix(h, false, |h|);
    if open && misses + 1 < END_MISSES {
      assert h'[|h| - 1 - misses];
      assert Open(h', |h'|);
    }
    if Open(h', |h'|) {
      var j :| 0 <= j < |h'| && |h'| - END_MISSES <= j && h'[j];
      assert h[j] && |h| - END_MISSES <= j;
      assert Open(h, |h|);
    }
  }

  lemma OpenPrefix(h: seq<bool>, b: bool, k: nat)
    requires k <= |h|
    ensures Open(h + [b], k) <==> Open(h, k)
  {
    assert forall j :: 0 <= j < k ==> (h + [b])[j] == h[j];
  }

  lemma {:induction false} PrefixCounts(h: seq<bool>, b: bool, base: nat, k: nat)
    requires k <= |h|
    ensures HitCount(h + [b], k) == HitCount(h, k)
    ensures Kept(h + [b], base, k) == Kept(h, base, k)
  {
    if k > 0 {
      OpenPrefix(h, b, k);
      OpenPrefix(h, b, k - 1);
      PrefixCounts(h, b, base, k - 1);
    }
  }

  lemma AppendCounts(h: seq<bool>, b: bool, base: nat)
    ensures HitCount(h + [b], |h| + 1) == HitCount(h, |h|) + if b then 1 else 0
    ensures Kept(h + [b], base, |h| + 1)
            == Kept(h, base, |h|) + if Falls(h + [b], |h|) && base + HitCount(h + [b], |h| + 1) > 5 then 1 else 0
  {
    PrefixCounts(h, b, base, |h|);
  }

  // ----- the loop -----

  /** One point that is not at the origin. */
  method Visit(obj: Region, point: Point, inside: bool, open: bool, misses: int, bearing: Point -> real,
               ghost h: seq<bool>)
    returns (open': bool, misses': int, closed: bool)
    requires Marked(h, open, misses)
    modifies obj
    ensures Marked(h + [inside], open', misses')
    ensures closed <==> Falls(h + [inside], |h|) && |obj.points| > 5
    ensures obj.points == old(obj.points) + if inside then [point] else []
    ensures obj.size == old(obj.size) + if inside then 1 else 0
    ensures obj.angle == if closed then bearing(obj.points[|obj.points| / 2 - 1]) else old(obj.angle)
  {
    open', misses', closed := open, misses, false;
    if inside {
      HitStep(h, open, misses);
      open' := true;
      obj.points := obj.points + [point];
      obj.size := obj.size + 1;
      misses' := 0;
    } else {
      MissStep(h, open, misses);
      misses' := misses' + 1;
      if misses' >= END_MISSES {
        if open {
          if |obj.points| > 5 {
            obj.angle := bearing(obj.points[|obj.points| / 2 - 1]);
            closed := true;
          }
          open' := false;
        }
        misses' := 0;
      }
    }
  }

  /** What the object and the list hold after the points `pts`. */
  ghost predicate Recorded(pts: seq<Point>, poly: seq<Point>, start: seq<Point>, bearing: Point -> real, initial: real,
                           size: int, points: seq<Point>, added: int, angle: real, kept: int)
  {
    var h := Hits(pts, poly);
    && points == start + Inner(pts, poly)
    && |Inner(pts, poly)| == HitCount(h, |h|)
    && added == size + HitCount(h, |h|)
    && angle == Angle(pts, poly, start, bearing, initial)
    && kept == Kept(h, |start|, |h|)
  }

  lemma OpenHasPoints(pts: seq<Point>, poly: seq<Point>, open: bool, misses: int)
    requires Marked(Hits(pts, poly), open, misses)
    requires |Inner(pts, poly)| == HitCount(Hits(pts, poly), |pts|)
    ensures open ==> Inner(pts, poly) != []
  {
    if open {
      HitCountPositive(Hits(pts, poly), |pts| - 1 - misses, |pts|);
    }
  }

  lemma SkipOrigin(scan: seq<Point>, i: nat)
    requires i < |scan|
    ensures Valid(scan[..i + 1]) == if scan[i] == ORIGIN then Valid(scan[..i]) else Valid(scan[..i]) + [scan[i]]
  {
    assert scan[..i + 1][..i] == scan[..i];
  }

  lemma RecordPoint(pts: seq<Point>, p: Point, poly: seq<Point>, start: seq<Point>, bearing: Point -> real,
                    initial: real,
                    size: int, points: seq<Point>, added: int, angle: real, kept: int)
    requires Recorded(pts, poly, start, bearing, initial, size, points, added, angle, kept)
    ensures
      var inside := Hit(p, poly);
      var points' := points + if inside then [p] else [];
      var closed := Falls(Hits(pts, poly) + [inside], |pts|) && |points'| > 5;
      Recorded(pts + [p], poly, start, bearing, initial, size, points', added + if inside then 1 else 0,
               if closed then bearing(points'[|points'| / 2 - 1]) else angle,
               kept + if closed then 1 else 0)
  {
    AppendPoint(pts, p, poly, start, bearing, initial);
    AppendCounts(Hits(pts, poly), Hit(p, poly), |start|);
  }

  /** Tests one point and visits it. */
  method Absorb(obj: Region, point: Point, poly: seq<Point>, open: bool, misses: int, bearing: Point -> real,
                ghost pts: seq<Point>, ghost start: seq<Point>, ghost initial: real, ghost size: int, ghost kept: int)
    returns (open': bool, misses': int, closed: bool)
    requires |poly| >= 3 && Marked(Hits(pts, poly), open, misses)
    requires Recorded(pts, poly, start, bearing, initial, size, obj.points, obj.size, obj.angle, kept)
    modifies obj
    ensures Marked(Hits(pts + [point], poly), open', misses')
    ensures Recorded(pts + [point], poly, start, bearing, initial, size, obj.points, obj.size, obj.angle,
                     kept + if closed then 1 else 0)
  {
    var inside := IsPointInPolygon(point, poly, TOL, GUARD);
    AppendPoint(pts, point, poly, start, bearing, initial);
    RecordPoint(pts, point, poly, start, bearing, initial, size, obj.points, obj.size, obj.angle, kept);
    open', misses', closed := Visit(obj, point, inside, open, misses, bearing, Hits(pts, poly));
  }

  /** Segments a scan into `obj`; `bearing` stands for the angle of a point seen from the centre. */
  method Segment(scan: seq<Point>, poly: seq<Point>, obj: Region, bearing: Point -> real) returns (regions: seq<Region>)
    modifies obj
    ensures |poly| < 3 ==> regions == [] && unchanged(obj)
    ensures |poly| >= 3 ==>
      var pts := Valid(scan);
      var h := Hits(pts, poly);
      && obj.points == old(obj.points) + Inner(pts, poly)
      && obj.size == old(obj.size) + HitCount(h, |h|)
      && obj.angle == Angle(pts, poly, old(obj.points), bearing, old(obj.angle))
      && |regions| == Kept(h, |old(obj.points)|, |h|) + (if Open(h, |h|) then 1 else 0)
      && forall r :: r in regions ==> r == obj
  {
    regions := [];
    if |poly| < 3 {
      return;
    }
    ghost var start, initial, size := obj.points, obj.angle, obj.size;
    ghost var pts := [];
    var open, misses, i := false, 0, 0;
    while i < |scan|
      invariant 0 <= i <= |scan| && pts == Valid(scan[..i])
      invariant Marked(Hits(pts, poly), open, misses)
      invariant Recorded(pts, poly, start, bearing, initial, size, obj.points, obj.size, obj.angle, |regions|)
      invariant forall r :: r in regions ==> r == obj
    {
      var point := scan[i];
      SkipOrigin(scan, i);
      i := i + 1;
      if point != ORIGIN {
        var closed;
        open, misses, closed := Absorb(obj, point, poly, open, misses, bearing, pts, start, initial, size, |regions|);
        if closed {
          regions := regions + [obj];
        }
        pts := pts + [point];
      }
    }
    assert scan[..i] == scan;
    OpenHasPoints(pts, poly, open, misses);
    if open && obj.points != [] {
      regions := regions + [obj];
    }
  }

  // ----- what the flag means -----

  /** The flag rises exactly at an inside point with no inside point among the five before it. */
  lemma RisesExactly(h: seq<bool>, k: nat)
    requires k < |h|
    ensures Rises(h, k) <==> h[k] && forall j :: 0 <= j < k && k - 5 <= j ==> !h[j]
  {
    if h[k] {
      assert Open(h, k + 1);
    }
    if Rises(h, k) {
      assert forall i :: 0 <= i < k && k - END_MISSES <= i && h[i] ==> Open(h, k);
    }
  }

  lemma NoneRecent(h: seq<bool>, k: nat)
    requires k <= |h| && !Open(h, k)
    ensures forall j :: 0 <= j < k && k - END_MISSES <= j ==> !h[j]
  {
  }

  /** It falls exactly on the fifth outside point in a row after an inside point. */
  lemma FallsExactly(h: seq<bool>, k: nat)
    requires k < |h|
    ensures Falls(h, k) <==> k >= 5 && h[k - 5] && forall j :: k - 5 < j <= k ==> !h[j]
  {
    if Falls(h, k) {
      var j :| 0 <= j < k && k - END_MISSES <= j && h[j];
      NoneRecent(h, k + 1);
    }
    if k >= END_MISSES && h[k - END_MISSES] && forall j :: k - END_MISSES < j <= k ==> !h[j] {
      assert Open(h, k);
    }
  }

  /** With at least five points already in the object the size filter never fires: each rise is reported once. */
  lemma {:induction false} EveryRiseReported(h: seq<bool>, base: nat, k: nat)
    requires base >= 5 && k <= |h|
    ensures Kept(h, base, k) + (if Open(h, k) then 1 else 0) == RiseCount(h, k)
  {
    if k > 0 {
      EveryRiseReported(h, base, k - 1);
      if Falls(h, k - 1) {
        FallsExactly(h, k - 1);
        HitCountPositive(h, k - 1 - END_MISSES, k);
      }
    }
  }

  lemma {:induction false} HitCountPositive(h: seq<bool>, j: nat, k: nat)
    requires j < k <= |h| && h[j]
    ensures HitCount(h, k) >= 1
  {
    if j < k - 1 {
      HitCountPositive(h, j, k - 1);
    }
  }

  lemma {:induction false} InnerCount(pts: seq<Point>, poly: seq<Point>)
    ensures |Inner(pts, poly)| <= |pts|
  {
    if pts != [] {
      InnerCount(pts[..|pts| - 1], poly);
    }
  }

  /** The closing at which the last kept region ended, if any, for an object that starts with `base` points. */
  ghost function LastKept(h: seq<bool>, base: nat): (r: Option<nat>)
    ensures r.Some? ==> r.value < |h|
  {
    if h == [] then None
    else
      var n := |h| - 1;
      if Falls(h, n) && base + HitCount(h, n + 1) > 5 then Some(n) else LastKept(h[..n], base)
  }

  /** The inside points up to a place in the scan are the first ones of all. */
  lemma {:induction false} InnerFirst(pts: seq<Point>, poly: seq<Point>, k: nat)
    requires k <= |pts|
    ensures Inner(pts[..k], poly) <= Inner(pts, poly)
  {
    if k < |pts| {
      InnerFirst(pts[..|pts| - 1], poly, k);
      assert pts[..|pts| - 1][..k] == pts[..k];
    } else {
      assert pts[..k] == pts;
    }
  }

  lemma {:induction false} InnerLength(pts: seq<Point>, poly: seq<Point>)
    ensures |Inner(pts, poly)| == HitCount(Hits(pts, poly), |pts|)
  {
    if pts != [] {
      var n := |pts| - 1;
      InnerLength(pts[..n], poly);
      PrefixCounts(Hits(pts[..n], poly), Hit(pts[n], poly), 0, n);
    }
  }

  /** The angle when the last kept region closed at `kept`. */
  ghost predicate AngleOf(angle: real, pts: seq<Point>, poly: seq<Point>, start: seq<Point>, bearing: Point -> real,
                          initial: real, kept: Option<nat>)
  {
    match kept
    case None => angle == initial
    case Some(k) =>
      && k < |pts|
      && var held := start + Inner(pts[..k + 1], poly);
         |held| > 5 && angle == bearing(held[|held| / 2 - 1])
  }

  lemma AngleOfMore(angle: real, front: seq<Point>, p: Point, poly: seq<Point>, start: seq<Point>,
                    bearing: Point -> real, initial: real, kept: Option<nat>)
    requires AngleOf(angle, front, poly, start, bearing, initial, kept)
    ensures AngleOf(angle, front + [p], poly, start, bearing, initial, kept)
  {
    hide Inner;
    if kept.Some? {
      assert (front + [p])[..kept.value + 1] == front[..kept.value + 1];
    }
  }

  /**
  The angle left on the object: the initial one when no region was kept, otherwise the bearing of the point number
  `m / 2 - 1` of the m points that the object held when the last kept region closed.
  */
  lemma {:induction false} AngleExactly(pts: seq<Point>, poly: seq<Point>, start: seq<Point>, bearing: Point -> real,
                                        initial: real)
    ensures
      AngleOf(Angle(pts, poly, start, bearing, initial), pts, poly, start, bearing, initial,
              LastKept(Hits(pts, poly), |start|))
  {
    if pts != [] {
      var n := |pts| - 1;
      var front, p := pts[..n], pts[n];
      assert pts == front + [p] && pts[..n + 1] == pts;
      AngleExactly(front, poly, start, bearing, initial);
      AppendPoint(front, p, poly, start, bearing, initial);
      LastKeptMore(Hits(front, poly), Hit(p, poly), |start|);
      InnerLength(pts, poly);
      var angle, kept := Angle(front, poly, start, bearing, initial), LastKept(Hits(front, poly), |start|);
      AngleOfMore(angle, front, p, poly, start, bearing, initial, kept);
      hide Angle, LastKept, Falls, Hits, Inner, HitCount, Hit;
    }
  }

  lemma LastKeptMore(h: seq<bool>, b: bool, base: nat)
    ensures
      LastKept(h + [b], base)
      == if Falls(h + [b], |h|) && base + HitCount(h + [b], |h| + 1) > 5 then Some(|h|) else LastKept(h, base)
  {
    assert (h + [b])[..|h|] == h;
    hide Falls, HitCount;
  }

  /** A fresh object's angle is that of the origin exactly as long as at most 601 points are inside at that closing. */
  lemma FreshAngleExactly(pts: seq<Point>, poly: seq<Point>, bearing: Point -> real, initial: real)
    ensures
      match LastKept(Hits(pts, poly), 600)
      case None => Angle(pts, poly, seq(600, _ => ORIGIN), bearing, initial) == initial
      case Some(k) =>
        var inside := Inner(pts[..k + 1], poly);
        Angle(pts, poly, seq(600, _ => ORIGIN), bearing, initial)
        == bearing(if |inside| <= 601 then Point(0.0, 0.0) else inside[(600 + |inside|) / 2 - 601])
  {
    AngleExactly(pts, poly, seq(600, _ => ORIGIN), bearing, initial);
  }

  /** The scan keeps its points in order, all but those at the origin. */
  lemma {:induction false} ValidExactly(scan: seq<Point>, p: Point)
    ensures p in Valid(scan) <==> p in scan && !(p.x == 0.0 && p.y == 0.0)
    ensures p != ORIGIN ==> multiset(Valid(scan))[p] == multiset(scan)[p]
  {
    if scan != [] {
      var n := |scan| - 1;
      ValidExactly(scan[..n], p);
      assert scan == scan[..n] + [scan[n]];
    }
  }

  /** A freshly constructed object starts with 600 points at the origin. Unless more than 601 scan points are
      inside, the middle point is one of those, so the recorded angle says nothing about the region. */
  lemma {:induction false} FreshAngleIsPadding(pts: seq<Point>, poly: seq<Point>, bearing: Point -> real, initial: real)
    requires |Inner(pts, poly)| <= PADDING + 1
    ensures
      var a := Angle(pts, poly, seq(PADDING, _ => ORIGIN), bearing, initial);
      a == initial || a == bearing(ORIGIN)
  {
    if pts != [] {
      FreshAngleIsPadding(pts[..|pts| - 1], poly, bearing, initial);
    }
  }
}
