/**
Frame-to-frame tracking of overrun regions: each old region looks for the nearest new region on the circle of
angles, inherits its index to it, and the detections of one region pile up in a history kept under that index.

Angles, the clock and the region list of a frame are inputs. `id` and `frame` only label detections so that
statements can speak about them.
*/
module OverrunTracker {
  import opened Common

  const LIMIT := 10.0
  const GROWTH := 10

  datatype Detection = Detection(
    id: nat, frame: nat, angle: real, index: nat, created: int, updated: int, size: int, matched: bool)

  // ----- distance on the circle -----

  predicate Angle(a: real) { 0.0 <= a < 360.0 }

  function Circular(a: real, b: real): real {
    var d := Abs(a - b);
    if 360.0 - d < d then 360.0 - d else d
  }

  lemma CircularIsMetric(a: real, b: real, c: real)
    requires Angle(a) && Angle(b) && Angle(c)
    ensures
      var d := Circular(a, b);
      0.0 <= d <= 180.0 && (a - b == d || b - a == d || a - b == 360.0 - d || b - a == 360.0 - d)
    ensures Circular(a, b) == 0.0 <==> a == b
    ensures Circular(a, b) == Circular(b, a)
    ensures Circular(a, c) <= Circular(a, b) + Circular(b, c)
  {
  }

  // ----- matching -----

  /** The first nearest of the first `n` new regions that lies within the limit. */
  function Best(news: seq<Detection>, b: Detection, n: nat): (r: Option<nat>)
    requires n <= |news|
    ensures r.Some? ==> r.value < n && Circular(news[r.value].angle, b.angle) <= LIMIT
  {
    if n == 0 then None
    else
      var r := Best(news, b, n - 1);
      var d := Circular(news[n - 1].angle, b.angle);
      if d <= LIMIT && (r == None || d < Circular(news[r.value].angle, b.angle)) then Some(n - 1) else r
  }

  lemma {:induction false} BestIsNearest(news: seq<Detection>, b: Detection, n: nat)
    requires n <= |news|
    ensures
      match Best(news, b, n)
      case None => forall i :: 0 <= i < n ==> Circular(news[i].angle, b.angle) > 10.0
      case Some(k) =>
        && k < n && Circular(news[k].angle, b.angle) <= 10.0
        && (forall i :: 0 <= i < n ==> Circular(news[k].angle, b.angle) <= Circular(news[i].angle, b.angle))
        && (forall i :: 0 <= i < k ==> Circular(news[k].angle, b.angle) < Circular(news[i].angle, b.angle))
  {
    if n > 0 {
      BestIsNearest(news, b, n - 1);
    }
  }

  function Inherit(d: Detection, b: Detection): Detection {
    d.(matched := true, index := b.index, created := b.created, size := d.size + b.size)
  }

  /** The new regions after the first `n` old ones have looked for a match. */
  function Claim(news: seq<Detection>, olds: seq<Detection>, n: nat): (r: seq<Detection>)
    requires n <= |olds|
    ensures |r| == |news|
  {
    if n == 0 then news
    else
      var r := Claim(news, olds, n - 1);
      match Best(news, olds[n - 1], |news|)
      case None => r
      case Some(i) => r[i := Inherit(r[i], olds[n - 1])]
  }

  /** Indices of the old regions, among the first `n`, that found no match. */
  function Ended(news: seq<Detection>, olds: seq<Detection>, n: nat): seq<nat>
    requires n <= |olds|
  {
    if n == 0 then []
    else if Best(news, olds[n - 1], |news|) == None then Ended(news, olds, n - 1) + [olds[n - 1].index]
    else Ended(news, olds, n - 1)
  }

  /** The old region whose index new region `i` carries: the last one that chose it. */
  function Claimant(news: seq<Detection>, olds: seq<Detection>, i: nat, n: nat): (r: Option<nat>)
    requires n <= |olds|
    ensures r.Some? ==> r.value < n && Best(news, olds[r.value], |news|) == Some(i)
    ensures r == None ==> forall j :: 0 <= j < n ==> Best(news, olds[j], |news|) != Some(i)
  {
    if n == 0 then None
    else if Best(news, olds[n - 1], |news|) == Some(i) then Some(n - 1)
    else Claimant(news, olds, i, n - 1)
  }

  lemma {:induction false} ClaimedFrom(news: seq<Detection>, olds: seq<Detection>, i: nat, n: nat)
    requires n <= |olds| && i < |news| && !news[i].matched
    ensures
      var d := Claim(news, olds, n)[i];
      && d.id == news[i].id && d.frame == news[i].frame && d.angle == news[i].angle && d.updated == news[i].updated
      && match Claimant(news, olds, i, n)
         case None => d == news[i]
         case Some(j) => d.matched && d.index == olds[j].index && d.created == olds[j].created
  {
    if n > 0 {
      ClaimedFrom(news, olds, i, n - 1);
    }
  }

  /** The points of the old regions, among the first `n`, that chose new region `i`. */
  function Gathered(news: seq<Detection>, olds: seq<Detection>, i: nat, n: nat): int
    requires n <= |olds|
  {
    if n == 0 then 0
    else Gathered(news, olds, i, n - 1) + if Best(news, olds[n - 1], |news|) == Some(i) then olds[n - 1].size else 0
  }

  /** A region's point count grows by those of all old regions that choose it. */
  lemma {:induction false} ClaimedSize(news: seq<Detection>, olds: seq<Detection>, i: nat, n: nat)
    requires n <= |olds| && i < |news|
    ensures Claim(news, olds, n)[i].size == news[i].size + Gathered(news, olds, i, n)
  {
    if n > 0 {
      ClaimedSize(news, olds, i, n - 1);
    }
  }

  ghost predicate Unmatched(news: seq<Detection>, olds: seq<Detection>, j: nat)
    requires j < |olds|
  {
    Best(news, olds[j], |news|) == None
  }

  lemma {:induction false} EndedAre(news: seq<Detection>, olds: seq<Detection>, n: nat)
    requires n <= |olds|
    ensures forall j :: 0 <= j < n && Unmatched(news, olds, j) ==> olds[j].index in Ended(news, olds, n)
    ensures forall e :: e in Ended(news, olds, n) ==>
      exists j :: 0 <= j < n && Unmatched(news, olds, j) && olds[j].index == e
  {
    if n > 0 {
      EndedAre(news, olds, n - 1);
      forall e | e in Ended(news, olds, n)
        ensures exists j :: 0 <= j < n && Unmatched(news, olds, j) && olds[j].index == e
      {
        if e in Ended(news, olds, n - 1) {
          var j :| 0 <= j < n - 1 && Unmatched(news, olds, j) && olds[j].index == e;
          assert j < n && Unmatched(news, olds, j);
        } else {
          assert Unmatched(news, olds, n - 1) && olds[n - 1].index == e;
        }
      }
    }
  }

  ghost predicate DistinctIndices(ds: seq<Detection>) {
    forall i, j :: 0 <= i < j < |ds| ==> ds[i].index != ds[j].index
  }

  ghost predicate Distinct(xs: seq<nat>) {
    forall i, j :: 0 <= i < j < |xs| ==> xs[i] != xs[j]
  }

  lemma {:induction false} EndedDistinct(news: seq<Detection>, olds: seq<Detection>, n: nat)
    requires n <= |olds| && DistinctIndices(olds)
    ensures Distinct(Ended(news, olds, n))
  {
    if n > 0 {
      EndedDistinct(news, olds, n - 1);
      var before := Ended(news, olds, n - 1);
      forall i | 0 <= i < |before| ensures before[i] != olds[n - 1].index {
        EndedAre(news, olds, n - 1);
        assert before[i] in before;
      }
      assert Ended(news, olds, n) == before || Ended(news, olds, n) == before + [olds[n - 1].index];
    }
  }

  ghost predicate SortedByAngle(ds: seq<Detection>) {
    forall i, j :: 0 <= i < j < |ds| ==> ds[i].angle <= ds[j].angle
  }

  function Insert(d: Detection, ds: seq<Detection>): (r: seq<Detection>) {
    if ds == [] || d.angle < ds[0].angle then [d] + ds else [ds[0]] + Insert(d, ds[1..])
  }

  lemma {:induction false} InsertContents(d: Detection, ds: seq<Detection>)
    ensures multiset(Insert(d, ds)) == multiset{d} + multiset(ds)
  {
    if ds != [] && d.angle >= ds[0].angle {
      InsertContents(d, ds[1..]);
      assert ds == [ds[0]] + ds[1..];
    }
  }

  lemma {:induction false} InsertSorted(d: Detection, ds: seq<Detection>)
    requires SortedByAngle(ds)
    ensures SortedByAngle(Insert(d, ds))
  {
    if ds != [] && d.angle >= ds[0].angle {
      InsertSorted(d, ds[1..]);
      InsertContents(d, ds[1..]);
      var rest := Insert(d, ds[1..]);
      forall i | 0 <= i < |rest| ensures ds[0].angle <= rest[i].angle {
        assert rest[i] in multiset{d} + multiset(ds[1..]);
      }
    }
  }

  /** Sorts by angle; callers rely only on the result being a sorted permutation. */
  method SortByAngle(ds: seq<Detection>) returns (r: seq<Detection>)
    ensures multiset(r) == multiset(ds) && SortedByAngle(r)
  {
    r := [];
    for n := 0 to |ds|
      invariant multiset(r) == multiset(ds[..n]) && SortedByAngle(r)
    {
      assert ds[..n + 1] == ds[..n] + [ds[n]];
      InsertSorted(ds[n], r);
      InsertContents(ds[n], r);
      r := Insert(ds[n], r);
    }
    assert ds[..|ds|] == ds;
  }

  /** The nested matching loop. */
  method Match(news: seq<Detection>, olds: seq<Detection>) returns (claimed: seq<Detection>, ended: seq<nat>)
    requires forall d :: d in news || d in olds ==> Angle(d.angle)
    ensures claimed == Claim(news, olds, |olds|)
    ensures ended == Ended(news, olds, |olds|)
    ensures forall i :: 0 <= i < |news| ==> claimed[i].size == news[i].size + Gathered(news, olds, i, |olds|)
  {
    forall i | 0 <= i < |news|
      ensures Claim(news, olds, |olds|)[i].size == news[i].size + Gathered(news, olds, i, |olds|)
    {
      ClaimedSize(news, olds, i, |olds|);
    }
    claimed, ended := news, [];
    for j := 0 to |olds|
      invariant claimed == Claim(news, olds, j)
      invariant ended == Ended(news, olds, j)
    {
      var beforeItem := olds[j];
      var minDiff, found := 360.0, None;
      for i := 0 to |news|
        invariant found == Best(news, beforeItem, i)
        invariant minDiff == match found case None => 360.0 case Some(k) => Circular(news[k].angle, beforeItem.angle)
      {
        var diff := Circular(news[i].angle, beforeItem.angle);
        CircularIsMetric(news[i].angle, beforeItem.angle, 0.0);
        if diff < minDiff && diff <= LIMIT {
          minDiff := diff;
          found := Some(i);
        }
      }
      match found
      case Some(i) => claimed := claimed[i := Inherit(claimed[i], beforeItem)];
      case None => ended := ended + [beforeItem.index];
    }
  }

  // ----- the index table -----

  ghost function InUse(used: map<nat, bool>): set<nat> {
    set k | k in used && used[k]
  }

  /** The table after `size` slots from `start` on are entered as free. */
  function Expanded(used: map<nat, bool>, start: nat, size: nat): (r: map<nat, bool>)
    ensures forall k: nat :: k in r <==> k in used || start <= k < start + size
    ensures forall k :: k in r ==> r[k] == if start <= k < start + size then false else used[k]
  {
    if size == 0 then used else Expanded(used, start, size - 1)[start + size - 1 := false]
  }

  /** `begin()->first + 1` of a hash map may follow any key `first`. Growing from there forgets no index in use
      exactly when none lies in the ten slots that follow. */
  lemma ExpandKeepsUse(used: map<nat, bool>, first: nat)
    ensures InUse(Expanded(used, first + 1, GROWTH)) == InUse(used)
            <==> forall k :: first < k <= first + 10 ==> !(k in used && used[k])
  {
    var r := Expanded(used, first + 1, GROWTH);
    if forall k :: first < k <= first + GROWTH ==> !(k in used && used[k]) {
      assert InUse(r) == InUse(used);
    } else {
      var k :| first < k <= first + GROWTH && k in used && used[k];
      assert k in InUse(used) && k !in InUse(r);
    }
  }

  /** The table after `n` calls of GetHashIndex that each found the lowest free key: ten slots, the first `n` in use. */
  function Handed(n: nat): map<nat, bool> {
    if n == 0 then Expanded(map[], 0, GROWTH) else Handed(n - 1)[n - 1 := true]
  }

  lemma {:induction false} HandedUse(n: nat)
    requires n <= GROWTH
    ensures forall k: nat :: k in Handed(n) <==> k < GROWTH
    ensures forall k: nat :: k < GROWTH ==> Handed(n)[k] == (k < n)
  {
    if n > 0 {
      HandedUse(n - 1);
    }
  }

  /**
  Keys 0 to 9 all in use, and the first key of the table happens to be 0: growing from there frees the nine other
  indices in use, so the next index handed out is one that is taken.
  */
  lemma FirstKeyForgets()
    ensures
      var used := Handed(10);
      && 0 in used && (forall k :: k in used ==> used[k])
      && InUse(Expanded(used, 0 + 1, GROWTH)) == {0}
      && (forall k :: 1 <= k < 10 ==> k in InUse(used) && k in Expanded(used, 0 + 1, GROWTH))
  {
    HandedUse(GROWTH);
  }

  lemma {:induction false} LargestKey(keys: set<nat>) returns (m: nat)
    requires keys != {}
    ensures m in keys && forall k :: k in keys ==> k <= m
  {
    m :| m in keys;
    var rest := keys - {m};
    assert forall k :: k in keys ==> k == m || k in rest;
    if rest != {} {
      var b := LargestKey(rest);
      m := if b > m then b else m;
    }
  }

  // ----- histories -----

  /** `d` continues the history that ends in `last`: next frame, at most 10 degrees away, same index and start. */
  predicate Follows(last: Detection, d: Detection) {
    && d.frame == last.frame + 1
    && Circular(d.angle, last.angle) <= LIMIT
    && d.index == last.index
    && d.created == last.created
  }

  ghost predicate HistoryOk(h: seq<Detection>) {
    h != [] && forall i :: 0 <= i < |h| - 1 ==> Follows(h[i], h[i + 1])
  }

  /** Where a detection is recorded: in the live history of an index or in an emitted history. */
  datatype Spot = Live(k: nat, i: nat) | Past(n: nat, i: nat)

  datatype Ledger = Ledger(live: map<nat, seq<Detection>>, past: seq<seq<Detection>>)

  ghost predicate HasSpot(l: Ledger, p: Spot) {
    match p
    case Live(k, i) => k in l.live && i < |l.live[k]|
    case Past(n, i) => n < |l.past| && i < |l.past[n]|
  }

  ghost function At(l: Ledger, p: Spot): Detection
    requires HasSpot(l, p)
  {
    match p
    case Live(k, i) => l.live[k][i]
    case Past(n, i) => l.past[n][i]
  }

  /** Every tracked detection has exactly one spot, and every history is well formed. */
  ghost predicate LedgerOk(l: Ledger, spots: map<nat, Spot>) {
    && (forall p :: HasSpot(l, p) ==> At(l, p).id in spots && spots[At(l, p).id] == p)
    && (forall id :: id in spots ==> HasSpot(l, spots[id]) && At(l, spots[id]).id == id)
    && (forall k :: k in l.live ==> HistoryOk(l.live[k]))
    && (forall n :: 0 <= n < |l.past| ==> HistoryOk(l.past[n]))
  }

  function History(live: map<nat, seq<Detection>>, k: nat): seq<Detection> {
    if k in live then live[k] else []
  }

  function Append(live: map<nat, seq<Detection>>, d: Detection): map<nat, seq<Detection>> {
    live[d.index := History(live, d.index) + [d]]
  }

  /** The history of a finished overrun with the closing time on its last entry. */
  function Closed(h: seq<Detection>, clock: int): seq<Detection>
    requires h != []
  {
    h[|h| - 1 := h[|h| - 1].(updated := clock)]
  }

  /** Closing a history stamps its last entry and changes nothing else. */
  lemma ClosedStamps(h: seq<Detection>, clock: int)
    requires h != []
    ensures
      var c := Closed(h, clock);
      && |c| == |h| && c[|h| - 1] == h[|h| - 1].(updated := clock) && c[|h| - 1].updated == clock
      && forall i :: 0 <= i < |h| - 1 ==> c[i] == h[i]
  {
  }

  /** The entries of a history come from consecutive frames, at most 10 degrees apart, with one index and one start. */
  lemma HistoryConsecutive(h: seq<Detection>, i: nat)
    requires HistoryOk(h) && i + 1 < |h|
    ensures
      && h[i + 1].frame == h[i].frame + 1 && Circular(h[i + 1].angle, h[i].angle) <= 10.0
      && h[i + 1].index == h[i].index && h[i + 1].created == h[i].created
  {
    assert Follows(h[i], h[i + 1]);
  }

  lemma LedgerAppend(l: Ledger, spots: map<nat, Spot>, d: Detection)
    requires LedgerOk(l, spots) && d.id !in spots
    requires d.index in l.live ==> Follows(l.live[d.index][|l.live[d.index]| - 1], d)
    ensures LedgerOk(Ledger(Append(l.live, d), l.past), spots[d.id := Live(d.index, |History(l.live, d.index)|)])
  {
    var l' := Ledger(Append(l.live, d), l.past);
    var spots' := spots[d.id := Live(d.index, |History(l.live, d.index)|)];
    forall p | HasSpot(l', p)
      ensures At(l', p).id in spots' && spots'[At(l', p).id] == p
    {
      if p != Live(d.index, |History(l.live, d.index)|) {
        assert HasSpot(l, p) && At(l', p) == At(l, p);
      }
    }
    forall id | id in spots'
      ensures HasSpot(l', spots'[id]) && At(l', spots'[id]).id == id
    {
      if id != d.id {
        assert HasSpot(l, spots[id]) && At(l', spots[id]) == At(l, spots[id]);
      }
    }
  }

  ghost function Moved(spots: map<nat, Spot>, k: nat, n: nat): map<nat, Spot> {
    map id | id in spots :: if spots[id].Live? && spots[id].k == k then Past(n, spots[id].i) else spots[id]
  }

  lemma LedgerEmit(l: Ledger, spots: map<nat, Spot>, k: nat, clock: int)
    requires LedgerOk(l, spots) && k in l.live
    ensures LedgerOk(Ledger(l.live - {k}, l.past + [Closed(l.live[k], clock)]), Moved(spots, k, |l.past|))
  {
    var l' := Ledger(l.live - {k}, l.past + [Closed(l.live[k], clock)]);
    var spots' := Moved(spots, k, |l.past|);
    forall p | HasSpot(l', p)
      ensures At(l', p).id in spots' && spots'[At(l', p).id] == p
    {
      var q := if p.Past? && p.n == |l.past| then Live(k, p.i) else p;
      assert HasSpot(l, q) && At(l', p).id == At(l, q).id;
    }
    forall id | id in spots'
      ensures HasSpot(l', spots'[id]) && At(l', spots'[id]).id == id
    {
      assert HasSpot(l, spots[id]);
    }
    var h := Closed(l.live[k], clock);
    assert HistoryOk(l.live[k]);
    forall i | 0 <= i < |h| - 1 ensures Follows(h[i], h[i + 1]) {
      assert Follows(l.live[k][i], l.live[k][i + 1]);
    }
  }

  /** No detection is in two histories, so no history is emitted twice and none is both live and emitted. */
  lemma DistinctHistories(l: Ledger, spots: map<nat, Spot>)
    requires LedgerOk(l, spots)
    ensures forall p, q :: HasSpot(l, p) && HasSpot(l, q) && At(l, p).id == At(l, q).id ==> p == q
    ensures forall m, n :: 0 <= m < n < |l.past| ==> l.past[m] != l.past[n]
    ensures forall n, k :: 0 <= n < |l.past| && k in l.live ==> l.past[n] != l.live[k]
  {
    forall n | 0 <= n < |l.past|
      ensures HasSpot(l, Past(n, 0))
    {
      assert HistoryOk(l.past[n]);
    }
    forall m, n | 0 <= m < n < |l.past|
      ensures l.past[m] != l.past[n]
    {
      assert HasSpot(l, Past(m, 0)) && HasSpot(l, Past(n, 0));
    }
    forall n, k | 0 <= n < |l.past| && k in l.live
      ensures l.past[n] != l.live[k]
    {
      assert HasSpot(l, Past(n, 0));
      assert HistoryOk(l.live[k]) && HasSpot(l, Live(k, 0));
    }
  }

  // ----- one frame -----

  /** `items` are the regions of a frame; the first `n` are already recorded. */
  predicate Indexed(items: seq<Detection>, n: nat, a: nat)
    requires a < |items|
  {
    a < n || items[a].matched
  }

  /** Half-way through the update of a frame. */
  ghost predicate Midway(used: map<nat, bool>, live: map<nat, seq<Detection>>, items: seq<Detection>, n: nat,
                         ended: seq<nat>)
  {
    && n <= |items|
    && InUse(used) == live.Keys
    && (forall k :: k in live ==> live[k] != [])
    && (forall a :: 0 <= a < |items| && Indexed(items, n, a) ==> items[a].index in live)
    && (forall a :: 0 <= a < n ==> live[items[a].index][|live[items[a].index]| - 1] == items[a])
    && (forall a :: n <= a < |items| && items[a].matched ==>
          Follows(live[items[a].index][|live[items[a].index]| - 1], items[a].(matched := false)))
    && (forall a, b :: 0 <= a < b < |items| && Indexed(items, n, a) && Indexed(items, n, b) ==>
          items[a].index != items[b].index)
    && (forall a, e :: 0 <= a < |items| && Indexed(items, n, a) && 0 <= e < |ended| ==> items[a].index != ended[e])
    && (forall e :: 0 <= e < |ended| ==> ended[e] in live)
    && Distinct(ended)
  }

  /** Recording item `n`, with the index it has or a free one. */
  lemma MidwayStep(used: map<nat, bool>, live: map<nat, seq<Detection>>, items: seq<Detection>, n: nat, ended: seq<nat>,
                   used': map<nat, bool>, d: Detection)
    requires Midway(used, live, items, n, ended) && n < |items| && !d.matched
    requires items[n].matched ==> d == items[n].(matched := false) && used' == used
    requires !items[n].matched ==> d.index !in live && InUse(used') == InUse(used) + {d.index}
    ensures Midway(used', Append(live, d), items[n := d], n + 1, ended)
  {
  }

  lemma MidwayNext(used: map<nat, bool>, live: map<nat, seq<Detection>>, items: seq<Detection>, n: nat, ended: seq<nat>)
    requires Midway(used, live, items, n, ended) && n < |items|
    ensures InUse(used) == live.Keys
    ensures items[n].matched ==>
      && items[n].index in live && live[items[n].index] != []
      && Follows(live[items[n].index][|live[items[n].index]| - 1], items[n].(matched := false))
  {
  }

  ghost predicate DistinctIds(ds: seq<Detection>) {
    forall i, j :: 0 <= i < j < |ds| ==> ds[i].id != ds[j].id
  }

  /** The regions of one frame, each its own object. */
  ghost predicate FreshFrame(ds: seq<Detection>, frame: nat, spots: map<nat, Spot>) {
    && DistinctIds(ds)
    && forall d :: d in ds ==> d.frame == frame && Angle(d.angle) && !d.matched && d.id !in spots
  }

  /** The live regions of the previous frame against the histories. */
  ghost predicate LiveOk(before: seq<Detection>, live: map<nat, seq<Detection>>, frame: nat) {
    && DistinctIndices(before)
    && forall d :: d in before ==>
         && d.frame == frame && Angle(d.angle) && !d.matched
         && d.index in live && live[d.index] != [] && live[d.index][|live[d.index]| - 1] == d
  }

  /** A claimed region continues the history of the old region whose index it carries. */
  lemma StartFollows(live: map<nat, seq<Detection>>, news: seq<Detection>, olds: seq<Detection>, frame: nat,
                     spots: map<nat, Spot>, a: nat)
    requires LiveOk(olds, live, frame) && FreshFrame(news, frame + 1, spots) && a < |news|
    ensures
      var d := Claim(news, olds, |olds|)[a];
      d.matched ==>
        && d.index in live && live[d.index] != []
        && Follows(live[d.index][|live[d.index]| - 1], d.(matched := false))
  {
    assert news[a] in news;
    ClaimedSource(news, olds, a);
  }

  /** Two claimed regions carry the indices of different old ones. */
  lemma StartApart(news: seq<Detection>, olds: seq<Detection>, a: nat, b: nat)
    requires DistinctIndices(olds) && a < b < |news| && !news[a].matched && !news[b].matched
    ensures
      var claimed := Claim(news, olds, |olds|);
      claimed[a].matched && claimed[b].matched ==> claimed[a].index != claimed[b].index
  {
    ClaimedSource(news, olds, a);
    ClaimedSource(news, olds, b);
  }

  /** A claimed region does not carry the index of an ended one. */
  lemma StartNotEnded(news: seq<Detection>, olds: seq<Detection>, a: nat)
    requires DistinctIndices(olds) && a < |news| && !news[a].matched
    ensures
      Claim(news, olds, |olds|)[a].matched ==> Claim(news, olds, |olds|)[a].index !in Ended(news, olds, |olds|)
  {
    ClaimedSource(news, olds, a);
    EndedAre(news, olds, |olds|);
  }

  lemma StartEnded(live: map<nat, seq<Detection>>, news: seq<Detection>, olds: seq<Detection>, frame: nat)
    requires LiveOk(olds, live, frame)
    ensures forall e :: e in Ended(news, olds, |olds|) ==> e in live
  {
    EndedAre(news, olds, |olds|);
  }

  lemma MidwayStart(used: map<nat, bool>, live: map<nat, seq<Detection>>, news: seq<Detection>, olds: seq<Detection>,
                    frame: nat, spots: map<nat, Spot>)
    requires InUse(used) == live.Keys && (forall k :: k in live ==> live[k] != [])
    requires LiveOk(olds, live, frame) && FreshFrame(news, frame + 1, spots)
    ensures Midway(used, live, Claim(news, olds, |olds|), 0, Ended(news, olds, |olds|))
  {
    var items, ended := Claim(news, olds, |olds|), Ended(news, olds, |olds|);
    StartEnded(live, news, olds, frame);
    EndedDistinct(news, olds, |olds|);
    assert forall a :: 0 <= a < |news| ==> news[a] in news;
    forall a | 0 <= a < |items|
      ensures items[a].matched ==>
        && items[a].index in live && items[a].index !in ended
        && Follows(live[items[a].index][|live[items[a].index]| - 1], items[a].(matched := false))
    {
      StartFollows(live, news, olds, frame, spots, a);
      StartNotEnded(news, olds, a);
    }
    forall a, b | 0 <= a < b < |items| && items[a].matched && items[b].matched
      ensures items[a].index != items[b].index
    {
      StartApart(news, olds, a, b);
    }
    hide Claim, Ended, Follows, Distinct, InUse, LiveOk, FreshFrame;
    assert forall e :: 0 <= e < |ended| ==> ended[e] in ended;
  }

  lemma ClaimedSource(news: seq<Detection>, olds: seq<Detection>, a: nat)
    requires a < |news| && !news[a].matched
    ensures
      var d, c := Claim(news, olds, |olds|)[a], Claimant(news, olds, a, |olds|);
      && d.id == news[a].id && d.frame == news[a].frame && d.angle == news[a].angle
      && (d.matched <==> c.Some?)
      && (c.Some? ==>
            && olds[c.value] in olds && d.index == olds[c.value].index && d.created == olds[c.value].created
            && Circular(d.angle, olds[c.value].angle) <= LIMIT)
  {
    ClaimedFrom(news, olds, a, |olds|);
  }

  /** The histories after the first `n` regions of the frame have been appended. */
  function Extended(live: map<nat, seq<Detection>>, items: seq<Detection>, n: nat): map<nat, seq<Detection>>
    requires n <= |items|
  {
    if n == 0 then live else Append(Extended(live, items, n - 1), items[n - 1])
  }

  lemma {:induction false} ExtendedPrefix(live: map<nat, seq<Detection>>, items: seq<Detection>, items': seq<Detection>,
                                          n: nat)
    requires n <= |items| && n <= |items'| && items[..n] == items'[..n]
    ensures Extended(live, items, n) == Extended(live, items', n)
  {
    if n > 0 {
      assert items[..n - 1] == items[..n][..n - 1] == items'[..n][..n - 1] == items'[..n - 1];
      assert items[n - 1] == items[..n][n - 1] == items'[..n][n - 1] == items'[n - 1];
      ExtendedPrefix(live, items, items', n - 1);
    }
  }

  /** What became of a claimed region once it was recorded. */
  ghost predicate Settled(c: Detection, d: Detection, clock: int, taken: set<nat>) {
    if c.matched then d == c.(matched := false)
    else d == c.(index := d.index, created := clock) && d.index !in taken
  }

  /** A frame being recorded: `items` are its regions, the first `n` of them settled. */
  datatype Recording = Recording(
    claimed: seq<Detection>, items: seq<Detection>, n: nat, ended: seq<nat>, clock: int,
    live0: map<nat, seq<Detection>>, ids0: set<nat>)
  {
    ghost predicate Ok(used: map<nat, bool>, live: map<nat, seq<Detection>>, past: seq<seq<Detection>>,
                       spots: map<nat, Spot>) {
      && n <= |items| == |claimed|
      && Midway(used, live, items, n, ended)
      && LedgerOk(Ledger(live, past), spots)
      && (forall a :: n <= a < |items| ==> items[a] == claimed[a])
      && Labels(spots.Keys)
      && Appended(live)
    }

    /** Which detections have a spot. */
    ghost predicate Labels(ids: set<nat>)
      requires n <= |items| == |claimed|
    {
      && DistinctIds(claimed)
      && (forall a :: n <= a < |items| ==> claimed[a].id !in ids)
      && ids == ids0 + (set a | 0 <= a < n :: claimed[a].id)
    }

    /** What the settled regions look like and what the histories are. */
    ghost predicate Appended(live: map<nat, seq<Detection>>)
      requires n <= |items| == |claimed|
    {
      && (forall a :: 0 <= a < n ==> Settled(claimed[a], items[a], clock, live0.Keys))
      && live == Extended(live0, items, n)
      && live0.Keys <= live.Keys
    }

    lemma StartOk(used: map<nat, bool>, past: seq<seq<Detection>>, spots: map<nat, Spot>)
      requires n == 0 && items == claimed && ids0 == spots.Keys
      requires Midway(used, live0, claimed, 0, ended) && LedgerOk(Ledger(live0, past), spots)
      requires DistinctIds(claimed) && forall d :: d in claimed ==> d.id !in spots
      ensures Ok(used, live0, past, spots)
    {
    }

    ghost function Next(d: Detection): Recording
      requires n < |items|
    {
      this.(items := items[n := d], n := n + 1)
    }

    lemma Pending(ids: set<nat>)
      requires n < |items| == |claimed| && Labels(ids)
      ensures claimed[n].id !in ids
    {
    }

    lemma LiveKept(live: map<nat, seq<Detection>>)
      requires n <= |items| == |claimed| && Appended(live)
      ensures live0.Keys <= live.Keys
    {
    }

    lemma StepLabels(ids: set<nat>, d: Detection)
      requires n < |items| == |claimed| && Labels(ids) && d.id == claimed[n].id
      ensures Next(d).Labels(ids + {d.id})
    {
    }

    lemma StepAppended(live: map<nat, seq<Detection>>, d: Detection)
      requires n < |items| == |claimed| && Appended(live) && Settled(claimed[n], d, clock, live0.Keys)
      ensures Next(d).Appended(Append(live, d))
    {
      ExtendedPrefix(live0, items, items[n := d], n);
    }

    lemma StepOk(used: map<nat, bool>, used': map<nat, bool>, live: map<nat, seq<Detection>>,
                 past: seq<seq<Detection>>, spots: map<nat, Spot>, d: Detection)
      requires n < |items| && Ok(used, live, past, spots)
      requires items[n].matched ==> d == items[n].(matched := false) && used' == used
      requires !items[n].matched ==>
        && d == items[n].(index := d.index, created := clock)
        && d.index !in InUse(used) && InUse(used') == InUse(used) + {d.index}
      ensures Next(d).Ok(used', Append(live, d), past, spots[d.id := Live(d.index, |History(live, d.index)|)])
    {
      hide Labels, Appended, LedgerOk, Midway, Extended;
      MidwayNext(used, live, items, n, ended);
      Pending(spots.Keys);
      LiveKept(live);
      MidwayStep(used, live, items, n, ended, used', d);
      LedgerAppend(Ledger(live, past), spots, d);
      StepAppended(live, d);
      StepLabels(spots.Keys, d);
      assert spots[d.id := Live(d.index, |History(live, d.index)|)].Keys == spots.Keys + {d.id};
    }
  }

  // ----- facts that survive sorting -----

  lemma {:induction false} CopiesAt(s: seq<Detection>, i: nat, j: nat)
    requires i < j < |s| && s[i] == s[j]
    ensures multiset(s)[s[i]] >= 2
  {
    assert s == s[..j] + [s[j]] + s[j + 1..];
    assert s[i] in s[..j];
  }

  lemma {:induction false} TwoCopies(s: seq<Detection>, x: Detection) returns (i: nat, j: nat)
    requires multiset(s)[x] >= 2
    ensures i < j < |s| && s[i] == x == s[j]
  {
    j := |s| - 1;
    assert s == s[..j] + [s[j]];
    if s[j] == x {
      assert x in s[..j];
      i :| 0 <= i < j && s[..j][i] == x;
    } else {
      i, j := TwoCopies(s[..j], x);
    }
  }

  lemma PermutedDistinct(a: seq<Detection>, b: seq<Detection>, key: Detection -> nat, i: nat, j: nat)
    requires multiset(a) == multiset(b)
    requires forall i, j :: 0 <= i < j < |a| ==> key(a[i]) != key(a[j])
    requires i < j < |b|
    ensures key(b[i]) != key(b[j])
  {
    if b[i] == b[j] {
      CopiesAt(b, i, j);
      var i', j' := TwoCopies(a, b[i]);
    } else {
      assert b[i] in multiset(a) && b[j] in multiset(a);
      var i' :| 0 <= i' < |a| && a[i'] == b[i];
      var j' :| 0 <= j' < |a| && a[j'] == b[j];
    }
  }

  lemma SameMembers(a: seq<Detection>, b: seq<Detection>)
    requires multiset(a) == multiset(b)
    ensures |a| == |b| && forall d :: d in a <==> d in b
  {
    assert |multiset(a)| == |a| && |multiset(b)| == |b|;
    forall d ensures d in a <==> d in b {
      assert d in a <==> d in multiset(a);
    }
  }

  lemma PermutedFrame(a: seq<Detection>, b: seq<Detection>, frame: nat, spots: map<nat, Spot>)
    requires multiset(a) == multiset(b) && FreshFrame(a, frame, spots)
    ensures FreshFrame(b, frame, spots)
  {
    SameMembers(a, b);
    forall i, j | 0 <= i < j < |b| ensures b[i].id != b[j].id {
      PermutedDistinct(a, b, (d: Detection) => d.id, i, j);
    }
  }

  lemma PermutedLive(a: seq<Detection>, b: seq<Detection>, live: map<nat, seq<Detection>>, frame: nat)
    requires multiset(a) == multiset(b) && LiveOk(a, live, frame)
    ensures LiveOk(b, live, frame)
  {
    SameMembers(a, b);
    forall i, j | 0 <= i < j < |b| ensures b[i].index != b[j].index {
      PermutedDistinct(a, b, (d: Detection) => d.index, i, j);
    }
  }

  lemma LedgerHistories(l: Ledger, spots: map<nat, Spot>)
    requires LedgerOk(l, spots)
    ensures forall k :: k in l.live ==> l.live[k] != []
  {
  }

  lemma ClaimLabels(news: seq<Detection>, olds: seq<Detection>, frame: nat, spots: map<nat, Spot>)
    requires FreshFrame(news, frame, spots)
    ensures
      var claimed := Claim(news, olds, |olds|);
      && DistinctIds(claimed)
      && (forall a :: 0 <= a < |claimed| ==>
            claimed[a].id == news[a].id && claimed[a].frame == frame && Angle(claimed[a].angle))
      && (forall d :: d in claimed ==> d.id !in spots)
  {
    var claimed := Claim(news, olds, |olds|);
    forall a | 0 <= a < |claimed|
      ensures claimed[a].id == news[a].id && claimed[a].frame == frame && Angle(claimed[a].angle)
      ensures claimed[a].id !in spots
    {
      assert news[a] in news;
      ClaimedSource(news, olds, a);
    }
  }

  ghost function Ids(ds: seq<Detection>): set<nat> {
    set d | d in ds :: d.id
  }

  lemma ClaimIds(found: seq<Detection>, news: seq<Detection>, claimed: seq<Detection>)
    requires multiset(found) == multiset(news) && |claimed| == |news|
    requires forall a :: 0 <= a < |news| ==> claimed[a].id == news[a].id
    ensures |found| == |news| && Ids(claimed) == Ids(found)
  {
    SameMembers(found, news);
    forall id | id in Ids(claimed) ensures id in Ids(found) {
      var d :| d in claimed && d.id == id;
      var a :| 0 <= a < |claimed| && claimed[a] == d;
      assert news[a] in news && news[a].id == id;
    }
    forall id | id in Ids(found) ensures id in Ids(claimed) {
      var d :| d in news && d.id == id;
      var a :| 0 <= a < |news| && news[a] == d;
      assert claimed[a] in claimed;
    }
  }

  lemma {:induction false} ExtendedElsewhere(live: map<nat, seq<Detection>>, items: seq<Detection>, n: nat, k: nat)
    requires n <= |items| && forall a :: 0 <= a < n ==> items[a].index != k
    ensures k in Extended(live, items, n) <==> k in live
    ensures k in live ==> Extended(live, items, n)[k] == live[k]
  {
    if n > 0 {
      ExtendedElsewhere(live, items, n - 1, k);
    }
  }

  /** After recording: the ended histories are as they were, and the regions of the frame are live. */
  lemma RecordedFrame(r: Recording, used: map<nat, bool>, live: map<nat, seq<Detection>>, past: seq<seq<Detection>>,
                      spots: map<nat, Spot>, frame: nat)
    requires r.n == |r.items| && r.Ok(used, live, past, spots)
    requires forall a :: 0 <= a < |r.claimed| ==> r.claimed[a].frame == frame && Angle(r.claimed[a].angle)
    ensures InUse(used) == live.Keys && LedgerOk(Ledger(live, past), spots)
    ensures |r.items| == |r.claimed| && Distinct(r.ended)
    ensures forall e :: e in r.ended ==> e in live && live[e] != [] && e in r.live0 && live[e] == r.live0[e]
    ensures LiveOk(r.items, live - (set e | e in r.ended), frame)
    ensures live == Extended(r.live0, r.items, |r.items|)
    ensures forall a :: 0 <= a < |r.items| ==> Settled(r.claimed[a], r.items[a], r.clock, r.live0.Keys)
    ensures spots.Keys == r.ids0 + Ids(r.claimed)
  {
    hide LedgerOk;
    var n, items := r.n, r.items;
    assert Midway(used, live, items, n, r.ended);
    forall e | e in r.ended
      ensures e in live && live[e] != [] && e in r.live0 && live[e] == r.live0[e]
    {
      var i :| 0 <= i < |r.ended| && r.ended[i] == e;
      assert forall a :: 0 <= a < n ==> Indexed(items, n, a);
      ExtendedElsewhere(r.live0, items, n, e);
    }
    LiveAfter(r, used, live, frame);
    assert Ids(r.claimed) == (set a | 0 <= a < n :: r.claimed[a].id);
  }

  lemma LiveAfter(r: Recording, used: map<nat, bool>, live: map<nat, seq<Detection>>, frame: nat)
    requires r.n == |r.items| == |r.claimed| && Midway(used, live, r.items, r.n, r.ended) && r.Appended(live)
    requires forall a :: 0 <= a < |r.claimed| ==> r.claimed[a].frame == frame && Angle(r.claimed[a].angle)
    ensures LiveOk(r.items, live - (set e | e in r.ended), frame)
  {
  }

  // ----- which indices stay in use -----

  ghost function Indices(ds: seq<Detection>): set<nat> {
    set d | d in ds :: d.index
  }

  /** No new region is the match of two old ones. */
  ghost predicate OneEach(news: seq<Detection>, olds: seq<Detection>) {
    forall i, j :: 0 <= i < j < |olds| && Best(news, olds[i], |news|).Some? ==>
      Best(news, olds[i], |news|) != Best(news, olds[j], |news|)
  }

  /** The regions of a frame and the histories they leave, as `Track` promises them. */
  ghost predicate Frame(news: seq<Detection>, olds: seq<Detection>, live: map<nat, seq<Detection>>,
                        items: seq<Detection>, live': map<nat, seq<Detection>>, clock: int) {
    && |items| == |news|
    && (forall a :: 0 <= a < |items| ==> Settled(Claim(news, olds, |olds|)[a], items[a], clock, live.Keys))
    && live' == Extended(live, items, |items|) - (set e | e in Ended(news, olds, |olds|))
  }

  lemma {:induction false} ExtendedKeys(live: map<nat, seq<Detection>>, items: seq<Detection>, n: nat)
    requires n <= |items|
    ensures forall k :: k in Extended(live, items, n) <==> k in live || exists a :: 0 <= a < n && items[a].index == k
  {
    if n > 0 {
      ExtendedKeys(live, items, n - 1);
      forall k ensures k in Extended(live, items, n) <==> k in live || exists a :: 0 <= a < n && items[a].index == k {
        if k == items[n - 1].index {
          assert items[n - 1].index == k;
        }
      }
    }
  }

  /** The index of a recorded region: that of its claimant, or one that was not in use. */
  lemma ItemIndex(news: seq<Detection>, olds: seq<Detection>, live: map<nat, seq<Detection>>, items: seq<Detection>,
                  live': map<nat, seq<Detection>>, clock: int, a: nat)
    requires Frame(news, olds, live, items, live', clock) && a < |news| && !news[a].matched
    ensures
      match Claimant(news, olds, a, |olds|)
      case Some(j) => items[a].index == olds[j].index
      case None => items[a].index !in live
  {
    ClaimedSource(news, olds, a);
    assert Settled(Claim(news, olds, |olds|)[a], items[a], clock, live.Keys);
  }

  /** A recorded region has gathered the points of its old ones, and starts when its claimant did or now. */
  lemma ItemContents(news: seq<Detection>, olds: seq<Detection>, live: map<nat, seq<Detection>>, items: seq<Detection>,
                     live': map<nat, seq<Detection>>, clock: int, a: nat)
    requires Frame(news, olds, live, items, live', clock) && a < |news| && !news[a].matched
    ensures items[a].size == news[a].size + Gathered(news, olds, a, |olds|)
    ensures
      items[a].created == match Claimant(news, olds, a, |olds|) case Some(j) => olds[j].created case None => clock
    ensures items[a].id == news[a].id && items[a].angle == news[a].angle && items[a].frame == news[a].frame
  {
    ClaimedSource(news, olds, a);
    ClaimedSize(news, olds, a, |olds|);
    assert Settled(Claim(news, olds, |olds|)[a], items[a], clock, live.Keys);
  }

  /** An old region keeps its index alive exactly when it is the last to choose its match. */
  lemma OldIndexKept(news: seq<Detection>, olds: seq<Detection>, live: map<nat, seq<Detection>>, items: seq<Detection>,
                     live': map<nat, seq<Detection>>, clock: int, j: nat, i: nat)
    requires Frame(news, olds, live, items, live', clock) && DistinctIndices(olds)
    requires forall d :: d in olds ==> d.index in live
    requires forall d :: d in news ==> !d.matched
    requires j < |olds| && Best(news, olds[j], |news|) == Some(i)
    ensures olds[j].index in Indices(items) <==> Claimant(news, olds, i, |olds|) == Some(j)
  {
    assert news[i] in news && olds[j] in olds;
    ItemIndex(news, olds, live, items, live', clock, i);
    if Claimant(news, olds, i, |olds|) == Some(j) {
      assert items[i] in items;
    }
    if olds[j].index in Indices(items) {
      var d :| d in items && d.index == olds[j].index;
      var a: nat :| a < |items| && items[a] == d;
      assert news[a] in news;
      ItemIndex(news, olds, live, items, live', clock, a);
    }
  }

  lemma {:induction false} LastClaimant(news: seq<Detection>, olds: seq<Detection>, i: nat, j: nat, n: nat)
    requires j < n <= |olds| && Best(news, olds[j], |news|) == Some(i)
    ensures Claimant(news, olds, i, n).Some? && Claimant(news, olds, i, n).value >= j
  {
    if Best(news, olds[n - 1], |news|) != Some(i) {
      LastClaimant(news, olds, i, j, n - 1);
    }
  }

  lemma OneEachByClaimant(news: seq<Detection>, olds: seq<Detection>)
    ensures OneEach(news, olds) <==>
      forall j :: 0 <= j < |olds| && Best(news, olds[j], |news|).Some? ==>
        Claimant(news, olds, Best(news, olds[j], |news|).value, |olds|) == Some(j)
  {
  }

  /** What becomes of the indices of matched old regions. */
  lemma MatchedIndices(news: seq<Detection>, olds: seq<Detection>, live: map<nat, seq<Detection>>,
                       items: seq<Detection>, live': map<nat, seq<Detection>>, clock: int)
    requires Frame(news, olds, live, items, live', clock) && DistinctIndices(olds)
    requires (forall d :: d in news ==> !d.matched) && Indices(olds) <= live.Keys
    ensures forall j :: 0 <= j < |olds| && Best(news, olds[j], |news|).Some? ==>
      olds[j].index in live'
      && (olds[j].index in Indices(items)
          <==> Claimant(news, olds, Best(news, olds[j], |news|).value, |olds|) == Some(j))
  {
    assert forall d :: d in olds ==> d.index in Indices(olds);
    forall j | 0 <= j < |olds| && Best(news, olds[j], |news|).Some?
      ensures olds[j].index in live'
      ensures olds[j].index in Indices(items)
              <==> Claimant(news, olds, Best(news, olds[j], |news|).value, |olds|) == Some(j)
    {
      OldIndexKept(news, olds, live, items, live', clock, j, Best(news, olds[j], |news|).value);
      StillThere(news, olds, live, items, live', clock, j);
    }
  }

  /** An index in use after the frame is that of a matched old region or of a new one. */
  lemma IndexFrom(news: seq<Detection>, olds: seq<Detection>, live: map<nat, seq<Detection>>, items: seq<Detection>,
                  live': map<nat, seq<Detection>>, clock: int, k: nat)
    requires Frame(news, olds, live, items, live', clock) && live.Keys == Indices(olds) && k in live'
    ensures
      k in Indices(items) || exists j :: 0 <= j < |olds| && Best(news, olds[j], |news|).Some? && olds[j].index == k
  {
    ExtendedKeys(live, items, |items|);
    EndedAre(news, olds, |olds|);
    if k in live {
      var d :| d in olds && d.index == k;
      var j: nat :| j < |olds| && olds[j] == d;
      assert !Unmatched(news, olds, j);
    } else {
      var a :| 0 <= a < |items| && items[a].index == k;
      assert items[a] in items;
    }
  }

  /** When the indices in use are exactly the live ones, one frame keeps it so exactly when no new region is the
      match of two old ones. */
  lemma LiveIndicesFrame(news: seq<Detection>, olds: seq<Detection>, live: map<nat, seq<Detection>>,
                         items: seq<Detection>, live': map<nat, seq<Detection>>, clock: int)
    requires Frame(news, olds, live, items, live', clock) && DistinctIndices(olds)
    requires forall d :: d in news ==> !d.matched
    requires live.Keys == Indices(olds)
    requires Indices(items) <= live'.Keys
    ensures live'.Keys == Indices(items) <==> OneEach(news, olds)
  {
    OneEachByClaimant(news, olds);
    MatchedIndices(news, olds, live, items, live', clock);
    hide OneEach, DistinctIndices, Frame, Indices, Best, Claimant;
    if OneEach(news, olds) {
      forall k | k in live'
        ensures k in Indices(items)
      {
        IndexFrom(news, olds, live, items, live', clock, k);
      }
    }
  }

  lemma StillThere(news: seq<Detection>, olds: seq<Detection>, live: map<nat, seq<Detection>>, items: seq<Detection>,
                   live': map<nat, seq<Detection>>, clock: int, j: nat)
    requires Frame(news, olds, live, items, live', clock) && DistinctIndices(olds)
    requires j < |olds| && Best(news, olds[j], |news|).Some? && olds[j].index in live
    ensures olds[j].index in live'
  {
    var k := olds[j].index;
    ExtendedKeys(live, items, |items|);
    EndedAre(news, olds, |olds|);
    if k in Ended(news, olds, |olds|) {
      var i :| 0 <= i < |olds| && Unmatched(news, olds, i) && olds[i].index == k;
    }
  }

  /** A history whose region lost its match to another one is stuck: the next frame does not extend it, emit it or
      reuse its index. */
  lemma LeakedFrame(news: seq<Detection>, olds: seq<Detection>, live: map<nat, seq<Detection>>,
                    items: seq<Detection>, live': map<nat, seq<Detection>>, clock: int, k: nat)
    requires Frame(news, olds, live, items, live', clock) && forall d :: d in news ==> !d.matched
    requires k in live && k !in Indices(olds)
    ensures k in live' && live'[k] == live[k] && k !in Indices(items) && k !in Ended(news, olds, |olds|)
  {
    forall a | 0 <= a < |items| ensures items[a].index != k {
      assert news[a] in news;
      ItemIndex(news, olds, live, items, live', clock, a);
      if Claimant(news, olds, a, |olds|).Some? {
        assert olds[Claimant(news, olds, a, |olds|).value] in olds;
      }
    }
    ExtendedElsewhere(live, items, |items|, k);
    EndedAre(news, olds, |olds|);
    forall j | 0 <= j < |olds| ensures olds[j].index in Indices(olds) {
      assert olds[j] in olds;
    }
  }

  // ----- whole runs -----

  /** One tracked frame: what was found, the old regions, and the regions and histories it left. */
  datatype Step = Step(
    news: seq<Detection>, olds: seq<Detection>, items: seq<Detection>, live: map<nat, seq<Detection>>, clock: int)

  function ItemsBefore(trace: seq<Step>, n: nat): seq<Detection>
    requires n <= |trace|
  {
    if n == 0 then [] else trace[n - 1].items
  }

  function LiveBefore(trace: seq<Step>, n: nat): map<nat, seq<Detection>>
    requires n <= |trace|
  {
    if n == 0 then map[] else trace[n - 1].live
  }

  /** A frame as `Track` promises it, after regions `before` and histories `live`. */
  ghost predicate StepOk(before: seq<Detection>, live: map<nat, seq<Detection>>, s: Step) {
    && multiset(s.olds) == multiset(before) && DistinctIndices(s.olds)
    && (forall d :: d in s.news ==> !d.matched)
    && Frame(s.news, s.olds, live, s.items, s.live, s.clock)
    && Indices(s.items) <= s.live.Keys
  }

  /** A run of frames from the empty tracker. */
  ghost predicate Run(trace: seq<Step>) {
    forall n :: 0 <= n < |trace| ==> StepOk(ItemsBefore(trace, n), LiveBefore(trace, n), trace[n])
  }

  ghost predicate RunTo(trace: seq<Step>, items: seq<Detection>, live: map<nat, seq<Detection>>) {
    Run(trace) && ItemsBefore(trace, |trace|) == items && LiveBefore(trace, |trace|) == live
  }

  lemma RunFront(trace: seq<Step>, s: Step, n: nat)
    requires Run(trace) && n < |trace|
    ensures StepOk(ItemsBefore(trace + [s], n), LiveBefore(trace + [s], n), (trace + [s])[n])
  {
    hide StepOk;
    assert StepOk(ItemsBefore(trace, n), LiveBefore(trace, n), trace[n]);
  }

  lemma RunMore(trace: seq<Step>, items: seq<Detection>, live: map<nat, seq<Detection>>, s: Step)
    requires RunTo(trace, items, live) && StepOk(items, live, s)
    ensures RunTo(trace + [s], s.items, s.live)
  {
    hide StepOk;
    var all := trace + [s];
    forall n | 0 <= n < |all|
      ensures StepOk(ItemsBefore(all, n), LiveBefore(all, n), all[n])
    {
      if n < |trace| {
        RunFront(trace, s, n);
      }
    }
    assert Run(all);
    hide Run;
  }

  lemma SameIndices(a: seq<Detection>, b: seq<Detection>)
    requires multiset(a) == multiset(b)
    ensures Indices(a) == Indices(b)
  {
    SameMembers(a, b);
  }

  lemma StepOfRun(trace: seq<Step>, n: nat)
    requires Run(trace) && n < |trace|
    ensures StepOk(ItemsBefore(trace, n), LiveBefore(trace, n), trace[n])
  {
    hide StepOk;
  }

  lemma LeakedStep(before: seq<Detection>, live: map<nat, seq<Detection>>, s: Step, k: nat)
    requires StepOk(before, live, s) && k in live && k !in Indices(before)
    ensures k in s.live && s.live[k] == live[k] && k !in Indices(s.items) && k !in Ended(s.news, s.olds, |s.olds|)
  {
    SameIndices(s.olds, before);
    hide Frame, Indices;
    LeakedFrame(s.news, s.olds, live, s.items, s.live, s.clock, k);
  }

  /**
  A history whose region lost its match to another one stays as it is for the rest of the run: no later frame extends
  it, emits it or reuses its index.
  */
  lemma {:induction false} LeakedForever(trace: seq<Step>, m: nat, n: nat, k: nat)
    requires Run(trace) && m <= n < |trace|
    requires k in trace[m].live && k !in Indices(trace[m].items)
    ensures k in trace[n].live && trace[n].live[k] == trace[m].live[k] && k !in Indices(trace[n].items)
    ensures m < n ==> k !in Ended(trace[n].news, trace[n].olds, |trace[n].olds|)
    decreases n
  {
    hide Run, StepOk;
    if m < n {
      LeakedForever(trace, m, n - 1, k);
      StepOfRun(trace, n);
      LeakedStep(trace[n - 1].items, trace[n - 1].live, trace[n], k);
    }
  }

  ghost predicate AllOneEach(trace: seq<Step>) {
    forall n :: 0 <= n < |trace| ==> OneEach(trace[n].news, trace[n].olds)
  }

  /**
  After every frame of every run: the indices in use are exactly those of the live regions exactly when in no frame so
  far a new region was the match of two old ones.
  */
  lemma {:induction false} LiveIndicesExactly(trace: seq<Step>, n: nat)
    requires Run(trace) && n <= |trace|
    ensures LiveBefore(trace, n).Keys == Indices(ItemsBefore(trace, n)) <==> AllOneEach(trace[..n])
  {
    hide Run, StepOk, OneEach, AllOneEach;
    if n > 0 {
      LiveIndicesExactly(trace, n - 1);
      AllOneEachMore(trace, n - 1);
      IndicesLive(trace, n - 1);
      StepOfRun(trace, n - 1);
      IndicesStep(ItemsBefore(trace, n - 1), LiveBefore(trace, n - 1), trace[n - 1]);
    } else {
      NoneYet(trace);
    }
  }

  lemma NoneYet(trace: seq<Step>)
    ensures AllOneEach(trace[..0]) && Indices([]) == {}
  {
  }

  lemma IndicesStep(before: seq<Detection>, live: map<nat, seq<Detection>>, s: Step)
    requires StepOk(before, live, s) && Indices(before) <= live.Keys
    ensures s.live.Keys == Indices(s.items) <==> live.Keys == Indices(before) && OneEach(s.news, s.olds)
  {
    SameIndices(s.olds, before);
    hide Frame, OneEach;
    if live.Keys == Indices(before) {
      LiveIndicesFrame(s.news, s.olds, live, s.items, s.live, s.clock);
    } else {
      hide Indices;
      var k :| k in live && k !in Indices(before);
      LeakedFrame(s.news, s.olds, live, s.items, s.live, s.clock, k);
    }
  }

  lemma IndicesLive(trace: seq<Step>, n: nat)
    requires Run(trace) && n <= |trace|
    ensures Indices(ItemsBefore(trace, n)) <= LiveBefore(trace, n).Keys
  {
    if n > 0 {
      StepOfRun(trace, n - 1);
    }
  }

  lemma AllOneEachMore(trace: seq<Step>, n: nat)
    requires n < |trace|
    ensures AllOneEach(trace[..n + 1]) <==> AllOneEach(trace[..n]) && OneEach(trace[n].news, trace[n].olds)
  {
    hide OneEach;
    assert forall i :: 0 <= i <= n ==> trace[..n + 1][i] == trace[i];
  }

  lemma TrackedSizes(found: seq<Detection>, s: Step, live: map<nat, seq<Detection>>, frame: nat, spots: map<nat, Spot>)
    requires Frame(s.news, s.olds, live, s.items, s.live, s.clock) && LiveOk(s.items, s.live, frame)
    requires multiset(s.news) == multiset(found) && FreshFrame(found, frame, spots)
    ensures forall a :: 0 <= a < |s.items| ==>
      && s.items[a].size == s.news[a].size + Gathered(s.news, s.olds, a, |s.olds|)
      && s.items[a].index in s.live && s.live[s.items[a].index] != []
      && s.live[s.items[a].index][|s.live[s.items[a].index]| - 1] == s.items[a]
  {
    SameMembers(found, s.news);
    forall a | 0 <= a < |s.items|
      ensures s.items[a].size == s.news[a].size + Gathered(s.news, s.olds, a, |s.olds|)
    {
      assert s.news[a] in s.news;
      ItemContents(s.news, s.olds, live, s.items, s.live, s.clock, a);
    }
    hide Frame, Gathered;
    assert forall a :: 0 <= a < |s.items| ==> s.items[a] in s.items;
  }

  lemma TrackedStep(before: seq<Detection>, live: map<nat, seq<Detection>>, found: seq<Detection>, s: Step, frame: nat,
                    spots: map<nat, Spot>)
    requires multiset(s.olds) == multiset(before) && LiveOk(before, live, frame) && LiveOk(s.items, s.live, frame + 1)
    requires multiset(s.news) == multiset(found) && FreshFrame(found, frame + 1, spots)
    requires Frame(s.news, s.olds, live, s.items, s.live, s.clock)
    ensures StepOk(before, live, s)
  {
    hide Frame;
    SameMembers(found, s.news);
    PermutedLive(before, s.olds, live, frame);
  }

  class RadarOverrun {
    var before: seq<Detection>
    var histories: map<nat, seq<Detection>>
    var used: map<nat, bool>
    ghost var past: seq<seq<Detection>>
    ghost var spots: map<nat, Spot>
    ghost var frame: nat
    ghost var trace: seq<Step>

    ghost predicate Valid()
      reads this
    {
      && InUse(used) == histories.Keys
      && RunTo(trace, before, histories)
      && LiveOk(before, histories, frame)
      && LedgerOk(Ledger(histories, past), spots)
    }

    constructor ()
      ensures Valid() && before == [] && histories == map[] && past == [] && spots == map[] && trace == []
    {
      before, histories, used := [], map[], map[];
      past, spots, frame, trace := [], map[], 0, [];
      new;
      assert InUse(used) == {};
    }

    /** `first` is the key the table happens to list first. */
    method ExpandHashTable(first: nat, newSize: int)
      requires used != map[] ==> first in used
      modifies this`used
      ensures newSize <= 0 ==> used == old(used)
      ensures newSize > 0 ==> used == Expanded(old(used), if old(used) == map[] then 0 else first + 1, newSize)
    {
      if newSize <= 0 {
        return;
      }
      var start := if used == map[] then 0 else first + 1;
      for i := 0 to newSize
        invariant used == Expanded(old(used), start, i)
      {
        used := used[start + i := false];
      }
    }

    /** A free index, growing the table behind its largest key when none is free. */
    method GetHashIndex() returns (index: nat)
      modifies this`used
      ensures index !in InUse(old(used)) && InUse(used) == InUse(old(used)) + {index}
    {
      var free := set k | k in used && !used[k];
      if free == {} {
        ghost var u := used;
        var first := 0;
        if used != map[] {
          first :| first in used && forall k :: k in used ==> k <= first by {
            var m := LargestKey(used.Keys);
          }
        }
        ExpandHashTable(first, GROWTH);
        ghost var start := if u == map[] then 0 else first + 1;
        assert InUse(used) == InUse(u);
        assert start in used && !used[start];
        index :| index in used && !used[index];
      } else {
        index :| index in free;
      }
      used := used[index := true];
    }

    method ReturnIndex(i: nat)
      modifies this`used
      ensures InUse(used) == InUse(old(used)) - {i} && used.Keys == old(used).Keys
    {
      if i in used {
        used := used[i := false];
      }
    }

    /** Gives one region its index, a free one when nobody claimed it, and appends it to that history. */
    method RecordItem(nowItem: Detection, clock: int, ghost r: Recording)
      returns (d: Detection, ghost r': Recording)
      requires r.Ok(used, histories, past, spots) && r.n < |r.items| && nowItem == r.items[r.n]
      requires clock == r.clock
      modifies this`histories, this`used, this`spots
      ensures r' == r.Next(d)
      ensures r'.Ok(used, histories, past, spots)
    {
      ghost var u := used;
      d := nowItem;
      if !d.matched {
        var index := GetHashIndex();
        d := d.(index := index, created := clock);
      } else {
        d := d.(matched := false);
      }
      r.StepOk(u, used, histories, past, spots, d);
      spots := spots[d.id := Live(d.index, |History(histories, d.index)|)];
      histories := Append(histories, d);
      r' := r.Next(d);
    }

    /** Gives every region of the frame its index and appends it to the history of that index. */
    method RecordFrame(claimed: seq<Detection>, clock: int, ghost ended: seq<nat>) returns (ghost r: Recording)
      requires Midway(used, histories, claimed, 0, ended)
      requires LedgerOk(Ledger(histories, past), spots)
      requires DistinctIds(claimed) && forall d :: d in claimed ==> d.id !in spots
      modifies this`before, this`histories, this`used, this`spots
      ensures r == Recording(claimed, before, |before|, ended, clock, old(histories), old(spots).Keys)
      ensures r.Ok(used, histories, past, spots)
    {
      hide Recording.Ok;
      before := [];
      r := Recording(claimed, claimed, 0, ended, clock, histories, spots.Keys);
      r.StartOk(used, past, spots);
      var i := 0;
      while i < |claimed|
        invariant r == Recording(claimed, r.items, i, ended, clock, old(histories), old(spots).Keys)
        invariant i <= |claimed| == |r.items| && before == r.items[..i] && r.items[i..] == claimed[i..]
        invariant r.Ok(used, histories, past, spots)
      {
        assert claimed[i] == r.items[i..][0];
        var d;
        d, r := RecordItem(claimed[i], clock, r);
        before := before + [d];
        i := i + 1;
      }
      assert r.items == before;
    }

    /** Emits one history and frees its index. */
    method FinishOne(item: nat, clock: int) returns (h: seq<Detection>)
      requires InUse(used) == histories.Keys && LedgerOk(Ledger(histories, past), spots)
      requires item in histories && histories[item] != []
      modifies this`histories, this`used, this`past, this`spots
      ensures InUse(used) == histories.Keys && LedgerOk(Ledger(histories, past), spots)
      ensures histories == old(histories) - {item} && h == Closed(old(histories)[item], clock)
      ensures past == old(past) + [h] && spots.Keys == old(spots).Keys
    {
      hide LedgerOk;
      h := Closed(histories[item], clock);
      LedgerEmit(Ledger(histories, past), spots, item, clock);
      spots, past := Moved(spots, item, |past|), past + [h];
      histories := histories - {item};
      ReturnIndex(item);
      assert InUse(used) == histories.Keys;
    }

    /** Emits the history of every index that found no match and frees the index. */
    method FinishEnded(ended: seq<nat>, clock: int) returns (finished: seq<seq<Detection>>)
      requires InUse(used) == histories.Keys && LedgerOk(Ledger(histories, past), spots)
      requires Distinct(ended) && forall e :: e in ended ==> e in histories && histories[e] != []
      modifies this`histories, this`used, this`past, this`spots
      ensures InUse(used) == histories.Keys && LedgerOk(Ledger(histories, past), spots)
      ensures histories == old(histories) - (set e | e in ended)
      ensures |finished| == |ended|
      ensures forall e :: 0 <= e < |ended| ==> finished[e] == Closed(old(histories)[ended[e]], clock)
      ensures past == old(past) + finished && spots.Keys == old(spots).Keys
    {
      hide LedgerOk, InUse;
      finished := [];
      ghost var live0 := histories;
      for i := 0 to |ended|
        invariant InUse(used) == histories.Keys && LedgerOk(Ledger(histories, past), spots)
        invariant Remaining(live0, histories, ended, i)
        invariant |finished| == i && forall e :: 0 <= e < i ==> finished[e] == Closed(live0[ended[e]], clock)
        invariant past == old(past) + finished && spots.Keys == old(spots).Keys
      {
        hide Closed;
        RemainingStep(live0, histories, ended, i);
        if ended[i] in histories {
          var h := FinishOne(ended[i], clock);
          finished := finished + [h];
        }
      }
      RemainingAll(live0, histories, ended);
    }

    /** One frame: `found` are its regions, `news` and `olds` the regions of this and the previous frame in
        the order the sorts put them. */
    method Track(found: seq<Detection>, clock: int)
      returns (finished: seq<seq<Detection>>, ghost news: seq<Detection>, ghost olds: seq<Detection>)
      requires Valid() && FreshFrame(found, frame + 1, spots)
      modifies this
      ensures Valid() && frame == old(frame) + 1
      ensures multiset(news) == multiset(found) && SortedByAngle(news)
      ensures multiset(olds) == multiset(old(before)) && SortedByAngle(olds)
      ensures |before| == |found| && Frame(news, olds, old(histories), before, histories, clock)
      ensures trace == old(trace) + [Step(news, olds, before, histories, clock)]
      ensures past == old(past) + finished && |finished| == |Ended(news, olds, |olds|)|
      ensures forall e :: 0 <= e < |finished| ==>
        && Ended(news, olds, |olds|)[e] in old(histories)
        && old(histories)[Ended(news, olds, |olds|)[e]] != []
        && finished[e] == Closed(old(histories)[Ended(news, olds, |olds|)[e]], clock)
      ensures forall e :: 0 <= e < |finished| ==> finished[e] != [] && finished[e][|finished[e]| - 1].updated == clock
      ensures forall a :: 0 <= a < |before| ==>
        && before[a].size == news[a].size + Gathered(news, olds, a, |olds|)
        && before[a].index in histories && histories[before[a].index] != []
        && histories[before[a].index][|histories[before[a].index]| - 1] == before[a]
      ensures spots.Keys == old(spots).Keys + Ids(found)
    {
      hide LedgerOk, Midway, LiveOk, FreshFrame, Recording.Ok, Claim, Ended, Extended, InUse, Distinct, Settled;
      hide SortedByAngle, RunTo, StepOk;
      var now := SortByAngle(found);
      var last := SortByAngle(before);
      news, olds := now, last;
      PermutedFrame(found, now, frame + 1, spots);
      PermutedLive(before, last, histories, frame);
      LedgerHistories(Ledger(histories, past), spots);
      MidwayStart(used, histories, now, last, frame, spots);
      var claimed, ended := Match(now, last);
      ClaimLabels(now, last, frame + 1, spots);
      ClaimIds(found, now, claimed);
      ghost var r := RecordFrame(claimed, clock, ended);
      RecordedFrame(r, used, histories, past, spots, frame + 1);
      finished := FinishEnded(ended, clock);
      frame := frame + 1;
      ghost var s := Step(news, olds, before, histories, clock);
      TrackedStep(old(before), old(histories), found, s, old(frame), old(spots));
      RunMore(trace, old(before), old(histories), s);
      trace := trace + [s];
      TrackedSizes(found, s, old(histories), frame, old(spots));
      forall e | 0 <= e < |finished|
        ensures finished[e] != [] && finished[e][|finished[e]| - 1].updated == clock
      {
        ClosedStamps(old(histories)[ended[e]], clock);
      }
      hide Frame, Gathered;
    }
  }

  /** The histories left once the first `n` ended indices are gone. */
  ghost predicate Remaining(live0: map<nat, seq<Detection>>, live: map<nat, seq<Detection>>, ended: seq<nat>, n: nat)
    requires n <= |ended|
  {
    && (forall k :: k in live ==> k in live0 && live[k] == live0[k])
    && (forall k :: k in live0 && k !in ended[..n] ==> k in live)
    && (forall k :: k in ended[..n] ==> k !in live)
  }

  lemma RemainingStep(live0: map<nat, seq<Detection>>, live: map<nat, seq<Detection>>, ended: seq<nat>, n: nat)
    requires n < |ended| && Remaining(live0, live, ended, n) && Distinct(ended) && ended[n] in live0
    ensures ended[n] in live && Remaining(live0, live - {ended[n]}, ended, n + 1)
  {
  }

  lemma RemainingAll(live0: map<nat, seq<Detection>>, live: map<nat, seq<Detection>>, ended: seq<nat>)
    requires Remaining(live0, live, ended, |ended|)
    ensures live == live0 - (set e | e in ended)
  {
  }
}
