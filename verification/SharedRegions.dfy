/**
The tracker as it meets the scans: the regions of one scan are all the same object, listed once per region. The index
table is that of `OverrunTracker`; matching, recording and finishing work on the shared objects in place.

A scan with k regions leaves k - 1 indices behind, in use and out of reach for good.
*/
module SharedRegions {
  import OverrunTracker

  /** What the tracker reads and writes of a region's object. */
  class Surface {
    var angle: real
    var matched: bool
    var index: nat

    constructor (angle: real)
      ensures this.angle == angle && !matched && index == 0
    {
      this.angle, matched, index := angle, false, 0;
    }
  }

  /** Every entry of the list is the same object. */
  predicate Shared(list: seq<Surface>) { forall i :: 0 <= i < |list| ==> list[i] == list[0] }

  /** The regions beyond the first of each scan. */
  function Extra(scans: seq<nat>): nat {
    if scans == [] then 0
    else
      var k := scans[|scans| - 1];
      Extra(scans[..|scans| - 1]) + (if k == 0 then 0 else k - 1)
  }

  /** The histories stay as they were, but for one if `except` says so. */
  ghost predicate Untouched(earlier: map<nat, seq<Surface>>, later: map<nat, seq<Surface>>, except: bool, k: nat) {
    forall i :: i in earlier && (except ==> i != k) ==> i in later && later[i] == earlier[i]
  }

  function One(list: seq<Surface>): nat { if list == [] then 0 else 1 }

  class Tracker {
    const table: OverrunTracker.RadarOverrun
    var before: seq<Surface>
    var histories: map<nat, seq<Surface>>
    ghost var scans: seq<nat>

    /**
    In every run: one index in use for the live object, if there is one, and one more for every extra region of every
    scan so far.
    */
    ghost predicate Valid()
      reads this, table, before
    {
      && OverrunTracker.InUse(table.used) == histories.Keys
      && Shared(before)
      && (before != [] ==> before[0].index in histories && !before[0].matched)
      && |histories| == Extra(scans) + One(before)
    }

    constructor ()
      ensures Valid() && before == [] && scans == [] && fresh(table)
    {
      before, histories, scans := [], map[], [];
      table := new OverrunTracker.RadarOverrun();
      new;
      assert OverrunTracker.InUse(table.used) == {};
    }

    /** The object of this scan and that of the last one are close enough to be the same overrun. */
    predicate Near(now: seq<Surface>)
      reads this, now, before
    {
      && now != [] && before != []
      && OverrunTracker.Circular(now[0].angle, before[0].angle) <= OverrunTracker.LIMIT
    }

    /** One entry of the last scan looks for the nearest region of this one. */
    method Nearest(now: seq<Surface>, b: Surface) returns (found: Surface?)
      requires Shared(now)
      ensures found == if now != [] && OverrunTracker.Circular(now[0].angle, b.angle) <= OverrunTracker.LIMIT
                       then now[0] else null
    {
      found := null;
      var minDiff := 360.0;
      var j := 0;
      while j < |now|
        invariant 0 <= j <= |now|
        invariant found == null ==> minDiff == 360.0
        invariant found == if j > 0 && OverrunTracker.Circular(now[0].angle, b.angle) <= OverrunTracker.LIMIT
                           then now[0] else null
      {
        var diff := OverrunTracker.Circular(now[j].angle, b.angle);
        if diff < minDiff && diff <= OverrunTracker.LIMIT {
          minDiff := diff;
          found := now[j];
        }
        j := j + 1;
      }
    }

    /** The matching loop: the entries of the last scan all choose alike. */
    method Match(now: seq<Surface>) returns (ended: seq<nat>)
      requires Shared(now) && Shared(before) && (now != [] && before != [] ==> now[0] != before[0])
      requires now != [] ==> !now[0].matched
      modifies now
      ensures old(Near(now)) ==> now[0].matched && now[0].index == before[0].index && ended == []
      ensures !old(Near(now)) ==> (now != [] ==> !now[0].matched) && |ended| == |before|
      ensures forall e <- ended :: before != [] && e == before[0].index
      ensures now != [] ==> now[0].angle == old(now[0].angle)
      ensures before != [] ==> before[0].index == old(before[0].index) && before[0].matched == old(before[0].matched)
    {
      ended := [];
      ghost var near := Near(now);
      var i := 0;
      while i < |before|
        modifies now
        invariant 0 <= i <= |before|
        invariant now != [] ==> now[0].angle == old(now[0].angle)
        invariant before != [] ==> before[0].index == old(before[0].index) && before[0].angle == old(before[0].angle)
        invariant before != [] ==> before[0].matched == old(before[0].matched)
        invariant near ==> ended == [] && (i > 0 ==> now[0].matched && now[0].index == before[0].index)
        invariant !near ==> (now != [] ==> !now[0].matched) && |ended| == i
        invariant forall e <- ended :: e == before[0].index
      {
        var b := before[i];
        var found := Nearest(now, b);
        if found != null {
          found.matched := true;
          found.index := b.index;
        } else {
          ended := ended + [b.index];
        }
        i := i + 1;
      }
    }

    /** One turn of the recording loop: a matched object keeps its index, any other takes a fresh one. */
    method RecordOne(nowItem: Surface)
      requires OverrunTracker.InUse(table.used) == histories.Keys && (nowItem.matched ==> nowItem.index in histories)
      modifies this`before, this`histories, table`used, nowItem
      ensures OverrunTracker.InUse(table.used) == histories.Keys && before == old(before) + [nowItem]
      ensures !nowItem.matched && nowItem.angle == old(nowItem.angle)
      ensures if old(nowItem.matched) then nowItem.index == old(nowItem.index) else nowItem.index !in old(histories)
      ensures histories.Keys == old(histories).Keys + {nowItem.index}
      ensures forall k :: k in old(histories) && k != nowItem.index ==> histories[k] == old(histories)[k]
      ensures |histories| == |old(histories)| + if nowItem.index in old(histories) then 0 else 1
    {
      var index;
      ghost var keys := histories.Keys;
      SizeOf(histories);
      if !nowItem.matched {
        index := table.GetHashIndex();
        nowItem.index := index;
        nowItem.matched := false;
      } else {
        index := nowItem.index;
        nowItem.matched := false;
      }
      before := before + [nowItem];
      histories := histories[index := (if index in histories then histories[index] else []) + [nowItem]];
      assert histories.Keys == keys + {index};
      Sizes(histories, keys, index);
    }

    /**
    The recording loop over the list: the match mark is cleared by the first entry, so every later one takes a fresh
    index and overwrites the one before.
    */
    method Record(now: seq<Surface>)
      requires OverrunTracker.InUse(table.used) == histories.Keys && Shared(now)
      requires now != [] && now[0].matched ==> now[0].index in histories
      modifies this`before, this`histories, table`used, now
      ensures OverrunTracker.InUse(table.used) == histories.Keys && before == now
      ensures now != [] ==> now[0].index in histories && !now[0].matched
      ensures old(histories).Keys <= histories.Keys
      ensures |histories| == |old(histories)| + if now != [] && old(now[0].matched) then |now| - 1 else |now|
      ensures now != [] ==>
        now[0].index !in old(histories) || (old(now[0].matched) && now[0].index == old(now[0].index))
      ensures Untouched(old(histories), histories, now != [] && old(now[0].matched),
                        if now == [] then 0 else old(now[0].index))
    {
      hide OverrunTracker.InUse;
      ghost var held, kept := now != [] && now[0].matched, if now == [] then 0 else now[0].index;
      before := [];
      var i := 0;
      while i < |now|
        modifies this`before, this`histories, table`used, now
        invariant 0 <= i <= |now| && before == now[..i]
        invariant OverrunTracker.InUse(table.used) == histories.Keys
        invariant old(histories).Keys <= histories.Keys
        invariant i == 0 ==> now == [] || (now[0].matched == held && (held ==> now[0].index in histories))
        invariant i > 0 ==> now[0].index in histories && !now[0].matched
        invariant i > 0 ==> now[0].index !in old(histories) || (held && now[0].index == kept)
        invariant i == 0 && held ==> now[0].index == kept
        invariant Untouched(old(histories), histories, held, kept)
        invariant |histories| == |old(histories)| + if held && i > 0 then i - 1 else i
      {
        assert now[i] == now[0] && now[..i + 1] == now[..i] + [now[i]];
        RecordOne(now[i]);
        i := i + 1;
      }
    }

    /** The finishing loop: the ended index is the same each time, so only the first finds a history. */
    method Finish(ended: seq<nat>, ghost x: nat) returns (finished: seq<seq<Surface>>)
      requires OverrunTracker.InUse(table.used) == histories.Keys && forall e <- ended :: e == x
      modifies this`histories, table`used
      ensures OverrunTracker.InUse(table.used) == histories.Keys
      ensures histories.Keys == old(histories).Keys - (if ended == [] then {} else {x})
      ensures Untouched(old(histories), histories, ended != [], x)
      ensures |finished| == if ended != [] && x in old(histories) then 1 else 0
    {
      finished := [];
      var i := 0;
      while i < |ended|
        modifies this`histories, table`used
        invariant 0 <= i <= |ended|
        invariant OverrunTracker.InUse(table.used) == histories.Keys
        invariant histories.Keys == old(histories).Keys - (if i == 0 then {} else {x})
        invariant Untouched(old(histories), histories, i > 0, x)
        invariant |finished| == if i > 0 && x in old(histories) then 1 else 0
      {
        var item := ended[i];
        assert item in ended && item == x;
        if item in histories {
          finished := finished + [histories[item]];
          histories := histories - {item};
          table.ReturnIndex(item);
        }
        assert histories.Keys == old(histories).Keys - {x};
        i := i + 1;
      }
    }

    /**
    One scan. At most one history is finished, and for every region beyond the first one more index stays in use that no
    object names. An index that no object names any more keeps its history as it is, and no object gets it again.
    */
    method Track(now: seq<Surface>) returns (finished: seq<seq<Surface>>)
      requires Valid() && Shared(now) && (now != [] ==> !now[0].matched && now[0] !in before)
      modifies this`before, this`histories, this`scans, table`used, now
      ensures Valid() && before == now && scans == old(scans) + [|now|]
      ensures |finished| <= 1
      ensures forall k :: k in old(histories) && (old(before) != [] ==> k != old(before[0].index)) ==>
        k in histories && histories[k] == old(histories)[k] && (now != [] ==> now[0].index != k)
    {
      ghost var near, had, x := Near(now), before != [], if before != [] then before[0].index else 0;
      var ended := Match(now);
      Record(now);
      ghost var recorded := histories.Keys;
      SizeOf(histories);
      finished := Finish(ended, x);
      scans := scans + [|now|];
      ExtraMore(old(scans), |now|);
      FinishedSize(histories.Keys, recorded, x, ended != []);
      SizeOf(histories);
    }
  }

  lemma ExtraMore(scans: seq<nat>, k: nat)
    ensures Extra(scans + [k]) == Extra(scans) + if k == 0 then 0 else k - 1
  {
    assert (scans + [k])[..|scans|] == scans;
  }

  lemma SizeOf(m: map<nat, seq<Surface>>)
    ensures |m| == |m.Keys|
  {
  }

  lemma Sizes(m: map<nat, seq<Surface>>, keys: set<nat>, k: nat)
    requires m.Keys == keys + {k}
    ensures |m| == |keys| + if k in keys then 0 else 1
  {
    SizeOf(m);
    if k in keys {
      assert keys + {k} == keys;
    }
  }

  lemma FinishedSize(after: set<nat>, before: set<nat>, x: nat, ended: bool)
    requires after == before - (if ended then {x} else {})
    ensures |after| == |before| - if ended && x in before then 1 else 0
  {
    if ended && x in before {
      assert before == after + {x};
    } else {
      assert after == before;
    }
  }
}
