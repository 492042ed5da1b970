/**
The image-position edge filter and its consumer. On every timer tick the geometry service looks at its latest sample
and forwards it only while the position comes from an image, plus once when that ends; the location service opens an
adjustment when an image position appears and closes it when it goes away.

Both are run over the same ticks, once with the filter between them and once without. The distance the location
service reads may depend on the adjustments made so far.
*/
module AdjustmentFilter {
  import opened Common

  const PT_NONE := 0
  const PT_IMG := 4

  /** One timer tick: nothing collected yet, or the latest sample's position type and whether the consumer listens. */
  datatype Tick = NoData | Data(kind: int, open: bool)

  /** `from` and `to` are distances read at the two ends of an adjustment; `apply` says it is within the limits. */
  datatype Event = Opened(at: nat, from: real) | Closed(at: nat, from: real, to: real, apply: bool)

  datatype Consumer = Consumer(isAdjust: bool, preKilometer: real, events: seq<Event>)

  type Odometer = (nat, seq<Event>) -> real

  predicate Applies(from: real, to: real) { 0.0001 < Abs(to - from) < 0.0005 }

  /** recvImageData at tick `at`. */
  function Received(c: Consumer, at: nat, kind: int, open: bool, km: real): Consumer {
    if !open then c
    else if kind == PT_IMG && !c.isAdjust then Consumer(true, km, c.events + [Opened(at, km)])
    else if kind != PT_IMG && c.isAdjust then
      Consumer(false, c.preKilometer, c.events + [Closed(at, c.preKilometer, km, Applies(c.preKilometer, km))])
    else c
  }

  predicate Forwards(last: int, kind: int) { kind == PT_IMG || last == PT_IMG }

  function LastKind(ticks: seq<Tick>): int {
    if ticks == [] then PT_NONE
    else
      var n := |ticks| - 1;
      match ticks[n]
      case NoData => LastKind(ticks[..n])
      case Data(kind, _) => kind
  }

  /** The consumer fed with every sample. */
  function Raw(ticks: seq<Tick>, km: Odometer): Consumer {
    if ticks == [] then Consumer(false, 0.0, [])
    else
      var n := |ticks| - 1;
      var c := Raw(ticks[..n], km);
      match ticks[n]
      case NoData => c
      case Data(kind, open) => Received(c, n, kind, open, km(n, c.events))
  }

  /** The consumer fed through the filter. */
  function Filtered(ticks: seq<Tick>, km: Odometer): Consumer {
    if ticks == [] then Consumer(false, 0.0, [])
    else
      var n := |ticks| - 1;
      var c := Filtered(ticks[..n], km);
      match ticks[n]
      case NoData => c
      case Data(kind, open) =>
        if Forwards(LastKind(ticks[..n]), kind) then Received(c, n, kind, open, km(n, c.events)) else c
  }

  /** The last sample that arrived while the consumer listened was an image position. */
  function LastHeardImage(ticks: seq<Tick>): bool {
    if ticks == [] then false
    else
      var n := |ticks| - 1;
      if ticks[n].Data? && ticks[n].open then ticks[n].kind == PT_IMG else LastHeardImage(ticks[..n])
  }

  /**
  The consumer starts to listen only after an image run it had heard is over: the filter has already sent the end of
  the run, and sends nothing now.
  */
  predicate LateAt(ticks: seq<Tick>, i: nat)
    requires i < |ticks|
  {
    && ticks[i].Data? && ticks[i].open && ticks[i].kind != PT_IMG
    && LastKind(ticks[..i]) != PT_IMG
    && LastHeardImage(ticks[..i])
  }

  ghost predicate NeverLate(ticks: seq<Tick>) { forall i :: 0 <= i < |ticks| ==> !LateAt(ticks, i) }

  /** An adjustment is open exactly when the last sample heard was an image position. */
  lemma {:induction false} OpenIffHeard(ticks: seq<Tick>, km: Odometer)
    ensures Raw(ticks, km).isAdjust == LastHeardImage(ticks)
  {
    if ticks != [] {
      OpenIffHeard(ticks[..|ticks| - 1], km);
    }
  }

  // ----- what an adjustment remembers -----

  /** Every close comes right after an opening, with the distance read at that opening. */
  ghost predicate Paired(events: seq<Event>) {
    forall i :: 0 <= i < |events| && events[i].Closed? ==>
      i > 0 && events[i - 1].Opened? && events[i - 1].from == events[i].from && events[i - 1].at < events[i].at
      && (events[i].apply <==> 0.0001 < Abs(events[i].to - events[i].from) < 0.0005)
  }

  /** An open adjustment remembers the distance of the last event, its opening. */
  ghost predicate Remembers(c: Consumer) {
    && Paired(c.events)
    && (c.isAdjust ==>
          c.events != [] && c.events[|c.events| - 1].Opened? && c.events[|c.events| - 1].from == c.preKilometer)
  }

  /** Events carry the distance read at their own tick, and ticks only grow. */
  ghost predicate Read(events: seq<Event>, km: Odometer, n: nat) {
    forall i :: 0 <= i < |events| ==>
      && events[i].at < n && (i > 0 ==> events[i - 1].at < events[i].at)
      && (if events[i].Opened? then events[i].from else events[i].to) == km(events[i].at, events[..i])
  }

  /** A received sample adds at most one event, of its own tick and distance. */
  lemma ReceivedAdds(c: Consumer, n: nat, kind: int, open: bool, d: real)
    ensures
      var c' := Received(c, n, kind, open, d);
      || c' == c
      || (!c.isAdjust && c' == Consumer(true, d, c.events + [Opened(n, d)]))
      || (c.isAdjust && exists apply ::
            && (apply <==> 0.0001 < Abs(d - c.preKilometer) < 0.0005)
            && c' == Consumer(false, c.preKilometer, c.events + [Closed(n, c.preKilometer, d, apply)]))
  {
  }

  lemma PairedMore(events: seq<Event>, e: Event)
    requires Paired(events)
    requires e.Closed? ==>
      && events != [] && events[|events| - 1].Opened? && events[|events| - 1].from == e.from
      && events[|events| - 1].at < e.at && (e.apply <==> 0.0001 < Abs(e.to - e.from) < 0.0005)
    ensures Paired(events + [e])
  {
    hide Abs;
  }

  lemma ReadMore(events: seq<Event>, km: Odometer, n: nat, e: Event)
    requires Read(events, km, n) && e.at == n
    requires (if e.Opened? then e.from else e.to) == km(n, events)
    ensures Read(events + [e], km, n + 1)
  {
    var all := events + [e];
    forall i | 0 <= i < |all|
      ensures
        && all[i].at < n + 1 && (i > 0 ==> all[i - 1].at < all[i].at)
        && (if all[i].Opened? then all[i].from else all[i].to) == km(all[i].at, all[..i])
    {
      assert i < |events| ==> all[i] == events[i] && all[..i] == events[..i];
      assert all[..|events|] == events;
    }
  }

  lemma ReceivedRemembers(c: Consumer, n: nat, kind: int, open: bool, km: Odometer)
    requires Remembers(c) && Read(c.events, km, n)
    ensures
      var c' := Received(c, n, kind, open, km(n, c.events));
      Remembers(c') && Read(c'.events, km, n + 1)
  {
    var d := km(n, c.events);
    var c' := Received(c, n, kind, open, d);
    ReceivedAdds(c, n, kind, open, d);
    hide Received, Paired, Read, Abs;
    if c' == c {
      ReadLonger(c.events, km, n);
    } else {
      var e := c'.events[|c.events|];
      assert c'.events == c.events + [e];
      LastBefore(c.events, km, n);
      PairedMore(c.events, e);
      ReadMore(c.events, km, n, e);
    }
  }

  lemma LastBefore(events: seq<Event>, km: Odometer, n: nat)
    requires Read(events, km, n)
    ensures events != [] ==> events[|events| - 1].at < n
  {
  }

  lemma ReadLonger(events: seq<Event>, km: Odometer, n: nat)
    requires Read(events, km, n)
    ensures Read(events, km, n + 1)
  {
  }

  /**
  Over any ticks, with the filter or without: an adjustment closes with the distance read when it opened, each event
  carries the distance read at its own tick, and the correction applies exactly within the limits.
  */
  lemma {:induction false} AdjustmentsRemember(ticks: seq<Tick>, km: Odometer)
    ensures Remembers(Raw(ticks, km)) && Read(Raw(ticks, km).events, km, |ticks|)
    ensures Remembers(Filtered(ticks, km)) && Read(Filtered(ticks, km).events, km, |ticks|)
  {
    if ticks != [] {
      var n := |ticks| - 1;
      var front := ticks[..n];
      AdjustmentsRemember(front, km);
      ReadLonger(Raw(front, km).events, km, n);
      ReadLonger(Filtered(front, km).events, km, n);
      if ticks[n].Data? {
        ReceivedRemembers(Raw(front, km), n, ticks[n].kind, ticks[n].open, km);
        ReceivedRemembers(Filtered(front, km), n, ticks[n].kind, ticks[n].open, km);
      }
    }
  }

  lemma LateBefore(ticks: seq<Tick>, n: nat, i: nat)
    requires i < n <= |ticks|
    ensures LateAt(ticks[..n], i) == LateAt(ticks, i)
  {
    assert ticks[..n][..i] == ticks[..i];
  }

  lemma {:induction false} NeverLateAgrees(ticks: seq<Tick>, km: Odometer)
    requires NeverLate(ticks)
    ensures Filtered(ticks, km) == Raw(ticks, km)
  {
    if ticks != [] {
      var n := |ticks| - 1;
      forall i | 0 <= i < n
        ensures !LateAt(ticks[..n], i)
      {
        LateBefore(ticks, n, i);
      }
      NeverLateAgrees(ticks[..n], km);
      OpenIffHeard(ticks[..n], km);
      assert !LateAt(ticks, n);
    }
  }

  // ----- the converse -----

  ghost predicate HasAt(events: seq<Event>, i: nat) { exists e :: e in events && e.at == i }

  lemma {:induction false} RawAt(ticks: seq<Tick>, km: Odometer, i: nat)
    ensures i >= |ticks| ==> !HasAt(Raw(ticks, km).events, i)
    ensures i < |ticks| ==> HasAt(Raw(ticks, km).events, i) == HasAt(Raw(ticks[..i + 1], km).events, i)
  {
    if ticks != [] {
      var n := |ticks| - 1;
      RawAt(ticks[..n], km, i);
      if i < n {
        assert ticks[..n][..i + 1] == ticks[..i + 1];
        RawKeeps(ticks, km, i);
      } else if i == n {
        assert ticks[..i + 1] == ticks;
      } else {
        RawKeeps(ticks, km, i);
      }
    }
  }

  lemma RawKeeps(ticks: seq<Tick>, km: Odometer, i: nat)
    requires ticks != [] && i != |ticks| - 1
    ensures HasAt(Raw(ticks, km).events, i) == HasAt(Raw(ticks[..|ticks| - 1], km).events, i)
  {
  }

  lemma {:induction false} FilteredAt(ticks: seq<Tick>, km: Odometer, i: nat)
    ensures i >= |ticks| ==> !HasAt(Filtered(ticks, km).events, i)
    ensures i < |ticks| ==> HasAt(Filtered(ticks, km).events, i) == HasAt(Filtered(ticks[..i + 1], km).events, i)
  {
    if ticks != [] {
      var n := |ticks| - 1;
      FilteredAt(ticks[..n], km, i);
      if i < n {
        assert ticks[..n][..i + 1] == ticks[..i + 1];
        FilteredKeeps(ticks, km, i);
      } else if i == n {
        assert ticks[..i + 1] == ticks;
      } else {
        FilteredKeeps(ticks, km, i);
      }
    }
  }

  lemma FilteredKeeps(ticks: seq<Tick>, km: Odometer, i: nat)
    requires ticks != [] && i != |ticks| - 1
    ensures HasAt(Filtered(ticks, km).events, i) == HasAt(Filtered(ticks[..|ticks| - 1], km).events, i)
  {
  }

  /** A late opening is a close that only the unfiltered consumer sees. */
  lemma LateDiffers(ticks: seq<Tick>, km: Odometer, i: nat)
    requires i < |ticks| && LateAt(ticks, i)
    ensures HasAt(Raw(ticks, km).events, i) && !HasAt(Filtered(ticks, km).events, i)
  {
    var upTo := ticks[..i + 1];
    assert upTo[..i] == ticks[..i];
    RawAt(ticks, km, i);
    FilteredAt(ticks, km, i);
    OpenIffHeard(ticks[..i], km);
    FilteredAt(ticks[..i], km, i);
    var c, c' := Raw(ticks[..i], km), Raw(upTo, km);
    assert c'.events == c.events + [c'.events[|c.events|]];
    assert c'.events[|c.events|] in c'.events;
  }

  /** The filter loses nothing its consumer needs exactly when the consumer never starts to listen late. */
  lemma FilterExact(ticks: seq<Tick>, km: Odometer)
    ensures Filtered(ticks, km).events == Raw(ticks, km).events <==> NeverLate(ticks)
    ensures NeverLate(ticks) ==> Filtered(ticks, km) == Raw(ticks, km)
  {
    if NeverLate(ticks) {
      NeverLateAgrees(ticks, km);
    } else {
      var i :| 0 <= i < |ticks| && LateAt(ticks, i);
      LateDiffers(ticks, km, i);
    }
  }

  lemma {:induction false} HeardIsLast(ticks: seq<Tick>)
    requires forall t: Tick :: t in ticks && t.Data? ==> t.open
    ensures LastHeardImage(ticks) == (LastKind(ticks) == PT_IMG)
  {
    if ticks != [] {
      HeardIsLast(ticks[..|ticks| - 1]);
    }
  }

  /** While detection and image adjustment stay on, the two machines move together and no episode is lost. */
  lemma ListeningThroughout(ticks: seq<Tick>, km: Odometer)
    requires forall t: Tick :: t in ticks && t.Data? ==> t.open
    ensures Filtered(ticks, km) == Raw(ticks, km)
    ensures Filtered(ticks, km).isAdjust <==> LastKind(ticks) == PT_IMG
  {
  }

  // ----- the two services -----

  class JiHeService {
    var lastPositionType: int

    constructor ()
      ensures lastPositionType == LastKind([])
    {
      lastPositionType := PT_NONE;
    }

    /** onDataToLocationTimer; `sent` is the position type forwarded, if any. */
    method OnDataToLocationTimer(ghost before: seq<Tick>, back: Tick) returns (sent: Tick)
      requires lastPositionType == LastKind(before)
      modifies this
      ensures lastPositionType == LastKind(before + [back])
      ensures sent == if back.Data? && Forwards(LastKind(before), back.kind) then back else NoData
    {
      assert (before + [back])[..|before|] == before;
      sent := NoData;
      if back.NoData? {
        return;
      }
      if back.kind == PT_IMG {
        sent := back;
        lastPositionType := PT_IMG;
      } else {
        if lastPositionType == PT_IMG {
          sent := back;
        }
        lastPositionType := back.kind;
      }
    }
  }

  class LocationService {
    var isAdjust: bool
    var preKilometer: real
    ghost var events: seq<Event>

    ghost function State(): Consumer
      reads this
    {
      Consumer(isAdjust, preKilometer, events)
    }

    constructor ()
      ensures State() == Consumer(false, 0.0, [])
    {
      isAdjust, preKilometer, events := false, 0.0, [];
    }

    /**
    recvImageData. `pole` is the database's kilometre of the current pole, if it is found; the result is the kilometre
    to adjust to, in the direction `sign` from the start of the run.
    */
    method RecvImageData(at: nat, kind: int, open: bool, km: real, pole: Option<real>, position: real, span: real,
                         sign: real, start: real)
      returns (adjusted: Option<real>)
      modifies this
      ensures State() == Received(old(State()), at, kind, open, km)
      ensures isAdjust == if open then kind == 4 else old(isAdjust)
      ensures preKilometer == if open && kind == 4 && !old(isAdjust) then km else old(preKilometer)
      ensures adjusted.Some? <==>
        && open && kind != 4 && old(isAdjust) && 0.0001 < Abs(km - old(preKilometer)) < 0.0005
        && pole.Some? && Abs(position - pole.value) < 0.3 * span
      ensures adjusted.Some? ==> adjusted.value == sign * (pole.value - start + km - old(preKilometer))
    {
      adjusted := None;
      if !open {
        return;
      }
      if kind == PT_IMG && !isAdjust {
        isAdjust := true;
        preKilometer := km;
        events := events + [Opened(at, km)];
      }
      if kind != PT_IMG && isAdjust {
        isAdjust := false;
        var distance := Abs(km - preKilometer);
        var apply := distance > 0.0001 && distance < 0.0005;
        events := events + [Closed(at, preKilometer, km, apply)];
        if apply && pole.Some? && Abs(position - pole.value) < 0.3 * span {
          adjusted := Some(sign * (pole.value - start + km - preKilometer));
        }
      }
    }
  }
}
