/**
Grouping rows by station and sending one object per station. A station's group is sent when the next new station
appears, or at the end; what arrives for it later is collected but never sent.
*/
module StationGroups {
  type Item = nat

  datatype Station = Station(name: string)

  /** Rows without a station name. */
  const UNNAMED := Station("")

  datatype Row = Row(station: Station, item: Item)

  datatype Group = Group(station: Station, items: seq<Item>)

  predicate Seen(rows: seq<Row>, station: Station) { exists i :: 0 <= i < |rows| && rows[i].station == station }

  /** Row i is the first one of its station. */
  predicate FirstAt(rows: seq<Row>, i: nat)
    requires i < |rows|
  {
    !Seen(rows[..i], rows[i].station)
  }

  /** The station that appeared most recently for the first time. */
  function Newest(rows: seq<Row>): Station {
    if rows == [] then UNNAMED
    else
      var n := |rows| - 1;
      if FirstAt(rows, n) then rows[n].station else Newest(rows[..n])
  }

  /** The rows that belong, on arrival, to the newest station, which has a name. */
  function Kept(rows: seq<Row>): (r: seq<Row>)
    ensures |r| <= |rows|
  {
    if rows == [] then []
    else
      var n := |rows| - 1;
      var last := rows[n];
      Kept(rows[..n]) + (if last.station != UNNAMED && last.station == Newest(rows) then [last] else [])
  }

  /** The named stations in the order of their first rows. */
  function Named(rows: seq<Row>): seq<Station> {
    if rows == [] then []
    else
      var n := |rows| - 1;
      Named(rows[..n]) + (if FirstAt(rows, n) && rows[n].station != UNNAMED then [rows[n].station] else [])
  }

  function Labelled(station: Station, items: seq<Item>): seq<Row> {
    if items == [] then [] else Labelled(station, items[..|items| - 1]) + [Row(station, items[|items| - 1])]
  }

  /** The groups written out row by row again. */
  function Flatten(groups: seq<Group>): seq<Row> {
    if groups == [] then []
    else Flatten(groups[..|groups| - 1]) + Labelled(groups[|groups| - 1].station, groups[|groups| - 1].items)
  }

  function Names(groups: seq<Group>): seq<Station> {
    if groups == [] then [] else Names(groups[..|groups| - 1]) + [groups[|groups| - 1].station]
  }

  lemma FlattenMore(groups: seq<Group>, g: Group)
    ensures Flatten(groups + [g]) == Flatten(groups) + Labelled(g.station, g.items)
    ensures Names(groups + [g]) == Names(groups) + [g.station]
  {
  }

  lemma SeenMore(rows: seq<Row>, row: Row, station: Station)
    ensures Seen(rows + [row], station) <==> Seen(rows, station) || row.station == station
  {
    var all := rows + [row];
    if Seen(rows, station) {
      var i :| 0 <= i < |rows| && rows[i].station == station;
      assert all[i].station == station;
    }
    if row.station == station {
      assert all[|rows|].station == station;
    }
    if Seen(all, station) {
      var i :| 0 <= i < |all| && all[i].station == station;
      assert i < |rows| ==> rows[i].station == station;
    }
  }

  function SeenSet(rows: seq<Row>): set<Station> {
    if rows == [] then {} else SeenSet(rows[..|rows| - 1]) + {rows[|rows| - 1].station}
  }

  lemma {:induction false} SeenSetExact(rows: seq<Row>, station: Station)
    ensures station in SeenSet(rows) <==> Seen(rows, station)
  {
    if rows != [] {
      var front, last := rows[..|rows| - 1], rows[|rows| - 1];
      assert rows == front + [last];
      SeenSetExact(front, station);
      SeenMore(front, last, station);
    }
  }

  lemma OneMore(rows: seq<Row>, row: Row)
    ensures row.station in SeenSet(rows) <==> Seen(rows, row.station)
    ensures SeenSet(rows + [row]) == SeenSet(rows) + {row.station}
    ensures
      var first, all := !Seen(rows, row.station), rows + [row];
      && Newest(all) == (if first then row.station else Newest(rows))
      && Kept(all) == Kept(rows) + (if row.station != UNNAMED && row.station == Newest(all) then [row] else [])
      && Named(all) == Named(rows) + (if first && row.station != UNNAMED then [row.station] else [])
  {
    SeenSetExact(rows, row.station);
    assert (rows + [row])[..|rows|] == rows;
  }

  type Collected = map<Station, seq<Item>>

  /** What has been sent, and the current station's group if it has a name. */
  ghost function Pending(sent: seq<Group>, current: Station, stations: Collected): seq<Group>
    requires current != UNNAMED ==> current in stations
  {
    if current == UNNAMED then sent else sent + [Group(current, stations[current])]
  }

  ghost predicate Grouped(rows: seq<Row>, sent: seq<Group>, current: Station, stations: Collected) {
    && current == Newest(rows)
    && stations.Keys == SeenSet(rows)
    && (current != UNNAMED ==> current in stations && stations[current] != [])
    && (forall g <- sent :: g.items != [])
    && Kept(rows) == Flatten(Pending(sent, current, stations))
    && Named(rows) == Names(Pending(sent, current, stations))
  }

  lemma PendingMore(sent: seq<Group>, station: Station, items: seq<Item>, x: Item)
    ensures
      Flatten(sent + [Group(station, items + [x])]) == Flatten(sent + [Group(station, items)]) + [Row(station, x)]
    ensures Names(sent + [Group(station, items + [x])]) == Names(sent + [Group(station, items)])
  {
  }

  lemma GroupedOld(rows: seq<Row>, sent: seq<Group>, current: Station, stations: Collected, row: Row)
    requires Grouped(rows, sent, current, stations) && row.station in stations
    ensures Grouped(rows + [row], sent, current, stations[row.station := stations[row.station] + [row.item]])
  {
    var st, items := row.station, stations[row.station];
    var stations' := stations[st := items + [row.item]];
    OneMore(rows, row);
    hide Kept, Named, Seen, SeenSet, Newest, Flatten, Names;
    assert stations'.Keys == stations.Keys + {st};
    if st == current && st != UNNAMED {
      PendingMore(sent, st, items, row.item);
      assert Pending(sent, current, stations) == sent + [Group(st, items)];
      assert Pending(sent, current, stations') == sent + [Group(st, items + [row.item])];
      assert Row(st, row.item) == row;
    } else {
      assert Pending(sent, current, stations') == Pending(sent, current, stations);
    }
  }

  lemma GroupStarts(sent: seq<Group>, row: Row)
    ensures Flatten(sent + [Group(row.station, [row.item])]) == Flatten(sent) + [row]
    ensures Names(sent + [Group(row.station, [row.item])]) == Names(sent) + [row.station]
  {
    FlattenMore(sent, Group(row.station, [row.item]));
    assert Labelled(row.station, [row.item]) == [row];
  }

  lemma GroupedNew(rows: seq<Row>, sent: seq<Group>, current: Station, stations: Collected, row: Row)
    requires Grouped(rows, sent, current, stations) && row.station !in stations
    ensures
      var started := stations[row.station := []];
      Grouped(rows + [row], Pending(sent, current, stations), row.station,
              started[row.station := started[row.station] + [row.item]])
  {
    var st, all := row.station, Pending(sent, current, stations);
    var stations' := stations[st := []][st := stations[st := []][st] + [row.item]];
    assert stations'[st] == [row.item];
    OneMore(rows, row);
    GroupStarts(all, row);
    hide Kept, Named, Seen, SeenSet, Newest, Flatten, Names;
    assert stations'.Keys == stations.Keys + {st};
    assert st != UNNAMED ==> Pending(all, st, stations') == all + [Group(st, [row.item])];
    assert st == UNNAMED ==> Pending(all, st, stations') == all;
    assert forall g <- all :: g.items != [];
    hide Pending;
  }

  lemma GroupedCurrent(rows: seq<Row>, sent: seq<Group>, current: Station, stations: Collected)
    requires Grouped(rows, sent, current, stations)
    ensures current != UNNAMED ==> current in stations && stations[current] != []
    ensures
      Pending(sent, current, stations)
      == if current == UNNAMED then sent else sent + [Group(current, stations[current])]
    ensures
      var all := Pending(sent, current, stations);
      Flatten(all) == Kept(rows) && Names(all) == Named(rows) && forall g <- all :: g.items != []
  {
  }

  /** The loop body: one row. */
  method AddRow(row: Row, sent: seq<Group>, current: Station, stations: Collected, ghost rows: seq<Row>)
    returns (sent': seq<Group>, current': Station, stations': Collected)
    requires Grouped(rows, sent, current, stations)
    ensures Grouped(rows + [row], sent', current', stations')
  {
    GroupedCurrent(rows, sent, current, stations);
    hide Grouped, Pending, Kept, Flatten, Names, Named;
    sent', current', stations' := sent, current, stations;
    if row.station !in stations {
      GroupedNew(rows, sent, current, stations, row);
      if current != UNNAMED {
        sent' := sent + [Group(current, stations[current])];
      }
      current' := row.station;
      stations' := stations[row.station := []];
    } else {
      GroupedOld(rows, sent, current, stations, row);
    }
    stations' := stations'[row.station := stations'[row.station] + [row.item]];
  }

  /** convertLinedata; each appended group is one signal. */
  method ConvertLinedata(rows: seq<Row>) returns (sent: seq<Group>)
    ensures Flatten(sent) == Kept(rows)
    ensures Names(sent) == Named(rows)
    ensures forall g <- sent :: g.items != []
    ensures Flatten(sent) == rows <==> Orderly(rows)
  {
    sent := [];
    var stationMap: Collected := map[];
    var currentStation := UNNAMED;
    var i := 0;
    assert Grouped([], sent, currentStation, stationMap);
    hide Kept, Named, Seen, SeenSet, Newest, Flatten, Names, Grouped, Pending, Orderly;
    while i < |rows|
      invariant 0 <= i <= |rows|
      invariant Grouped(rows[..i], sent, currentStation, stationMap)
    {
      assert rows[..i + 1] == rows[..i] + [rows[i]];
      sent, currentStation, stationMap := AddRow(rows[i], sent, currentStation, stationMap, rows[..i]);
      i := i + 1;
    }
    assert rows[..i] == rows;
    GroupedCurrent(rows, sent, currentStation, stationMap);
    AllSentExactly(rows);
    if currentStation != UNNAMED && stationMap[currentStation] != [] {
      sent := sent + [Group(currentStation, stationMap[currentStation])];
    }
  }

  // ----- which rows are sent -----

  lemma {:induction false} NewestSeen(rows: seq<Row>)
    requires rows != []
    ensures Seen(rows, Newest(rows))
  {
    var n := |rows| - 1;
    if FirstAt(rows, n) {
      assert rows[n].station == Newest(rows);
    } else {
      assert rows[..n] != [];
      NewestSeen(rows[..n]);
      var i :| 0 <= i < n && rows[..n][i].station == Newest(rows[..n]);
      assert rows[i].station == Newest(rows);
    }
  }

  lemma SeenPrefix(rows: seq<Row>, m: nat, n: nat, station: Station)
    requires m <= n <= |rows|
    ensures Seen(rows[..m], station) ==> Seen(rows[..n], station)
  {
  }

  /** Row j starts a station that is new after `station` has appeared. */
  predicate Supersedes(rows: seq<Row>, j: nat, station: Station)
    requires j < |rows|
  {
    FirstAt(rows, j) && Seen(rows[..j], station)
  }

  /** A station seen is the newest one exactly when no other station first appeared after it. */
  lemma {:induction false} NewestExact(rows: seq<Row>, station: Station)
    requires Seen(rows, station)
    ensures Newest(rows) == station <==> forall j :: 0 <= j < |rows| ==> !Supersedes(rows, j, station)
  {
    var n := |rows| - 1;
    var front := rows[..n];
    assert forall j :: 0 <= j < n ==> front[..j] == rows[..j] && front[j] == rows[j];
    assert rows == front + [rows[n]];
    SeenMore(front, rows[n], station);
    if Seen(front, station) {
      NewestExact(front, station);
      assert forall j :: 0 <= j < n ==> Supersedes(front, j, station) == Supersedes(rows, j, station);
      if FirstAt(rows, n) {
        assert Supersedes(rows, n, station);
      } else {
        assert !Supersedes(rows, n, station);
      }
    } else {
      forall j | 0 <= j < |rows|
        ensures !Supersedes(rows, j, station)
      {
        SeenPrefix(rows, j, n, station);
      }
    }
  }

  /** Row i is sent. */
  predicate Sent(rows: seq<Row>, i: nat)
    requires i < |rows|
  {
    rows[i].station != UNNAMED && rows[i].station == Newest(rows[..i + 1])
  }

  /**
  The rows never sent are exactly those without a station and those arriving after their station was superseded, that
  is after its group went out.
  */
  lemma SentExactly(rows: seq<Row>, i: nat)
    requires i < |rows|
    ensures
      Sent(rows, i) <==>
      rows[i].station != UNNAMED && forall j :: 0 <= j < i ==> !Supersedes(rows, j, rows[i].station)
  {
    var upTo := rows[..i + 1];
    assert upTo[i] == rows[i];
    NewestExact(upTo, rows[i].station);
    assert forall j :: 0 <= j <= i ==> upTo[..j] == rows[..j] && upTo[j] == rows[j];
    assert forall j :: 0 <= j <= i ==> Supersedes(upTo, j, rows[i].station) == Supersedes(rows, j, rows[i].station);
    assert !Supersedes(rows, i, rows[i].station);
  }

  lemma KeptStep(front: seq<Row>, last: Row)
    ensures
      var rows := front + [last];
      Kept(rows) == rows <==> Kept(front) == front && Sent(rows, |front|)
  {
    OneMore(front, last);
    assert (front + [last])[..|front| + 1] == front + [last];
    assert |Kept(front)| <= |front|;
    hide Kept, Newest;
    if Kept(front + [last]) == front + [last] {
      assert (Kept(front) + [last])[..|Kept(front)|] == Kept(front);
      assert (front + [last])[..|front|] == front;
    }
  }

  lemma {:induction false} KeptAll(rows: seq<Row>)
    ensures Kept(rows) == rows <==> forall i :: 0 <= i < |rows| ==> Sent(rows, i)
  {
    if rows != [] {
      var n := |rows| - 1;
      var front := rows[..n];
      KeptAll(front);
      assert rows == front + [rows[n]];
      KeptStep(front, rows[n]);
      hide Kept, Newest;
      forall i | 0 <= i < n
        ensures Sent(front, i) == Sent(rows, i)
      {
        assert front[..i + 1] == rows[..i + 1];
      }
    }
  }

  /** Every station's rows stand together. */
  predicate Contiguous(rows: seq<Row>) {
    forall i, j, k :: 0 <= i < j < k < |rows| && rows[i].station == rows[k].station ==>
      rows[j].station == rows[i].station
  }

  /** Contiguous, and every row has a station. */
  predicate Orderly(rows: seq<Row>) { Contiguous(rows) && forall r: Row :: r in rows ==> r.station != UNNAMED }

  lemma FirstIndex(rows: seq<Row>, i: nat) returns (f: nat)
    requires i < |rows|
    ensures f <= i && rows[f].station == rows[i].station && FirstAt(rows, f)
    decreases i
  {
    f := i;
    if Seen(rows[..i], rows[i].station) {
      var k :| 0 <= k < i && rows[..i][k].station == rows[i].station;
      f := FirstIndex(rows, k);
    }
  }

  lemma SupersedesSplits(rows: seq<Row>, i: nat, j: nat)
    requires j < i < |rows|
    ensures Supersedes(rows, j, rows[i].station) ==> !Contiguous(rows)
  {
  }

  lemma ContiguousSent(rows: seq<Row>, i: nat)
    requires i < |rows| && Contiguous(rows) && rows[i].station != UNNAMED
    ensures Sent(rows, i)
  {
    forall j | 0 <= j < i
      ensures !Supersedes(rows, j, rows[i].station)
    {
      SupersedesSplits(rows, i, j);
    }
    SentExactly(rows, i);
  }

  lemma SplitNotSent(rows: seq<Row>, i: nat, j: nat, k: nat)
    requires i < j < k < |rows| && rows[i].station == rows[k].station != rows[j].station
    ensures exists m :: 0 <= m < |rows| && !Sent(rows, m)
  {
    var f := FirstIndex(rows, j);
    var g := FirstIndex(rows, i);
    if g < f {
      assert rows[..f][g].station == rows[k].station;
      assert Supersedes(rows, f, rows[k].station);
      SentExactly(rows, k);
    } else {
      assert rows[..g][f].station == rows[j].station;
      assert Supersedes(rows, g, rows[j].station);
      SentExactly(rows, j);
    }
  }

  /** Everything is sent, once and in order, exactly when every row has a station and stations are contiguous. */
  lemma AllSentExactly(rows: seq<Row>)
    ensures Kept(rows) == rows <==> Orderly(rows)
  {
    KeptAll(rows);
    if Contiguous(rows) && forall r: Row :: r in rows ==> r.station != UNNAMED {
      forall i | 0 <= i < |rows|
        ensures Sent(rows, i)
      {
        assert rows[i] in rows;
        ContiguousSent(rows, i);
      }
    } else if !Contiguous(rows) {
      var i, j, k :|
        0 <= i < j < k < |rows| && rows[i].station == rows[k].station && rows[j].station != rows[i].station;
      SplitNotSent(rows, i, j, k);
    }
  }

  /** No station is sent twice, and exactly the named stations are sent. */
  lemma {:induction false} NamedOnce(rows: seq<Row>)
    ensures forall i, j :: 0 <= i < j < |Named(rows)| ==> Named(rows)[i] != Named(rows)[j]
    ensures forall s :: s in Named(rows) <==> s != UNNAMED && Seen(rows, s)
  {
    if rows != [] {
      var n := |rows| - 1;
      NamedOnce(rows[..n]);
      assert rows == rows[..n] + [rows[n]];
      forall s: Station
        ensures Seen(rows, s) <==> Seen(rows[..n], s) || rows[n].station == s
      {
        SeenMore(rows[..n], rows[n], s);
      }
    }
  }
}
