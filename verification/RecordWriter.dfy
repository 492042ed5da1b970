/**
The double-buffered record writer: callers push records into concurrent queues and count them; the caller that
sees the count reach the maximum drains the queues into ready buffers, and asynchronous tasks write those to the
database.

Every access that other threads can see is one action; any number of callers and tasks interleave.
*/
module RecordWriter {
  import opened Common

  type Rec = nat

  datatype Kind = Normal | Over

  /**
  One of the two record kinds: its queue, its ready buffer, the tasks queued for it, and four histories: what was
  pushed; the batches that tasks took, numbered as they were taken; the numbers of those inserted, in the order the
  database got them; and what was overwritten. A batch taken and not yet inserted is in a task's hands.
  */
  datatype Lane = Lane(
    active: seq<Rec>, ready: seq<Rec>, tasks: nat, pushed: seq<Rec>, taken: seq<seq<Rec>>, inserted: seq<nat>,
    lost: seq<Rec>)

  datatype Caller =
    | Idle
    | Counting
    | Checking
    | Resetting
    | DrainNormal(n: seq<Rec>)
    | DrainOver(n: seq<Rec>, o: seq<Rec>)
    | Swapping(n: seq<Rec>, o: seq<Rec>)
    | TestNormal
    | TestOver
    | SpawnNormal
    | SpawnOver

  datatype State = State(max: nat, counter: nat, normal: Lane, over: Lane, callers: seq<Caller>)

  datatype Action =
    | Push(t: nat, k: Kind, r: Rec)
    | Count(t: nat)
    | Check(t: nat)
    | Reset(t: nat)
    | PopNormal(t: nat)
    | PopOver(t: nat)
    | Swap(t: nat)
    | Test(t: nat)
    | TestAgain(t: nat)
    | RunNormal(t: nat)
    | RunOver(t: nat)
    | Task(k: Kind)
    | Insert(k: Kind, id: nat)

  const EMPTY := Lane([], [], 0, [], [], [], [])

  function Init(callers: nat, max: nat): State {
    State(max, 0, EMPTY, EMPTY, seq(callers, _ => Idle))
  }

  predicate Enabled(s: State, a: Action) {
    match a
    case Task(k) => LaneOf(s, k).tasks > 0
    case Insert(k, id) => id < |LaneOf(s, k).taken| && id !in LaneOf(s, k).inserted
    case Push(t, _, _) => t < |s.callers| && s.callers[t].Idle?
    case Count(t) => t < |s.callers| && s.callers[t].Counting?
    case Check(t) => t < |s.callers| && s.callers[t].Checking?
    case Reset(t) => t < |s.callers| && s.callers[t].Resetting?
    case PopNormal(t) => t < |s.callers| && s.callers[t].DrainNormal?
    case PopOver(t) => t < |s.callers| && s.callers[t].DrainOver?
    case Swap(t) => t < |s.callers| && s.callers[t].Swapping?
    case Test(t) => t < |s.callers| && s.callers[t].TestNormal?
    case TestAgain(t) => t < |s.callers| && s.callers[t].TestOver?
    case RunNormal(t) => t < |s.callers| && s.callers[t].SpawnNormal?
    case RunOver(t) => t < |s.callers| && s.callers[t].SpawnOver?
  }

  function Pushed(l: Lane, r: Rec): Lane { l.(active := l.active + [r], pushed := l.pushed + [r]) }

  /** The swap under the lock: what was still ready goes away with the local batch. */
  function Swapped(l: Lane, batch: seq<Rec>): Lane { l.(ready := batch, lost := l.lost + l.ready) }

  function Spawned(l: Lane): Lane { if l.ready != [] then l.(tasks := l.tasks + 1) else l }

  /** A task takes the ready buffer under the lock. */
  function Taken(l: Lane): Lane
    requires l.tasks > 0
  {
    l.(ready := [], taken := l.taken + [l.ready], tasks := l.tasks - 1)
  }

  /** A task inserts its batch, after the lock is released. */
  function Inserted(l: Lane, id: nat): Lane { l.(inserted := l.inserted + [id]) }

  function LaneOf(s: State, k: Kind): Lane { if k.Normal? then s.normal else s.over }

  function WithLane(s: State, k: Kind, l: Lane): State { if k.Normal? then s.(normal := l) else s.(over := l) }

  /** Neither taking nor inserting: a step of caller a.t. */
  predicate ByCaller(a: Action) { !a.Task? && !a.Insert? }

  function Go(s: State, t: nat, c: Caller): State
    requires t < |s.callers|
  {
    s.(callers := s.callers[t := c])
  }

  function Next(s: State, a: Action): State
    requires Enabled(s, a)
  {
    match a
    case Push(t, k, r) =>
      var s1 := Go(s, t, Counting);
      if k.Normal? then s1.(normal := Pushed(s.normal, r)) else s1.(over := Pushed(s.over, r))
    case Count(t) => Go(s, t, Checking).(counter := s.counter + 1)
    case Check(t) => Go(s, t, if s.counter < s.max then Idle else Resetting)
    case Reset(t) => Go(s, t, DrainNormal([])).(counter := 0)
    case PopNormal(t) =>
      var c := s.callers[t];
      if s.normal.active == [] then Go(s, t, DrainOver(c.n, []))
      else Go(s, t, DrainNormal(c.n + [s.normal.active[0]])).(normal := s.normal.(active := s.normal.active[1..]))
    case PopOver(t) =>
      var c := s.callers[t];
      if s.over.active == [] then Go(s, t, Swapping(c.n, c.o))
      else Go(s, t, DrainOver(c.n, c.o + [s.over.active[0]])).(over := s.over.(active := s.over.active[1..]))
    case Swap(t) =>
      var c := s.callers[t];
      Go(s, t, TestNormal).(normal := Swapped(s.normal, c.n), over := Swapped(s.over, c.o))
    case Test(t) => Go(s, t, if s.normal.ready != [] then SpawnNormal else TestOver)
    case TestAgain(t) => Go(s, t, if s.over.ready != [] then SpawnNormal else Idle)
    case RunNormal(t) => Go(s, t, SpawnOver).(normal := Spawned(s.normal))
    case RunOver(t) => Go(s, t, Idle).(over := Spawned(s.over))
    case Task(k) => WithLane(s, k, Taken(LaneOf(s, k)))
    case Insert(k, id) => WithLane(s, k, Inserted(LaneOf(s, k), id))
  }

  function Exec(callers: nat, max: nat, run: seq<Action>): Option<State> {
    if run == [] then Some(Init(callers, max))
    else
      var n := |run| - 1;
      match Exec(callers, max, run[..n])
      case None => None
      case Some(s) => if Enabled(s, run[n]) then Some(Next(s, run[n])) else None
  }

  // ----- conservation, with any number of callers -----

  function Batch(c: Caller, k: Kind): seq<Rec> {
    match c
    case DrainNormal(n) => if k.Normal? then n else []
    case DrainOver(n, o) => if k.Normal? then n else o
    case Swapping(n, o) => if k.Normal? then n else o
    case _ => []
  }

  function Copies(q: seq<Rec>, r: Rec): nat { multiset(q)[r] }

  /** How many copies of r the callers hold in batches they are filling. */
  function InHand(cs: seq<Caller>, k: Kind, r: Rec): nat {
    if cs == [] then 0 else Copies(Batch(cs[0], k), r) + InHand(cs[1..], k, r)
  }

  /** Copies of r in the batches taken so far. */
  function InTaken(taken: seq<seq<Rec>>, r: Rec): nat {
    if taken == [] then 0 else InTaken(taken[..|taken| - 1], r) + Copies(taken[|taken| - 1], r)
  }

  lemma TookMore(taken: seq<seq<Rec>>, batch: seq<Rec>, r: Rec)
    ensures InTaken(taken + [batch], r) == InTaken(taken, r) + Copies(batch, r)
  {
    assert (taken + [batch])[..|taken|] == taken;
  }

  predicate Conserved(l: Lane, held: nat, r: Rec) {
    Copies(l.pushed, r)
    == Copies(l.active, r) + held + Copies(l.ready, r) + InTaken(l.taken, r) + Copies(l.lost, r)
  }

  lemma {:induction false} InHandUpdate(cs: seq<Caller>, t: nat, c: Caller, k: Kind, r: Rec)
    requires t < |cs|
    ensures InHand(cs[t := c], k, r) + Copies(Batch(cs[t], k), r) == InHand(cs, k, r) + Copies(Batch(c, k), r)
  {
    hide Batch, Copies;
    var cs' := cs[t := c];
    if t == 0 {
      assert cs'[1..] == cs[1..];
    } else {
      assert cs'[1..] == cs[1..][t - 1 := c];
      InHandUpdate(cs[1..], t - 1, c, k, r);
      assert cs'[0] == cs[0] && cs[1..][t - 1] == cs[t];
    }
  }

  lemma TakeHead(q: seq<Rec>, b: seq<Rec>, r: Rec)
    requires q != []
    ensures Copies(b + [q[0]], r) + Copies(q[1..], r) == Copies(b, r) + Copies(q, r)
  {
    assert q == [q[0]] + q[1..];
  }

  /** One caller's step: what its lane and its batch hold together changes only by what was pushed. */
  ghost predicate Balanced(l: Lane, b: seq<Rec>, l': Lane, b': seq<Rec>, r: Rec) {
    Copies(l'.active, r) + Copies(b', r) + Copies(l'.ready, r) + InTaken(l'.taken, r) + Copies(l'.lost, r)
    + Copies(l.pushed, r)
    == Copies(l.active, r) + Copies(b, r) + Copies(l.ready, r) + InTaken(l.taken, r) + Copies(l.lost, r)
       + Copies(l'.pushed, r)
  }

  lemma LanePopBalanced(l: Lane, b: seq<Rec>, r: Rec)
    requires l.active != []
    ensures Balanced(l, b, l.(active := l.active[1..]), b + [l.active[0]], r)
  {
    TakeHead(l.active, b, r);
    hide Copies;
  }

  lemma SameBalanced(l: Lane, b: seq<Rec>, r: Rec)
    ensures Balanced(l, b, l, b, r)
  {
  }

  lemma PopNormalShape(s: State, a: Action)
    requires Enabled(s, a) && a.PopNormal?
    ensures
      var s', c, q := Next(s, a), s.callers[a.t], s.normal.active;
      && s'.over == s.over
      && |s'.callers| == |s.callers|
      && (q == [] ==> s'.normal == s.normal && s'.callers[a.t] == DrainOver(c.n, []))
      && (q != [] ==>
            s'.normal == s.normal.(active := q[1..]) && s'.callers[a.t] == DrainNormal(c.n + [s.normal.active[0]]))
  {
  }

  lemma PopNormalBalanced(s: State, a: Action, k: Kind, r: Rec)
    requires Enabled(s, a) && a.PopNormal?
    ensures
      var s' := Next(s, a);
      |s'.callers| == |s.callers|
      && Balanced(LaneOf(s, k), Batch(s.callers[a.t], k), LaneOf(s', k), Batch(s'.callers[a.t], k), r)
  {
    PopNormalShape(s, a);
    hide Copies, Next, Balanced;
    SameBalanced(LaneOf(s, k), Batch(s.callers[a.t], k), r);
    if s.normal.active != [] {
      LanePopBalanced(s.normal, s.callers[a.t].n, r);
    }
  }

  lemma PopOverShape(s: State, a: Action)
    requires Enabled(s, a) && a.PopOver?
    ensures
      var s', c, q := Next(s, a), s.callers[a.t], s.over.active;
      && s'.normal == s.normal
      && |s'.callers| == |s.callers|
      && (q == [] ==> s'.over == s.over && s'.callers[a.t] == Swapping(c.n, c.o))
      && (q != [] ==>
            s'.over == s.over.(active := q[1..]) && s'.callers[a.t] == DrainOver(c.n, c.o + [s.over.active[0]]))
  {
  }

  lemma PopOverBalanced(s: State, a: Action, k: Kind, r: Rec)
    requires Enabled(s, a) && a.PopOver?
    ensures
      var s' := Next(s, a);
      |s'.callers| == |s.callers|
      && Balanced(LaneOf(s, k), Batch(s.callers[a.t], k), LaneOf(s', k), Batch(s'.callers[a.t], k), r)
  {
    PopOverShape(s, a);
    hide Copies, Next, Balanced;
    SameBalanced(LaneOf(s, k), Batch(s.callers[a.t], k), r);
    if s.over.active != [] {
      LanePopBalanced(s.over, s.callers[a.t].o, r);
    }
  }

  lemma PushBalanced(s: State, a: Action, k: Kind, r: Rec)
    requires Enabled(s, a) && a.Push?
    ensures
      var s' := Next(s, a);
      Balanced(LaneOf(s, k), Batch(s.callers[a.t], k), LaneOf(s', k), Batch(s'.callers[a.t], k), r)
  {
  }

  lemma SwapBalanced(s: State, a: Action, k: Kind, r: Rec)
    requires Enabled(s, a) && a.Swap?
    ensures
      var s' := Next(s, a);
      Balanced(LaneOf(s, k), Batch(s.callers[a.t], k), LaneOf(s', k), Batch(s'.callers[a.t], k), r)
  {
  }

  lemma OtherBalanced(s: State, a: Action, k: Kind, r: Rec)
    requires Enabled(s, a) && ByCaller(a) && !a.Push? && !a.PopNormal? && !a.PopOver? && !a.Swap?
    ensures
      var s' := Next(s, a);
      Balanced(LaneOf(s, k), Batch(s.callers[a.t], k), LaneOf(s', k), Batch(s'.callers[a.t], k), r)
  {
    hide Copies;
  }

  lemma TaskConserved(s: State, a: Action, k: Kind, r: Rec)
    requires Enabled(s, a) && !ByCaller(a) && Conserved(LaneOf(s, k), InHand(s.callers, k, r), r)
    ensures Conserved(LaneOf(Next(s, a), k), InHand(Next(s, a).callers, k, r), r)
  {
    TookMore(LaneOf(s, k).taken, LaneOf(s, k).ready, r);
    assert Copies([], r) == 0;
    hide Copies, InHand, InTaken;
  }

  lemma OnlyOwnStep(s: State, a: Action)
    requires Enabled(s, a) && ByCaller(a)
    ensures |Next(s, a).callers| == |s.callers|
    ensures Next(s, a).callers == s.callers[a.t := Next(s, a).callers[a.t]]
  {
  }

  lemma ConservedStep(s: State, a: Action, k: Kind, r: Rec)
    requires Enabled(s, a) && Conserved(LaneOf(s, k), InHand(s.callers, k, r), r)
    ensures Conserved(LaneOf(Next(s, a), k), InHand(Next(s, a).callers, k, r), r)
  {
    if !ByCaller(a) {
      TaskConserved(s, a, k, r);
    } else {
      OnlyOwnStep(s, a);
      InHandUpdate(s.callers, a.t, Next(s, a).callers[a.t], k, r);
      if a.Push? {
        PushBalanced(s, a, k, r);
      } else if a.PopNormal? {
        PopNormalBalanced(s, a, k, r);
      } else if a.PopOver? {
        PopOverBalanced(s, a, k, r);
      } else if a.Swap? {
        SwapBalanced(s, a, k, r);
      } else {
        OtherBalanced(s, a, k, r);
      }
      hide Next, Copies, InHand, Batch;
    }
  }

  lemma {:induction false} NoneInHand(n: nat, k: Kind, r: Rec)
    ensures InHand(seq(n, _ => Idle), k, r) == 0
  {
    if n > 0 {
      assert seq(n, _ => Idle)[1..] == seq(n - 1, _ => Idle);
      NoneInHand(n - 1, k, r);
    }
  }

  lemma {:induction false} ConservedAlways(callers: nat, max: nat, run: seq<Action>, k: Kind, r: Rec)
    requires Exec(callers, max, run).Some?
    ensures
      var s := Exec(callers, max, run).value;
      Conserved(LaneOf(s, k), InHand(s.callers, k, r), r)
  {
    if run == [] {
      NoneInHand(callers, k, r);
    } else {
      var n := |run| - 1;
      ConservedAlways(callers, max, run[..n], k, r);
      ConservedStep(Exec(callers, max, run[..n]).value, run[n], k, r);
    }
  }

  /** The table: the batches inserted so far, in that order. */
  function Table(taken: seq<seq<Rec>>, inserted: seq<nat>): seq<Rec> {
    if inserted == [] then []
    else
      var id := inserted[|inserted| - 1];
      Table(taken, inserted[..|inserted| - 1]) + (if id < |taken| then taken[id] else [])
  }

  function Written(l: Lane): seq<Rec> { Table(l.taken, l.inserted) }

  /** Copies of r in batches that tasks have taken and not inserted. */
  function WithTasks(taken: seq<seq<Rec>>, inserted: seq<nat>, r: Rec): nat {
    if taken == [] then 0
    else
      var n := |taken| - 1;
      WithTasks(taken[..n], inserted, r) + (if n in inserted then 0 else Copies(taken[n], r))
  }

  /** Each batch is inserted at most once, after it was taken. */
  ghost predicate InsertsOk(l: Lane) {
    && (forall i :: 0 <= i < |l.inserted| ==> l.inserted[i] < |l.taken|)
    && (forall i, j :: 0 <= i < j < |l.inserted| ==> l.inserted[i] != l.inserted[j])
  }

  lemma InsertsStep(s: State, a: Action, k: Kind)
    requires Enabled(s, a) && InsertsOk(LaneOf(s, k))
    ensures InsertsOk(LaneOf(Next(s, a), k))
  {
  }

  lemma {:induction false} InsertsAlways(callers: nat, max: nat, run: seq<Action>, k: Kind)
    requires Exec(callers, max, run).Some?
    ensures InsertsOk(LaneOf(Exec(callers, max, run).value, k))
  {
    if run != [] {
      var n := |run| - 1;
      InsertsAlways(callers, max, run[..n], k);
      InsertsStep(Exec(callers, max, run[..n]).value, run[n], k);
    }
  }

  lemma {:induction false} OneMoreInserted(taken: seq<seq<Rec>>, inserted: seq<nat>, id: nat, r: Rec)
    requires id !in inserted
    ensures
      WithTasks(taken, inserted, r)
      == WithTasks(taken, inserted + [id], r) + (if id < |taken| then Copies(taken[id], r) else 0)
  {
    hide Copies;
    if taken != [] {
      OneMoreInserted(taken[..|taken| - 1], inserted, id, r);
    }
  }

  lemma {:induction false} NoneInserted(taken: seq<seq<Rec>>, r: Rec)
    ensures WithTasks(taken, [], r) == InTaken(taken, r)
  {
    hide Copies;
    if taken != [] {
      NoneInserted(taken[..|taken| - 1], r);
    }
  }

  lemma CopiesJoin(p: seq<Rec>, q: seq<Rec>, r: Rec)
    ensures Copies(p + q, r) == Copies(p, r) + Copies(q, r)
  {
  }

  /** What was taken is in the table or with a task. */
  lemma {:induction false} TakenSplit(taken: seq<seq<Rec>>, inserted: seq<nat>, r: Rec)
    requires forall i, j :: 0 <= i < j < |inserted| ==> inserted[i] != inserted[j]
    ensures InTaken(taken, r) == Copies(Table(taken, inserted), r) + WithTasks(taken, inserted, r)
  {
    if inserted == [] {
      NoneInserted(taken, r);
    } else {
      var front, id := inserted[..|inserted| - 1], inserted[|inserted| - 1];
      assert inserted == front + [id];
      TakenSplit(taken, front, r);
      OneMoreInserted(taken, front, id, r);
      CopiesJoin(Table(taken, front), if id < |taken| then taken[id] else [], r);
    }
  }

  /**
  Over every interleaving no record is duplicated or dropped silently: each copy pushed is in exactly one of the queue,
  a caller's batch, the ready buffer, a task's batch, the table, or what was overwritten.
  */
  lemma RecordsConserved(callers: nat, max: nat, run: seq<Action>, k: Kind, r: Rec)
    requires Exec(callers, max, run).Some?
    ensures
      var s, l := Exec(callers, max, run).value, LaneOf(Exec(callers, max, run).value, k);
      Copies(l.pushed, r)
      == Copies(l.active, r) + InHand(s.callers, k, r) + Copies(l.ready, r) + WithTasks(l.taken, l.inserted, r)
         + Copies(Written(l), r) + Copies(l.lost, r)
  {
    ConservedAlways(callers, max, run, k, r);
    InsertsAlways(callers, max, run, k);
    var l := LaneOf(Exec(callers, max, run).value, k);
    TakenSplit(l.taken, l.inserted, r);
  }

  /** The records of a kind in the order of the run's pushes. */
  function PushesOf(run: seq<Action>, k: Kind): seq<Rec> {
    if run == [] then []
    else
      var a := run[|run| - 1];
      PushesOf(run[..|run| - 1], k) + (if a.Push? && a.k == k then [a.r] else [])
  }

  /** Every record goes to the queue of its kind, so all that is said of a kind's pushes is said of these. */
  lemma {:induction false} PushesRead(callers: nat, max: nat, run: seq<Action>, k: Kind)
    requires Exec(callers, max, run).Some?
    ensures LaneOf(Exec(callers, max, run).value, k).pushed == PushesOf(run, k)
  {
    if run != [] {
      PushesRead(callers, max, run[..|run| - 1], k);
    }
  }

  // ----- what a swap can overwrite -----

  /** Action i is a swap that brings records of the kind. */
  ghost predicate Fills(callers: nat, max: nat, run: seq<Action>, i: nat, k: Kind)
    requires i < |run|
  {
    && run[i].Swap? && Exec(callers, max, run[..i]).Some?
    && var s := Exec(callers, max, run[..i]).value;
       run[i].t < |s.callers| && Batch(s.callers[run[i].t], k) != []
  }

  /** No swap and no task of the kind between actions i and j. */
  predicate NoneBetween(run: seq<Action>, i: nat, j: nat, k: Kind)
    requires j <= |run|
  {
    forall m :: i < m < j ==> !run[m].Swap? && run[m] != Task(k)
  }

  /** The last swap brought records of the kind and no task has taken them since. */
  ghost predicate Waiting(callers: nat, max: nat, run: seq<Action>, k: Kind) {
    exists i: nat :: i < |run| && Fills(callers, max, run, i, k) && NoneBetween(run, i, |run|, k)
  }

  /** A swap that brings records of the kind is followed by another one before any task of the kind runs. */
  ghost predicate Overrun(callers: nat, max: nat, run: seq<Action>, k: Kind) {
    exists i: nat, j: nat ::
      i < j < |run| && Fills(callers, max, run, i, k) && run[j].Swap? && NoneBetween(run, i, j, k)
  }

  lemma FillsFront(callers: nat, max: nat, run: seq<Action>, last: Action, i: nat, k: Kind)
    requires i < |run|
    ensures Fills(callers, max, run + [last], i, k) == Fills(callers, max, run, i, k)
    ensures forall j: nat :: j <= |run| ==> NoneBetween(run + [last], i, j, k) == NoneBetween(run, i, j, k)
    ensures
      NoneBetween(run + [last], i, |run| + 1, k) <==>
      NoneBetween(run, i, |run|, k) && !last.Swap? && last != Task(k)
  {
    assert (run + [last])[..i] == run[..i];
    hide Exec, Fills;
    assert forall m :: 0 <= m < |run| ==> (run + [last])[m] == run[m];
    assert (run + [last])[|run|] == last;
  }

  lemma WaitingStep(callers: nat, max: nat, run: seq<Action>, a: Action, k: Kind)
    requires Exec(callers, max, run).Some? && Enabled(Exec(callers, max, run).value, a)
    ensures
      Waiting(callers, max, run + [a], k) <==>
      if a.Swap? then Batch(Exec(callers, max, run).value.callers[a.t], k) != []
      else a != Task(k) && Waiting(callers, max, run, k)
  {
    var all, n := run + [a], |run|;
    assert all[..n] == run;
    assert Fills(callers, max, all, n, k) <==>
      a.Swap? && Batch(Exec(callers, max, run).value.callers[a.t], k) != [];
    assert NoneBetween(all, n, n + 1, k);
    hide Exec, Fills, NoneBetween;
    forall i: nat | i < n
      ensures Fills(callers, max, all, i, k) == Fills(callers, max, run, i, k)
      ensures NoneBetween(all, i, n + 1, k) <==> NoneBetween(run, i, n, k) && !a.Swap? && a != Task(k)
    {
      FillsFront(callers, max, run, a, i, k);
    }
  }

  lemma OverrunStep(callers: nat, max: nat, run: seq<Action>, a: Action, k: Kind)
    ensures
      Overrun(callers, max, run + [a], k) <==>
      Overrun(callers, max, run, k) || (a.Swap? && Waiting(callers, max, run, k))
  {
    var all, n := run + [a], |run|;
    hide Exec, Fills, NoneBetween;
    forall i: nat | i < n
      ensures Fills(callers, max, all, i, k) == Fills(callers, max, run, i, k)
      ensures forall j: nat :: j <= n ==> NoneBetween(all, i, j, k) == NoneBetween(run, i, j, k)
    {
      FillsFront(callers, max, run, a, i, k);
    }
    assert all[n] == a && forall j :: 0 <= j < n ==> all[j] == run[j];
    if Overrun(callers, max, all, k) {
      var i: nat, j: nat :|
        i < j < |all| && Fills(callers, max, all, i, k) && all[j].Swap? && NoneBetween(all, i, j, k);
      assert i < n;
    }
  }

  lemma LaneStep(s: State, a: Action, k: Kind)
    requires Enabled(s, a)
    ensures
      var l, l' := LaneOf(s, k), LaneOf(Next(s, a), k);
      && (l'.ready != [] <==> if a.Swap? then Batch(s.callers[a.t], k) != [] else a != Task(k) && l.ready != [])
      && (l'.lost != [] <==> l.lost != [] || (a.Swap? && l.ready != []))
  {
  }

  /**
  Records of a kind are overwritten exactly when some swap that brings records of the kind is followed by another swap
  before a task of the kind runs; and a ready buffer is non-empty exactly when that can still happen.
  */
  lemma {:induction false} LostExactly(callers: nat, max: nat, run: seq<Action>, k: Kind)
    requires Exec(callers, max, run).Some?
    ensures
      var l := LaneOf(Exec(callers, max, run).value, k);
      (l.ready != [] <==> Waiting(callers, max, run, k)) && (l.lost != [] <==> Overrun(callers, max, run, k))
  {
    if run != [] {
      var n := |run| - 1;
      LostExactly(callers, max, run[..n], k);
      LaneStep(Exec(callers, max, run[..n]).value, run[n], k);
      WaitingStep(callers, max, run[..n], run[n], k);
      OverrunStep(callers, max, run[..n], run[n], k);
      assert run[..n] + [run[n]] == run;
      hide Waiting, Overrun, Next;
    }
  }

  // ----- nothing is stranded in a ready buffer -----

  predicate WillSpawn(c: Caller, k: Kind) {
    c.TestNormal? || c.SpawnNormal? || (k.Over? && (c.TestOver? || c.SpawnOver?))
  }

  ghost predicate Attended(s: State, k: Kind) {
    LaneOf(s, k).ready != [] && LaneOf(s, k).tasks == 0 ==>
      exists t :: 0 <= t < |s.callers| && WillSpawn(s.callers[t], k)
  }

  lemma AttendedStep(s: State, a: Action, k: Kind)
    requires Enabled(s, a) && Attended(s, k)
    ensures Attended(Next(s, a), k)
  {
    var s' := Next(s, a);
    if LaneOf(s', k).ready != [] && LaneOf(s', k).tasks == 0 {
      if a.Swap? {
        assert WillSpawn(s'.callers[a.t], k);
      } else {
        var t :| 0 <= t < |s.callers| && WillSpawn(s.callers[t], k);
        assert WillSpawn(s'.callers[t], k);
      }
    }
  }

  /** In every reachable state a non-empty ready buffer has a task queued for it or a caller about to queue one. */
  lemma {:induction false} NothingStranded(callers: nat, max: nat, run: seq<Action>, k: Kind)
    requires Exec(callers, max, run).Some?
    ensures Attended(Exec(callers, max, run).value, k)
  {
    if run != [] {
      var n := |run| - 1;
      NothingStranded(callers, max, run[..n], k);
      AttendedStep(Exec(callers, max, run[..n]).value, run[n], k);
    }
  }

  // ----- the bound, with any number of callers -----

  function Uncounted(cs: seq<Caller>): nat {
    if cs == [] then 0 else (if cs[0].Counting? then 1 else 0) + Uncounted(cs[1..])
  }

  lemma {:induction false} UncountedUpdate(cs: seq<Caller>, t: nat, c: Caller)
    requires t < |cs|
    ensures
      Uncounted(cs[t := c]) + (if cs[t].Counting? then 1 else 0) == Uncounted(cs) + (if c.Counting? then 1 else 0)
  {
    var cs' := cs[t := c];
    if t == 0 {
      assert cs'[1..] == cs[1..];
    } else {
      assert cs'[1..] == cs[1..][t - 1 := c];
      UncountedUpdate(cs[1..], t - 1, c);
      assert cs'[0] == cs[0] && cs[1..][t - 1] == cs[t];
    }
  }

  predicate WillDrainNormal(c: Caller) { c.Resetting? || c.DrainNormal? }

  predicate WillDrain(c: Caller) { WillDrainNormal(c) || c.DrainOver? }

  predicate WillCheck(c: Caller) { c.Checking? || c.Resetting? }

  ghost predicate Bounded(s: State) {
    && ((forall t :: 0 <= t < |s.callers| ==> !WillDrainNormal(s.callers[t])) ==>
          |s.normal.active| <= s.counter + Uncounted(s.callers))
    && ((forall t :: 0 <= t < |s.callers| ==> !WillDrain(s.callers[t])) ==>
          |s.normal.active| + |s.over.active| <= s.counter + Uncounted(s.callers))
    && (s.counter >= s.max > 0 ==> exists t :: 0 <= t < |s.callers| && WillCheck(s.callers[t]))
  }

  lemma CheckKept(s: State, a: Action)
    requires Enabled(s, a) && Bounded(s)
    ensures
      var s' := Next(s, a);
      s'.counter >= s'.max > 0 ==> exists t :: 0 <= t < |s'.callers| && WillCheck(s'.callers[t])
  {
    var s' := Next(s, a);
    if s'.counter >= s'.max > 0 {
      if a.Count? {
        assert WillCheck(s'.callers[a.t]);
      } else {
        var t :| 0 <= t < |s.callers| && WillCheck(s.callers[t]);
        assert WillCheck(s'.callers[t]);
      }
    }
  }

  function Uncounts(c: Caller): nat { if c.Counting? then 1 else 0 }

  /** A caller's step on queues and counter: a push is uncounted until it is counted, a drain ends on an empty queue. */
  lemma CallerEffect(s: State, a: Action)
    requires Enabled(s, a) && ByCaller(a)
    ensures
      var s' := Next(s, a);
      var c, c' := s.callers[a.t], s'.callers[a.t];
      var n, n', o, o' := |s.normal.active|, |s'.normal.active|, |s.over.active|, |s'.over.active|;
      && (WillDrainNormal(c) && !WillDrainNormal(c') ==> n' == 0)
      && (WillDrain(c) && !WillDrain(c') ==> o' == 0)
      && (!WillDrainNormal(c') && n' > 0 ==> n' - n <= s'.counter - s.counter + Uncounts(c') - Uncounts(c))
      && (!WillDrain(c') && !WillDrain(c) ==> n' + o' - n - o <= s'.counter - s.counter + Uncounts(c') - Uncounts(c))
      && (!WillDrain(c') && WillDrain(c) ==> n' == n && s'.counter == s.counter && Uncounts(c') == Uncounts(c))
  {
  }

  lemma TaskEffect(s: State, a: Action)
    requires Enabled(s, a) && !ByCaller(a)
    ensures
      var s' := Next(s, a);
      && s'.callers == s.callers && s'.counter == s.counter
      && s'.normal.active == s.normal.active && s'.over.active == s.over.active
  {
  }

  lemma BoundedStep(s: State, a: Action)
    requires Enabled(s, a) && Bounded(s)
    ensures Bounded(Next(s, a))
  {
    var s' := Next(s, a);
    CheckKept(s, a);
    if ByCaller(a) {
      CallerEffect(s, a);
      OnlyOwnStep(s, a);
      UncountedUpdate(s.callers, a.t, s'.callers[a.t]);
      hide Uncounted, Next, WillCheck;
      assert forall t :: 0 <= t < |s.callers| && t != a.t ==> s'.callers[t] == s.callers[t];
      assert !WillDrain(s'.callers[a.t]) ==> !WillDrainNormal(s'.callers[a.t]);
      assert !WillDrain(s.callers[a.t]) ==> !WillDrainNormal(s.callers[a.t]);
      hide WillDrain, WillDrainNormal;
    } else {
      TaskEffect(s, a);
      hide Next, Uncounted;
    }
  }

  lemma {:induction false} NoneUncounted(cs: seq<Caller>)
    requires forall t :: 0 <= t < |cs| ==> cs[t].Idle?
    ensures Uncounted(cs) == 0
  {
    if cs != [] {
      NoneUncounted(cs[1..]);
    }
  }

  lemma {:induction false} BoundedAlways(callers: nat, max: nat, run: seq<Action>)
    requires Exec(callers, max, run).Some?
    ensures Bounded(Exec(callers, max, run).value) && Exec(callers, max, run).value.max == max
  {
    if run != [] {
      var n := |run| - 1;
      BoundedAlways(callers, max, run[..n]);
      BoundedStep(Exec(callers, max, run[..n]).value, run[n]);
    }
  }

  /**
  Whatever the interleaving was, once every caller has returned the queues hold fewer records than the maximum.
  */
  lemma FewAtRest(callers: nat, max: nat, run: seq<Action>)
    requires Exec(callers, max, run).Some? && max > 0
    requires forall c :: c in Exec(callers, max, run).value.callers ==> c.Idle?
    ensures
      var s := Exec(callers, max, run).value;
      |s.normal.active| + |s.over.active| <= s.counter < max
  {
    var s := Exec(callers, max, run).value;
    BoundedAlways(callers, max, run);
    hide Exec;
    assert forall t :: 0 <= t < |s.callers| ==> s.callers[t] in s.callers;
    NoneUncounted(s.callers);
  }

  /** Running on from s. */
  function After(s: State, run: seq<Action>): Option<State>
    decreases |run|
  {
    if run == [] then Some(s) else if Enabled(s, run[0]) then After(Next(s, run[0]), run[1..]) else None
  }

  lemma {:induction false} ExecAfter(callers: nat, max: nat, first: seq<Action>, run: seq<Action>)
    requires Exec(callers, max, first).Some? && After(Exec(callers, max, first).value, run).Some?
    ensures Exec(callers, max, first + run) == After(Exec(callers, max, first).value, run)
    decreases |run|
  {
    hide Next, Enabled;
    if run == [] {
      assert first + run == first;
    } else {
      var more := first + [run[0]];
      assert more[..|first|] == first;
      ExecAfter(callers, max, more, run[1..]);
      assert more + run[1..] == first + run;
    }
  }

  lemma OneMore(callers: nat, max: nat, run: seq<Action>, s: State, a: Action) returns (longer: seq<Action>, s': State)
    requires Exec(callers, max, run) == Some(s) && Enabled(s, a)
    ensures Exec(callers, max, longer) == Some(s') && s' == Next(s, a)
  {
    longer, s' := run + [a], Next(s, a);
    assert longer[..|run|] == run;
  }

  /** With two callers the counter can exceed what the queues hold: a push drained before it is counted. */
  lemma CounterOverstates()
    ensures
      exists run ::
        && Exec(2, 1, run).Some?
        && var s := Exec(2, 1, run).value;
           s.counter == 1 && s.normal.active == [] && s.over.active == []
  {
    var run, s := [], Init(2, 1);
    assert Exec(2, 1, run) == Some(s);
    hide Exec;
    run, s := OneMore(2, 1, run, s, Push(0, Normal, 7));
    run, s := OneMore(2, 1, run, s, Count(0));
    run, s := OneMore(2, 1, run, s, Check(0));
    run, s := OneMore(2, 1, run, s, Reset(0));
    run, s := OneMore(2, 1, run, s, Push(1, Normal, 8));
    run, s := OneMore(2, 1, run, s, PopNormal(0));
    run, s := OneMore(2, 1, run, s, PopNormal(0));
    run, s := OneMore(2, 1, run, s, Count(1));
  }

  // ----- one caller -----

  predicate OneCaller(s: State) {
    && |s.callers| == 1
    && var held := |s.normal.active| + |s.over.active|;
       match s.callers[0]
       case Idle => s.counter == held && (s.max > 0 ==> s.counter < s.max)
       case Counting => s.counter + 1 == held
       case Checking => s.counter == held
       case Resetting => s.counter == held && s.counter >= s.max
       case DrainNormal(_) => s.counter == 0
       case DrainOver(_, _) => s.counter == 0 && s.normal.active == []
       case _ => s.counter == 0 == held
  }

  function Flat(taken: seq<seq<Rec>>): seq<Rec> {
    if taken == [] then [] else Flat(taken[..|taken| - 1]) + taken[|taken| - 1]
  }

  lemma FlatMore(taken: seq<seq<Rec>>, batch: seq<Rec>)
    ensures Flat(taken + [batch]) == Flat(taken) + batch
  {
    assert (taken + [batch])[..|taken|] == taken;
  }

  predicate Queued(l: Lane, b: seq<Rec>) { l.lost == [] ==> l.pushed == Flat(l.taken) + l.ready + b + l.active }

  /** Nothing has been overwritten, so the lane's records are still in the order of their pushes. */
  predicate InOrder(s: State, k: Kind) {
    && |s.callers| == 1
    && Queued(LaneOf(s, k), Batch(s.callers[0], k))
  }

  lemma OneCallerStep(s: State, a: Action)
    requires Enabled(s, a) && OneCaller(s)
    ensures OneCaller(Next(s, a))
  {
  }

  lemma QueuedMoves(l: Lane, b: seq<Rec>, r: Rec, id: nat)
    requires Queued(l, b)
    ensures Queued(Pushed(l, r), b)
    ensures l.active != [] ==> Queued(l.(active := l.active[1..]), b + [l.active[0]])
    ensures Queued(Swapped(l, b), [])
    ensures Queued(Spawned(l), b)
    ensures l.tasks > 0 ==> Queued(Taken(l), b)
    ensures Queued(Inserted(l, id), b)
  {
    FlatMore(l.taken, l.ready);
    hide Flat;
    assert Flat(l.taken) + l.ready == Flat(l.taken) + l.ready + [];
  }

  lemma InOrderStep(s: State, a: Action, k: Kind)
    requires Enabled(s, a) && OneCaller(s) && InOrder(s, k)
    ensures InOrder(Next(s, a), k)
  {
    hide Queued;
    var r, id := if a.Push? then a.r else 0, if a.Insert? then a.id else 0;
    QueuedMoves(LaneOf(s, k), Batch(s.callers[0], k), r, id);
    if a.PopNormal? {
      PopNormalShape(s, a);
      hide Next;
    } else if a.PopOver? {
      PopOverShape(s, a);
      hide Next;
    }
  }

  /** With one caller the counter is exact between calls, and what was not overwritten is taken in order. */
  lemma {:induction false} OneCallerExact(max: nat, run: seq<Action>, k: Kind)
    requires Exec(1, max, run).Some?
    ensures OneCaller(Exec(1, max, run).value) && InOrder(Exec(1, max, run).value, k)
  {
    if run != [] {
      var n := |run| - 1;
      OneCallerExact(max, run[..n], k);
      OneCallerStep(Exec(1, max, run[..n]).value, run[n]);
      InOrderStep(Exec(1, max, run[..n]).value, run[n], k);
    }
  }

  function Quota(max: nat): nat { if max == 0 then 1 else max }

  /** How full the queues and the batches of one caller are, against the number of records that makes a flush. */
  predicate Filling(s: State) {
    && |s.callers| == 1
    && var held := |s.normal.active| + |s.over.active|;
       match s.callers[0]
       case Idle => held < Quota(s.max)
       case Counting => 1 <= held <= Quota(s.max)
       case Checking => 1 <= held <= Quota(s.max)
       case Resetting => held == Quota(s.max)
       case DrainNormal(n) => |n| + held == Quota(s.max)
       case DrainOver(n, o) => |n| + |o| + held == Quota(s.max)
       case Swapping(n, o) => |n| + |o| == Quota(s.max)
       case _ => held == 0
  }

  lemma FillingPop(s: State, a: Action)
    requires Enabled(s, a) && (a.PopNormal? || a.PopOver?) && OneCaller(s) && Filling(s)
    ensures Filling(Next(s, a)) && Next(s, a).max == s.max
  {
    SameMax(s, a);
    if a.PopNormal? {
      PopNormalShape(s, a);
    } else {
      PopOverShape(s, a);
    }
    hide Next, Quota;
  }

  lemma SameMax(s: State, a: Action)
    requires Enabled(s, a)
    ensures Next(s, a).max == s.max
  {
  }

  lemma FillingStep(s: State, a: Action)
    requires Enabled(s, a) && OneCaller(s) && Filling(s)
    ensures Filling(Next(s, a)) && Next(s, a).max == s.max
  {
    if a.PopNormal? || a.PopOver? {
      FillingPop(s, a);
      hide Next;
    } else if !ByCaller(a) {
      TaskEffect(s, a);
      SameMax(s, a);
      hide Next;
    }
  }

  lemma {:induction false} FillingAlways(max: nat, run: seq<Action>)
    requires Exec(1, max, run).Some?
    ensures Filling(Exec(1, max, run).value) && Exec(1, max, run).value.max == max
  {
    if run != [] {
      var n := |run| - 1;
      FillingAlways(max, run[..n]);
      OneCallerExact(max, run[..n], Normal);
      FillingStep(Exec(1, max, run[..n]).value, run[n]);
    }
  }

  /** With one caller every flush takes exactly the maximum number of records, or one when the maximum is zero. */
  lemma FlushExactly(max: nat, run: seq<Action>)
    requires Exec(1, max, run).Some?
    ensures
      var s := Exec(1, max, run).value;
      && |s.callers| == 1
      && (s.callers[0].Swapping? ==> |s.callers[0].n| + |s.callers[0].o| == if max == 0 then 1 else max)
      && (s.callers[0].Idle? ==> |s.normal.active| + |s.over.active| == s.counter)
      && (s.callers[0].Idle? && max > 0 ==> s.counter < max)
  {
    FillingAlways(max, run);
    OneCallerExact(max, run, Normal);
    hide Exec;
  }

  // ----- the order of the table -----

  /** How many records were taken before batch `id`. */
  function Offset(taken: seq<seq<Rec>>, id: nat): nat
    requires id <= |taken|
  {
    if id == 0 then 0 else Offset(taken, id - 1) + |taken[id - 1]|
  }

  function Range(lo: nat, hi: nat): (r: seq<nat>)
    ensures |r| == if lo <= hi then hi - lo else 0
    ensures forall i :: 0 <= i < |r| ==> r[i] == lo + i
  {
    if lo >= hi then [] else Range(lo, hi - 1) + [hi - 1]
  }

  /** For each record of the table, how many records of its kind had been taken before it. */
  function Numbers(taken: seq<seq<Rec>>, inserted: seq<nat>): seq<nat> {
    if inserted == [] then []
    else
      var id := inserted[|inserted| - 1];
      Numbers(taken, inserted[..|inserted| - 1])
      + (if id < |taken| then Range(Offset(taken, id), Offset(taken, id + 1)) else [])
  }

  ghost predicate Ascending(s: seq<nat>) { forall i, j :: 0 <= i < j < |s| ==> s[i] < s[j] }

  /** Of two batches with records the one taken first was inserted first. */
  ghost predicate InTakingOrder(taken: seq<seq<Rec>>, inserted: seq<nat>) {
    forall i, j :: 0 <= i < j < |inserted| && Filled(taken, inserted[i]) && Filled(taken, inserted[j]) ==>
      inserted[i] < inserted[j]
  }

  predicate Filled(taken: seq<seq<Rec>>, id: nat) { id < |taken| && taken[id] != [] }

  lemma {:induction false} OffsetGrows(taken: seq<seq<Rec>>, i: nat, j: nat)
    requires i <= j <= |taken|
    ensures Offset(taken, i) <= Offset(taken, j)
  {
    if i < j {
      OffsetGrows(taken, i, j - 1);
    }
  }

  lemma {:induction false} FlatAt(taken: seq<seq<Rec>>, id: nat, x: nat)
    requires id < |taken| && x < |taken[id]|
    ensures Offset(taken, id) + x < |Flat(taken)| && Flat(taken)[Offset(taken, id) + x] == taken[id][x]
    ensures |Flat(taken)| == Offset(taken, |taken|)
  {
    var n := |taken| - 1;
    var front := taken[..n];
    FlatLength(taken);
    FlatLength(front);
    OffsetFront(taken, n);
    if id < n {
      FlatAt(front, id, x);
      OffsetFront(taken, id);
    }
  }

  lemma {:induction false} OffsetFront(taken: seq<seq<Rec>>, id: nat)
    requires taken != [] && id < |taken|
    ensures Offset(taken[..|taken| - 1], id) == Offset(taken, id)
  {
    if id > 0 {
      OffsetFront(taken, id - 1);
    }
  }

  lemma {:induction false} FlatLength(taken: seq<seq<Rec>>)
    ensures |Flat(taken)| == Offset(taken, |taken|)
  {
    if taken != [] {
      FlatLength(taken[..|taken| - 1]);
      OffsetFront(taken, |taken| - 1);
    }
  }

  lemma BatchNumbers(taken: seq<seq<Rec>>, id: nat)
    requires id < |taken|
    ensures
      var ns := Range(Offset(taken, id), Offset(taken, id + 1));
      |ns| == |taken[id]| && forall x :: 0 <= x < |ns| ==> ns[x] == Offset(taken, id) + x
  {
  }

  /** Record p of the table is number Numbers[p] of those taken. */
  lemma {:induction false} TableNumbers(taken: seq<seq<Rec>>, inserted: seq<nat>, p: nat)
    ensures |Numbers(taken, inserted)| == |Table(taken, inserted)|
    ensures p < |Numbers(taken, inserted)| ==>
      Numbers(taken, inserted)[p] < |Flat(taken)|
      && Table(taken, inserted)[p] == Flat(taken)[Numbers(taken, inserted)[p]]
  {
    hide Offset, Range, Flat;
    if inserted != [] {
      var front, id := inserted[..|inserted| - 1], inserted[|inserted| - 1];
      TableNumbers(taken, front, p);
      if id < |taken| {
        BatchNumbers(taken, id);
        var m := |Table(taken, front)|;
        if m <= p < m + |taken[id]| {
          FlatAt(taken, id, p - m);
        }
      }
    }
  }

  /** Every number of the table belongs to an inserted batch. */
  lemma {:induction false} NumberOf(taken: seq<seq<Rec>>, inserted: seq<nat>, p: nat) returns (i: nat)
    requires p < |Numbers(taken, inserted)|
    ensures i < |inserted| && Filled(taken, inserted[i])
    ensures Offset(taken, inserted[i]) <= Numbers(taken, inserted)[p] < Offset(taken, inserted[i] + 1)
  {
    var front, n := inserted[..|inserted| - 1], |inserted| - 1;
    if p < |Numbers(taken, front)| {
      i := NumberOf(taken, front, p);
    } else {
      i := n;
    }
  }

  /** And every record of an inserted batch is in the table. */
  lemma {:induction false} PlaceOf(taken: seq<seq<Rec>>, inserted: seq<nat>, i: nat) returns (p: nat)
    requires i < |inserted| && Filled(taken, inserted[i])
    ensures p < |Numbers(taken, inserted)| && Numbers(taken, inserted)[p] == Offset(taken, inserted[i])
  {
    var front, n := inserted[..|inserted| - 1], |inserted| - 1;
    if i < n {
      p := PlaceOf(taken, front, i);
    } else {
      p := |Numbers(taken, front)|;
    }
  }

  /** The table is in the order of taking exactly when its batches with records are. */
  lemma {:induction false} OrderExactly(taken: seq<seq<Rec>>, inserted: seq<nat>)
    requires forall i, j :: 0 <= i < j < |inserted| ==> inserted[i] != inserted[j]
    ensures Ascending(Numbers(taken, inserted)) <==> InTakingOrder(taken, inserted)
  {
    if inserted != [] {
      var n := |inserted| - 1;
      var front, id := inserted[..n], inserted[n];
      assert inserted == front + [id];
      OrderExactly(taken, front);
      if Filled(taken, id) {
        var before, last := Numbers(taken, front), Range(Offset(taken, id), Offset(taken, id + 1));
        assert Numbers(taken, inserted) == before + last;
        AllBelow(taken, front, id);
        AscendingJoin(before, last);
        OrderJoin(taken, front, id);
      } else {
        assert Numbers(taken, inserted) == Numbers(taken, front);
        OrderJoin(taken, front, id);
      }
    }
  }

  lemma AllBelow(taken: seq<seq<Rec>>, front: seq<nat>, id: nat)
    requires Filled(taken, id) && id !in front
    ensures
      (forall p :: 0 <= p < |Numbers(taken, front)| ==> Numbers(taken, front)[p] < Offset(taken, id))
      <==> (forall i :: 0 <= i < |front| && Filled(taken, front[i]) ==> front[i] < id)
  {
    hide Numbers, Offset, Range;
    var ns := Numbers(taken, front);
    if forall i :: 0 <= i < |front| && Filled(taken, front[i]) ==> front[i] < id {
      forall p | 0 <= p < |ns|
        ensures ns[p] < Offset(taken, id)
      {
        var i := NumberOf(taken, front, p);
        OffsetGrows(taken, front[i] + 1, id);
      }
    } else {
      var i :| 0 <= i < |front| && Filled(taken, front[i]) && front[i] >= id;
      var p := PlaceOf(taken, front, i);
      assert front[i] != id;
      OffsetGrows(taken, id, front[i]);
    }
  }

  lemma AscendingJoin(a: seq<nat>, b: seq<nat>)
    requires b != [] && forall i :: 0 <= i < |b| ==> b[i] == b[0] + i
    ensures Ascending(a + b) <==> Ascending(a) && forall i :: 0 <= i < |a| ==> a[i] < b[0]
  {
    var all := a + b;
    if Ascending(all) {
      forall i | 0 <= i < |a|
        ensures a[i] < b[0]
      {
        assert all[i] < all[|a|];
      }
      forall i, j | 0 <= i < j < |a|
        ensures a[i] < a[j]
      {
        assert all[i] < all[j];
      }
    }
  }

  lemma OrderJoin(taken: seq<seq<Rec>>, front: seq<nat>, id: nat)
    ensures
      InTakingOrder(taken, front + [id]) <==>
      InTakingOrder(taken, front)
      && (Filled(taken, id) ==> forall i :: 0 <= i < |front| && Filled(taken, front[i]) ==> front[i] < id)
  {
    hide Filled;
    var all := front + [id];
    assert forall i :: 0 <= i < |front| ==> all[i] == front[i];
    assert all[|front|] == id;
  }

  /** The numbers of the batches of a kind in the order of the run's inserts. */
  function InsertsOf(run: seq<Action>, k: Kind): seq<nat> {
    if run == [] then []
    else
      var a := run[|run| - 1];
      InsertsOf(run[..|run| - 1], k) + (if a.Insert? && a.k == k then [a.id] else [])
  }

  lemma {:induction false} InsertsRead(callers: nat, max: nat, run: seq<Action>, k: Kind)
    requires Exec(callers, max, run).Some?
    ensures LaneOf(Exec(callers, max, run).value, k).inserted == InsertsOf(run, k)
  {
    if run != [] {
      InsertsRead(callers, max, run[..|run| - 1], k);
    }
  }

  /**
  With one caller and nothing overwritten, each record of the table is a known push, and the table is in push order
  exactly when the run inserts the batches that hold records in the order in which they were taken.
  */
  lemma TableOrderExactly(max: nat, run: seq<Action>, k: Kind)
    requires Exec(1, max, run).Some? && LaneOf(Exec(1, max, run).value, k).lost == []
    ensures
      var l := LaneOf(Exec(1, max, run).value, k);
      var ns := Numbers(l.taken, l.inserted);
      && |ns| == |Written(l)|
      && (forall p :: 0 <= p < |ns| ==> ns[p] < |l.pushed| && Written(l)[p] == l.pushed[ns[p]])
      && (Ascending(ns) <==> InTakingOrder(l.taken, InsertsOf(run, k)))
  {
    OneCallerExact(max, run, k);
    InsertsAlways(1, max, run, k);
    InsertsRead(1, max, run, k);
    var s := Exec(1, max, run).value;
    var l := LaneOf(s, k);
    OrderExactly(l.taken, l.inserted);
    TableNumbers(l.taken, l.inserted, 0);
    var ns := Numbers(l.taken, l.inserted);
    hide Exec, Numbers, Table, Flat, InsertsOf;
    forall p | 0 <= p < |ns|
      ensures ns[p] < |l.pushed| && Written(l)[p] == l.pushed[ns[p]]
    {
      TableNumbers(l.taken, l.inserted, p);
    }
  }

  lemma {:induction false} FirstBatches(taken: seq<seq<Rec>>, n: nat)
    requires n <= |taken|
    ensures Table(taken, Range(0, n)) == Flat(taken[..n])
  {
    if n > 0 {
      FirstBatches(taken, n - 1);
      assert Range(0, n)[..n - 1] == Range(0, n - 1);
      assert taken[..n][..n - 1] == taken[..n - 1];
    }
  }

  /** When batches are inserted strictly as taken, table, tasks, ready, batch and queue concatenate to the pushes. */
  lemma InsertedAsTaken(max: nat, run: seq<Action>, k: Kind)
    requires Exec(1, max, run).Some? && LaneOf(Exec(1, max, run).value, k).lost == []
    requires InsertsOf(run, k) == Range(0, |InsertsOf(run, k)|)
    ensures
      var s := Exec(1, max, run).value;
      var l := LaneOf(s, k);
      var n := |l.inserted|;
      n <= |l.taken| && |s.callers| == 1
      && l.pushed == Written(l) + Flat(l.taken[n..]) + l.ready + Batch(s.callers[0], k) + l.active
  {
    OneCallerExact(max, run, k);
    InsertsAlways(1, max, run, k);
    InsertsRead(1, max, run, k);
    var s := Exec(1, max, run).value;
    var l := LaneOf(s, k);
    var n := |l.inserted|;
    assert n > 0 ==> l.inserted[n - 1] == n - 1;
    FirstBatches(l.taken, n);
    FlatJoin(l.taken, n);
  }

  lemma {:induction false} FlatJoin(taken: seq<seq<Rec>>, n: nat)
    requires n <= |taken|
    ensures Flat(taken) == Flat(taken[..n]) + Flat(taken[n..])
  {
    if n == |taken| {
      assert taken[..n] == taken;
    } else {
      var m := |taken| - 1;
      FlatJoin(taken[..m], n);
      assert taken[..m][..n] == taken[..n] && taken[..m][n..] == taken[n..][..m - n];
    }
  }

  // ----- one whole call -----

  /** The batch of everything queued replaces the ready buffer and the count restarts. */
  function Flushed(l: Lane): Lane { Swapped(l, l.active).(active := []) }

  /** CheckMemorySizeAndWriteToDatabase with no other caller in between. */
  function Checked(s: State): State {
    if s.counter < s.max then s
    else
      var n, o := Flushed(s.normal), Flushed(s.over);
      if n.ready != [] || o.ready != [] then s.(counter := 0, normal := Spawned(n), over := Spawned(o))
      else s.(counter := 0, normal := n, over := o)
  }

  function Counted(s: State, k: Kind, r: Rec): State {
    if k.Normal? then s.(normal := Pushed(s.normal, r), counter := s.counter + 1)
    else s.(over := Pushed(s.over, r), counter := s.counter + 1)
  }

  function Pops(normal: bool, t: nat, n: nat): seq<Action> {
    (if normal then [PopNormal(t)] else [PopOver(t)]) + (if n == 0 then [] else Pops(normal, t, n - 1))
  }

  lemma {:induction false} AfterJoin(s: State, p: seq<Action>, q: seq<Action>)
    requires After(s, p).Some?
    ensures After(s, p + q) == After(After(s, p).value, q)
    decreases |p|
  {
    if p == [] {
      assert p + q == q;
    } else {
      assert (p + q)[1..] == p[1..] + q;
      AfterJoin(Next(s, p[0]), p[1..], q);
    }
  }

  lemma OneStep(s: State, a: Action, rest: seq<Action>)
    requires Enabled(s, a)
    ensures After(s, [a] + rest) == After(Next(s, a), rest)
    ensures rest == [] ==> After(s, [a]) == Some(Next(s, a))
  {
  }

  lemma {:induction false} PopsNormal(s: State, t: nat)
    requires t < |s.callers| && s.callers[t].DrainNormal?
    ensures
      After(s, Pops(true, t, |s.normal.active|))
      == Some(Go(s, t, DrainOver(s.callers[t].n + s.normal.active, [])).(normal := s.normal.(active := [])))
    decreases |s.normal.active|
  {
    var n := s.callers[t].n;
    var q := s.normal.active;
    var s1 := Next(s, PopNormal(t));
    if q == [] {
      OneStep(s, PopNormal(t), []);
      assert n + [] == n;
    } else {
      var rest := Pops(true, t, |s1.normal.active|);
      OneStep(s, PopNormal(t), rest);
      PopsNormal(s1, t);
      assert s1.callers[t].n + s1.normal.active == n + q;
      assert s1.callers[t := DrainOver(n + s.normal.active, [])] == s.callers[t := DrainOver(n + s.normal.active, [])];
      hide After, Pops;
    }
  }

  lemma {:induction false} PopsOver(s: State, t: nat)
    requires t < |s.callers| && s.callers[t].DrainOver?
    ensures
      After(s, Pops(false, t, |s.over.active|))
      == Some(Go(s, t, Swapping(s.callers[t].n, s.callers[t].o + s.over.active)).(over := s.over.(active := [])))
    decreases |s.over.active|
  {
    var n, o := s.callers[t].n, s.callers[t].o;
    var q := s.over.active;
    var s1 := Next(s, PopOver(t));
    if q == [] {
      OneStep(s, PopOver(t), []);
      assert o + [] == o;
    } else {
      var rest := Pops(false, t, |s1.over.active|);
      OneStep(s, PopOver(t), rest);
      PopsOver(s1, t);
      assert s1.callers[t].o + s1.over.active == o + q;
      assert s1.callers[t := Swapping(n, o + s.over.active)] == s.callers[t := Swapping(n, o + s.over.active)];
      hide After, Pops;
    }
  }

  lemma InsertWrites(l: Lane, id: nat)
    requires id < |l.taken|
    ensures Written(Inserted(l, id)) == Written(l) + l.taken[id]
  {
    assert (l.inserted + [id])[..|l.inserted|] == l.inserted;
  }

  lemma {:induction false} TableKeeps(taken: seq<seq<Rec>>, inserted: seq<nat>, batch: seq<Rec>)
    requires forall i :: 0 <= i < |inserted| ==> inserted[i] < |taken|
    ensures Table(taken + [batch], inserted) == Table(taken, inserted)
  {
    if inserted != [] {
      TableKeeps(taken, inserted[..|inserted| - 1], batch);
    }
  }

  lemma TakeWrites(l: Lane)
    requires l.tasks > 0 && InsertsOk(l)
    ensures Written(Taken(l)) == Written(l) && |l.taken| !in l.inserted
  {
    TableKeeps(l.taken, l.inserted, l.ready);
  }

  class RadarRecord {
    const max: nat
    var counter: nat
    var normalActive: seq<Rec>
    var overActive: seq<Rec>
    var normalReady: seq<Rec>
    var overReady: seq<Rec>
    var normalTasks: nat
    var overTasks: nat
    var normalTaken: seq<seq<Rec>>
    var overTaken: seq<seq<Rec>>
    var normalInserted: seq<nat>
    var overInserted: seq<nat>
    ghost var normalPushed: seq<Rec>
    ghost var overPushed: seq<Rec>
    ghost var normalLost: seq<Rec>
    ghost var overLost: seq<Rec>

    /** The recorder between two calls of its one caller. */
    ghost function Abs(): State
      reads this
    {
      State(
        max, counter,
        Lane(normalActive, normalReady, normalTasks, normalPushed, normalTaken, normalInserted, normalLost),
        Lane(overActive, overReady, overTasks, overPushed, overTaken, overInserted, overLost),
        [Idle])
    }

    constructor (max: nat)
      ensures Abs() == Init(1, max)
    {
      this.max := max;
      counter, normalTasks, overTasks := 0, 0, 0;
      normalActive, overActive, normalReady, overReady := [], [], [], [];
      normalTaken, overTaken, normalInserted, overInserted := [], [], [], [];
      normalPushed, overPushed, normalLost, overLost := [], [], [], [];
    }

    method WriteBatchToVector(kind: Kind, rec: Rec)
      modifies this
      ensures Abs() == Counted(old(Abs()), kind, rec)
      ensures kind == Normal ==> normalActive == old(normalActive) + [rec] && overActive == old(overActive)
      ensures kind == Over ==> overActive == old(overActive) + [rec] && normalActive == old(normalActive)
      ensures counter == old(counter) + 1
    {
      match kind
      case Normal =>
        normalActive := normalActive + [rec];
        normalPushed := normalPushed + [rec];
        counter := counter + 1;
      case Over =>
        overActive := overActive + [rec];
        overPushed := overPushed + [rec];
        counter := counter + 1;
    }

    method PopAllNormal() returns (batch: seq<Rec>)
      modifies this`normalActive
      ensures batch == old(normalActive) && normalActive == []
    {
      batch := [];
      while normalActive != []
        modifies this`normalActive
        invariant batch + normalActive == old(normalActive)
        decreases |normalActive|
      {
        batch := batch + [normalActive[0]];
        normalActive := normalActive[1..];
      }
    }

    method PopAllOver() returns (batch: seq<Rec>)
      modifies this`overActive
      ensures batch == old(overActive) && overActive == []
    {
      batch := [];
      while overActive != []
        modifies this`overActive
        invariant batch + overActive == old(overActive)
        decreases |overActive|
      {
        batch := batch + [overActive[0]];
        overActive := overActive[1..];
      }
    }

    /** The locked section: the old ready records end up in the caller's locals and go away with them. */
    method SwapReady(normalBatch: seq<Rec>, overBatch: seq<Rec>)
      modifies this
      ensures
        var s := old(Abs());
        Abs() == s.(normal := Swapped(s.normal, normalBatch), over := Swapped(s.over, overBatch))
    {
      normalLost, overLost := normalLost + normalReady, overLost + overReady;
      normalReady, overReady := normalBatch, overBatch;
    }

    method CheckMemorySizeAndWriteToDatabase()
      modifies this
      ensures Abs() == Checked(old(Abs()))
    {
      if counter < max {
        return;
      }
      counter := 0;
      var normalBatch := PopAllNormal();
      var overBatch := PopAllOver();
      SwapReady(normalBatch, overBatch);
      if normalReady != [] || overReady != [] {
        WriteDataToDatabase();
      }
    }

    method WriteDataToDatabase()
      modifies this
      ensures Abs() == old(Abs()).(normal := Spawned(old(Abs()).normal), over := Spawned(old(Abs()).over))
    {
      if normalReady != [] {
        normalTasks := normalTasks + 1;
      }
      if overReady != [] {
        overTasks := overTasks + 1;
      }
    }

    /** The locked part of a queued task; the batch's number stands for the task's local. */
    method TakeBatch(kind: Kind) returns (id: nat)
      requires Enabled(Abs(), Task(kind))
      modifies this
      ensures Abs() == Next(old(Abs()), Task(kind)) && id == |LaneOf(old(Abs()), kind).taken|
    {
      match kind
      case Normal =>
        id := |normalTaken|;
        normalTaken := normalTaken + [normalReady];
        normalReady, normalTasks := [], normalTasks - 1;
      case Over =>
        id := |overTaken|;
        overTaken := overTaken + [overReady];
        overReady, overTasks := [], overTasks - 1;
    }

    method InsertBatch(kind: Kind, id: nat)
      requires Enabled(Abs(), Insert(kind, id))
      modifies this
      ensures Abs() == Next(old(Abs()), Insert(kind, id))
      ensures Written(LaneOf(Abs(), kind)) == Written(LaneOf(old(Abs()), kind)) + LaneOf(old(Abs()), kind).taken[id]
    {
      InsertWrites(LaneOf(Abs(), kind), id);
      match kind
      case Normal => normalInserted := normalInserted + [id];
      case Over => overInserted := overInserted + [id];
    }

    /** One queued task with no other task in between: the ready records go to the end of the table. */
    method RunTask(kind: Kind)
      requires Enabled(Abs(), Task(kind)) && InsertsOk(LaneOf(Abs(), kind))
      modifies this
      ensures LaneOf(Abs(), kind).ready == [] && InsertsOk(LaneOf(Abs(), kind))
      ensures Written(LaneOf(Abs(), kind)) == Written(LaneOf(old(Abs()), kind)) + LaneOf(old(Abs()), kind).ready
    {
      ghost var l := LaneOf(Abs(), kind);
      InsertsStep(Abs(), Task(kind), kind);
      TakeWrites(l);
      var id := TakeBatch(kind);
      InsertsStep(Abs(), Insert(kind, id), kind);
      InsertBatch(kind, id);
    }

    /** OnRecordRadar or OnRecordOverrun, after the record's fields have been filled. */
    method Record(kind: Kind, rec: Rec)
      modifies this
      ensures Abs() == Checked(Counted(old(Abs()), kind, rec))
    {
      WriteBatchToVector(kind, rec);
      CheckMemorySizeAndWriteToDatabase();
    }
  }

  lemma GoGo(s: State, t: nat, c: Caller, d: Caller)
    requires t < |s.callers|
    ensures Go(Go(s, t, c), t, d) == Go(s, t, d)
    ensures s.callers[t] == d ==> Go(s, t, d) == s
  {
  }

  predicate Leads(s: State, run: seq<Action>, s': State) { After(s, run) == Some(s') }

  lemma LeadsOne(s: State, a: Action)
    requires Enabled(s, a)
    ensures Leads(s, [a], Next(s, a))
  {
  }

  lemma LeadsOn(s: State, p: seq<Action>, m: State, q: seq<Action>, e: State)
    requires Leads(s, p, m) && Leads(m, q, e)
    ensures Leads(s, p + q, e)
  {
    AfterJoin(s, p, q);
  }

  function Emptied(l: Lane): Lane { l.(active := []) }

  lemma DrainsLead(s: State, t: nat)
    requires t < |s.callers| && s.callers[t].Resetting?
    ensures
      var n, o := s.normal, s.over;
      Leads(s, [Reset(t)] + Pops(true, t, |n.active|) + Pops(false, t, |o.active|),
            Go(s, t, Swapping(n.active, o.active)).(counter := 0, normal := Emptied(n), over := Emptied(o)))
  {
    var n, o := s.normal, s.over;
    var p, q := Pops(true, t, |n.active|), Pops(false, t, |o.active|);
    var s1 := Go(s, t, DrainNormal([])).(counter := 0);
    LeadsOne(s, Reset(t));
    PopsNormal(s1, t);
    assert [] + n.active == n.active && [] + o.active == o.active;
    GoGo(s, t, DrainNormal([]), DrainOver(n.active, []));
    var s2 := Go(s, t, DrainOver(n.active, [])).(counter := 0, normal := Emptied(n));
    assert Leads(s1, p, s2);
    PopsOver(s2, t);
    GoGo(s, t, DrainOver(n.active, []), Swapping(n.active, o.active));
    var s3 := Go(s, t, Swapping(n.active, o.active)).(counter := 0, normal := Emptied(n), over := Emptied(o));
    assert Leads(s2, q, s3);
    hide Leads, Pops;
    LeadsOn(s, [Reset(t)], s1, p, s2);
    LeadsOn(s, [Reset(t)] + p, s2, q, s3);
  }

  lemma FlushLeads(s: State, t: nat)
    requires t < |s.callers| && s.callers[t].Resetting?
    ensures
      var n, o := s.normal, s.over;
      Leads(s, [Reset(t)] + Pops(true, t, |n.active|) + Pops(false, t, |o.active|) + [Swap(t)],
            Go(s, t, TestNormal).(counter := 0, normal := Flushed(n), over := Flushed(o)))
  {
    var n, o := s.normal, s.over;
    var run := [Reset(t)] + Pops(true, t, |n.active|) + Pops(false, t, |o.active|);
    var s1 := Go(s, t, Swapping(n.active, o.active)).(counter := 0, normal := Emptied(n), over := Emptied(o));
    DrainsLead(s, t);
    hide Leads, Pops;
    LeadsOne(s1, Swap(t));
    GoGo(s, t, Swapping(n.active, o.active), TestNormal);
    LeadsOn(s, run, s1, [Swap(t)], Next(s1, Swap(t)));
  }

  function SpawnRun(s: State, t: nat): seq<Action> {
    (if s.normal.ready != [] then [Test(t)] else [Test(t), TestAgain(t)])
    + (if s.normal.ready == [] && s.over.ready == [] then [] else [RunNormal(t), RunOver(t)])
  }

  lemma LeadsTwo(s: State, a: Action, b: Action)
    requires Enabled(s, a) && Enabled(Next(s, a), b)
    ensures Leads(s, [a, b], Next(Next(s, a), b))
  {
    OneStep(s, a, [b]);
    OneStep(Next(s, a), b, []);
    assert [a, b] == [a] + [b];
  }

  lemma TestsLead(s: State, t: nat)
    requires t < |s.callers| && s.callers[t].TestNormal?
    ensures
      Leads(s, if s.normal.ready != [] then [Test(t)] else [Test(t), TestAgain(t)],
            Go(s, t, if s.normal.ready != [] || s.over.ready != [] then SpawnNormal else Idle))
  {
    hide Leads;
    if s.normal.ready != [] {
      LeadsOne(s, Test(t));
    } else {
      LeadsTwo(s, Test(t), TestAgain(t));
      GoGo(s, t, TestOver, if s.over.ready != [] then SpawnNormal else Idle);
    }
  }

  lemma SpawnsLead(s: State, t: nat)
    requires t < |s.callers| && s.callers[t].TestNormal?
    ensures
      Leads(s, SpawnRun(s, t), Go(s, t, Idle).(normal := Spawned(s.normal), over := Spawned(s.over)))
  {
    TestsLead(s, t);
    hide Leads;
    var test := if s.normal.ready != [] then [Test(t)] else [Test(t), TestAgain(t)];
    if s.normal.ready != [] || s.over.ready != [] {
      var s1 := Go(s, t, SpawnNormal);
      LeadsTwo(s1, RunNormal(t), RunOver(t));
      GoGo(s, t, SpawnNormal, SpawnOver);
      GoGo(s, t, SpawnOver, Idle);
      LeadsOn(s, test, s1, [RunNormal(t), RunOver(t)], Next(Next(s1, RunNormal(t)), RunOver(t)));
    } else {
      assert test + [] == test;
    }
  }

  lemma CountLeads(s: State, t: nat, k: Kind, r: Rec)
    requires t < |s.callers| && s.callers[t].Idle?
    ensures
      var c := Counted(s, k, r);
      Leads(s, [Push(t, k, r), Count(t), Check(t)], Go(c, t, if c.counter < c.max then Idle else Resetting))
  {
    var c := Counted(s, k, r);
    var s2 := Go(c, t, Checking);
    LeadsTwo(s, Push(t, k, r), Count(t));
    GoGo(s, t, Counting, Checking);
    LeadsOne(s2, Check(t));
    GoGo(c, t, Checking, if c.counter < c.max then Idle else Resetting);
    hide Leads;
    LeadsOn(s, [Push(t, k, r), Count(t)], s2, [Check(t)], Next(s2, Check(t)));
    assert [Push(t, k, r), Count(t)] + [Check(t)] == [Push(t, k, r), Count(t), Check(t)];
  }

  /** The actions of one call: each queue is popped until a pop fails. */
  function CallRun(s: State, t: nat, k: Kind, r: Rec): seq<Action> {
    var c := Counted(s, k, r);
    if c.counter < c.max then [Push(t, k, r), Count(t), Check(t)]
    else
      [Push(t, k, r), Count(t), Check(t)]
      + ([Reset(t)] + Pops(true, t, |c.normal.active|) + Pops(false, t, |c.over.active|) + [Swap(t)])
      + SpawnRun(c.(normal := Flushed(c.normal), over := Flushed(c.over)), t)
  }

  /** A whole call is a run of the small steps, so every theorem above holds of the class between its calls. */
  lemma CallIsRun(s: State, t: nat, k: Kind, r: Rec)
    requires t < |s.callers| && s.callers[t].Idle?
    ensures Leads(s, CallRun(s, t, k, r), Checked(Counted(s, k, r)))
  {
    var c := Counted(s, k, r);
    var first := [Push(t, k, r), Count(t), Check(t)];
    CountLeads(s, t, k, r);
    hide Leads, Pops;
    GoGo(c, t, Resetting, TestNormal);
    GoGo(c, t, TestNormal, Idle);
    if c.counter >= c.max {
      var s1 := Go(c, t, Resetting);
      var s2 := Go(c, t, TestNormal).(counter := 0, normal := Flushed(c.normal), over := Flushed(c.over));
      var mid := [Reset(t)] + Pops(true, t, |c.normal.active|) + Pops(false, t, |c.over.active|) + [Swap(t)];
      FlushLeads(s1, t);
      SpawnsLead(s2, t);
      hide Flushed, SpawnRun;
      LeadsOn(s, first, s1, mid, s2);
      LeadsOn(s, first + mid, s2, SpawnRun(s2, t), Checked(c));
    }
  }

  /** Two calls in a row with a maximum of one, and no task in between: the first record is never written. */
  lemma SecondFlushLoses(first: Rec, second: Rec)
    ensures exists run :: Exec(1, 1, run).Some? && Exec(1, 1, run).value.normal.lost == [first]
  {
    var s := Init(1, 1);
    var s1 := Checked(Counted(s, Normal, first));
    var s2 := Checked(Counted(s1, Normal, second));
    CallIsRun(s, 0, Normal, first);
    CallIsRun(s1, 0, Normal, second);
    var p, q := CallRun(s, 0, Normal, first), CallRun(s1, 0, Normal, second);
    assert s1.normal.ready == [first] && s2.normal.lost == [first];
    LeadsOn(s, p, s1, q, s2);
    assert Exec(1, 1, []) == Some(s);
    hide Exec, CallRun, Checked, Counted;
    ExecAfter(1, 1, [], p + q);
  }

  /**
  One caller, a maximum of one, two calls: the first task takes its batch, the second takes and inserts, then the first
  inserts. Nothing is overwritten and the table is out of order.
  */
  lemma LaterBatchFirst(first: Rec, second: Rec)
    ensures
      exists run ::
        && Exec(1, 1, run).Some?
        && var l := Exec(1, 1, run).value.normal;
           l.pushed == [first, second] && l.lost == [] && Written(l) == [second, first]
  {
    var s := Init(1, 1);
    var s1 := Checked(Counted(s, Normal, first));
    var s2 := Next(s1, Task(Normal));
    var s3 := Checked(Counted(s2, Normal, second));
    var s4 := Next(s3, Task(Normal));
    assert s1.normal == Lane([], [first], 1, [first], [], [], []);
    assert s2.normal == Lane([], [], 0, [first], [[first]], [], []);
    assert s3.normal == Lane([], [second], 1, [first, second], [[first]], [], []);
    CallIsRun(s, 0, Normal, first);
    LeadsOne(s1, Task(Normal));
    CallIsRun(s2, 0, Normal, second);
    LeadsOne(s3, Task(Normal));
    assert s4.normal == Lane([], [], 0, [first, second], [[first], [second]], [], []);
    var p, q := CallRun(s, 0, Normal, first), CallRun(s2, 0, Normal, second);
    LeadsOn(s, p, s1, [Task(Normal)], s2);
    LeadsOn(s, p + [Task(Normal)], s2, q, s3);
    LeadsOn(s, p + [Task(Normal)] + q, s3, [Task(Normal)], s4);
    hide CallRun, Checked, Counted;
    TwoInserts(s4, p + [Task(Normal)] + q + [Task(Normal)], first, second);
  }

  lemma TwoInserts(s4: State, run: seq<Action>, first: Rec, second: Rec)
    requires Leads(Init(1, 1), run, s4) && s4.normal == Lane([], [], 0, [first, second], [[first], [second]], [], [])
    ensures
      exists all ::
        && Exec(1, 1, all).Some?
        && var l := Exec(1, 1, all).value.normal;
           l.pushed == [first, second] && l.lost == [] && Written(l) == [second, first]
  {
    var s5 := Next(s4, Insert(Normal, 1));
    var s6 := Next(s5, Insert(Normal, 0));
    LeadsTwo(s4, Insert(Normal, 1), Insert(Normal, 0));
    var inserts := [Insert(Normal, 1), Insert(Normal, 0)];
    LeadsOn(Init(1, 1), run, s4, inserts, s6);
    InsertWrites(s4.normal, 1);
    InsertWrites(s5.normal, 0);
    assert Exec(1, 1, []) == Some(Init(1, 1));
    hide Exec;
    ExecAfter(1, 1, [], run + inserts);
    assert [] + (run + inserts) == run + inserts;
  }
}
