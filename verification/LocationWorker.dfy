/**
The location worker: callers store a new location and wake a worker thread, which announces every change it sees
as "previous-new". An empty location is a reset: the recorded location is cleared, and that store is made outside
the lock.

One action per locked section, unlocked store, notification, or emission; any number of callers.
*/
module LocationWorker {
  import opened Common

  type Name = string

  datatype Worker =
    | Ready                        // about to evaluate the wait condition under the lock
    | Blocked                      // inside the wait
    | Copied(to: Name, seen: Name) // unlocked, holding the copy; seen is what the condition compared it with
    | Announced(to: Name)          // signal sent, about to lock again

  datatype Caller = Idle | Clearing | Notifying

  /** A change sent to the listeners, and whether a reset landed since the previous one was recorded. */
  datatype Change = Change(start: Name, end: Name, reset: bool)

  /** `cleared` says that a reset has landed since the worker last recorded a location. */
  datatype State = State(
    latest: Name, recorded: Name, worker: Worker, callers: seq<Caller>, cleared: bool, sent: seq<Change>)

  datatype Action =
    | Store(t: nat, name: Name)
    | Clear(t: nat)
    | Notify(t: nat)
    | Look
    | Spurious
    | Announce
    | Commit

  function Init(callers: nat): State { State("", "", Ready, seq(callers, _ => Idle), false, []) }

  predicate Enabled(s: State, a: Action) {
    match a
    case Store(t, _) => t < |s.callers| && s.callers[t].Idle?
    case Clear(t) => t < |s.callers| && s.callers[t].Clearing?
    case Notify(t) => t < |s.callers| && s.callers[t].Notifying?
    case Look => s.worker.Ready?
    case Spurious => s.worker.Blocked?
    case Announce => s.worker.Copied?
    case Commit => s.worker.Announced?
  }

  function Next(s: State, a: Action): State
    requires Enabled(s, a)
  {
    match a
    case Store(t, name) =>
      s.(latest := name, callers := s.callers[t := if name == "" then Clearing else Notifying])
    case Clear(t) => s.(recorded := "", cleared := true, callers := s.callers[t := Idle])
    case Notify(t) =>
      s.(worker := if s.worker.Blocked? then Ready else s.worker, callers := s.callers[t := Idle])
    case Look => s.(worker := if s.latest != s.recorded then Copied(s.latest, s.recorded) else Blocked)
    case Spurious => s.(worker := Ready)
    case Announce =>
      s.(worker := Announced(s.worker.to), sent := s.sent + [Change(s.recorded, s.worker.to, s.cleared)])
    case Commit => s.(recorded := s.worker.to, cleared := false, worker := Ready)
  }

  function Exec(callers: nat, run: seq<Action>): Option<State> {
    if run == [] then Some(Init(callers))
    else
      var n := |run| - 1;
      match Exec(callers, run[..n])
      case None => None
      case Some(s) => if Enabled(s, run[n]) then Some(Next(s, run[n])) else None
  }

  // ----- the announced changes form a chain -----

  /** Where change i has to start: where the one before it ended, or nowhere after a reset. */
  function Start(sent: seq<Change>, i: nat): Name
    requires i < |sent|
  {
    if i == 0 || sent[i].reset then "" else sent[i - 1].end
  }

  ghost predicate Chained(sent: seq<Change>) {
    forall i :: 0 <= i < |sent| ==> sent[i].start == Start(sent, i) && (sent[i].start == sent[i].end ==> sent[i].reset)
  }

  function LastEnd(sent: seq<Change>): Name { if sent == [] then "" else sent[|sent| - 1].end }

  ghost predicate Linked(s: State) {
    && Chained(s.sent)
    && (s.cleared ==> s.recorded == "")
    && (s.worker.Announced? ==> s.sent != [] && LastEnd(s.sent) == s.worker.to)
    && (!s.worker.Announced? && !s.cleared ==> s.recorded == LastEnd(s.sent))
    && (s.worker.Copied? ==> s.worker.to != s.worker.seen && (s.recorded == s.worker.seen || s.cleared))
  }

  lemma LinkedStep(s: State, a: Action)
    requires Enabled(s, a) && Linked(s)
    ensures Linked(Next(s, a))
  {
    var s' := Next(s, a);
    if a.Announce? {
      forall i | 0 <= i < |s'.sent|
        ensures s'.sent[i].start == Start(s'.sent, i) && (s'.sent[i].start == s'.sent[i].end ==> s'.sent[i].reset)
      {
        if i < |s.sent| {
          assert Start(s'.sent, i) == Start(s.sent, i);
        }
      }
    }
  }

  /**
  In every run with any number of callers each announced change starts where the previous one ended, or from the
  empty location when a reset landed in between; and no change is announced from a location to itself unless a reset
  landed.
  */
  lemma {:induction false} ChangesChain(callers: nat, run: seq<Action>)
    requires Exec(callers, run).Some?
    ensures Linked(Exec(callers, run).value)
  {
    if run != [] {
      var n := |run| - 1;
      ChangesChain(callers, run[..n]);
      LinkedStep(Exec(callers, run[..n]).value, run[n]);
    }
  }

  // ----- a waiting worker is up to date -----

  /** Every reset's unlocked store finds the empty location still the latest. */
  ghost predicate ResetsUndisturbed(callers: nat, run: seq<Action>) {
    forall i :: 0 <= i < |run| && run[i].Clear? && Exec(callers, run[..i]).Some? ==>
      Exec(callers, run[..i]).value.latest == ""
  }

  predicate Quiet(s: State) { forall t :: 0 <= t < |s.callers| ==> s.callers[t].Idle? }

  lemma UndisturbedSplit(callers: nat, run: seq<Action>, last: Action)
    ensures
      ResetsUndisturbed(callers, run + [last]) <==>
      ResetsUndisturbed(callers, run)
      && (last.Clear? && Exec(callers, run).Some? ==> Exec(callers, run).value.latest == "")
  {
    hide Exec;
    var all := run + [last];
    assert forall i :: 0 <= i < |run| ==> all[..i] == run[..i] && all[i] == run[i];
    assert all[..|run|] == run && all[|run|] == last;
  }

  /** The run ends with a reset's store that finds a location set after the reset began. */
  ghost predicate EndsOvertaken(callers: nat, run: seq<Action>) {
    && run != [] && run[|run| - 1].Clear?
    && Exec(callers, run[..|run| - 1]).Some?
    && Exec(callers, run[..|run| - 1]).value.latest != ""
  }

  /**
  For any number of callers: a worker that waits with no update in progress knows the latest location, and has
  announced it, exactly when the run does not end with an overtaken reset.
  */
  lemma WaitingExactly(callers: nat, run: seq<Action>)
    requires Exec(callers, run).Some? && Exec(callers, run).value.worker.Blocked? && Quiet(Exec(callers, run).value)
    ensures
      var s := Exec(callers, run).value;
      && (s.recorded == s.latest <==> !EndsOvertaken(callers, run))
      && (s.recorded == s.latest != "" ==> LastEnd(s.sent) == s.latest)
  {
    ChangesChain(callers, run);
    var n := |run| - 1;
    var before, s := Exec(callers, run[..n]).value, Exec(callers, run).value;
    var a := run[n];
    assert s == Next(before, a);
    hide Exec;
    StoreNotQuiet(before, a);
  }

  lemma StoreNotQuiet(s: State, a: Action)
    requires Enabled(s, a)
    ensures a.Store? ==> !Quiet(Next(s, a))
  {
    if a.Store? {
      assert !Next(s, a).callers[a.t].Idle?;
    }
  }

  /** Such a stale wait ends only with another update or a spurious wake-up. */
  lemma OnlyUpdateFollows(s: State, a: Action)
    requires s.worker.Blocked? && Quiet(s) && Enabled(s, a)
    ensures a.Store? || a.Spurious?
  {
  }

  lemma {:induction false} OneCallerUndisturbed(run: seq<Action>)
    requires Exec(1, run).Some?
    ensures
      var s := Exec(1, run).value;
      |s.callers| == 1 && (s.callers[0].Clearing? ==> s.latest == "") && ResetsUndisturbed(1, run)
  {
    if run != [] {
      var n := |run| - 1;
      assert run[..n] + [run[n]] == run;
      UndisturbedSplit(1, run[..n], run[n]);
      OneCallerUndisturbed(run[..n]);
    }
  }

  /** Waiting with no update in progress: up to date, and the latest location has been announced. */
  predicate UpToDate(s: State) {
    s.worker.Blocked? && Quiet(s) ==> s.recorded == s.latest && (s.latest != "" ==> LastEnd(s.sent) == s.latest)
  }

  /** It suffices that no reset is overtaken anywhere in the run. */
  lemma UndisturbedUpToDate(callers: nat, run: seq<Action>)
    requires Exec(callers, run).Some? && ResetsUndisturbed(callers, run)
    ensures UpToDate(Exec(callers, run).value)
  {
    var s := Exec(callers, run).value;
    if s.worker.Blocked? && Quiet(s) {
      WaitingExactly(callers, run);
    }
  }

  /** With updates made one after the other the worker never waits on a stale location, resets included. */
  lemma SerialUpToDate(run: seq<Action>)
    requires Exec(1, run).Some?
    ensures UpToDate(Exec(1, run).value)
  {
    OneCallerUndisturbed(run);
    UndisturbedUpToDate(1, run);
  }

  // ----- two callers -----

  lemma OneMore(callers: nat, run: seq<Action>, s: State, a: Action) returns (longer: seq<Action>, s': State)
    requires Exec(callers, run) == Some(s) && Enabled(s, a)
    ensures Exec(callers, longer) == Some(s') && s' == Next(s, a)
  {
    longer, s' := run + [a], Next(s, a);
    assert longer[..|run|] == run;
  }

  lemma OvertakenCopy() returns (run: seq<Action>)
    ensures Exec(2, run) == Some(State("B", "", Copied("B", ""), [Clearing, Idle], false, []))
  {
    var s;
    run, s := [], Init(2);
    assert Exec(2, run) == Some(s);
    hide Exec;
    run, s := OneMore(2, run, s, Store(0, ""));
    run, s := OneMore(2, run, s, Store(1, "B"));
    run, s := OneMore(2, run, s, Notify(1));
    assert s.callers == [Clearing, Idle];
    run, s := OneMore(2, run, s, Look);
  }

  lemma OvertakenRun() returns (run: seq<Action>)
    ensures Exec(2, run) == Some(State("B", "", Blocked, [Idle, Idle], true, [Change("", "B", false)]))
  {
    run := OvertakenCopy();
    var s := State("B", "", Copied("B", ""), [Clearing, Idle], false, []);
    hide Exec;
    run, s := OneMore(2, run, s, Announce);
    run, s := OneMore(2, run, s, Commit);
    run, s := OneMore(2, run, s, Look);
    assert s.worker == Blocked;
    run, s := OneMore(2, run, s, Clear(0));
    assert s.callers == [Idle, Idle] && s.sent == [Change("", "B", false)];
  }

  /**
  Two callers break it: a reset is overtaken by a new location between its two stores. The worker then waits with the
  location cleared although a later one was set, and nothing but another update (or a spurious wake-up) can follow.
  */
  lemma OvertakenReset()
    ensures
      exists run ::
        && Exec(2, run).Some?
        && var s := Exec(2, run).value;
           && s.worker.Blocked? && Quiet(s) && s.latest == "B" && s.recorded == ""
           && forall a: Action :: Enabled(s, a) ==> a.Store? || a.Spurious?
  {
    var run := OvertakenRun();
    hide Exec;
  }

  /** One caller suffices for an announcement from nowhere to nowhere: the reset's store lands after the copy. */
  lemma EmptyChange()
    ensures exists run :: Exec(1, run).Some? && Change("", "", true) in Exec(1, run).value.sent
  {
    var run, s := [], Init(1);
    assert Exec(1, run) == Some(s);
    hide Exec;
    run, s := OneMore(1, run, s, Store(0, "A"));
    run, s := OneMore(1, run, s, Notify(0));
    run, s := OneMore(1, run, s, Look);
    run, s := OneMore(1, run, s, Announce);
    run, s := OneMore(1, run, s, Commit);
    run, s := OneMore(1, run, s, Store(0, ""));
    run, s := OneMore(1, run, s, Look);
    run, s := OneMore(1, run, s, Clear(0));
    run, s := OneMore(1, run, s, Announce);
    assert s.sent[1] == Change("", "", true);
  }

  // ----- the worker catches up on its own -----

  /** The worker's own next step; inside the wait it has none. */
  function WorkerStep(s: State): State {
    match s.worker
    case Ready => Next(s, Look)
    case Blocked => s
    case Copied(_, _) => Next(s, Announce)
    case Announced(_) => Next(s, Commit)
  }

  function Steps(s: State, n: nat): State
    decreases n
  {
    if n == 0 then s else Steps(WorkerStep(s), n - 1)
  }

  lemma StepsJoin(s: State, m: nat, n: nat)
    ensures Steps(s, m + n) == Steps(Steps(s, m), n)
    decreases m
  {
  }

  lemma ReadySettles(s: State)
    requires s.worker.Ready?
    ensures
      var e := Steps(s, 4);
      e.worker.Blocked? && e.recorded == e.latest == s.latest && e.callers == s.callers
  {
    var s1 := WorkerStep(s);
    var s2 := WorkerStep(s1);
    var s3 := WorkerStep(s2);
    assert Steps(s, 4) == Steps(s3, 1) == WorkerStep(s3);
  }

  /**
  When the callers leave it alone, a worker that is not waiting is waiting up to date after at most six of its own
  steps, announcing at most two more changes.
  */
  lemma CatchesUp(s: State)
    requires !s.worker.Blocked?
    ensures
      var e := Steps(s, 6);
      e.worker.Blocked? && e.recorded == e.latest == s.latest && |s.sent| <= |e.sent| <= |s.sent| + 2
  {
    match s.worker
    case Ready =>
      ReadySettles(s);
      StepsJoin(s, 4, 2);
    case Announced(_) =>
      ReadySettles(WorkerStep(s));
      StepsJoin(s, 5, 1);
    case Copied(_, _) =>
      ReadySettles(WorkerStep(WorkerStep(s)));
  }

  class LocationCtrl {
    var newLocation: Name
    var nowLocation: Name
    var worker: Worker
    var callers: seq<Caller>
    ghost var cleared: bool
    ghost var sent: seq<Change>

    ghost function Abs(): State
      reads this
    {
      State(newLocation, nowLocation, worker, callers, cleared, sent)
    }

    constructor (n: nat)
      ensures Abs() == Init(n)
    {
      newLocation, nowLocation := "", "";
      worker, callers := Ready, seq(n, _ => Idle);
      cleared, sent := false, [];
    }

    /** updateLocation, the locked section and the test for a reset. */
    method StoreNew(t: nat, name: Name)
      requires Enabled(Abs(), Store(t, name))
      modifies this
      ensures Abs() == Next(old(Abs()), Store(t, name))
    {
      newLocation := name;
      if |name| == 0 {
        callers := callers[t := Clearing];
      } else {
        callers := callers[t := Notifying];
      }
    }

    /** The reset's store outside the lock. */
    method ClearNow(t: nat)
      requires Enabled(Abs(), Clear(t))
      modifies this
      ensures Abs() == Next(old(Abs()), Clear(t))
    {
      nowLocation := "";
      cleared := true;
      callers := callers[t := Idle];
    }

    method NotifyOne(t: nat)
      requires Enabled(Abs(), Notify(t))
      modifies this
      ensures Abs() == Next(old(Abs()), Notify(t))
    {
      if worker.Blocked? {
        worker := Ready;
      }
      callers := callers[t := Idle];
    }

    /** recordByLocation up to the unlock: evaluate the wait condition, copy the new location. */
    method Wait()
      requires Enabled(Abs(), Look)
      modifies this
      ensures Abs() == Next(old(Abs()), Look)
    {
      if newLocation == nowLocation {
        worker := Blocked;
      } else {
        worker := Copied(newLocation, nowLocation);
      }
    }

    /** Build the name without the lock and send it. */
    method Emit(stamp: string) returns (filename: string)
      requires Enabled(Abs(), Announce)
      modifies this
      ensures Abs() == Next(old(Abs()), Announce)
      ensures filename == LastChange().start + "-" + LastChange().end + stamp
    {
      filename := nowLocation + "-" + worker.to + stamp;
      sent := sent + [Change(nowLocation, worker.to, cleared)];
      worker := Announced(worker.to);
    }

    /** The change announced last. */
    ghost function LastChange(): Change
      reads this
    {
      if sent == [] then Change("", "", false) else sent[|sent| - 1]
    }

    method Record()
      requires Enabled(Abs(), Commit)
      modifies this
      ensures Abs() == Next(old(Abs()), Commit)
    {
      nowLocation := worker.to;
      cleared := false;
      worker := Ready;
    }

    /** One update that no other update overlaps: afterwards the worker is awake or the location is reset. */
    method UpdateLocation(t: nat, name: Name)
      requires t < |callers| && callers[t].Idle?
      modifies this
      ensures newLocation == name && callers == old(callers)
      ensures Abs() == Next(Next(old(Abs()), Store(t, name)), if name == "" then Clear(t) else Notify(t))
      ensures if name == "" then nowLocation == "" else !worker.Blocked?
      ensures old(Linked(Abs())) ==> Linked(Abs())
    {
      LinkedUpdate(Abs(), t, name);
      StoreNew(t, name);
      if |name| == 0 {
        ClearNow(t);
        return;
      }
      NotifyOne(t);
    }

    /**
    The worker's loop while no caller interferes, from wherever it stands until it waits: every location it sends
    starts where the last one ended, and it waits on the latest one.
    */
    method RecordByLocation(stamp: string)
      requires !worker.Blocked? && Linked(Abs())
      modifies this
      ensures worker.Blocked? && nowLocation == newLocation == old(newLocation) && callers == old(callers)
      ensures Linked(Abs()) && (newLocation != "" ==> LastEnd(sent) == newLocation)
      ensures old(sent) <= sent && |sent| <= |old(sent)| + 2
    {
      while !worker.Blocked?
        invariant Linked(Abs())
        invariant newLocation == old(newLocation) && callers == old(callers)
        invariant worker.Blocked? ==> nowLocation == newLocation
        invariant old(sent) <= sent && |sent| + SendsLeft(Abs()) <= |old(sent)| + 2
        decreases StepsLeft(Abs())
      {
        match worker
        case Ready =>
          LinkedStep(Abs(), Look);
          Wait();
        case Copied(_, _) =>
          LinkedStep(Abs(), Announce);
          var filename := Emit(stamp);
        case Announced(_) =>
          LinkedStep(Abs(), Commit);
          Record();
      }
    }
  }

  lemma LinkedUpdate(s: State, t: nat, name: Name)
    requires Enabled(s, Store(t, name))
    ensures
      var s' := Next(Next(s, Store(t, name)), if name == "" then Clear(t) else Notify(t));
      Linked(s) ==> Linked(s')
  {
    if Linked(s) {
      LinkedStep(s, Store(t, name));
      LinkedStep(Next(s, Store(t, name)), if name == "" then Clear(t) else Notify(t));
    }
  }

  /** Worker steps until it waits, when the recorded location is or will be `at`. */
  function FromReady(s: State, at: Name): nat { if at == s.latest then 1 else 4 }

  function StepsLeft(s: State): nat {
    match s.worker
    case Blocked => 0
    case Ready => FromReady(s, s.recorded)
    case Copied(to, _) => 2 + FromReady(s, to)
    case Announced(to) => 1 + FromReady(s, to)
  }

  function SendsLeft(s: State): nat {
    match s.worker
    case Blocked => 0
    case Ready => if s.recorded == s.latest then 0 else 1
    case Copied(to, _) => if to == s.latest then 1 else 2
    case Announced(to) => if to == s.latest then 0 else 1
  }
}
