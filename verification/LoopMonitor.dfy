/**
Accounting of an event loop: how long it was busy and how long it slept, per reporting period, and the alarms a
report raises. The clock counts nanoseconds; the timer reads whole milliseconds and drops the rest when it is
restarted. Reading and restarting are two calls, so every event carries two clock readings.
*/
module LoopMonitor {
  import opened Common

  const MILLI := 1000000
  const HEAVY := 200
  const HEAVY_AWAKE_LIMIT := 10

  datatype Event =
    | AboutToBlock(elapsedAt: nat, restartAt: nat)
    | Awake(elapsedAt: nat, restartAt: nat)
    | Report

  /**
  What earlier reports have told; two losses in nanoseconds, `slipped` between reading the timer and restarting it and
  `dropped`, the parts of a millisecond that a reading leaves out; and the durations measured in the current period.
  */
  datatype Log = Log(reported: nat, slipped: nat, dropped: nat, busy: seq<nat>, asleep: seq<nat>)

  /** The monitor's fields, durations in milliseconds, `timer` the nanosecond of the last restart. */
  datatype State = State(
    timer: nat, awakeCount: nat, blockCount: nat, activeTime: nat, blockTime: nat, maxAwake: nat, maxBlock: nat,
    heavyAwake: nat, heavyBlock: nat, log: Log)

  function Init(start: nat): State { State(start, 0, 0, 0, 0, 0, 0, 0, 0, Log(0, 0, 0, [], [])) }

  predicate Enabled(s: State, e: Event) { e.Report? || s.timer <= e.elapsedAt <= e.restartAt }

  /** What the timer reads after a number of nanoseconds. */
  function Millis(nanos: nat): nat { nanos / MILLI }

  function Larger(a: nat, b: nat): nat { if a > b then a else b }

  function Lost(s: State, at: nat, restart: nat): Log
    requires s.timer <= at <= restart
  {
    s.log.(slipped := s.log.slipped + (restart - at), dropped := s.log.dropped + (at - s.timer) % MILLI)
  }

  function Next(s: State, e: Event): State
    requires Enabled(s, e)
  {
    match e
    case AboutToBlock(at, restart) =>
      var elapsed := Millis(at - s.timer);
      s.(timer := restart, blockCount := s.blockCount + 1, activeTime := s.activeTime + elapsed,
         maxAwake := Larger(elapsed, s.maxAwake), heavyAwake := s.heavyAwake + (if elapsed > HEAVY then 1 else 0),
         log := Lost(s, at, restart).(busy := s.log.busy + [elapsed]))
    case Awake(at, restart) =>
      var elapsed := Millis(at - s.timer);
      s.(timer := restart, awakeCount := s.awakeCount + 1, blockTime := s.blockTime + elapsed,
         maxBlock := Larger(elapsed, s.maxBlock), heavyBlock := s.heavyBlock + (if elapsed > HEAVY then 1 else 0),
         log := Lost(s, at, restart).(asleep := s.log.asleep + [elapsed]))
    case Report =>
      var told := s.log.reported + s.activeTime + s.blockTime;
      State(s.timer, 0, 0, 0, 0, 0, 0, 0, 0, s.log.(reported := told, busy := [], asleep := []))
  }

  function Exec(start: nat, run: seq<Event>): Option<State> {
    if run == [] then Some(Init(start))
    else
      var n := |run| - 1;
      match Exec(start, run[..n])
      case None => None
      case Some(s) => if Enabled(s, run[n]) then Some(Next(s, run[n])) else None
  }

  // ----- time is conserved -----

  /** The time of the last restart, if any. */
  function LastTime(start: nat, run: seq<Event>): nat {
    if run == [] then start
    else
      var e := run[|run| - 1];
      if e.Report? then LastTime(start, run[..|run| - 1]) else e.restartAt
  }

  function Turns(run: seq<Event>): nat {
    if run == [] then 0 else Turns(run[..|run| - 1]) + (if run[|run| - 1].Report? then 0 else 1)
  }

  /** Event i of the run comes a whole number of milliseconds after the last restart and restarts at once. */
  ghost predicate OnTheDot(start: nat, run: seq<Event>, i: nat)
    requires i < |run|
  {
    !run[i].Report? ==>
      run[i].elapsedAt == run[i].restartAt && (run[i].elapsedAt - LastTime(start, run[..i])) % MILLI == 0
  }

  /** Everything reported and current, and the two losses, add up to the time from init to the last event. */
  ghost predicate TimeAccounted(start: nat, run: seq<Event>, s: State) {
    && s.timer == LastTime(start, run)
    && (s.log.reported + s.activeTime + s.blockTime) * MILLI + s.log.slipped + s.log.dropped
       == LastTime(start, run) - start
    && (if Turns(run) == 0 then s.log.dropped == 0 else s.log.dropped < Turns(run) * MILLI)
  }

  lemma AccountedStep(start: nat, run: seq<Event>, s: State, e: Event)
    requires TimeAccounted(start, run, s) && Enabled(s, e)
    ensures TimeAccounted(start, run + [e], Next(s, e))
  {
    assert (run + [e])[..|run|] == run;
    if !e.Report? {
      var gap := e.elapsedAt - s.timer;
      assert gap == Millis(gap) * MILLI + gap % MILLI;
    }
  }

  lemma DotBefore(start: nat, run: seq<Event>, n: nat)
    requires n <= |run|
    ensures
      (forall i :: 0 <= i < n ==> OnTheDot(start, run[..n], i))
      <==> (forall i :: 0 <= i < n ==> OnTheDot(start, run, i))
  {
    forall i | 0 <= i < n
      ensures OnTheDot(start, run[..n], i) == OnTheDot(start, run, i)
    {
      assert run[..n][..i] == run[..i];
    }
  }

  /**
  The times lose less than a millisecond per event besides what slips between the two calls, and lose nothing exactly
  when every event comes on a whole millisecond and restarts the timer at once.
  */
  lemma {:induction false} TimeConserved(start: nat, run: seq<Event>)
    requires Exec(start, run).Some?
    ensures
      var s := Exec(start, run).value;
      && TimeAccounted(start, run, s)
      && (s.log.slipped + s.log.dropped == 0 <==> forall i :: 0 <= i < |run| ==> OnTheDot(start, run, i))
  {
    if run != [] {
      var n := |run| - 1;
      var s := Exec(start, run[..n]).value;
      TimeConserved(start, run[..n]);
      assert run == run[..n] + [run[n]];
      AccountedStep(start, run[..n], s, run[n]);
      DotBefore(start, run, n);
      hide TimeAccounted;
      LossStep(s, run[n]);
      assert OnTheDot(start, run, n) <==> Prompt(s, run[n]);
    }
  }

  predicate Prompt(s: State, e: Event)
    requires Enabled(s, e)
  {
    !e.Report? ==> e.elapsedAt == e.restartAt && (e.elapsedAt - s.timer) % MILLI == 0
  }

  lemma LossStep(s: State, e: Event)
    requires Enabled(s, e)
    ensures
      var s' := Next(s, e);
      s'.log.slipped + s'.log.dropped == 0 <==> s.log.slipped + s.log.dropped == 0 && Prompt(s, e)
  {
  }

  // ----- a period's figures are those of its durations -----

  function Sum(q: seq<nat>): nat { if q == [] then 0 else Sum(q[..|q| - 1]) + q[|q| - 1] }

  function Heavy(q: seq<nat>): nat {
    if q == [] then 0 else Heavy(q[..|q| - 1]) + (if q[|q| - 1] > HEAVY then 1 else 0)
  }

  /** Total, count of heavy ones, number and largest of a sequence of durations. */
  ghost predicate Figures(q: seq<nat>, total: nat, count: nat, heavy: nat, max: nat) {
    && total == Sum(q) && count == |q| && heavy == Heavy(q)
    && (forall d :: d in q ==> d <= max)
    && (if q == [] then max == 0 else max in q)
  }

  lemma FiguresMore(q: seq<nat>, total: nat, count: nat, heavy: nat, max: nat, d: nat)
    requires Figures(q, total, count, heavy, max)
    ensures
      Figures(q + [d], total + d, count + 1, heavy + (if d > HEAVY then 1 else 0), Larger(d, max))
  {
    assert (q + [d])[..|q|] == q;
  }

  ghost predicate Exact(s: State) {
    && Figures(s.log.busy, s.activeTime, s.blockCount, s.heavyAwake, s.maxAwake)
    && Figures(s.log.asleep, s.blockTime, s.awakeCount, s.heavyBlock, s.maxBlock)
  }

  lemma NoFigures()
    ensures Figures([], 0, 0, 0, 0)
  {
  }

  lemma LostKeeps(s: State, at: nat, restart: nat)
    requires s.timer <= at <= restart
    ensures Lost(s, at, restart).busy == s.log.busy && Lost(s, at, restart).asleep == s.log.asleep
  {
  }

  lemma ExactStep(s: State, e: Event)
    requires Enabled(s, e) && Exact(s)
    ensures Exact(Next(s, e))
  {
    hide Figures, Larger, Millis, Lost;
    NoFigures();
    match e
    case AboutToBlock(at, restart) =>
      LostKeeps(s, at, restart);
      FiguresMore(s.log.busy, s.activeTime, s.blockCount, s.heavyAwake, s.maxAwake, Millis(at - s.timer));
    case Awake(at, restart) =>
      LostKeeps(s, at, restart);
      FiguresMore(s.log.asleep, s.blockTime, s.awakeCount, s.heavyBlock, s.maxBlock, Millis(at - s.timer));
    case Report =>
  }

  lemma {:induction false} PeriodExact(start: nat, run: seq<Event>)
    requires Exec(start, run).Some?
    ensures Exact(Exec(start, run).value)
  {
    if run != [] {
      var n := |run| - 1;
      PeriodExact(start, run[..n]);
      ExactStep(Exec(start, run[..n]).value, run[n]);
    }
  }

  /**
  Read off the run: the whole milliseconds since the last restart at each block event, or each wake event, of the
  current period.
  */
  function Measured(start: nat, run: seq<Event>, blocks: bool): seq<int> {
    if run == [] || run[|run| - 1].Report? then []
    else
      var front, e := run[..|run| - 1], run[|run| - 1];
      Measured(start, front, blocks)
      + (if e.AboutToBlock? == blocks then [(e.elapsedAt - LastTime(start, front)) / 1000000] else [])
  }

  /** Busy stretches end at block events and sleeps at wake events. */
  lemma {:induction false} PeriodRead(start: nat, run: seq<Event>)
    requires Exec(start, run).Some?
    ensures
      var s := Exec(start, run).value;
      s.log.busy == Measured(start, run, true) && s.log.asleep == Measured(start, run, false)
  {
    if run != [] {
      var n := |run| - 1;
      PeriodRead(start, run[..n]);
      TimeConserved(start, run[..n]);
    }
  }

  // ----- the alarms -----

  /** Awake events per block event, compared with the threshold as the report computes it. */
  predicate RatioAlarm(s: State) {
    if s.blockCount == 0 then s.awakeCount as real > 3.0
    else s.awakeCount as real / s.blockCount as real > 3.0
  }

  predicate ActiveAlarm(s: State) {
    var total := (s.activeTime + s.blockTime) as real;
    (if total > 0.0 then s.activeTime as real / total else 0.0) > 0.7
  }

  predicate HeavyAlarm(s: State) { s.heavyAwake >= HEAVY_AWAKE_LIMIT }

  lemma Quotient(a: real, b: real, c: real)
    requires b > 0.0
    ensures a / b > c <==> a > c * b
  {
    var q := a / b;
    assert q * b == a;
    if q > c {
      assert (q - c) * b > 0.0;
    } else {
      assert (c - q) * b >= 0.0;
    }
  }

  /** The alarms in whole numbers. */
  lemma AlarmsExactly(s: State)
    ensures RatioAlarm(s) <==> s.awakeCount > 3 * Larger(s.blockCount, 1)
    ensures ActiveAlarm(s) <==> 3 * s.activeTime > 7 * s.blockTime
  {
    if s.blockCount > 0 {
      Quotient(s.awakeCount as real, s.blockCount as real, 3.0);
    }
    if s.activeTime + s.blockTime > 0 {
      Quotient(s.activeTime as real, (s.activeTime + s.blockTime) as real, 0.7);
    }
  }

  ghost predicate Neighbours(run: seq<Event>, i: nat, j: nat) {
    i < j < |run| && !run[i].Report? && !run[j].Report? && forall k :: i < k < j ==> run[k].Report?
  }

  /** Blocking and waking take turns, whatever reports come in between. */
  ghost predicate Alternating(run: seq<Event>) {
    forall i: nat, j: nat :: Neighbours(run, i, j) ==> run[i].Awake? != run[j].Awake?
  }

  /** The last event that is not a report. */
  function LastTurn(run: seq<Event>): Option<Event> {
    if run == [] then None
    else if run[|run| - 1].Report? then LastTurn(run[..|run| - 1])
    else Some(run[|run| - 1])
  }

  lemma {:induction false} LastTurnAt(run: seq<Event>) returns (i: nat)
    requires LastTurn(run).Some?
    ensures i < |run| && run[i] == LastTurn(run).value && !run[i].Report?
    ensures forall k :: i < k < |run| ==> run[k].Report?
  {
    var n := |run| - 1;
    if run[n].Report? {
      i := LastTurnAt(run[..n]);
    } else {
      i := n;
    }
  }

  lemma AlternatingFront(run: seq<Event>)
    requires run != [] && Alternating(run)
    ensures Alternating(run[..|run| - 1])
    ensures
      var last := run[|run| - 1];
      var before := LastTurn(run[..|run| - 1]);
      !last.Report? && before.Some? ==> before.value.Awake? != last.Awake?
  {
    var n := |run| - 1;
    var front := run[..n];
    forall i: nat, j: nat | Neighbours(front, i, j)
      ensures front[i].Awake? != front[j].Awake?
    {
      assert forall k :: i < k < j ==> front[k] == run[k];
      assert Neighbours(run, i, j);
    }
    if !run[n].Report? && LastTurn(front).Some? {
      var i := LastTurnAt(front);
      assert forall k :: i < k < n ==> run[k] == front[k];
      assert Neighbours(run, i, n);
    }
  }

  /** Within a period one kind is ahead by at most one, and then it came last. */
  predicate Balanced(s: State, last: Option<Event>) {
    && s.blockCount <= s.awakeCount + 1 && s.awakeCount <= s.blockCount + 1
    && (s.awakeCount > s.blockCount ==> last.Some? && last.value.Awake?)
    && (s.blockCount > s.awakeCount ==> last.Some? && last.value.AboutToBlock?)
  }

  lemma {:induction false} BalancedAlways(start: nat, run: seq<Event>)
    requires Exec(start, run).Some? && Alternating(run)
    ensures Balanced(Exec(start, run).value, LastTurn(run))
  {
    if run != [] {
      AlternatingFront(run);
      BalancedAlways(start, run[..|run| - 1]);
    }
  }

  /** With a strictly alternating dispatcher awake events never exceed twice the block events once there is one... */
  lemma RatioAlarmSilent(start: nat, run: seq<Event>)
    requires Exec(start, run).Some? && Alternating(run)
    ensures
      var s := Exec(start, run).value;
      s.awakeCount <= 2 * Larger(s.blockCount, 1) && !RatioAlarm(s)
  {
    BalancedAlways(start, run);
    AlarmsExactly(Exec(start, run).value);
  }

  lemma OneMore(start: nat, run: seq<Event>, s: State, e: Event) returns (longer: seq<Event>, s': State)
    requires Exec(start, run) == Some(s) && Enabled(s, e)
    ensures longer == run + [e] && Exec(start, longer) == Some(s') && s' == Next(s, e)
  {
    longer, s' := run + [e], Next(s, e);
    assert longer[..|run|] == run;
  }

  lemma ThreeTurns(a: Event, b: Event, c: Event)
    requires a.Awake? && b.AboutToBlock? && c.Awake?
    ensures Alternating([a, b, c])
  {
    var run := [a, b, c];
    forall i: nat, j: nat | Neighbours(run, i, j)
      ensures run[i].Awake? != run[j].Awake?
    {
      assert !run[1].Report?;
    }
  }

  /** ...and two is reached: the first period after a report can hold wake, block, wake. */
  lemma RatioTwoReached()
    ensures
      exists run ::
        && Alternating(run) && Exec(0, run).Some?
        && Exec(0, run).value.blockCount == 1 && Exec(0, run).value.awakeCount == 2
  {
    var run, s := [], Init(0);
    assert Exec(0, run) == Some(s);
    hide Exec, Alternating;
    run, s := OneMore(0, run, s, Awake(1, 1));
    run, s := OneMore(0, run, s, AboutToBlock(2, 2));
    run, s := OneMore(0, run, s, Awake(3, 3));
    assert run == [Awake(1, 1), AboutToBlock(2, 2), Awake(3, 3)];
    ThreeTurns(Awake(1, 1), AboutToBlock(2, 2), Awake(3, 3));
  }

  /** How many durations exceed a limit. */
  function Above(q: seq<nat>, limit: nat): nat {
    if q == [] then 0 else (if q[0] > limit then 1 else 0) + Above(q[1..], limit)
  }

  lemma {:induction false} AboveLast(q: seq<nat>, d: nat, limit: nat)
    ensures Above(q + [d], limit) == Above(q, limit) + if d > limit then 1 else 0
  {
    if q != [] {
      assert (q + [d])[1..] == q[1..] + [d];
      AboveLast(q[1..], d, limit);
    } else {
      assert (q + [d])[1..] == [];
    }
  }

  lemma {:induction false} HeavyIsAbove(q: seq<nat>)
    ensures Heavy(q) == Above(q, 200)
  {
    if q != [] {
      var n := |q| - 1;
      HeavyIsAbove(q[..n]);
      AboveLast(q[..n], q[n], 200);
      assert q == q[..n] + [q[n]];
    }
  }

  /** The heavy alarm holds exactly when at least ten busy stretches of the period lasted longer than 200 ms. */
  lemma HeavyExactly(start: nat, run: seq<Event>)
    requires Exec(start, run).Some?
    ensures
      var s := Exec(start, run).value;
      && (HeavyAlarm(s) <==> Above(s.log.busy, 200) >= 10)
      && s.heavyAwake == Above(s.log.busy, 200) && s.heavyBlock == Above(s.log.asleep, 200)
  {
    PeriodExact(start, run);
    HeavyIsAbove(Exec(start, run).value.log.busy);
    HeavyIsAbove(Exec(start, run).value.log.asleep);
  }

  lemma {:induction false} HeavySum(q: seq<nat>)
    ensures (HEAVY + 1) * Heavy(q) <= Sum(q)
  {
    if q != [] {
      HeavySum(q[..|q| - 1]);
    }
  }

  /** The alarm for heavy awake events means more than two seconds of busy time in the period. */
  lemma HeavyMeansBusy(start: nat, run: seq<Event>)
    requires Exec(start, run).Some? && HeavyAlarm(Exec(start, run).value)
    ensures Exec(start, run).value.activeTime >= 2010
  {
    PeriodExact(start, run);
    HeavySum(Exec(start, run).value.log.busy);
  }

  class EventLoopMonitor {
    var timer: nat
    var awakeCount: nat
    var blockCount: nat
    var activeTime: nat
    var blockTime: nat
    var maxAwakeDuration: nat
    var maxBlockDuration: nat
    var heavyAwakeCount: nat
    var heavyBlockCount: nat
    ghost var log: Log

    ghost function Abs(): State
      reads this
    {
      State(timer, awakeCount, blockCount, activeTime, blockTime, maxAwakeDuration, maxBlockDuration, heavyAwakeCount,
            heavyBlockCount, log)
    }

    constructor (start: nat)
      ensures Abs() == Init(start)
    {
      timer, awakeCount, blockCount, activeTime, blockTime := start, 0, 0, 0, 0;
      maxAwakeDuration, maxBlockDuration, heavyAwakeCount, heavyBlockCount := 0, 0, 0, 0;
      log := Log(0, 0, 0, [], []);
    }

    method OnAboutToBlock(elapsedAt: nat, restartAt: nat)
      requires Enabled(Abs(), AboutToBlock(elapsedAt, restartAt))
      modifies this
      ensures Abs() == Next(old(Abs()), AboutToBlock(elapsedAt, restartAt))
      ensures old(Exact(Abs())) ==> Exact(Abs())
    {
      if Exact(Abs()) {
        ExactStep(Abs(), AboutToBlock(elapsedAt, restartAt));
      }
      hide Exact;
      var elapsed := Millis(elapsedAt - timer);
      log := Lost(Abs(), elapsedAt, restartAt);
      activeTime := activeTime + elapsed;
      blockCount := blockCount + 1;
      if elapsed > maxAwakeDuration {
        maxAwakeDuration := elapsed;
      }
      if elapsed > HEAVY {
        heavyAwakeCount := heavyAwakeCount + 1;
      }
      timer := restartAt;
      log := log.(busy := log.busy + [elapsed]);
    }

    method OnAwake(elapsedAt: nat, restartAt: nat)
      requires Enabled(Abs(), Awake(elapsedAt, restartAt))
      modifies this
      ensures Abs() == Next(old(Abs()), Awake(elapsedAt, restartAt))
      ensures old(Exact(Abs())) ==> Exact(Abs())
    {
      if Exact(Abs()) {
        ExactStep(Abs(), Awake(elapsedAt, restartAt));
      }
      hide Exact;
      var elapsed := Millis(elapsedAt - timer);
      log := Lost(Abs(), elapsedAt, restartAt);
      blockTime := blockTime + elapsed;
      awakeCount := awakeCount + 1;
      if elapsed > maxBlockDuration {
        maxBlockDuration := elapsed;
      }
      if elapsed > HEAVY {
        heavyBlockCount := heavyBlockCount + 1;
      }
      timer := restartAt;
      log := log.(asleep := log.asleep + [elapsed]);
    }

    /** The report's comparisons. */
    method NeedEmergency() returns (needEmergency: bool)
      ensures needEmergency <==> RatioAlarm(Abs()) || ActiveAlarm(Abs()) || HeavyAlarm(Abs())
    {
      needEmergency := false;
      var awakeBlockRatio := if blockCount == 0 then awakeCount as real else awakeCount as real / blockCount as real;
      if awakeBlockRatio > 3.0 {
        needEmergency := true;
      }
      var totalDuration := (activeTime + blockTime) as real;
      var activeRatio := if totalDuration > 0.0 then activeTime as real / totalDuration else 0.0;
      if activeRatio > 0.7 {
        needEmergency := true;
      }
      if heavyAwakeCount >= HEAVY_AWAKE_LIMIT {
        needEmergency := true;
      }
    }

    method ResetPeriod()
      modifies this
      ensures Abs() == Next(old(Abs()), Report)
    {
      log := log.(reported := log.reported + activeTime + blockTime, busy := [], asleep := []);
      awakeCount, blockCount, activeTime, blockTime := 0, 0, 0, 0;
      maxAwakeDuration, maxBlockDuration, heavyAwakeCount, heavyBlockCount := 0, 0, 0, 0;
    }

    method ReportStatistics() returns (needEmergency: bool)
      modifies this
      ensures Abs() == Next(old(Abs()), Report)
      ensures
        needEmergency <==>
        RatioAlarm(old(Abs())) || ActiveAlarm(old(Abs())) || HeavyAlarm(old(Abs()))
      ensures HeavyAlarm(old(Abs())) <==> old(heavyAwakeCount) >= 10
    {
      hide RatioAlarm, ActiveAlarm, Next;
      needEmergency := NeedEmergency();
      ResetPeriod();
    }
  }
}
