/**
The pre/post-roll clip recorder: a producer pushes frames into a rolling buffer of the last `cap` frames and,
while a recording is open, into a second buffer; a saver thread snapshots the first, waits, and closes the second.

Frames are numbered in the order they are pushed. Both recorder variants run this machine; they differ only in
whether `stopRecord` resets the recording flag.
*/
module ClipRecorder {
  import opened Common

  type Frame = nat

  /** Where the producer stands inside one push. */
  datatype Producer = Ready | AtPre(f: Frame) | AtCheck(f: Frame) | AtPost(f: Frame)

  /** Where the saver thread stands. */
  datatype Saver =
    | Free
    | Started
    | PreMarked
    | BothMarked
    | Encoding(head: seq<Frame>)
    | Waiting(head: seq<Frame>)
    | Failed
    | Closed(head: seq<Frame>, tail: seq<Frame>)
    | Finishing(head: seq<Frame>, tail: seq<Frame>)

  datatype State = State(
    cap: nat,
    isRecording: bool,
    isPreRecording: bool,
    isBeforeRecording: bool,
    pre: seq<Frame>,
    post: seq<Frame>,
    next: nat,
    producer: Producer,
    saver: Saver,
    clips: seq<seq<Frame>>)

  function Init(cap: nat): State {
    State(cap, false, false, false, [], [], 0, Ready, Free, [])
  }

  /** The last `n` elements. */
  function Last(s: seq<Frame>, n: nat): seq<Frame> {
    if |s| <= n then s else s[|s| - n..]
  }

  datatype Action =
    // producer
    | ReadPre | AddPre | ReadBefore | AddPost
    // controller
    | Start | Stop(resets: bool)
    // saver
    | MarkPre | MarkBefore | CopyPre | InitFails | ClearFailed | PreEncoded | Close | ClearPost | Finish

  predicate HoldsPreLock(s: State) {
    s.saver.PreMarked? || s.saver.BothMarked?
  }

  predicate Enabled(s: State, a: Action) {
    match a
    case ReadPre => s.producer.Ready?
    case AddPre => s.producer.AtPre? && !HoldsPreLock(s)
    case ReadBefore => s.producer.AtCheck?
    case AddPost => s.producer.AtPost?
    case Start => s.isRecording || s.saver.Free?
    case Stop(_) => true
    case MarkPre => s.saver.Started?
    case MarkBefore => s.saver.PreMarked?
    case CopyPre => s.saver.BothMarked?
    case InitFails => s.saver.Encoding?
    case ClearFailed => s.saver.Failed?
    case PreEncoded => s.saver.Encoding?
    case Close => s.saver.Waiting?
    case ClearPost => s.saver.Closed?
    case Finish => s.saver.Finishing?
  }

  /** The state after one step; a start while a recording is in progress is refused. */
  function Next(s: State, a: Action): State
    requires Enabled(s, a)
  {
    match a
    case ReadPre => s.(next := s.next + 1, producer := if s.isPreRecording then AtCheck(s.next) else AtPre(s.next))
    case AddPre => s.(pre := Last(s.pre + [s.producer.f], s.cap), producer := AtCheck(s.producer.f))
    case ReadBefore => s.(producer := if s.isBeforeRecording then AtPost(s.producer.f) else Ready)
    case AddPost => s.(post := s.post + [s.producer.f], producer := Ready)
    case Start => if s.isRecording then s else s.(isRecording := true, saver := Started)
    case Stop(resets) => if resets then s.(isRecording := false) else s
    case MarkPre => s.(isPreRecording := true, saver := PreMarked)
    case MarkBefore => s.(isBeforeRecording := true, saver := BothMarked)
    case CopyPre => s.(saver := Encoding(s.pre))
    case InitFails => s.(isRecording := false, isPreRecording := false, isBeforeRecording := false, saver := Failed)
    case ClearFailed => s.(post := [], saver := Free)
    case PreEncoded => s.(isPreRecording := false, saver := Waiting(s.saver.head))
    case Close => s.(isBeforeRecording := false, saver := Closed(s.saver.head, s.post))
    case ClearPost => s.(post := [], saver := Finishing(s.saver.head, s.saver.tail))
    case Finish => s.(isRecording := false, saver := Free, clips := s.clips + [s.saver.head + s.saver.tail])
  }

  /** The state after a run of single steps, or none when some step of it cannot happen. */
  function Exec(cap: nat, run: seq<Action>): Option<State> {
    if run == [] then Some(Init(cap))
    else
      var n := |run| - 1;
      match Exec(cap, run[..n])
      case None => None
      case Some(s) => if Enabled(s, run[n]) then Some(Next(s, run[n])) else None
  }

  // ----- pushes as single steps -----

  datatype Event = Push | Snapshot | Step(a: Action)

  predicate Coarse(a: Action) {
    a.Start? || a.Stop? || a.InitFails? || a.ClearFailed? || a.PreEncoded? || a.Close? || a.ClearPost? || a.Finish?
  }

  predicate Allowed(s: State, e: Event) {
    match e
    case Push => s.producer.Ready? && !HoldsPreLock(s)
    case Snapshot => s.saver.Started?
    case Step(a) => Coarse(a) && Enabled(s, a)
  }

  /** One push, or the locked snapshot, performed without interruption. */
  function Do(s: State, e: Event): State
    requires Allowed(s, e)
  {
    match e
    case Push =>
      var s1 := Next(s, ReadPre);
      var s2 := if s1.producer.AtPre? then Next(s1, AddPre) else s1;
      var s3 := Next(s2, ReadBefore);
      if s3.producer.AtPost? then Next(s3, AddPost) else s3
    case Snapshot => Next(Next(Next(s, MarkPre), MarkBefore), CopyPre)
    case Step(a) => Next(s, a)
  }

  function Play(cap: nat, events: seq<Event>): Option<State> {
    if events == [] then Some(Init(cap))
    else
      var n := |events| - 1;
      match Play(cap, events[..n])
      case None => None
      case Some(s) => if Allowed(s, events[n]) then Some(Do(s, events[n])) else None
  }

  /** How many frames the events push. */
  function Pushes(events: seq<Event>): nat {
    if events == [] then 0
    else Pushes(events[..|events| - 1]) + if events[|events| - 1].Push? then 1 else 0
  }

  /** Read off the events alone: the rolling buffer is frozen from a snapshot until its frames are encoded. */
  predicate Frozen(events: seq<Event>) {
    if events == [] then false
    else
      var e := events[|events| - 1];
      if e.Snapshot? then true
      else if e == Step(PreEncoded) || e == Step(InitFails) then false
      else Frozen(events[..|events| - 1])
  }

  /** The frames pushed while the rolling buffer was not frozen, in order. */
  function Rolled(events: seq<Event>): seq<Frame> {
    if events == [] then []
    else
      var before := events[..|events| - 1];
      Rolled(before) + if events[|events| - 1].Push? && !Frozen(before) then [Pushes(before)] else []
  }

  function Range(lo: nat, hi: nat): (r: seq<Frame>)
    ensures |r| == if lo <= hi then hi - lo else 0
    ensures forall i :: 0 <= i < |r| ==> r[i] == lo + i
  {
    if lo >= hi then [] else Range(lo, hi - 1) + [hi - 1]
  }

  // ----- what a clip is when pushes are single steps -----

  ghost predicate CoarseInv(events: seq<Event>, s: State) {
    && s.producer.Ready? && !HoldsPreLock(s)
    && s.next == Pushes(events)
    && s.isPreRecording == Frozen(events) == s.saver.Encoding?
    && s.isBeforeRecording == (s.saver.Encoding? || s.saver.Waiting?)
    && s.pre == Last(Rolled(events), s.cap)
    && (s.saver.Free? || s.saver.Started? || s.saver.Finishing? ==> s.post == [])
  }

  lemma Grown(events: seq<Event>, e: Event)
    ensures Pushes(events + [e]) == Pushes(events) + if e.Push? then 1 else 0
    ensures Frozen(events + [e])
            == (e.Snapshot? || (e != Step(PreEncoded) && e != Step(InitFails) && Frozen(events)))
    ensures Rolled(events + [e]) == Rolled(events) + if e.Push? && !Frozen(events) then [Pushes(events)] else []
  {
  }

  lemma LastOfLonger(s: seq<Frame>, f: Frame, n: nat)
    ensures Last(Last(s, n) + [f], n) == Last(s + [f], n)
  {
  }

  lemma DoPush(s: State)
    requires Allowed(s, Push)
    ensures Do(s, Push) == s.(
      next := s.next + 1,
      pre := if s.isPreRecording then s.pre else Last(s.pre + [s.next], s.cap),
      post := if s.isBeforeRecording then s.post + [s.next] else s.post)
  {
  }

  lemma CoarsePush(events: seq<Event>, s: State)
    requires CoarseInv(events, s) && Allowed(s, Push)
    ensures CoarseInv(events + [Push], Do(s, Push))
  {
    hide Rolled, Pushes, Frozen, Do;
    DoPush(s);
    Grown(events, Push);
    LastOfLonger(Rolled(events), s.next, s.cap);
  }

  lemma CoarseSnapshot(events: seq<Event>, s: State)
    requires CoarseInv(events, s) && Allowed(s, Snapshot)
    ensures Do(s, Snapshot) == s.(isPreRecording := true, isBeforeRecording := true, saver := Encoding(s.pre))
    ensures CoarseInv(events + [Snapshot], Do(s, Snapshot))
  {
  }

  lemma CoarseOther(events: seq<Event>, s: State, a: Action)
    requires CoarseInv(events, s) && Allowed(s, Step(a))
    ensures CoarseInv(events + [Step(a)], Next(s, a))
  {
    hide Rolled, Pushes, Frozen, Last;
    Grown(events, Step(a));
    assert Rolled(events + [Step(a)]) == Rolled(events);
  }

  lemma CoarseStep(events: seq<Event>, s: State, e: Event)
    requires CoarseInv(events, s) && Allowed(s, e)
    ensures CoarseInv(events + [e], Do(s, e)) && Do(s, e).cap == s.cap
  {
    hide CoarseInv;
    match e
    case Push => CoarsePush(events, s); DoPush(s);
    case Snapshot => CoarseSnapshot(events, s);
    case Step(a) => CoarseOther(events, s, a);
  }

  lemma {:induction false} CoarseRun(cap: nat, events: seq<Event>)
    requires Play(cap, events).Some?
    ensures CoarseInv(events, Play(cap, events).value) && Play(cap, events).value.cap == cap
  {
    if events != [] {
      hide Do, Allowed, CoarseInv;
      var before, e := events[..|events| - 1], events[|events| - 1];
      assert before + [e] == events;
      CoarseRun(cap, before);
      CoarseStep(before, Play(cap, before).value, e);
    }
  }

  lemma PlayPrefix(cap: nat, events: seq<Event>, e: Event)
    requires Play(cap, events + [e]).Some?
    ensures Play(cap, events).Some? && Allowed(Play(cap, events).value, e)
    ensures Play(cap, events + [e]).value == Do(Play(cap, events).value, e)
  {
  }

  /** From a snapshot until the close, whatever happens in between. */
  lemma {:induction false} WhileOpen(cap: nat, a: seq<Event>, b: seq<Event>)
    requires Play(cap, a + [Snapshot] + b).Some?
    requires forall e :: e in b ==> e != Step(Close) && e != Step(InitFails)
    ensures
      var s := Play(cap, a + [Snapshot] + b).value;
      && (s.saver == Encoding(Last(Rolled(a), cap)) || s.saver == Waiting(Last(Rolled(a), cap)))
      && s.post == Range(Pushes(a), Pushes(a) + Pushes(b))
      && s.next == Pushes(a) + Pushes(b)
    decreases |b|
  {
    hide Play, Do, Rolled, Frozen, Last, Allowed;
    if b == [] {
      assert a + [Snapshot] + b == a + [Snapshot];
      PlayPrefix(cap, a, Snapshot);
      CoarseRun(cap, a);
      JustOpened(a, Play(cap, a).value);
    } else {
      var c, e := b[..|b| - 1], b[|b| - 1];
      var before := a + [Snapshot] + c;
      assert a + [Snapshot] + b == before + [e] && c + [e] == b;
      PlayPrefix(cap, before, e);
      assert e in b && forall x :: x in c ==> x in b;
      WhileOpen(cap, a, c);
      CoarseRun(cap, before);
      Grown(c, e);
      hide Range, Pushes, Enabled;
      OpenStep(Play(cap, before).value, e, Last(Rolled(a), cap), Pushes(a), Pushes(a) + Pushes(c));
    }
  }

  lemma JustOpened(a: seq<Event>, s: State)
    requires CoarseInv(a, s) && Allowed(s, Snapshot)
    ensures Do(s, Snapshot).saver == Encoding(Last(Rolled(a), s.cap))
    ensures Do(s, Snapshot).post == [] && Do(s, Snapshot).next == Pushes(a)
  {
  }

  lemma OpenStep(s: State, e: Event, head: seq<Frame>, lo: nat, hi: nat)
    requires Allowed(s, e) && e != Step(Close) && e != Step(InitFails) && lo <= hi
    requires (s.saver == Encoding(head) || s.saver == Waiting(head)) && s.isBeforeRecording
    requires s.post == Range(lo, hi) && s.next == hi
    ensures
      var s' := Do(s, e);
      && (s'.saver == Encoding(head) || s'.saver == Waiting(head))
      && s'.next == hi + (if e.Push? then 1 else 0) && s'.post == Range(lo, s'.next)
  {
    if e.Push? {
      DoPush(s);
      assert Range(lo, hi + 1) == Range(lo, hi) + [hi];
    }
  }

  /** Between the close and the end of the recording the clip does not change. */
  lemma {:induction false} WhileShut(cap: nat, events: seq<Event>, c: seq<Event>, head: seq<Frame>, tail: seq<Frame>)
    requires Play(cap, events + c).Some? && Play(cap, events).Some?
    requires Play(cap, events).value.saver == Closed(head, tail)
    requires forall e :: e in c ==> e != Step(Finish)
    ensures
      var s := Play(cap, events + c).value;
      && (s.saver == Closed(head, tail) || s.saver == Finishing(head, tail))
      && s.clips == Play(cap, events).value.clips
    decreases |c|
  {
    hide Play, Do, Allowed;
    if c == [] {
      assert events + c == events;
    } else {
      var d, e := c[..|c| - 1], c[|c| - 1];
      assert events + c == events + d + [e];
      PlayPrefix(cap, events + d, e);
      assert e in c && forall x :: x in d ==> x in c;
      WhileShut(cap, events, d, head, tail);
      ShutStep(Play(cap, events + d).value, e, head, tail);
    }
  }

  lemma ShutStep(s: State, e: Event, head: seq<Frame>, tail: seq<Frame>)
    requires Allowed(s, e) && e != Step(Finish)
    requires s.saver == Closed(head, tail) || s.saver == Finishing(head, tail)
    ensures
      var s' := Do(s, e);
      (s'.saver == Closed(head, tail) || s'.saver == Finishing(head, tail)) && s'.clips == s.clips
  {
    if e.Push? {
      DoPush(s);
    }
  }

  /** Every finished clip is exactly the last at most `cap` frames pushed while the rolling buffer was not
      frozen, followed by all frames pushed from the snapshot until the close. */
  lemma ClipExact(cap: nat, a: seq<Event>, b: seq<Event>, c: seq<Event>)
    requires Play(cap, a + [Snapshot] + b + [Step(Close)] + c + [Step(Finish)]).Some?
    requires forall e :: e in b ==> e != Step(Close) && e != Step(InitFails)
    requires forall e :: e in c ==> e != Step(Finish)
    ensures
      var clips := Play(cap, a + [Snapshot] + b + [Step(Close)] + c + [Step(Finish)]).value.clips;
      clips != [] && clips[|clips| - 1] == Last(Rolled(a), cap) + Range(Pushes(a), Pushes(a) + Pushes(b))
  {
    hide Play, Last, Range, Rolled, Pushes;
    var running := a + [Snapshot] + b;
    var shut := running + [Step(Close)];
    PlayPrefix(cap, shut + c, Step(Finish));
    PlaySome(cap, shut, c);
    PlayPrefix(cap, running, Step(Close));
    WhileOpen(cap, a, b);
    WhileShut(cap, shut, c, Last(Rolled(a), cap), Range(Pushes(a), Pushes(a) + Pushes(b)));
  }

  lemma {:induction false} PlaySome(cap: nat, events: seq<Event>, more: seq<Event>)
    requires Play(cap, events + more).Some?
    ensures Play(cap, events).Some?
    decreases |more|
  {
    if more == [] {
      assert events + more == events;
    } else {
      var d, e := more[..|more| - 1], more[|more| - 1];
      assert events + more == events + d + [e];
      PlayPrefix(cap, events + d, e);
      PlaySome(cap, events, d);
    }
  }

  ghost predicate Ascending(s: seq<Frame>) {
    forall i, j :: 0 <= i < j < |s| ==> s[i] < s[j]
  }

  lemma {:induction false} RolledAscending(events: seq<Event>)
    ensures Ascending(Rolled(events)) && forall f :: f in Rolled(events) ==> f < Pushes(events)
  {
    if events != [] {
      var before, e := events[..|events| - 1], events[|events| - 1];
      RolledAscending(before);
      assert before + [e] == events;
      Grown(before, e);
      forall i | 0 <= i < |Rolled(before)| ensures Rolled(before)[i] < Pushes(before) {
        assert Rolled(before)[i] in Rolled(before);
      }
    }
  }

  lemma LastAscending(s: seq<Frame>, n: nat)
    requires Ascending(s)
    ensures Ascending(Last(s, n)) && |Last(s, n)| <= n
    ensures forall f :: f in Last(s, n) ==> f in s
  {
  }

  /** Such a clip is in order, without repeats, with at most `cap` frames before the snapshot. */
  lemma ClipInOrder(cap: nat, a: seq<Event>, b: seq<Event>)
    ensures |Last(Rolled(a), cap)| <= cap
    ensures Ascending(Last(Rolled(a), cap) + Range(Pushes(a), Pushes(a) + Pushes(b)))
  {
    RolledAscending(a);
    var head, tail := Last(Rolled(a), cap), Range(Pushes(a), Pushes(a) + Pushes(b));
    LastAscending(Rolled(a), cap);
    forall i | 0 <= i < |head| ensures head[i] < Pushes(a) {
      assert head[i] in head;
    }
  }

  // ----- what a clip is when every access interleaves freely -----

  /** History of a run. `log` are the frames ever added to the rolling buffer and `copied` those before the last
      copy; `unread` is the first frame that had not read the first flag when it was raised, `mark` the first that
      had not read the second when that was raised; `stray` is what was added to the second buffer by a push that
      had read its flag in an earlier recording; `lead` and `end` describe the second buffer at the last close. */
  datatype History = History(
    log: seq<Frame>, copied: seq<Frame>, unread: nat, mark: nat, stray: seq<Frame>, lead: seq<Frame>, end: nat)

  /** The first frame whose push has not reached its second half. */
  function Done(s: State): nat {
    if s.producer.Ready? then s.next else s.producer.f
  }

  function FirstUnchecked(s: State): nat {
    if s.producer.AtPre? || s.producer.AtCheck? then s.producer.f else s.next
  }

  function NextHistory(s: State, h: History, a: Action): History
    requires Enabled(s, a)
  {
    match a
    case AddPre => h.(log := h.log + [s.producer.f])
    case AddPost => if s.isBeforeRecording && h.mark <= s.producer.f then h else h.(stray := h.stray + [s.producer.f])
    case MarkPre => h.(unread := s.next)
    case MarkBefore => h.(mark := FirstUnchecked(s))
    case CopyPre => h.(copied := h.log)
    case Close => h.(lead := h.stray, end := Done(s))
    case ClearPost => h.(stray := [])
    case ClearFailed => h.(stray := [])
    case _ => h
  }

  ghost predicate Numbers(s: State, h: History) {
    && (!s.producer.Ready? ==> s.producer.f + 1 == s.next)
    && Ascending(h.log)
    && (forall f :: f in h.log ==> f < s.next)
    && (s.producer.AtPre? ==> forall f :: f in h.log ==> f < s.producer.f)
    && s.pre == Last(h.log, s.cap)
  }

  predicate Recorded(sv: Saver) { sv.Encoding? || sv.Waiting? || sv.Closed? || sv.Finishing? }

  ghost predicate Heads(s: State, h: History) {
    && (s.saver.PreMarked? ==> s.isPreRecording && forall f :: f in h.log ==> f < h.unread)
    && (s.saver.BothMarked? ==> forall f :: f in h.log ==> f < h.unread && f <= h.mark)
    && (Recorded(s.saver) ==>
          && s.saver.head == Last(h.copied, s.cap) && Ascending(h.copied)
          && forall f :: f in h.copied ==> f < h.unread && f <= h.mark)
  }

  predicate Gathering(sv: Saver) { sv.BothMarked? || sv.Encoding? || sv.Waiting? }

  predicate Resting(sv: Saver) { sv.Free? || sv.Started? || sv.PreMarked? || sv.Finishing? }

  ghost predicate Tails(s: State, h: History) {
    && s.isBeforeRecording == Gathering(s.saver)
    && (Gathering(s.saver) ==>
          && s.post == h.stray + Range(h.mark, Done(s))
          && h.mark <= s.next && |h.stray| <= 1 && (forall f :: f in h.stray ==> f < h.mark)
          && (s.producer.AtPre? || s.producer.AtCheck? ==> h.mark <= s.producer.f)
          && (s.producer.AtPost? && s.producer.f < h.mark ==> h.stray == [] && h.mark == s.next))
    && (Resting(s.saver) ==>
          && s.post == h.stray && |h.stray| <= 1 && (forall f :: f in h.stray ==> f < s.next)
          && (s.producer.AtPre? || s.producer.AtCheck? ==> forall f :: f in h.stray ==> f < s.producer.f)
          && (s.producer.AtPost? ==> h.stray == []))
    && (s.saver.Closed? || s.saver.Finishing? ==>
          && s.saver.tail == h.lead + Range(h.mark, h.end)
          && |h.lead| <= 1 && forall f :: f in h.lead ==> f < h.mark)
  }

  ghost predicate FineInv(s: State, h: History) {
    Numbers(s, h) && Heads(s, h) && Tails(s, h)
  }

  lemma NumbersStep(s: State, h: History, a: Action)
    requires Numbers(s, h) && Enabled(s, a)
    ensures Numbers(Next(s, a), NextHistory(s, h, a))
  {
    if a.AddPre? {
      LastOfLonger(h.log, s.producer.f, s.cap);
      assert forall i :: 0 <= i < |h.log| ==> h.log[i] in h.log;
    }
  }

  lemma HeadsStep(s: State, h: History, a: Action)
    requires Numbers(s, h) && Heads(s, h) && Enabled(s, a)
    ensures Heads(Next(s, a), NextHistory(s, h, a))
  {
  }

  lemma TailsProducer(s: State, h: History, a: Action)
    requires Numbers(s, h) && Tails(s, h) && Enabled(s, a) && (a.ReadPre? || a.AddPre? || a.ReadBefore?)
    ensures Tails(Next(s, a), NextHistory(s, h, a))
  {
  }

  lemma TailsAddPost(s: State, h: History, a: Action)
    requires Numbers(s, h) && Tails(s, h) && Enabled(s, a) && a.AddPost?
    ensures Tails(Next(s, a), NextHistory(s, h, a))
  {
  }

  lemma TailsSaver(s: State, h: History, a: Action)
    requires Numbers(s, h) && Tails(s, h) && Enabled(s, a)
    requires !a.ReadPre? && !a.AddPre? && !a.ReadBefore? && !a.AddPost?
    ensures Tails(Next(s, a), NextHistory(s, h, a))
  {
  }

  lemma TailsStep(s: State, h: History, a: Action)
    requires Numbers(s, h) && Tails(s, h) && Enabled(s, a)
    ensures Tails(Next(s, a), NextHistory(s, h, a))
  {
    hide Tails;
    match a
    case ReadPre => TailsProducer(s, h, a);
    case AddPre => TailsProducer(s, h, a);
    case ReadBefore => TailsProducer(s, h, a);
    case AddPost => TailsAddPost(s, h, a);
    case _ => TailsSaver(s, h, a);
  }

  function HistoryOf(cap: nat, run: seq<Action>): History {
    if run == [] then History([], [], 0, 0, [], [], 0)
    else
      var n := |run| - 1;
      match Exec(cap, run[..n])
      case None => HistoryOf(cap, run[..n])
      case Some(s) =>
        if Enabled(s, run[n]) then NextHistory(s, HistoryOf(cap, run[..n]), run[n]) else HistoryOf(cap, run[..n])
  }

  lemma {:induction false} FineRun(cap: nat, run: seq<Action>)
    requires Exec(cap, run).Some?
    ensures FineInv(Exec(cap, run).value, HistoryOf(cap, run)) && Exec(cap, run).value.cap == cap
  {
    hide Numbers, Heads, Tails;
    if run == [] {
      StartOk(cap);
    } else {
      var n := |run| - 1;
      FineRun(cap, run[..n]);
      var s, h := Exec(cap, run[..n]).value, HistoryOf(cap, run[..n]);
      NumbersStep(s, h, run[n]);
      HeadsStep(s, h, run[n]);
      TailsStep(s, h, run[n]);
    }
  }

  lemma StartOk(cap: nat)
    ensures FineInv(Init(cap), HistoryOf(cap, []))
  {
  }

  // ----- what can be read off the run alone -----

  /** Frames are numbered by their reads of the first flag, and each push reads the second flag once. */
  function Reads(run: seq<Action>): nat {
    if run == [] then 0 else Reads(run[..|run| - 1]) + (if run[|run| - 1].ReadPre? then 1 else 0)
  }

  function Checks(run: seq<Action>): nat {
    if run == [] then 0 else Checks(run[..|run| - 1]) + (if run[|run| - 1].ReadBefore? then 1 else 0)
  }

  /** The first flag: up from its store until the head is encoded or the encoder fails to start. */
  predicate FlagUp(run: seq<Action>) {
    if run == [] then false
    else
      var a := run[|run| - 1];
      a.MarkPre? || (!a.PreEncoded? && !a.InitFails? && FlagUp(run[..|run| - 1]))
  }

  /** The second flag: up from its store until the second buffer is closed or the encoder fails to start. */
  predicate SecondUp(run: seq<Action>) {
    if run == [] then false
    else
      var a := run[|run| - 1];
      a.MarkBefore? || (!a.Close? && !a.InitFails? && SecondUp(run[..|run| - 1]))
  }

  /** How many pushes are over: they found the second flag down or have added their frame to the second buffer. */
  function Finished(run: seq<Action>): nat {
    if run == [] then 0
    else
      var front, a := run[..|run| - 1], run[|run| - 1];
      Finished(front) + (if a.AddPost? || (a.ReadBefore? && !SecondUp(front)) then 1 else 0)
  }

  /** At the last close: the pushes of the frames below are over. */
  function End(run: seq<Action>): nat {
    if run == [] then 0
    else
      var front := run[..|run| - 1];
      if run[|run| - 1].Close? then Finished(front) else End(front)
  }

  /** The frames whose read of the first flag found it down, and those of them already in the rolling buffer. */
  function SawDown(run: seq<Action>): seq<Frame> {
    if run == [] then []
    else
      var front := run[..|run| - 1];
      SawDown(front) + (if run[|run| - 1].ReadPre? && !FlagUp(front) then [Reads(front)] else [])
  }

  function Added(run: seq<Action>): seq<Frame> {
    if run == [] then []
    else
      var front := run[..|run| - 1];
      Added(front) + (if run[|run| - 1].AddPre? && Reads(front) > 0 then [Reads(front) - 1] else [])
  }

  /** The producer has added its frame to the rolling buffer and not yet read the second flag. */
  predicate MidPush(run: seq<Action>) {
    if run == [] then false
    else
      var a := run[|run| - 1];
      a.AddPre? || (!a.ReadPre? && !a.ReadBefore? && !a.AddPost? && MidPush(run[..|run| - 1]))
  }

  /** At the last store of the first flag: the frames below have read it. */
  function Unread(run: seq<Action>): nat {
    if run == [] then 0
    else
      var front := run[..|run| - 1];
      if run[|run| - 1].MarkPre? then Reads(front) else Unread(front)
  }

  /** At the last store of the second flag: the frames below have read it. */
  function Mark(run: seq<Action>): nat {
    if run == [] then 0
    else
      var front := run[..|run| - 1];
      if run[|run| - 1].MarkBefore? then Checks(front) else Mark(front)
  }

  predicate Seam(run: seq<Action>) {
    if run == [] then false
    else
      var front := run[..|run| - 1];
      if run[|run| - 1].MarkBefore? then MidPush(front) else Seam(front)
  }

  /**
  The frames added to the second buffer since it was last cleared by pushes that had read the second flag in an earlier
  recording.
  */
  function Stray(run: seq<Action>): seq<Frame> {
    if run == [] then []
    else
      var front, a := run[..|run| - 1], run[|run| - 1];
      if a.ClearPost? || a.ClearFailed? then []
      else if a.AddPost? && Reads(front) > 0 && !(SecondUp(front) && Mark(front) <= Reads(front) - 1) then
        Stray(front) + [Reads(front) - 1]
      else Stray(front)
  }

  /** Those of them at the last close. */
  function Leftover(run: seq<Action>): seq<Frame> {
    if run == [] then []
    else
      var front := run[..|run| - 1];
      if run[|run| - 1].Close? then Stray(front) else Leftover(front)
  }

  /** What had been added at the last copy. */
  function Copied(run: seq<Action>): seq<Frame> {
    if run == [] then []
    else
      var front := run[..|run| - 1];
      if run[|run| - 1].CopyPre? then Added(front) else Copied(front)
  }

  function Pending(s: State): seq<Frame> { if s.producer.AtPre? then [s.producer.f] else [] }

  /** The state and its history against the run. */
  ghost predicate Traced(s: State, h: History, run: seq<Action>) {
    && s.next == Reads(run) && FirstUnchecked(s) == Checks(run) && s.isPreRecording == FlagUp(run)
    && h.log == Added(run) && h.copied == Copied(run) && h.unread == Unread(run) && h.mark == Mark(run)
    && s.isBeforeRecording == SecondUp(run) && Done(s) == Finished(run) && h.end == End(run)
    && h.stray == Stray(run) && h.lead == Leftover(run)
    && SawDown(run) == h.log + Pending(s)
    && (MidPush(run) <==> s.producer.AtCheck? && s.producer.f in h.log)
  }

  lemma TracedStep(s: State, h: History, run: seq<Action>, a: Action)
    requires Traced(s, h, run) && Numbers(s, h) && Enabled(s, a)
    ensures Traced(Next(s, a), NextHistory(s, h, a), run + [a])
  {
    assert (run + [a])[..|run|] == run;
  }

  /** From the second store on: what had seen the first flag down and read the second before is copied. */
  ghost predicate Keeps(s: State, h: History, saw: seq<Frame>, seam: bool) {
    && (s.saver.BothMarked? ==>
          (forall f :: f in saw && f < h.mark ==> f in h.log) && h.mark <= s.next && (h.mark in h.log <==> seam))
    && (Recorded(s.saver) ==>
          && (forall f :: f in saw && f < h.mark ==> f in h.copied) && h.mark <= s.next
          && (h.mark in h.copied <==> seam))
    && (forall f :: f in h.copied ==> f in h.log)
    && (forall f :: f in h.log ==> f in saw)
  }

  /** What is left over from an earlier recording was read before the first store. */
  ghost predicate Strays(s: State, h: History) {
    && (s.saver.PreMarked? ==>
          (forall f :: f in h.stray ==> f < h.unread) && (s.producer.AtPost? ==> s.producer.f < h.unread))
    && (Gathering(s.saver) ==>
          && (forall f :: f in h.stray ==> f < h.unread)
          && (s.producer.AtPost? && s.producer.f < h.mark ==> s.producer.f < h.unread))
    && (s.saver.Closed? || s.saver.Finishing? ==> forall f :: f in h.lead ==> f < h.unread)
  }

  lemma KeepsStep(s: State, h: History, a: Action, saw: seq<Frame>, seam: bool)
    requires Enabled(s, a) && Numbers(s, h) && saw == h.log + Pending(s) && Keeps(s, h, saw, seam)
    ensures
      var saw' := saw + (if a.ReadPre? && !s.isPreRecording then [s.next] else []);
      var mid := s.producer.AtCheck? && s.producer.f in h.log;
      Keeps(Next(s, a), NextHistory(s, h, a), saw', if a.MarkBefore? then mid else seam)
  {
  }

  lemma StraysStep(s: State, h: History, a: Action)
    requires Enabled(s, a) && Numbers(s, h) && Tails(s, h) && Strays(s, h)
    ensures Strays(Next(s, a), NextHistory(s, h, a))
  {
  }

  ghost predicate TraceInv(s: State, h: History, run: seq<Action>) {
    Traced(s, h, run) && Keeps(s, h, SawDown(run), Seam(run)) && Strays(s, h)
  }

  lemma {:induction false} TraceRun(cap: nat, run: seq<Action>)
    requires Exec(cap, run).Some?
    ensures TraceInv(Exec(cap, run).value, HistoryOf(cap, run), run)
  {
    if run == [] {
      TraceStart(cap);
    } else {
      var n := |run| - 1;
      var front, a := run[..n], run[n];
      TraceRun(cap, front);
      FineRun(cap, front);
      var s, h := Exec(cap, front).value, HistoryOf(cap, front);
      assert front + [a] == run;
      assert Exec(cap, run).value == Next(s, a) && HistoryOf(cap, run) == NextHistory(s, h, a);
      TraceStep(s, h, front, a);
    }
  }

  lemma TraceStart(cap: nat)
    ensures TraceInv(Init(cap), HistoryOf(cap, []), [])
  {
  }

  lemma TraceStep(s: State, h: History, run: seq<Action>, a: Action)
    requires TraceInv(s, h, run) && FineInv(s, h) && Enabled(s, a)
    ensures TraceInv(Next(s, a), NextHistory(s, h, a), run + [a])
  {
    TracedStep(s, h, run, a);
    KeepsStep(s, h, a, SawDown(run), Seam(run));
    StraysStep(s, h, a);
    assert (run + [a])[..|run|] == run;
    assert SawDown(run + [a]) == SawDown(run) + (if a.ReadPre? && !s.isPreRecording then [s.next] else []);
    assert Seam(run + [a]) == if a.MarkBefore? then MidPush(run) else Seam(run);
    hide Traced, Keeps, Strays, Next, NextHistory;
  }

  ghost predicate Shut(cap: nat, run: seq<Action>) {
    Exec(cap, run).Some? && (Exec(cap, run).value.saver.Closed? || Exec(cap, run).value.saver.Finishing?)
  }

  /**
  The clip of any interleaving, read off its run. The first half is the last `cap` of the frames that had found the
  first flag down and read the second before it rose, and of the one caught in between when the push was at the seam.
  The second half is every frame from there whose push was over at the close, behind what an earlier recording left
  over, at most one frame.
  */
  lemma FineClip(cap: nat, run: seq<Action>)
    requires Shut(cap, run)
    ensures
      var clip := Exec(cap, run).value.saver;
      && clip.head == Last(Copied(run), cap)
      && clip.tail == Leftover(run) + Range(Mark(run), End(run))
    ensures |Leftover(run)| <= 1 && forall f :: f in Leftover(run) ==> f < Unread(run) && f < Mark(run)
    ensures Ascending(Copied(run))
    ensures forall f :: f in Copied(run) <==> (f in SawDown(run) && f < Mark(run)) || (f == Mark(run) && Seam(run))
    ensures forall f :: f in Copied(run) ==> f < Unread(run)
  {
    FineRun(cap, run);
    TraceRun(cap, run);
    hide Exec, HistoryOf, SawDown, Added, Copied, Unread, Mark, End, Seam, FlagUp, Reads, Checks, Finished, Stray;
    hide Leftover, SecondUp;
    var h := HistoryOf(cap, run);
    assert |h.lead| <= 1;
  }

  /**
  A frame read after the first store is lost, in neither half, exactly when it read the second flag before the second
  store. An earlier frame whose push was over is missing from what was copied and from the second half exactly when it
  had found the first flag up and read the second before that store.
  */
  lemma LostExactly(cap: nat, run: seq<Action>, f: Frame)
    requires Shut(cap, run) && f < End(run)
    ensures
      var clip := Exec(cap, run).value.saver;
      Unread(run) <= f ==> (f !in clip.head + clip.tail <==> f < Mark(run))
    ensures f !in Copied(run) && f !in Range(Mark(run), End(run)) <==> f !in SawDown(run) && f < Mark(run)
  {
    FineClip(cap, run);
    hide Exec, Copied, SawDown, Mark, Unread, End, Leftover;
    LastMembers(Copied(run), cap);
    RangeHas(Mark(run), End(run), f);
  }

  lemma LastMembers(s: seq<Frame>, n: nat)
    ensures forall f :: f in Last(s, n) ==> f in s
  {
  }

  /** Nothing is lost between the halves exactly when no push read both flags between the two stores. */
  lemma NoGap(cap: nat, run: seq<Action>)
    requires Shut(cap, run)
    ensures
      var clip := Exec(cap, run).value.saver;
      (forall f :: Unread(run) <= f < End(run) ==> f in clip.head + clip.tail)
      <==> Mark(run) <= Unread(run) || End(run) <= Unread(run)
  {
    forall f | Unread(run) <= f < End(run)
      ensures f !in Exec(cap, run).value.saver.head + Exec(cap, run).value.saver.tail <==> f < Mark(run)
    {
      LostExactly(cap, run, f);
    }
    hide Exec, Mark, Unread, End;
    var f := Unread(run);
    assert f < End(run) ==>
      (f !in Exec(cap, run).value.saver.head + Exec(cap, run).value.saver.tail <==> f < Mark(run));
  }

  /**
  A frame is in both halves exactly when the second store came between a push's adding to the rolling buffer and its
  read of the second flag, and that push was over at the close; or when the frame left over from an earlier recording is
  still among the last of the rolling buffer.
  */
  lemma SeamExactly(cap: nat, run: seq<Action>)
    requires Shut(cap, run) && cap > 0
    ensures
      var clip := Exec(cap, run).value.saver;
      (exists f :: f in clip.head && f in clip.tail)
      <==> (Seam(run) && Mark(run) < End(run)) || (exists f :: f in clip.head && f in Leftover(run))
  {
    FineClip(cap, run);
    var copied, m := Copied(run), Mark(run);
    hide Exec, SawDown, Seam, Copied, Mark, End, Range, Last, Ascending, Leftover;
    LastMembers(copied, cap);
    forall f: Frame
      ensures f in Range(m, End(run)) <==> m <= f < End(run)
    {
      RangeHas(m, End(run), f);
    }
    assert forall f :: f in copied ==> f <= m;
    if Seam(run) {
      LargestLast(copied, m, cap);
    }
  }

  lemma RangeHas(lo: nat, hi: nat, f: Frame)
    ensures f in Range(lo, hi) <==> lo <= f < hi
  {
    if lo <= f < hi {
      assert Range(lo, hi)[f - lo] == f;
    }
  }

  lemma LargestLast(s: seq<Frame>, m: Frame, n: nat)
    requires Ascending(s) && m in s && n > 0 && forall f :: f in s ==> f <= m
    ensures m in Last(s, n)
  {
    var i :| 0 <= i < |s| && s[i] == m;
    assert s[|s| - 1] in s;
  }

  lemma ExecStep(cap: nat, run: seq<Action>, a: Action, s: State)
    requires Exec(cap, run).Some? && Enabled(Exec(cap, run).value, a) && Next(Exec(cap, run).value, a) == s
    ensures Exec(cap, run + [a]) == Some(s)
  {
  }

  const GAP_OPENING := [Start] + [MarkPre] + [ReadPre] + [ReadBefore] + [MarkBefore]

  /** If it does take one, frames pushed in between are lost: here frame 0 is pushed after the start and is in
      no buffer. */
  lemma GapExample()
    ensures Exec(5, GAP_OPENING) == Some(State(5, true, true, true, [], [], 1, Ready, BothMarked, []))
  {
    assert Exec(5, []) == Some(Init(5));
    hide Exec;
    ExecStep(5, [], Start, State(5, true, false, false, [], [], 0, Ready, Started, []));
    assert [] + [Start] == [Start];
    ExecStep(5, [Start], MarkPre, State(5, true, true, false, [], [], 0, Ready, PreMarked, []));
    ExecStep(5, [Start] + [MarkPre], ReadPre, State(5, true, true, false, [], [], 1, AtCheck(0), PreMarked, []));
    ExecStep(5, [Start] + [MarkPre] + [ReadPre], ReadBefore,
             State(5, true, true, false, [], [], 1, Ready, PreMarked, []));
    ExecStep(5, [Start] + [MarkPre] + [ReadPre] + [ReadBefore], MarkBefore,
             State(5, true, true, true, [], [], 1, Ready, BothMarked, []));
  }

  const SEAM_OPENING := [ReadPre] + [AddPre] + [Start] + [MarkPre] + [MarkBefore] + [CopyPre] + [ReadBefore] + [AddPost]

  /** And a push that straddles the snapshot puts its frame on both sides of the seam. */
  lemma SeamExample()
    ensures Exec(5, SEAM_OPENING) == Some(State(5, true, true, true, [0], [0], 1, Ready, Encoding([0]), []))
  {
    assert Exec(5, []) == Some(Init(5));
    assert Last([] + [0], 5) == [0];
    hide Exec, Last;
    ExecStep(5, [], ReadPre, State(5, false, false, false, [], [], 1, AtPre(0), Free, []));
    assert [] + [ReadPre] == [ReadPre];
    ExecStep(5, [ReadPre], AddPre, State(5, false, false, false, [0], [], 1, AtCheck(0), Free, []));
    ExecStep(5, [ReadPre] + [AddPre], Start, State(5, true, false, false, [0], [], 1, AtCheck(0), Started, []));
    ExecStep(5, [ReadPre] + [AddPre] + [Start], MarkPre,
             State(5, true, true, false, [0], [], 1, AtCheck(0), PreMarked, []));
    ExecStep(5, [ReadPre] + [AddPre] + [Start] + [MarkPre], MarkBefore,
             State(5, true, true, true, [0], [], 1, AtCheck(0), BothMarked, []));
    ExecStep(5, [ReadPre] + [AddPre] + [Start] + [MarkPre] + [MarkBefore], CopyPre,
             State(5, true, true, true, [0], [], 1, AtCheck(0), Encoding([0]), []));
    ExecStep(5, [ReadPre] + [AddPre] + [Start] + [MarkPre] + [MarkBefore] + [CopyPre], ReadBefore,
             State(5, true, true, true, [0], [], 1, AtPost(0), Encoding([0]), []));
    assert [] + [0] == [0];
    ExecStep(5, [ReadPre] + [AddPre] + [Start] + [MarkPre] + [MarkBefore] + [CopyPre] + [ReadBefore], AddPost,
             State(5, true, true, true, [0], [0], 1, Ready, Encoding([0]), []));
  }

  lemma OneMore(cap: nat, run: seq<Action>, s: State, a: Action) returns (longer: seq<Action>, s': State)
    requires Exec(cap, run) == Some(s) && Enabled(s, a)
    ensures Exec(cap, longer) == Some(s') && s' == Next(s, a)
    ensures Seam(longer) == if a.MarkBefore? then MidPush(run) else Seam(run)
    ensures !a.AddPre? && !MidPush(run) ==> !MidPush(longer)
    ensures a.ReadBefore? || a.AddPost? ==> !MidPush(longer)
  {
    longer, s' := run + [a], Next(s, a);
    assert longer[..|run|] == run;
  }

  /** A recording is waiting and the producer stands in front of the second buffer. */
  const STANDING := State(5, true, false, true, [0], [], 1, AtPost(0), Waiting([]), [])

  lemma Standing() returns (run: seq<Action>)
    ensures Exec(5, run) == Some(STANDING) && !Seam(run) && !MidPush(run)
  {
    var s;
    run, s := [], Init(5);
    assert Exec(5, run) == Some(s) && !Seam(run) && !MidPush(run);
    assert Last([] + [0], 5) == [0];
    hide Exec, Last, Seam, MidPush;
    run, s := OneMore(5, run, s, Start);
    run, s := OneMore(5, run, s, MarkPre);
    run, s := OneMore(5, run, s, MarkBefore);
    run, s := OneMore(5, run, s, CopyPre);
    run, s := OneMore(5, run, s, PreEncoded);
    assert s == State(5, true, false, true, [], [], 0, Ready, Waiting([]), []);
    run, s := OneMore(5, run, s, ReadPre);
    run, s := OneMore(5, run, s, AddPre);
    run, s := OneMore(5, run, s, ReadBefore);
  }

  /** The recording is over and the producer has gone on. */
  const LEFT_OVER := State(5, false, false, false, [0], [0], 1, Ready, Free, [[]])

  lemma LeftOver() returns (run: seq<Action>)
    ensures Exec(5, run) == Some(LEFT_OVER) && !Seam(run) && !MidPush(run)
  {
    var s;
    run := Standing();
    s := STANDING;
    hide Exec, Seam, MidPush;
    run, s := OneMore(5, run, s, Close);
    run, s := OneMore(5, run, s, ClearPost);
    run, s := OneMore(5, run, s, AddPost);
    assert [] + [0] == [0];
    assert s.saver.head + s.saver.tail == [] && s.clips == [];
    run, s := OneMore(5, run, s, Finish);
    assert s.clips == [] + [[]] == [[]];
    assert s == LEFT_OVER;
  }

  /**
  The leftover frame repeats without a push at the seam: a producer that stands in front of the second buffer from one
  recording's close to the next recording's start has its frame in both halves of the next clip.
  */
  lemma LeftoverExample()
    ensures
      exists run ::
        Exec(5, run) == Some(State(5, true, false, false, [0], [0], 1, Ready, Closed([0], [0]), [[]])) && !Seam(run)
  {
    var s;
    var run := LeftOver();
    s := LEFT_OVER;
    hide Exec, Seam, MidPush;
    run, s := OneMore(5, run, s, Start);
    run, s := OneMore(5, run, s, MarkPre);
    run, s := OneMore(5, run, s, MarkBefore);
    run, s := OneMore(5, run, s, CopyPre);
    run, s := OneMore(5, run, s, PreEncoded);
    run, s := OneMore(5, run, s, Close);
  }

  // ----- the recording flag -----

  /** A stop that resets the flag came after the last start. */
  predicate ResetSince(run: seq<Action>) {
    if run == [] then false
    else
      var a := run[|run| - 1];
      a == Stop(true) || (!a.Start? && ResetSince(run[..|run| - 1]))
  }

  predicate Working(s: State) { !s.saver.Free? && !s.saver.Failed? }

  lemma FlagStep(s: State, a: Action, reset: bool)
    requires Enabled(s, a) && (s.isRecording <==> Working(s) && !reset)
    ensures Next(s, a).isRecording <==> Working(Next(s, a)) && !(a == Stop(true) || (!a.Start? && reset))
  {
  }

  /**
  In every run the flag is up exactly while the saver thread works and no resetting stop came after the last start; so
  in the variant whose stop does not reset it, a second start is refused throughout.
  */
  lemma {:induction false} FlagTracksSaver(cap: nat, run: seq<Action>)
    requires Exec(cap, run).Some?
    ensures
      var s := Exec(cap, run).value;
      s.isRecording <==> Working(s) && !ResetSince(run)
  {
    if run != [] {
      var n := |run| - 1;
      FlagTracksSaver(cap, run[..n]);
      FlagStep(Exec(cap, run[..n]).value, run[n], ResetSince(run[..n]));
    }
  }

  // ----- the recorder object -----

  class Recorder {
    const cap: nat
    const stopResets: bool
    var isRecording: bool
    var isPreRecording: bool
    var isBeforeRecording: bool
    var pre: seq<Frame>
    var post: seq<Frame>
    var next: nat
    var producer: Producer
    var saver: Saver
    var clips: seq<seq<Frame>>

    ghost function Abs(): State
      reads this
    {
      State(cap, isRecording, isPreRecording, isBeforeRecording, pre, post, next, producer, saver, clips)
    }

    constructor (cap: nat, stopResets: bool)
      ensures Abs() == Init(cap)
    {
      this.cap, this.stopResets := cap, stopResets;
      isRecording, isPreRecording, isBeforeRecording := false, false, false;
      pre, post, next, producer, saver, clips := [], [], 0, Ready, Free, [];
    }

    /** One push that nothing interrupts: into the rolling buffer, trimmed from the front, then into the second. */
    method PushOriginalImage()
      requires Allowed(Abs(), Push)
      modifies this`pre, this`post, this`next
      ensures Abs() == Do(old(Abs()), Push)
    {
      DoPush(Abs());
      var img := next;
      next := next + 1;
      if !isPreRecording {
        pre := pre + [img];
        ghost var full := pre;
        while |pre| > cap
          invariant Last(pre, cap) == Last(full, cap)
          modifies this`pre
        {
          pre := pre[1..];
        }
      }
      if isBeforeRecording {
        post := post + [img];
      }
    }

    method StartRecord() returns (code: int)
      requires Allowed(Abs(), Step(Start))
      modifies this`isRecording, this`saver
      ensures Abs() == Do(old(Abs()), Step(Start))
      ensures code == if old(isRecording) then 3 else 0
    {
      if isRecording {
        return 3;
      }
      isRecording := true;
      saver := Started;
      code := 0;
    }

    method StopRecord()
      modifies this`isRecording
      ensures Abs() == Do(old(Abs()), Step(Stop(stopResets)))
    {
      if stopResets {
        isRecording := false;
      }
    }

    /** The saver thread's first locked section. */
    method TakeSnapshot()
      requires Allowed(Abs(), Snapshot)
      modifies this`isPreRecording, this`isBeforeRecording, this`saver
      ensures Abs() == Do(old(Abs()), Snapshot)
    {
      isPreRecording := true;
      isBeforeRecording := true;
      saver := Encoding(pre);
    }

    method GiveUp()
      requires Allowed(Abs(), Step(InitFails))
      modifies this`isRecording, this`isPreRecording, this`isBeforeRecording, this`post, this`saver
      ensures Abs() == Do(Do(old(Abs()), Step(InitFails)), Step(ClearFailed))
    {
      isRecording, isPreRecording, isBeforeRecording := false, false, false;
      post := [];
      saver := Free;
    }

    method EncodeHead()
      requires Allowed(Abs(), Step(PreEncoded))
      modifies this`isPreRecording, this`saver
      ensures Abs() == Do(old(Abs()), Step(PreEncoded))
    {
      isPreRecording := false;
      saver := Waiting(saver.head);
    }

    /** The second locked section, after the wait. */
    method CloseClip()
      requires Allowed(Abs(), Step(Close))
      modifies this`isBeforeRecording, this`saver
      ensures Abs() == Do(old(Abs()), Step(Close))
    {
      isBeforeRecording := false;
      saver := Closed(saver.head, post);
    }

    /** The third locked section. */
    method ClearSecondBuffer()
      requires Allowed(Abs(), Step(ClearPost))
      modifies this`post, this`saver
      ensures Abs() == Do(old(Abs()), Step(ClearPost))
    {
      post := [];
      saver := Finishing(saver.head, saver.tail);
    }

    method EndRecording()
      requires Allowed(Abs(), Step(Finish))
      modifies this`isRecording, this`saver, this`clips
      ensures Abs() == Do(old(Abs()), Step(Finish))
    {
      isRecording := false;
      clips := clips + [saver.head + saver.tail];
      saver := Free;
    }

    /** A stretch of undivided pushes. */
    method PushImages(n: nat)
      requires producer.Ready? && !HoldsPreLock(Abs()) && (!isPreRecording ==> |pre| <= cap)
      modifies this`pre, this`post, this`next
      ensures next == old(next) + n
      ensures pre == if isPreRecording then old(pre) else Last(old(pre) + Range(old(next), next), cap)
      ensures post == if isBeforeRecording then old(post) + Range(old(next), next) else old(post)
    {
      ghost var pre0, post0, lo := pre, post, next;
      StretchStarts(pre0, lo, cap);
      StretchStarts(post0, lo, cap);
      hide Last, Range;
      for i := 0 to n
        invariant next == lo + i
        invariant pre == if isPreRecording then pre0 else Last(pre0 + Range(lo, next), cap)
        invariant post == if isBeforeRecording then post0 + Range(lo, next) else post0
      {
        DoPush(Abs());
        hide Do;
        StretchGrows(pre0, lo, next, cap);
        StretchGrows(post0, lo, next, cap);
        PushOriginalImage();
      }
    }

    method RecordFirst(early: nat)
      requires saver.Started? && producer.Ready? && !isBeforeRecording && post == []
      modifies this
      ensures saver == Waiting(old(pre)) && pre == old(pre) && post == Range(old(next), next)
      ensures next == old(next) + early && clips == old(clips) && producer == old(producer)
      ensures !isPreRecording && isBeforeRecording
    {
      hide Last, Range;
      TakeSnapshot();
      PushImages(early);
      EncodeHead();
      assert [] + Range(old(next), next) == Range(old(next), next);
    }

    method RecordSecond(late: nat)
      requires saver.Waiting? && producer.Ready? && !isPreRecording && isBeforeRecording && |pre| <= cap
      modifies this
      ensures saver == Closed(old(saver.head), old(post) + Range(old(next), next))
      ensures pre == Last(old(pre) + Range(old(next), next), cap) && |pre| <= cap
      ensures next == old(next) + late && clips == old(clips) && producer == old(producer)
      ensures !isPreRecording && !isBeforeRecording
    {
      LastLength(pre + Range(next, next + late), cap);
      hide Last, Range;
      PushImages(late);
      CloseClip();
    }

    method RecordEnd(after: nat)
      requires saver.Closed? && producer.Ready? && !isPreRecording && !isBeforeRecording && |pre| <= cap
      modifies this
      ensures clips == old(clips) + [old(saver.head) + old(saver.tail)] && post == [] && saver.Free?
      ensures pre == Last(old(pre) + Range(old(next), next), cap)
      ensures next == old(next) + after && producer == old(producer)
      ensures !isRecording && !isPreRecording && !isBeforeRecording
    {
      hide Last, Range;
      PushImages(after);
      ClearSecondBuffer();
      EndRecording();
    }

    /**
    The saver thread from start to end, with `early` frames pushed while it encodes the first half, `late` until it
    closes the second buffer and `after` until it is done. The clip is what the rolling buffer held, followed by every
    frame pushed up to the close.
    */
    method RecordClip(early: nat, late: nat, after: nat)
      requires saver.Started? && producer.Ready? && !isBeforeRecording && post == [] && |pre| <= cap
      modifies this
      ensures clips == old(clips) + [old(pre) + Range(old(next), old(next) + early + late)]
      ensures pre == Last(old(pre) + Range(old(next) + early, next), cap) && post == []
      ensures next == old(next) + early + late + after
      ensures saver.Free? && producer.Ready? && !isRecording && !isPreRecording && !isBeforeRecording
    {
      hide Last, Range;
      RecordFirst(early);
      ghost var start, half := old(next), next;
      RecordSecond(late);
      ghost var shut := next;
      RecordEnd(after);
      RangeJoin(start, half, shut);
      RangeJoin(half, shut, next);
      LastJoin(old(pre) + Range(half, shut), Range(shut, next), cap);
      assert old(pre) + Range(half, shut) + Range(shut, next) == old(pre) + (Range(half, shut) + Range(shut, next));
    }

    /** The encoder does not start: nothing is recorded and everything is as before the start. */
    method RecordNothing(early: nat)
      requires saver.Started? && producer.Ready? && !isBeforeRecording && post == []
      modifies this
      ensures clips == old(clips) && pre == old(pre) && post == [] && next == old(next) + early
      ensures saver.Free? && producer.Ready? && !isRecording && !isPreRecording && !isBeforeRecording
    {
      hide Last, Range;
      TakeSnapshot();
      PushImages(early);
      GiveUp();
    }

    /** A whole recording, from the start call to the stop call. */
    method OneRecording(encoderStarts: bool, early: nat, late: nat, after: nat) returns (code: int)
      requires saver.Free? && producer.Ready? && !isPreRecording && !isBeforeRecording && post == [] && |pre| <= cap
      modifies this
      ensures old(isRecording) ==> code == 3 && clips == old(clips)
      ensures !old(isRecording) ==> code == 0 && !isRecording && saver.Free? && post == []
      ensures !old(isRecording) ==>
        clips == old(clips) + if encoderStarts then [old(pre) + Range(old(next), old(next) + early + late)] else []
    {
      code := StartRecord();
      if code == 3 {
        return;
      }
      if encoderStarts {
        RecordClip(early, late, after);
      } else {
        RecordNothing(early);
      }
      StopRecord();
    }
  }

  lemma RangeJoin(a: nat, b: nat, c: nat)
    requires a <= b <= c
    ensures Range(a, b) + Range(b, c) == Range(a, c)
  {
  }

  lemma LastJoin(s: seq<Frame>, t: seq<Frame>, n: nat)
    ensures Last(Last(s, n) + t, n) == Last(s + t, n)
  {
  }

  lemma LastLength(s: seq<Frame>, n: nat)
    ensures |Last(s, n)| <= n
  {
  }

  lemma StretchStarts(s: seq<Frame>, lo: nat, cap: nat)
    ensures s + Range(lo, lo) == s
    ensures |s| <= cap ==> Last(s + Range(lo, lo), cap) == s
  {
  }

  lemma StretchGrows(s: seq<Frame>, lo: nat, hi: nat, cap: nat)
    requires lo <= hi
    ensures s + Range(lo, hi + 1) == s + Range(lo, hi) + [hi]
    ensures Last(s + Range(lo, hi + 1), cap) == Last(Last(s + Range(lo, hi), cap) + [hi], cap)
  {
    assert Range(lo, hi + 1) == Range(lo, hi) + [hi];
    assert s + (Range(lo, hi) + [hi]) == s + Range(lo, hi) + [hi];
    LastOfLonger(s + Range(lo, hi), hi, cap);
  }
}
