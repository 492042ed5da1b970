/**
The lock-free object pool: a Treiber stack of nodes behind `m_head`, a separate counter `m_count`
that lags behind it, and a deleter that hands objects back to the pool.

Every atomic access of the source is one action of a transition system over any number of threads.
Node addresses are natural numbers; `m_count` is an unsigned 64-bit word that wraps.
*/
module ObjectPool {
  import opened Common

  const SIZE_T: int := 0x1_0000_0000_0000_0000

  type Addr = nat
  type Obj = nat

  datatype Node = Node(obj: Obj, next: Option<Addr>)

  /** Where a thread stands inside `getObject` or inside the deleter. */
  datatype Thread =
    | Idle
    | PopLoad
    | PopNext(oldHead: Addr)
    | PopCas(oldHead: Addr, next: Option<Addr>)
    | PopSub(node: Addr)
    | Take(node: Addr)
    | Make
    | PushCheck(obj: Obj)
    | PushAlloc(obj: Obj)
    | PushLoad(node: Addr)
    | PushLink(node: Addr, seen: Option<Addr>)
    | PushCas(node: Addr, seen: Option<Addr>)
    | PushAdd

  datatype State = State(
    max: nat,
    alive: bool,
    head: Option<Addr>,
    nodes: map<Addr, Node>,
    count: nat,
    threads: seq<Thread>,
    clients: set<Obj>,
    destroyed: set<Obj>,
    created: nat)

  /** One atomic step of thread `t`. `spurious` is a weak compare-exchange failing for no reason,
      `stale` is what reading a freed node yields. */
  datatype Action =
    | BeginGet(t: nat)
    | LoadTop(t: nat)
    | ReadNext(t: nat, stale: Option<Addr>)
    | SwapOut(t: nat, spurious: bool)
    | CountDown(t: nat)
    | TakeObject(t: nat)
    | MakeObject(t: nat)
    | Release(t: nat, o: Obj)
    | CheckCount(t: nat)
    | AllocNode(t: nat, a: Addr)
    | LoadForPush(t: nat)
    | Link(t: nat)
    | SwapIn(t: nat, spurious: bool)
    | CountUp(t: nat)
    | BeginDestroy
    | FreeTop

  predicate AllIdle(s: State) {
    forall t :: 0 <= t < |s.threads| ==> s.threads[t] == Idle
  }

  predicate Enabled(s: State, a: Action) {
    match a
    case BeginDestroy => s.alive && AllIdle(s)
    case FreeTop => !s.alive && s.head.Some? && s.head.value in s.nodes
    case Release(t, o) => t < |s.threads| && s.threads[t] == Idle && o in s.clients
    case BeginGet(t) => t < |s.threads| && s.threads[t] == Idle && s.alive
    case LoadTop(t) => t < |s.threads| && s.threads[t] == PopLoad
    case ReadNext(t, _) => t < |s.threads| && s.threads[t].PopNext?
    case SwapOut(t, _) => t < |s.threads| && s.threads[t].PopCas?
    case CountDown(t) => t < |s.threads| && s.threads[t].PopSub?
    case TakeObject(t) => t < |s.threads| && s.threads[t].Take? && s.threads[t].node in s.nodes
    case MakeObject(t) => t < |s.threads| && s.threads[t] == Make
    case CheckCount(t) => t < |s.threads| && s.threads[t].PushCheck?
    case AllocNode(t, x) => t < |s.threads| && s.threads[t].PushAlloc? && x !in s.nodes
    case LoadForPush(t) => t < |s.threads| && s.threads[t].PushLoad?
    case Link(t) => t < |s.threads| && s.threads[t].PushLink? && s.threads[t].node in s.nodes
    case SwapIn(t, _) => t < |s.threads| && s.threads[t].PushCas?
    case CountUp(t) => t < |s.threads| && s.threads[t] == PushAdd
  }

  function Go(s: State, t: nat, th: Thread): State
    requires t < |s.threads|
  {
    s.(threads := s.threads[t := th])
  }

  /** The state after one atomic step of the source. */
  function Next(s: State, a: Action): State
    requires Enabled(s, a)
  {
    match a
    case BeginGet(t) => Go(s, t, PopLoad)
    case LoadTop(t) => Go(s, t, if s.head == None then Make else PopNext(s.head.value))
    case ReadNext(t, stale) =>
      var h := s.threads[t].oldHead;
      Go(s, t, PopCas(h, if h in s.nodes then s.nodes[h].next else stale))
    case SwapOut(t, spurious) =>
      var th := s.threads[t];
      if !spurious && s.head == Some(th.oldHead)
      then Go(s, t, PopSub(th.oldHead)).(head := th.next)
      else Go(s, t, PopLoad)
    case CountDown(t) =>
      Go(s, t, Take(s.threads[t].node)).(count := (s.count - 1) % SIZE_T)
    case TakeObject(t) =>
      var n := s.threads[t].node;
      Go(s, t, Idle).(nodes := s.nodes - {n}, clients := s.clients + {s.nodes[n].obj})
    case MakeObject(t) =>
      Go(s, t, Idle).(clients := s.clients + {s.created}, created := s.created + 1)
    case Release(t, o) =>
      if s.alive
      then Go(s, t, PushCheck(o)).(clients := s.clients - {o})
      else s.(clients := s.clients - {o}, destroyed := s.destroyed + {o})
    case CheckCount(t) =>
      var o := s.threads[t].obj;
      if s.count >= s.max
      then Go(s, t, Idle).(destroyed := s.destroyed + {o})
      else Go(s, t, PushAlloc(o))
    case AllocNode(t, x) =>
      Go(s, t, PushLoad(x)).(nodes := s.nodes[x := Node(s.threads[t].obj, None)])
    case LoadForPush(t) => Go(s, t, PushLink(s.threads[t].node, s.head))
    case Link(t) =>
      var th := s.threads[t];
      Go(s, t, PushCas(th.node, th.seen)).(
        nodes := s.nodes[th.node := Node(s.nodes[th.node].obj, th.seen)])
    case SwapIn(t, spurious) =>
      var th := s.threads[t];
      if !spurious && s.head == th.seen
      then Go(s, t, PushAdd).(head := Some(th.node))
      else Go(s, t, PushLoad(th.node))
    case CountUp(t) => Go(s, t, Idle).(count := (s.count + 1) % SIZE_T)
    case BeginDestroy => s.(alive := false)
    case FreeTop =>
      var n := s.head.value;
      s.(head := s.nodes[n].next, nodes := s.nodes - {n}, destroyed := s.destroyed + {s.nodes[n].obj})
  }

  function Init(threads: nat, max: nat): State {
    State(max, true, None, map[], 0, seq(threads, _ => Idle), {}, {}, 0)
  }

  // ----- the shape of the stack -----

  function Entry(c: seq<Addr>, i: nat): Option<Addr> {
    if i < |c| then Some(c[i]) else None
  }

  /** `c` lists the nodes reached from `m_head`: each once, the last one ending in null. */
  ghost predicate Chain(s: State, c: seq<Addr>) {
    && s.head == Entry(c, 0)
    && (forall i :: 0 <= i < |c| ==> c[i] in s.nodes && s.nodes[c[i]].next == Entry(c, i + 1))
    && (forall i, j :: 0 <= i < j < |c| ==> c[i] != c[j])
  }

  function Owned(th: Thread): Option<Addr> {
    match th
    case PopSub(n) => Some(n)
    case Take(n) => Some(n)
    case PushLoad(n) => Some(n)
    case PushLink(n, _) => Some(n)
    case PushCas(n, _) => Some(n)
    case _ => None
  }

  /** The address a popping thread still compares `m_head` against. */
  function Held(th: Thread): Option<Addr> {
    match th
    case PopNext(h) => Some(h)
    case PopCas(h, _) => Some(h)
    case _ => None
  }

  predicate Pushing(th: Thread) {
    th.PushLoad? || th.PushLink? || th.PushCas?
  }

  ghost predicate LocalOk(s: State, c: seq<Addr>, th: Thread) {
    && (Owned(th).Some? ==> Owned(th).value in s.nodes && Owned(th).value !in c)
    && (th.PopCas? ==> forall i :: 0 <= i < |c| && c[i] == th.oldHead ==> th.next == Entry(c, i + 1))
    && (th.PushCas? && th.node in s.nodes ==> s.nodes[th.node].next == th.seen)
  }

  ghost predicate Apart(x: Thread, y: Thread) {
    && (Owned(x).Some? ==> Owned(x) != Owned(y))
    && (Held(x).Some? && Pushing(y) ==> Held(x) != Owned(y))
    && (Held(y).Some? && Pushing(x) ==> Held(y) != Owned(x))
  }

  ghost predicate Shape(s: State, c: seq<Addr>) {
    && Chain(s, c)
    && (forall t :: 0 <= t < |s.threads| ==> LocalOk(s, c, s.threads[t]))
    && (forall t, u :: 0 <= t < |s.threads| && 0 <= u < |s.threads| && t != u ==> Apart(s.threads[t], s.threads[u]))
    && (!s.alive ==> AllIdle(s))
  }

  /** The allocator does not hand out an address that a popping thread still holds. */
  predicate NotReissued(s: State, a: Action) {
    a.AllocNode? ==> forall u :: 0 <= u < |s.threads| ==> Held(s.threads[u]) != Some(a.a)
  }

  predicate SwapsOut(s: State, a: Action) {
    a.SwapOut? && a.t < |s.threads| && s.threads[a.t].PopCas?
    && !a.spurious && s.head == Some(s.threads[a.t].oldHead)
  }

  predicate SwapsIn(s: State, a: Action) {
    a.SwapIn? && a.t < |s.threads| && s.threads[a.t].PushCas?
    && !a.spurious && s.head == s.threads[a.t].seen
  }

  /** The abstract stack after a step: only a successful compare-exchange or the destructor changes it. */
  ghost function NextChain(s: State, c: seq<Addr>, a: Action): seq<Addr> {
    if (SwapsOut(s, a) || a.FreeTop?) && c != [] then c[1..]
    else if SwapsIn(s, a) then [s.threads[a.t].node] + c
    else c
  }

  /** Replacing one thread keeps the shape when the new thread fits and the others still do. */
  lemma Move(s: State, c: seq<Addr>, s': State, c': seq<Addr>, t: nat)
    requires Shape(s, c) && s.alive && s'.alive && t < |s.threads|
    requires |s'.threads| == |s.threads| && s'.threads == s.threads[t := s'.threads[t]]
    requires Chain(s', c')
    requires LocalOk(s', c', s'.threads[t])
    requires forall u :: 0 <= u < |s.threads| && u != t ==> LocalOk(s', c', s.threads[u])
    requires forall u :: 0 <= u < |s.threads| && u != t ==> Apart(s'.threads[t], s.threads[u])
    ensures Shape(s', c')
  {
  }

  /** Steps that touch neither the nodes nor the head. */
  predicate Quiet(s: State, a: Action) {
    a.BeginGet? || a.LoadTop? || a.ReadNext? || a.CountDown? || a.MakeObject? || a.Release?
    || a.CheckCount? || a.LoadForPush? || a.CountUp?
    || (a.SwapOut? && !SwapsOut(s, a)) || (a.SwapIn? && !SwapsIn(s, a))
  }

  lemma QuietLocal(s: State, c: seq<Addr>, a: Action, t: nat)
    requires Shape(s, c) && Enabled(s, a) && Quiet(s, a) && (a.Release? ==> s.alive) && t == a.t
    ensures
      var s' := Next(s, a);
      && s'.alive && s'.nodes == s.nodes && s'.head == s.head
      && |s'.threads| == |s.threads| && s'.threads == s.threads[t := s'.threads[t]]
      && LocalOk(s', c, s'.threads[t])
      && Owned(s'.threads[t]) == Owned(s.threads[t])
      && Pushing(s'.threads[t]) == Pushing(s.threads[t])
      && (Held(s'.threads[t]).Some? ==>
            Held(s'.threads[t]) == Held(s.threads[t]) || Held(s'.threads[t]) == s.head)
  {
    var th := s.threads[t];
    assert LocalOk(s, c, th);
  }

  lemma ShapeQuiet(s: State, c: seq<Addr>, a: Action)
    requires Shape(s, c) && Enabled(s, a) && Quiet(s, a)
    ensures Shape(Next(s, a), c)
  {
    if a.Release? && !s.alive {
      var s' := Next(s, a);
      forall t | 0 <= t < |s'.threads| ensures LocalOk(s', c, s'.threads[t]) {
        assert LocalOk(s, c, s.threads[t]);
      }
    } else {
      QuietLocal(s, c, a, a.t);
      var s' := Next(s, a);
      forall u | 0 <= u < |s.threads| && u != a.t
        ensures LocalOk(s', c, s.threads[u]) && Apart(s'.threads[a.t], s.threads[u])
      {
        assert LocalOk(s, c, s.threads[u]);
        assert Apart(s.threads[a.t], s.threads[u]);
      }
      Move(s, c, s', c, a.t);
    }
  }

  lemma ShapeTake(s: State, c: seq<Addr>, a: Action)
    requires Shape(s, c) && Enabled(s, a) && a.TakeObject?
    ensures Shape(Next(s, a), c)
  {
  }

  lemma ShapeAlloc(s: State, c: seq<Addr>, a: Action)
    requires Shape(s, c) && Enabled(s, a) && a.AllocNode? && NotReissued(s, a)
    ensures Shape(Next(s, a), c)
  {
    var s' := Next(s, a);
    assert a.a !in c;
    forall u | 0 <= u < |s.threads| && u != a.t
      ensures LocalOk(s', c, s.threads[u]) && Apart(s'.threads[a.t], s.threads[u])
    {
      assert LocalOk(s, c, s.threads[u]);
    }
    Move(s, c, s', c, a.t);
  }

  lemma ShapeLink(s: State, c: seq<Addr>, a: Action)
    requires Shape(s, c) && Enabled(s, a) && a.Link?
    ensures Shape(Next(s, a), c)
  {
    var s' := Next(s, a);
    assert LocalOk(s, c, s.threads[a.t]);
    forall u | 0 <= u < |s.threads| && u != a.t
      ensures LocalOk(s', c, s.threads[u]) && Apart(s'.threads[a.t], s.threads[u])
    {
      assert LocalOk(s, c, s.threads[u]);
      assert Apart(s.threads[a.t], s.threads[u]);
    }
    Move(s, c, s', c, a.t);
  }

  lemma ShapeSwapOut(s: State, c: seq<Addr>, a: Action)
    requires Shape(s, c) && Enabled(s, a) && SwapsOut(s, a)
    ensures c != [] && s.threads[a.t].oldHead == c[0]
    ensures Shape(Next(s, a), c[1..])
  {
    var s', c' := Next(s, a), c[1..];
    assert LocalOk(s, c, s.threads[a.t]);
    assert c[0] !in c' && forall i :: 0 <= i <= |c'| ==> Entry(c', i) == Entry(c, i + 1);
    forall u | 0 <= u < |s.threads| && u != a.t
      ensures LocalOk(s', c', s.threads[u]) && Apart(s'.threads[a.t], s.threads[u])
    {
      assert LocalOk(s, c, s.threads[u]);
      assert Apart(s.threads[a.t], s.threads[u]);
    }
    Move(s, c, s', c', a.t);
  }

  lemma ShapeSwapIn(s: State, c: seq<Addr>, a: Action)
    requires Shape(s, c) && Enabled(s, a) && SwapsIn(s, a)
    ensures Shape(Next(s, a), [s.threads[a.t].node] + c)
  {
    var s', c' := Next(s, a), [s.threads[a.t].node] + c;
    assert LocalOk(s, c, s.threads[a.t]);
    forall u | 0 <= u < |s.threads| && u != a.t
      ensures LocalOk(s', c', s.threads[u]) && Apart(s'.threads[a.t], s.threads[u])
    {
      assert LocalOk(s, c, s.threads[u]);
      assert Apart(s.threads[a.t], s.threads[u]);
    }
    Move(s, c, s', c', a.t);
  }

  lemma ShapeFreeTop(s: State, c: seq<Addr>, a: Action)
    requires Shape(s, c) && Enabled(s, a) && a.FreeTop?
    ensures c != [] && Shape(Next(s, a), c[1..])
  {
  }

  lemma ShapeBeginDestroy(s: State, c: seq<Addr>, a: Action)
    requires Shape(s, c) && Enabled(s, a) && a.BeginDestroy?
    ensures Shape(Next(s, a), c)
  {
  }

  lemma ShapeStep(s: State, c: seq<Addr>, a: Action)
    requires Shape(s, c) && Enabled(s, a) && NotReissued(s, a)
    ensures Shape(Next(s, a), NextChain(s, c, a))
  {
    if Quiet(s, a) {
      ShapeQuiet(s, c, a);
    } else {
      match a
      case TakeObject(_) => ShapeTake(s, c, a);
      case AllocNode(_, _) => ShapeAlloc(s, c, a);
      case Link(_) => ShapeLink(s, c, a);
      case SwapOut(_, _) => ShapeSwapOut(s, c, a);
      case SwapIn(_, _) => ShapeSwapIn(s, c, a);
      case BeginDestroy => ShapeBeginDestroy(s, c, a);
      case FreeTop => ShapeFreeTop(s, c, a);
    }
  }

  // ----- where each object is -----

  datatype Place = InNode(a: Addr) | InThread(t: nat) | WithClient | Destroyed

  function Carried(s: State, th: Thread): Option<Obj> {
    if th.PushCheck? || th.PushAlloc? then Some(th.obj)
    else if Owned(th).Some? && Owned(th).value in s.nodes then Some(s.nodes[Owned(th).value].obj)
    else None
  }

  ghost predicate Holds(s: State, c: seq<Addr>, p: Place, o: Obj) {
    match p
    case InNode(a) => a in c && a in s.nodes && s.nodes[a].obj == o
    case InThread(t) => t < |s.threads| && Carried(s, s.threads[t]) == Some(o)
    case WithClient => o in s.clients
    case Destroyed => o in s.destroyed
  }

  /** `w` names the one place of every object constructed so far, and nothing else is anywhere. */
  ghost predicate Placed(s: State, c: seq<Addr>, w: map<Obj, Place>) {
    && (forall o: Obj :: o in w <==> o < s.created)
    && (forall o :: o in w ==> Holds(s, c, w[o], o))
    && (forall p, o :: Holds(s, c, p, o) ==> o in w && w[o] == p)
  }

  ghost function NextPlaces(s: State, w: map<Obj, Place>, a: Action): map<Obj, Place>
    requires Enabled(s, a)
  {
    match a
    case SwapOut(t, _) =>
      if SwapsOut(s, a) && s.head.value in s.nodes then w[s.nodes[s.head.value].obj := InThread(t)] else w
    case SwapIn(t, _) =>
      var n := s.threads[t].node;
      if SwapsIn(s, a) && n in s.nodes then w[s.nodes[n].obj := InNode(n)] else w
    case TakeObject(t) => w[s.nodes[s.threads[t].node].obj := WithClient]
    case MakeObject(_) => w[s.created := WithClient]
    case Release(t, o) => w[o := if s.alive then InThread(t) else Destroyed]
    case CheckCount(t) => if s.count >= s.max then w[s.threads[t].obj := Destroyed] else w
    case FreeTop => w[s.nodes[s.head.value].obj := Destroyed]
    case _ => w
  }

  lemma Relocate(s: State, c: seq<Addr>, w: map<Obj, Place>, s': State, c': seq<Addr>, o: Obj, p: Place)
    requires Placed(s, c, w) && o in w && s'.created == s.created
    requires Holds(s', c', p, o)
    requires forall q, x :: Holds(s', c', q, x) ==> (q == p && x == o) || (Holds(s, c, q, x) && !(q == w[o] && x == o))
    requires forall q, x :: Holds(s, c, q, x) && x != o ==> Holds(s', c', q, x)
    ensures Placed(s', c', w[o := p])
  {
  }

  lemma Stay(s: State, c: seq<Addr>, w: map<Obj, Place>, s': State, c': seq<Addr>)
    requires Placed(s, c, w) && s'.created == s.created
    requires forall q, x :: Holds(s', c', q, x) <==> Holds(s, c, q, x)
    ensures Placed(s', c', w)
  {
  }

  /** What the nodes, the chain and the carrying threads contribute when thread `t` alone changes. */
  lemma CarriedElsewhere(s: State, c: seq<Addr>, a: Action, t: nat, u: nat)
    requires Shape(s, c) && Enabled(s, a) && t < |s.threads| && u < |s.threads| && u != t
    requires a.TakeObject? || a.AllocNode? || a.Link?
    requires a.t == t
    ensures Carried(Next(s, a), Next(s, a).threads[u]) == Carried(s, s.threads[u])
  {
  }

  lemma SameElsewhere(s: State, s': State, t: nat)
    requires t < |s.threads| == |s'.threads| && s'.threads == s.threads[t := s'.threads[t]]
    requires s'.nodes == s.nodes
    ensures forall u :: 0 <= u < |s.threads| && u != t ==> Carried(s', s'.threads[u]) == Carried(s, s.threads[u])
  {
  }

  lemma PlacesTake(s: State, c: seq<Addr>, w: map<Obj, Place>, a: Action)
    requires Shape(s, c) && Placed(s, c, w) && Enabled(s, a) && a.TakeObject?
    ensures Placed(Next(s, a), c, NextPlaces(s, w, a))
  {
    var s', n := Next(s, a), s.threads[a.t].node;
    var o := s.nodes[n].obj;
    assert LocalOk(s, c, s.threads[a.t]);
    assert Holds(s, c, InThread(a.t), o);
    forall u | 0 <= u < |s.threads| && u != a.t
      ensures Carried(s', s'.threads[u]) == Carried(s, s.threads[u])
    {
      CarriedElsewhere(s, c, a, a.t, u);
    }
    forall q, x | Holds(s', c, q, x)
      ensures (q == WithClient && x == o) || (Holds(s, c, q, x) && !(q == w[o] && x == o))
    {
      match q case InNode(_) => case InThread(u) => case WithClient => case Destroyed =>
    }
    Relocate(s, c, w, s', c, o, WithClient);
  }

  lemma PlacesSameOwner(s: State, c: seq<Addr>, w: map<Obj, Place>, a: Action)
    requires Shape(s, c) && Placed(s, c, w) && Enabled(s, a) && (a.AllocNode? || a.Link?)
    ensures Placed(Next(s, a), c, w)
  {
    var s' := Next(s, a);
    assert LocalOk(s, c, s.threads[a.t]);
    forall u | 0 <= u < |s.threads|
      ensures Carried(s', s'.threads[u]) == Carried(s, s.threads[u])
    {
      if u != a.t {
        CarriedElsewhere(s, c, a, a.t, u);
      }
    }
    Stay(s, c, w, s', c);
  }

  lemma TopToThread(s: State, c: seq<Addr>, w: map<Obj, Place>, s': State, t: nat)
    requires Placed(s, c, w) && c != [] && c[0] in s.nodes && c[0] !in c[1..]
    requires t < |s.threads| == |s'.threads| && s'.threads == s.threads[t := s'.threads[t]]
    requires s' == s.(threads := s'.threads, head := s'.head)
    requires Carried(s, s.threads[t]) == None && Carried(s', s'.threads[t]) == Some(s.nodes[c[0]].obj)
    ensures Placed(s', c[1..], w[s.nodes[c[0]].obj := InThread(t)])
  {
    var c', o := c[1..], s.nodes[c[0]].obj;
    assert Holds(s, c, InNode(c[0]), o);
    assert forall x :: x in c <==> x == c[0] || x in c';
    SameElsewhere(s, s', t);
    forall q, x | Holds(s', c', q, x)
      ensures (q == InThread(t) && x == o) || (Holds(s, c, q, x) && !(q == w[o] && x == o))
    {
      match q case InNode(_) => case InThread(u) => case WithClient => case Destroyed =>
    }
    forall q, x | Holds(s, c, q, x) && x != o
      ensures Holds(s', c', q, x)
    {
      match q case InNode(_) => case InThread(u) => case WithClient => case Destroyed =>
    }
    Relocate(s, c, w, s', c', o, InThread(t));
  }

  lemma PlacesSwapOut(s: State, c: seq<Addr>, w: map<Obj, Place>, a: Action)
    requires Shape(s, c) && Placed(s, c, w) && Enabled(s, a) && SwapsOut(s, a)
    ensures c != [] && Placed(Next(s, a), c[1..], NextPlaces(s, w, a))
  {
    assert c[0] !in c[1..];
    TopToThread(s, c, w, Next(s, a), a.t);
  }

  lemma PlacesSwapIn(s: State, c: seq<Addr>, w: map<Obj, Place>, a: Action)
    requires Shape(s, c) && Placed(s, c, w) && Enabled(s, a) && SwapsIn(s, a)
    ensures Placed(Next(s, a), [s.threads[a.t].node] + c, NextPlaces(s, w, a))
  {
    var n := s.threads[a.t].node;
    var s', c', o := Next(s, a), [n] + c, s.nodes[n].obj;
    assert LocalOk(s, c, s.threads[a.t]);
    assert Holds(s, c, InThread(a.t), o);
    assert forall x :: x in c' <==> x == n || x in c;
    assert Carried(s', s'.threads[a.t]) == None;
    SameElsewhere(s, s', a.t);
    forall q, x | Holds(s', c', q, x)
      ensures (q == InNode(n) && x == o) || (Holds(s, c, q, x) && !(q == w[o] && x == o))
    {
      match q case InNode(_) => case InThread(u) => case WithClient => case Destroyed =>
    }
    forall q, x | Holds(s, c, q, x) && x != o
      ensures Holds(s', c', q, x)
    {
      match q case InNode(_) => case InThread(u) => case WithClient => case Destroyed =>
    }
    Relocate(s, c, w, s', c', o, InNode(n));
  }

  lemma PlacesFreeTop(s: State, c: seq<Addr>, w: map<Obj, Place>, a: Action)
    requires Shape(s, c) && Placed(s, c, w) && Enabled(s, a) && a.FreeTop?
    ensures c != [] && Placed(Next(s, a), c[1..], NextPlaces(s, w, a))
  {
    var s', c' := Next(s, a), c[1..];
    var o := s.nodes[c[0]].obj;
    assert Holds(s, c, InNode(c[0]), o);
    assert c[0] !in c' && forall x :: x in c <==> x == c[0] || x in c';
    forall q, x | Holds(s', c', q, x)
      ensures (q == Destroyed && x == o) || (Holds(s, c, q, x) && !(q == w[o] && x == o))
    {
      match q case InNode(_) => case InThread(u) => case WithClient => case Destroyed =>
    }
    forall q, x | Holds(s, c, q, x) && x != o
      ensures Holds(s', c', q, x)
    {
      match q case InNode(_) => case InThread(u) => case WithClient => case Destroyed =>
    }
    Relocate(s, c, w, s', c', o, Destroyed);
  }

  lemma PlacesMake(s: State, c: seq<Addr>, w: map<Obj, Place>, a: Action)
    requires Shape(s, c) && Placed(s, c, w) && Enabled(s, a) && a.MakeObject?
    ensures Placed(Next(s, a), c, NextPlaces(s, w, a))
  {
    var s', w' := Next(s, a), NextPlaces(s, w, a);
    SameElsewhere(s, s', a.t);
    forall q, x | Holds(s', c, q, x)
      ensures x in w' && w'[x] == q
    {
      if x == s.created {
        assert !Holds(s, c, q, x);
      } else {
        assert Holds(s, c, q, x);
      }
    }
    forall x | x in w' ensures Holds(s', c, w'[x], x) {
      if x != s.created {
        assert Holds(s, c, w[x], x);
      }
    }
  }

  lemma PlacesRelease(s: State, c: seq<Addr>, w: map<Obj, Place>, a: Action)
    requires Shape(s, c) && Placed(s, c, w) && Enabled(s, a) && a.Release?
    ensures Placed(Next(s, a), c, NextPlaces(s, w, a))
  {
    var s' := Next(s, a);
    assert Holds(s, c, WithClient, a.o);
    Relocate(s, c, w, s', c, a.o, NextPlaces(s, w, a)[a.o]);
  }

  lemma PlacesCheck(s: State, c: seq<Addr>, w: map<Obj, Place>, a: Action)
    requires Shape(s, c) && Placed(s, c, w) && Enabled(s, a) && a.CheckCount?
    ensures Placed(Next(s, a), c, NextPlaces(s, w, a))
  {
    var s', o := Next(s, a), s.threads[a.t].obj;
    assert Holds(s, c, InThread(a.t), o);
    if s.count >= s.max {
      Relocate(s, c, w, s', c, o, Destroyed);
    } else {
      Stay(s, c, w, s', c);
    }
  }

  lemma PlacesQuiet(s: State, c: seq<Addr>, w: map<Obj, Place>, a: Action)
    requires Shape(s, c) && Placed(s, c, w) && Enabled(s, a) && (Quiet(s, a) || a.BeginDestroy?)
    requires !a.Release? && !a.CheckCount? && !a.MakeObject?
    ensures Placed(Next(s, a), c, w)
  {
    var s' := Next(s, a);
    if !a.BeginDestroy? {
      assert Carried(s', s'.threads[a.t]) == Carried(s, s.threads[a.t]);
      SameElsewhere(s, s', a.t);
    }
    Stay(s, c, w, s', c);
  }

  lemma PlacesStep(s: State, c: seq<Addr>, w: map<Obj, Place>, a: Action)
    requires Shape(s, c) && Placed(s, c, w) && Enabled(s, a)
    ensures Placed(Next(s, a), NextChain(s, c, a), NextPlaces(s, w, a))
  {
    hide Placed, Shape, Next;
    match a
    case Release(_, _) => PlacesRelease(s, c, w, a);
    case CheckCount(_) => PlacesCheck(s, c, w, a);
    case MakeObject(_) => PlacesMake(s, c, w, a);
    case TakeObject(_) => PlacesTake(s, c, w, a);
    case AllocNode(_, _) => PlacesSameOwner(s, c, w, a);
    case Link(_) => PlacesSameOwner(s, c, w, a);
    case FreeTop => PlacesFreeTop(s, c, w, a);
    case SwapOut(_, _) =>
      if SwapsOut(s, a) { PlacesSwapOut(s, c, w, a); } else { PlacesQuiet(s, c, w, a); }
    case SwapIn(_, _) =>
      if SwapsIn(s, a) { PlacesSwapIn(s, c, w, a); } else { PlacesQuiet(s, c, w, a); }
    case _ => PlacesQuiet(s, c, w, a);
  }

  // ----- the lagging counter -----

  datatype Kind = Armed | Adding | Subbing

  /** Armed: past the capacity check, not yet in the stack. Adding and Subbing: compare-exchange done,
      counter update pending. */
  function Weight(th: Thread, k: Kind): nat {
    match k
    case Armed => if th.PushAlloc? || Pushing(th) then 1 else 0
    case Adding => if th == PushAdd then 1 else 0
    case Subbing => if th.PopSub? then 1 else 0
  }

  function Tally(ths: seq<Thread>, k: Kind): nat {
    if ths == [] then 0 else Weight(ths[0], k) + Tally(ths[1..], k)
  }

  lemma {:induction false} TallyUpdate(ths: seq<Thread>, t: nat, th: Thread, k: Kind)
    requires t < |ths|
    ensures Tally(ths[t := th], k) == Tally(ths, k) - Weight(ths[t], k) + Weight(th, k)
  {
    var ths' := ths[t := th];
    if t == 0 {
      assert ths'[1..] == ths[1..];
    } else {
      assert ths'[1..] == ths[1..][t - 1 := th];
      TallyUpdate(ths[1..], t - 1, th, k);
    }
  }

  lemma {:induction false} TallyAtMost(ths: seq<Thread>)
    ensures Tally(ths, Armed) + Tally(ths, Adding) + Tally(ths, Subbing) <= |ths|
  {
    if ths != [] {
      TallyAtMost(ths[1..]);
    }
  }

  lemma {:induction false} TallyZero(ths: seq<Thread>, k: Kind)
    ensures Tally(ths, k) == 0 <==> forall t :: 0 <= t < |ths| ==> Weight(ths[t], k) == 0
  {
    if ths != [] {
      TallyZero(ths[1..], k);
      assert ths == [ths[0]] + ths[1..];
      assert forall t :: 0 < t < |ths| ==> ths[t] == ths[1..][t - 1];
    }
  }

  /** The counter is the stack length minus pending increments plus pending decrements, as a machine word;
      and the race between the capacity check and the push overshoots by at most one per thread. */
  ghost predicate Counted(s: State, c: seq<Addr>) {
    && (s.alive ==> s.count == (|c| - Tally(s.threads, Adding) + Tally(s.threads, Subbing)) % SIZE_T)
    && |c| + Tally(s.threads, Subbing) + Tally(s.threads, Armed) <= s.max + |s.threads| - 1
    && s.max + |s.threads| <= SIZE_T
  }

  lemma TallyStep(s: State, a: Action, t: nat, k: Kind)
    requires Enabled(s, a) && !a.BeginDestroy? && !a.FreeTop? && a.t == t
    ensures |Next(s, a).threads| == |s.threads|
    ensures Tally(Next(s, a).threads, k)
            == Tally(s.threads, k) - Weight(s.threads[t], k) + Weight(Next(s, a).threads[t], k)
  {
    var s' := Next(s, a);
    TallyUpdate(s.threads, t, s'.threads[t], k);
    assert s'.threads == s.threads[t := s'.threads[t]];
  }

  lemma WordStep(x: int, d: int)
    ensures (x % SIZE_T + d) % SIZE_T == (x + d) % SIZE_T
  {
  }

  lemma CountedWord(s: State, c: seq<Addr>, a: Action)
    requires s.alive && Counted(s, c) && Enabled(s, a) && (a.CountDown? || a.CountUp?)
    ensures Counted(Next(s, a), c)
  {
    TallyStep(s, a, a.t, Armed);
    TallyStep(s, a, a.t, Adding);
    TallyStep(s, a, a.t, Subbing);
    hide Tally;
    var balance := |c| - Tally(s.threads, Adding) + Tally(s.threads, Subbing);
    if a.CountUp? {
      WordStep(balance, 1);
    } else {
      WordStep(balance, -1);
    }
  }

  lemma CountedSwap(s: State, c: seq<Addr>, a: Action)
    requires s.alive && Counted(s, c) && Enabled(s, a) && (SwapsIn(s, a) || (SwapsOut(s, a) && c != []))
    ensures Counted(Next(s, a), NextChain(s, c, a))
  {
    hide Tally;
    TallyStep(s, a, a.t, Armed);
    TallyStep(s, a, a.t, Adding);
    TallyStep(s, a, a.t, Subbing);
  }

  lemma SmallWord(x: int)
    requires -SIZE_T <= x < SIZE_T
    ensures x % SIZE_T == if x >= 0 then x else x + SIZE_T
  {
  }

  /** A counter below the capacity is not a wrapped one, so the stack is that short. */
  lemma RoomSeen(s: State, c: seq<Addr>)
    requires Counted(s, c) && s.alive && s.count < s.max
    ensures |c| + Tally(s.threads, Subbing) <= s.max - 1 + Tally(s.threads, Adding)
  {
  }

  lemma CountedCheck(s: State, c: seq<Addr>, a: Action)
    requires s.alive && Counted(s, c) && Enabled(s, a) && a.CheckCount?
    ensures Counted(Next(s, a), c)
  {
    TallyStep(s, a, a.t, Armed);
    TallyStep(s, a, a.t, Adding);
    TallyStep(s, a, a.t, Subbing);
    if s.count < s.max {
      RoomSeen(s, c);
      TallyAtMost(Next(s, a).threads);
    }
  }

  /** Steps off the stack and the counter leave a thread's weights alone. */
  lemma OtherEffect(s: State, a: Action, k: Kind)
    requires s.alive && Enabled(s, a)
    requires !a.CountDown? && !a.CountUp? && !a.CheckCount? && !SwapsIn(s, a) && !SwapsOut(s, a)
    requires !a.BeginDestroy? && !a.FreeTop?
    ensures
      var s' := Next(s, a);
      && s'.alive && s'.count == s.count && s'.max == s.max && |s'.threads| == |s.threads|
      && Weight(s'.threads[a.t], k) == Weight(s.threads[a.t], k)
  {
  }

  lemma CountedOther(s: State, c: seq<Addr>, a: Action)
    requires s.alive && Counted(s, c) && Enabled(s, a)
    requires !a.CountDown? && !a.CountUp? && !a.CheckCount? && !SwapsIn(s, a) && !SwapsOut(s, a)
    requires !a.BeginDestroy? && !a.FreeTop?
    ensures Counted(Next(s, a), c)
  {
    hide Next, Weight, Tally;
    forall k: Kind
      ensures Tally(Next(s, a).threads, k) == Tally(s.threads, k)
    {
      TallyStep(s, a, a.t, k);
      OtherEffect(s, a, k);
    }
    OtherEffect(s, a, Armed);
  }

  lemma CountedStep(s: State, c: seq<Addr>, a: Action)
    requires Shape(s, c) && Counted(s, c) && Enabled(s, a)
    ensures Counted(Next(s, a), NextChain(s, c, a))
  {
    if SwapsIn(s, a) || SwapsOut(s, a) {
      CountedSwap(s, c, a);
    } else {
      match a
      case CountDown(_) => CountedWord(s, c, a);
      case CountUp(_) => CountedWord(s, c, a);
      case CheckCount(_) => CountedCheck(s, c, a);
      case BeginDestroy =>
      case FreeTop =>
      case Release(_, _) => if s.alive { CountedOther(s, c, a); }
      case _ => CountedOther(s, c, a);
    }
  }

  // ----- runs -----

  /** The state after a run, or none when some step of it cannot happen. */
  ghost function Exec(s: State, run: seq<Action>): Option<State> {
    if run == [] then Some(s)
    else
      var n := |run| - 1;
      var before := Exec(s, run[..n]);
      if before.Some? && Enabled(before.value, run[n]) && NotReissued(before.value, run[n])
      then Some(Next(before.value, run[n]))
      else None
  }

  /** A pop that finds nothing is an operation too. */
  datatype Op = Push(obj: Obj) | Pop(obj: Obj) | PopEmpty

  predicate FindsEmpty(s: State, a: Action) { a.LoadTop? && s.head == None }

  /** The stack operation a step linearizes. */
  ghost function OpOf(s: State, a: Action): seq<Op> {
    if FindsEmpty(s, a) then [PopEmpty]
    else if SwapsIn(s, a) && s.threads[a.t].node in s.nodes then [Push(s.nodes[s.threads[a.t].node].obj)]
    else if SwapsOut(s, a) && s.threads[a.t].oldHead in s.nodes then [Pop(s.nodes[s.threads[a.t].oldHead].obj)]
    else []
  }

  ghost function Ops(s: State, run: seq<Action>): seq<Op> {
    if run == [] then []
    else
      var n := |run| - 1;
      var before := Exec(s, run[..n]);
      Ops(s, run[..n]) + if before.Some? then OpOf(before.value, run[n]) else []
  }

  /** A sequential last-in first-out stack, top first; a pop gives the top, or nothing when the stack is empty. */
  function Replay(ops: seq<Op>): Option<seq<Obj>> {
    if ops == [] then Some([])
    else
      var n := |ops| - 1;
      match Replay(ops[..n])
      case None => None
      case Some(stack) =>
        match ops[n]
        case Push(o) => Some([o] + stack)
        case Pop(o) => if stack != [] && stack[0] == o then Some(stack[1..]) else None
        case PopEmpty => if stack == [] then Some([]) else None
  }

  ghost function Objects(s: State, c: seq<Addr>): seq<Obj>
    requires Chain(s, c)
  {
    seq(|c|, i requires 0 <= i < |c| => s.nodes[c[i]].obj)
  }

  ghost predicate Inv(s: State, c: seq<Addr>, w: map<Obj, Place>) {
    Shape(s, c) && Placed(s, c, w) && Counted(s, c)
  }

  lemma ObjectsKept(s: State, c: seq<Addr>, a: Action)
    requires Shape(s, c) && Enabled(s, a) && NotReissued(s, a)
    ensures forall x :: x in NextChain(s, c, a) && x in s.nodes ==>
              x in Next(s, a).nodes && Next(s, a).nodes[x].obj == s.nodes[x].obj
  {
    ShapeStep(s, c, a);
    if !a.BeginDestroy? && !a.FreeTop? {
      assert LocalOk(s, c, s.threads[a.t]);
    }
  }

  /** What a step does to the objects in the stack. */
  lemma ObjectsStep(s: State, c: seq<Addr>, a: Action)
    requires Shape(s, c) && Enabled(s, a) && NotReissued(s, a) && !a.FreeTop?
    ensures Shape(Next(s, a), NextChain(s, c, a))
    ensures
      var before, after, op := Objects(s, c), Objects(Next(s, a), NextChain(s, c, a)), OpOf(s, a);
      || (op == [PopEmpty] && before == [] && after == [])
      || (exists o :: op == [Push(o)] && after == [o] + before)
      || (before != [] && op == [Pop(before[0])] && after == before[1..])
      || (op == [] && after == before)
  {
    ShapeStep(s, c, a);
    ObjectsKept(s, c, a);
    var s', c' := Next(s, a), NextChain(s, c, a);
    if FindsEmpty(s, a) {
      assert Objects(s', c') == Objects(s, c) == [];
    } else if SwapsIn(s, a) {
      assert LocalOk(s, c, s.threads[a.t]);
      var o := s.nodes[s.threads[a.t].node].obj;
      assert Objects(s', c') == [o] + Objects(s, c);
    } else if SwapsOut(s, a) {
      assert Objects(s', c') == Objects(s, c)[1..];
    } else {
      assert Objects(s', c') == Objects(s, c);
    }
  }

  lemma OpsStep(s: State, c: seq<Addr>, a: Action, ops: seq<Op>)
    requires Shape(s, c) && Enabled(s, a) && NotReissued(s, a) && !a.FreeTop?
    requires Replay(ops) == Some(Objects(s, c))
    ensures Shape(Next(s, a), NextChain(s, c, a))
    ensures Replay(ops + OpOf(s, a)) == Some(Objects(Next(s, a), NextChain(s, c, a)))
  {
    ObjectsStep(s, c, a);
    hide Next, NextChain, Shape, Objects, OpOf, Enabled;
    var op := OpOf(s, a);
    if op == [] {
      assert ops + op == ops;
    } else {
      assert (ops + op)[..|ops|] == ops;
    }
  }

  lemma InvStep(s: State, c: seq<Addr>, w: map<Obj, Place>, a: Action)
    requires Inv(s, c, w) && Enabled(s, a) && NotReissued(s, a)
    requires 1 <= |s.threads| && s.max + |s.threads| <= SIZE_T
    ensures Inv(Next(s, a), NextChain(s, c, a), NextPlaces(s, w, a))
    ensures Next(s, a).max == s.max && |Next(s, a).threads| == |s.threads|
    ensures Shape(s, c) && (Next(s, a).alive ==> s.alive && !a.FreeTop?)
  {
    ShapeStep(s, c, a);
    PlacesStep(s, c, w, a);
    CountedStep(s, c, a);
    hide Shape, Placed, Counted, NextChain, NextPlaces;
  }

  /** Every run keeps the whole invariant, and its compare-exchanges replay on a sequential stack. */
  lemma {:induction false} RunKeeps(threads: nat, max: nat, run: seq<Action>) returns (c: seq<Addr>, w: map<Obj, Place>)
    requires 1 <= threads && max + threads <= SIZE_T
    requires Exec(Init(threads, max), run).Some?
    ensures
      var s := Exec(Init(threads, max), run).value;
      && Inv(s, c, w) && s.max == max && |s.threads| == threads
      && (s.alive ==> Replay(Ops(Init(threads, max), run)) == Some(Objects(s, c)))
  {
    var s0 := Init(threads, max);
    if run == [] {
      c, w := [], map[];
      TallyZero(s0.threads, Armed);
      TallyZero(s0.threads, Adding);
      TallyZero(s0.threads, Subbing);
      assert Objects(s0, c) == [];
    } else {
      var n := |run| - 1;
      var s, a := Exec(s0, run[..n]).value, run[n];
      var c0, w0 := RunKeeps(threads, max, run[..n]);
      c, w := NextChain(s, c0, a), NextPlaces(s, w0, a);
      InvStep(s, c0, w0, a);
      hide Inv, NextChain, NextPlaces;
      if Next(s, a).alive {
        OpsStep(s, c0, a, Ops(s0, run[..n]));
      }
      hide Next;
    }
  }

  ghost predicate Reachable(threads: nat, max: nat, s: State) {
    exists run :: Exec(Init(threads, max), run) == Some(s)
  }

  ghost function Reach(threads: nat, max: nat): iset<State> {
    iset s | Reachable(threads, max, s)
  }

  ghost predicate Somewhere(s: State, c: seq<Addr>, o: Obj) {
    exists p :: Holds(s, c, p, o)
  }

  ghost predicate OnePlaceEach(s: State, c: seq<Addr>) {
    && (forall o: Obj :: Somewhere(s, c, o) <==> o < s.created)
    && (forall p, q, o: Obj :: Holds(s, c, p, o) && Holds(s, c, q, o) ==> p == q)
  }

  /** In every reachable state each constructed object is in exactly one place:
      a node of the stack, one thread, a client, or destroyed. */
  lemma EveryObjectInOnePlace(threads: nat, max: nat, s: State)
    requires 1 <= threads && max + threads <= SIZE_T && s in Reach(threads, max)
    ensures exists c :: Shape(s, c) && OnePlaceEach(s, c)
  {
    var run :| Exec(Init(threads, max), run) == Some(s);
    var c, w := RunKeeps(threads, max, run);
    forall o: Obj ensures Somewhere(s, c, o) <==> o < s.created {
      if o in w {
        assert Holds(s, c, w[o], o);
      }
    }
    assert OnePlaceEach(s, c);
  }

  /** Atomic last-in first-out behaviour of every run, whatever the interleaving. */
  lemma Linearizable(threads: nat, max: nat, run: seq<Action>)
    requires 1 <= threads && max + threads <= SIZE_T
    requires Exec(Init(threads, max), run).Some? && Exec(Init(threads, max), run).value.alive
    ensures
      var s := Exec(Init(threads, max), run).value;
      exists c :: Shape(s, c) && Replay(Ops(Init(threads, max), run)) == Some(Objects(s, c))
  {
    var c, w := RunKeeps(threads, max, run);
  }

  /** The capacity check and the push are not atomic; still the stack never exceeds `max - 1 + threads`,
      and the counter is exact whenever no thread is between its compare-exchange and its counter update. */
  lemma StackBounded(threads: nat, max: nat, s: State, c: seq<Addr>)
    requires 1 <= threads && max + threads <= SIZE_T && s in Reach(threads, max) && Chain(s, c)
    ensures |c| <= max - 1 + threads
    ensures s.alive && CountersSettled(s) ==> s.count == |c|
  {
    var run :| Exec(Init(threads, max), run) == Some(s);
    var d, w := RunKeeps(threads, max, run);
    ChainUnique(s, c, d, 0);
    if s.alive && CountersSettled(s) {
      SettledExact(s, d);
    }
  }

  lemma SettledExact(s: State, c: seq<Addr>)
    requires Counted(s, c) && s.alive && CountersSettled(s)
    ensures s.count == |c|
  {
    TallyZero(s.threads, Adding);
    TallyZero(s.threads, Subbing);
    TallyAtMost(s.threads);
    SmallWord(|c|);
  }

  ghost predicate CountersSettled(s: State) {
    forall t :: 0 <= t < |s.threads| ==> !s.threads[t].PopSub? && s.threads[t] != PushAdd
  }

  lemma {:induction false} ChainUnique(s: State, c: seq<Addr>, d: seq<Addr>, i: nat)
    requires Chain(s, c) && Chain(s, d) && i <= |c| && i <= |d|
    requires forall j :: 0 <= j < i ==> c[j] == d[j]
    ensures c == d
    decreases |c| - i
  {
    assert Entry(c, i) == Entry(d, i) by {
      if i > 0 {
        assert c[i - 1] == d[i - 1];
        assert s.nodes[c[i - 1]].next == Entry(c, i) && s.nodes[d[i - 1]].next == Entry(d, i);
      }
    }
    if i < |c| {
      ChainUnique(s, c, d, i + 1);
    }
  }

  // ----- concrete runs: what the code does allow -----

  /** A set of states closed under every step of the pool. */
  ghost predicate Inductive(r: iset<State>) {
    forall s, a :: s in r && Enabled(s, a) && NotReissued(s, a) ==> Next(s, a) in r
  }

  lemma Extend(r: iset<State>, s: State, a: Action)
    requires Inductive(r) && s in r && Enabled(s, a) && NotReissued(s, a)
    ensures Next(s, a) in r
  {
  }

  lemma ReachableInductive(threads: nat, max: nat)
    ensures Inductive(Reach(threads, max)) && Init(threads, max) in Reach(threads, max)
  {
    var r := Reach(threads, max);
    forall s, a | s in r && Enabled(s, a) && NotReissued(s, a) ensures Next(s, a) in r {
      var run :| Exec(Init(threads, max), run) == Some(s);
      assert (run + [a])[..|run|] == run;
      assert Exec(Init(threads, max), run + [a]) == Some(Next(s, a));
    }
    assert Exec(Init(threads, max), []) == Some(Init(threads, max));
  }

  /** An uninterrupted push: afterwards only the counter update is pending. */
  lemma PushAlone(r: iset<State>, s: State, t: nat, x: Addr)
    requires Inductive(r) && s in r && t < |s.threads| && s.threads[t].PushAlloc? && x !in s.nodes
    requires forall u :: 0 <= u < |s.threads| ==> Held(s.threads[u]) == None
    ensures s.(head := Some(x), nodes := s.nodes[x := Node(s.threads[t].obj, s.head)],
               threads := s.threads[t := PushAdd]) in r
  {
    var o := s.threads[t].obj;
    Extend(r, s, AllocNode(t, x));
    var s1 := s.(threads := s.threads[t := PushLoad(x)], nodes := s.nodes[x := Node(o, None)]);
    assert Next(s, AllocNode(t, x)) == s1;
    Extend(r, s1, LoadForPush(t));
    var s2 := s1.(threads := s.threads[t := PushLink(x, s.head)]);
    assert Next(s1, LoadForPush(t)) == s2;
    Extend(r, s2, Link(t));
    var s3 := s2.(threads := s.threads[t := PushCas(x, s.head)], nodes := s.nodes[x := Node(o, s.head)]);
    assert Next(s2, Link(t)) == s3;
    Extend(r, s3, SwapIn(t, false));
    assert Next(s3, SwapIn(t, false)).threads == s.threads[t := PushAdd];
  }

  /** An uninterrupted pop: afterwards only the counter update is pending. */
  lemma PopAlone(r: iset<State>, s: State, t: nat)
    requires Inductive(r) && s in r && s.alive && t < |s.threads| && s.threads[t] == Idle
    requires s.head.Some? && s.head.value in s.nodes
    ensures s.(head := s.nodes[s.head.value].next, threads := s.threads[t := PopSub(s.head.value)]) in r
  {
    var x := s.head.value;
    Extend(r, s, BeginGet(t));
    var s1 := s.(threads := s.threads[t := PopLoad]);
    assert Next(s, BeginGet(t)) == s1;
    Extend(r, s1, LoadTop(t));
    var s2 := s.(threads := s.threads[t := PopNext(x)]);
    assert Next(s1, LoadTop(t)) == s2;
    Extend(r, s2, ReadNext(t, None));
    var s3 := s.(threads := s.threads[t := PopCas(x, s.nodes[x].next)]);
    assert Next(s2, ReadNext(t, None)) == s3;
    Extend(r, s3, SwapOut(t, false));
    assert Next(s3, SwapOut(t, false)).threads == s.threads[t := PopSub(x)];
  }

  /** An uninterrupted construction when the pool is empty. */
  lemma MakeAlone(r: iset<State>, s: State, t: nat)
    requires Inductive(r) && s in r && s.alive && t < |s.threads| && s.threads[t] == Idle && s.head == None
    ensures s.(clients := s.clients + {s.created}, created := s.created + 1) in r
  {
    Extend(r, s, BeginGet(t));
    var s1 := s.(threads := s.threads[t := PopLoad]);
    assert Next(s, BeginGet(t)) == s1;
    Extend(r, s1, LoadTop(t));
    var s2 := s.(threads := s.threads[t := Make]);
    assert Next(s1, LoadTop(t)) == s2;
    Extend(r, s2, MakeObject(t));
    assert Next(s2, MakeObject(t)).threads == s.threads;
  }

  /** A client releases an object and its thread passes the capacity check. */
  lemma ArmAlone(r: iset<State>, s: State, t: nat, o: Obj)
    requires Inductive(r) && s in r && s.alive && t < |s.threads| && s.threads[t] == Idle
    requires o in s.clients && s.count < s.max
    ensures s.(clients := s.clients - {o}, threads := s.threads[t := PushAlloc(o)]) in r
  {
    Extend(r, s, Release(t, o));
    var s1 := s.(clients := s.clients - {o}, threads := s.threads[t := PushCheck(o)]);
    assert Next(s, Release(t, o)) == s1;
    Extend(r, s1, CheckCount(t));
    assert Next(s1, CheckCount(t)).threads == s.threads[t := PushAlloc(o)];
  }

  function Ids(lo: nat, hi: nat): (ids: set<Obj>)
    ensures forall o: Obj :: o in ids <==> lo <= o < hi
  {
    if lo >= hi then {} else Ids(lo, hi - 1) + {hi - 1}
  }

  function Top(k: nat): Option<Addr> { if k == 0 then None else Some(k - 1) }

  /** `k` nodes, object `i` in the node of address `i`, the newest on top. */
  function Built(k: nat): (nodes: map<Addr, Node>)
    ensures forall i: Addr :: i in nodes <==> i < k
    ensures forall i :: 0 <= i < k ==> nodes[i] == Node(i, Top(i))
  {
    if k == 0 then map[] else Built(k - 1)[k - 1 := Node(k - 1, Top(k - 1))]
  }

  /** Threads below `done` have pushed without counting, threads below `armed` have passed the check. */
  function Crew(threads: nat, first: Obj, done: nat, armed: nat): (ths: seq<Thread>)
    ensures |ths| == threads
    ensures forall t :: 0 <= t < threads ==>
      ths[t] == if t < done then PushAdd else if t < armed then PushAlloc(first + t) else Idle
  {
    seq(threads, t requires 0 <= t => if t < done then PushAdd else if t < armed then PushAlloc(first + t) else Idle)
  }

  /** `k` objects in the stack, `counted` of them counted, objects `out..total` with clients. */
  function Stage(max: nat, counted: nat, k: nat, out: nat, total: nat, ths: seq<Thread>): State {
    State(max, true, Top(k), Built(k), counted, ths, Ids(out, total), {}, total)
  }

  lemma {:induction false} TotalMade(r: iset<State>, threads: nat, max: nat, total: nat)
    requires 1 <= threads && Inductive(r) && Init(threads, max) in r
    ensures Stage(max, 0, 0, 0, total, Crew(threads, 0, 0, 0)) in r
  {
    var idle := Crew(threads, 0, 0, 0);
    if total == 0 {
      assert idle == Init(threads, max).threads;
    } else {
      TotalMade(r, threads, max, total - 1);
      MakeAlone(r, Stage(max, 0, 0, 0, total - 1, idle), 0);
      assert Ids(0, total) == Ids(0, total - 1) + {total - 1};
    }
  }

  lemma {:induction false} Filled(r: iset<State>, threads: nat, max: nat, k: nat, total: nat)
    requires 1 <= threads && k < max <= SIZE_T && k <= total && Inductive(r) && Init(threads, max) in r
    ensures Stage(max, k, k, k, total, Crew(threads, 0, 0, 0)) in r
  {
    hide Inductive, Next, Enabled;
    if k == 0 {
      TotalMade(r, threads, max, total);
    } else {
      Filled(r, threads, max, k - 1, total);
      FillOne(r, max, k, total, Crew(threads, 0, 0, 0));
    }
  }

  lemma FillOne(r: iset<State>, max: nat, k: nat, total: nat, idle: seq<Thread>)
    requires 0 < k < max <= SIZE_T && k <= total && Inductive(r) && idle != []
    requires forall t :: 0 <= t < |idle| ==> idle[t] == Idle
    requires Stage(max, k - 1, k - 1, k - 1, total, idle) in r
    ensures Stage(max, k, k, k, total, idle) in r
  {
    hide Inductive, Next, Enabled;
    ArmAlone(r, Stage(max, k - 1, k - 1, k - 1, total, idle), 0, k - 1);
    assert Ids(k - 1, total) - {k - 1} == Ids(k, total);
    PushAlone(r, Stage(max, k - 1, k - 1, k, total, idle[0 := PushAlloc(k - 1)]), 0, k - 1);
    assert idle[0 := PushAlloc(k - 1)][0 := PushAdd] == idle[0 := PushAdd];
    CountAlone(r, Stage(max, k - 1, k, k, total, idle[0 := PushAdd]), 0);
    assert idle[0 := PushAdd][0 := Idle] == idle;
  }

  lemma CountAlone(r: iset<State>, s: State, t: nat)
    requires Inductive(r) && s in r && t < |s.threads| && s.threads[t] == PushAdd && s.count < SIZE_T - 1
    ensures s.(count := s.count + 1, threads := s.threads[t := Idle]) in r
  {
    Extend(r, s, CountUp(t));
  }

  lemma {:induction false} AllArmed(r: iset<State>, threads: nat, max: nat, m: nat)
    requires 1 <= max <= SIZE_T && 1 <= threads && m <= threads
    requires Inductive(r) && Init(threads, max) in r
    ensures Stage(max, max - 1, max - 1, max - 1 + m, max - 1 + threads, Crew(threads, max - 1, 0, m)) in r
  {
    var first, total := max - 1, max - 1 + threads;
    if m == 0 {
      Filled(r, threads, max, first, total);
      assert Crew(threads, first, 0, 0) == Crew(threads, 0, 0, 0);
    } else {
      AllArmed(r, threads, max, m - 1);
      var o := first + m - 1;
      ArmAlone(r, Stage(max, first, first, o, total, Crew(threads, first, 0, m - 1)), m - 1, o);
      assert Ids(o, total) - {o} == Ids(first + m, total);
      assert Crew(threads, first, 0, m - 1)[m - 1 := PushAlloc(o)] == Crew(threads, first, 0, m);
    }
  }

  lemma {:induction false} AllPushed(r: iset<State>, threads: nat, max: nat, j: nat)
    requires 1 <= max <= SIZE_T && 1 <= threads && j <= threads
    requires Inductive(r) && Init(threads, max) in r
    ensures
      Stage(max, max - 1, max - 1 + j, max - 1 + threads, max - 1 + threads, Crew(threads, max - 1, j, threads)) in r
  {
    var first, total := max - 1, max - 1 + threads;
    if j == 0 {
      AllArmed(r, threads, max, threads);
    } else {
      AllPushed(r, threads, max, j - 1);
      var k, before := first + j - 1, Crew(threads, first, j - 1, threads);
      PushAlone(r, Stage(max, first, k, total, total, before), j - 1, k);
      assert before[j - 1 := PushAdd] == Crew(threads, first, j, threads);
    }
  }

  function Descending(k: nat): (c: seq<Addr>)
    ensures |c| == k && forall i :: 0 <= i < k ==> c[i] == k - 1 - i
  {
    if k == 0 then [] else [k - 1] + Descending(k - 1)
  }

  lemma StageChain(s: State, k: nat)
    requires s.head == Top(k) && s.nodes == Built(k)
    ensures Chain(s, Descending(k))
  {
    var c := Descending(k);
    forall i | 0 <= i < |c| ensures c[i] in s.nodes && s.nodes[c[i]].next == Entry(c, i + 1) {
      assert s.nodes[k - 1 - i] == Node(k - 1 - i, Top(k - 1 - i));
    }
  }

  /** The bound of `StackBounded` is reached, for every capacity and every number of threads. */
  lemma BoundReached(threads: nat, max: nat) returns (s: State, c: seq<Addr>)
    requires 1 <= threads && 1 <= max && max + threads <= SIZE_T
    ensures s in Reach(threads, max) && Chain(s, c) && |c| == max - 1 + threads
  {
    var total := max - 1 + threads;
    var r := Reach(threads, max);
    ReachableInductive(threads, max);
    AllPushed(r, threads, max, threads);
    s := Stage(max, max - 1, total, total, total, Crew(threads, max - 1, threads, threads));
    c := Descending(total);
    StageChain(s, total);
  }

  /** The counter can be read as 2^64 - 1: a pop may be counted before the push it undoes. */
  lemma CounterWraps(max: nat) returns (s: State)
    requires 1 <= max <= SIZE_T
    ensures s in Reach(2, max) && s.count == 0xFFFF_FFFF_FFFF_FFFF
  {
    var r := Reach(2, max);
    ReachableInductive(2, max);
    TotalMade(r, 2, max, 2);
    hide Inductive, Next, Enabled;
    s := Stage(max, 0, 0, 0, 2, Crew(2, 0, 0, 0));
    ArmAlone(r, s, 0, 0);
    s := s.(clients := s.clients - {0}, threads := s.threads[0 := PushAlloc(0)]);
    PushAlone(r, s, 0, 7);
    s := s.(head := Some(7), nodes := s.nodes[7 := Node(0, s.head)], threads := s.threads[0 := PushAdd]);
    PopAlone(r, s, 1);
    s := s.(head := s.nodes[7].next, threads := s.threads[1 := PopSub(7)]);
    CountDownAlone(r, s, 1);
    s := s.(count := SIZE_T - 1, threads := s.threads[1 := Take(7)]);
  }

  lemma CountDownAlone(r: iset<State>, s: State, t: nat)
    requires Inductive(r) && s in r && t < |s.threads| && s.threads[t].PopSub? && s.count < SIZE_T
    ensures
      s.(count := if s.count == 0 then SIZE_T - 1 else s.count - 1,
         threads := s.threads[t := Take(s.threads[t].node)]) in r
  {
    Extend(r, s, CountDown(t));
  }

  /** Thread 0 has read that node 1 is followed by node 0; thread 1 has popped both and is about to push object 1. */
  const BEFORE_REISSUE := State(4, true, None, map[], 0, [PopCas(1, Some(0)), PushAlloc(1)], {0}, {}, 2)
  const AFTER_REISSUE := State(4, true, Some(1), map[1 := Node(1, None)], 0, [PopCas(1, Some(0)), PushAdd], {0}, {}, 2)

  /** Without the allocator's promise the stack breaks in a run from the start: thread 1 gets address 1 again for its
      new node and pushes it, and thread 0's exchange then succeeds and installs a pointer to freed memory. */
  lemma ReissueBreaksStack() returns (s: State)
    ensures BEFORE_REISSUE in Reach(2, 4)
    ensures Enabled(BEFORE_REISSUE, AllocNode(1, 1)) && !NotReissued(BEFORE_REISSUE, AllocNode(1, 1))
    ensures Doable(Next(BEFORE_REISSUE, AllocNode(1, 1)), [LoadForPush(1), Link(1), SwapIn(1, false)])
    ensures Final(Next(BEFORE_REISSUE, AllocNode(1, 1)), [LoadForPush(1), Link(1), SwapIn(1, false)]) == AFTER_REISSUE
    ensures Enabled(AFTER_REISSUE, SwapOut(0, false)) && s == Next(AFTER_REISSUE, SwapOut(0, false))
    ensures forall c :: !Chain(s, c)
  {
    ReachableInductive(2, 4);
    ReissueStart(Reach(2, 4));
    assert Held(BEFORE_REISSUE.threads[0]) == Some(1);
    ReissuePath();
    s := Next(AFTER_REISSUE, SwapOut(0, false));
    assert s.head == Some(0) && 0 !in s.nodes;
    forall c ensures !Chain(s, c) {
      if |c| > 0 && c[0] == 0 {
        assert c[0] !in s.nodes;
      }
    }
  }

  /**
  Whatever the allocator did: a pop's successful exchange removes the top node and nothing else exactly when the
  successor the thread has remembered is still the node's successor.
  */
  lemma ExchangeExactly(s: State, c: seq<Addr>, a: Action)
    requires Chain(s, c) && Enabled(s, a) && SwapsOut(s, a)
    ensures c != [] && (Chain(Next(s, a), c[1..]) <==> s.threads[a.t].next == s.nodes[c[0]].next)
  {
    assert c != [] by {
      assert s.head == Entry(c, 0);
    }
    var s', d := Next(s, a), c[1..];
    assert s'.nodes == s.nodes && s'.head == s.threads[a.t].next;
    assert s.nodes[c[0]].next == Entry(c, 1) == Entry(d, 0);
    forall i | 0 <= i < |d|
      ensures d[i] in s'.nodes && s'.nodes[d[i]].next == Entry(d, i + 1)
    {
      assert d[i] == c[i + 1];
    }
    hide Next;
  }

  /** An uninterrupted getObject that finds an object. */
  lemma GetAlone(r: iset<State>, s: State, t: nat)
    requires Inductive(r) && s in r && s.alive && t < |s.threads| && s.threads[t] == Idle && 0 < s.count < SIZE_T
    requires s.head.Some? && s.head.value in s.nodes
    ensures
      var x := s.head.value;
      s.(head := s.nodes[x].next, nodes := s.nodes - {x}, count := s.count - 1,
         clients := s.clients + {s.nodes[x].obj}) in r
  {
    var x := s.head.value;
    PopAlone(r, s, t);
    var s1 := s.(head := s.nodes[x].next, threads := s.threads[t := PopSub(x)]);
    Extend(r, s1, CountDown(t));
    var s2 := s1.(count := s.count - 1, threads := s.threads[t := Take(x)]);
    assert Next(s1, CountDown(t)) == s2;
    Extend(r, s2, TakeObject(t));
    assert Next(s2, TakeObject(t)).threads == s.threads;
  }

  /** Two stacked nodes, thread 0 stopped in front of its exchange. */
  const TWO_STACKED := State(
    4, true, Some(1), map[0 := Node(0, None), 1 := Node(1, Some(0))], 2, [PopCas(1, Some(0)), Idle], {}, {}, 2)

  lemma TwoStacked(r: iset<State>)
    requires Inductive(r) && Init(2, 4) in r
    ensures TWO_STACKED in r
  {
    Filled(r, 2, 4, 2, 2);
    var s := Stage(4, 2, 2, 2, 2, Crew(2, 0, 0, 0));
    assert s.threads == [Idle, Idle] && Ids(2, 2) == {};
    assert Built(2) == map[0 := Node(0, None), 1 := Node(1, Some(0))];
    Extend(r, s, BeginGet(0));
    var s1 := s.(threads := [PopLoad, Idle]);
    assert Next(s, BeginGet(0)) == s1;
    Extend(r, s1, LoadTop(0));
    var s2 := s.(threads := [PopNext(1), Idle]);
    assert Next(s1, LoadTop(0)) == s2;
    Extend(r, s2, ReadNext(0, None));
    assert Next(s2, ReadNext(0, None)).threads == TWO_STACKED.threads;
  }

  lemma ReissueStart(r: iset<State>)
    requires Inductive(r) && Init(2, 4) in r
    ensures BEFORE_REISSUE in r
  {
    TwoStacked(r);
    var s := TWO_STACKED;
    GetAlone(r, s, 1);
    var s1 := s.(head := Some(0), nodes := map[0 := Node(0, None)], count := 1, clients := {1});
    assert s.nodes - {1} == s1.nodes && s.clients + {1} == s1.clients;
    GetAlone(r, s1, 1);
    var s2 := s1.(head := None, nodes := map[], count := 0, clients := {0, 1});
    assert s1.nodes - {0} == s2.nodes && s1.clients + {0} == s2.clients;
    ArmAlone(r, s2, 1, 1);
    assert s2.clients - {1} == {0} && s2.threads[1 := PushAlloc(1)] == BEFORE_REISSUE.threads;
  }

  lemma ReissuePath()
    ensures Enabled(BEFORE_REISSUE, AllocNode(1, 1))
    ensures Doable(Next(BEFORE_REISSUE, AllocNode(1, 1)), [LoadForPush(1), Link(1), SwapIn(1, false)])
    ensures Final(Next(BEFORE_REISSUE, AllocNode(1, 1)), [LoadForPush(1), Link(1), SwapIn(1, false)]) == AFTER_REISSUE
  {
    var run := [LoadForPush(1), Link(1), SwapIn(1, false)];
    var s := BEFORE_REISSUE;
    var s1 := Next(s, AllocNode(1, 1));
    assert s1 == s.(threads := [PopCas(1, Some(0)), PushLoad(1)], nodes := map[1 := Node(1, None)]);
    var s2 := Next(s1, LoadForPush(1));
    assert s2 == s1.(threads := [PopCas(1, Some(0)), PushLink(1, None)]);
    var s3 := Next(s2, Link(1));
    assert s3 == s2.(threads := [PopCas(1, Some(0)), PushCas(1, None)]);
    assert Next(s3, SwapIn(1, false)) == AFTER_REISSUE;
    assert run[1..] == [Link(1), SwapIn(1, false)] && run[1..][1..] == [SwapIn(1, false)];
    assert Final(AFTER_REISSUE, []) == AFTER_REISSUE && Doable(AFTER_REISSUE, []);
    assert [SwapIn(1, false)][1..] == [];
    assert Final(s3, [SwapIn(1, false)]) == AFTER_REISSUE;
    assert Final(s2, run[1..]) == AFTER_REISSUE;
  }

  ghost predicate Doable(s: State, run: seq<Action>)
    decreases |run|
  {
    run == [] || (Enabled(s, run[0]) && NotReissued(s, run[0]) && Doable(Next(s, run[0]), run[1..]))
  }

  ghost function Final(s: State, run: seq<Action>): State
    requires Doable(s, run)
    decreases |run|
  {
    if run == [] then s else Final(Next(s, run[0]), run[1..])
  }

  function AsSet(objs: seq<Obj>): set<Obj> {
    set o | o in objs
  }

  lemma SplitHead(objs: seq<Obj>)
    requires objs != []
    ensures AsSet(objs) == {objs[0]} + AsSet(objs[1..])
  {
  }

  // ----- the pool object: one method per atomic access, and the source's loops around them -----

  /** The operations that thread `t` linearizes in a run. */
  ghost function OpsBy(s: State, run: seq<Action>, t: nat): seq<Op> {
    if run == [] then []
    else
      var n := |run| - 1;
      var before := Exec(s, run[..n]);
      OpsBy(s, run[..n], t) + if before.Some? && ByThread(run[n], t) then OpOf(before.value, run[n]) else []
  }

  predicate ByThread(a: Action, t: nat) { !a.BeginDestroy? && !a.FreeTop? && a.t == t }

  lemma OneMoreStep(s0: State, run: seq<Action>, s: State, a: Action, t: nat)
    requires Exec(s0, run) == Some(s) && Enabled(s, a) && NotReissued(s, a)
    ensures Exec(s0, run + [a]) == Some(Next(s, a))
    ensures OpsBy(s0, run + [a], t) == OpsBy(s0, run, t) + if ByThread(a, t) then OpOf(s, a) else []
  {
    assert (run + [a])[..|run|] == run;
  }

  lemma OthersStay(s: State, a: Action, t: nat)
    requires Enabled(s, a) && !ByThread(a, t) && t < |s.threads|
    ensures |Next(s, a).threads| == |s.threads| && Next(s, a).threads[t] == s.threads[t]
  {
  }

  lemma SameThreads(s: State, a: Action)
    requires Enabled(s, a)
    ensures |Next(s, a).threads| == |s.threads|
  {
  }

  lemma LoadEffect(s: State, t: nat)
    requires Enabled(s, LoadTop(t))
    ensures
      var s' := Next(s, LoadTop(t));
      |s'.threads| == |s.threads| && s'.threads[t] == if s.head == None then Make else PopNext(s.head.value)
    ensures OpOf(s, LoadTop(t)) == if s.head == None then [PopEmpty] else []
  {
  }

  lemma ReadEffect(s: State, t: nat, stale: Option<Addr>)
    requires Enabled(s, ReadNext(t, stale))
    ensures
      var s' := Next(s, ReadNext(t, stale));
      |s'.threads| == |s.threads| && s'.threads[t].PopCas?
    ensures OpOf(s, ReadNext(t, stale)) == []
  {
  }

  /** A pop's exchange takes the top node, or sends the thread back to the load and does nothing. */
  lemma SwapOutEffect(s: State, t: nat, spurious: bool)
    requires Enabled(s, SwapOut(t, spurious)) && (s.head.Some? ==> s.head.value in s.nodes)
    ensures
      var s', o := Next(s, SwapOut(t, spurious)), OpOf(s, SwapOut(t, spurious));
      && |s'.threads| == |s.threads| && s'.nodes == s.nodes
      && ((s'.threads[t] == PopLoad && o == [])
          || (s.head.Some? && s'.threads[t] == PopSub(s.head.value) && o == [Pop(s.nodes[s.head.value].obj)]))
  {
  }

  lemma CountDownEffect(s: State, t: nat)
    requires Enabled(s, CountDown(t))
    ensures
      var s' := Next(s, CountDown(t));
      |s'.threads| == |s.threads| && s'.threads[t] == Take(s.threads[t].node) && s'.nodes == s.nodes
    ensures OpOf(s, CountDown(t)) == []
  {
  }

  lemma CheckEffect(s: State, t: nat)
    requires Enabled(s, CheckCount(t))
    ensures
      var s', o := Next(s, CheckCount(t)), s.threads[t].obj;
      && |s'.threads| == |s.threads| && s'.nodes == s.nodes && OpOf(s, CheckCount(t)) == []
      && if s.count >= s.max then s'.threads[t] == Idle && o in s'.destroyed else s'.threads[t] == PushAlloc(o)
  {
  }

  lemma AllocEffect(s: State, t: nat, x: Addr)
    requires Enabled(s, AllocNode(t, x))
    ensures
      var s' := Next(s, AllocNode(t, x));
      && |s'.threads| == |s.threads| && s'.threads[t] == PushLoad(x)
      && x in s'.nodes && s'.nodes[x].obj == s.threads[t].obj && OpOf(s, AllocNode(t, x)) == []
  {
  }

  lemma LoadForPushEffect(s: State, t: nat)
    requires Enabled(s, LoadForPush(t))
    ensures
      var s' := Next(s, LoadForPush(t));
      && |s'.threads| == |s.threads| && s'.threads[t] == PushLink(s.threads[t].node, s.head)
      && s'.nodes == s.nodes && OpOf(s, LoadForPush(t)) == []
  {
  }

  lemma LinkEffect(s: State, t: nat)
    requires Enabled(s, Link(t))
    ensures
      var s', x := Next(s, Link(t)), s.threads[t].node;
      && |s'.threads| == |s.threads| && s'.threads[t] == PushCas(x, s.threads[t].seen)
      && x in s'.nodes && s'.nodes[x].obj == s.nodes[x].obj && OpOf(s, Link(t)) == []
  {
  }

  /** A push's exchange puts the thread's node on top, or sends the thread back to the load and does nothing. */
  lemma SwapInEffect(s: State, t: nat, spurious: bool)
    requires Enabled(s, SwapIn(t, spurious)) && s.threads[t].node in s.nodes
    ensures
      var s', o, x := Next(s, SwapIn(t, spurious)), OpOf(s, SwapIn(t, spurious)), s.threads[t].node;
      && |s'.threads| == |s.threads| && s'.nodes == s.nodes
      && ((s'.threads[t] == PushLoad(x) && o == []) || (s'.threads[t] == PushAdd && o == [Push(s.nodes[x].obj)]))
  {
  }

  lemma CountUpEffect(s: State, t: nat)
    requires Enabled(s, CountUp(t))
    ensures |Next(s, CountUp(t)).threads| == |s.threads| && Next(s, CountUp(t)).threads[t] == Idle
    ensures OpOf(s, CountUp(t)) == []
  {
  }

  lemma TakeEffect(s: State, t: nat)
    requires Enabled(s, TakeObject(t))
    ensures
      var s' := Next(s, TakeObject(t));
      && |s'.threads| == |s.threads| && s'.threads[t] == Idle
      && s.nodes[s.threads[t].node].obj in s'.clients && OpOf(s, TakeObject(t)) == []
  {
  }

  lemma MakeEffect(s: State, t: nat)
    requires Enabled(s, MakeObject(t))
    ensures
      var s' := Next(s, MakeObject(t));
      && |s'.threads| == |s.threads| && s'.threads[t] == Idle
      && s.created in s'.clients && s'.created == s.created + 1 && OpOf(s, MakeObject(t)) == []
  {
  }

  lemma BeginEffect(s: State, t: nat)
    requires Enabled(s, BeginGet(t))
    ensures |Next(s, BeginGet(t)).threads| == |s.threads| && Next(s, BeginGet(t)).threads[t] == PopLoad
    ensures OpOf(s, BeginGet(t)) == []
  {
  }

  lemma ReleaseEffect(s: State, t: nat, o: Obj)
    requires Enabled(s, Release(t, o))
    ensures
      var s' := Next(s, Release(t, o));
      && |s'.threads| == |s.threads| && s'.nodes == s.nodes && OpOf(s, Release(t, o)) == []
      && if s.alive then s'.threads[t] == PushCheck(o) else s'.threads[t] == Idle && o in s'.destroyed
  {
  }

  /** No other thread touches the object in a node that a thread owns. */
  lemma OwnedKept(s: State, c: seq<Addr>, a: Action, t: nat)
    requires Shape(s, c) && Enabled(s, a) && !a.FreeTop? && !ByThread(a, t)
    requires t < |s.threads| && Owned(s.threads[t]).Some?
    ensures
      var x := Owned(s.threads[t]).value;
      x in s.nodes && x in Next(s, a).nodes && Next(s, a).nodes[x].obj == s.nodes[x].obj
  {
    assert LocalOk(s, c, s.threads[t]);
    if !a.BeginDestroy? {
      assert Apart(s.threads[t], s.threads[a.t]);
    }
  }

  /** What happens around one attempt of a retry loop: the steps of others after each of its accesses. */
  datatype Turn = Turn(afterLoad: seq<Action>, beforeSwap: seq<Action>, afterSwap: seq<Action>, spurious: bool)

  /** The steps of others in the straight parts of a call, outside its retry loop. */
  datatype Gaps = Gaps(first: seq<Action>, second: seq<Action>, third: seq<Action>)

  /** An allocator gives addresses that are neither in use nor still held by a popping thread. */
  ghost predicate Allocates(pick: State -> Addr) {
    forall s: State :: pick(s) !in s.nodes && forall u :: 0 <= u < |s.threads| ==> Held(s.threads[u]) != Some(pick(s))
  }

  /** Full: the object is destroyed. Unfinished: the attempts given were not enough. */
  datatype Outcome = Full | Pushed | Unfinished

  class Pool {
    const maxCount: nat
    var alive: bool
    var head: Option<Addr>
    var nodes: map<Addr, Node>
    var count: nat
    var threads: seq<Thread>
    var clients: set<Obj>
    var destroyed: set<Obj>
    var created: nat
    ghost var run: seq<Action>

    function Abs(): State
      reads this
    {
      State(maxCount, alive, head, nodes, count, threads, clients, destroyed, created)
    }

    /** The pool is where the run so far has taken it. */
    ghost predicate Valid()
      reads this
    {
      && 1 <= |threads| && maxCount + |threads| <= SIZE_T
      && Exec(Init(|threads|, maxCount), run) == Some(Abs())
    }

    /** What thread `t` has done to the stack so far. */
    ghost function Done(t: nat): seq<Op>
      reads this
    {
      OpsBy(Init(|threads|, maxCount), run, t)
    }

    constructor (n: nat, maxCount: nat)
      ensures Abs() == Init(n, maxCount) && run == []
      ensures 1 <= n && maxCount + n <= SIZE_T ==> Valid()
    {
      this.maxCount := maxCount;
      alive, head, nodes, count, created := true, None, map[], 0, 0;
      threads := seq(n, _ => Idle);
      clients, destroyed := {}, {};
      run := [];
    }

    /** One atomic step of the thread it names. */
    method Step(a: Action)
      requires Valid() && Enabled(Abs(), a) && NotReissued(Abs(), a) && !a.BeginDestroy? && !a.FreeTop?
      modifies this
      ensures Valid() && Abs() == Next(old(Abs()), a) && run == old(run) + [a] && |threads| == |old(threads)|
      ensures forall t :: Done(t) == old(Done(t)) + if a.t == t then OpOf(old(Abs()), a) else []
      ensures forall t :: 0 <= t < |threads| && t != a.t ==> threads[t] == old(threads)[t]
    {
      ghost var s, s0 := Abs(), Init(|threads|, maxCount);
      forall t: nat
        ensures Exec(s0, run + [a]) == Some(Next(s, a))
        ensures OpsBy(s0, run + [a], t) == OpsBy(s0, run, t) + if a.t == t then OpOf(s, a) else []
      {
        OneMoreStep(s0, run, s, a, t);
      }
      forall t | 0 <= t < |threads| && t != a.t
        ensures |Next(s, a).threads| == |s.threads| && Next(s, a).threads[t] == s.threads[t]
      {
        OthersStay(s, a, t);
      }
      SameThreads(s, a);
      hide Exec, OpsBy, OpOf, Next;
      Access(a);
      run := run + [a];
    }

    method Access(a: Action)
      requires Enabled(Abs(), a) && !a.BeginDestroy? && !a.FreeTop?
      modifies this`alive, this`head, this`nodes, this`count, this`threads, this`clients, this`destroyed, this`created
      ensures Abs() == Next(old(Abs()), a)
    {
      hide Next;
      match a
      case BeginGet(t) => StartGet(t);
      case LoadTop(t) => LoadHead(t);
      case ReadNext(t, stale) => ReadHeadNext(t, stale);
      case SwapOut(t, spurious) => CompareExchangePop(t, spurious);
      case CountDown(t) => FetchSub(t);
      case TakeObject(t) => TakeOut(t);
      case MakeObject(t) => Construct(t);
      case Release(t, o) => LastReferenceGone(t, o);
      case CheckCount(t) => CheckCapacity(t);
      case AllocNode(t, x) => NewNode(t, x);
      case LoadForPush(t) => LoadHeadForPush(t);
      case Link(t) => SetNext(t);
      case SwapIn(t, spurious) => CompareExchangePush(t, spurious);
      case CountUp(t) => FetchAdd(t);
    }

    /** Other threads run: those of the given steps that are possible and are not of thread `t`. */
    method Others(t: nat, steps: seq<Action>)
      requires Valid() && t < |threads|
      modifies this
      ensures Valid() && |threads| == |old(threads)| && threads[t] == old(threads)[t] && Done(t) == old(Done(t))
      ensures Owned(threads[t]).Some? ==>
        var x := Owned(threads[t]).value;
        x in nodes && x in old(nodes) && nodes[x].obj == old(nodes)[x].obj
    {
      hide Next, Exec, OpsBy, OpOf, Owned;
      if Owned(threads[t]).Some? {
        OwnedInNodes(t);
      }
      for i := 0 to |steps|
        invariant Valid() && |threads| == |old(threads)| && threads[t] == old(threads)[t] && Done(t) == old(Done(t))
        invariant Owned(threads[t]).Some? ==>
          var x := Owned(threads[t]).value;
          x in nodes && x in old(nodes) && nodes[x].obj == old(nodes)[x].obj
      {
        var a := steps[i];
        if !a.BeginDestroy? && !a.FreeTop? && a.t != t && Enabled(Abs(), a) && NotReissued(Abs(), a) {
          if Owned(threads[t]).Some? {
            OwnedStays(t, a);
          }
          Step(a);
        }
      }
    }

    /** One attempt of popNode's loop up to the exchange. */
    method LoadAndRead(t: nat, turn: Turn, stale: Option<Addr>) returns (empty: bool)
      requires Valid() && t < |threads| && threads[t] == PopLoad
      modifies this
      ensures Valid() && |threads| == |old(threads)|
      ensures empty ==> threads[t] == Make && Done(t) == old(Done(t)) + [PopEmpty]
      ensures !empty ==> threads[t].PopCas? && Done(t) == old(Done(t))
    {
      hide Exec, OpsBy, OpOf, Next, Valid, Done;
      LoadEffect(Abs(), t);
      Step(LoadTop(t));
      if threads[t] == Make {
        return true;
      }
      Others(t, turn.afterLoad);
      ReadEffect(Abs(), t, stale);
      Step(ReadNext(t, stale));
      Others(t, turn.beforeSwap);
      empty := false;
    }

    method SwapAndCount(t: nat, turn: Turn) returns (node: Option<Addr>)
      requires Valid() && t < |threads| && threads[t].PopCas?
      modifies this
      ensures Valid() && |threads| == |old(threads)|
      ensures node == None ==> threads[t] == PopLoad && Done(t) == old(Done(t))
      ensures node.Some? ==>
        && threads[t] == Take(node.value) && node.value in nodes
        && Done(t) == old(Done(t)) + [Pop(nodes[node.value].obj)]
    {
      TopInNodes();
      hide Exec, OpsBy, OpOf, Next, Valid, Done;
      SwapOutEffect(Abs(), t, turn.spurious);
      Step(SwapOut(t, turn.spurious));
      if !threads[t].PopSub? {
        Others(t, turn.afterSwap);
        return None;
      }
      node := Some(threads[t].node);
      Others(t, turn.afterSwap);
      CountDownEffect(Abs(), t);
      Step(CountDown(t));
    }

    /**
    popNode with its retry loop, other threads running in between. However often it retries, it performs exactly one
    stack operation: a pop of the object in the node it returns, or a pop that finds the stack empty.
    */
    method PopNode(t: nat, turns: seq<Turn>, stale: Option<Addr>) returns (done: bool, node: Option<Addr>)
      requires Valid() && t < |threads| && threads[t] == PopLoad
      modifies this
      ensures Valid() && |threads| == |old(threads)|
      ensures !done ==> node == None && threads[t] == PopLoad && Done(t) == old(Done(t))
      ensures done && node == None ==> threads[t] == Make && Done(t) == old(Done(t)) + [PopEmpty]
      ensures done && node.Some? ==>
        && threads[t] == Take(node.value) && node.value in nodes
        && Done(t) == old(Done(t)) + [Pop(nodes[node.value].obj)]
    {
      hide Valid, Done;
      node := None;
      for i := 0 to |turns|
        invariant Valid() && |threads| == |old(threads)| && threads[t] == PopLoad && Done(t) == old(Done(t))
      {
        var empty := LoadAndRead(t, turns[i], stale);
        if empty {
          return true, None;
        }
        node := SwapAndCount(t, turns[i]);
        if node.Some? {
          return true, node;
        }
      }
      return false, None;
    }

    /** pushNode up to its loop. */
    method MakeNode(t: nat, o: Obj, pick: State -> Addr, gaps: Gaps) returns (x: Addr)
      requires Valid() && t < |threads| && threads[t] == PushCheck(o) && Allocates(pick)
      modifies this
      ensures Valid() && |threads| == |old(threads)| && Done(t) == old(Done(t))
      ensures if old(count) >= maxCount then threads[t] == Idle && o in destroyed
              else threads[t] == PushLoad(x) && x in nodes && nodes[x].obj == o
    {
      hide Exec, OpsBy, OpOf, Next, Valid, Done;
      CheckEffect(Abs(), t);
      Step(CheckCount(t));
      if threads[t] == Idle {
        return 0;
      }
      Others(t, gaps.first);
      x := pick(Abs());
      AllocEffect(Abs(), t, x);
      Step(AllocNode(t, x));
      Others(t, gaps.second);
    }

    method LoadAndLink(t: nat, x: Addr, turn: Turn)
      requires Valid() && t < |threads| && threads[t] == PushLoad(x) && x in nodes
      modifies this
      ensures Valid() && |threads| == |old(threads)| && Done(t) == old(Done(t))
      ensures threads[t].PushCas? && threads[t].node == x && x in nodes && nodes[x].obj == old(nodes[x].obj)
    {
      hide Exec, OpsBy, OpOf, Next, Valid, Done;
      LoadForPushEffect(Abs(), t);
      Step(LoadForPush(t));
      Others(t, turn.afterLoad);
      LinkEffect(Abs(), t);
      Step(Link(t));
      Others(t, turn.beforeSwap);
    }

    method SwapInAndCount(t: nat, x: Addr, turn: Turn) returns (pushed: bool)
      requires Valid() && t < |threads| && threads[t].PushCas? && threads[t].node == x && x in nodes
      modifies this
      ensures Valid() && |threads| == |old(threads)|
      ensures pushed ==> threads[t] == Idle && Done(t) == old(Done(t)) + [Push(old(nodes[x].obj))]
      ensures !pushed ==> threads[t] == PushLoad(x) && Done(t) == old(Done(t))
      ensures !pushed ==> x in nodes && nodes[x].obj == old(nodes[x].obj)
    {
      hide Exec, OpsBy, OpOf, Next, Valid, Done;
      SwapInEffect(Abs(), t, turn.spurious);
      Step(SwapIn(t, turn.spurious));
      if threads[t] != PushAdd {
        Others(t, turn.afterSwap);
        return false;
      }
      Others(t, turn.afterSwap);
      CountUpEffect(Abs(), t);
      Step(CountUp(t));
      pushed := true;
    }

    /**
    pushNode with its retry loop, other threads running in between. Unless the pool reads as full it performs exactly
    one stack operation, the push of the thread's object.
    */
    method PushNode(t: nat, o: Obj, pick: State -> Addr, gaps: Gaps, turns: seq<Turn>) returns (outcome: Outcome)
      requires Valid() && t < |threads| && threads[t] == PushCheck(o) && Allocates(pick)
      modifies this
      ensures Valid() && |threads| == |old(threads)|
      ensures outcome == Full <==> old(count) >= maxCount
      ensures outcome == Full ==> threads[t] == Idle && o in destroyed && Done(t) == old(Done(t))
      ensures outcome == Pushed ==> threads[t] == Idle && Done(t) == old(Done(t)) + [Push(o)]
      ensures outcome == Unfinished ==> threads[t].PushLoad? && Done(t) == old(Done(t))
    {
      hide Valid, Done, Allocates;
      var x := MakeNode(t, o, pick, gaps);
      if threads[t] == Idle {
        return Full;
      }
      for i := 0 to |turns|
        invariant Valid() && |threads| == |old(threads)| && threads[t] == PushLoad(x) && Done(t) == old(Done(t))
        invariant x in nodes && nodes[x].obj == o
      {
        LoadAndLink(t, x, turns[i]);
        var pushed := SwapInAndCount(t, x, turns[i]);
        if pushed {
          return Pushed;
        }
      }
      outcome := Unfinished;
    }

    /** getObject: the popped object, or a new one when the stack was found empty; None when out of attempts. */
    method GetObject(t: nat, gaps: Gaps, turns: seq<Turn>, stale: Option<Addr>) returns (o: Option<Obj>)
      requires Valid() && alive && t < |threads| && threads[t] == Idle
      modifies this
      ensures Valid() && |threads| == |old(threads)|
      ensures o == None ==> Done(t) == old(Done(t))
      ensures o.Some? ==>
        && threads[t] == Idle && o.value in clients
        && (Done(t) == old(Done(t)) + [Pop(o.value)]
            || (Done(t) == old(Done(t)) + [PopEmpty] && o.value == created - 1))
    {
      hide Exec, OpsBy, OpOf, Next, Valid, Done;
      BeginEffect(Abs(), t);
      Step(BeginGet(t));
      Others(t, gaps.first);
      var done, node := PopNode(t, turns, stale);
      if !done {
        return None;
      }
      Others(t, gaps.second);
      match node
      case Some(n) => o := TakeFrom(t, n);
      case None => o := MakeNew(t);
    }

    method TakeFrom(t: nat, n: Addr) returns (o: Option<Obj>)
      requires Valid() && t < |threads| && threads[t] == Take(n) && n in nodes
      modifies this
      ensures Valid() && |threads| == |old(threads)| && threads[t] == Idle && Done(t) == old(Done(t))
      ensures o == Some(old(nodes[n].obj)) && o.value in clients
    {
      hide Exec, OpsBy, OpOf, Next, Valid, Done;
      o := Some(nodes[n].obj);
      TakeEffect(Abs(), t);
      Step(TakeObject(t));
    }

    method MakeNew(t: nat) returns (o: Option<Obj>)
      requires Valid() && t < |threads| && threads[t] == Make
      modifies this
      ensures Valid() && |threads| == |old(threads)| && threads[t] == Idle && Done(t) == old(Done(t))
      ensures o.Some? && o.value in clients && o.value == created - 1
    {
      hide Exec, OpsBy, OpOf, Next, Valid, Done;
      o := Some(created);
      MakeEffect(Abs(), t);
      Step(MakeObject(t));
    }

    /** The deleter: back to a living pool with room, destroyed otherwise. */
    method Deleter(t: nat, o: Obj, pick: State -> Addr, gaps: Gaps, turns: seq<Turn>) returns (outcome: Outcome)
      requires Valid() && t < |threads| && threads[t] == Idle && o in clients && Allocates(pick)
      modifies this
      ensures Valid() && |threads| == |old(threads)|
      ensures !old(alive) ==> outcome == Full
      ensures outcome == Full ==> threads[t] == Idle && o in destroyed && Done(t) == old(Done(t))
      ensures outcome == Pushed ==> threads[t] == Idle && Done(t) == old(Done(t)) + [Push(o)]
      ensures outcome == Unfinished ==> threads[t].PushLoad? && Done(t) == old(Done(t))
    {
      hide Exec, OpsBy, OpOf, Next, Valid, Done;
      ReleaseEffect(Abs(), t, o);
      Step(Release(t, o));
      if threads[t] == Idle {
        return Full;
      }
      Others(t, gaps.third);
      outcome := PushNode(t, o, pick, gaps, turns);
    }

    lemma OwnedStays(t: nat, a: Action)
      requires Valid() && t < |threads| && Owned(threads[t]).Some?
      requires Enabled(Abs(), a) && !a.FreeTop? && !ByThread(a, t)
      ensures
        var x := Owned(threads[t]).value;
        x in nodes && x in Next(Abs(), a).nodes && Next(Abs(), a).nodes[x].obj == nodes[x].obj
    {
      var c, w := RunKeeps(|threads|, maxCount, run);
      hide Next;
      OwnedKept(Abs(), c, a, t);
    }

    /** The head of the stack is a node. */
    lemma TopInNodes()
      requires Valid()
      ensures head.Some? ==> head.value in nodes
    {
      var c, w := RunKeeps(|threads|, maxCount, run);
    }

    /** A node that a thread owns is there. */
    lemma OwnedInNodes(t: nat)
      requires Valid() && t < |threads| && Owned(threads[t]).Some?
      ensures Owned(threads[t]).value in nodes
    {
      var c, w := RunKeeps(|threads|, maxCount, run);
      assert LocalOk(Abs(), c, threads[t]);
    }

    // getObject

    method StartGet(t: nat)
      requires Enabled(Abs(), BeginGet(t))
      modifies this`threads
      ensures Abs() == Next(old(Abs()), BeginGet(t))
    {
      threads := threads[t := PopLoad];
    }

    method LoadHead(t: nat)
      requires Enabled(Abs(), LoadTop(t))
      modifies this`threads
      ensures Abs() == Next(old(Abs()), LoadTop(t))
    {
      match head
      case None => threads := threads[t := Make];
      case Some(h) => threads := threads[t := PopNext(h)];
    }

    method ReadHeadNext(t: nat, stale: Option<Addr>)
      requires Enabled(Abs(), ReadNext(t, stale))
      modifies this`threads
      ensures Abs() == Next(old(Abs()), ReadNext(t, stale))
    {
      var h := threads[t].oldHead;
      var next := if h in nodes then nodes[h].next else stale;
      threads := threads[t := PopCas(h, next)];
    }

    method CompareExchangePop(t: nat, spurious: bool)
      requires Enabled(Abs(), SwapOut(t, spurious))
      modifies this`threads, this`head
      ensures Abs() == Next(old(Abs()), SwapOut(t, spurious))
    {
      var th := threads[t];
      if !spurious && head == Some(th.oldHead) {
        head := th.next;
        threads := threads[t := PopSub(th.oldHead)];
      } else {
        threads := threads[t := PopLoad];
      }
    }

    method FetchSub(t: nat)
      requires Enabled(Abs(), CountDown(t))
      modifies this`threads, this`count
      ensures Abs() == Next(old(Abs()), CountDown(t))
    {
      count := (count - 1) % SIZE_T;
      threads := threads[t := Take(threads[t].node)];
    }

    method TakeOut(t: nat)
      requires Enabled(Abs(), TakeObject(t))
      modifies this`threads, this`nodes, this`clients
      ensures Abs() == Next(old(Abs()), TakeObject(t))
    {
      var n := threads[t].node;
      clients := clients + {nodes[n].obj};
      nodes := nodes - {n};
      threads := threads[t := Idle];
    }

    method Construct(t: nat)
      requires Enabled(Abs(), MakeObject(t))
      modifies this`threads, this`created, this`clients
      ensures Abs() == Next(old(Abs()), MakeObject(t))
    {
      clients := clients + {created};
      created := created + 1;
      threads := threads[t := Idle];
    }

    // the deleter and pushNode

    method LastReferenceGone(t: nat, o: Obj)
      requires Enabled(Abs(), Release(t, o))
      modifies this`threads, this`clients, this`destroyed
      ensures Abs() == Next(old(Abs()), Release(t, o))
    {
      clients := clients - {o};
      if alive {
        threads := threads[t := PushCheck(o)];
      } else {
        destroyed := destroyed + {o};
      }
    }

    method CheckCapacity(t: nat)
      requires Enabled(Abs(), CheckCount(t))
      modifies this`threads, this`destroyed
      ensures Abs() == Next(old(Abs()), CheckCount(t))
    {
      var o := threads[t].obj;
      if count >= maxCount {
        destroyed := destroyed + {o};
        threads := threads[t := Idle];
      } else {
        threads := threads[t := PushAlloc(o)];
      }
    }

    method NewNode(t: nat, x: Addr)
      requires Enabled(Abs(), AllocNode(t, x))
      modifies this`threads, this`nodes
      ensures Abs() == Next(old(Abs()), AllocNode(t, x))
    {
      nodes := nodes[x := Node(threads[t].obj, None)];
      threads := threads[t := PushLoad(x)];
    }

    method LoadHeadForPush(t: nat)
      requires Enabled(Abs(), LoadForPush(t))
      modifies this`threads
      ensures Abs() == Next(old(Abs()), LoadForPush(t))
    {
      threads := threads[t := PushLink(threads[t].node, head)];
    }

    method SetNext(t: nat)
      requires Enabled(Abs(), Link(t))
      modifies this`threads, this`nodes
      ensures Abs() == Next(old(Abs()), Link(t))
    {
      var th := threads[t];
      nodes := nodes[th.node := Node(nodes[th.node].obj, th.seen)];
      threads := threads[t := PushCas(th.node, th.seen)];
    }

    method CompareExchangePush(t: nat, spurious: bool)
      requires Enabled(Abs(), SwapIn(t, spurious))
      modifies this`threads, this`head
      ensures Abs() == Next(old(Abs()), SwapIn(t, spurious))
    {
      var th := threads[t];
      if !spurious && head == th.seen {
        head := Some(th.node);
        threads := threads[t := PushAdd];
      } else {
        threads := threads[t := PushLoad(th.node)];
      }
    }

    method FetchAdd(t: nat)
      requires Enabled(Abs(), CountUp(t))
      modifies this`threads, this`count
      ensures Abs() == Next(old(Abs()), CountUp(t))
    {
      count := (count + 1) % SIZE_T;
      threads := threads[t := Idle];
    }

    // the destructor

    method FreeHead(ghost c: seq<Addr>)
      requires Enabled(Abs(), FreeTop) && Shape(Abs(), c)
      modifies this`head, this`nodes, this`destroyed
      ensures Abs() == Next(old(Abs()), FreeTop)
      ensures c != [] && Shape(Abs(), c[1..])
      ensures destroyed == old(destroyed) + {Objects(old(Abs()), c)[0]}
      ensures Objects(Abs(), c[1..]) == Objects(old(Abs()), c)[1..]
    {
      ShapeFreeTop(Abs(), c, FreeTop);
      var n := head.value;
      destroyed := destroyed + {nodes[n].obj};
      head := nodes[n].next;
      nodes := nodes - {n};
    }

    /** Runs alone: afterwards the stack is gone and exactly its objects have been destroyed. */
    method Destroy(ghost c: seq<Addr>)
      requires Enabled(Abs(), BeginDestroy) && Shape(Abs(), c)
      modifies this
      ensures !alive && head == None && clients == old(clients) && threads == old(threads) && created == old(created)
      ensures destroyed == old(destroyed) + AsSet(Objects(old(Abs()), c))
    {
      ShapeBeginDestroy(Abs(), c, BeginDestroy);
      ghost var rest, left, gone := c, Objects(Abs(), c), {};
      alive := false;
      while head.Some?
        invariant !alive && clients == old(clients) && threads == old(threads) && created == old(created)
        invariant Shape(Abs(), rest) && left == Objects(Abs(), rest)
        invariant gone + AsSet(left) == AsSet(Objects(old(Abs()), c))
        invariant destroyed == old(destroyed) + gone
        decreases |rest|
      {
        FreeHead(rest);
        SplitHead(left);
        rest, gone, left := rest[1..], gone + {left[0]}, left[1..];
      }
      assert left == [];
    }
  }
}
