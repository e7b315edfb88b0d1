/** Object locking by whole operations: src/core/mutate.cpp, the lock order of COPY in
    src/nfsv4/engine.cpp and every single-object operation of the two protocol engines.

    An operation asks for its locks one after another, works, and lets them all go (in any
    order: the guard's destructor decides).  Each object has one AsyncSharedMutex (module
    Sync); the registry of module ObjLocks makes that true.  Any number of operations run
    interleaved. */
module LockOrder {
  import opened Ordering
  import opened Sync
  import opened ObjLocks

  // ---- the order of ObjIds ---------------------------------------------------------

  predicate OidLess(a: ObjId, b: ObjId) {
    a.len < b.len || (a.len == b.len && LexLess(a.bytes, b.bytes))
  }

  predicate KeyLess(a: Key, b: Key) {
    a.fsid < b.fsid || (a.fsid == b.fsid && OidLess(a.oid, b.oid))
  }

  lemma KeyOrder(a: Key, b: Key, c: Key)
    ensures KeyLess(a, b) && KeyLess(b, c) ==> KeyLess(a, c)
    ensures KeyLess(a, b) || KeyLess(b, a) || a == b
    ensures !(KeyLess(a, b) && KeyLess(b, a)) && !KeyLess(a, a)
  {
    LexTotal(a.oid.bytes, b.oid.bytes);
    LexTotal(a.oid.bytes, a.oid.bytes);
    if LexLess(a.oid.bytes, b.oid.bytes) && LexLess(b.oid.bytes, c.oid.bytes) {
      LexTransitive(a.oid.bytes, b.oid.bytes, c.oid.bytes);
    }
  }

  // ---- what an operation locks -----------------------------------------------------

  datatype Req = Req(key: Key, exclusive: bool)

  datatype Program =
    | Read(fsid: nat, oid: ObjId)
    | Mutate(fsid: nat, oid: ObjId)
    | MutateTwo(fsid: nat, a: ObjId, b: ObjId)
    | Copy(fsid: nat, src: ObjId, dst: ObjId)

  /** The objects an operation works on. */
  predicate Names(p: Program, k: Key) {
    k.fsid == p.fsid &&
    match p
    case Read(_, oid) => k.oid == oid
    case Mutate(_, oid) => k.oid == oid
    case MutateTwo(_, a, b) => k.oid == a || k.oid == b
    case Copy(_, src, dst) => k.oid == src || k.oid == dst
  }

  /** The lock requests in the order the operation makes them.  `swap` is MutateGuard's. */
  function Plan(p: Program): seq<Req> {
    match p
    case Read(fsid, oid) => [Req(Key(fsid, oid), false)]
    case Mutate(fsid, oid) => [Req(Key(fsid, oid), true)]
    case MutateTwo(fsid, a, b) =>
      if a == b then [Req(Key(fsid, a), true)]
      else
        var swap := OidLess(b, a);
        var outer, inner := if swap then b else a, if swap then a else b;
        [Req(Key(fsid, outer), true), Req(Key(fsid, inner), true)]
    case Copy(fsid, src, dst) => CopyPlan(fsid, src, dst)
  }

  /** COPY picks its two locks with its own expressions; it takes and drops them once for the
      length and once for each chunk, so each of these is an operation of its own. */
  function CopyPlan(fsid: nat, src: ObjId, dst: ObjId): seq<Req> {
    var same := src == dst;
    var first := Req(Key(fsid, if same || OidLess(src, dst) then src else dst), true);
    if same then [first]
    else [first, Req(Key(fsid, if OidLess(src, dst) then dst else src), true)]
  }

  /** MutateGuard::enter: takes the mutexes of one or two targets from the registry and asks for
      their locks; the waiting itself is the step machine below.  Two targets are the same
      object exactly when the registry answers with one mutex for both. */
  class MutateGuard {
    const fsid: nat
    const locks: ObjLockRegistry
    var same: bool
    var lockA: nat
    var lockB: nat
    var asked: seq<Req>

    constructor (fsid: nat, locks: ObjLockRegistry)
      ensures this.fsid == fsid && this.locks == locks && !same && asked == []
    {
      this.fsid, this.locks, same, lockA, lockB, asked := fsid, locks, false, 0, 0, [];
    }

    method Enter(a: ObjId, layout: set<Key> -> seq<seq<Key>>, ghost owner: map<nat, Key>)
      requires asked == [] && Tracked(locks.State(), owner) && forall keys :: IsLayout(layout(keys), keys)
      modifies this, locks
      ensures same && asked == Plan(Mutate(fsid, a)) && Serves(locks.State(), Key(fsid, a), lockA)
      ensures Tracked(locks.State(), Own(owner, lockA, Key(fsid, a)))
    {
      same := true;
      TakeA(a, layout, owner);
      asked := asked + [Req(Key(fsid, a), true)];
    }

    method TakeA(a: ObjId, layout: set<Key> -> seq<seq<Key>>, ghost owner: map<nat, Key>)
      requires Tracked(locks.State(), owner) && forall keys :: IsLayout(layout(keys), keys)
      modifies `lockA, locks
      ensures GetStep(old(locks.State()), Key(fsid, a), locks.State(), lockA)
      ensures Serves(locks.State(), Key(fsid, a), lockA) && Tracked(locks.State(), Own(owner, lockA, Key(fsid, a)))
    {
      hide Tracked, GetStep, IsLayout, Serves;
      ghost var before := locks.State();
      NextIsFree(before, owner);
      lockA := locks.Get(Key(fsid, a), layout(locks.locks.Keys + {Key(fsid, a)}));
      GetIsTracked(before, Key(fsid, a), locks.State(), lockA, owner);
      GetServes(before, Key(fsid, a), locks.State(), lockA, owner);
    }

    method EnterTwo(a: ObjId, b: ObjId, layout: set<Key> -> seq<seq<Key>>, ghost owner: map<nat, Key>)
      requires asked == [] && Tracked(locks.State(), owner) && forall keys :: IsLayout(layout(keys), keys)
      modifies this, locks
      ensures same == (a == b) && asked == Plan(MutateTwo(fsid, a, b))
      ensures Serves(locks.State(), Key(fsid, a), lockA) && (!same ==> Serves(locks.State(), Key(fsid, b), lockB))
      ensures Tracked(locks.State(), Own(Own(owner, lockA, Key(fsid, a)), lockB, Key(fsid, b)))
    {
      hide Tracked, GetStep, IsLayout, Serves, DropStep, OidLess;
      ghost var r0, oa, ob := locks.State(), Key(fsid, a), Key(fsid, b);
      TakeA(a, layout, owner);
      ghost var r1 := locks.State();
      NextIsFree(r1, Own(owner, lockA, oa));
      lockB := locks.Get(Key(fsid, b), layout(locks.locks.Keys + {Key(fsid, b)}));
      ghost var r2 := locks.State();
      SameMutexIffSameObject(r0, oa, r1, lockA, ob, r2, lockB, owner);
      same := lockA == lockB;
      if same {
        ServedIsLive(r2, ob, lockB);
        locks.Drop(lockB);
        DropIsTracked(r2, locks.State(), lockB, Own(Own(owner, lockA, oa), lockB, ob));
        DropServes(r2, locks.State(), lockB, oa);
        asked := asked + [Req(Key(fsid, a), true)];
        return;
      }
      var swap := OidLess(b, a);
      asked := asked + [Req(Key(fsid, if swap then b else a), true)];
      asked := asked + [Req(Key(fsid, if swap then a else b), true)];
    }
  }

  lemma ServedIsLive(r: Registry, key: Key, id: nat)
    requires Serves(r, key, id)
    ensures id in r.refs
  {
  }

  ghost predicate Ascending(plan: seq<Req>) {
    forall i, j | 0 <= i < j < |plan| :: KeyLess(plan[i].key, plan[j].key)
  }

  /** Every operation, COPY included, asks for its objects in strictly ascending key order,
      and COPY takes exactly the locks a two-target mutation of the same objects takes. */
  lemma PlansAscend(p: Program)
    ensures Ascending(Plan(p)) && 1 <= |Plan(p)| <= 2
    ensures p.Copy? ==> Plan(p) == Plan(MutateTwo(p.fsid, p.src, p.dst))
    ensures p.MutateTwo? ==> Plan(p) == Plan(MutateTwo(p.fsid, p.b, p.a))
  {
    if p.MutateTwo? || p.Copy? {
      var a := Key(p.fsid, if p.Copy? then p.src else p.a);
      var b := Key(p.fsid, if p.Copy? then p.dst else p.b);
      KeyOrder(a, b, a);
      KeyOrder(b, a, b);
    }
  }

  /** An operation locks exactly the objects it names, shared if it only reads. */
  lemma PlansCover(p: Program, k: Key)
    ensures Names(p, k) <==> exists j :: 0 <= j < |Plan(p)| && Plan(p)[j] == Req(k, !p.Read?)
    ensures forall r | r in Plan(p) :: Names(p, r.key) && r.exclusive == !p.Read?
  {
    var plan := Plan(p);
    if Names(p, k) {
      assert plan[0] == Req(k, !p.Read?) || (|plan| == 2 && plan[1] == Req(k, !p.Read?));
    }
  }

  // ---- operations running together -------------------------------------------------

  datatype Op = Op(program: Program, plan: seq<Req>, asked: nat, released: set<nat>)

  datatype State = State(locks: map<Key, World>, ops: seq<Op>)

  datatype Action = Start(p: Program) | Ask(i: nat) | Let(i: nat, j: nat)

  ghost function LockOf(s: State, k: Key): World {
    if k in s.locks then s.locks[k] else EMPTY
  }

  function Handle(i: nat, r: Req): Waiter {
    Waiter(i, r.exclusive)
  }

  /** Parked in the queue of the lock it asked for last. */
  ghost predicate Blocked(s: State, i: nat)
    requires i < |s.ops|
  {
    var op := s.ops[i];
    && 0 < op.asked <= |op.plan|
    && Handle(i, op.plan[op.asked - 1]) in LockOf(s, op.plan[op.asked - 1].key).lock.waiters
  }

  predicate Finished(op: Op) {
    |op.released| == |op.plan|
  }

  ghost predicate Enabled(s: State, a: Action) {
    match a
    case Start(_) => true
    case Ask(i) =>
      && i < |s.ops| && !Blocked(s, i) && s.ops[i].asked < |s.ops[i].plan|
      && var r := s.ops[i].plan[s.ops[i].asked];
      Sync.Enabled(LockOf(s, r.key), Arrival(Handle(i, r)))
    case Let(i, j) =>
      && i < |s.ops| && !Blocked(s, i) && s.ops[i].asked == |s.ops[i].plan|
      && j < |s.ops[i].plan| && j !in s.ops[i].released
      && var r := s.ops[i].plan[j];
      Sync.Enabled(LockOf(s, r.key), Departure(Handle(i, r)))
  }

  ghost function Next(s: State, a: Action): State
    requires Enabled(s, a)
  {
    match a
    case Start(p) => s.(ops := s.ops + [Op(p, Plan(p), 0, {})])
    case Ask(i) =>
      var op := s.ops[i];
      var r := op.plan[op.asked];
      State(s.locks[r.key := Sync.Step(LockOf(s, r.key), Arrival(Handle(i, r)))],
            s.ops[i := op.(asked := op.asked + 1)])
    case Let(i, j) =>
      var op := s.ops[i];
      var r := op.plan[j];
      State(s.locks[r.key := Sync.Step(LockOf(s, r.key), Departure(Handle(i, r)))],
            s.ops[i := op.(released := op.released + {j})])
  }

  // ---- the invariant ---------------------------------------------------------------

  ghost predicate OpOk(op: Op) {
    && op.plan == Plan(op.program) && Ascending(op.plan)
    && op.asked <= |op.plan|
    && (forall j | j in op.released :: j < op.asked)
    && (op.released != {} ==> op.asked == |op.plan|)
  }

  /** Request `j` of operation `i` is outstanding: asked for and not let go. */
  ghost predicate Outstanding(s: State, i: nat, j: nat) {
    i < |s.ops| && j < s.ops[i].asked <= |s.ops[i].plan| && j !in s.ops[i].released
  }

  /** What an operation is owed: it holds every outstanding lock, except that the last one
      may still be queued while nothing has been let go. */
  ghost predicate Owed(s: State, i: nat, j: nat)
    requires Outstanding(s, i, j)
  {
    var r := s.ops[i].plan[j];
    || Handle(i, r) in LockOf(s, r.key).holders
    || (j == s.ops[i].asked - 1 && s.ops[i].released == {} && Handle(i, r) in LockOf(s, r.key).lock.waiters)
  }

  /** Nobody else occupies a lock: a holder or waiter has an outstanding request for it. */
  ghost predicate Justified(s: State, k: Key, w: Waiter) {
    exists j: nat :: Outstanding(s, w.id, j) && s.ops[w.id].plan[j] == Req(k, w.exclusive)
  }

  ghost predicate Arrived(s: State, k: Key, w: Waiter) {
    exists j: nat :: w.id < |s.ops| && j < s.ops[w.id].asked <= |s.ops[w.id].plan| && s.ops[w.id].plan[j].key == k
  }

  ghost predicate Inv(s: State) {
    && (forall i | 0 <= i < |s.ops| :: OpOk(s.ops[i]))
    && (forall i, j | Outstanding(s, i, j) :: Owed(s, i, j))
    && (forall k | k in s.locks :: Sync.Valid(s.locks[k]))
    && (forall k, w | k in s.locks && Occupies(s.locks[k], w) :: Justified(s, k, w))
    && (forall k, w | k in s.locks && w in s.locks[k].arrivals :: Arrived(s, k, w))
  }

  const INITIAL := State(map[], [])

  lemma InitialInv()
    ensures Inv(INITIAL)
  {
  }

  // ---- one lock's view of a step ---------------------------------------------------

  ghost predicate Occupies(w: World, x: Waiter) {
    x in w.holders || x in w.lock.waiters
  }

  /** What an arrival does to the occupants of a lock ... */
  ghost predicate Grown(w: World, r: Waiter, w': World) {
    && Sync.Valid(w')
    && w.holders <= w'.holders
    && (forall x | x in w.lock.waiters :: x in w'.lock.waiters)
    && (forall x | x in w'.arrivals :: x in w.arrivals || x == r)
    && (forall x :: Occupies(w', x) <==> Occupies(w, x) || x == r)
  }

  /** ... and a departure. */
  ghost predicate Shrunk(w: World, r: Waiter, w': World) {
    && Sync.Valid(w')
    && (forall x | x in w.holders && x != r :: x in w'.holders)
    && (forall x | x in w'.arrivals :: x in w.arrivals)
    && (forall x :: Occupies(w', x) <==> Occupies(w, x) && x != r)
  }

  lemma ArrivalGrows(w: World, r: Waiter)
    requires Sync.Valid(w) && Fresh(w, r.id)
    ensures Grown(w, r, Sync.Step(w, Arrival(r)))
  {
    ArrivalKeepsValid(w, r);
  }

  lemma DepartureShrinks(w: World, r: Waiter)
    requires Sync.Valid(w) && Sync.Enabled(w, Departure(r))
    ensures Shrunk(w, r, Sync.Step(w, Departure(r)))
  {
    DepartureKeepsValid(w, r);
    var n := Handed(Drop(w.lock, r.exclusive));
    ServedAreNew(w, w.lock.waiters);
    assert r !in SetOf(w.lock.waiters);
    SplitMembers(w.lock.waiters, n);
  }

  lemma SplitMembers(ws: seq<Waiter>, n: nat)
    requires n <= |ws|
    ensures forall x :: x in ws <==> x in SetOf(ws[..n]) || x in ws[n..]
  {
    assert ws == ws[..n] + ws[n..];
  }

  // ---- every step keeps the invariant ----------------------------------------------

  lemma StartKeepsInv(s: State, p: Program)
    requires Inv(s)
    ensures Inv(Next(s, Start(p)))
  {
    PlansAscend(p);
    var s' := Next(s, Start(p));
    forall k, w | k in s.locks && Occupies(s.locks[k], w)
      ensures Justified(s', k, w)
    {
      assert Justified(s, k, w);
      var j: nat :| Outstanding(s, w.id, j) && s.ops[w.id].plan[j] == Req(k, w.exclusive);
      assert Outstanding(s', w.id, j);
    }
    forall k, w | k in s.locks && w in s.locks[k].arrivals
      ensures Arrived(s', k, w)
    {
      assert Arrived(s, k, w);
      var j: nat :| j < s.ops[w.id].asked <= |s.ops[w.id].plan| && s.ops[w.id].plan[j].key == k;
      assert s'.ops[w.id].plan[j].key == k;
    }
    forall i, j | Outstanding(s', i, j)
      ensures Owed(s', i, j)
    {
      assert Outstanding(s, i, j);
    }
  }

  /** An operation that is not parked can always make its next request. */
  lemma AskEnabled(s: State, i: nat)
    requires Inv(s) && i < |s.ops| && !Blocked(s, i) && s.ops[i].asked < |s.ops[i].plan|
    ensures Enabled(s, Ask(i))
  {
    var r := s.ops[i].plan[s.ops[i].asked];
    KeyOrder(r.key, r.key, r.key);
    forall w | w in LockOf(s, r.key).arrivals
      ensures w.id != i
    {
      assert Arrived(s, r.key, w);
    }
  }

  /** An operation that is not parked holds everything it has outstanding. */
  lemma HoldsOutstanding(s: State, i: nat, j: nat)
    requires Inv(s) && i < |s.ops| && !Blocked(s, i) && Outstanding(s, i, j)
    ensures var r := s.ops[i].plan[j]; Sync.Enabled(LockOf(s, r.key), Departure(Handle(i, r)))
  {
    assert Owed(s, i, j);
    var r := s.ops[i].plan[j];
    var w := LockOf(s, r.key);
    assert Handle(i, r) in w.holders;
    if !r.exclusive { assert w.holders != {}; }
  }

  ghost function AfterAsk(s: State, i: nat, w': World): State
    requires i < |s.ops| && s.ops[i].asked < |s.ops[i].plan|
  {
    var op := s.ops[i];
    State(s.locks[op.plan[op.asked].key := w'], s.ops[i := op.(asked := op.asked + 1)])
  }

  ghost predicate Asking(s: State, i: nat, w': World) {
    && Inv(s) && i < |s.ops| && !Blocked(s, i) && s.ops[i].asked < |s.ops[i].plan|
    && var r := s.ops[i].plan[s.ops[i].asked];
    Grown(LockOf(s, r.key), Handle(i, r), w')
  }

  lemma AskOwed(s: State, i: nat, w': World, i': nat, j: nat)
    requires Asking(s, i, w') && Outstanding(AfterAsk(s, i, w'), i', j)
    ensures Owed(AfterAsk(s, i, w'), i', j)
  {
    var op := s.ops[i];
    if i' == i && j == op.asked {
      assert Occupies(w', Handle(i, op.plan[j]));
    } else {
      assert Outstanding(s, i', j) && Owed(s, i', j);
      if i' == i { HoldsOutstanding(s, i, j); }
    }
  }

  lemma AskJustified(s: State, i: nat, w': World, k: Key, x: Waiter)
    requires Asking(s, i, w') && k in AfterAsk(s, i, w').locks && Occupies(AfterAsk(s, i, w').locks[k], x)
    ensures Justified(AfterAsk(s, i, w'), k, x)
  {
    var s' := AfterAsk(s, i, w');
    var op := s.ops[i];
    var r := op.plan[op.asked];
    if k == r.key && x == Handle(i, r) {
      assert Outstanding(s', i, op.asked);
    } else {
      assert Occupies(LockOf(s, k), x);
      assert Justified(s, k, x);
      var j: nat :| Outstanding(s, x.id, j) && s.ops[x.id].plan[j] == Req(k, x.exclusive);
      assert Outstanding(s', x.id, j);
    }
  }

  lemma AskArrived(s: State, i: nat, w': World, k: Key, x: Waiter)
    requires Asking(s, i, w') && k in AfterAsk(s, i, w').locks && x in AfterAsk(s, i, w').locks[k].arrivals
    ensures Arrived(AfterAsk(s, i, w'), k, x)
  {
    var s' := AfterAsk(s, i, w');
    var op := s.ops[i];
    var r := op.plan[op.asked];
    if k == r.key && x == Handle(i, r) {
      assert s'.ops[i].plan[op.asked].key == k;
    } else {
      assert Arrived(s, k, x);
      var j: nat :| x.id < |s.ops| && j < s.ops[x.id].asked <= |s.ops[x.id].plan| && s.ops[x.id].plan[j].key == k;
      assert s'.ops[x.id].plan[j].key == k && j < s'.ops[x.id].asked;
    }
  }

  lemma AskKeepsInv(s: State, i: nat)
    requires Inv(s) && Enabled(s, Ask(i))
    ensures Inv(Next(s, Ask(i)))
  {
    var r := s.ops[i].plan[s.ops[i].asked];
    var w' := Sync.Step(LockOf(s, r.key), Arrival(Handle(i, r)));
    assert Next(s, Ask(i)) == AfterAsk(s, i, w');
    ArrivalGrows(LockOf(s, r.key), Handle(i, r));
    AskFrame(s, i, w');
  }

  lemma AskFrame(s: State, i: nat, w': World)
    requires Asking(s, i, w')
    ensures Inv(AfterAsk(s, i, w'))
  {
    forall i', j | Outstanding(AfterAsk(s, i, w'), i', j) ensures Owed(AfterAsk(s, i, w'), i', j) {
      AskOwed(s, i, w', i', j);
    }
    forall k, x | k in AfterAsk(s, i, w').locks && Occupies(AfterAsk(s, i, w').locks[k], x)
      ensures Justified(AfterAsk(s, i, w'), k, x)
    {
      AskJustified(s, i, w', k, x);
    }
    forall k, x | k in AfterAsk(s, i, w').locks && x in AfterAsk(s, i, w').locks[k].arrivals
      ensures Arrived(AfterAsk(s, i, w'), k, x)
    {
      AskArrived(s, i, w', k, x);
    }
  }

  ghost function AfterLet(s: State, i: nat, j: nat, w': World): State
    requires i < |s.ops| && j < |s.ops[i].plan|
  {
    var op := s.ops[i];
    State(s.locks[op.plan[j].key := w'], s.ops[i := op.(released := op.released + {j})])
  }

  ghost predicate Letting(s: State, i: nat, j: nat, w': World) {
    && Inv(s) && i < |s.ops| && !Blocked(s, i) && s.ops[i].asked == |s.ops[i].plan|
    && Outstanding(s, i, j)
    && var r := s.ops[i].plan[j];
    Shrunk(LockOf(s, r.key), Handle(i, r), w')
  }

  lemma LetOwed(s: State, i: nat, j: nat, w': World, i': nat, n: nat)
    requires Letting(s, i, j, w') && Outstanding(AfterLet(s, i, j, w'), i', n)
    ensures Owed(AfterLet(s, i, j, w'), i', n)
  {
    assert Outstanding(s, i', n) && Owed(s, i', n);
    var r, r' := s.ops[i].plan[j], s.ops[i'].plan[n];
    if i' == i {
      HoldsOutstanding(s, i, n);
      KeyOrder(r.key, r'.key, r.key);
    } else if r'.key == r.key {
      assert Occupies(w', Handle(i', r'));
    }
  }

  lemma LetJustified(s: State, i: nat, j: nat, w': World, k: Key, x: Waiter)
    requires Letting(s, i, j, w') && k in AfterLet(s, i, j, w').locks && Occupies(AfterLet(s, i, j, w').locks[k], x)
    ensures Justified(AfterLet(s, i, j, w'), k, x)
  {
    assert Occupies(LockOf(s, k), x);
    assert Justified(s, k, x);
    var n: nat :| Outstanding(s, x.id, n) && s.ops[x.id].plan[n] == Req(k, x.exclusive);
    assert Outstanding(AfterLet(s, i, j, w'), x.id, n);
  }

  lemma LetKeepsInv(s: State, i: nat, j: nat)
    requires Inv(s) && Enabled(s, Let(i, j))
    ensures Inv(Next(s, Let(i, j)))
  {
    var r := s.ops[i].plan[j];
    var w' := Sync.Step(LockOf(s, r.key), Departure(Handle(i, r)));
    DepartureShrinks(LockOf(s, r.key), Handle(i, r));
    LetFrame(s, i, j, w');
  }

  lemma LetFrame(s: State, i: nat, j: nat, w': World)
    requires Letting(s, i, j, w')
    ensures Inv(AfterLet(s, i, j, w'))
  {
    forall i', n | Outstanding(AfterLet(s, i, j, w'), i', n) ensures Owed(AfterLet(s, i, j, w'), i', n) {
      LetOwed(s, i, j, w', i', n);
    }
    forall k, x | k in AfterLet(s, i, j, w').locks && Occupies(AfterLet(s, i, j, w').locks[k], x)
      ensures Justified(AfterLet(s, i, j, w'), k, x)
    {
      LetJustified(s, i, j, w', k, x);
    }
    forall k, x | k in AfterLet(s, i, j, w').locks && x in AfterLet(s, i, j, w').locks[k].arrivals
      ensures Arrived(AfterLet(s, i, j, w'), k, x)
    {
      assert Arrived(s, k, x);
      var n: nat :| n < s.ops[x.id].asked <= |s.ops[x.id].plan| && s.ops[x.id].plan[n].key == k;
      assert AfterLet(s, i, j, w').ops[x.id].plan[n].key == k;
    }
  }

  // ---- deadlock freedom ------------------------------------------------------------

  /** The object a parked operation waits for. */
  ghost function WaitsFor(s: State, i: nat): Key
    requires i < |s.ops| && Blocked(s, i)
  {
    s.ops[i].plan[s.ops[i].asked - 1].key
  }

  /** Behind every parked operation stands a holder of that very lock. */
  lemma HolderExists(s: State, i: nat) returns (h: nat, j: nat)
    requires Inv(s) && i < |s.ops| && Blocked(s, i)
    ensures h < |s.ops| && Outstanding(s, h, j) && s.ops[h].plan[j].key == WaitsFor(s, i)
    ensures Blocked(s, h) ==> KeyLess(WaitsFor(s, i), WaitsFor(s, h))
  {
    var k := WaitsFor(s, i);
    WaitersHaveHolders(s.locks[k]);
    var w :| w in s.locks[k].holders;
    assert Justified(s, k, w);
    j :| Outstanding(s, w.id, j) && s.ops[w.id].plan[j] == Req(k, w.exclusive);
    h := w.id;
    ServedAreNew(s.locks[k], s.locks[k].lock.waiters);
    assert w !in SetOf(s.locks[k].lock.waiters);
  }

  /** Following holders upwards ends at an operation that is not parked: the chain climbs the
      key order, and `rest`, the parked operations not met yet, shrinks. */
  lemma {:induction false} ChainEnds(s: State, i: nat, rest: set<nat>) returns (free: nat)
    requires Inv(s) && i < |s.ops| && Blocked(s, i)
    requires forall n | n in rest :: n < |s.ops|
    requires forall n | 0 <= n < |s.ops| && Blocked(s, n) && KeyLess(WaitsFor(s, i), WaitsFor(s, n)) :: n in rest
    ensures free < |s.ops| && !Blocked(s, free) && !Finished(s.ops[free])
    decreases |rest|
  {
    var h, j := HolderExists(s, i);
    if !Blocked(s, h) {
      NotFinished(s, h, j);
      return h;
    }
    var k := WaitsFor(s, h);
    forall n | 0 <= n < |s.ops| && Blocked(s, n) && KeyLess(k, WaitsFor(s, n))
      ensures n in rest - {h}
    {
      KeyOrder(WaitsFor(s, i), k, WaitsFor(s, n));
      KeyOrder(k, k, k);
    }
    free := ChainEnds(s, h, rest - {h});
  }

  lemma NotFinished(s: State, i: nat, j: nat)
    requires Inv(s) && Outstanding(s, i, j)
    ensures !Finished(s.ops[i])
  {
    var op := s.ops[i];
    assert op.released <= UpTo(|op.plan|) - {j};
    SubsetSize(op.released, UpTo(|op.plan|) - {j});
  }

  function UpTo(n: nat): (all: set<nat>)
    ensures |all| == n && forall m: nat :: m in all <==> m < n
  {
    if n == 0 then {} else UpTo(n - 1) + {n - 1}
  }

  lemma SubsetSize(a: set<nat>, b: set<nat>)
    requires a <= b
    ensures |a| <= |b|
  {
    assert b == a + (b - a);
  }

  /** In every reachable state, some unfinished operation (if there is one) can step. */
  lemma DeadlockFree(s: State, i: nat) returns (a: Action)
    requires Inv(s) && i < |s.ops| && !Finished(s.ops[i])
    ensures !a.Start? && Enabled(s, a)
  {
    var free := i;
    if Blocked(s, i) {
      free := ChainEnds(s, i, UpTo(|s.ops|));
    }
    var op := s.ops[free];
    if op.asked < |op.plan| {
      AskEnabled(s, free);
      return Ask(free);
    }
    assert op.released <= UpTo(|op.plan|);
    assert op.released != UpTo(|op.plan|);
    var j :| j in UpTo(|op.plan|) && j !in op.released;
    HoldsOutstanding(s, free, j);
    return Let(free, j);
  }

  // ---- runs ------------------------------------------------------------------------

  ghost predicate IsRun(run: seq<State>, actions: seq<Action>) {
    && |run| == |actions| + 1
    && forall n | 0 <= n < |actions| :: Enabled(run[n], actions[n]) && run[n + 1] == Next(run[n], actions[n])
  }

  lemma StepKeepsInv(s: State, a: Action)
    requires Inv(s) && Enabled(s, a)
    ensures Inv(Next(s, a))
  {
    match a
    case Start(p) => StartKeepsInv(s, p);
    case Ask(i) => AskKeepsInv(s, i);
    case Let(i, j) => LetKeepsInv(s, i, j);
  }

  lemma {:induction false} RunsKeepInv(run: seq<State>, actions: seq<Action>, n: nat)
    requires IsRun(run, actions) && n < |run| && Inv(run[0])
    ensures Inv(run[n])
  {
    if n > 0 {
      RunsKeepInv(run, actions, n - 1);
      StepKeepsInv(run[n - 1], actions[n - 1]);
    }
  }

  /** Lock requests and releases still to come. */
  function Work(ops: seq<Op>): int {
    if ops == [] then 0
    else
      var op := ops[|ops| - 1];
      Work(ops[..|ops| - 1]) + 2 * |op.plan| - op.asked - |op.released|
  }

  lemma {:induction false} WorkUpdate(ops: seq<Op>, i: nat, op: Op)
    requires i < |ops| && op.plan == ops[i].plan
    ensures Work(ops[i := op]) == Work(ops) + ops[i].asked + |ops[i].released| - op.asked - |op.released|
  {
    var last := |ops| - 1;
    if i == last {
      assert ops[i := op][..last] == ops[..last];
    } else {
      WorkUpdate(ops[..last], i, op);
      assert ops[i := op][..last] == ops[..last][i := op];
    }
  }

  lemma {:induction false} WorkNonNegative(ops: seq<Op>)
    requires forall i | 0 <= i < |ops| :: OpOk(ops[i])
    ensures Work(ops) >= 0
  {
    if ops != [] {
      WorkNonNegative(ops[..|ops| - 1]);
      var op := ops[|ops| - 1];
      SubsetSize(op.released, UpTo(|op.plan|));
    }
  }

  // ---- mutual exclusion ------------------------------------------------------------

  /** The operation has been granted everything it asks for and has let nothing go. */
  ghost predicate Inside(s: State, i: nat) {
    i < |s.ops| && s.ops[i].asked == |s.ops[i].plan| && !Blocked(s, i) && s.ops[i].released == {}
  }

  /** Inside, an operation holds the lock of every object it names. */
  lemma InsideHolds(s: State, i: nat, k: Key)
    requires Inv(s) && Inside(s, i) && Names(s.ops[i].program, k)
    ensures k in s.locks && Waiter(i, !s.ops[i].program.Read?) in s.locks[k].holders
  {
    var op := s.ops[i];
    PlansCover(op.program, k);
    var j: nat :| j < |Plan(op.program)| && Plan(op.program)[j] == Req(k, !op.program.Read?);
    assert op.plan[j] == Req(k, !op.program.Read?);
    HoldsOutstanding(s, i, j);
  }

  /** Mutual exclusion over all runs: of two operations that are inside on a common object,
      neither changes anything. */
  lemma MutationExcludes(run: seq<State>, actions: seq<Action>, n: nat, i: nat, j: nat, k: Key)
    requires IsRun(run, actions) && run[0] == INITIAL && n < |run| && i != j
    requires Inside(run[n], i) && Names(run[n].ops[i].program, k)
    requires Inside(run[n], j) && Names(run[n].ops[j].program, k)
    ensures run[n].ops[i].program.Read? && run[n].ops[j].program.Read?
  {
    hide Inv, Names, IsRun, Blocked;
    InitialInv();
    RunsKeepInv(run, actions, n);
    InsideHolds(run[n], i, k);
    InsideHolds(run[n], j, k);
    LocksAreValid(run[n], k);
    WriterExcludes(run[n].locks[k], Waiter(i, !run[n].ops[i].program.Read?), Waiter(j, !run[n].ops[j].program.Read?));
  }

  lemma LocksAreValid(s: State, k: Key)
    requires Inv(s) && k in s.locks
    ensures Sync.Valid(s.locks[k])
  {
  }

  /** Readers do not exclude each other: two reads of one object, both inside. */
  lemma ReadersShare(fsid: nat, oid: ObjId) returns (run: seq<State>, actions: seq<Action>)
    ensures IsRun(run, actions) && run[0] == INITIAL
    ensures var s := run[|actions|];
            && |s.ops| == 2 && s.ops[0].program == s.ops[1].program == Read(fsid, oid)
            && Inside(s, 0) && Inside(s, 1)
  {
    var k, p := Key(fsid, oid), Read(fsid, oid);
    var idle, done := Op(p, [Req(k, false)], 0, {}), Op(p, [Req(k, false)], 1, {});
    var w1, w2 := Readers(1), Readers(2);
    var s2, s3, s4 := State(map[], [idle, idle]), State(map[k := w1], [done, idle]), State(map[k := w2], [done, done]);
    run := [INITIAL, State(map[], [idle]), s2, s3, s4];
    actions := [Start(p), Start(p), Ask(0), Ask(1)];
    AskShared(s2, 0, k, EMPTY, w1);
    AskShared(s3, 1, k, w1, w2);
    hide Sync.Step, Readers;
    assert [idle, idle][0 := done] == [done, idle] && [done, idle][1 := done] == [done, done];
    assert map[k := w1][k := w2] == map[k := w2];
    NotWaiting(s4, 0, k, w2);
    NotWaiting(s4, 1, k, w2);
    assert run[1] == Next(run[0], actions[0]) && run[2] == Next(run[1], actions[1]);
  }

  /** A lock that n operations hold shared, the first of them first. */
  ghost function Readers(n: nat): World
    requires n <= 2
  {
    var a, b := Waiter(0, false), Waiter(1, false);
    if n == 0 then EMPTY
    else if n == 1 then World(LockState(1, false, []), {a}, [a], [a])
    else World(LockState(2, false, []), {a, b}, [a, b], [a, b])
  }

  lemma AskShared(s: State, i: nat, k: Key, before: World, after: World)
    requires i < |s.ops| && i < 2 && s.ops[i].plan == [Req(k, false)] && s.ops[i].asked == 0
    requires LockOf(s, k) == before == Readers(i) && after == Readers(i + 1)
    ensures Enabled(s, Ask(i))
    ensures Next(s, Ask(i)) == State(s.locks[k := after], s.ops[i := s.ops[i].(asked := 1)])
  {
    var a, b := Waiter(0, false), Waiter(1, false);
    assert {a} + {b} == {a, b} && [a] + [b] == [a, b] && {} + {a} == {a} && [] + [a] == [a];
    assert Sync.Step(before, Arrival(Waiter(i, false))) == after;
  }

  lemma NotWaiting(s: State, i: nat, k: Key, w: World)
    requires i < |s.ops| && s.ops[i].plan == [Req(k, false)] && LockOf(s, k) == w == Readers(2)
    ensures !Blocked(s, i)
  {
  }

  /** Deadlock freedom over all runs: whatever operations have started, while one of them is
      unfinished some operation can take a step. */
  lemma RunsNeverDeadlock(run: seq<State>, actions: seq<Action>, n: nat, i: nat) returns (a: Action)
    requires IsRun(run, actions) && run[0] == INITIAL && n < |run|
    requires i < |run[n].ops| && !Finished(run[n].ops[i])
    ensures !a.Start? && Enabled(run[n], a)
  {
    InitialInv();
    RunsKeepInv(run, actions, n);
    a := DeadlockFree(run[n], i);
  }

  /** Once no operation starts any more, each step does one piece of the remaining work; a
      run that cannot be continued has therefore finished every operation. */
  lemma {:induction false} EveryRunCompletes(run: seq<State>, actions: seq<Action>)
    requires IsRun(run, actions) && Inv(run[0])
    requires forall a | a in actions :: !a.Start?
    ensures |actions| <= Work(run[0].ops)
    ensures (forall a: Action :: a.Start? || !Enabled(run[|actions|], a)) ==>
              forall i | 0 <= i < |run[|actions|].ops| :: Finished(run[|actions|].ops[i])
  {
    var n := |actions|;
    WorkSpent(run, actions, n);
    RunsKeepInv(run, actions, n);
    WorkNonNegative(run[n].ops);
    if forall a: Action :: a.Start? || !Enabled(run[n], a) {
      forall i | 0 <= i < |run[n].ops|
        ensures Finished(run[n].ops[i])
      {
        if !Finished(run[n].ops[i]) {
          var a := DeadlockFree(run[n], i);
          assert false;
        }
      }
    }
  }

  lemma StepSpendsOne(s: State, a: Action)
    requires Enabled(s, a) && !a.Start?
    ensures Work(Next(s, a).ops) == Work(s.ops) - 1
  {
    var i := a.i;
    var op := s.ops[i];
    var op' := if a.Ask? then op.(asked := op.asked + 1) else op.(released := op.released + {a.j});
    assert Next(s, a).ops == s.ops[i := op'];
    WorkUpdate(s.ops, i, op');
  }

  lemma {:induction false} WorkSpent(run: seq<State>, actions: seq<Action>, n: nat)
    requires IsRun(run, actions) && n < |run|
    requires forall a | a in actions :: !a.Start?
    ensures Work(run[n].ops) + n == Work(run[0].ops)
  {
    if n > 0 {
      WorkSpent(run, actions, n - 1);
      StepSpendsOne(run[n - 1], actions[n - 1]);
    }
  }
}
