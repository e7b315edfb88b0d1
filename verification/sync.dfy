/** The reader/writer coroutine lock of src/runtime/sync.hpp.

    AsyncSharedMutex keeps a reader count, a writer flag and a FIFO of parked requests.
    Every critical section under its internal std::mutex is one atomic step here.  The
    class AsyncSharedMutex performs the steps in place; the functions Arrive and Release
    say what they do to the lock's state, and the lemmas below them speak about every run
    of arrivals and releases by any number of coroutines. */
module Sync {

  /** One lock request.  `id` stands for the coroutine handle stored in the wait node. */
  datatype Waiter = Waiter(id: nat, exclusive: bool)

  datatype LockState = LockState(readers: nat, writer: bool, waiters: seq<Waiter>)

  const FREE := LockState(0, false, [])

  predicate Compatible(s: LockState, exclusive: bool) {
    !s.writer && (exclusive ==> s.readers == 0)
  }

  /** The state with one more holder of the given kind. */
  function Admit(s: LockState, exclusive: bool): LockState {
    if exclusive then s.(writer := true) else s.(readers := s.readers + 1)
  }

  /** FIFO: a request is granted only if it is compatible and nothing older waits. */
  predicate Grantable(s: LockState, exclusive: bool) {
    s.waiters == [] && Compatible(s, exclusive)
  }

  function Arrive(s: LockState, w: Waiter): LockState {
    if Grantable(s, w.exclusive) then Admit(s, w.exclusive) else s.(waiters := s.waiters + [w])
  }

  /** How many leading requests are shared. */
  function SharedPrefix(ws: seq<Waiter>): (n: nat)
    ensures n <= |ws|
    ensures forall i | 0 <= i < n :: !ws[i].exclusive
    ensures n < |ws| ==> ws[n].exclusive
  {
    if ws == [] || ws[0].exclusive then 0 else 1 + SharedPrefix(ws[1..])
  }

  lemma PrefixIs(ws: seq<Waiter>, n: nat)
    requires n <= |ws| && forall i | 0 <= i < n :: !ws[i].exclusive
    requires n < |ws| ==> ws[n].exclusive
    ensures SharedPrefix(ws) == n
  {
  }

  /** The number of requests a release hands the lock to: one writer, or every leading reader. */
  function Handed(s: LockState): (n: nat)
    ensures n <= |s.waiters|
  {
    if s.waiters == [] || s.writer then 0
    else if s.waiters[0].exclusive then (if s.readers == 0 then 1 else 0)
    else SharedPrefix(s.waiters)
  }

  function HandOver(s: LockState): LockState {
    var n := Handed(s);
    var rest := s.(waiters := s.waiters[n..]);
    if n == 0 then rest
    else if s.waiters[0].exclusive then rest.(writer := true)
    else rest.(readers := s.readers + n)
  }

  /** The lock without one holder of the given kind, before anything is handed over. */
  function Drop(s: LockState, exclusive: bool): LockState
    requires if exclusive then s.writer else s.readers > 0
  {
    if exclusive then s.(writer := false) else s.(readers := s.readers - 1)
  }

  function Release(s: LockState, exclusive: bool): LockState
    requires if exclusive then s.writer else s.readers > 0
  {
    HandOver(Drop(s, exclusive))
  }

  /** The lock object, its methods changing the fields the way the source does. */
  class AsyncSharedMutex {
    var readers: nat
    var writer: bool
    var waiters: seq<Waiter>

    ghost function State(): LockState
      reads this
    {
      LockState(readers, writer, waiters)
    }

    constructor ()
      ensures State() == FREE
    {
      readers, writer, waiters := 0, false, [];
    }

    method TryGrantLocked(shared: bool) returns (granted: bool)
      modifies this
      ensures granted == Grantable(old(State()), !shared)
      ensures State() == if granted then Admit(old(State()), !shared) else old(State())
    {
      if waiters != [] { return false; }
      if shared {
        if writer { return false; }
        readers := readers + 1;
        return true;
      }
      if writer || readers > 0 { return false; }
      writer := true;
      return true;
    }

    /** `await_ready` then, if it failed, `await_suspend`: the second attempt decides.  Other
        coroutines may run between the two, so each is its own method. */
    method AwaitReady(w: Waiter) returns (granted: bool)
      modifies this
      ensures granted ==> State() == Arrive(old(State()), w)
      ensures !granted ==> State() == old(State())
    {
      granted := TryGrantLocked(!w.exclusive);
    }

    method AwaitSuspend(w: Waiter) returns (suspended: bool)
      modifies this
      ensures State() == Arrive(old(State()), w)
      ensures suspended == !Grantable(old(State()), w.exclusive)
    {
      var granted := TryGrantLocked(!w.exclusive);
      if granted { return false; }
      waiters := waiters + [w];
      return true;
    }

    method GrantFromQueueLocked() returns (toResume: seq<Waiter>)
      modifies this
      ensures State() == HandOver(old(State()))
      ensures toResume == old(waiters)[..Handed(old(State()))]
    {
      toResume := [];
      if waiters == [] || writer { return; }
      if waiters[0].exclusive {
        if readers == 0 {
          writer := true;
          toResume := [waiters[0]];
          waiters := waiters[1..];
        }
        return;
      }
      ghost var all := waiters;
      while waiters != [] && !waiters[0].exclusive
        invariant all == toResume + waiters
        invariant readers == old(readers) + |toResume| && !writer
        invariant forall i | 0 <= i < |toResume| :: !toResume[i].exclusive
        decreases |waiters|
      {
        readers := readers + 1;
        toResume := toResume + [waiters[0]];
        waiters := waiters[1..];
      }
      PrefixIs(all, |toResume|);
    }

    method Unlock() returns (ready: seq<Waiter>)
      requires writer
      modifies this
      ensures State() == Release(old(State()), true)
      ensures ready == old(waiters)[..Handed(Drop(old(State()), true))]
    {
      writer := false;
      ready := GrantFromQueueLocked();
    }

    method UnlockShared() returns (ready: seq<Waiter>)
      requires readers > 0
      modifies this
      ensures State() == Release(old(State()), false)
      ensures ready == old(waiters)[..Handed(Drop(old(State()), false))]
    {
      readers := readers - 1;
      ready := GrantFromQueueLocked();
    }
  }

  // ---- runs ------------------------------------------------------------------------

  /** The lock together with what happened so far: who holds it now, and the requests in the
      order they arrived and in the order they were granted. */
  datatype World = World(
    lock: LockState, holders: set<Waiter>, arrivals: seq<Waiter>, grants: seq<Waiter>)

  datatype Event = Arrival(w: Waiter) | Departure(w: Waiter)

  const EMPTY := World(FREE, {}, [], [])

  ghost predicate Fresh(w: World, id: nat) {
    forall a | a in w.arrivals :: a.id != id
  }

  ghost predicate Enabled(w: World, e: Event) {
    match e
    case Arrival(r) => Fresh(w, r.id)
    case Departure(r) => r in w.holders && if r.exclusive then w.lock.writer else w.lock.readers > 0
  }

  function SetOf(ws: seq<Waiter>): set<Waiter> {
    set w | w in ws
  }

  ghost function Step(w: World, e: Event): World
    requires Enabled(w, e)
  {
    match e
    case Arrival(r) =>
      var now := Grantable(w.lock, r.exclusive);
      World(Arrive(w.lock, r),
            if now then w.holders + {r} else w.holders,
            w.arrivals + [r],
            if now then w.grants + [r] else w.grants)
    case Departure(r) =>
      var served := w.lock.waiters[..Handed(Drop(w.lock, r.exclusive))];
      World(Release(w.lock, r.exclusive),
            w.holders - {r} + SetOf(served),
            w.arrivals,
            w.grants + served)
  }

  ghost predicate Valid(w: World) {
    && Accounting(w)
    && Fifo(w)
    && HeadBlocked(w.lock)
  }

  /** The counters describe the holders, and a writer excludes everyone else. */
  ghost predicate Accounting(w: World) {
    if w.lock.writer then
      w.lock.readers == 0 && exists h :: w.holders == {h} && h.exclusive
    else
      |w.holders| == w.lock.readers && forall h | h in w.holders :: !h.exclusive
  }

  ghost predicate DistinctIds(ws: seq<Waiter>) {
    forall i, j | 0 <= i < j < |ws| :: ws[i].id != ws[j].id
  }

  /** Grants happen exactly in arrival order: what was granted, followed by what still waits,
      is what arrived. */
  ghost predicate Fifo(w: World) {
    && w.arrivals == w.grants + w.lock.waiters
    && DistinctIds(w.arrivals)
    && forall h | h in w.holders :: h in w.grants
  }

  /** A non-empty queue has a head that the current holders exclude. */
  predicate HeadBlocked(s: LockState) {
    s.waiters != [] ==> !Compatible(s, s.waiters[0].exclusive)
  }

  lemma EmptyIsValid()
    ensures Valid(EMPTY)
  {
  }

  /** Handing the lock over leaves a blocked head, whatever the queue. */
  lemma HandOverBlocksHead(s: LockState)
    requires s.writer ==> s.readers == 0
    ensures HeadBlocked(HandOver(s))
  {
    var n := Handed(s);
    if n < |s.waiters| && !s.writer {
      assert HandOver(s).waiters[0] == s.waiters[n];
    }
  }

  lemma ArrivalKeepsValid(w: World, r: Waiter)
    requires Valid(w) && Fresh(w, r.id)
    ensures Valid(Step(w, Arrival(r)))
  {
    var w' := Step(w, Arrival(r));
    assert w.arrivals + [r] == w'.grants + w'.lock.waiters;
    if Grantable(w.lock, r.exclusive) {
      assert forall g | g in w.grants :: g in w.arrivals;
      if r.exclusive {
        assert w.holders == {};
        assert w'.holders == {r};
      }
    } else if w.lock.waiters != [] {
      assert w'.lock.waiters[0] == w.lock.waiters[0];
    }
  }

  /** Requests with distinct ids are as many as their indices. */
  lemma DistinctCount(ws: seq<Waiter>)
    requires DistinctIds(ws)
    ensures |SetOf(ws)| == |ws|
  {
    if ws != [] {
      DistinctCount(ws[1..]);
      assert SetOf(ws) == {ws[0]} + SetOf(ws[1..]);
    }
  }

  /** The requests a release serves are the oldest waiting ones, none of them a holder yet. */
  lemma ServedAreNew(w: World, served: seq<Waiter>)
    requires Fifo(w) && served <= w.lock.waiters
    ensures SetOf(served) !! w.holders
    ensures |SetOf(served)| == |served|
  {
    var n := |w.grants|;
    assert forall i | 0 <= i < |served| :: served[i] == w.arrivals[n + i];
    assert forall h | h in w.holders :: h in w.arrivals[..n];
    DistinctCount(served);
  }

  lemma DepartureCounts(w: World, r: Waiter)
    requires Valid(w) && Enabled(w, Departure(r))
    ensures |Step(w, Departure(r)).holders| == |w.holders| - 1 + Handed(Drop(w.lock, r.exclusive))
  {
    var served := w.lock.waiters[..Handed(Drop(w.lock, r.exclusive))];
    ServedAreNew(w, served);
    assert |w.holders - {r} + SetOf(served)| == |w.holders - {r}| + |SetOf(served)|;
  }

  lemma DepartureAccounting(w: World, r: Waiter)
    requires Valid(w) && Enabled(w, Departure(r))
    ensures Accounting(Step(w, Departure(r)))
  {
    DepartureCounts(w, r);
    var s := Drop(w.lock, r.exclusive);
    var served := w.lock.waiters[..Handed(s)];
    var rest := w.holders - {r};
    assert !s.writer && |rest| == s.readers && forall h | h in rest :: !h.exclusive;
    if served != [] && served[0].exclusive {
      assert served == [served[0]];
      assert rest + SetOf(served) == {served[0]};
    }
  }

  lemma DepartureFifo(w: World, r: Waiter)
    requires Valid(w) && Enabled(w, Departure(r))
    ensures Fifo(Step(w, Departure(r)))
  {
    var n := Handed(Drop(w.lock, r.exclusive));
    Regroup(w.grants, w.lock.waiters, n);
    var served := w.lock.waiters[..n];
    assert forall h | h in w.grants || h in served :: h in w.grants + served;
  }

  lemma Regroup(a: seq<Waiter>, b: seq<Waiter>, n: nat)
    requires n <= |b|
    ensures a + b == (a + b[..n]) + b[n..]
  {
  }

  lemma DepartureKeepsValid(w: World, r: Waiter)
    requires Valid(w) && Enabled(w, Departure(r))
    ensures Valid(Step(w, Departure(r)))
  {
    DepartureAccounting(w, r);
    DepartureFifo(w, r);
    HandOverBlocksHead(Drop(w.lock, r.exclusive));
  }

  ghost predicate IsRun(run: seq<World>, events: seq<Event>) {
    && |run| == |events| + 1
    && run[0] == EMPTY
    && forall i | 0 <= i < |events| :: Enabled(run[i], events[i]) && run[i + 1] == Step(run[i], events[i])
  }

  /** In every state of every run the lock excludes writers, serves in arrival order and never
      leaves a waiter behind a free lock. */
  lemma {:induction false} RunsAreValid(run: seq<World>, events: seq<Event>, k: nat)
    requires IsRun(run, events) && k < |run|
    ensures Valid(run[k])
  {
    if k == 0 {
      EmptyIsValid();
    } else {
      RunsAreValid(run, events, k - 1);
      match events[k - 1]
      case Arrival(r) => ArrivalKeepsValid(run[k - 1], r);
      case Departure(r) => DepartureKeepsValid(run[k - 1], r);
    }
  }

  /** A waiting request implies somebody holds the lock. */
  lemma WaitersHaveHolders(w: World)
    requires Valid(w) && w.lock.waiters != []
    ensures w.holders != {}
  {
  }

  /** Writers exclude: two distinct simultaneous holders are both readers. */
  lemma WriterExcludes(w: World, a: Waiter, b: Waiter)
    requires Valid(w) && a in w.holders && b in w.holders && a != b
    ensures !a.exclusive && !b.exclusive
  {
  }

  // ---- progress --------------------------------------------------------------------

  /** Holders plus older waiters: how many releases request number `n` (in arrival order) is
      still away from the lock. */
  ghost function Rank(w: World, n: nat): nat
    requires |w.grants| <= n
  {
    |w.holders| + (n - |w.grants|)
  }

  ghost function Departures(events: seq<Event>): nat {
    if events == [] then 0 else (if events[|events| - 1].Departure? then 1 else 0) + Departures(events[..|events| - 1])
  }

  /** Each release lowers the rank of every request still waiting by exactly one, and no
      arrival changes it. */
  lemma RankDescends(w: World, e: Event, n: nat)
    requires Valid(w) && Enabled(w, e)
    requires |w.grants| <= n < |w.arrivals|
    ensures |Step(w, e).grants| <= n ==>
              Rank(Step(w, e), n) == Rank(w, n) - (if e.Departure? then 1 else 0)
    ensures e.Arrival? ==> |Step(w, e).grants| <= n
  {
    match e
    case Arrival(r) =>
      assert w.lock.waiters != [];
    case Departure(r) =>
      DepartureCounts(w, r);
  }

  /** Nothing granted is taken back, nothing that arrived is forgotten. */
  lemma {:induction false} HistoryGrows(run: seq<World>, events: seq<Event>, k: nat, m: nat)
    requires IsRun(run, events) && k <= m < |run|
    ensures run[k].grants <= run[m].grants && run[k].arrivals <= run[m].arrivals
  {
    if k < m {
      HistoryGrows(run, events, k, m - 1);
      assert run[m] == Step(run[m - 1], events[m - 1]);
    }
  }

  lemma LastDeparture(events: seq<Event>, k: nat, m: nat)
    requires k < m <= |events|
    ensures Departures(events[k..m]) == Departures(events[k..m - 1]) + if events[m - 1].Departure? then 1 else 0
  {
    var es := events[k..m];
    assert es[..|es| - 1] == events[k..m - 1];
  }

  lemma {:induction false} RankCountsReleases(run: seq<World>, events: seq<Event>, k: nat, m: nat, n: nat)
    requires IsRun(run, events) && k <= m < |run|
    requires |run[k].grants| <= |run[m].grants| <= n < |run[k].arrivals|
    ensures Rank(run[m], n) + Departures(events[k..m]) == Rank(run[k], n)
  {
    if k < m {
      HistoryGrows(run, events, k, m - 1);
      HistoryGrows(run, events, m - 1, m);
      RankCountsReleases(run, events, k, m - 1, n);
      LastDeparture(events, k, m);
      RunsAreValid(run, events, m - 1);
      var w, e := run[m - 1], events[m - 1];
      assert Enabled(w, e) && run[m] == Step(w, e);
      RankDescends(w, e, n);
    } else {
      assert events[k..m] == [];
    }
  }

  /** A request that waits in state `k` of a run is granted by the time as many releases have
      happened as its rank was: nobody can starve. */
  lemma EveryWaiterIsServed(run: seq<World>, events: seq<Event>, k: nat, m: nat, n: nat)
    requires IsRun(run, events) && k <= m < |run|
    requires |run[k].grants| <= n < |run[k].arrivals|
    requires Departures(events[k..m]) >= Rank(run[k], n)
    ensures n < |run[m].grants| && run[m].grants[n] == run[k].arrivals[n]
  {
    HistoryGrows(run, events, k, m);
    RunsAreValid(run, events, m);
    if |run[m].grants| <= n {
      RankCountsReleases(run, events, k, m, n);
      WaitersHaveHolders(run[m]);
      assert false;
    }
    assert run[m].grants[n] == run[m].arrivals[n];
  }
}
