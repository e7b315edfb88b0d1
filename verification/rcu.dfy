/** Who still owns a removed export: the read-copy-update protocol around ExportTable
    (ExportTable::snapshot, apply and take_retired of src/core/config.cpp, and
    CatalogApplier::retire_exports of src/server/catalog_applier.cpp).

    Every shared_ptr is an owner.  A published ExportSet object lives while it is current or
    some reader or running apply() holds it, and owns the entries it lists.  A builder, a list
    of entries about to be queued, the retirement queue and a pinned entry own entries
    directly.  take_retired() hands out, to be stopped, the queued entries whose use_count()
    is one.  Any number of readers, pins and apply() calls may interleave between steps. */
module Rcu {
  type Entry = nat
  type SetId = nat
  type Reader = nat
  type Agent = nat
  type Pin = nat

  /** How far one apply() call is: it holds the set it started from and, later, its own. */
  datatype Job =
    | Snapped(start: SetId)
    | Building(start: SetId, next: set<Entry>, leaving: seq<Entry>)
    | Publishing(start: SetId, mine: SetId, leaving: seq<Entry>)

  datatype State = State(
    sets: map<SetId, set<Entry>>,
    published: SetId,
    readers: map<Reader, SetId>,
    jobs: map<Agent, Job>,
    pins: map<Pin, Entry>,
    retired: seq<Entry>,
    stopped: set<Entry>,
    made: set<Entry>)

  predicate Holds(j: Job, id: SetId) {
    id == j.start || (j.Publishing? && id == j.mine)
  }

  function Carried(j: Job): set<Entry> {
    match j
    case Snapped(_) => {}
    case Building(_, next, leaving) => next + (set e | e in leaving)
    case Publishing(_, _, leaving) => set e | e in leaving
  }

  predicate Live(s: State, id: SetId) {
    || id == s.published
    || (exists r | r in s.readers :: s.readers[r] == id)
    || (exists a | a in s.jobs :: Holds(s.jobs[a], id))
  }

  // ---- use_count() -----------------------------------------------------------------

  datatype Owner = Slot(i: nat) | Listing(id: SetId) | Builder(a: Agent) | Leaving(a: Agent, k: nat) | Pinned(p: Pin)

  ghost function Slots(s: State, e: Entry): set<Owner> {
    set i | 0 <= i < |s.retired| && s.retired[i] == e :: Slot(i)
  }

  ghost function Listings(s: State, e: Entry): set<Owner> {
    set id | id in s.sets && Live(s, id) && e in s.sets[id] :: Listing(id)
  }

  ghost function Builders(s: State, e: Entry): set<Owner> {
    set a | a in s.jobs && s.jobs[a].Building? && e in s.jobs[a].next :: Builder(a)
  }

  function LeavingOf(j: Job): seq<Entry> {
    if j.Snapped? then [] else j.leaving
  }

  ghost function Leavings(s: State, e: Entry): set<Owner> {
    set a, k | a in s.jobs && 0 <= k < |LeavingOf(s.jobs[a])| && LeavingOf(s.jobs[a])[k] == e :: Leaving(a, k)
  }

  ghost function Pins(s: State, e: Entry): set<Owner> {
    set p | p in s.pins && s.pins[p] == e :: Pinned(p)
  }

  ghost function Owners(s: State, e: Entry): set<Owner> {
    Slots(s, e) + Listings(s, e) + Builders(s, e) + Leavings(s, e) + Pins(s, e)
  }

  ghost function UseCount(s: State, e: Entry): nat {
    |Owners(s, e)|
  }

  // ---- steps -----------------------------------------------------------------------

  datatype Step =
    | Snapshot(r: Reader)
    | Share(r: Reader, to: Reader)
    | Drop(r: Reader)
    | PinEntry(p: Pin, r: Reader, e: Entry)
    | Unpin(p: Pin)
    | Begin(a: Agent)
    | Build(a: Agent, leaving: seq<Entry>, added: set<Entry>)
    | GiveUp(a: Agent)
    | Publish(a: Agent, id: SetId)
    | Enqueue(a: Agent)
    | Finish(a: Agent)
    | TakeRetired

  predicate NoRepeats(xs: seq<Entry>) {
    forall i, j | 0 <= i < j < |xs| :: xs[i] != xs[j]
  }

  predicate Enabled(s: State, t: Step) {
    match t
    case Snapshot(r) => r !in s.readers
    case Share(r, to) => r in s.readers && to !in s.readers
    case Drop(r) => r in s.readers
    case PinEntry(p, r, e) => p !in s.pins && r in s.readers && s.readers[r] in s.sets && e in s.sets[s.readers[r]]
    case Unpin(p) => p in s.pins
    case Begin(a) => a !in s.jobs
    case Build(a, leaving, added) =>
      && a in s.jobs && s.jobs[a].Snapped? && s.jobs[a].start in s.sets
      && added !! s.made && NoRepeats(leaving) && forall e | e in leaving :: e in s.sets[s.jobs[a].start]
    case GiveUp(a) => a in s.jobs && !s.jobs[a].Publishing?
    case Publish(a, id) => a in s.jobs && s.jobs[a].Building? && id !in s.sets
    case Enqueue(a) => a in s.jobs && s.jobs[a].Publishing? && s.jobs[a].leaving != []
    case Finish(a) => a in s.jobs && s.jobs[a].Publishing? && s.jobs[a].leaving == []
    case TakeRetired => true
  }

  /** The queued entries that take_retired hands out: nothing else owns them. */
  ghost function Released(s: State): set<Entry> {
    set e | e in s.retired && UseCount(s, e) == 1
  }

  function Without(queue: seq<Entry>, gone: set<Entry>): (r: seq<Entry>)
    ensures forall e :: e in r <==> e in queue && e !in gone
  {
    if queue == [] then []
    else
      assert queue == [queue[0]] + queue[1..];
      (if queue[0] in gone then [] else [queue[0]]) + Without(queue[1..], gone)
  }

  function Taken(s: State, gone: set<Entry>): State {
    s.(retired := Without(s.retired, gone), stopped := s.stopped + gone)
  }

  ghost function Next(s: State, t: Step): State
    requires Enabled(s, t)
  {
    match t
    case Snapshot(r) => s.(readers := s.readers[r := s.published])
    case Share(r, to) => s.(readers := s.readers[to := s.readers[r]])
    case Drop(r) => s.(readers := s.readers - {r})
    case PinEntry(p, r, e) => s.(pins := s.pins[p := e])
    case Unpin(p) => s.(pins := s.pins - {p})
    case Begin(a) => s.(jobs := s.jobs[a := Snapped(s.published)])
    case Build(a, leaving, added) =>
      var j := s.jobs[a];
      s.(jobs := s.jobs[a := Building(j.start, s.sets[j.start] - (set e | e in leaving) + added, leaving)],
         made := s.made + added)
    case GiveUp(a) => s.(jobs := s.jobs - {a})
    case Publish(a, id) =>
      var j := s.jobs[a];
      s.(sets := s.sets[id := j.next], published := id, jobs := s.jobs[a := Publishing(j.start, id, j.leaving)])
    case Enqueue(a) =>
      s.(retired := s.retired + s.jobs[a].leaving, jobs := s.jobs[a := s.jobs[a].(leaving := [])])
    case Finish(a) => s.(jobs := s.jobs - {a})
    case TakeRetired => Taken(s, Released(s))
  }

  ghost predicate IsRun(run: seq<State>, steps: seq<Step>) {
    && |run| == |steps| + 1
    && forall i | 0 <= i < |steps| :: Enabled(run[i], steps[i]) && run[i + 1] == Next(run[i], steps[i])
  }

  /** The state of a new table: one empty set. */
  ghost predicate Initial(s: State) {
    s.sets == map[s.published := {}] && s.readers == map[] && s.jobs == map[] && s.pins == map[]
    && s.retired == [] && s.stopped == {} && s.made == {}
  }

  // ---- the invariant ---------------------------------------------------------------

  ghost predicate Unlisted(s: State, e: Entry) {
    forall id | id in s.sets && Live(s, id) :: e !in s.sets[id]
  }

  ghost predicate Unpinned(s: State, e: Entry) {
    forall p | p in s.pins :: s.pins[p] != e
  }

  ghost predicate Unowned(s: State, e: Entry) {
    && e !in s.retired && Unlisted(s, e)
    && (forall a | a in s.jobs :: e !in Carried(s.jobs[a]))
    && Unpinned(s, e)
  }

  ghost predicate Grounded(s: State) {
    && (forall id: SetId | Live(s, id) :: id in s.sets)
    && (forall id | id in s.sets :: s.sets[id] <= s.made)
    && (forall a | a in s.jobs :: Carried(s.jobs[a]) <= s.made)
    && (forall e | e in s.retired :: e in s.made)
    && s.stopped <= s.made
  }

  ghost predicate Inv(s: State) {
    Grounded(s) && forall e | e in s.stopped :: Unowned(s, e)
  }

  /** A use count of one on a queued entry means the queue slot is the only owner. */
  lemma SoleOwner(s: State, e: Entry, i: nat)
    requires i < |s.retired| && s.retired[i] == e && UseCount(s, e) == 1
    ensures Owners(s, e) == {Slot(i)}
    ensures Listings(s, e) == {} && Builders(s, e) == {} && Leavings(s, e) == {} && Pins(s, e) == {}
  {
    var all := Owners(s, e);
    assert Slot(i) in all;
    assert |all - {Slot(i)}| == 0;
    assert forall o | o in all :: o == Slot(i);
  }

  lemma SoleIsUnowned(s: State, e: Entry)
    requires e in s.retired && UseCount(s, e) == 1
    ensures Unlisted(s, e) && (forall a | a in s.jobs :: e !in Carried(s.jobs[a])) && Unpinned(s, e)
  {
    var i :| 0 <= i < |s.retired| && s.retired[i] == e;
    SoleOwner(s, e, i);
    assert forall id | id in s.sets && Live(s, id) && e in s.sets[id] :: Listing(id) in Listings(s, e);
    assert forall p | p in s.pins && s.pins[p] == e :: Pinned(p) in Pins(s, e);
    forall a | a in s.jobs
      ensures e !in Carried(s.jobs[a])
    {
      NotCarried(s, e, a);
    }
  }

  lemma TakenIsUnowned(s: State, gone: set<Entry>, e: Entry)
    requires e in gone
    requires Unlisted(s, e) && (forall a | a in s.jobs :: e !in Carried(s.jobs[a])) && Unpinned(s, e)
    ensures Unowned(Taken(s, gone), e)
  {
    assert forall id: SetId | Live(Taken(s, gone), id) :: Live(s, id);
  }

  lemma NotCarried(s: State, e: Entry, a: Agent)
    requires a in s.jobs && Builders(s, e) == {} && Leavings(s, e) == {}
    ensures e !in Carried(s.jobs[a])
  {
    assert Builder(a) !in Builders(s, e);
    var leaving := LeavingOf(s.jobs[a]);
    assert forall k: nat :: Leaving(a, k) !in Leavings(s, e);
  }

  /** Only a publication makes a set live that was not live before. */
  lemma LiveBefore(s: State, t: Step, id: SetId)
    requires Enabled(s, t) && Live(Next(s, t), id)
    ensures Live(s, id) || (t.Publish? && id == t.id)
  {
    var n := Next(s, t);
    if r :| r in n.readers && n.readers[r] == id {
      assert r in s.readers ==> s.readers[r] == n.readers[r];
    } else if a :| a in n.jobs && Holds(n.jobs[a], id) {
      assert a in s.jobs && Holds(s.jobs[a], id) ==> Live(s, id);
    }
  }

  lemma StepKeepsGrounded(s: State, t: Step)
    requires Grounded(s) && Enabled(s, t)
    ensures Grounded(Next(s, t))
  {
    var n := Next(s, t);
    forall id: SetId | Live(n, id)
      ensures id in n.sets
    {
      LiveBefore(s, t, id);
    }
  }

  lemma StoppedStaysUnowned(s: State, t: Step, e: Entry)
    requires Inv(s) && Enabled(s, t) && e in s.stopped
    ensures Unowned(Next(s, t), e)
  {
    var n := Next(s, t);
    forall id | id in n.sets && Live(n, id)
      ensures e !in n.sets[id]
    {
      LiveBefore(s, t, id);
    }
  }

  lemma StepKeepsInv(s: State, t: Step)
    requires Inv(s) && Enabled(s, t)
    ensures Inv(Next(s, t)) && s.stopped <= Next(s, t).stopped
  {
    StepKeepsGrounded(s, t);
    forall e | e in Next(s, t).stopped
      ensures Unowned(Next(s, t), e)
    {
      if e in s.stopped {
        StoppedStaysUnowned(s, t, e);
      } else {
        SoleIsUnowned(s, e);
        TakenIsUnowned(s, Released(s), e);
      }
    }
  }

  lemma {:induction false} RunsKeepInv(run: seq<State>, steps: seq<Step>, i: nat, j: nat)
    requires IsRun(run, steps) && Initial(run[0]) && i <= j < |run|
    ensures Inv(run[j]) && run[i].stopped <= run[j].stopped
    decreases j
  {
    if i < j {
      RunsKeepInv(run, steps, i, j - 1);
      StepKeepsInv(run[j - 1], steps[j - 1]);
    } else if j > 0 {
      RunsKeepInv(run, steps, j - 1, j - 1);
      StepKeepsInv(run[j - 1], steps[j - 1]);
    }
  }

  /** Retirement is safe: once an entry has been handed out to be stopped, no live snapshot,
      no later published set, and no apply(), queue or pin has it ever again. */
  lemma StoppedIsGone(run: seq<State>, steps: seq<Step>, i: nat, j: nat, e: Entry)
    requires IsRun(run, steps) && Initial(run[0]) && i <= j < |run| && e in run[i].stopped
    ensures Unowned(run[j], e)
    ensures run[j].published in run[j].sets && e !in run[j].sets[run[j].published]
    ensures forall r | r in run[j].readers :: run[j].readers[r] in run[j].sets && e !in run[j].sets[run[j].readers[r]]
  {
    RunsKeepInv(run, steps, i, j);
    assert forall r | r in run[j].readers :: Live(run[j], run[j].readers[r]);
  }

  // ---- nothing is retained for ever when apply() calls do not overlap ----------------

  predicate Alone(s: State) {
    forall a, b | a in s.jobs && b in s.jobs :: a == b
  }

  predicate Apart(xs: seq<Entry>, s: set<Entry>) {
    forall e | e in xs :: e !in s
  }

  predicate JobFits(s: State, j: Job) {
    s.published in s.sets &&
    match j
    case Snapped(start) => start == s.published
    case Building(start, next, leaving) =>
      && start == s.published && NoRepeats(leaving) && (forall e | e in leaving :: e in s.sets[start])
      && Apart(leaving, next) && Apart(s.retired, next)
    case Publishing(_, mine, leaving) =>
      && mine == s.published && NoRepeats(leaving)
      && Apart(leaving, s.sets[mine]) && (forall e | e in leaving :: e !in s.retired)
  }

  predicate Tidy(s: State) {
    s.published in s.sets && NoRepeats(s.retired) && Apart(s.retired, s.sets[s.published])
  }

  ghost predicate Orderly(s: State) {
    && Grounded(s) && Tidy(s)
    && forall a | a in s.jobs :: JobFits(s, s.jobs[a])
  }

  /** With one apply() at a time, take_retired hands out a queued entry exactly when no live
      set lists it and nothing pins it. */
  lemma TakenWhenReleased(s: State, e: Entry)
    requires Orderly(s) && e in s.retired
    ensures UseCount(s, e) == 1 <==> Unlisted(s, e) && Unpinned(s, e)
  {
    if Unlisted(s, e) && Unpinned(s, e) {
      var i :| 0 <= i < |s.retired| && s.retired[i] == e;
      assert Slots(s, e) == {Slot(i)};
      assert Builders(s, e) == {} && Leavings(s, e) == {};
      assert Listings(s, e) == {} && Pins(s, e) == {};
      assert Owners(s, e) == {Slot(i)};
    }
    if UseCount(s, e) == 1 { SoleIsUnowned(s, e); }
  }

  lemma {:induction false} WithoutKeepsDistinct(queue: seq<Entry>, gone: set<Entry>)
    requires NoRepeats(queue)
    ensures NoRepeats(Without(queue, gone))
  {
    if queue != [] {
      WithoutKeepsDistinct(queue[1..], gone);
      assert forall e | e in queue[1..] :: e != queue[0];
    }
  }

  lemma TakeKeepsOrderly(s: State, gone: set<Entry>)
    requires Orderly(s)
    ensures Tidy(Taken(s, gone)) && forall a | a in s.jobs :: JobFits(Taken(s, gone), s.jobs[a])
  {
    WithoutKeepsDistinct(s.retired, gone);
  }

  lemma JoinedDistinct(xs: seq<Entry>, ys: seq<Entry>)
    requires NoRepeats(xs) && NoRepeats(ys) && forall e | e in ys :: e !in xs
    ensures NoRepeats(xs + ys)
  {
    assert forall i | 0 <= i < |xs| :: xs[i] in xs;
  }

  lemma QueueStaysTidy(s: State, t: Step)
    requires Orderly(s) && Enabled(s, t) && !t.TakeRetired?
    ensures Tidy(Next(s, t))
  {
    match t
    case Publish(a, id) => assert JobFits(s, s.jobs[a]);
    case Enqueue(a) =>
      assert JobFits(s, s.jobs[a]);
      JoinedDistinct(s.retired, s.jobs[a].leaving);
    case _ =>
  }

  lemma JobStaysFit(s: State, t: Step, a: Agent)
    requires Orderly(s) && Enabled(s, t) && !t.TakeRetired? && Alone(Next(s, t)) && a in Next(s, t).jobs
    ensures JobFits(Next(s, t), Next(s, t).jobs[a])
  {
    match t
    case Build(b, leaving, added) =>
      assert b in Next(s, t).jobs && a in s.jobs;
      assert JobFits(s, s.jobs[a]) && s.sets[s.published] <= s.made;
    case Publish(b, id) =>
      assert b in Next(s, t).jobs && a in s.jobs;
      assert JobFits(s, s.jobs[a]);
    case Enqueue(b) => assert b in Next(s, t).jobs;
    case Begin(b) => assert b in Next(s, t).jobs;
    case _ =>
  }

  lemma StepKeepsOrderly(s: State, t: Step)
    requires Orderly(s) && Enabled(s, t) && Alone(Next(s, t))
    ensures Orderly(Next(s, t))
  {
    StepKeepsGrounded(s, t);
    if t.TakeRetired? {
      TakeKeepsOrderly(s, Released(s));
    } else {
      QueueStaysTidy(s, t);
      forall a | a in Next(s, t).jobs
        ensures JobFits(Next(s, t), Next(s, t).jobs[a])
      {
        JobStaysFit(s, t, a);
      }
    }
  }

  lemma {:induction false} SerialRunsAreOrderly(run: seq<State>, steps: seq<Step>, j: nat)
    requires IsRun(run, steps) && Initial(run[0]) && j < |run| && forall i | 0 <= i <= j :: Alone(run[i])
    ensures Orderly(run[j])
  {
    if j > 0 {
      SerialRunsAreOrderly(run, steps, j - 1);
      StepKeepsOrderly(run[j - 1], steps[j - 1]);
    }
  }

  /** No removed export is kept for ever: while apply() calls do not overlap, take_retired
      leaves in the queue only entries that a live snapshot lists or something pins. */
  lemma TakeLeavesOnlyReferenced(run: seq<State>, steps: seq<Step>, j: nat)
    requires IsRun(run, steps) && Initial(run[0]) && j < |steps| && steps[j] == TakeRetired
    requires forall i | 0 <= i <= j :: Alone(run[i])
    ensures forall e | e in run[j].retired ::
              if Unlisted(run[j], e) && Unpinned(run[j], e)
              then e in run[j + 1].stopped && e !in run[j + 1].retired
              else e in run[j + 1].retired
  {
    SerialRunsAreOrderly(run, steps, j);
    forall e | e in run[j].retired
      ensures UseCount(run[j], e) == 1 <==> Unlisted(run[j], e) && Unpinned(run[j], e)
    {
      TakenWhenReleased(run[j], e);
    }
  }
}
