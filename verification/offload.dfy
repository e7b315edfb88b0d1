/** The offload pool of src/runtime/offload_pool.cpp: one worker group, every thread.

    Agents 0..n-1 are the group's workers, agent n is the thread in stop_and_join and every
    later agent is one call of submit.  An agent moves one atomic step at a time: one atomic
    counter operation, or one critical section under a shard's lock or the overflow lock.
    In particular a worker scans the shards one lock at a time.  Which shard the round-robin
    counter picks is left open (`pick`). */
module OffloadPool {

  type Job = nat

  const SIZE := 0x1_0000_0000_0000_0000

  /** The three steps of enqueue(): push onto a shard, count, release a permit. */
  datatype Enqueue = Push(job: Job) | Count | Permit

  datatype Agent =
    // a worker
    | Idle                    // before sem.acquire()
    | Scan(k: nat)            // holds a permit; its first k shards were empty
    | PutBack                 // the scan failed while the pool was not stopping
    | Have(job: Job)
    | Running(job: Job)
    | Refill                  // about to compare the depth with the cap
    | Claim                   // about to look into the overflow queue
    | Promote(e: Enqueue)
    | Exited
    // stop_and_join
    | Calm
    | Stopping
    | DrainLoop               // holds the overflow lock, as does Drain
    | Drain(e: Enqueue)
    | ReleaseExits
    | Joined
    // submit
    | Checking(job: Job)
    | Deferring(job: Job)
    | Submit(e: Enqueue)
    | Done

  datatype State = State(
    n: nat,
    cap: nat,
    // whether submits may overlap stop_and_join
    overlap: bool,
    shards: seq<seq<Job>>,
    overflow: seq<Job>,
    sem: nat,
    depth: int,
    stopping: bool,
    agents: seq<Agent>,
    ran: seq<Job>,
    submitted: seq<Job>)

  /** The admission counter is a size_t: a worker may subtract before the submitter adds. */
  function DepthLoad(depth: int): nat {
    depth % SIZE
  }

  predicate OverflowFree(driver: Agent) {
    !driver.DrainLoop? && !driver.Drain?
  }

  predicate SubmitsDone(s: State) {
    forall x | s.n < x < |s.agents| :: s.agents[x].Done?
  }

  predicate Enabled(s: State, i: nat) {
    && s.n < |s.agents| && i < |s.agents|
    && match s.agents[i]
       case Idle => s.sem > 0
       case Claim => OverflowFree(s.agents[s.n])
       case Deferring(_) => OverflowFree(s.agents[s.n])
       case Calm => s.overlap || SubmitsDone(s)
       case Exited => false
       case Joined => false
       case Done => false
       case _ => true
  }

  function Enqueued(s: State, e: Enqueue, pick: nat): State
    requires pick < |s.shards|
  {
    match e
    case Push(job) => s.(shards := s.shards[pick := s.shards[pick] + [job]])
    case Count => s.(depth := s.depth + 1)
    case Permit => s.(sem := s.sem + 1)
  }

  /** The agent after one step of enqueue(), `back` when that was the last one. */
  function Later(e: Enqueue, wrap: Enqueue -> Agent, back: Agent): Agent {
    match e
    case Push(_) => wrap(Count)
    case Count => wrap(Permit)
    case Permit => back
  }

  /** The k-th shard worker w looks at. */
  function ShardAt(n: nat, w: nat, k: nat): (m: nat)
    requires n > 0
    ensures m < n
  {
    (w + k) % n
  }

  /** The effect of agent i's next step on everything but its own program counter ... */
  function Effect(s: State, i: nat, pick: nat): State
    requires Enabled(s, i) && |s.shards| == s.n && pick < s.n
  {
    match s.agents[i]
    case Idle => s.(sem := s.sem - 1)
    case Scan(k) =>
      var m := ShardAt(s.n, i, k);
      if k < s.n && s.shards[m] != [] then s.(shards := s.shards[m := s.shards[m][1..]]) else s
    case PutBack => s.(sem := s.sem + 1)
    case Have(_) => s.(depth := s.depth - 1)
    case Running(job) => s.(ran := s.ran + [job])
    case Claim => if s.overflow == [] then s else s.(overflow := s.overflow[1..])
    case Promote(e) => Enqueued(s, e, pick)
    case Calm => s.(stopping := true)
    case DrainLoop => if s.overflow == [] then s else s.(overflow := s.overflow[1..])
    case Drain(e) => Enqueued(s, e, pick)
    case ReleaseExits => s.(sem := s.sem + s.n)
    case Deferring(job) => s.(overflow := s.overflow + [job])
    case Submit(e) => Enqueued(s, e, pick)
    case _ => s
  }

  /** ... and the program counter it moves to. */
  function Moved(s: State, i: nat): Agent
    requires Enabled(s, i) && |s.shards| == s.n && s.n > 0
  {
    match s.agents[i]
    case Idle => Scan(0)
    case Scan(k) =>
      var m := ShardAt(s.n, i, k);
      if k < s.n then (if s.shards[m] != [] then Have(s.shards[m][0]) else Scan(k + 1))
      else if s.stopping then Exited else PutBack
    case PutBack => Idle
    case Have(job) => Running(job)
    case Running(_) => Refill
    case Refill => if DepthLoad(s.depth) >= s.cap then Idle else Claim
    case Claim => if s.overflow == [] then Idle else Promote(Push(s.overflow[0]))
    case Promote(e) => Later(e, x => Promote(x), Idle)
    case Calm => Stopping
    case Stopping => DrainLoop
    case DrainLoop => if s.overflow == [] then ReleaseExits else Drain(Push(s.overflow[0]))
    case Drain(e) => Later(e, x => Drain(x), DrainLoop)
    case ReleaseExits => Joined
    case Checking(job) =>
      if DepthLoad(s.depth) >= s.cap && !s.stopping then Deferring(job) else Submit(Push(job))
    case Submit(e) => Later(e, x => Submit(x), Done)
    case _ => Done
  }

  function Next(s: State, i: nat, pick: nat): State
    requires Enabled(s, i) && |s.shards| == s.n && pick < s.n
  {
    var t := Effect(s, i, pick);
    t.(agents := t.agents[i := Moved(s, i)])
  }

  /** A new call of submit. */
  function Begin(s: State, job: Job): State {
    s.(agents := s.agents + [Checking(job)], submitted := s.submitted + [job])
  }

  datatype Action = Call(job: Job) | Act(i: nat, pick: nat)

  predicate Allowed(s: State, a: Action) {
    match a
    case Call(_) => s.overlap || !s.stopping
    case Act(i, pick) => Enabled(s, i) && |s.shards| == s.n && pick < s.n
  }

  function Step(s: State, a: Action): State
    requires Allowed(s, a)
  {
    match a
    case Call(job) => Begin(s, job)
    case Act(i, pick) => Next(s, i, pick)
  }

  predicate Initial(s: State) {
    && s.n > 0 && s.shards == seq(s.n, _ => []) && s.overflow == [] && s.sem == 0 && s.depth == 0
    && !s.stopping && s.agents == seq(s.n, _ => Idle) + [Calm] && s.ran == [] && s.submitted == []
  }

  // ---- counting --------------------------------------------------------------------

  function Sum(xs: seq<nat>): nat {
    if xs == [] then 0 else xs[0] + Sum(xs[1..])
  }

  lemma {:induction false} SumUpdate(xs: seq<nat>, i: nat, x: nat)
    requires i < |xs|
    ensures Sum(xs[i := x]) == Sum(xs) - xs[i] + x
    ensures xs[i] <= Sum(xs)
  {
    if i > 0 {
      SumUpdate(xs[1..], i - 1, x);
      assert xs[i := x][1..] == xs[1..][i - 1 := x];
    } else {
      assert xs[i := x][1..] == xs[1..];
    }
  }

  lemma {:induction false} SumAppend(xs: seq<nat>, x: nat)
    ensures Sum(xs + [x]) == Sum(xs) + x
  {
    if xs != [] {
      SumAppend(xs[1..], x);
      assert (xs + [x])[1..] == xs[1..] + [x];
    }
  }

  lemma {:induction false} SumZero(xs: seq<nat>)
    ensures Sum(xs) == 0 <==> forall i | 0 <= i < |xs| :: xs[i] == 0
  {
    if xs != [] { SumZero(xs[1..]); }
  }

  /** How often a job stands in a queue. */
  function Cnt(q: seq<Job>, job: Job): nat {
    if q == [] then 0 else (if q[0] == job then 1 else 0) + Cnt(q[1..], job)
  }

  lemma {:induction false} CntPush(q: seq<Job>, x: Job, job: Job)
    ensures Cnt(q + [x], job) == Cnt(q, job) + Cnt([x], job)
  {
    if q == [] {
      assert q + [x] == [x];
    } else {
      CntPush(q[1..], x, job);
      assert (q + [x])[1..] == q[1..] + [x];
    }
  }

  lemma {:induction false} CntIsMultiplicity(q: seq<Job>, job: Job)
    ensures Cnt(q, job) == multiset(q)[job]
  {
    if q != [] {
      CntIsMultiplicity(q[1..], job);
      assert q == [q[0]] + q[1..];
    }
  }

  function Lengths(qs: seq<seq<Job>>): seq<nat> {
    seq(|qs|, i requires 0 <= i < |qs| => |qs[i]|)
  }

  function Counts(qs: seq<seq<Job>>, job: Job): seq<nat> {
    seq(|qs|, i requires 0 <= i < |qs| => Cnt(qs[i], job))
  }

  lemma LengthUpdate(qs: seq<seq<Job>>, i: nat, q: seq<Job>)
    requires i < |qs|
    ensures Sum(Lengths(qs[i := q])) == Sum(Lengths(qs)) - |qs[i]| + |q|
  {
    var xs := Lengths(qs);
    SumUpdate(xs, i, |q|);
    assert Lengths(qs[i := q]) == xs[i := |q|];
  }

  lemma CountUpdate(qs: seq<seq<Job>>, i: nat, q: seq<Job>, job: Job)
    requires i < |qs|
    ensures Sum(Counts(qs[i := q], job)) == Sum(Counts(qs, job)) - Cnt(qs[i], job) + Cnt(q, job)
  {
    var xs := Counts(qs, job);
    SumUpdate(xs, i, Cnt(q, job));
    assert Counts(qs[i := q], job) == xs[i := Cnt(q, job)];
  }

  /** The job an agent carries. */
  function Hand(a: Agent): seq<Job> {
    match a
    case Have(job) => [job]
    case Running(job) => [job]
    case Checking(job) => [job]
    case Deferring(job) => [job]
    case Promote(Push(job)) => [job]
    case Drain(Push(job)) => [job]
    case Submit(Push(job)) => [job]
    case _ => []
  }

  /** One for every permit an agent has taken without (yet) a job to show for it, and for
      every job it has pushed without having released the permit. */
  function Debit(a: Agent): nat {
    match a
    case Scan(_) => 1
    case PutBack => 1
    case Exited => 1
    case Promote(e) => if e.Push? then 0 else 1
    case Drain(e) => if e.Push? then 0 else 1
    case Submit(e) => if e.Push? then 0 else 1
    case _ => 0
  }

  function Hands(agents: seq<Agent>): seq<seq<Job>> {
    seq(|agents|, i requires 0 <= i < |agents| => Hand(agents[i]))
  }

  function Debits(agents: seq<Agent>): seq<nat> {
    seq(|agents|, i requires 0 <= i < |agents| => Debit(agents[i]))
  }

  lemma DebitUpdate(agents: seq<Agent>, i: nat, a: Agent)
    requires i < |agents|
    ensures Sum(Debits(agents[i := a])) == Sum(Debits(agents)) - Debit(agents[i]) + Debit(a)
    ensures Debit(agents[i]) <= Sum(Debits(agents))
  {
    var ds := Debits(agents);
    SumUpdate(ds, i, Debit(a));
    assert Debits(agents[i := a]) == ds[i := Debit(a)];
  }

  lemma HandUpdate(agents: seq<Agent>, i: nat, a: Agent, job: Job)
    requires i < |agents|
    ensures Sum(Counts(Hands(agents[i := a]), job))
         == Sum(Counts(Hands(agents), job)) - Cnt(Hand(agents[i]), job) + Cnt(Hand(a), job)
  {
    var hs := Hands(agents);
    CountUpdate(hs, i, Hand(a), job);
    assert Hands(agents[i := a]) == hs[i := Hand(a)];
  }

  // ---- the invariant ---------------------------------------------------------------

  predicate WorkerKind(a: Agent, n: nat) {
    || a.Idle? || a.PutBack? || a.Have? || a.Running? || a.Refill? || a.Claim? || a.Promote? || a.Exited?
    || (a.Scan? && a.k <= n)
  }

  predicate DriverKind(a: Agent) {
    a.Calm? || a.Stopping? || a.DrainLoop? || a.Drain? || a.ReleaseExits? || a.Joined?
  }

  predicate SubmitKind(a: Agent) {
    a.Checking? || a.Deferring? || a.Submit? || a.Done?
  }

  predicate Shape(s: State) {
    && 0 < s.n < |s.agents| && |s.shards| == s.n
    && (forall i | 0 <= i < s.n :: WorkerKind(s.agents[i], s.n))
    && DriverKind(s.agents[s.n])
    && (forall i | s.n < i < |s.agents| :: SubmitKind(s.agents[i]))
  }

  /** The phases of the shutdown, when no submit overlaps it. */
  predicate Phases(s: State)
    requires Shape(s)
  {
    && (s.stopping <==> !s.agents[s.n].Calm?)
    && (s.stopping ==> SubmitsDone(s))
    && (s.agents[s.n].ReleaseExits? || s.agents[s.n].Joined? ==> s.overflow == [])
  }

  function ExitPermits(s: State): nat
    requires Shape(s)
  {
    if s.agents[s.n].Joined? then s.n else 0
  }

  /** Permits: free ones, plus those taken without a job or still owed, are the queued jobs
      plus the exit permits handed out. */
  ghost predicate Permits(s: State)
    requires Shape(s)
  {
    s.sem + Sum(Debits(s.agents)) == Sum(Lengths(s.shards)) + ExitPermits(s)
  }

  /** The m-th shard of worker w's scan. */
  function Ahead(s: State, w: nat, m: nat): seq<Job>
    requires Shape(s)
  {
    s.shards[ShardAt(s.n, w, m)]
  }

  /** A worker that will still look at some non-empty shard: one that is not scanning, or one
      whose scan has a non-empty shard ahead of it. */
  ghost predicate WillSee(s: State, w: nat)
    requires Shape(s) && w < s.n
  {
    match s.agents[w]
    case Exited => false
    case Scan(k) => exists m :: k <= m < s.n && Ahead(s, w, m) != []
    case _ => true
  }

  ghost predicate Queued(s: State)
    requires Shape(s)
  {
    exists m :: 0 <= m < s.n && s.shards[m] != []
  }

  ghost predicate Watched(s: State)
    requires Shape(s)
  {
    exists w: nat :: w < s.n && WillSee(s, w)
  }

  /** Although a permit and its job can part company, no queued job is ever unseen. */
  ghost predicate Covered(s: State)
    requires Shape(s)
  {
    Queued(s) ==> Watched(s)
  }

  /** The places a job can be in, counted together. */
  function Everywhere(s: State, job: Job): nat {
    Cnt(s.ran, job) + Sum(Counts(s.shards, job)) + Cnt(s.overflow, job) + Sum(Counts(Hands(s.agents), job))
  }

  /** Every submitted job is in exactly one place. */
  ghost predicate Conserved(s: State) {
    forall job :: Everywhere(s, job) == Cnt(s.submitted, job)
  }

  ghost predicate Inv(s: State) {
    Shape(s) && Phases(s) && Permits(s) && Covered(s) && Conserved(s) && !s.overlap
  }

  /** What every run keeps, overlapping submits or not. */
  ghost predicate Base(s: State) {
    Shape(s) && Permits(s) && Conserved(s) && (s.stopping <==> !s.agents[s.n].Calm?)
  }

  // ---- every step keeps the invariant ----------------------------------------------

  lemma ShapeKept(s: State, i: nat, pick: nat)
    requires Inv(s) && Enabled(s, i) && pick < s.n
    ensures Shape(Next(s, i, pick)) && Phases(Next(s, i, pick))
  {
    ShapeStep(s, i, pick);
    PhasesKept(s, i, pick);
  }

  lemma ShapeStep(s: State, i: nat, pick: nat)
    requires Shape(s) && Enabled(s, i) && pick < s.n
    ensures Shape(Next(s, i, pick))
  {
    KindKept(s, i);
    EffectFrame(s, i, pick);
    ShapeUpdate(s, Effect(s, i, pick), i, Moved(s, i));
  }

  lemma EffectFrame(s: State, i: nat, pick: nat)
    requires Shape(s) && Enabled(s, i) && pick < s.n
    ensures var t := Effect(s, i, pick); t.agents == s.agents && t.n == s.n && |t.shards| == s.n
  {
  }

  lemma ShapeUpdate(s: State, t: State, i: nat, a: Agent)
    requires Shape(s) && t.agents == s.agents && t.n == s.n && |t.shards| == s.n && i < |s.agents|
    requires if i < s.n then WorkerKind(a, s.n) else if i == s.n then DriverKind(a) else SubmitKind(a)
    ensures Shape(t.(agents := t.agents[i := a]))
  {
  }

  lemma PhasesKept(s: State, i: nat, pick: nat)
    requires Inv(s) && Enabled(s, i) && pick < s.n && Shape(Next(s, i, pick))
    ensures Phases(Next(s, i, pick))
  {
  }

  lemma KindKept(s: State, i: nat)
    requires Shape(s) && Enabled(s, i)
    ensures i < s.n ==> WorkerKind(Moved(s, i), s.n)
    ensures i == s.n ==> DriverKind(Moved(s, i))
    ensures i > s.n ==> SubmitKind(Moved(s, i))
  {
  }

  /** The jobs a step pushes onto a shard and the ones it pops from a shard. */
  function Pushed(s: State, i: nat): seq<Job>
    requires i < |s.agents|
  {
    match s.agents[i]
    case Promote(e) => if e.Push? then [e.job] else []
    case Drain(e) => if e.Push? then [e.job] else []
    case Submit(e) => if e.Push? then [e.job] else []
    case _ => []
  }

  function Popped(s: State, i: nat): seq<Job>
    requires Shape(s) && i < |s.agents|
  {
    match s.agents[i]
    case Scan(k) => if k < s.n && Ahead(s, i, k) != [] then [Ahead(s, i, k)[0]] else []
    case _ => []
  }

  lemma ShardLengths(s: State, i: nat, pick: nat)
    requires Shape(s) && Enabled(s, i) && pick < s.n
    ensures Sum(Lengths(Effect(s, i, pick).shards)) == Sum(Lengths(s.shards)) + |Pushed(s, i)| - |Popped(s, i)|
  {
    if Popped(s, i) != [] {
      var m := ShardAt(s.n, i, s.agents[i].k);
      LengthUpdate(s.shards, m, s.shards[m][1..]);
    } else if Pushed(s, i) != [] {
      LengthUpdate(s.shards, pick, s.shards[pick] + Pushed(s, i));
    }
  }

  lemma ShardCounts(s: State, i: nat, pick: nat, job: Job)
    requires Shape(s) && Enabled(s, i) && pick < s.n
    ensures Sum(Counts(Effect(s, i, pick).shards, job))
         == Sum(Counts(s.shards, job)) + Cnt(Pushed(s, i), job) - Cnt(Popped(s, i), job)
  {
    if Popped(s, i) != [] {
      var m := ShardAt(s.n, i, s.agents[i].k);
      CountUpdate(s.shards, m, s.shards[m][1..], job);
    } else if Pushed(s, i) != [] {
      CountUpdate(s.shards, pick, s.shards[pick] + Pushed(s, i), job);
      CntPush(s.shards[pick], Pushed(s, i)[0], job);
    }
  }

  lemma PermitsKept(s: State, i: nat, pick: nat)
    requires Shape(s) && Permits(s) && Enabled(s, i) && pick < s.n && Shape(Next(s, i, pick))
    ensures Permits(Next(s, i, pick))
  {
    ShardLengths(s, i, pick);
    DebitUpdate(s.agents, i, Moved(s, i));
    PermitBalance(s, i, pick);
  }

  /** What each step does to the permit equation. */
  lemma PermitBalance(s: State, i: nat, pick: nat)
    requires Shape(s) && Enabled(s, i) && pick < s.n && Shape(Next(s, i, pick))
    ensures Effect(s, i, pick).sem - s.sem + Debit(Moved(s, i)) - Debit(s.agents[i])
         == |Pushed(s, i)| - |Popped(s, i)| + ExitPermits(Next(s, i, pick)) - ExitPermits(s)
  {
    if i < s.n {
      WorkerPermitBalance(s, i, pick);
    } else if Enqueuing(s.agents[i]) {
      EnqueuePermitBalance(s, i, pick);
    }
  }

  lemma EnqueuePermitBalance(s: State, i: nat, pick: nat)
    requires Shape(s) && Enabled(s, i) && pick < s.n && Enqueuing(s.agents[i])
    ensures Effect(s, i, pick).sem - s.sem + Debit(Moved(s, i)) - Debit(s.agents[i]) == |Pushed(s, i)|
    ensures !Moved(s, i).Joined?
  {
  }

  lemma WorkerPermitBalance(s: State, i: nat, pick: nat)
    requires Shape(s) && Enabled(s, i) && pick < s.n && i < s.n
    ensures Effect(s, i, pick).sem - s.sem + Debit(Moved(s, i)) - Debit(s.agents[i]) == |Pushed(s, i)| - |Popped(s, i)|
  {
  }

  lemma JobsKept(s: State, i: nat, pick: nat, job: Job)
    requires Shape(s) && Enabled(s, i) && pick < s.n
    ensures Everywhere(Next(s, i, pick), job) == Everywhere(s, job)
    ensures Next(s, i, pick).submitted == s.submitted
  {
    ShardCounts(s, i, pick, job);
    HandUpdate(s.agents, i, Moved(s, i), job);
    JobBalance(s, i, pick, job);
  }

  /** Each step moves at most one job from one place to another. */
  predicate Balanced(s: State, i: nat, pick: nat, job: Job)
    requires Shape(s) && Enabled(s, i) && pick < s.n
  {
    && Cnt(Effect(s, i, pick).ran, job) + Cnt(Effect(s, i, pick).overflow, job)
     + Cnt(Hand(Moved(s, i)), job) + Cnt(Pushed(s, i), job)
    == Cnt(s.ran, job) + Cnt(s.overflow, job) + Cnt(Hand(s.agents[i]), job) + Cnt(Popped(s, i), job)
  }

  predicate Enqueuing(a: Agent) {
    a.Promote? || a.Drain? || a.Submit?
  }

  lemma JobBalance(s: State, i: nat, pick: nat, job: Job)
    requires Shape(s) && Enabled(s, i) && pick < s.n
    ensures Balanced(s, i, pick, job)
  {
    if s.agents[i].Scan? {
      ScanJobBalance(s, i, pick, job);
    } else if Enqueuing(s.agents[i]) {
      EnqueueJobBalance(s, i, pick, job);
    } else if i < s.n {
      WorkerJobBalance(s, i, pick, job);
    } else {
      OtherJobBalance(s, i, pick, job);
    }
  }

  lemma WorkerJobBalance(s: State, i: nat, pick: nat, job: Job)
    requires Shape(s) && Enabled(s, i) && pick < s.n && i < s.n && !s.agents[i].Scan? && !Enqueuing(s.agents[i])
    ensures Balanced(s, i, pick, job)
  {
    if s.agents[i].Running? { CntPush(s.ran, s.agents[i].job, job); }
  }

  lemma OtherJobBalance(s: State, i: nat, pick: nat, job: Job)
    requires Shape(s) && Enabled(s, i) && pick < s.n && i >= s.n && !Enqueuing(s.agents[i])
    ensures Balanced(s, i, pick, job)
  {
    if s.agents[i].Deferring? { CntPush(s.overflow, s.agents[i].job, job); }
  }

  lemma ScanJobBalance(s: State, i: nat, pick: nat, job: Job)
    requires Shape(s) && Enabled(s, i) && pick < s.n && s.agents[i].Scan?
    ensures Balanced(s, i, pick, job)
  {
  }

  lemma EnqueueJobBalance(s: State, i: nat, pick: nat, job: Job)
    requires Shape(s) && Enabled(s, i) && pick < s.n
    requires Enqueuing(s.agents[i])
    ensures Balanced(s, i, pick, job)
  {
  }

  /** With the shards empty, the permit equation says that no worker is scanning or gone. */
  lemma AllWatching(s: State)
    requires Shape(s) && Permits(s) && ExitPermits(s) == 0 && !Queued(s)
    ensures !s.agents[0].Scan? && !s.agents[0].Exited?
  {
    SumZero(Lengths(s.shards));
    SumZero(Debits(s.agents));
    assert Debits(s.agents)[0] == 0;
  }

  lemma StillSees(s: State, t: State, w: nat)
    requires Shape(s) && Shape(t) && s.n == t.n && w < s.n && WillSee(s, w) && t.agents[w] == s.agents[w]
    requires forall m | 0 <= m < s.n :: s.shards[m] != [] ==> t.shards[m] != []
    ensures WillSee(t, w)
  {
    if s.agents[w].Scan? {
      var m :| s.agents[w].k <= m < s.n && Ahead(s, w, m) != [];
      assert Ahead(t, w, m) != [];
    }
  }

  /** A full scan comes past every shard. */
  lemma FullScanSees(t: State, w: nat, m: nat)
    requires Shape(t) && w < t.n && m < t.n && t.shards[m] != [] && t.agents[w] == Scan(0)
    ensures WillSee(t, w)
  {
    hide ShardAt;
    var d := Distance(t.n, w, m);
    assert Ahead(t, w, d) != [];
  }

  lemma Distance(n: nat, w: nat, m: nat) returns (d: nat)
    requires w < n && m < n
    ensures d < n && ShardAt(n, w, d) == m
  {
    d := if w <= m then m - w else m + n - w;
    assert w <= m ==> m % n == m;
    assert (m + n) % n == m;
  }

  lemma CoveredKept(s: State, i: nat, pick: nat)
    requires Inv(s) && Enabled(s, i) && pick < s.n && Shape(Next(s, i, pick))
    ensures Covered(Next(s, i, pick))
  {
    if Queued(Next(s, i, pick)) {
      if Queued(s) {
        WatchedKept(s, i, pick);
      } else {
        PushIsPush(s, i, pick);
        WatchBegins(s, i, pick);
      }
    }
  }

  /** Whoever was going to see a job still is, or the one that took the job is free again. */
  lemma WatchedKept(s: State, i: nat, pick: nat)
    requires Shape(s) && Watched(s) && Enabled(s, i) && pick < s.n && Shape(Next(s, i, pick)) && Queued(Next(s, i, pick))
    ensures Watched(Next(s, i, pick))
  {
    var t := Next(s, i, pick);
    var m :| 0 <= m < t.n && t.shards[m] != [];
    if i < s.n && !t.agents[i].Scan? && !t.agents[i].Exited? {
      assert WillSee(t, i);
    } else if s.agents[i].Idle? {
      FullScanSees(t, i, m);
    } else {
      OldWitness(s, i, pick);
    }
  }

  /** A push into empty shards before the exit permits are out, or by a worker, is seen. */
  lemma WatchBegins(s: State, i: nat, pick: nat)
    requires Shape(s) && Permits(s) && Enabled(s, i) && pick < s.n && Shape(Next(s, i, pick)) && Pushed(s, i) != []
    requires i < s.n || (ExitPermits(s) == 0 && !Queued(s))
    ensures Watched(Next(s, i, pick))
  {
    var t := Next(s, i, pick);
    if i < s.n {
      assert WillSee(t, i);
    } else {
      AllWatching(s);
      assert WillSee(t, 0);
    }
  }

  /** Only a push makes empty shards non-empty; the driver that has joined pushes nothing. */
  lemma PushIsPush(s: State, i: nat, pick: nat)
    requires Shape(s) && Enabled(s, i) && pick < s.n && Shape(Next(s, i, pick)) && Queued(Next(s, i, pick)) && !Queued(s)
    ensures Pushed(s, i) != [] && (i == s.n ==> ExitPermits(s) == 0)
  {
  }

  lemma OldWitness(s: State, i: nat, pick: nat)
    requires Shape(s) && Watched(s) && Enabled(s, i) && pick < s.n && Shape(Next(s, i, pick))
    requires i < s.n ==> s.agents[i].Scan? && Popped(s, i) == [] && !Moved(s, i).PutBack?
    ensures Watched(Next(s, i, pick))
  {
    var t := Next(s, i, pick);
    NothingPopped(s, i, pick);
    var w: nat :| w < s.n && WillSee(s, w);
    hide Next, Effect, Moved, Popped, Enabled;
    if w != i {
      StillSees(s, t, w);
    } else {
      ScanGoesOn(s, i, pick);
    }
    assert WillSee(t, w);
  }

  lemma NothingPopped(s: State, i: nat, pick: nat)
    requires Shape(s) && Enabled(s, i) && pick < s.n && Shape(Next(s, i, pick)) && (i < s.n ==> Popped(s, i) == [])
    ensures var t := Next(s, i, pick);
            && t.n == s.n && (forall m | 0 <= m < s.n :: s.shards[m] != [] ==> t.shards[m] != [])
            && forall w | 0 <= w < s.n && w != i :: t.agents[w] == s.agents[w]
  {
    EffectFrame(s, i, pick);
    ShardsGrow(s, i, pick);
    hide Effect, Moved, Enabled;
  }

  lemma ShardsGrow(s: State, i: nat, pick: nat)
    requires Shape(s) && Enabled(s, i) && pick < s.n && (i < s.n ==> Popped(s, i) == [])
    ensures var t := Effect(s, i, pick);
            |t.shards| == s.n && forall m | 0 <= m < s.n :: s.shards[m] != [] ==> t.shards[m] != []
  {
  }

  /** A scan that finds its next shard empty still has the non-empty one ahead. */
  lemma ScanGoesOn(s: State, i: nat, pick: nat)
    requires Shape(s) && Enabled(s, i) && pick < s.n && Shape(Next(s, i, pick)) && i < s.n && WillSee(s, i)
    requires s.agents[i].Scan? && Popped(s, i) == []
    ensures WillSee(Next(s, i, pick), i)
  {
    var t := Next(s, i, pick);
    var m :| s.agents[i].k <= m < s.n && Ahead(s, i, m) != [];
    assert Ahead(t, i, m) != [];
  }

  lemma BeginKeepsBase(s: State, job: Job)
    requires Base(s)
    ensures Base(Begin(s, job))
  {
    var t := Begin(s, job);
    SumAppend(Debits(s.agents), 0);
    assert Debits(t.agents) == Debits(s.agents) + [0];
    forall x
      ensures Everywhere(t, x) == Cnt(t.submitted, x)
    {
      assert Hands(t.agents) == Hands(s.agents) + [[job]];
      assert Counts(Hands(t.agents), x) == Counts(Hands(s.agents), x) + [Cnt([job], x)];
      SumAppend(Counts(Hands(s.agents), x), Cnt([job], x));
      CntPush(s.submitted, job, x);
      assert Everywhere(s, x) == Cnt(s.submitted, x);
    }
  }

  lemma BeginKeepsInv(s: State, job: Job)
    requires Inv(s) && !s.stopping
    ensures Inv(Begin(s, job))
  {
    var t := Begin(s, job);
    BeginKeepsBase(s, job);
    if Queued(t) {
      assert Queued(s);
      var w: nat :| w < s.n && WillSee(s, w);
      StillSees(s, t, w);
      assert WillSee(t, w);
    }
  }

  lemma StepKeepsInv(s: State, a: Action)
    requires Inv(s) && Allowed(s, a)
    ensures Inv(Step(s, a))
  {
    match a
    case Call(job) => BeginKeepsInv(s, job);
    case Act(i, pick) =>
      ShapeKept(s, i, pick);
      PermitsKept(s, i, pick);
      CoveredKept(s, i, pick);
      forall job
        ensures Everywhere(Next(s, i, pick), job) == Cnt(Next(s, i, pick).submitted, job)
      {
        JobsKept(s, i, pick, job);
      }
  }

  lemma InitialBase(s: State)
    requires Initial(s)
    ensures Base(s) && !Queued(s)
  {
    SumZero(Debits(s.agents));
    SumZero(Lengths(s.shards));
    forall job
      ensures Everywhere(s, job) == 0
    {
      SumZero(Counts(s.shards, job));
      SumZero(Counts(Hands(s.agents), job));
    }
  }

  lemma InitialInv(s: State)
    requires Initial(s) && !s.overlap
    ensures Inv(s)
  {
    InitialBase(s);
  }

  ghost predicate IsRun(run: seq<State>, actions: seq<Action>) {
    && |run| == |actions| + 1
    && Initial(run[0])
    && forall k | 0 <= k < |actions| :: Allowed(run[k], actions[k]) && run[k + 1] == Step(run[k], actions[k])
  }

  lemma {:induction false} RunsKeepInv(run: seq<State>, actions: seq<Action>, k: nat)
    requires IsRun(run, actions) && k < |run| && !run[0].overlap
    ensures Inv(run[k])
  {
    if k == 0 {
      InitialInv(run[0]);
    } else {
      RunsKeepInv(run, actions, k - 1);
      StepKeepsInv(run[k - 1], actions[k - 1]);
    }
  }

  // ---- a pool at rest --------------------------------------------------------------

  /** Nobody can step: no worker and no submit. */
  predicate AtRest(s: State) {
    forall i | 0 <= i < |s.agents| && i != s.n :: !Enabled(s, i)
  }

  /** Before the shutdown nothing is left lying in the shards: a pool at rest has run every
      submitted job, apart from those that were deferred to the overflow queue. */
  lemma RestMeansRun(run: seq<State>, actions: seq<Action>, k: nat)
    requires IsRun(run, actions) && k < |run| && !run[0].overlap && !run[k].stopping && AtRest(run[k])
    ensures (forall q | q in run[k].shards :: q == []) && SubmitsDone(run[k])
    ensures multiset(run[k].ran) + multiset(run[k].overflow) == multiset(run[k].submitted)
  {
    RunsKeepInv(run, actions, k);
    RunsStayIn(run, actions, k);
    RestIsDrained(run[k]);
  }

  /** Before the stop flag no worker has returned. */
  predicate NobodyGone(s: State) {
    !s.stopping ==> forall i | 0 <= i < |s.agents| :: !s.agents[i].Exited?
  }

  lemma StepStaysIn(s: State, a: Action)
    requires Shape(s) && NobodyGone(s) && Allowed(s, a)
    ensures NobodyGone(Step(s, a))
  {
    if a.Act? { ExitsWhenStopping(s, a.i, a.pick); }
  }

  lemma ExitsWhenStopping(s: State, i: nat, pick: nat)
    requires Shape(s) && Enabled(s, i) && pick < s.n
    ensures Moved(s, i).Exited? ==> s.stopping
    ensures s.stopping ==> Next(s, i, pick).stopping
  {
  }

  lemma {:induction false} RunsStayIn(run: seq<State>, actions: seq<Action>, k: nat)
    requires IsRun(run, actions) && k < |run| && !run[0].overlap
    ensures NobodyGone(run[k])
  {
    if k > 0 {
      hide Step, NobodyGone;
      RunsStayIn(run, actions, k - 1);
      RunsKeepInv(run, actions, k - 1);
      StepStaysIn(run[k - 1], actions[k - 1]);
    }
  }

  lemma RestIsDrained(s: State)
    requires Inv(s) && !s.stopping && AtRest(s) && NobodyGone(s)
    ensures (forall m | 0 <= m < s.n :: s.shards[m] == []) && SubmitsDone(s)
    ensures multiset(s.ran) + multiset(s.overflow) == multiset(s.submitted)
  {
    NobodyOwes(s);
    SumZero(Lengths(s.shards));
    forall m | 0 <= m < s.n
      ensures s.shards[m] == []
    {
      assert Lengths(s.shards)[m] == 0;
    }
    forall job: Job
      ensures (multiset(s.ran) + multiset(s.overflow))[job] == multiset(s.submitted)[job]
    {
      assert Everywhere(s, job) == Cnt(s.submitted, job);
      assert forall m | 0 <= m < s.n :: Counts(s.shards, job)[m] == Cnt(s.shards[m], job) == 0;
      SumZero(Counts(s.shards, job));
      assert forall i | 0 <= i < |s.agents| :: Counts(Hands(s.agents), job)[i] == Cnt(Hand(s.agents[i]), job) == 0;
      SumZero(Counts(Hands(s.agents), job));
      CntIsMultiplicity(s.ran, job);
      CntIsMultiplicity(s.overflow, job);
      CntIsMultiplicity(s.submitted, job);
    }
  }

  /** At rest the workers are idle and every submit is through. */
  lemma RestingAgent(s: State, i: nat)
    requires Shape(s) && !s.stopping && s.agents[s.n].Calm? && AtRest(s) && NobodyGone(s) && i < |s.agents|
    ensures Hand(s.agents[i]) == [] && Debit(s.agents[i]) == 0 && (i < s.n ==> s.sem == 0)
    ensures i > s.n ==> s.agents[i].Done?
  {
    assert i != s.n ==> !Enabled(s, i);
  }

  lemma NobodyOwes(s: State)
    requires Inv(s) && !s.stopping && AtRest(s) && NobodyGone(s)
    ensures Sum(Lengths(s.shards)) == 0 && SubmitsDone(s) && forall i | 0 <= i < |s.agents| :: Hand(s.agents[i]) == []
  {
    forall i | 0 <= i < |s.agents|
      ensures Hand(s.agents[i]) == [] && Debits(s.agents)[i] == 0 && (i < s.n ==> s.sem == 0)
      ensures i > s.n ==> s.agents[i].Done?
    {
      RestingAgent(s, i);
    }
    SumZero(Debits(s.agents));
  }

  // ---- who is deferred -------------------------------------------------------------

  /** No job waits in the overflow queue or is on its way there. */
  predicate NobodyDeferred(s: State) {
    s.overflow == [] && forall i | 0 <= i < |s.agents| :: !s.agents[i].Deferring?
  }

  lemma StepDefersNobody(s: State, a: Action)
    requires Shape(s) && NobodyDeferred(s) && Allowed(s, a) && s.depth % 0x1_0000_0000_0000_0000 < s.cap
    ensures NobodyDeferred(Step(s, a))
  {
    if a.Act? {
      NotDeferred(s, a.i);
      StaysEmpty(s, a.i, a.pick);
      EffectFrame(s, a.i, a.pick);
      hide Effect, Moved, Enabled;
    }
  }

  lemma NotDeferred(s: State, i: nat)
    requires Shape(s) && Enabled(s, i) && s.depth % 0x1_0000_0000_0000_0000 < s.cap
    ensures !Moved(s, i).Deferring?
  {
  }

  lemma StaysEmpty(s: State, i: nat, pick: nat)
    requires Shape(s) && Enabled(s, i) && pick < s.n && s.overflow == [] && !s.agents[i].Deferring?
    ensures Effect(s, i, pick).overflow == []
  {
  }

  /** Jobs are deferred for the cap only: in a run in which the admission counter never reaches it,
      overlapping submits or not, the overflow queue stays empty. */
  lemma {:induction false} BelowCapNobodyWaits(run: seq<State>, actions: seq<Action>, k: nat)
    requires IsRun(run, actions) && k < |run|
    requires forall j | 0 <= j < k :: run[j].depth % 0x1_0000_0000_0000_0000 < run[j].cap
    ensures NobodyDeferred(run[k])
  {
    if k > 0 {
      hide Step, NobodyDeferred, Base;
      BelowCapNobodyWaits(run, actions, k - 1);
      RunsKeepBase(run, actions, k - 1);
      BaseShape(run[k - 1]);
      StepDefersNobody(run[k - 1], actions[k - 1]);
    }
  }

  /** What a worker does after a job, if it is left alone: below the cap it moves the oldest deferred
      job to a shard, with a permit, and goes back to sleep. */
  lemma RefillPromotes(s: State, i: nat, pick: nat) returns (path: seq<State>, acts: seq<Action>)
    requires Shape(s) && i < s.n && pick < s.n && s.agents[i].Refill? && s.agents[s.n].Calm?
    requires s.overflow != [] && s.depth % 0x1_0000_0000_0000_0000 < s.cap
    ensures IsPath(s, path, acts) && forall a | a in acts :: a == Act(i, pick)
    ensures path[|acts|] == s.(overflow := s.overflow[1..], depth := s.depth + 1, sem := s.sem + 1,
                               shards := s.shards[pick := s.shards[pick] + [s.overflow[0]]], agents := s.agents[i := Idle])
  {
    var a := Act(i, pick);
    var job := s.overflow[0];
    var s1 := s.(agents := s.agents[i := Claim]);
    var s2 := s.(overflow := s.overflow[1..], agents := s.agents[i := Promote(Push(job))]);
    var s3 := s2.(shards := s.shards[pick := s.shards[pick] + [job]], agents := s.agents[i := Promote(Count)]);
    var s4 := s3.(depth := s.depth + 1, agents := s.agents[i := Promote(Permit)]);
    var s5 := s4.(sem := s.sem + 1, agents := s.agents[i := Idle]);
    path, acts := [s, s1, s2, s3, s4, s5], [a, a, a, a, a];
    StepAlone(s, i, pick, s1);
    StepAlone(s1, i, pick, s2);
    StepAlone(s2, i, pick, s3);
    StepAlone(s3, i, pick, s4);
    StepAlone(s4, i, pick, s5);
    hide Step, Allowed;
    assert forall k | 0 <= k < 5 :: acts[k] == a;
  }

  lemma StepAlone(s: State, i: nat, pick: nat, t: State)
    requires Enabled(s, i) && |s.shards| == s.n && pick < s.n && i < s.n
    requires t == Effect(s, i, pick).(agents := s.agents[i := Moved(s, i)]) && Effect(s, i, pick).agents == s.agents
    ensures Allowed(s, Act(i, pick)) && t == Step(s, Act(i, pick))
  {
  }

  // ---- shutdown --------------------------------------------------------------------

  predicate AllExited(s: State) {
    s.n <= |s.agents| && forall w | 0 <= w < s.n :: s.agents[w].Exited?
  }

  /** If no submit overlaps stop_and_join: once the last worker has returned, every submitted
      job has run, exactly as often as it was submitted, and nothing is queued anywhere. */
  lemma NothingIsLost(run: seq<State>, actions: seq<Action>, k: nat)
    requires IsRun(run, actions) && k < |run| && !run[0].overlap && AllExited(run[k])
    ensures multiset(run[k].ran) == multiset(run[k].submitted)
    ensures run[k].overflow == [] && forall q | q in run[k].shards :: q == []
  {
    RunsKeepInv(run, actions, k);
    ExitedMeansDrained(run[k]);
  }

  lemma ExitedMeansDrained(s: State)
    requires Inv(s) && AllExited(s)
    ensures s.overflow == [] && forall m | 0 <= m < s.n :: s.shards[m] == []
    ensures multiset(s.ran) == multiset(s.submitted)
  {
    SumZero(Lengths(s.shards));
    SumUpdate(Debits(s.agents), 0, 0);
    assert Debits(s.agents)[0] == 1;
    assert s.agents[s.n].Joined?;
    forall job: Job
      ensures multiset(s.ran)[job] == multiset(s.submitted)[job]
    {
      assert Everywhere(s, job) == Cnt(s.submitted, job);
      SumZero(Counts(s.shards, job));
      SumZero(Counts(Hands(s.agents), job));
      CntIsMultiplicity(s.ran, job);
      CntIsMultiplicity(s.submitted, job);
    }
  }

  // ---- the shutdown ends -----------------------------------------------------------

  lemma {:induction false} SumAtMost(xs: seq<nat>, n: nat)
    requires n <= |xs|
    requires forall i | 0 <= i < n :: xs[i] <= 1
    requires forall i | n <= i < |xs| :: xs[i] == 0
    ensures Sum(xs) <= n
  {
    if n == 0 {
      SumZero(xs);
    } else {
      SumAtMost(xs[1..], n - 1);
    }
  }

  /** stop_and_join never hangs: while a worker has not returned, a worker or the stopping
      thread itself can take a step. */
  lemma ShutdownNeverStuck(s: State) returns (i: nat)
    requires Inv(s) && s.stopping && !AllExited(s)
    ensures i <= s.n && Enabled(s, i)
  {
    if !s.agents[s.n].Joined? { return s.n; }
    var w :| 0 <= w < s.n && !s.agents[w].Exited?;
    if Enabled(s, w) { return w; }
    if v: nat :| v < s.n && Enabled(s, v) { return v; }
    var ds := Debits(s.agents);
    forall v | 0 <= v < |ds|
      ensures v < s.n ==> ds[v] <= 1
      ensures v >= s.n ==> ds[v] == 0
    {
    }
    SumUpdate(ds, w, 1);
    SumAtMost(ds[w := 1], s.n);
    assert false;
  }

  /** What an agent may still do, in steps: P is the weight of a free permit. */
  function Weight(n: nat, a: Agent): nat {
    var P := n + 3;
    match a
    case Scan(k) => if k <= n then n + 2 - k else 0
    case PutBack => P + 1
    case Have(_) => 4
    case Running(_) => 3
    case Refill => 2
    case Claim => 1
    case Promote(e) => (match e case Push(_) => P + 5 case Count => P + 2 case Permit => P + 1)
    case Stopping => P * n + 3
    case DrainLoop => P * n + 2
    case Drain(e) => P * n + 2 + (match e case Push(_) => P + 5 case Count => P + 2 case Permit => P + 1)
    case ReleaseExits => P * n + 1
    case _ => 0
  }

  function Weights(n: nat, agents: seq<Agent>): seq<nat> {
    seq(|agents|, i requires 0 <= i < |agents| => Weight(n, agents[i]))
  }

  function Remaining(s: State): nat {
    2 * Sum(Lengths(s.shards)) + (s.n + 3) * s.sem + (s.n + 9) * |s.overflow| + Sum(Weights(s.n, s.agents))
  }

  lemma WeightUpdate(n: nat, agents: seq<Agent>, i: nat, a: Agent)
    requires i < |agents|
    ensures Sum(Weights(n, agents[i := a])) == Sum(Weights(n, agents)) - Weight(n, agents[i]) + Weight(n, a)
  {
    var ws := Weights(n, agents);
    SumUpdate(ws, i, Weight(n, a));
    assert Weights(n, agents[i := a]) == ws[i := Weight(n, a)];
  }

  lemma Distribute(p: nat, a: int, b: int)
    ensures p * (a + b) == p * a + p * b
  {
  }

  /** A step releases more weight than it creates. */
  predicate Lighter(s: State, i: nat, pick: nat)
    requires Shape(s) && Enabled(s, i) && pick < s.n
  {
    var t := Effect(s, i, pick);
    2 * |Pushed(s, i)| - 2 * |Popped(s, i)| + (s.n + 3) * (t.sem - s.sem)
      + (s.n + 9) * (|t.overflow| - |s.overflow|) + Weight(s.n, Moved(s, i)) < Weight(s.n, s.agents[i])
  }

  lemma StepWeight(s: State, i: nat, pick: nat)
    requires Shape(s) && s.stopping && i <= s.n && Enabled(s, i) && !s.agents[i].Calm? && pick < s.n
    ensures Lighter(s, i, pick)
  {
    if s.agents[i].Scan? {
      ScanWeight(s, i, pick);
    } else if s.agents[i].Promote? {
      PromoteWeight(s, i, pick);
    } else if i < s.n {
      WorkerWeight(s, i, pick);
    }
  }

  lemma ScanWeight(s: State, i: nat, pick: nat)
    requires Shape(s) && s.stopping && i < s.n && Enabled(s, i) && pick < s.n && s.agents[i].Scan?
    ensures Lighter(s, i, pick)
  {
  }

  lemma PromoteWeight(s: State, i: nat, pick: nat)
    requires Shape(s) && s.stopping && i < s.n && Enabled(s, i) && pick < s.n && s.agents[i].Promote?
    ensures Lighter(s, i, pick)
  {
  }

  lemma WorkerWeight(s: State, i: nat, pick: nat)
    requires Shape(s) && s.stopping && i < s.n && Enabled(s, i) && pick < s.n
    requires !s.agents[i].Scan? && !s.agents[i].Promote?
    ensures Lighter(s, i, pick)
  {
  }

  /** Every step of the shutdown uses up some of what remains. */
  lemma ShutdownDescends(s: State, i: nat, pick: nat)
    requires Shape(s) && s.stopping && i <= s.n && Enabled(s, i) && !s.agents[i].Calm? && pick < s.n
    ensures Remaining(Next(s, i, pick)) < Remaining(s)
  {
    StepWeight(s, i, pick);
    ShardLengths(s, i, pick);
    LighterDescends(s, Effect(s, i, pick), i, Moved(s, i), |Pushed(s, i)|, |Popped(s, i)|);
  }

  lemma LighterDescends(s: State, t: State, i: nat, a: Agent, pushed: nat, popped: nat)
    requires i < |s.agents| && t.agents == s.agents && t.n == s.n
    requires Sum(Lengths(t.shards)) == Sum(Lengths(s.shards)) + pushed - popped
    requires 2 * pushed - 2 * popped + (s.n + 3) * (t.sem - s.sem)
             + (s.n + 9) * (|t.overflow| - |s.overflow|) + Weight(s.n, a) < Weight(s.n, s.agents[i])
    ensures Remaining(t.(agents := t.agents[i := a])) < Remaining(s)
  {
    WeightUpdate(s.n, s.agents, i, a);
    Distribute(s.n + 3, s.sem, t.sem - s.sem);
    Distribute(s.n + 9, |s.overflow|, |t.overflow| - |s.overflow|);
  }

  /** Once the pool is stopping, no run of its threads is longer than `Remaining`, and a run
      that cannot go on has returned every worker and run every job. */
  lemma {:induction false} ShutdownEnds(run: seq<State>, actions: seq<Action>, k: nat)
    requires IsRun(run, actions) && !run[0].overlap && k < |run| && run[k].stopping
    ensures |actions| - k <= Remaining(run[k])
    ensures (forall i | 0 <= i <= run[|actions|].n :: !Enabled(run[|actions|], i)) ==>
              AllExited(run[|actions|]) && multiset(run[|actions|].ran) == multiset(run[|actions|].submitted)
    decreases |run| - k
  {
    RunsKeepInv(run, actions, k);
    if k < |actions| {
      var s, a := run[k], actions[k];
      assert Allowed(s, a) && run[k + 1] == Step(s, a);
      ShutdownDescends(s, a.i, a.pick);
      ShutdownEnds(run, actions, k + 1);
    } else if forall i | 0 <= i <= run[k].n :: !Enabled(run[k], i) {
      if !AllExited(run[k]) {
        var i := ShutdownNeverStuck(run[k]);
        assert false;
      }
      ExitedMeansDrained(run[k]);
    }
  }

  // ---- submits that overlap the shutdown -------------------------------------------

  lemma StopFlag(s: State, i: nat, pick: nat)
    requires Shape(s) && Enabled(s, i) && pick < s.n && (s.stopping <==> !s.agents[s.n].Calm?)
    ensures var t := Next(s, i, pick); t.stopping <==> !t.agents[s.n].Calm?
    ensures Next(s, i, pick).stopping && !s.stopping ==> i == s.n
  {
  }

  lemma ActKeepsBase(s: State, i: nat, pick: nat)
    requires Base(s) && Enabled(s, i) && pick < s.n
    ensures Base(Next(s, i, pick))
  {
    hide Next;
    ShapeStep(s, i, pick);
    PermitsKept(s, i, pick);
    StopFlag(s, i, pick);
    NextFrame(s, i, pick);
    forall job
      ensures Everywhere(Next(s, i, pick), job) == Cnt(Next(s, i, pick).submitted, job)
    {
      JobsKept(s, i, pick, job);
    }
  }

  lemma NextFrame(s: State, i: nat, pick: nat)
    requires Shape(s) && Enabled(s, i) && pick < s.n
    ensures Next(s, i, pick).n == s.n
  {
  }

  lemma {:induction false} RunsKeepBase(run: seq<State>, actions: seq<Action>, k: nat)
    requires IsRun(run, actions) && k < |run|
    ensures Base(run[k])
  {
    hide Base, Initial;
    if k == 0 {
      InitialBase(run[0]);
    } else {
      RunsKeepBase(run, actions, k - 1);
      var s, a := run[k - 1], actions[k - 1];
      assert Allowed(s, a) && run[k] == Step(s, a);
      match a
      case Call(job) => BeginKeepsBase(s, job);
      case Act(i, pick) => ActKeepsBase(s, i, pick);
    }
  }

  /** No submit still carries the job. */
  predicate HandedOver(s: State, x: Job) {
    forall i | s.n < i < |s.agents| :: x !in Hand(s.agents[i])
  }

  predicate InShards(s: State, x: Job) {
    exists m :: 0 <= m < |s.shards| && x in s.shards[m]
  }

  predicate Draining(s: State)
    requires Shape(s)
  {
    !s.agents[s.n].ReleaseExits? && !s.agents[s.n].Joined?
  }

  /** A job that was handed over before the stop flag stays in sight: it leaves the overflow
      queue before the exit permits are released, and while it is queued some worker will look. */
  ghost predicate InSight(s: State, x: Job)
    requires Shape(s)
  {
    && (s.stopping ==> HandedOver(s, x))
    && (x in s.overflow ==> Draining(s) || !s.stopping)
    && ((Queued(s) && ExitPermits(s) == 0) || InShards(s, x) ==> Watched(s))
  }

  /** Where a job of the shards comes from. */
  lemma InShardsFrom(s: State, i: nat, pick: nat, x: Job)
    requires Shape(s) && Enabled(s, i) && pick < s.n && Shape(Next(s, i, pick)) && InShards(Next(s, i, pick), x)
    ensures InShards(s, x) || Pushed(s, i) == [x]
  {
    var t := Next(s, i, pick);
    var m :| 0 <= m < |t.shards| && x in t.shards[m];
    if t.shards[m] != s.shards[m] && Pushed(s, i) == [] {
      assert s.agents[i].Scan? && t.shards[m] == s.shards[m][1..];
    }
    if x in s.shards[m] { assert InShards(s, x); }
  }

  lemma WatchKept(s: State, i: nat, pick: nat, x: Job)
    requires Base(s) && InSight(s, x) && Enabled(s, i) && pick < s.n && Shape(Next(s, i, pick))
    requires var t := Next(s, i, pick); (Queued(t) && ExitPermits(t) == 0) || InShards(t, x)
    ensures Watched(Next(s, i, pick))
  {
    var t := Next(s, i, pick);
    if InShards(t, x) {
      InShardsFrom(s, i, pick, x);
      InShardsQueued(t, x);
    }
    ExitsStay(s, i, pick);
    if (Queued(s) && ExitPermits(s) == 0) || InShards(s, x) {
      WatchedKept(s, i, pick);
    } else if InShards(t, x) {
      PusherOfOld(s, i, x);
      WatchBegins(s, i, pick);
    } else {
      PushIsPush(s, i, pick);
      WatchBegins(s, i, pick);
    }
  }

  lemma InShardsQueued(s: State, x: Job)
    requires Shape(s) && InShards(s, x)
    ensures Queued(s)
  {
  }

  lemma ExitsStay(s: State, i: nat, pick: nat)
    requires Shape(s) && Enabled(s, i) && pick < s.n && Shape(Next(s, i, pick))
    ensures ExitPermits(Next(s, i, pick)) == 0 ==> ExitPermits(s) == 0
  {
  }

  /** Whoever pushes a handed-over job once the exit permits are out is a worker. */
  lemma PusherOfOld(s: State, i: nat, x: Job)
    requires Base(s) && InSight(s, x) && Enabled(s, i) && Pushed(s, i) == [x]
    ensures i < s.n || ExitPermits(s) == 0
  {
  }

  lemma InSightKept(s: State, i: nat, pick: nat, x: Job)
    requires Base(s) && InSight(s, x) && Enabled(s, i) && pick < s.n && Shape(Next(s, i, pick))
    requires Next(s, i, pick).stopping && !s.stopping ==> HandedOver(s, x)
    ensures InSight(Next(s, i, pick), x)
  {
    var t := Next(s, i, pick);
    if (Queued(t) && ExitPermits(t) == 0) || InShards(t, x) { WatchKept(s, i, pick, x); }
    StopFlag(s, i, pick);
    if t.stopping {
      HandsKept(s, i, pick, x);
      if x in t.overflow { OverflowKept(s, i, pick, x); }
    }
  }

  lemma HandsKept(s: State, i: nat, pick: nat, x: Job)
    requires Shape(s) && Enabled(s, i) && pick < s.n && HandedOver(s, x)
    ensures HandedOver(Next(s, i, pick), x)
  {
    var t := Next(s, i, pick);
    if i > s.n { SubmitHand(s, i); }
    forall j | t.n < j < |t.agents|
      ensures x !in Hand(t.agents[j])
    {
      if j != i { assert t.agents[j] == s.agents[j]; }
    }
  }

  lemma SubmitHand(s: State, i: nat)
    requires Shape(s) && Enabled(s, i) && i > s.n
    ensures Hand(Moved(s, i)) == Hand(s.agents[i]) || Hand(Moved(s, i)) == []
  {
  }

  lemma OverflowKept(s: State, i: nat, pick: nat, x: Job)
    requires Base(s) && InSight(s, x) && Enabled(s, i) && pick < s.n && Shape(Next(s, i, pick))
    requires x in Next(s, i, pick).overflow && Next(s, i, pick).stopping
    ensures Draining(Next(s, i, pick))
  {
  }

  lemma BeginInSight(s: State, job: Job, x: Job)
    requires Base(s) && InSight(s, x) && (s.stopping ==> job != x)
    ensures Shape(Begin(s, job)) && InSight(Begin(s, job), x)
  {
    var t := Begin(s, job);
    if (Queued(t) && ExitPermits(t) == 0) || InShards(t, x) {
      assert Queued(t) ==> Queued(s);
      assert InShards(t, x) ==> InShards(s, x);
      var w: nat :| w < s.n && WillSee(s, w);
      StillSees(s, t, w);
    }
  }

  /** When the stop flag is set every submit of the job has handed it over, and no submit brings
      it again. */
  predicate BeforeStop(run: seq<State>, actions: seq<Action>, x: Job)
    requires |run| == |actions| + 1
  {
    forall k | 0 <= k < |actions| && run[k + 1].stopping ::
      if run[k].stopping then actions[k] != Call(x) else HandedOver(run[k], x)
  }

  lemma {:induction false} RunsKeepInSight(run: seq<State>, actions: seq<Action>, k: nat, x: Job)
    requires IsRun(run, actions) && k < |run| && BeforeStop(run, actions, x)
    ensures Base(run[k]) && InSight(run[k], x)
  {
    hide Base, Initial, HandedOver, Next;
    RunsKeepBase(run, actions, k);
    if k == 0 {
      InitialInSight(run[0], x);
    } else {
      RunsKeepBase(run, actions, k - 1);
      RunsKeepInSight(run, actions, k - 1, x);
      var s, a := run[k - 1], actions[k - 1];
      assert Allowed(s, a) && run[k] == Step(s, a);
      BaseShape(s);
      BaseShape(run[k]);
      match a
      case Call(job) => BeginInSight(s, job, x);
      case Act(i, pick) => InSightKept(s, i, pick, x);
    }
  }

  lemma BaseShape(s: State)
    requires Base(s)
    ensures Shape(s)
  {
  }

  lemma InitialInSight(s: State, x: Job)
    requires Initial(s)
    ensures Shape(s) && InSight(s, x)
  {
    InitialBase(s);
  }

  lemma ExitedIsUnwatched(s: State)
    requires Base(s) && AllExited(s)
    ensures !Watched(s) && (ExitPermits(s) == 0 ==> Queued(s))
  {
    SumUpdate(Debits(s.agents), 0, 0);
    assert Debits(s.agents)[0] == 1;
    SumZero(Lengths(s.shards));
  }

  lemma OldJobHasRun(s: State, x: Job)
    requires Base(s) && InSight(s, x) && AllExited(s)
    ensures multiset(s.ran)[x] == multiset(s.submitted)[x]
  {
    ExitedIsUnwatched(s);
    assert s.agents[s.n].Joined?;
    forall m | 0 <= m < s.n
      ensures Counts(s.shards, x)[m] == 0
    {
      assert !InShards(s, x);
      CntIsMultiplicity(s.shards[m], x);
    }
    SumZero(Counts(s.shards, x));
    CntIsMultiplicity(s.overflow, x);
    forall i | 0 <= i < |s.agents|
      ensures Counts(Hands(s.agents), x)[i] == 0
    {
      CntIsMultiplicity(Hand(s.agents[i]), x);
    }
    SumZero(Counts(Hands(s.agents), x));
    assert Everywhere(s, x) == Cnt(s.submitted, x);
    CntIsMultiplicity(s.ran, x);
    CntIsMultiplicity(s.submitted, x);
  }

  /** After the last worker has returned nothing runs any more. */
  lemma ExitedStep(s: State, a: Action)
    requires Shape(s) && AllExited(s) && Allowed(s, a)
    ensures AllExited(Step(s, a)) && Step(s, a).ran == s.ran
  {
    if a.Act? {
      ShapeStep(s, a.i, a.pick);
      assert a.i >= s.n;
      OnlyWorkersRun(s, a.i, a.pick);
    }
  }

  lemma {:induction false} ExitedForGood(run: seq<State>, actions: seq<Action>, k: nat, m: nat)
    requires IsRun(run, actions) && k <= m < |run| && AllExited(run[k])
    ensures AllExited(run[m]) && run[m].ran == run[k].ran
    decreases m - k
  {
    hide Step, AllExited, Allowed, Base;
    if k < m {
      ExitedForGood(run, actions, k, m - 1);
      RunsKeepBase(run, actions, m - 1);
      BaseShape(run[m - 1]);
      ExitedStep(run[m - 1], actions[m - 1]);
    }
  }

  lemma SubmittedStep(s: State, a: Action, x: Job)
    requires Base(s) && Allowed(s, a)
    ensures Cnt(Step(s, a).submitted, x) == Cnt(s.submitted, x) + if a == Call(x) then 1 else 0
  {
    match a
    case Call(job) => CntPush(s.submitted, job, x);
    case Act(i, pick) => JobsKept(s, i, pick, x);
  }

  /** Submits only add up; `late` says that the job is submitted once more on the way. */
  lemma {:induction false} SubmittedGrows(run: seq<State>, actions: seq<Action>, k: nat, m: nat, x: Job)
    requires IsRun(run, actions) && k <= m < |run|
    ensures var late := exists j | k <= j < m :: actions[j] == Call(x);
            Cnt(run[m].submitted, x) >= Cnt(run[k].submitted, x) + if late then 1 else 0
    decreases m - k
  {
    hide Step, Allowed, Base, Cnt;
    if k < m {
      RunsKeepBase(run, actions, m - 1);
      SubmittedGrows(run, actions, k, m - 1, x);
      SubmittedStep(run[m - 1], actions[m - 1], x);
      if actions[m - 1] != Call(x) {
        assert (exists j | k <= j < m :: actions[j] == Call(x)) ==> exists j | k <= j < m - 1 :: actions[j] == Call(x);
      }
    }
  }

  /** Which submits a shutdown loses, in every run, overlapping or not.  A job handed over before
      the stop flag has run once the last worker returns, whatever other submits do meanwhile.
      A job submitted after that return is accepted and never runs. */
  lemma OverlapVerdict(run: seq<State>, actions: seq<Action>, k: nat, m: nat, x: Job)
    requires IsRun(run, actions) && k <= m < |run| && AllExited(run[k])
    ensures BeforeStop(run, actions, x) ==> multiset(run[k].ran)[x] == multiset(run[k].submitted)[x]
    ensures run[m].ran == run[k].ran
    ensures (exists j | k <= j < m :: actions[j] == Call(x)) ==> multiset(run[m].ran)[x] < multiset(run[m].submitted)[x]
  {
    hide Base, InSight, AllExited, Cnt;
    if BeforeStop(run, actions, x) {
      RunsKeepInSight(run, actions, k, x);
      OldJobHasRun(run[k], x);
    }
    ExitedForGood(run, actions, k, m);
    SubmittedGrows(run, actions, k, m, x);
    RunsKeepBase(run, actions, k);
    RanWasSubmitted(run[k], x);
    CntIsMultiplicity(run[k].ran, x);
    CntIsMultiplicity(run[m].submitted, x);
  }

  lemma RanWasSubmitted(s: State, x: Job)
    requires Base(s)
    ensures Cnt(s.ran, x) <= Cnt(s.submitted, x)
  {
    assert Everywhere(s, x) == Cnt(s.submitted, x);
  }

  // ---- a submit that has not handed over can be lost -------------------------------

  /** The steps a submit still has to take. */
  function StepsLeft(a: Agent): nat {
    match a
    case Checking(_) => 5
    case Deferring(_) => 4
    case Submit(e) => (match e case Push(_) => 3 case Count => 2 case Permit => 1)
    case _ => 0
  }

  /** The same for all submits but one. */
  function Pending(s: State, frozen: nat): seq<nat> {
    seq(|s.agents|, i requires 0 <= i < |s.agents| => if i == frozen then 0 else StepsLeft(s.agents[i]))
  }

  lemma PendingUpdate(s: State, frozen: nat, i: nat, a: Agent)
    requires i < |s.agents| && i != frozen
    ensures var t := s.(agents := s.agents[i := a]);
            Sum(Pending(t, frozen)) == Sum(Pending(s, frozen)) - StepsLeft(s.agents[i]) + StepsLeft(a)
  {
    var t, xs := s.(agents := s.agents[i := a]), Pending(s, frozen);
    SumUpdate(xs, i, StepsLeft(a));
    assert Pending(t, frozen) == xs[i := StepsLeft(a)];
  }

  lemma SubmitProgress(s: State, i: nat)
    requires Shape(s) && Enabled(s, i) && i > s.n
    ensures StepsLeft(Moved(s, i)) < StepsLeft(s.agents[i])
  {
  }

  lemma PoolSteps(s: State, i: nat)
    requires Shape(s) && Enabled(s, i) && i <= s.n
    ensures StepsLeft(Moved(s, i)) == StepsLeft(s.agents[i]) == 0
  {
  }

  /** The submit that waits carries a job and owes nothing. */
  predicate Carries(s: State, i: nat, x: Job) {
    s.n < i < |s.agents| && x in Hand(s.agents[i])
  }

  lemma CarrierOwesNothing(s: State, i: nat, x: Job)
    requires Shape(s) && Carries(s, i, x)
    ensures Debit(s.agents[i]) == 0 && Hand(s.agents[i]) == [x] && !s.agents[i].Done?
  {
  }

  /** Somebody else can step until every worker has returned and every other submit is through. */
  lemma OthersGoOn(s: State, frozen: nat, x: Job) returns (i: nat)
    requires Base(s) && s.stopping && Carries(s, frozen, x)
    requires !AllExited(s) || !s.agents[s.n].Joined? || exists j | s.n < j < |s.agents| :: j != frozen && !s.agents[j].Done?
    ensures i < |s.agents| && i != frozen && Enabled(s, i) && (i == s.n ==> !s.agents[i].Calm?)
  {
    if !s.agents[s.n].Joined? { return s.n; }
    if j :| s.n < j < |s.agents| && j != frozen && !s.agents[j].Done? { return j; }
    if v: nat :| v < s.n && Enabled(s, v) { return v; }
    AllIdle(s, frozen, x);
    assert false;
  }

  /** With every submit through or waiting, a stuck pool has returned all its workers. */
  lemma AllIdle(s: State, frozen: nat, x: Job)
    requires Base(s) && s.agents[s.n].Joined? && Carries(s, frozen, x)
    requires forall j | s.n < j < |s.agents| && j != frozen :: s.agents[j].Done?
    requires forall v: nat | v < s.n :: !Enabled(s, v)
    ensures AllExited(s)
  {
    if !AllExited(s) {
      var w :| 0 <= w < s.n && !s.agents[w].Exited?;
      CarrierOwesNothing(s, frozen, x);
      var ds := Debits(s.agents);
      forall v | 0 <= v < |ds|
        ensures v < s.n ==> ds[v] <= 1
        ensures v >= s.n ==> ds[v] == 0
      {
      }
      assert !Enabled(s, w);
      SumUpdate(ds, w, 1);
      SumAtMost(ds[w := 1], s.n);
    }
  }

  /** A path of steps from a state. */
  ghost predicate IsPath(s: State, path: seq<State>, acts: seq<Action>) {
    && |path| == |acts| + 1 && path[0] == s
    && forall k | 0 <= k < |acts| :: acts[k].Act? && Allowed(path[k], acts[k]) && path[k + 1] == Step(path[k], acts[k])
  }

  lemma PathCons(s: State, i: nat, path: seq<State>, acts: seq<Action>)
    requires Enabled(s, i) && |s.shards| == s.n && s.n > 0 && IsPath(Next(s, i, 0), path, acts)
    ensures IsPath(s, [s] + path, [Act(i, 0)] + acts)
  {
    var path', acts' := [s] + path, [Act(i, 0)] + acts;
    forall k | 0 <= k < |acts'|
      ensures acts'[k].Act? && Allowed(path'[k], acts'[k]) && path'[k + 1] == Step(path'[k], acts'[k])
    {
      if k > 0 { assert acts'[k] == acts[k - 1] && path'[k] == path[k - 1] && path'[k + 1] == path[k]; }
    }
  }

  lemma FrozenStep(s: State, frozen: nat, x: Job, i: nat)
    requires Base(s) && s.stopping && Carries(s, frozen, x) && i != frozen && Enabled(s, i) && (i == s.n ==> !s.agents[i].Calm?)
    ensures var t := Next(s, i, 0);
            && Base(t) && t.stopping && Carries(t, frozen, x) && t.submitted == s.submitted
            && (if i > s.n then Sum(Pending(t, frozen)) < Sum(Pending(s, frozen))
                else Sum(Pending(t, frozen)) == Sum(Pending(s, frozen)) && Remaining(t) < Remaining(s))
  {
    ActKeepsBase(s, i, 0);
    JobsKept(s, i, 0, x);
    EffectFrame(s, i, 0);
    StopsForGood(s, i);
    PendingUpdate(s, frozen, i, Moved(s, i));
    assert Pending(Next(s, i, 0), frozen) == Pending(s.(agents := s.agents[i := Moved(s, i)]), frozen);
    if i > s.n {
      SubmitProgress(s, i);
    } else {
      PoolSteps(s, i);
      ShutdownDescends(s, i, 0);
    }
  }

  lemma StopsForGood(s: State, i: nat)
    requires Shape(s) && Enabled(s, i) && s.stopping
    ensures Next(s, i, 0).stopping
  {
  }

  /** While one submit waits, the others come through and every worker returns. */
  lemma {:induction false} OthersFinish(s: State, frozen: nat, x: Job) returns (path: seq<State>, acts: seq<Action>)
    requires Base(s) && s.stopping && Carries(s, frozen, x)
    ensures IsPath(s, path, acts)
    ensures var t := path[|acts|];
            && Base(t) && AllExited(t) && t.n < |t.agents| && t.agents[t.n].Joined? && Carries(t, frozen, x)
            && t.submitted == s.submitted
            && forall j | t.n < j < |t.agents| && j != frozen :: t.agents[j].Done?
    decreases Sum(Pending(s, frozen)), Remaining(s)
  {
    hide Base, Pending, Remaining, Next, Step;
    BaseShape(s);
    if AllExited(s) && s.agents[s.n].Joined? && forall j | s.n < j < |s.agents| && j != frozen :: s.agents[j].Done? {
      path, acts := [s], [];
    } else {
      var i := OthersGoOn(s, frozen, x);
      FrozenStep(s, frozen, x, i);
      path, acts := OthersFinish(Next(s, i, 0), frozen, x);
      PathCons(s, i, path, acts);
      path, acts := [s] + path, [Act(i, 0)] + acts;
    }
  }

  /** A submit that goes on behind the last worker comes through. */
  lemma {:induction false} LastOneFinishes(s: State, i: nat) returns (path: seq<State>, acts: seq<Action>)
    requires Base(s) && AllExited(s) && s.agents[s.n].Joined? && s.n < i < |s.agents|
    requires forall j | s.n < j < |s.agents| && j != i :: s.agents[j].Done?
    ensures IsPath(s, path, acts)
    ensures var t := path[|acts|];
            && AllExited(t) && t.ran == s.ran && t.submitted == s.submitted && SubmitsDone(t)
    decreases StepsLeft(s.agents[i])
  {
    if s.agents[i].Done? {
      path, acts := [s], [];
    } else {
      BaseShape(s);
      ActKeepsBase(s, i, 0);
      ExitedStep(s, Act(i, 0));
      JobsKept(s, i, 0, 0);
      EffectFrame(s, i, 0);
      SubmitProgress(s, i);
      path, acts := LastOneFinishes(Next(s, i, 0), i);
      PathCons(s, i, path, acts);
      path, acts := [s] + path, [Act(i, 0)] + acts;
    }
  }

  lemma PathAppend(s: State, p: seq<State>, a: seq<Action>, q: seq<State>, b: seq<Action>)
    requires IsPath(s, p, a) && IsPath(p[|a|], q, b)
    ensures IsPath(s, p + q[1..], a + b) && (p + q[1..])[|a| + |b|] == q[|b|]
  {
    var path, acts := p + q[1..], a + b;
    assert forall k | 0 <= k <= |b| :: path[|a| + k] == q[k];
    forall k | 0 <= k < |acts|
      ensures acts[k].Act? && Allowed(path[k], acts[k]) && path[k + 1] == Step(path[k], acts[k])
    {
      if k < |a| {
        assert acts[k] == a[k];
      } else {
        assert acts[k] == b[k - |a|] && path[k] == q[k - |a|] && path[k + 1] == q[k - |a| + 1];
      }
    }
  }

  lemma RunAppend(run: seq<State>, actions: seq<Action>, path: seq<State>, acts: seq<Action>)
    requires IsRun(run, actions) && IsPath(run[|actions|], path, acts)
    ensures IsRun(run + path[1..], actions + acts) && (run + path[1..])[|actions| + |acts|] == path[|acts|]
  {
    hide Initial;
    var all, taken := run + path[1..], actions + acts;
    assert forall k | 0 <= k <= |acts| :: all[|actions| + k] == path[k];
    forall k | 0 <= k < |taken|
      ensures Allowed(all[k], taken[k]) && all[k + 1] == Step(all[k], taken[k])
    {
      if k < |actions| {
        assert taken[k] == actions[k];
      } else {
        assert taken[k] == acts[k - |actions|] && all[k] == path[k - |actions|] && all[k + 1] == path[k - |actions| + 1];
      }
    }
  }

  /** The condition of OverlapVerdict is exact.  Whatever run, however many workers: if a submit
      still carries the job when the pool is stopping, the run can go on, without any new submit,
      to a state where every submit and every worker has returned and the job has not run as
      often as it was submitted, nor ever will. */
  lemma NotHandedOverCanBeLost(run: seq<State>, actions: seq<Action>, x: Job)
    returns (more: seq<State>, after: seq<Action>)
    requires IsRun(run, actions) && run[|actions|].stopping && !HandedOver(run[|actions|], x)
    ensures IsRun(run + more, actions + after) && forall k | 0 <= k < |after| :: after[k].Act?
    ensures var t := (run + more)[|actions| + |after|];
            && AllExited(t) && SubmitsDone(t) && multiset(t.ran)[x] < multiset(t.submitted)[x]
  {
    hide Base, AllExited, SubmitsDone, Step;
    var s := run[|actions|];
    RunsKeepBase(run, actions, |actions|);
    var i :| s.n < i < |s.agents| && x in Hand(s.agents[i]);
    var p, a := OthersFinish(s, i, x);
    var mid := p[|a|];
    var q, b := LastOneFinishes(mid, i);
    PathAppend(s, p, a, q, b);
    RunAppend(run, actions, p + q[1..], a + b);
    more, after := (p + q[1..])[1..], a + b;
    CarriedIsMissing(mid, i, x);
  }

  /** A job that is still carried has not run as often as it was submitted. */
  lemma CarriedIsMissing(s: State, i: nat, x: Job)
    requires Base(s) && Carries(s, i, x)
    ensures multiset(s.ran)[x] < multiset(s.submitted)[x]
  {
    assert Everywhere(s, x) == Cnt(s.submitted, x);
    CarrierOwesNothing(s, i, x);
    var cs := Counts(Hands(s.agents), x);
    SumUpdate(cs, i, 0);
    assert cs[i] == Cnt([x], x) == 1;
    CntIsMultiplicity(s.ran, x);
    CntIsMultiplicity(s.submitted, x);
  }

  /** One worker and one submit that begins before the stop flag but goes on only after the
      worker has returned: the states of such a run. */
  function LateRun(): seq<State> {
    var idle := State(1, 1, true, [[]], [], 0, 0, false, [Idle, Calm], [], []);
    var stop := idle.(stopping := true, submitted := [7]);
    [idle, idle.(agents := [Idle, Calm, Checking(7)], submitted := [7]),
     stop.(agents := [Idle, Stopping, Checking(7)]), stop.(agents := [Idle, DrainLoop, Checking(7)]),
     stop.(agents := [Idle, ReleaseExits, Checking(7)]), stop.(agents := [Idle, Joined, Checking(7)], sem := 1),
     stop.(agents := [Scan(0), Joined, Checking(7)]), stop.(agents := [Scan(1), Joined, Checking(7)]),
     stop.(agents := [Exited, Joined, Checking(7)]), stop.(agents := [Exited, Joined, Submit(Push(7))]),
     stop.(agents := [Exited, Joined, Submit(Count)], shards := [[7]])]
  }

  function LateActions(): seq<Action> {
    [Call(7), Act(1, 0), Act(1, 0), Act(1, 0), Act(1, 0), Act(0, 0), Act(0, 0), Act(0, 0), Act(2, 0), Act(2, 0)]
  }

  ghost predicate LateStep(k: nat)
    requires k < 10
  {
    var run, actions := LateRun(), LateActions();
    Allowed(run[k], actions[k]) && run[k + 1] == Step(run[k], actions[k])
  }

  lemma LateRunSteps(k: nat)
    requires k < 10
    ensures LateStep(k)
  {
    if k == 0 {
      var s := LateRun()[0];
      assert s.agents + [Checking(7)] == LateRun()[1].agents && s.submitted + [7] == [7];
    } else if k < 5 {
      StopSteps(k);
    } else if k < 8 {
      WorkerSteps(k);
    } else {
      SubmitSteps(k);
    }
  }

  lemma StopSteps(k: nat)
    requires 1 <= k < 5
    ensures LateStep(k)
  {
    var s := LateRun()[k];
    assert LateActions()[k] == Act(1, 0);
    assert s.agents[1 := Moved(s, 1)] == LateRun()[k + 1].agents;
  }

  lemma WorkerSteps(k: nat)
    requires 5 <= k < 8
    ensures LateStep(k)
  {
    var s := LateRun()[k];
    assert LateActions()[k] == Act(0, 0);
    assert s.agents[0 := Moved(s, 0)] == LateRun()[k + 1].agents;
  }

  lemma SubmitSteps(k: nat)
    requires 8 <= k < 10
    ensures LateStep(k)
  {
    var s := LateRun()[k];
    assert LateActions()[k] == Act(2, 0);
    assert s.agents[2 := Moved(s, 2)] == LateRun()[k + 1].agents;
    assert s.shards[0] + [7] == [7] && s.shards[0 := [7]] == [[7]];
  }

  /** A reachable loss: the job of a submit that only began before the stop flag is accepted,
      sits in its shard and is not run in any continuation of the run. */
  lemma LateSubmitNeverRuns(more: seq<State>, after: seq<Action>)
    requires IsRun(LateRun() + more, LateActions() + after)
    ensures IsRun(LateRun(), LateActions()) && LateActions()[0] == Call(7) && !LateRun()[1].stopping
    ensures LateRun()[10].shards == [[7]] && LateRun()[10].submitted == [7]
    ensures forall s | s in more :: s.ran == []
  {
    LateRunIsRun();
    var run, actions := LateRun() + more, LateActions() + after;
    assert run[8] == LateRun()[8] && AllExited(run[8]);
    forall s | s in more
      ensures s.ran == []
    {
      var i :| 0 <= i < |more| && more[i] == s;
      ExitedForGood(run, actions, 8, 11 + i);
    }
  }

  lemma LateRunIsRun()
    ensures IsRun(LateRun(), LateActions())
  {
    var run, actions := LateRun(), LateActions();
    assert run[0].shards == seq(1, _ => []) && run[0].agents == seq(1, _ => Idle) + [Calm];
    forall k | 0 <= k < 10
      ensures Allowed(run[k], actions[k]) && run[k + 1] == Step(run[k], actions[k])
    {
      LateRunSteps(k);
    }
  }

  lemma OnlyWorkersRun(s: State, i: nat, pick: nat)
    requires Shape(s) && Enabled(s, i) && pick < s.n && i >= s.n
    ensures Effect(s, i, pick).ran == s.ran
  {
  }
}
