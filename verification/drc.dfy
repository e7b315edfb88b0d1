/** The duplicate request cache of src/rpc/drc.cpp: one shard, any number of requests.

    Every critical section under the shard's mutex is one atomic step.  Time is the steady
    clock in ticks, read where the source reads it.  The class Shard performs the critical
    sections in place; the functions say what they do, and the runs below add the coroutines:
    parked on the condition variable, woken and about to look again, or executing as owner. */
module Drc {

  type Key = nat
  type Reply = seq<nat>

  datatype Entry = Entry(done: bool, reply: Reply, doneAt: int)

  datatype Config = Config(ttl: nat, maxMemory: nat)

  const SHARDS := 16

  datatype Table = Table(entries: map<Key, Entry>, completed: seq<Key>, bytes: int)

  const EMPTY := Table(map[], [], 0)

  datatype Claim = Owner | Replay(reply: Reply) | Wait

  predicate Expired(cfg: Config, e: Entry, now: int) {
    now - e.doneAt >= cfg.ttl
  }

  predicate OverMemory(cfg: Config, t: Table) {
    t.bytes > cfg.maxMemory / SHARDS
  }

  /** Drops the oldest completed entry. */
  function Evict(t: Table): Table
    requires t.completed != [] && t.completed[0] in t.entries
  {
    var k := t.completed[0];
    Table(t.entries - {k}, t.completed[1..], t.bytes - |t.entries[k].reply|)
  }

  function Purge(cfg: Config, t: Table, now: int): Table
    decreases |t.completed|
  {
    if t.completed == [] then t
    else if t.completed[0] !in t.entries then Purge(cfg, t.(completed := t.completed[1..]), now)
    else if !Expired(cfg, t.entries[t.completed[0]], now) && !OverMemory(cfg, t) then t
    else Purge(cfg, Evict(t), now)
  }

  /** One round of the loop in begin(). */
  function Look(cfg: Config, t: Table, key: Key, now: int): (Table, Claim) {
    var p := Purge(cfg, t, now);
    if key !in p.entries then (p.(entries := p.entries[key := Entry(false, [], 0)]), Owner)
    else if p.entries[key].done then (p, Replay(p.entries[key].reply))
    else (p, Wait)
  }

  function MarkDone(t: Table, key: Key, reply: Reply, doneAt: int): Table {
    Table(t.entries[key := Entry(true, reply, doneAt)], t.completed + [key], t.bytes + |reply|)
  }

  function Completed(cfg: Config, t: Table, key: Key, reply: Reply, doneAt: int, now: int): Table {
    if key in t.entries && !t.entries[key].done then Purge(cfg, MarkDone(t, key, reply, doneAt), now) else t
  }

  function Aborted(t: Table, key: Key): Table {
    if key in t.entries && !t.entries[key].done then t.(entries := t.entries - {key}) else t
  }

  class Shard {
    const cfg: Config
    var entries: map<Key, Entry>
    var completed: seq<Key>
    var bytes: int
    var count: nat

    ghost function State(): Table
      reads this
    {
      Table(entries, completed, bytes)
    }

    /** `count` mirrors the table's size for the lock-free statistics. */
    ghost predicate Counted()
      reads this
    {
      count == |entries|
    }

    constructor (cfg: Config)
      ensures State() == EMPTY && Counted() && this.cfg == cfg
    {
      this.cfg := cfg;
      entries, completed, bytes, count := map[], [], 0, 0;
    }

    method DoPurge(now: int)
      requires Counted()
      modifies this
      ensures State() == Purge(cfg, old(State()), now) && Counted()
    {
      while completed != []
        invariant Purge(cfg, State(), now) == Purge(cfg, old(State()), now)
        invariant Counted()
        decreases |completed|
      {
        var oldest := completed[0];
        if oldest !in entries {
          completed := completed[1..];
          continue;
        }
        var e := entries[oldest];
        var expired := now - e.doneAt >= cfg.ttl;
        var overMemory := bytes > cfg.maxMemory / SHARDS;
        if !expired && !overMemory { break; }
        bytes := bytes - |e.reply|;
        entries := entries - {oldest};
        count := |entries|;
        completed := completed[1..];
      }
    }

    method BeginRound(key: Key, now: int) returns (c: Claim)
      requires Counted()
      modifies this
      ensures (State(), c) == Look(cfg, old(State()), key, now) && Counted()
    {
      DoPurge(now);
      if key !in entries {
        entries := entries[key := Entry(false, [], 0)];
        count := |entries|;
        return Owner;
      }
      if entries[key].done { return Replay(entries[key].reply); }
      return Wait;
    }

    method Complete(key: Key, reply: Reply, doneAt: int, now: int)
      requires Counted()
      modifies this
      ensures State() == Completed(cfg, old(State()), key, reply, doneAt, now) && Counted()
    {
      if key in entries && !entries[key].done {
        entries := entries[key := Entry(true, reply, doneAt)];
        bytes := bytes + |reply|;
        completed := completed + [key];
        assert entries.Keys == old(entries.Keys);
        DoPurge(now);
      }
    }

    method Abort(key: Key)
      requires Counted()
      modifies this
      ensures State() == Aborted(old(State()), key) && Counted()
    {
      if key in entries && !entries[key].done {
        entries := entries - {key};
        count := |entries|;
      }
    }

    method Flush() returns (dropped: nat)
      modifies this
      ensures State() == EMPTY && Counted() && dropped == |old(entries)|
    {
      dropped := |entries|;
      entries, completed, bytes, count := map[], [], 0, 0;
    }
  }

  // ---- accounting ------------------------------------------------------------------

  ghost function Size(entries: map<Key, Entry>, keys: seq<Key>): int
    requires forall k | k in keys :: k in entries
  {
    if keys == [] then 0 else |entries[keys[0]].reply| + Size(entries, keys[1..])
  }

  /** The completion queue lists exactly the done keys, each once, in completion order, and
      `bytes` is the size of the replies they cache. */
  ghost predicate Accounted(t: Table, now: int) {
    && (forall k :: k in t.completed <==> k in t.entries && t.entries[k].done)
    && (forall i, j | 0 <= i < j < |t.completed| :: t.completed[i] != t.completed[j])
    && (forall i, j | 0 <= i < j < |t.completed| ::
          t.entries[t.completed[i]].doneAt <= t.entries[t.completed[j]].doneAt)
    && (forall k | k in t.completed :: t.entries[k].doneAt <= now)
    && t.bytes == Size(t.entries, t.completed)
  }

  /** Within the memory bound, nothing past its time to live. */
  ghost predicate Tidy(cfg: Config, t: Table, now: int) {
    && !OverMemory(cfg, t)
    && forall k | k in t.entries && t.entries[k].done :: !Expired(cfg, t.entries[k], now)
  }

  lemma {:induction false} SizeFrame(a: map<Key, Entry>, b: map<Key, Entry>, keys: seq<Key>)
    requires forall k | k in keys :: k in a && k in b && a[k] == b[k]
    ensures Size(a, keys) == Size(b, keys)
  {
    if keys != [] { SizeFrame(a, b, keys[1..]); }
  }

  lemma {:induction false} SizeAppend(entries: map<Key, Entry>, keys: seq<Key>, k: Key)
    requires k in entries && forall x | x in keys :: x in entries
    ensures Size(entries, keys + [k]) == Size(entries, keys) + |entries[k].reply|
  {
    if keys == [] {
      assert keys + [k] == [k];
    } else {
      SizeAppend(entries, keys[1..], k);
      assert (keys + [k])[1..] == keys[1..] + [k];
    }
  }

  lemma EvictAccounted(t: Table, now: int)
    requires Accounted(t, now) && t.completed != []
    ensures t.completed[0] in t.entries && Accounted(Evict(t), now)
  {
    var k, rest := t.completed[0], t.completed[1..];
    assert k in t.completed;
    var t' := Evict(t);
    forall x
      ensures x in rest <==> x in t'.entries && t'.entries[x].done
    {
      assert x in t.completed <==> x == k || x in rest;
    }
    forall i, j | 0 <= i < j < |rest|
      ensures rest[i] != rest[j] && t'.entries[rest[i]].doneAt <= t'.entries[rest[j]].doneAt
    {
      assert rest[i] == t.completed[i + 1] && rest[j] == t.completed[j + 1];
    }
    SizeFrame(t.entries, t'.entries, rest);
  }

  /** `p` is `t` without some of its oldest replies: requests in progress are untouched, and
      the completion queue is cut at the front. */
  ghost predicate Trimmed(t: Table, p: Table) {
    && |p.completed| <= |t.completed|
    && p.completed == t.completed[|t.completed| - |p.completed|..]
    && (forall k :: k in p.entries <==> k in t.entries && (t.entries[k].done ==> k in p.completed))
    && (forall k | k in p.entries :: p.entries[k] == t.entries[k])
  }

  /** Purging keeps the books and leaves the table tidy. */
  lemma {:induction false} PurgeAccounted(cfg: Config, t: Table, now: int)
    requires Accounted(t, now)
    ensures Accounted(Purge(cfg, t, now), now) && Tidy(cfg, Purge(cfg, t, now), now)
    decreases |t.completed|
  {
    if t.completed != [] {
      EvictAccounted(t, now);
      if Expired(cfg, t.entries[t.completed[0]], now) || OverMemory(cfg, t) {
        PurgeAccounted(cfg, Evict(t), now);
      }
    }
  }

  lemma {:induction false} PurgeTrims(cfg: Config, t: Table, now: int)
    requires Accounted(t, now)
    ensures Trimmed(t, Purge(cfg, t, now))
    decreases |t.completed|
  {
    if t.completed != [] {
      EvictAccounted(t, now);
      if Expired(cfg, t.entries[t.completed[0]], now) || OverMemory(cfg, t) {
        PurgeTrims(cfg, Evict(t), now);
        EvictTrims(t, Purge(cfg, Evict(t), now), now);
      } else {
        assert t.completed[0..] == t.completed;
      }
    }
  }

  lemma EvictTrims(t: Table, p: Table, now: int)
    requires Accounted(t, now) && t.completed != [] && t.completed[0] in t.entries && Trimmed(Evict(t), p)
    ensures Trimmed(t, p)
  {
    var n := |t.completed| - |p.completed|;
    assert t.completed[1..][n - 1..] == t.completed[n..];
    assert forall i | 0 <= i < |p.completed| :: p.completed[i] == t.completed[n + i];
  }

  /** Nothing is evicted early: an evicted reply was expired, or the cache was over its bound
      while that reply was the oldest one left. */
  lemma {:induction false} EvictedForCause(cfg: Config, t: Table, now: int, i: nat)
    requires Accounted(t, now) && i < |t.completed| - |Purge(cfg, t, now).completed|
    ensures forall j | i <= j < |t.completed| :: t.completed[j] in t.entries
    ensures Expired(cfg, t.entries[t.completed[i]], now) || Size(t.entries, t.completed[i..]) > cfg.maxMemory / SHARDS
    decreases |t.completed|
  {
    EvictAccounted(t, now);
    if i == 0 {
      assert t.completed[0..] == t.completed;
    } else {
      var t' := Evict(t);
      EvictedForCause(cfg, t', now, i - 1);
      var rest := t.completed[i..];
      assert t'.completed[i - 1..] == rest;
      SizeFrame(t.entries, t'.entries, rest);
    }
  }

  // ---- requests running together ---------------------------------------------------

  /** Who is doing what.  `creator` names, for a request in progress, the coroutine whose
      begin() inserted it; `settled` logs the completions that took effect; `flushed` says
      whether an operator flush ever happened, and `since` how long the log was at the last one. */
  datatype World = World(
    cfg: Config, table: Table, now: int,
    parked: map<nat, Key>, woken: map<nat, Key>, owners: map<nat, Key>,
    creator: map<Key, nat>, settled: seq<Settled>, flushed: bool, since: nat)

  datatype Settled = Settled(key: Key, reply: Reply, doneAt: int)

  datatype Event =
    | Begin(co: nat, key: Key, at: int)
    | Retry(co: nat, at: int)
    | Finish(co: nat, reply: Reply, doneAt: int, at: int)
    | GiveUp(co: nat)
    | FlushAll

  ghost predicate Enabled(w: World, e: Event) {
    match e
    case Begin(co, _, at) => co !in w.parked && co !in w.woken && co !in w.owners && w.now <= at
    case Retry(co, at) => co in w.woken && co !in w.owners && w.now <= at
    case Finish(co, _, doneAt, at) => co in w.owners && w.now <= doneAt <= at
    case GiveUp(co) => co in w.owners
    case FlushAll => true
  }

  ghost function Looked(w: World, co: nat, key: Key, at: int): World {
    var (t, c) := Look(w.cfg, w.table, key, at);
    var w' := w.(table := t, now := at, woken := w.woken - {co});
    match c
    case Owner => w'.(owners := w.owners[co := key], creator := w.creator[key := co])
    case Replay(_) => w'
    case Wait => w'.(parked := w.parked[co := key])
  }

  /** notify_all: every parked coroutine will take the mutex and look again. */
  ghost function Notified(w: World): World {
    w.(parked := map[], woken := w.woken + w.parked)
  }

  ghost function Step(w: World, e: Event): World
    requires Enabled(w, e)
  {
    match e
    case Begin(co, key, at) => Looked(w, co, key, at)
    case Retry(co, at) => Looked(w, co, w.woken[co], at)
    case Finish(co, reply, doneAt, at) =>
      var key := w.owners[co];
      var effective := key in w.table.entries && !w.table.entries[key].done;
      Notified(w.(table := Completed(w.cfg, w.table, key, reply, doneAt, at), now := at,
                  owners := w.owners - {co},
                  settled := if effective then w.settled + [Settled(key, reply, doneAt)] else w.settled))
    case GiveUp(co) =>
      Notified(w.(table := Aborted(w.table, w.owners[co]), owners := w.owners - {co}))
    case FlushAll => Notified(w.(table := EMPTY, flushed := true, since := |w.settled|))
  }

  ghost predicate InProgress(t: Table, key: Key) {
    key in t.entries && !t.entries[key].done
  }

  ghost function LastReply(log: seq<Settled>, key: Key): (r: seq<Reply>)
  {
    if log == [] then []
    else if log[|log| - 1].key == key then [log[|log| - 1].reply]
    else LastReply(log[..|log| - 1], key)
  }

  /** Nobody sleeps on a key that nobody is working on. */
  ghost predicate NobodyStranded(w: World) {
    && (forall co | co in w.parked :: InProgress(w.table, w.parked[co]))
    && (forall k | InProgress(w.table, k) :: k in w.creator && w.creator[k] in w.owners && w.owners[w.creator[k]] == k)
  }

  /** Until the first flush, executing owners and requests in progress correspond. */
  ghost predicate OneOwner(w: World) {
    !w.flushed ==>
      forall co | co in w.owners ::
        InProgress(w.table, w.owners[co]) && w.owners[co] in w.creator && w.creator[w.owners[co]] == co
  }

  /** A cached reply is the one the key's last effective completion supplied. */
  ghost predicate Faithful(w: World) {
    forall k | k in w.table.entries && w.table.entries[k].done :: LastReply(w.settled, k) == [w.table.entries[k].reply]
  }

  ghost predicate Books(w: World) {
    Accounted(w.table, w.now) && !OverMemory(w.cfg, w.table)
  }

  ghost predicate People(w: World) {
    NobodyStranded(w) && OneOwner(w) && Faithful(w) && w.parked.Keys !! w.woken.Keys
  }

  ghost predicate Inv(w: World) {
    Books(w) && People(w)
  }

  lemma LaterAccounted(t: Table, now: int, at: int)
    requires Accounted(t, now) && now <= at
    ensures Accounted(t, at)
  {
  }

  /** What the people in the system see of a purge: requests in progress stay, done ones may
      disappear but never change. */
  ghost predicate Survived(t: Table, p: Table) {
    && (forall k :: InProgress(p, k) <==> InProgress(t, k))
    && (forall k | k in p.entries && p.entries[k].done :: k in t.entries && t.entries[k] == p.entries[k])
  }

  lemma PurgeSurvived(cfg: Config, t: Table, now: int)
    requires Accounted(t, now)
    ensures Survived(t, Purge(cfg, t, now))
  {
    PurgeTrims(cfg, t, now);
  }

  // ---- begin() ----

  lemma OwnerPeople(w: World, p: Table, co: nat, key: Key, at: int)
    requires People(w) && Survived(w.table, p) && key !in p.entries && co !in w.owners && co !in w.parked
    ensures People(w.(table := p.(entries := p.entries[key := Entry(false, [], 0)]), now := at,
                      woken := w.woken - {co}, owners := w.owners[co := key], creator := w.creator[key := co]))
  {
    assert !InProgress(p, key);
    var t := p.(entries := p.entries[key := Entry(false, [], 0)]);
    assert forall k :: InProgress(t, k) <==> InProgress(p, k) || k == key;
  }

  lemma ReplayPeople(w: World, p: Table, co: nat, at: int)
    requires People(w) && Survived(w.table, p) && co !in w.parked
    ensures People(w.(table := p, now := at, woken := w.woken - {co}))
  {
  }

  lemma WaitPeople(w: World, p: Table, co: nat, key: Key, at: int)
    requires People(w) && Survived(w.table, p) && InProgress(p, key) && co !in w.parked
    ensures People(w.(table := p, now := at, woken := w.woken - {co}, parked := w.parked[co := key]))
  {
  }

  lemma InsertAccounted(t: Table, key: Key, now: int)
    requires Accounted(t, now) && key !in t.entries
    ensures Accounted(t.(entries := t.entries[key := Entry(false, [], 0)]), now)
  {
    SizeFrame(t.entries, t.entries[key := Entry(false, [], 0)], t.completed);
  }

  lemma LookKeepsBooks(w: World, co: nat, key: Key, at: int)
    requires Books(w) && w.now <= at
    ensures Books(Looked(w, co, key, at))
  {
    LaterAccounted(w.table, w.now, at);
    PurgeAccounted(w.cfg, w.table, at);
    var p := Purge(w.cfg, w.table, at);
    if key !in p.entries { InsertAccounted(p, key, at); }
  }

  lemma LookKeepsPeople(w: World, co: nat, key: Key, at: int)
    requires Inv(w) && w.now <= at && co !in w.owners && co !in w.parked
    ensures People(Looked(w, co, key, at))
  {
    LaterAccounted(w.table, w.now, at);
    PurgeSurvived(w.cfg, w.table, at);
    var p := Purge(w.cfg, w.table, at);
    if key !in p.entries {
      OwnerPeople(w, p, co, key, at);
    } else if p.entries[key].done {
      ReplayPeople(w, p, co, at);
    } else {
      WaitPeople(w, p, co, key, at);
    }
  }

  // ---- complete(), abort(), flush() ----

  lemma DoneAccounted(t: Table, key: Key, reply: Reply, doneAt: int, now: int)
    requires Accounted(t, doneAt) && InProgress(t, key) && doneAt <= now
    ensures Accounted(MarkDone(t, key, reply, doneAt), now)
  {
    var entries' := t.entries[key := Entry(true, reply, doneAt)];
    assert key !in t.completed;
    SizeFrame(t.entries, entries', t.completed);
    SizeAppend(entries', t.completed, key);
  }

  lemma CompletedAccounted(cfg: Config, t: Table, key: Key, reply: Reply, doneAt: int, now: int)
    requires Accounted(t, doneAt) && doneAt <= now && !OverMemory(cfg, t)
    ensures Accounted(Completed(cfg, t, key, reply, doneAt, now), now)
    ensures !OverMemory(cfg, Completed(cfg, t, key, reply, doneAt, now))
  {
    LaterAccounted(t, doneAt, now);
    if InProgress(t, key) {
      DoneAccounted(t, key, reply, doneAt, now);
      PurgeAccounted(cfg, MarkDone(t, key, reply, doneAt), now);
    }
  }

  lemma CompletedSurvived(cfg: Config, t: Table, key: Key, reply: Reply, doneAt: int, now: int)
    requires Accounted(t, doneAt) && doneAt <= now && InProgress(t, key)
    ensures forall k :: InProgress(Completed(cfg, t, key, reply, doneAt, now), k) <==> InProgress(t, k) && k != key
    ensures Survived(MarkDone(t, key, reply, doneAt), Completed(cfg, t, key, reply, doneAt, now))
  {
    DoneAccounted(t, key, reply, doneAt, now);
    PurgeSurvived(cfg, MarkDone(t, key, reply, doneAt), now);
    assert forall k :: InProgress(MarkDone(t, key, reply, doneAt), k) <==> InProgress(t, k) && k != key;
  }

  /** Settling a request that was in progress, with everybody notified. */
  lemma SettlePeople(w: World, p: Table, co: nat, key: Key, log: seq<Settled>, at: int)
    requires People(w) && co in w.owners && w.owners[co] == key
    requires forall k :: InProgress(p, k) <==> InProgress(w.table, k) && k != key
    requires forall k | k in p.entries && p.entries[k].done :: LastReply(log, k) == [p.entries[k].reply]
    ensures People(Notified(w.(table := p, now := at, owners := w.owners - {co}, settled := log)))
  {
  }

  lemma FinishKeepsPeople(w: World, co: nat, reply: Reply, doneAt: int, at: int)
    requires Inv(w) && Enabled(w, Finish(co, reply, doneAt, at))
    ensures People(Step(w, Finish(co, reply, doneAt, at)))
  {
    var key := w.owners[co];
    var p := Completed(w.cfg, w.table, key, reply, doneAt, at);
    if InProgress(w.table, key) {
      LaterAccounted(w.table, w.now, doneAt);
      CompletedSurvived(w.cfg, w.table, key, reply, doneAt, at);
      LogFaithful(w, p, key, reply, doneAt);
      SettlePeople(w, p, co, key, w.settled + [Settled(key, reply, doneAt)], at);
    } else {
      SettlePeople(w, p, co, key, w.settled, at);
    }
  }

  lemma LogFaithful(w: World, p: Table, key: Key, reply: Reply, doneAt: int)
    requires Faithful(w) && Survived(MarkDone(w.table, key, reply, doneAt), p)
    ensures forall k | k in p.entries && p.entries[k].done ::
              LastReply(w.settled + [Settled(key, reply, doneAt)], k) == [p.entries[k].reply]
  {
    var log := w.settled + [Settled(key, reply, doneAt)];
    assert log[..|log| - 1] == w.settled;
  }

  lemma GiveUpKeepsInv(w: World, co: nat)
    requires Inv(w) && Enabled(w, GiveUp(co))
    ensures Inv(Step(w, GiveUp(co)))
  {
    AbortAccounted(w.table, w.owners[co], w.now);
    SettlePeople(w, Aborted(w.table, w.owners[co]), co, w.owners[co], w.settled, w.now);
  }

  lemma AbortAccounted(t: Table, key: Key, now: int)
    requires Accounted(t, now)
    ensures Accounted(Aborted(t, key), now) && Aborted(t, key).bytes == t.bytes
  {
    SizeFrame(t.entries, Aborted(t, key).entries, t.completed);
  }

  lemma StepKeepsInv(w: World, e: Event)
    requires Inv(w) && Enabled(w, e)
    ensures Inv(Step(w, e))
  {
    match e
    case Begin(co, key, at) =>
      LookKeepsBooks(w, co, key, at);
      LookKeepsPeople(w, co, key, at);
    case Retry(co, at) =>
      LookKeepsBooks(w, co, w.woken[co], at);
      LookKeepsPeople(w, co, w.woken[co], at);
    case Finish(co, reply, doneAt, at) =>
      LaterAccounted(w.table, w.now, doneAt);
      CompletedAccounted(w.cfg, w.table, w.owners[co], reply, doneAt, at);
      FinishKeepsPeople(w, co, reply, doneAt, at);
    case GiveUp(co) => GiveUpKeepsInv(w, co);
    case FlushAll =>
  }

  ghost predicate Initial(w: World) {
    && w.table == EMPTY && w.parked == map[] && w.woken == map[] && w.owners == map[] && w.settled == [] && !w.flushed && w.since == 0
  }

  ghost predicate IsRun(run: seq<World>, events: seq<Event>) {
    && |run| == |events| + 1 && Initial(run[0])
    && forall n | 0 <= n < |events| :: Enabled(run[n], events[n]) && run[n + 1] == Step(run[n], events[n])
  }

  lemma {:induction false} RunsKeepInv(run: seq<World>, events: seq<Event>, n: nat)
    requires IsRun(run, events) && n < |run|
    ensures Inv(run[n])
  {
    if n > 0 {
      RunsKeepInv(run, events, n - 1);
      StepKeepsInv(run[n - 1], events[n - 1]);
    }
  }

  /** Without a flush, no two coroutines execute the same request at the same time. */
  lemma SingleExecution(run: seq<World>, events: seq<Event>, n: nat, a: nat, b: nat)
    requires IsRun(run, events) && n < |run| && !run[n].flushed
    requires a in run[n].owners && b in run[n].owners && run[n].owners[a] == run[n].owners[b]
    ensures a == b
  {
    RunsKeepInv(run, events, n);
  }

  /** In every run, flushes included: whoever is parked waits for a request in progress whose
      inserter is still executing, and that coroutine's settling step, whichever it is,
      leaves nobody parked. */
  lemma NoStrandedWaiter(run: seq<World>, events: seq<Event>, n: nat, co: nat)
    requires IsRun(run, events) && n < |run| && co in run[n].parked
    ensures InProgress(run[n].table, run[n].parked[co])
    ensures exists worker | worker in run[n].owners ::
              && run[n].owners[worker] == run[n].parked[co]
              && Step(run[n], GiveUp(worker)).parked == map[] && co in Step(run[n], GiveUp(worker)).woken
              && forall reply, t | run[n].now <= t ::
                   var w := Step(run[n], Finish(worker, reply, t, t)); w.parked == map[] && co in w.woken
  {
    hide Purge, Completed, Aborted, Look, IsRun, Books;
    RunsKeepInv(run, events, n);
    assert run[n].creator[run[n].parked[co]] in run[n].owners;
  }

  /** A retransmission is answered with the bytes of the key's last completion. */
  lemma ReplayIsFaithful(run: seq<World>, events: seq<Event>, n: nat, key: Key, at: int)
    requires IsRun(run, events) && n < |run| && run[n].now <= at
    requires Look(run[n].cfg, run[n].table, key, at).1.Replay?
    ensures LastReply(run[n].settled, key) == [Look(run[n].cfg, run[n].table, key, at).1.reply]
  {
    RunsKeepInv(run, events, n);
    LaterAccounted(run[n].table, run[n].now, at);
    PurgeTrims(run[n].cfg, run[n].table, at);
  }

  // ---- how long a reply is kept ----------------------------------------------------

  ghost function LogBytes(log: seq<Settled>): nat {
    if log == [] then 0 else |log[0].reply| + LogBytes(log[1..])
  }

  lemma {:induction false} LogBytesAppend(log: seq<Settled>, s: Settled)
    ensures LogBytes(log + [s]) == LogBytes(log) + |s.reply|
  {
    if log == [] {
      assert log + [s] == [s];
    } else {
      LogBytesAppend(log[1..], s);
      assert (log + [s])[1..] == log[1..] + [s];
    }
  }

  /** The i-th completed key stands in the table as its place in the log says. */
  ghost predicate Logged(t: Table, log: seq<Settled>, i: nat)
    requires i < |t.completed| <= |log|
  {
    var k, s := t.completed[i], log[|log| - |t.completed| + i];
    s.key == k && k in t.entries && t.entries[k] == Entry(true, s.reply, s.doneAt)
  }

  /** The completion queue is the end of the log. */
  ghost predicate Tail(t: Table, log: seq<Settled>) {
    && |t.completed| <= |log|
    && forall i | 0 <= i < |t.completed| :: Logged(t, log, i)
  }

  /** A completion that is past its time to live, or whose reply and the later ones exceed the
      memory cap. */
  ghost predicate Outdated(cfg: Config, log: seq<Settled>, j: nat, now: int)
    requires j < |log|
  {
    now - log[j].doneAt >= cfg.ttl || LogBytes(log[j..]) > cfg.maxMemory / 16
  }

  /** What has left the queue since the last flush was outdated. */
  ghost predicate GoneForCause(cfg: Config, t: Table, log: seq<Settled>, since: nat, now: int) {
    forall j | since <= j < |log| - |t.completed| :: Outdated(cfg, log, j, now)
  }

  ghost predicate History(w: World) {
    && w.since <= |w.settled| - |w.table.completed|
    && Tail(w.table, w.settled) && GoneForCause(w.cfg, w.table, w.settled, w.since, w.now)
  }

  /** The bytes of a stretch of the queue and of the log agree. */
  lemma {:induction false} TailBytes(t: Table, log: seq<Settled>, i: nat)
    requires Tail(t, log) && i <= |t.completed|
    ensures forall k | k in t.completed[i..] :: k in t.entries
    ensures Size(t.entries, t.completed[i..]) == LogBytes(log[|log| - |t.completed| + i..])
    decreases |t.completed| - i
  {
    forall k | k in t.completed[i..]
      ensures k in t.entries
    {
      var n :| i <= n < |t.completed| && t.completed[n] == k;
      assert Logged(t, log, n);
    }
    if i < |t.completed| {
      TailBytes(t, log, i + 1);
      var q := |log| - |t.completed| + i;
      assert Logged(t, log, i);
      assert t.completed[i..][1..] == t.completed[i + 1..] && log[q..][1..] == log[q + 1..];
    }
  }

  lemma TailFits(t: Table, log: seq<Settled>)
    requires Tail(t, log)
    ensures |t.completed| <= |log|
  {
  }

  lemma TrimmedTail(t: Table, p: Table, log: seq<Settled>)
    requires Tail(t, log) && Trimmed(t, p)
    ensures Tail(p, log)
  {
    var cut := |t.completed| - |p.completed|;
    forall i | 0 <= i < |p.completed|
      ensures Logged(p, log, i)
    {
      assert Logged(t, log, cut + i);
      assert p.completed[i] == t.completed[cut + i] && p.completed[i] in p.completed;
    }
  }

  /** Purging a table keeps its history. */
  lemma PurgeHistory(cfg: Config, t: Table, log: seq<Settled>, since: nat, now: int)
    requires Accounted(t, now) && Tail(t, log) && GoneForCause(cfg, t, log, since, now)
    ensures var p := Purge(cfg, t, now); Tail(p, log) && GoneForCause(cfg, p, log, since, now) && |p.completed| <= |t.completed|
  {
    hide Purge, Accounted, Tail, Outdated;
    var p := Purge(cfg, t, now);
    PurgeTrims(cfg, t, now);
    TrimmedTail(t, p, log);
    TailFits(t, log);
    forall j | since <= j < |log| - |p.completed|
      ensures Outdated(cfg, log, j, now)
    {
      var q := |log| - |t.completed|;
      if j < q {
        assert Outdated(cfg, log, j, now);
      } else {
        EvictedIsOutdated(cfg, t, log, j - q, now);
      }
    }
  }

  lemma EvictedIsOutdated(cfg: Config, t: Table, log: seq<Settled>, i: nat, now: int)
    requires Accounted(t, now) && Tail(t, log) && i < |t.completed| - |Purge(cfg, t, now).completed|
    ensures Outdated(cfg, log, |log| - |t.completed| + i, now)
  {
    hide Purge;
    EvictedForCause(cfg, t, now, i);
    TailBytes(t, log, i);
    assert Logged(t, log, i);
  }

  lemma LaterGone(cfg: Config, t: Table, log: seq<Settled>, since: nat, now: int, at: int)
    requires GoneForCause(cfg, t, log, since, now) && now <= at
    ensures GoneForCause(cfg, t, log, since, at)
  {
    forall j | since <= j < |log| - |t.completed|
      ensures Outdated(cfg, log, j, at)
    {
      assert Outdated(cfg, log, j, now);
    }
  }

  lemma LookHistory(w: World, co: nat, key: Key, at: int)
    requires Inv(w) && History(w) && w.now <= at
    ensures History(Looked(w, co, key, at))
  {
    LaterAccounted(w.table, w.now, at);
    LaterGone(w.cfg, w.table, w.settled, w.since, w.now, at);
    PurgeHistory(w.cfg, w.table, w.settled, w.since, at);
    var p := Purge(w.cfg, w.table, at);
    if key !in p.entries { InsertTail(p, key, w.settled); }
  }

  lemma InsertTail(t: Table, key: Key, log: seq<Settled>)
    requires Tail(t, log) && key !in t.entries
    ensures Tail(t.(entries := t.entries[key := Entry(false, [], 0)]), log)
  {
    var t' := t.(entries := t.entries[key := Entry(false, [], 0)]);
    forall i | 0 <= i < |t.completed|
      ensures Logged(t', log, i)
    {
      assert Logged(t, log, i);
    }
  }

  lemma MarkTail(t: Table, log: seq<Settled>, key: Key, reply: Reply, doneAt: int)
    requires Tail(t, log) && InProgress(t, key)
    ensures Tail(MarkDone(t, key, reply, doneAt), log + [Settled(key, reply, doneAt)])
  {
    var t', log' := MarkDone(t, key, reply, doneAt), log + [Settled(key, reply, doneAt)];
    forall i | 0 <= i < |t'.completed|
      ensures Logged(t', log', i)
    {
      if i < |t.completed| { assert Logged(t, log, i); }
    }
  }

  lemma MarkGone(cfg: Config, t: Table, log: seq<Settled>, since: nat, now: int, s: Settled)
    requires GoneForCause(cfg, t, log, since, now) && |t.completed| <= |log|
    ensures forall j | since <= j < |log| - |t.completed| :: Outdated(cfg, log + [s], j, now)
  {
    forall j | since <= j < |log| - |t.completed|
      ensures Outdated(cfg, log + [s], j, now)
    {
      assert Outdated(cfg, log, j, now);
      assert (log + [s])[j..] == log[j..] + [s];
      LogBytesAppend(log[j..], s);
    }
  }

  lemma FinishHistory(w: World, co: nat, reply: Reply, doneAt: int, at: int)
    requires Inv(w) && History(w) && Enabled(w, Finish(co, reply, doneAt, at))
    ensures History(Step(w, Finish(co, reply, doneAt, at)))
  {
    hide Purge;
    var key := w.owners[co];
    LaterGone(w.cfg, w.table, w.settled, w.since, w.now, at);
    if InProgress(w.table, key) {
      var s := Settled(key, reply, doneAt);
      var t := MarkDone(w.table, key, reply, doneAt);
      LaterAccounted(w.table, w.now, doneAt);
      DoneAccounted(w.table, key, reply, doneAt, at);
      MarkTail(w.table, w.settled, key, reply, doneAt);
      MarkGone(w.cfg, w.table, w.settled, w.since, at, s);
      assert GoneForCause(w.cfg, t, w.settled + [s], w.since, at);
      PurgeHistory(w.cfg, t, w.settled + [s], w.since, at);
    }
  }

  lemma GiveUpHistory(w: World, co: nat)
    requires History(w) && Enabled(w, GiveUp(co))
    ensures History(Step(w, GiveUp(co)))
  {
    var t := Aborted(w.table, w.owners[co]);
    forall i | 0 <= i < |t.completed|
      ensures Logged(t, w.settled, i)
    {
      assert Logged(w.table, w.settled, i);
    }
  }

  lemma StepKeepsHistory(w: World, e: Event)
    requires Inv(w) && History(w) && Enabled(w, e)
    ensures History(Step(w, e))
  {
    hide Inv;
    match e
    case Begin(co, key, at) => LookHistory(w, co, key, at);
    case Retry(co, at) => LookHistory(w, co, w.woken[co], at);
    case Finish(co, reply, doneAt, at) => FinishHistory(w, co, reply, doneAt, at);
    case GiveUp(co) => GiveUpHistory(w, co);
    case FlushAll =>
  }

  lemma {:induction false} RunsKeepHistory(run: seq<World>, events: seq<Event>, n: nat)
    requires IsRun(run, events) && n < |run|
    ensures Inv(run[n]) && History(run[n])
  {
    RunsKeepInv(run, events, n);
    if n > 0 {
      hide Inv, History;
      RunsKeepHistory(run, events, n - 1);
      StepKeepsHistory(run[n - 1], events[n - 1]);
    }
  }

  /** The j-th completion is the last one of its key. */
  ghost predicate Latest(log: seq<Settled>, j: nat) {
    j < |log| && forall i | j < i < |log| :: log[i].key != log[j].key
  }

  /** In every run a key that was completed since the last flush is answered with that reply
      exactly until its time to live has passed or its reply and the later ones together exceed
      the memory cap. */
  lemma RetransmissionReplays(run: seq<World>, events: seq<Event>, n: nat, j: nat, at: int)
    requires IsRun(run, events) && n < |run| && run[n].now <= at
    requires run[n].since <= j && Latest(run[n].settled, j)
    ensures var w := run[n];
            Look(w.cfg, w.table, w.settled[j].key, at).1 == Replay(w.settled[j].reply) <==> !Outdated(w.cfg, w.settled, j, at)
    ensures Outdated(run[n].cfg, run[n].settled, j, at) ==> !Look(run[n].cfg, run[n].table, run[n].settled[j].key, at).1.Replay?
  {
    RunsKeepHistory(run, events, n);
    var w := run[n];
    LaterAccounted(w.table, w.now, at);
    LaterGone(w.cfg, w.table, w.settled, w.since, w.now, at);
    PurgeHistory(w.cfg, w.table, w.settled, w.since, at);
    PurgeAccounted(w.cfg, w.table, at);
    KeptIffCurrent(w.cfg, Purge(w.cfg, w.table, at), w.settled, w.since, j, at);
  }

  lemma FindLogged(t: Table, log: seq<Settled>, key: Key, now: int) returns (j: nat)
    requires Accounted(t, now) && Tail(t, log) && key in t.entries && t.entries[key].done
    ensures |log| - |t.completed| <= j < |log| && log[j].key == key
  {
    assert key in t.completed;
    var i :| 0 <= i < |t.completed| && t.completed[i] == key;
    assert Logged(t, log, i);
    j := |log| - |t.completed| + i;
  }

  /** In a purged table exactly the completions that are not outdated are there to replay. */
  lemma KeptIffCurrent(cfg: Config, p: Table, log: seq<Settled>, since: nat, j: nat, at: int)
    requires Accounted(p, at) && Tidy(cfg, p, at) && Tail(p, log) && GoneForCause(cfg, p, log, since, at)
    requires since <= j && Latest(log, j)
    ensures var key := log[j].key;
            if Outdated(cfg, log, j, at) then key !in p.entries || !p.entries[key].done
            else key in p.entries && p.entries[key] == Entry(true, log[j].reply, log[j].doneAt)
  {
    var key, q := log[j].key, |log| - |p.completed|;
    if j < q {
      assert Outdated(cfg, log, j, at);
      if key in p.entries && p.entries[key].done {
        var i := FindLogged(p, log, key, at);
        assert false;
      }
    } else {
      assert Logged(p, log, j - q);
      TailBytes(p, log, j - q);
      TailBytes(p, log, 0);
      assert p.completed[0..] == p.completed && log[|log| - |p.completed| + 0..] == log[q..];
      SuffixBytes(log, q, j);
    }
  }

  lemma {:induction false} SuffixBytes(log: seq<Settled>, q: nat, j: nat)
    requires q <= j <= |log|
    ensures LogBytes(log[j..]) <= LogBytes(log[q..])
    decreases j - q
  {
    if q < j {
      SuffixBytes(log, q + 1, j);
      assert log[q..][1..] == log[q + 1..];
    }
  }
}
