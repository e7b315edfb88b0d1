/** The weak table of per-object locks, src/core/obj_lock.cpp.

    One shard is modelled: a key always hashes to the same shard, so shards never interact.
    A mutex is named by a number; `refs` counts its strong owners (the shared_ptrs handed
    out by Get), and a table slot holds only a weak reference: it is expired as soon as the
    count drops to zero. */
module ObjLocks {

  datatype ObjId = ObjId(len: nat, bytes: seq<nat>)

  datatype Key = Key(fsid: nat, oid: ObjId)

  datatype Registry = Registry(locks: map<Key, nat>, refs: map<nat, nat>, next: nat)

  const WATERMARK := 1024
  const SWEEP_BUCKETS := 8
  const SWEEP_MAX := 16

  /** Bucket chains that hold nothing but keys of the table. */
  ghost predicate IsLayout(buckets: seq<seq<Key>>, keys: set<Key>) {
    && |buckets| > 0
    && forall b, i | 0 <= b < |buckets| && 0 <= i < |buckets[b]| :: buckets[b][i] in keys
  }

  /** What a `Get` may do to the table: a live mutex for the key is shared; otherwise a mutex
      never seen before takes the slot, and besides that only expired slots disappear. */
  ghost predicate GetStep(r: Registry, key: Key, r': Registry, id: nat) {
    if key in r.locks && r.locks[key] in r.refs then
      && id == r.locks[key]
      && r' == r.(refs := r.refs[id := r.refs[id] + 1])
    else
      && id == r.next && r'.next == r.next + 1
      && r'.refs == r.refs[id := 1]
      && key in r'.locks && r'.locks[key] == id
      && (forall k | k in r'.locks && k != key :: k in r.locks && r'.locks[k] == r.locks[k])
      && (forall k | k in r.locks && r.locks[k] in r.refs && k != key :: k in r'.locks)
  }

  /** A holder lets go of its shared_ptr. */
  ghost predicate DropStep(r: Registry, r': Registry, id: nat) {
    && id in r.refs && r.refs[id] > 0
    && r' == r.(refs := if r.refs[id] == 1 then r.refs - {id} else r.refs[id := r.refs[id] - 1])
  }

  class ObjLockRegistry {
    var locks: map<Key, nat>
    var refs: map<nat, nat>
    var next: nat
    var sweepPos: nat

    ghost function State(): Registry
      reads this
    {
      Registry(locks, refs, next)
    }

    constructor ()
      ensures State() == Registry(map[], map[], 0)
    {
      locks, refs, next, sweepPos := map[], map[], 0, 0;
    }

    /** `layout` is the hash table's bucket chains as they stand after the insertion. */
    method Get(key: Key, layout: seq<seq<Key>>) returns (id: nat)
      requires IsLayout(layout, locks.Keys + {key})
      requires next !in refs
      modifies this
      ensures GetStep(old(State()), key, State(), id)
    {
      if key in locks {
        if locks[key] in refs {
          id := locks[key];
          refs := refs[id := refs[id] + 1];
          return;
        }
        id := next;
        next := next + 1;
        refs := refs[id := 1];
        locks := locks[key := id];
        return;
      }
      id := next;
      next := next + 1;
      refs := refs[id := 1];
      locks := locks[key := id];
      if |locks| > WATERMARK {
        var dead := Sweep(layout);
        locks := map k | k in locks && k !in dead :: locks[k];
      }
    }

    /** A shared_ptr to the mutex goes away. */
    method Drop(id: nat)
      requires id in refs && refs[id] > 0
      modifies this`refs
      ensures DropStep(old(State()), State(), id)
    {
      refs := if refs[id] == 1 then refs - {id} else refs[id := refs[id] - 1];
    }

    /** Every key of the chain whose mutex is gone has been collected. */
    ghost predicate AllExpiredIn(chain: seq<Key>, dead: seq<Key>)
      reads this
    {
      forall k | k in chain && k in locks && locks[k] !in refs :: k in dead
    }

    /** Collects expired keys from a few buckets, starting at the rotating cursor. */
    method Sweep(layout: seq<seq<Key>>) returns (dead: seq<Key>)
      requires IsLayout(layout, locks.Keys)
      modifies this`sweepPos
      ensures |dead| <= SWEEP_MAX
      ensures forall k | k in dead :: k in locks && locks[k] !in refs
      ensures |dead| < SWEEP_MAX ==>
                && sweepPos == old(sweepPos) + SWEEP_BUCKETS
                && forall p | old(sweepPos) <= p < sweepPos :: AllExpiredIn(layout[p % |layout|], dead)
    {
      dead := [];
      var b := 0;
      while b < SWEEP_BUCKETS && |dead| < SWEEP_MAX
        invariant 0 <= b <= SWEEP_BUCKETS && sweepPos == old(sweepPos) + b && |dead| <= SWEEP_MAX
        invariant forall k | k in dead :: k in locks && locks[k] !in refs
        invariant |dead| < SWEEP_MAX ==>
                    forall p | old(sweepPos) <= p < sweepPos :: AllExpiredIn(layout[p % |layout|], dead)
      {
        ghost var before := dead;
        var bucket := layout[sweepPos % |layout|];
        sweepPos := sweepPos + 1;
        var i := 0;
        while i < |bucket| && |dead| < SWEEP_MAX
          invariant 0 <= i <= |bucket| && |dead| <= SWEEP_MAX && before <= dead
          invariant forall k | k in dead :: k in locks && locks[k] !in refs
          invariant AllExpiredIn(bucket[..i], dead)
        {
          if locks[bucket[i]] !in refs { dead := dead + [bucket[i]]; }
          i := i + 1;
        }
        assert i == |bucket| ==> bucket[..i] == bucket;
        b := b + 1;
      }
    }
  }

  // ---- runs ------------------------------------------------------------------------

  datatype Event = Got(key: Key, id: nat) | Dropped(id: nat)

  ghost predicate Step(r: Registry, e: Event, r': Registry) {
    match e
    case Got(key, id) => GetStep(r, key, r', id)
    case Dropped(id) => DropStep(r, r', id)
  }

  ghost predicate IsRun(run: seq<Registry>, events: seq<Event>) {
    && |run| == |events| + 1
    && run[0] == Registry(map[], map[], 0)
    && forall i | 0 <= i < |events| :: Step(run[i], events[i], run[i + 1])
  }

  /** The key a mutex was minted for: the last key some Get answered with it. */
  ghost function OwnerAfter(events: seq<Event>): map<nat, Key> {
    if events == [] then map[]
    else
      var before := OwnerAfter(events[..|events| - 1]);
      match events[|events| - 1]
      case Got(key, id) => before[id := key]
      case Dropped(_) => before
  }

  ghost function Own(owner: map<nat, Key>, id: nat, key: Key): map<nat, Key> {
    owner[id := key]
  }

  /** Every live mutex is the one its key's slot names. */
  ghost predicate Tracked(r: Registry, owner: map<nat, Key>) {
    && (forall id | id in r.refs :: r.refs[id] > 0 && id < r.next && id in owner)
    && (forall id | id in r.refs :: owner[id] in r.locks && r.locks[owner[id]] == id)
    && (forall k | k in r.locks :: r.locks[k] < r.next)
    && (forall k | k in r.locks && r.locks[k] in r.refs :: owner[r.locks[k]] == k)
  }

  lemma GetIsTracked(r: Registry, key: Key, r': Registry, id: nat, owner: map<nat, Key>)
    requires Tracked(r, owner) && GetStep(r, key, r', id)
    ensures Tracked(r', Own(owner, id, key))
  {
  }

  lemma DropIsTracked(r: Registry, r': Registry, id: nat, owner: map<nat, Key>)
    requires Tracked(r, owner) && DropStep(r, r', id)
    ensures Tracked(r', owner)
  {
  }

  lemma {:induction false} RunsAreTracked(run: seq<Registry>, events: seq<Event>, n: nat)
    requires IsRun(run, events) && n < |run|
    ensures Tracked(run[n], OwnerAfter(events[..n]))
  {
    if n > 0 {
      RunsAreTracked(run, events, n - 1);
      assert events[..n][..n - 1] == events[..n - 1];
      assert Step(run[n - 1], events[n - 1], run[n]);
      var owner := OwnerAfter(events[..n - 1]);
      match events[n - 1]
      case Got(key, id) => GetIsTracked(run[n - 1], key, run[n], id, owner);
      case Dropped(id) => DropIsTracked(run[n - 1], run[n], id, owner);
    }
  }

  /** While any holder keeps a mutex obtained for `key`, every Get for that key returns that
      very mutex, however many slots were reused or swept in between. */
  lemma OneLiveMutexPerObject(run: seq<Registry>, events: seq<Event>, i: nat, j: nat)
    requires IsRun(run, events) && i < j < |events|
    requires events[i].Got? && events[j].Got? && events[i].key == events[j].key
    requires forall n | i < n <= j :: events[i].id in run[n].refs
    ensures events[j].id == events[i].id
  {
    RunsAreTracked(run, events, j);
    OwnerIsStable(run, events, i, j);
    assert Step(run[j], events[j], run[j + 1]);
  }

  /** As long as a mutex stays alive it keeps serving the key it was handed out for. */
  lemma {:induction false} OwnerIsStable(run: seq<Registry>, events: seq<Event>, i: nat, j: nat)
    requires IsRun(run, events) && i < j <= |events| && events[i].Got?
    requires forall n | i < n <= j :: events[i].id in run[n].refs
    ensures events[i].id in OwnerAfter(events[..j]) && OwnerAfter(events[..j])[events[i].id] == events[i].key
  {
    assert events[..j][..j - 1] == events[..j - 1];
    if i + 1 < j {
      OwnerIsStable(run, events, i, j - 1);
      RunsAreTracked(run, events, j - 1);
      assert Step(run[j - 1], events[j - 1], run[j]);
    }
  }

  /** Live mutexes of different keys differ, so locking one object never blocks another. */
  lemma DistinctObjectsDistinctMutexes(run: seq<Registry>, events: seq<Event>, n: nat, a: Key, b: Key)
    requires IsRun(run, events) && n < |run| && a != b
    requires a in run[n].locks && b in run[n].locks && run[n].locks[a] in run[n].refs
    ensures run[n].locks[a] != run[n].locks[b]
  {
    RunsAreTracked(run, events, n);
  }

  lemma NextIsFree(r: Registry, owner: map<nat, Key>)
    requires Tracked(r, owner)
    ensures r.next !in r.refs
  {
  }

  ghost predicate Serves(r: Registry, key: Key, id: nat) {
    key in r.locks && r.locks[key] == id && id in r.refs
  }

  lemma GetServes(r: Registry, key: Key, r': Registry, id: nat, owner: map<nat, Key>)
    requires Tracked(r, owner) && GetStep(r, key, r', id)
    ensures Serves(r', key, id)
    ensures forall k, other | Serves(r, k, other) ::
              Serves(r', k, other) && (id == other <==> key == k) && (id == other ==> r'.refs[id] >= 2)
  {
  }

  /** Two mutexes taken one after the other are the same exactly when their objects are. */
  lemma SameMutexIffSameObject(r0: Registry, a: Key, r1: Registry, idA: nat, b: Key, r2: Registry, idB: nat,
                               owner: map<nat, Key>)
    requires Tracked(r0, owner) && GetStep(r0, a, r1, idA) && GetStep(r1, b, r2, idB)
    ensures Tracked(r2, Own(Own(owner, idA, a), idB, b)) && Serves(r2, a, idA) && Serves(r2, b, idB)
    ensures (idA == idB <==> a == b) && (idA == idB ==> r2.refs[idB] >= 2)
  {
    hide Tracked, GetStep, Serves;
    GetIsTracked(r0, a, r1, idA, owner);
    GetServes(r0, a, r1, idA, owner);
    GetIsTracked(r1, b, r2, idB, Own(owner, idA, a));
    GetServes(r1, b, r2, idB, Own(owner, idA, a));
  }

  /** Letting go of one of two references keeps the mutex. */
  lemma DropServes(r: Registry, r': Registry, id: nat, key: Key)
    requires DropStep(r, r', id) && Serves(r, key, id) && r.refs[id] >= 2
    ensures Serves(r', key, id)
  {
  }
}
