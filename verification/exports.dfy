/** The published export set: ExportSet, ExportSetBuilder and ExportTable::apply of
    src/core/config.cpp.

    Entries are objects shared between successive sets; apply() changes their settings in
    place.  A backend is named by the configuration it was made from.  Parsing a client CIDR
    is a foreign call, so `cidrOk` says which texts it accepts. */
module Exports {
  import opened Config
  import opened Ordering

  datatype Handle = Null | Backend(name: string, values: map<string, string>, path: string, fsid: nat)

  class ExportEntry {
    const path: string
    const fsid: nat
    const backend: Handle
    var dyn: Dynamic
    var nodes: seq<string>

    constructor (cfg: ExportConfig, backend: Handle)
      ensures path == NormalizePath(cfg.path) && fsid == cfg.fsid && this.backend == backend
      ensures dyn == cfg.dyn && nodes == cfg.nodes
    {
      path, fsid, this.backend := NormalizePath(cfg.path), cfg.fsid, backend;
      dyn, nodes := cfg.dyn, cfg.nodes;
    }
  }

  datatype ExportSet = ExportSet(generation: nat, epoch: nat, entries: seq<ExportEntry>)

  datatype Plan = Plan(add: seq<ExportConfig>, update: seq<ExportConfig>, remove: seq<nat>)

  predicate Sorted(entries: seq<ExportEntry>) {
    forall i, j | 0 <= i < j < |entries| :: entries[i].fsid < entries[j].fsid
  }

  predicate DistinctFsids(entries: seq<ExportEntry>) {
    forall i, j | 0 <= i < j < |entries| :: entries[i].fsid != entries[j].fsid
  }

  predicate Listed(entries: seq<ExportEntry>, fsid: nat) {
    exists i :: 0 <= i < |entries| && entries[i].fsid == fsid
  }

  /** Binary search; on a sorted set it finds exactly what a linear search would. */
  method ByFsid(entries: seq<ExportEntry>, fsid: nat) returns (i: int)
    requires Sorted(entries)
    ensures i >= 0 ==> i < |entries| && entries[i].fsid == fsid
    ensures i < 0 ==> !Listed(entries, fsid)
  {
    var lo, hi := 0, |entries|;
    while lo < hi
      invariant 0 <= lo <= hi <= |entries|
      invariant forall j | 0 <= j < lo :: entries[j].fsid < fsid
      invariant forall j | hi <= j < |entries| :: entries[j].fsid >= fsid
    {
      var mid := (lo + hi) / 2;
      if entries[mid].fsid < fsid { lo := mid + 1; } else { hi := mid; }
    }
    return if lo < |entries| && entries[lo].fsid == fsid then lo else -1;
  }

  // ---- assembling the next set -----------------------------------------------------

  function FsidOf(e: ExportEntry): nat {
    e.fsid
  }

  predicate AllCidrs(cfg: ExportConfig, cidrOk: string -> bool) {
    forall c | c in cfg.dyn.clients :: cidrOk(c)
  }

  class ExportSetBuilder {
    var entries: seq<ExportEntry>

    constructor ()
      ensures entries == []
    {
      entries := [];
    }

    method Keep(e: ExportEntry)
      modifies this
      ensures entries == old(entries) + [e]
    {
      entries := entries + [e];
    }

    method Add(cfg: ExportConfig, backend: Handle, cidrOk: string -> bool) returns (ok: bool)
      modifies this
      ensures ok <==> backend != Null && cfg.fsid != 0 && !Listed(old(entries), cfg.fsid) && AllCidrs(cfg, cidrOk)
      ensures !ok ==> entries == old(entries)
      ensures ok ==> |entries| == |old(entries)| + 1 && entries[..|old(entries)|] == old(entries)
      ensures ok ==> fresh(entries[|old(entries)|]) && BuiltFrom(entries[|old(entries)|], cfg, backend)
    {
      if backend == Null || cfg.fsid == 0 { return false; }
      for i := 0 to |entries|
        invariant forall j | 0 <= j < i :: entries[j].fsid != cfg.fsid
      {
        if entries[i].fsid == cfg.fsid { return false; }
      }
      if !AllCidrs(cfg, cidrOk) { return false; }
      var e := new ExportEntry(cfg, backend);
      entries := entries + [e];
      return true;
    }
  }

  ghost predicate BuiltFrom(e: ExportEntry, cfg: ExportConfig, backend: Handle)
    reads e
  {
    && e.path == NormalizePath(cfg.path) && e.fsid == cfg.fsid && e.backend == backend
    && e.dyn == cfg.dyn && e.nodes == cfg.nodes
  }

  ghost predicate Built(added: seq<ExportEntry>, add: seq<ExportConfig>, started: seq<Handle>)
    reads added
  {
    |added| == |add| == |started| && forall i | 0 <= i < |added| :: BuiltFrom(added[i], add[i], started[i])
  }

  // ---- validating a plan -----------------------------------------------------------

  predicate Unique(xs: seq<nat>) {
    forall i, j | 0 <= i < j < |xs| :: xs[i] != xs[j]
  }

  function FsidsOf(cfgs: seq<ExportConfig>): (r: seq<nat>)
    ensures |r| == |cfgs| && forall i | 0 <= i < |r| :: r[i] == cfgs[i].fsid
  {
    seq(|cfgs|, i requires 0 <= i < |cfgs| => cfgs[i].fsid)
  }

  predicate RemovesOk(entries: seq<ExportEntry>, remove: seq<nat>) {
    Unique(remove) && forall f | f in remove :: Listed(entries, f)
  }

  /** The update names a listed export that the plan keeps, and does not move its path. */
  predicate UpdateOk(entries: seq<ExportEntry>, cfg: ExportConfig, remove: seq<nat>, cidrOk: string -> bool) {
    && Listed(entries, cfg.fsid) && cfg.fsid !in remove
    && (forall e | e in entries && e.fsid == cfg.fsid :: NormalizePath(cfg.path) == e.path)
    && AllCidrs(cfg, cidrOk)
  }

  /** The addition names a new export, or one the plan also removes. */
  predicate AddOk(entries: seq<ExportEntry>, cfg: ExportConfig, plan: Plan, cidrOk: string -> bool) {
    && cfg.fsid != 0 && cfg.fsid !in FsidsOf(plan.update)
    && (Listed(entries, cfg.fsid) ==> cfg.fsid in plan.remove)
    && AllCidrs(cfg, cidrOk)
  }

  predicate PlanOk(entries: seq<ExportEntry>, plan: Plan, started: seq<Handle>, cidrOk: string -> bool) {
    && |started| == |plan.add| && (forall b | b in started :: b != Null)
    && RemovesOk(entries, plan.remove)
    && Unique(FsidsOf(plan.update)) && (forall cfg | cfg in plan.update :: UpdateOk(entries, cfg, plan.remove, cidrOk))
    && Unique(FsidsOf(plan.add)) && (forall cfg | cfg in plan.add :: AddOk(entries, cfg, plan, cidrOk))
  }

  method CheckRemoves(entries: seq<ExportEntry>, remove: seq<nat>) returns (ok: bool, removed: set<nat>)
    requires Sorted(entries)
    ensures ok <==> RemovesOk(entries, remove)
    ensures ok ==> forall f :: f in removed <==> f in remove
  {
    removed := {};
    for i := 0 to |remove|
      invariant forall f :: f in removed <==> f in remove[..i]
      invariant Unique(remove[..i]) && forall f | f in remove[..i] :: Listed(entries, f)
    {
      var at := ByFsid(entries, remove[i]);
      if at < 0 || remove[i] in removed { return false, removed; }
      removed := removed + {remove[i]};
      assert remove[..i + 1] == remove[..i] + [remove[i]];
    }
    assert remove[..|remove|] == remove;
    return true, removed;
  }

  method CheckUpdates(entries: seq<ExportEntry>, update: seq<ExportConfig>, removed: set<nat>, ghost remove: seq<nat>,
                      cidrOk: string -> bool) returns (ok: bool, updated: set<nat>)
    requires Sorted(entries) && forall f :: f in removed <==> f in remove
    ensures ok <==> Unique(FsidsOf(update)) && forall cfg | cfg in update :: UpdateOk(entries, cfg, remove, cidrOk)
    ensures ok ==> forall f :: f in updated <==> f in FsidsOf(update)
  {
    updated := {};
    var ids := FsidsOf(update);
    for i := 0 to |update|
      invariant forall f :: f in updated <==> f in ids[..i]
      invariant Unique(ids[..i])
      invariant forall j | 0 <= j < i :: UpdateOk(entries, update[j], remove, cidrOk)
    {
      var cfg := update[i];
      var at := ByFsid(entries, cfg.fsid);
      if cfg.fsid in updated { return false, updated; }
      assert at >= 0 ==> forall e | e in entries && e.fsid == cfg.fsid :: e == entries[at];
      if at < 0 || cfg.fsid in removed || NormalizePath(cfg.path) != entries[at].path || !AllCidrs(cfg, cidrOk) {
        assert at >= 0 ==> entries[at] in entries;
        assert !UpdateOk(entries, update[i], remove, cidrOk);
        return false, updated;
      }
      updated := updated + {cfg.fsid};
      assert ids[..i + 1] == ids[..i] + [cfg.fsid];
    }
    assert ids[..|ids|] == ids;
    return true, updated;
  }

  method CheckAdds(entries: seq<ExportEntry>, plan: Plan, removed: set<nat>, updated: set<nat>,
                   cidrOk: string -> bool) returns (ok: bool)
    requires Sorted(entries)
    requires forall f :: f in removed <==> f in plan.remove
    requires forall f :: f in updated <==> f in FsidsOf(plan.update)
    ensures ok <==> Unique(FsidsOf(plan.add)) && forall cfg | cfg in plan.add :: AddOk(entries, cfg, plan, cidrOk)
  {
    var added: set<nat> := {};
    var ids := FsidsOf(plan.add);
    for i := 0 to |plan.add|
      invariant forall f :: f in added <==> f in ids[..i]
      invariant Unique(ids[..i])
      invariant forall j | 0 <= j < i :: AddOk(entries, plan.add[j], plan, cidrOk)
    {
      var cfg := plan.add[i];
      if cfg.fsid in added { return false; }
      var at := ByFsid(entries, cfg.fsid);
      if cfg.fsid == 0 || cfg.fsid in updated || (at >= 0 && cfg.fsid !in removed) || !AllCidrs(cfg, cidrOk) {
        assert !AddOk(entries, plan.add[i], plan, cidrOk);
        return false;
      }
      added := added + {cfg.fsid};
      assert ids[..i + 1] == ids[..i] + [cfg.fsid];
    }
    assert ids[..|ids|] == ids;
    return true;
  }

  // ---- the table -------------------------------------------------------------------

  /** What a client sees of an export. */
  datatype View = View(path: string, backend: Handle, dyn: Dynamic, nodes: seq<string>)

  ghost function Look(e: ExportEntry): View
    reads e
  {
    View(e.path, e.backend, e.dyn, e.nodes)
  }

  ghost function Fsids(entries: seq<ExportEntry>): set<nat> {
    set e | e in entries :: e.fsid
  }

  ghost function EntryOf(entries: seq<ExportEntry>, fsid: nat): (e: ExportEntry)
    requires Listed(entries, fsid)
    ensures e in entries && e.fsid == fsid
  {
    var i :| 0 <= i < |entries| && entries[i].fsid == fsid;
    entries[i]
  }

  /** The served exports by fsid. */
  ghost function Served(entries: seq<ExportEntry>): map<nat, View>
    reads entries
  {
    map f | f in Fsids(entries) :: Look(EntryOf(entries, f))
  }

  function IndexOf(xs: seq<nat>, x: nat): (i: nat)
    requires x in xs
    ensures i < |xs| && xs[i] == x
  {
    if xs[0] == x then 0 else 1 + IndexOf(xs[1..], x)
  }

  /** The effect of a plan on the served exports: replaced or added ones come from their
      configuration, updated ones keep path and backend, the rest is untouched. */
  function Applied(served: map<nat, View>, plan: Plan, started: seq<Handle>): map<nat, View>
    requires |started| == |plan.add|
  {
    map f | f in served.Keys + (set g | g in FsidsOf(plan.add)) && (f in FsidsOf(plan.add) || f !in plan.remove) ::
      if f in FsidsOf(plan.add) then
        var i := IndexOf(FsidsOf(plan.add), f);
        var cfg := plan.add[i];
        View(NormalizePath(cfg.path), started[i], cfg.dyn, cfg.nodes)
      else Updated(served[f], f, plan.update)
  }

  /** An export after a series of in-place updates: path and backend stay. */
  function Updated(v: View, fsid: nat, update: seq<ExportConfig>): (r: View)
    ensures r.path == v.path && r.backend == v.backend
    decreases |update|
  {
    if update == [] then v
    else
      var n := |update| - 1;
      var p := Updated(v, fsid, update[..n]);
      if update[n].fsid == fsid then p.(dyn := update[n].dyn, nodes := update[n].nodes) else p
  }

  /** The entries whose fsid is listed (or, with `keep` false, not listed), in order. */
  function Filter(entries: seq<ExportEntry>, fsids: seq<nat>, keep: bool): seq<ExportEntry> {
    if entries == [] then []
    else
      var n := |entries| - 1;
      Filter(entries[..n], fsids, keep) + if (entries[n].fsid in fsids) == keep then [entries[n]] else []
  }

  lemma {:induction false} FilterMembers(entries: seq<ExportEntry>, fsids: seq<nat>, keep: bool)
    ensures forall e | e in entries && (e.fsid in fsids) == keep :: e in Filter(entries, fsids, keep)
    ensures forall e | e in Filter(entries, fsids, keep) :: e in entries && (e.fsid in fsids) == keep
  {
    if entries != [] {
      var n := |entries| - 1;
      FilterMembers(entries[..n], fsids, keep);
      assert entries == entries[..n] + [entries[n]];
    }
  }

  lemma {:induction false} FilterSorted(entries: seq<ExportEntry>, fsids: seq<nat>, keep: bool)
    requires Sorted(entries)
    ensures Sorted(Filter(entries, fsids, keep))
  {
    if entries != [] {
      var n := |entries| - 1;
      FilterSorted(entries[..n], fsids, keep);
      FilterMembers(entries[..n], fsids, keep);
      var rest := Filter(entries[..n], fsids, keep);
      assert forall i | 0 <= i < |rest| :: rest[i] in rest;
      assert forall e | e in entries[..n] :: e.fsid < entries[n].fsid;
    }
  }

  lemma FilterNext(entries: seq<ExportEntry>, i: nat, fsids: seq<nat>, keep: bool)
    requires i < |entries|
    ensures Filter(entries[..i + 1], fsids, keep)
         == Filter(entries[..i], fsids, keep) + if (entries[i].fsid in fsids) == keep then [entries[i]] else []
  {
    assert entries[..i + 1][..i] == entries[..i];
  }

  /** The entries that only the queue owns, or the others, in queue order. */
  function Unshared(es: seq<ExportEntry>, uses: ExportEntry -> nat, yes: bool): seq<ExportEntry> {
    if es == [] then []
    else
      var n := |es| - 1;
      Unshared(es[..n], uses, yes) + if (uses(es[n]) == 1) == yes then [es[n]] else []
  }

  lemma {:induction false} UnsharedMeans(es: seq<ExportEntry>, uses: ExportEntry -> nat)
    ensures multiset(Unshared(es, uses, true)) + multiset(Unshared(es, uses, false)) == multiset(es)
    ensures forall e | e in Unshared(es, uses, true) :: uses(e) == 1
    ensures forall e | e in Unshared(es, uses, false) :: uses(e) != 1
  {
    if es != [] {
      var n := |es| - 1;
      UnsharedMeans(es[..n], uses);
      assert es == es[..n] + [es[n]];
    }
  }

  method SplitUnshared(es: seq<ExportEntry>, uses: ExportEntry -> nat) returns (out: seq<ExportEntry>, kept: seq<ExportEntry>)
    ensures out == Unshared(es, uses, true) && kept == Unshared(es, uses, false)
  {
    out, kept := [], [];
    for i := 0 to |es|
      invariant out == Unshared(es[..i], uses, true) && kept == Unshared(es[..i], uses, false)
    {
      assert es[..i + 1][..i] == es[..i];
      if uses(es[i]) == 1 { out := out + [es[i]]; } else { kept := kept + [es[i]]; }
    }
    assert es[..|es|] == es;
  }

  lemma NoUpdates(was: map<nat, View>)
    ensures forall f | f in was :: Updated(was[f], f, []) == was[f]
  {
  }

  lemma UpdatedNext(was: map<nat, View>, update: seq<ExportConfig>, i: nat)
    requires i < |update|
    ensures forall f | f in was ::
              var v := Updated(was[f], f, update[..i]);
              Updated(was[f], f, update[..i + 1])
              == if update[i].fsid == f then v.(dyn := update[i].dyn, nodes := update[i].nodes) else v
  {
    assert update[..i + 1][..i] == update[..i];
  }

  class ExportTable {
    var current: ExportSet
    var retired: seq<ExportEntry>

    ghost predicate Valid()
      reads this
    {
      Sorted(current.entries)
    }

    constructor ()
      ensures Valid() && current == ExportSet(0, 1, []) && retired == []
    {
      current, retired := ExportSet(0, 1, []), [];
    }

    /** The kept entries go into the next set as the same objects, the others retire. */
    method KeepEntries(builder: ExportSetBuilder, removed: set<nat>, ghost remove: seq<nat>)
      returns (retiring: seq<ExportEntry>)
      requires builder.entries == [] && forall f :: f in removed <==> f in remove
      modifies builder
      ensures builder.entries == Filter(current.entries, remove, false)
      ensures retiring == Filter(current.entries, remove, true)
    {
      retiring := [];
      for i := 0 to |current.entries|
        invariant builder.entries == Filter(current.entries[..i], remove, false)
        invariant retiring == Filter(current.entries[..i], remove, true)
      {
        var e := current.entries[i];
        FilterNext(current.entries, i, remove, true);
        FilterNext(current.entries, i, remove, false);
        if e.fsid in removed { retiring := retiring + [e]; } else { builder.Keep(e); }
      }
      assert current.entries[..|current.entries|] == current.entries;
    }

    /** update_entry on the live entry the configuration names. */
    method UpdateEntry(cfg: ExportConfig)
      requires Valid() && Listed(current.entries, cfg.fsid)
      modifies current.entries
      ensures forall e | e in current.entries :: Look(e) ==
                if e.fsid == cfg.fsid then old(Look(e)).(dyn := cfg.dyn, nodes := cfg.nodes) else old(Look(e))
    {
      var at := ByFsid(current.entries, cfg.fsid);
      var entry := current.entries[at];
      OthersDiffer(current.entries, at);
      entry.dyn, entry.nodes := cfg.dyn, cfg.nodes;
    }

    method UpdateEntries(update: seq<ExportConfig>, ghost was: map<nat, View>)
      requires Valid() && forall cfg | cfg in update :: Listed(current.entries, cfg.fsid)
      requires was == Served(current.entries)
      modifies current.entries
      ensures Refreshed(current.entries, was, update)
    {
      ServedLooks(current.entries);
      assert update[..0] == [];
      NoUpdates(was);
      hide Served, Updated, Refreshed, Listed;
      for i := 0 to |update|
        invariant Refreshed(current.entries, was, update[..i])
      {
        assert update[i] in update;
        UpdateNext(update, i, was);
      }
      assert update[..|update|] == update;
    }

    method UpdateNext(update: seq<ExportConfig>, i: nat, ghost was: map<nat, View>)
      requires Valid() && i < |update| && Listed(current.entries, update[i].fsid)
      requires Refreshed(current.entries, was, update[..i])
      modifies current.entries
      ensures Refreshed(current.entries, was, update[..i + 1])
    {
      hide Updated, Look;
      UpdatedNext(was, update, i);
      UpdateEntry(update[i]);
    }

    /** take_retired: hands out the queued entries that nothing else refers to. */
    method TakeRetired(uses: ExportEntry -> nat) returns (out: seq<ExportEntry>)
      modifies this
      ensures current == old(current)
      ensures multiset(out) + multiset(retired) == multiset(old(retired))
      ensures (forall e | e in out :: uses(e) == 1) && (forall e | e in retired :: uses(e) != 1)
      ensures out == Unshared(old(retired), uses, true) && retired == Unshared(old(retired), uses, false)
    {
      UnsharedMeans(retired, uses);
      out, retired := SplitUnshared(retired, uses);
    }

    /** Publishes the set after `plan`, or changes nothing at all. */
    method Apply(plan: Plan, started: seq<Handle>, epoch: nat, cidrOk: string -> bool)
      returns (r: Result<ExportSet>, left: seq<Handle>)
      requires Valid()
      modifies this, current.entries
      ensures Valid()
      ensures r.Ok? <==> PlanOk(old(current.entries), plan, started, cidrOk)
      ensures r.Err? ==> current == old(current) && retired == old(retired) && left == started
      ensures r.Err? ==> forall e | e in old(current.entries) :: unchanged(e)
      ensures r.Ok? ==> r.value == current && left == []
      ensures r.Ok? ==> current.generation == old(current.generation) + 1 && current.epoch == epoch
      ensures r.Ok? ==> retired == old(retired) + Filter(old(current.entries), plan.remove, true)
      ensures r.Ok? ==> forall e | e in old(current.entries) && e.fsid !in plan.remove :: e in current.entries
      ensures r.Ok? ==> forall e | e in current.entries ::
                          if e in old(current.entries) then e.fsid !in plan.remove else fresh(e)
      ensures r.Ok? ==> Served(current.entries) == Applied(old(Served(current.entries)), plan, started)
    {
      left := started;
      var ok, removed := Validate(plan, started, cidrOk);
      if !ok { return Err, left; }
      Commit(plan, started, removed, epoch, cidrOk);
      return Ok(current), [];
    }

    method Commit(plan: Plan, started: seq<Handle>, removed: set<nat>, epoch: nat, cidrOk: string -> bool)
      requires Valid() && PlanOk(current.entries, plan, started, cidrOk)
      requires forall f :: f in removed <==> f in plan.remove
      modifies this, current.entries
      ensures Valid() && current.generation == old(current.generation) + 1 && current.epoch == epoch
      ensures retired == old(retired) + Filter(old(current.entries), plan.remove, true)
      ensures forall e | e in old(current.entries) && e.fsid !in plan.remove :: e in current.entries
      ensures forall e | e in current.entries :: if e in old(current.entries) then e.fsid !in plan.remove else fresh(e)
      ensures Served(current.entries) == Applied(old(Served(current.entries)), plan, started)
    {
      ghost var was := Served(current.entries);
      var entries, retiring, added := NextEntries(plan, started, removed, cidrOk);
      UpdateKept(plan, started, added, entries, was);
      Publish(entries, retiring, epoch);
    }

    /** The new set becomes the current one; what it lists is not touched. */
    method Publish(entries: seq<ExportEntry>, retiring: seq<ExportEntry>, epoch: nat)
      modifies this
      ensures current == ExportSet(old(current.generation) + 1, epoch, entries)
      ensures retired == old(retired) + retiring && Served(entries) == old(Served(entries))
    {
      current := ExportSet(current.generation + 1, epoch, entries);
      retired := retired + retiring;
    }

    method UpdateKept(plan: Plan, ghost started: seq<Handle>, ghost added: seq<ExportEntry>,
                      ghost entries: seq<ExportEntry>, ghost was: map<nat, View>)
      requires Valid() && forall cfg | cfg in plan.update :: Listed(current.entries, cfg.fsid)
      requires Sorted(entries) && NextOf(current.entries, plan.remove, added, entries)
      requires Built(added, plan.add, started) && forall e | e in added :: e !in current.entries
      requires was == Served(current.entries)
      modifies current.entries
      ensures |started| == |plan.add| && Served(entries) == Applied(was, plan, started)
    {
      UpdateEntries(plan.update, was);
      ServedAfter(current.entries, was, plan, started, added, entries);
    }

    /** The entries of the next set in fsid order, and the ones that leave. */
    method NextEntries(plan: Plan, started: seq<Handle>, removed: set<nat>, cidrOk: string -> bool)
      returns (entries: seq<ExportEntry>, retiring: seq<ExportEntry>, ghost added: seq<ExportEntry>)
      requires Valid() && PlanOk(current.entries, plan, started, cidrOk)
      requires forall f :: f in removed <==> f in plan.remove
      ensures Sorted(entries) && NextOf(current.entries, plan.remove, added, entries)
      ensures retiring == Filter(current.entries, plan.remove, true)
      ensures Built(added, plan.add, started) && fresh(added)
    {
      var builder := new ExportSetBuilder();
      retiring := KeepEntries(builder, removed, plan.remove);
      FilterMembers(current.entries, plan.remove, false);
      added := AddEntries(builder, current.entries, plan, started, cidrOk);
      NextIsDistinct(current.entries, plan, started, added, cidrOk);
      NextMembers(current.entries, plan.remove, added);
      SortSorts(builder.entries, FsidOf);
      entries := Sort(builder.entries, FsidOf);
    }

    /** Everything is checked before anything is touched. */
    method Validate(plan: Plan, started: seq<Handle>, cidrOk: string -> bool) returns (ok: bool, removed: set<nat>)
      requires Valid()
      ensures ok <==> PlanOk(current.entries, plan, started, cidrOk)
      ensures ok ==> forall f :: f in removed <==> f in plan.remove
    {
      removed := {};
      if |started| != |plan.add| || Null in started { return false, removed; }
      ok, removed := CheckRemoves(current.entries, plan.remove);
      if !ok { return; }
      var updated;
      ok, updated := CheckUpdates(current.entries, plan.update, removed, plan.remove, cidrOk);
      if !ok { return; }
      ok := CheckAdds(current.entries, plan, removed, updated, cidrOk);
    }
  }

  /** The additions are fresh entries over the started backends.  After validation no single
      addition can be refused any more. */
  method AddEntries(builder: ExportSetBuilder, ghost before: seq<ExportEntry>, plan: Plan, started: seq<Handle>,
                    cidrOk: string -> bool)
    returns (ghost added: seq<ExportEntry>)
    requires PlanOk(before, plan, started, cidrOk)
    requires forall e | e in builder.entries :: e in before && e.fsid !in plan.remove
    modifies builder
    ensures builder.entries == old(builder.entries) + added
    ensures Built(added, plan.add, started) && fresh(added)
  {
    added := [];
    for i := 0 to |plan.add|
      invariant builder.entries == old(builder.entries) + added
      invariant BuiltSoFar(added, plan.add, started, i) && fresh(added)
    {
      NotYetListed(before, plan, started, cidrOk, old(builder.entries), added, i);
      var made := builder.Add(plan.add[i], started[i], cidrOk);
      assert made;
      added := added + [builder.entries[|old(builder.entries)| + i]];
    }
  }

  ghost predicate BuiltSoFar(added: seq<ExportEntry>, add: seq<ExportConfig>, started: seq<Handle>, n: nat)
    reads added
  {
    |added| == n <= |add| == |started| && forall i | 0 <= i < n :: BuiltFrom(added[i], add[i], started[i])
  }

  lemma NotYetListed(before: seq<ExportEntry>, plan: Plan, started: seq<Handle>, cidrOk: string -> bool,
                     kept: seq<ExportEntry>, added: seq<ExportEntry>, i: nat)
    requires PlanOk(before, plan, started, cidrOk) && i < |plan.add|
    requires forall e | e in kept :: e in before && e.fsid !in plan.remove
    requires BuiltSoFar(added, plan.add, started, i)
    ensures started[i] != Null && plan.add[i].fsid != 0 && AllCidrs(plan.add[i], cidrOk)
    ensures !Listed(kept + added, plan.add[i].fsid)
  {
    assert started[i] in started && AddOk(before, plan.add[i], plan, cidrOk);
    forall k | 0 <= k < |kept|
      ensures kept[k].fsid != plan.add[i].fsid
    {
      assert kept[k] in kept;
      assert Listed(before, kept[k].fsid);
    }
    forall j | 0 <= j < i
      ensures added[j].fsid != plan.add[i].fsid
    {
      assert FsidsOf(plan.add)[j] != FsidsOf(plan.add)[i];
    }
  }

  /** `entries` are the additions and the kept entries of `before`. */
  ghost predicate NextOf(before: seq<ExportEntry>, remove: seq<nat>, added: seq<ExportEntry>, entries: seq<ExportEntry>) {
    && (forall e | e in entries :: e in added || (e in before && e.fsid !in remove))
    && (forall e | e in added :: e in entries)
    && (forall e | e in before && e.fsid !in remove :: e in entries)
  }

  lemma NextMembers(before: seq<ExportEntry>, remove: seq<nat>, added: seq<ExportEntry>)
    ensures NextOf(before, remove, added, Filter(before, remove, false) + added)
  {
    FilterMembers(before, remove, false);
  }

  lemma ServedAt(entries: seq<ExportEntry>, e: ExportEntry)
    requires Sorted(entries) && e in entries
    ensures e.fsid in Served(entries) && Served(entries)[e.fsid] == Look(e)
  {
    var at :| 0 <= at < |entries| && entries[at] == e;
    OthersDiffer(entries, at);
  }

  lemma ServedLooks(entries: seq<ExportEntry>)
    requires Sorted(entries)
    ensures forall e | e in entries :: e.fsid in Served(entries) && Served(entries)[e.fsid] == Look(e)
  {
    forall e | e in entries
      ensures e.fsid in Served(entries) && Served(entries)[e.fsid] == Look(e)
    {
      ServedAt(entries, e);
    }
  }

  lemma NextIsDistinct(before: seq<ExportEntry>, plan: Plan, started: seq<Handle>, added: seq<ExportEntry>,
                       cidrOk: string -> bool)
    requires Sorted(before) && PlanOk(before, plan, started, cidrOk)
    requires |added| == |plan.add| && forall i | 0 <= i < |added| :: added[i].fsid == plan.add[i].fsid
    ensures DistinctFsids(Filter(before, plan.remove, false) + added)
  {
    var kept := Filter(before, plan.remove, false);
    FilterSorted(before, plan.remove, false);
    FilterMembers(before, plan.remove, false);
    forall i, j | 0 <= i < |kept| && 0 <= j < |added|
      ensures kept[i].fsid != added[j].fsid
    {
      assert kept[i] in kept;
      assert AddOk(before, plan.add[j], plan, cidrOk);
      assert Listed(before, kept[i].fsid);
    }
    forall i, j | 0 <= i < j < |added|
      ensures added[i].fsid != added[j].fsid
    {
      assert FsidsOf(plan.add)[i] != FsidsOf(plan.add)[j];
    }
  }

  lemma OthersDiffer(entries: seq<ExportEntry>, at: nat)
    requires Sorted(entries) && at < |entries|
    ensures forall e | e in entries && e.fsid == entries[at].fsid :: e == entries[at]
  {
  }

  /** How the entries of the old set look after the in-place updates, compared to before. */
  ghost predicate Refreshed(before: seq<ExportEntry>, was: map<nat, View>, update: seq<ExportConfig>)
    reads before
  {
    forall e | e in before :: e.fsid in was && Look(e) == Updated(was[e.fsid], e.fsid, update)
  }

  /** What the two loops leave behind: `entries` are the additions and the kept old entries. */
  ghost predicate Assembled(before: seq<ExportEntry>, was: map<nat, View>, plan: Plan, started: seq<Handle>,
                            added: seq<ExportEntry>, entries: seq<ExportEntry>)
    reads before, added
  {
    && Built(added, plan.add, started) && NextOf(before, plan.remove, added, entries)
    && was.Keys == Fsids(before) && Refreshed(before, was, plan.update)
  }

  lemma AddedServed(before: seq<ExportEntry>, was: map<nat, View>, plan: Plan, started: seq<Handle>,
                    added: seq<ExportEntry>, entries: seq<ExportEntry>, f: nat)
    requires Sorted(entries) && Assembled(before, was, plan, started, added, entries) && f in FsidsOf(plan.add)
    ensures f in Served(entries) && f in Applied(was, plan, started)
    ensures Served(entries)[f] == Applied(was, plan, started)[f]
  {
    ServedAt(entries, added[IndexOf(FsidsOf(plan.add), f)]);
  }

  lemma KeptServed(before: seq<ExportEntry>, was: map<nat, View>, plan: Plan, started: seq<Handle>,
                   added: seq<ExportEntry>, entries: seq<ExportEntry>, f: nat)
    requires Sorted(entries) && Assembled(before, was, plan, started, added, entries)
    requires f !in FsidsOf(plan.add) && f in was && f !in plan.remove
    ensures f in Served(entries) && f in Applied(was, plan, started)
    ensures Served(entries)[f] == Applied(was, plan, started)[f]
  {
    var e :| e in before && e.fsid == f;
    ServedAt(entries, e);
  }

  lemma OthersNotServed(before: seq<ExportEntry>, was: map<nat, View>, plan: Plan, started: seq<Handle>,
                        added: seq<ExportEntry>, entries: seq<ExportEntry>, f: nat)
    requires Assembled(before, was, plan, started, added, entries)
    requires f !in FsidsOf(plan.add) && (f !in was || f in plan.remove)
    ensures f !in Served(entries) && f !in Applied(was, plan, started)
  {
    assert forall i | 0 <= i < |added| :: added[i].fsid == FsidsOf(plan.add)[i];
  }

  lemma MapsAgree(a: map<nat, View>, b: map<nat, View>)
    requires forall f :: f in a <==> f in b
    requires forall f | f in a :: a[f] == b[f]
    ensures a == b
  {
  }

  /** The two loops and the sort together produce exactly the intended exports. */
  lemma ServedAfter(before: seq<ExportEntry>, was: map<nat, View>, plan: Plan, started: seq<Handle>,
                    added: seq<ExportEntry>, entries: seq<ExportEntry>)
    requires Sorted(entries) && Assembled(before, was, plan, started, added, entries)
    ensures Served(entries) == Applied(was, plan, started)
  {
    var a, b := Served(entries), Applied(was, plan, started);
    forall f
      ensures f in a <==> f in b
      ensures f in a ==> a[f] == b[f]
    {
      ServedAfterAt(before, was, plan, started, added, entries, f);
    }
    MapsAgree(a, b);
  }

  lemma ServedAfterAt(before: seq<ExportEntry>, was: map<nat, View>, plan: Plan, started: seq<Handle>,
                      added: seq<ExportEntry>, entries: seq<ExportEntry>, f: nat)
    requires Sorted(entries) && Assembled(before, was, plan, started, added, entries)
    ensures f in Served(entries) <==> f in Applied(was, plan, started)
    ensures f in Served(entries) ==> Served(entries)[f] == Applied(was, plan, started)[f]
  {
    if f in FsidsOf(plan.add) {
      AddedServed(before, was, plan, started, added, entries, f);
    } else if f in was && f !in plan.remove {
      KeptServed(before, was, plan, started, added, entries, f);
    } else {
      OthersNotServed(before, was, plan, started, added, entries, f);
    }
  }
}
