/** Bringing the running export table to a new catalog version: CatalogApplier of
    src/server/catalog_applier.cpp.  Reading the shared directory, making and starting
    backends and validating the merged host configuration are foreign calls, so their
    outcomes are parameters. */
module Applier {
  import opened Config
  import opened Ordering
  import opened Catalogs
  import opened Exports
  import CatalogText

  // ---- the plan --------------------------------------------------------------------

  type Table = set<nat>

  /** What the lists hold once the fsids in `planned` have been looked at. */
  ghost predicate PlanInv(plan: Plan, planned: set<nat>, merged: map<nat, ExportConfig>, table: Table) {
    && Unique(plan.remove) && (forall f :: f in plan.remove <==> f in planned && f !in merged && f in table)
    && Unique(FsidsOf(plan.add)) && ListsOnly(plan.add, planned - table, merged)
    && Unique(FsidsOf(plan.update)) && ListsOnly(plan.update, planned * table, merged)
  }

  /** `cfgs` are exactly the merged configurations of the fsids in `which`. */
  ghost predicate ListsOnly(cfgs: seq<ExportConfig>, which: set<nat>, merged: map<nat, ExportConfig>) {
    && (forall c | c in cfgs :: c.fsid in which && c.fsid in merged && merged[c.fsid] == c)
    && (forall f | f in which && f in merged :: merged[f] in cfgs)
  }

  method FindConfig(cfgs: seq<ExportConfig>, fsid: nat, ghost merged: map<nat, ExportConfig>)
    returns (r: Result<ExportConfig>)
    requires Lists(cfgs, merged)
    ensures r == if fsid in merged then Ok(merged[fsid]) else Err
  {
    for i := 0 to |cfgs|
      invariant forall j | 0 <= j < i :: cfgs[j].fsid != fsid
    {
      if cfgs[i].fsid == fsid {
        assert cfgs[i] in cfgs;
        return Ok(cfgs[i]);
      }
    }
    return Err;
  }

  lemma PushedIsUnique(cfgs: seq<ExportConfig>, c: ExportConfig)
    requires Unique(FsidsOf(cfgs)) && forall d | d in cfgs :: d.fsid != c.fsid
    ensures Unique(FsidsOf(cfgs + [c]))
  {
    assert forall i | 0 <= i < |cfgs| :: cfgs[i] in cfgs && FsidsOf(cfgs + [c])[i] == FsidsOf(cfgs)[i];
  }

  method WantAdd(fsid: nat, cfgs: seq<ExportConfig>, table: Table, plan0: Plan, planned0: set<nat>,
                 ghost merged: map<nat, ExportConfig>) returns (plan: Plan, planned: set<nat>)
    requires Lists(cfgs, merged) && PlanInv(plan0, planned0, merged, table)
    ensures PlanInv(plan, planned, merged, table)
    ensures planned == if fsid in merged then planned0 + {fsid} else planned0
  {
    plan, planned := plan0, planned0;
    var cfg := FindConfig(cfgs, fsid, merged);
    if cfg.Err? || fsid in planned { return; }
    planned := planned + {fsid};
    if fsid in table {
      PushedIsUnique(plan.update, cfg.value);
      plan := plan.(update := plan.update + [cfg.value]);
    } else {
      PushedIsUnique(plan.add, cfg.value);
      plan := plan.(add := plan.add + [cfg.value]);
    }
  }

  method WantRemove(fsid: nat, table: Table, plan0: Plan, planned0: set<nat>,
                    ghost merged: map<nat, ExportConfig>) returns (plan: Plan, planned: set<nat>)
    requires fsid !in merged && PlanInv(plan0, planned0, merged, table)
    ensures PlanInv(plan, planned, merged, table) && planned == planned0 + {fsid}
  {
    plan, planned := plan0, planned0 + {fsid};
    if fsid in planned0 { return; }
    if fsid in table { plan := plan.(remove := plan.remove + [fsid]); }
  }

  ghost function Elements(xs: seq<nat>): set<nat> {
    set x | x in xs
  }

  ghost function Known(xs: seq<nat>, merged: map<nat, ExportConfig>): set<nat> {
    set x | x in xs && x in merged
  }

  method WantAddAll(fsids: seq<nat>, cfgs: seq<ExportConfig>, table: Table, plan0: Plan, planned0: set<nat>,
                    ghost merged: map<nat, ExportConfig>) returns (plan: Plan, planned: set<nat>)
    requires Lists(cfgs, merged) && PlanInv(plan0, planned0, merged, table)
    ensures PlanInv(plan, planned, merged, table) && planned == planned0 + Known(fsids, merged)
  {
    plan, planned := plan0, planned0;
    for i := 0 to |fsids|
      invariant PlanInv(plan, planned, merged, table) && planned == planned0 + Known(fsids[..i], merged)
    {
      plan, planned := WantAdd(fsids[i], cfgs, table, plan, planned, merged);
      assert fsids[..i + 1] == fsids[..i] + [fsids[i]];
    }
    assert fsids[..|fsids|] == fsids;
  }

  method WantRemoveAll(fsids: seq<nat>, table: Table, plan0: Plan, planned0: set<nat>,
                       ghost merged: map<nat, ExportConfig>) returns (plan: Plan, planned: set<nat>)
    requires (forall f | f in fsids :: f !in merged) && PlanInv(plan0, planned0, merged, table)
    ensures PlanInv(plan, planned, merged, table) && planned == planned0 + Elements(fsids)
  {
    plan, planned := plan0, planned0;
    for i := 0 to |fsids|
      invariant PlanInv(plan, planned, merged, table) && planned == planned0 + Elements(fsids[..i])
    {
      plan, planned := WantRemove(fsids[i], table, plan, planned, merged);
      assert fsids[..i + 1] == fsids[..i] + [fsids[i]];
    }
    assert fsids[..|fsids|] == fsids;
  }

  /** The served fsids that the merged configuration no longer lists. */
  method Surplus(served: seq<nat>, cfgs: seq<ExportConfig>, ghost merged: map<nat, ExportConfig>) returns (r: seq<nat>)
    requires Lists(cfgs, merged)
    ensures forall f :: f in r <==> f in served && f !in merged
  {
    r := [];
    for i := 0 to |served|
      invariant forall f :: f in r <==> f in served[..i] && f !in merged
    {
      var cfg := FindConfig(cfgs, served[i], merged);
      if cfg.Err? { r := r + [served[i]]; }
      assert served[..i + 1] == served[..i] + [served[i]];
    }
    assert served[..|served|] == served;
  }

  /** The fsids the merged configuration lists and the table lacks. */
  method Missing(cfgs: seq<ExportConfig>, table: Table) returns (r: seq<nat>)
    ensures forall f :: f in r <==> f in FsidsOf(cfgs) && f !in table
  {
    r := [];
    var ids := FsidsOf(cfgs);
    for i := 0 to |ids|
      invariant forall f :: f in r <==> f in ids[..i] && f !in table
    {
      if ids[i] !in table { r := r + [ids[i]]; }
      assert ids[..i + 1] == ids[..i] + [ids[i]];
    }
    assert ids[..|ids|] == ids;
  }

  /** The fsids whose settings a change between the two documents touches. */
  ghost predicate Touched(before: map<nat, CatalogExport>, after: map<nat, CatalogExport>, f: nat) {
    || Is(Added, before, after, f) || Is(Enabled, before, after, f)
    || Is(NodesChanged, before, after, f) || Is(DynamicChanged, before, after, f)
  }

  /** The plan turns the table into the merged configuration: what is missing is added, what
      is surplus removed, and what stays is updated if a change touches it. */
  ghost predicate Reconciles(plan: Plan, table: Table, merged: map<nat, ExportConfig>,
                             before: map<nat, CatalogExport>, after: map<nat, CatalogExport>) {
    && Unique(plan.remove) && (forall f :: f in plan.remove <==> f in table && f !in merged)
    && Unique(FsidsOf(plan.add)) && ListsOnly(plan.add, merged.Keys - table, merged)
    && Unique(FsidsOf(plan.update))
    && ListsOnly(plan.update, (set f | f in merged && f in table && Touched(before, after, f)), merged)
  }

  /** The fsids the difference names: removals and the merged ones among the others. */
  ghost function Named(d: Diff, merged: map<nat, ExportConfig>): set<nat> {
    Elements(d.removed) + Elements(d.disabled) + Known(d.added, merged) + Known(d.enabled, merged)
    + Known(d.nodesChanged, merged) + Known(d.dynamicChanged, merged)
  }

  method PlanChanges(d: Diff, cfgs: seq<ExportConfig>, table: Table, ghost merged: map<nat, ExportConfig>)
    returns (plan: Plan, planned: set<nat>)
    requires Lists(cfgs, merged) && (forall f | f in d.removed || f in d.disabled :: f !in merged)
    ensures PlanInv(plan, planned, merged, table) && planned == Named(d, merged)
  {
    plan, planned := Plan([], [], []), {};
    plan, planned := WantRemoveAll(d.removed, table, plan, planned, merged);
    plan, planned := WantRemoveAll(d.disabled, table, plan, planned, merged);
    plan, planned := WantAddAll(d.added, cfgs, table, plan, planned, merged);
    plan, planned := WantAddAll(d.enabled, cfgs, table, plan, planned, merged);
    plan, planned := WantAddAll(d.nodesChanged, cfgs, table, plan, planned, merged);
    plan, planned := WantAddAll(d.dynamicChanged, cfgs, table, plan, planned, merged);
  }

  method MakePlan(d: Diff, cfgs: seq<ExportConfig>, served: seq<nat>, ghost merged: map<nat, ExportConfig>,
                  ghost before: map<nat, CatalogExport>, ghost after: map<nat, CatalogExport>)
    returns (plan: Plan)
    requires Lists(cfgs, merged) && DiffOf(d, before, after)
    requires forall f :: f in merged <==> f in after && !after[f].disabled
    ensures Reconciles(plan, Elements(served), merged, before, after)
  {
    var table := set f | f in served;
    NamedMeans(d, merged, before, after);
    var planned;
    plan, planned := PlanChanges(d, cfgs, table, merged);
    var surplus := Surplus(served, cfgs, merged);
    plan, planned := WantRemoveAll(surplus, table, plan, planned, merged);
    var missing := Missing(cfgs, table);
    plan, planned := WantAddAll(missing, cfgs, table, plan, planned, merged);
    ListedFsids(cfgs, merged);
    PlannedReconciles(plan, planned, table, merged, before, after);
  }

  lemma NamedMeans(d: Diff, merged: map<nat, ExportConfig>, before: map<nat, CatalogExport>,
                   after: map<nat, CatalogExport>)
    requires DiffOf(d, before, after) && forall f :: f in merged <==> f in after && !after[f].disabled
    ensures forall f | f in d.removed || f in d.disabled :: f !in merged
    ensures forall f | f in merged :: f in Named(d, merged) <==> Touched(before, after, f)
  {
  }

  lemma PlannedReconciles(plan: Plan, planned: set<nat>, table: Table, merged: map<nat, ExportConfig>,
                          before: map<nat, CatalogExport>, after: map<nat, CatalogExport>)
    requires PlanInv(plan, planned, merged, table)
    requires forall f | f in merged :: f in planned <==> Touched(before, after, f) || f !in table
    requires forall f | f in table && f !in merged :: f in planned
    ensures Reconciles(plan, table, merged, before, after)
  {
  }

  lemma ListedFsids(cfgs: seq<ExportConfig>, merged: map<nat, ExportConfig>)
    requires Lists(cfgs, merged)
    ensures forall f :: f in FsidsOf(cfgs) <==> f in merged
  {
    forall f | f in merged
      ensures f in FsidsOf(cfgs)
    {
      var i :| 0 <= i < |cfgs| && cfgs[i] == merged[f];
      assert FsidsOf(cfgs)[i] == f;
    }
  }

  // ---- incremental equals rebuild --------------------------------------------------

  /** The backend made for an export: its subtable plus path and fsid. */
  function BackendOf(c: ExportConfig): Handle {
    Backend(c.backend, c.values, c.path, c.fsid)
  }

  function Backends(cfgs: seq<ExportConfig>): (r: seq<Handle>)
    ensures |r| == |cfgs| && forall i | 0 <= i < |r| :: r[i] == BackendOf(cfgs[i])
  {
    seq(|cfgs|, i requires 0 <= i < |cfgs| => BackendOf(cfgs[i]))
  }

  function BuiltView(c: ExportConfig): View {
    View(NormalizePath(c.path), BackendOf(c), c.dyn, c.nodes)
  }

  /** The table that ExportTable::build would make from scratch. */
  function Rebuilt(merged: map<nat, ExportConfig>): map<nat, View> {
    map f | f in merged :: BuiltView(merged[f])
  }

  /** What a client and the backend see of an export: its own fields, and its values merged with
      this host's. */
  ghost predicate ShowsExport(v: View, c: ExportConfig, defaults: Defaults) {
    && v.path == c.path && v.dyn == c.dyn && v.nodes == c.nodes
    && v.backend.Backend? && v.backend.name == c.backend && v.backend.path == c.path && v.backend.fsid == c.fsid
    && ValuesMerge(v.backend.values, c.values, defaults, c.backend)
  }

  /** The table serves exactly the enabled exports of a document. */
  ghost predicate ShowsDocument(served: map<nat, View>, exports: seq<CatalogExport>, defaults: Defaults) {
    && (forall f | f in served :: exists e | e in exports && !e.disabled :: e.cfg.fsid == f)
    && (forall e | e in exports && !e.disabled ::
          e.cfg.fsid in served && ShowsExport(served[e.cfg.fsid], e.cfg, defaults))
  }

  /** The table built from scratch shows the document. */
  lemma RebuiltShows(exports: seq<CatalogExport>, defaults: Defaults, activeActive: bool, env: Env)
    requires ValidExports(exports, activeActive, env)
    ensures ShowsDocument(Rebuilt(Merged(exports, defaults)), exports, defaults)
  {
    hide MergeOne, ValuesMerge, PerNode, NormalizePath;
    ValidIsDistinct(exports);
    var served := Rebuilt(Merged(exports, defaults));
    forall e | e in exports && !e.disabled
      ensures e.cfg.fsid in served && ShowsExport(served[e.cfg.fsid], e.cfg, defaults)
    {
      IndexedAt(exports, e);
      MergeOneMerges(e.cfg, defaults);
      assert Admissible(e.cfg, activeActive, env);
    }
  }

  ghost predicate NothingRejected(from: seq<CatalogExport>, to: seq<CatalogExport>) {
    forall f :: !Is(Rejected, Indexed(from), Indexed(to), f)
  }

  ghost predicate PlanFor(plan: Plan, table: Table, from: seq<CatalogExport>, to: seq<CatalogExport>, defaults: Defaults) {
    Reconciles(plan, table, Merged(to, defaults), Indexed(from), Indexed(to))
  }

  /** An update list with distinct fsids sets dyn and nodes of the exports it names, once. */
  lemma {:induction false} UpdatedMeans(v: View, f: nat, update: seq<ExportConfig>)
    requires Unique(FsidsOf(update))
    ensures forall c | c in update && c.fsid == f :: Updated(v, f, update) == v.(dyn := c.dyn, nodes := c.nodes)
    ensures (forall c | c in update :: c.fsid != f) ==> Updated(v, f, update) == v
  {
    if update != [] {
      var n := |update| - 1;
      LastIsNew(update);
      UpdatedMeans(v, f, update[..n]);
      assert update == update[..n] + [update[n]];
    }
  }

  lemma LastIsNew(update: seq<ExportConfig>)
    requires update != [] && Unique(FsidsOf(update))
    ensures var n := |update| - 1; Unique(FsidsOf(update[..n])) && forall c | c in update[..n] :: c.fsid != update[n].fsid
  {
    var n := |update| - 1;
    assert forall i | 0 <= i < n :: FsidsOf(update[..n])[i] == FsidsOf(update)[i];
    forall c | c in update[..n]
      ensures c.fsid != update[n].fsid
    {
      var i :| 0 <= i < n && update[i] == c;
      assert FsidsOf(update)[i] != FsidsOf(update)[n];
    }
  }

  /** An export both documents enable: what the diff does not report has not changed. */
  lemma UntouchedIsSame(from: seq<CatalogExport>, to: seq<CatalogExport>, defaults: Defaults, f: nat)
    requires NothingRejected(from, to) && f in Merged(from, defaults) && f in Merged(to, defaults)
    ensures SameBuild(Merged(from, defaults)[f], Merged(to, defaults)[f], Touched(Indexed(from), Indexed(to), f))
  {
    assert !Is(Rejected, Indexed(from), Indexed(to), f);
    UnreportedIsSame(Indexed(from), Indexed(to), defaults, f);
  }

  lemma UnreportedIsSame(before: map<nat, CatalogExport>, after: map<nat, CatalogExport>, defaults: Defaults, f: nat)
    requires f in before && f in after && before[f].cfg.fsid == after[f].cfg.fsid && !Is(Rejected, before, after, f)
    ensures SameBuild(MergeOne(before[f].cfg, defaults), MergeOne(after[f].cfg, defaults), Touched(before, after, f))
  {
    MergeKeepsIdentity(before[f].cfg, after[f].cfg, defaults);
  }

  predicate SameBuild(a: ExportConfig, b: ExportConfig, touched: bool) {
    && BuiltView(a).path == BuiltView(b).path && BuiltView(a).backend == BuiltView(b).backend
    && (touched || BuiltView(a) == BuiltView(b))
  }

  lemma MergeKeepsIdentity(a: ExportConfig, b: ExportConfig, defaults: Defaults)
    requires SameIdentity(a, b) && a.fsid == b.fsid
    ensures SameBuild(MergeOne(a, defaults), MergeOne(b, defaults), a.nodes != b.nodes || a.dyn != b.dyn)
  {
  }

  lemma FsidsListed(cfgs: seq<ExportConfig>, which: set<nat>, merged: map<nat, ExportConfig>)
    requires ListsOnly(cfgs, which, merged) && forall f | f in merged :: merged[f].fsid == f
    ensures forall f :: f in FsidsOf(cfgs) <==> f in which && f in merged
  {
    assert forall i | 0 <= i < |cfgs| :: cfgs[i] in cfgs;
    forall f | f in which && f in merged
      ensures f in FsidsOf(cfgs)
    {
      var i :| 0 <= i < |cfgs| && cfgs[i] == merged[f];
      assert FsidsOf(cfgs)[i] == f;
    }
  }

  /** One export after the plan, seen from its fsid. */
  lemma AppliedAt(served: map<nat, View>, plan: Plan, from: seq<CatalogExport>, to: seq<CatalogExport>,
                  defaults: Defaults, f: nat)
    requires PlanFor(plan, served.Keys, from, to, defaults)
    ensures f in Applied(served, plan, Backends(plan.add)) <==> f in Merged(to, defaults)
    ensures f in Merged(to, defaults) ==>
              var c := Merged(to, defaults)[f];
              Applied(served, plan, Backends(plan.add))[f] ==
                if f !in served then BuiltView(c)
                else if Touched(Indexed(from), Indexed(to), f) then served[f].(dyn := c.dyn, nodes := c.nodes)
                else served[f]
  {
    var m := Merged(to, defaults);
    FsidsListed(plan.add, m.Keys - served.Keys, m);
    if f in FsidsOf(plan.add) {
      var i := IndexOf(FsidsOf(plan.add), f);
      assert plan.add[i] in plan.add;
    } else if f in m {
      UpdatedMeans(served[f], f, plan.update);
      assert Touched(Indexed(from), Indexed(to), f) ==> m[f] in plan.update;
    }
  }

  /** The incremental change of a table in step with the applied document gives exactly the
      table that the new document would build. */
  lemma IncrementalIsRebuild(served: map<nat, View>, plan: Plan, from: seq<CatalogExport>, to: seq<CatalogExport>,
                             defaults: Defaults)
    requires served == Rebuilt(Merged(from, defaults)) && NothingRejected(from, to)
    requires PlanFor(plan, served.Keys, from, to, defaults)
    ensures Applied(served, plan, Backends(plan.add)) == Rebuilt(Merged(to, defaults))
  {
    var a, b := Applied(served, plan, Backends(plan.add)), Rebuilt(Merged(to, defaults));
    forall f
      ensures f in a <==> f in b
      ensures f in a ==> a[f] == b[f]
    {
      AppliedAt(served, plan, from, to, defaults, f);
      if f in b && f in served { UntouchedIsSame(from, to, defaults, f); }
    }
    MapsAgree(a, b);
  }

  lemma EntryPath(entries: seq<ExportEntry>, merged: map<nat, ExportConfig>, e: ExportEntry)
    requires Sorted(entries) && Served(entries) == Rebuilt(merged) && e in entries
    ensures e.fsid in merged && e.path == BuiltView(merged[e.fsid]).path
  {
    ServedAt(entries, e);
  }

  lemma UpdateIsOk(entries: seq<ExportEntry>, remove: seq<nat>, from: seq<CatalogExport>, to: seq<CatalogExport>,
                   defaults: Defaults, cidrOk: string -> bool, f: nat)
    requires Sorted(entries) && Served(entries) == Rebuilt(Merged(from, defaults)) && NothingRejected(from, to)
    requires f in Merged(to, defaults) && f in Fsids(entries) && f !in remove
    requires AllCidrs(Merged(to, defaults)[f], cidrOk)
    ensures UpdateOk(entries, Merged(to, defaults)[f], remove, cidrOk)
  {
    forall e | e in entries && e.fsid == f
      ensures NormalizePath(Merged(to, defaults)[f].path) == e.path
    {
      EntryPath(entries, Merged(from, defaults), e);
      UntouchedIsSame(from, to, defaults, f);
    }
    var e :| e in entries && e.fsid == f;
    assert Listed(entries, f);
  }

  /** A table in step with the applied document never refuses the plan for a valid new one. */
  lemma NeverRefused(entries: seq<ExportEntry>, plan: Plan, from: seq<CatalogExport>, to: seq<CatalogExport>,
                     defaults: Defaults, cidrOk: string -> bool)
    requires Sorted(entries) && Served(entries) == Rebuilt(Merged(from, defaults)) && NothingRejected(from, to)
    requires PlanFor(plan, Fsids(entries), from, to, defaults)
    requires forall e | e in to :: e.cfg.fsid != 0 && AllCidrs(e.cfg, cidrOk)
    ensures PlanOk(entries, plan, Backends(plan.add), cidrOk)
  {
    forall c | c in plan.update
      ensures UpdateOk(entries, c, plan.remove, cidrOk)
    {
      UpdateIsOk(entries, plan.remove, from, to, defaults, cidrOk, c.fsid);
    }
    forall f | f in plan.remove
      ensures Listed(entries, f)
    {
      var e :| e in entries && e.fsid == f;
    }
    forall c | c in plan.add
      ensures AddOk(entries, c, plan, cidrOk)
    {
      AddIsOk(entries, plan, Merged(to, defaults), cidrOk, c.fsid);
    }
  }

  lemma AddIsOk(entries: seq<ExportEntry>, plan: Plan, merged: map<nat, ExportConfig>, cidrOk: string -> bool, f: nat)
    requires f in merged && merged[f].fsid == f && f !in Fsids(entries) && f != 0 && AllCidrs(merged[f], cidrOk)
    requires forall c | c in plan.update :: c.fsid in Fsids(entries)
    ensures AddOk(entries, merged[f], plan, cidrOk)
  {
    assert forall i | 0 <= i < |plan.update| :: plan.update[i] in plan.update;
    assert forall i | 0 <= i < |entries| :: entries[i] in entries;
  }

  // ---- the applier -----------------------------------------------------------------

  datatype Stored = Unreadable | Absent | Stored(version: nat, text: string)

  datatype Failure = CannotRead | DoesNotParse | OtherVersion | NotValid | CannotMerge | HostRejects
                   | IdentityChanged(fsids: seq<nat>) | NoBackend | Refused

  datatype Outcome = UpToDate(version: nat) | Done(version: nat) | Failed(why: Failure)

  /** What this host answers: whether the merged configuration is acceptable, and whether a
      backend can be made and started for an export. */
  datatype Host = Host(configOk: seq<ExportConfig> -> bool, makes: ExportConfig -> bool, starts: ExportConfig -> bool)

  predicate Runs(c: ExportConfig, host: Host, env: Env) {
    env.knownBackend(c.backend) && host.makes(c) && host.starts(c)
  }

  /** Backends for the additions are started one by one; a failure stops the ones before it. */
  method StartBackends(cfgs: seq<ExportConfig>, host: Host, env: Env)
    returns (ok: bool, started: seq<Handle>, stopped: seq<Handle>)
    ensures ok <==> forall c | c in cfgs :: Runs(c, host, env)
    ensures ok ==> started == Backends(cfgs) && stopped == []
    ensures !ok ==> started == [] && stopped < Backends(cfgs) && !Runs(cfgs[|stopped|], host, env)
  {
    started := [];
    for i := 0 to |cfgs|
      invariant started == Backends(cfgs)[..i] && forall j | 0 <= j < i :: Runs(cfgs[j], host, env)
    {
      if !Runs(cfgs[i], host, env) {
        assert cfgs[i] in cfgs;
        return false, [], started;
      }
      started := started + [BackendOf(cfgs[i])];
    }
    return true, started, [];
  }

  /** A document ready to be applied, with its plan against the table. */
  datatype Prepared = Ready(next: Catalog, plan: Plan) | NotReady(why: Failure)

  ghost predicate Acceptable(next: Catalog, from: seq<CatalogExport>, activeActive: bool, env: Env) {
    ValidExports(next.exports, activeActive, env) && NothingRejected(from, next.exports)
  }

  ghost predicate Mergeable(exports: seq<CatalogExport>, defaults: Defaults) {
    forall e | e in exports && !e.disabled :: OnlyPerNode(defaults, e.cfg.backend)
  }

  /** What a document must be for this host to plan a change to it. */
  ghost predicate Plannable(next: seq<CatalogExport>, from: seq<CatalogExport>, defaults: Defaults, activeActive: bool,
                            env: Env, host: Host) {
    && ValidExports(next, activeActive, env) && Mergeable(next, defaults)
    && host.configOk(Sort(MergedList(next, defaults), ConfigFsid)) && NothingRejected(from, next)
  }

  /** Every export that the table lacks gets a running backend. */
  ghost predicate AddedRun(next: seq<CatalogExport>, served: Table, defaults: Defaults, env: Env, host: Host) {
    forall f | f in Merged(next, defaults) && f !in served :: Runs(Merged(next, defaults)[f], host, env)
  }

  /** The first check that fails gives the reason. */
  ghost predicate Explains(why: Failure, next: seq<CatalogExport>, from: seq<CatalogExport>, served: Table,
                           defaults: Defaults, activeActive: bool, env: Env, host: Host) {
    var valid, merges := ValidExports(next, activeActive, env), Mergeable(next, defaults);
    var accepted := host.configOk(Sort(MergedList(next, defaults), ConfigFsid));
    match why
    case NotValid => !valid
    case CannotMerge => valid && !merges
    case HostRejects => valid && merges && !accepted
    case IdentityChanged(fsids) =>
      valid && merges && accepted && fsids != []
      && forall f :: f in fsids <==> Is(Rejected, Indexed(from), Indexed(next), f)
    case NoBackend =>
      Plannable(next, from, defaults, activeActive, env, host) && !AddedRun(next, served, defaults, env, host)
    case Refused =>
      Plannable(next, from, defaults, activeActive, env, host) && AddedRun(next, served, defaults, env, host)
    case _ => false
  }

  method Prepare(next: Catalog, from: seq<CatalogExport>, served: seq<nat>, defaults: Defaults, activeActive: bool,
                 env: Env, host: Host) returns (r: Prepared)
    ensures r.Ready? ==> r.next == next && Acceptable(next, from, activeActive, env)
    ensures r.Ready? ==> PlanFor(r.plan, Elements(served), from, next.exports, defaults)
    ensures r.Ready? <==> Plannable(next.exports, from, defaults, activeActive, env, host)
    ensures r.NotReady? ==> r.why != Refused && r.why != NoBackend
    ensures r.NotReady? ==> Explains(r.why, next.exports, from, Elements(served), defaults, activeActive, env, host)
  {
    var valid := ValidateCatalog(next, activeActive, env);
    if !valid { return NotReady(NotValid); }
    var merged := MergeWithLocal(next.exports, defaults);
    if merged.Err? { return NotReady(CannotMerge); }
    if !host.configOk(merged.value) { return NotReady(HostRejects); }
    var d := DiffCatalog(from, next.exports);
    assert forall f :: f in d.rejected <==> Is(Rejected, Indexed(from), Indexed(next.exports), f);
    if d.rejected != [] {
      assert d.rejected[0] in d.rejected;
      return NotReady(IdentityChanged(d.rejected));
    }
    ValidIsDistinct(next.exports);
    MergeMeansMerged(next.exports, defaults);
    var plan := MakePlan(d, merged.value, served, Merged(next.exports, defaults), Indexed(from), Indexed(next.exports));
    return Ready(next, plan);
  }

  lemma ValidIsDistinct(exports: seq<CatalogExport>)
    requires Coexist(exports)
    ensures DistinctKeys(exports, ExportFsid)
  {
    assert forall i, j | 0 <= i < j < |exports| :: !Clash(exports[i].cfg, exports[j].cfg);
  }

  function ServedFsids(entries: seq<ExportEntry>): (r: seq<nat>)
    ensures |r| == |entries| && forall i | 0 <= i < |r| :: r[i] == entries[i].fsid
  {
    seq(|entries|, i requires 0 <= i < |entries| => entries[i].fsid)
  }

  lemma ServedElements(entries: seq<ExportEntry>)
    ensures Elements(ServedFsids(entries)) == Fsids(entries)
  {
    forall f | f in Fsids(entries)
      ensures f in Elements(ServedFsids(entries))
    {
      var e :| e in entries && e.fsid == f;
      var i :| 0 <= i < |entries| && entries[i] == e;
      assert ServedFsids(entries)[i] == f;
    }
    forall f | f in Elements(ServedFsids(entries))
      ensures f in Fsids(entries)
    {
      var i :| 0 <= i < |entries| && ServedFsids(entries)[i] == f;
      assert entries[i] in entries;
    }
  }

  // ---- retrying a failed version ---------------------------------------------------

  datatype Retry = Retry(applied: nat, pending: nat, failedVersion: nat, pollsUntilRetry: nat)

  /** A tick that finds `version` in the store. */
  function Polled(s: Retry, version: nat): Retry {
    var pending := if version > s.applied then version else 0;
    s.(pending := pending,
       pollsUntilRetry := if pending != 0 && pending == s.failedVersion && s.pollsUntilRetry > 0
                          then s.pollsUntilRetry - 1 else s.pollsUntilRetry)
  }

  predicate Posts(s: Retry, version: nat) {
    version > s.applied && (version != s.failedVersion || s.pollsUntilRetry <= 1)
  }

  /** After a failed attempt at the pending version. */
  function Held(s: Retry, pending: nat): Retry {
    Retry(s.applied, pending, pending, RETRY_EVERY_POLLS)
  }

  function PolledFor(s: Retry, version: nat, n: nat): Retry {
    if n == 0 then s else Polled(PolledFor(s, version, n - 1), version)
  }

  /** A version that failed is left alone for 29 ticks and posted on the 30th; a different
      newer version is posted at once. */
  lemma {:induction false} RetriedEveryThirtiethPoll(s: Retry, version: nat, n: nat)
    requires version > s.applied && n < 30
    ensures PolledFor(Held(s, version), version, n).pollsUntilRetry == 30 - n
    ensures PolledFor(Held(s, version), version, n).(pollsUntilRetry := 0) == Held(s, version).(pollsUntilRetry := 0)
    ensures Posts(PolledFor(Held(s, version), version, n), version) <==> n == 29
    ensures forall v | v > s.applied && v != version :: Posts(PolledFor(Held(s, version), version, n), v)
  {
    if n > 0 { RetriedEveryThirtiethPoll(s, version, n - 1); }
  }

  const RETRY_EVERY_POLLS: nat := 30

  class CatalogApplier {
    const table: ExportTable
    const defaults: Defaults
    const activeActive: bool
    const env: Env
    var applied: nat
    var latest: nat
    var pending: nat
    var failedVersion: nat
    var pollsUntilRetry: nat
    var applies: nat
    var failures: nat
    var current: Catalog

    /** The table is what the applied document would build. */
    ghost predicate InStep()
      reads this, table, table.current.entries
    {
      Served(table.current.entries) == Rebuilt(Merged(current.exports, defaults))
    }

    constructor (table: ExportTable, defaults: Defaults, activeActive: bool, env: Env, applied: nat, catalog: Catalog)
      ensures this.table == table && this.defaults == defaults && this.env == env
      ensures this.activeActive == activeActive && this.applied == latest == applied && current == catalog
      ensures pending == failedVersion == pollsUntilRetry == applies == failures == 0
    {
      this.table, this.defaults, this.activeActive, this.env := table, defaults, activeActive, env;
      this.applied, latest, current := applied, applied, catalog;
      pending, failedVersion, pollsUntilRetry, applies, failures := 0, 0, 0, 0, 0;
    }

    /** Starts what the plan adds and publishes; a failure leaves the table alone and stops
        whatever had been started. */
    method Carry(next: Catalog, plan: Plan, host: Host) returns (done: bool, why: Failure, stopped: seq<Handle>)
      requires table.Valid() && Acceptable(next, current.exports, activeActive, env)
      requires PlanFor(plan, Fsids(table.current.entries), current.exports, next.exports, defaults)
      modifies table, table.current.entries
      ensures table.Valid()
      ensures !done ==> table.current == old(table.current) && table.retired == old(table.retired)
      ensures !done ==> forall e | e in old(table.current.entries) :: unchanged(e)
      ensures !done ==> if why == NoBackend then stopped < Backends(plan.add)
                        else why == Refused && stopped == Backends(plan.add)
      ensures done ==> stopped == [] && table.current.generation == old(table.current.generation) + 1
      ensures done ==> Served(table.current.entries)
                       == Applied(old(Served(table.current.entries)), plan, Backends(plan.add))
      ensures old(InStep()) && !done ==> why != Refused
      ensures old(AddedRun(next.exports, Fsids(table.current.entries), defaults, env, host)) <==> done || why != NoBackend
    {
      AddsRun(plan, Fsids(table.current.entries), current.exports, next.exports, defaults, env, host);
      if InStep() {
        NeverRefused(table.current.entries, plan, current.exports, next.exports, defaults, env.cidrOk);
      }
      var ok, started, undone := StartBackends(plan.add, host, env);
      if !ok { return false, NoBackend, undone; }
      var published, left := table.Apply(plan, started, table.current.epoch, env.cidrOk);
      return published.Ok?, Refused, left;
    }

    /** The document is newer, reads as the version it is stored under, can be planned for, and
        every backend it adds runs. */
    ghost predicate Applicable(doc: Stored, host: Host)
      reads this, table, table.current.entries
    {
      && doc.Stored? && doc.version > applied
      && var parsed := CatalogText.Parse(doc.text);
      && parsed.Ok? && parsed.value.meta.version == doc.version
      && Plannable(parsed.value.exports, current.exports, defaults, activeActive, env, host)
      && AddedRun(parsed.value.exports, Fsids(table.current.entries), defaults, env, host)
    }

    /** The failure is the one of the first check that fails. */
    ghost predicate FailsFor(doc: Stored, host: Host, why: Failure)
      reads this, table, table.current.entries
    {
      if doc.Unreadable? then why == CannotRead
      else
        && doc.Stored? && doc.version > applied
        && var parsed := CatalogText.Parse(doc.text);
        if parsed.Err? then why == DoesNotParse
        else if parsed.value.meta.version != doc.version then why == OtherVersion
        else Explains(why, parsed.value.exports, current.exports, Fsids(table.current.entries), defaults, activeActive,
                      env, host)
    }

    /** One run of the pipeline.  It ends with the table exactly as it was, or serving exactly
        the exports the new document enables; a table that was in step stays in step, and then
        the table itself never refuses. */
    method ApplyPipeline(doc: Stored, host: Host) returns (o: Outcome, stopped: seq<Handle>)
      requires table.Valid()
      modifies this, table, table.current.entries
      ensures table.Valid()
      ensures !o.Done? ==> applied == old(applied) && current == old(current) && applies == old(applies)
      ensures !o.Done? ==> table.current == old(table.current) && table.retired == old(table.retired)
      ensures !o.Done? ==> forall e | e in old(table.current.entries) :: unchanged(e)
      ensures o.UpToDate? ==> o.version == applied && pending == 0
      ensures o.UpToDate? <==> doc.Absent? || (doc.Stored? && doc.version <= old(applied))
      ensures o.Done? ==> doc.Stored? && o.version == applied == doc.version > old(applied)
      ensures o.Done? ==> CatalogText.Parse(doc.text) == Ok(current)
      ensures o.Done? ==> current.meta.version == applied && ValidExports(current.exports, activeActive, env)
      ensures o.Done? ==> Served(table.current.entries).Keys == Merged(current.exports, defaults).Keys
      ensures o.Done? ==> failedVersion == pollsUntilRetry == 0 && applies == old(applies) + 1
      ensures old(InStep()) && o.Done? ==> InStep() && ShowsDocument(Served(table.current.entries), current.exports, defaults)
      ensures old(InStep()) ==> o != Failed(Refused)
      ensures o.Done? ==> old(Applicable(doc, host))
      ensures old(InStep()) ==> (o.Done? <==> old(Applicable(doc, host)))
      ensures o.Failed? ==> old(FailsFor(doc, host, o.why))
      ensures latest == if doc.Unreadable? then old(latest) else if doc.Stored? then doc.version else 0
      ensures o.Done? ==> pending == 0
      ensures failures == old(failures) && (o.Failed? && doc.Stored? ==> pending == doc.version)
      ensures !o.Done? ==> failedVersion == old(failedVersion) && pollsUntilRetry == old(pollsUntilRetry)
    {
      hide Plannable, AddedRun, Explains, CatalogText.Parse, ValidExports, Merged, Rebuilt, Served, Fsids,
           ShowsDocument;
      stopped := [];
      if doc.Unreadable? { return Failed(CannotRead), stopped; }
      var version := if doc.Stored? then doc.version else 0;
      Announce(version);
      if version <= applied { return UpToDate(applied), stopped; }
      var parsed := CatalogText.ParseCatalog(doc.text);
      if parsed.Err? { return Failed(DoesNotParse), stopped; }
      if parsed.value.meta.version != version { return Failed(OtherVersion), stopped; }
      var done, why;
      done, why, stopped := Bring(parsed.value, host);
      if !done { return Failed(why), stopped; }
      Record(version, parsed.value);
      RebuiltShows(parsed.value.exports, defaults, activeActive, env);
      return Done(version), stopped;
    }

    /** Plans and carries out the change to `next`. */
    method Bring(next: Catalog, host: Host) returns (done: bool, why: Failure, stopped: seq<Handle>)
      requires table.Valid()
      modifies table, table.current.entries
      ensures table.Valid()
      ensures !done ==> table.current == old(table.current) && table.retired == old(table.retired)
      ensures !done ==> forall e | e in old(table.current.entries) :: unchanged(e)
      ensures done ==> ValidExports(next.exports, activeActive, env)
      ensures done ==> Served(table.current.entries).Keys == Merged(next.exports, defaults).Keys
      ensures old(InStep()) ==> if done then Served(table.current.entries) == Rebuilt(Merged(next.exports, defaults))
                                else why != Refused
      ensures done ==> old(Plannable(next.exports, current.exports, defaults, activeActive, env, host))
      ensures done ==> old(AddedRun(next.exports, Fsids(table.current.entries), defaults, env, host))
      ensures old(InStep()) ==>
                (done <==> old(Plannable(next.exports, current.exports, defaults, activeActive, env, host)
                               && AddedRun(next.exports, Fsids(table.current.entries), defaults, env, host)))
      ensures !done ==> old(Explains(why, next.exports, current.exports, Fsids(table.current.entries), defaults,
                                     activeActive, env, host))
    {
      var ready := Prepare(next, current.exports, ServedFsids(table.current.entries), defaults, activeActive, env, host);
      if ready.NotReady? { return false, ready.why, []; }
      ServedElements(table.current.entries);
      Foretell(Served(table.current.entries), ready.plan, current.exports, next.exports, defaults);
      done, why, stopped := Carry(next, ready.plan, host);
    }

    method Announce(version: nat)
      modifies this
      ensures latest == version && pending == (if version <= applied then 0 else version)
      ensures applied == old(applied) && current == old(current) && applies == old(applies)
      ensures failures == old(failures) && failedVersion == old(failedVersion) && pollsUntilRetry == old(pollsUntilRetry)
      ensures Served(table.current.entries) == old(Served(table.current.entries))
    {
      latest := version;
      pending := if version <= applied then 0 else version;
    }

    /** The pipeline, and the bookkeeping of a failure: the version is held back for a while. */
    method ApplyLatest(doc: Stored, host: Host) returns (o: Outcome, stopped: seq<Handle>)
      requires table.Valid()
      modifies this, table, table.current.entries
      ensures table.Valid() && (o.Failed? ==> RetryState() == Held(old(RetryState()), pending))
      ensures !o.Done? ==> applied == old(applied) && current == old(current)
      ensures old(InStep()) && o.Done? ==> InStep() && ShowsDocument(Served(table.current.entries), current.exports, defaults)
      ensures old(InStep()) ==> (o.Done? <==> old(Applicable(doc, host)))
      ensures o.Failed? ==> old(FailsFor(doc, host, o.why))
      ensures failures == old(failures) + (if o.Failed? then 1 else 0)
      ensures applies == old(applies) + (if o.Done? then 1 else 0)
    {
      hide Applicable, FailsFor, InStep, Merged, Served, ValidExports, CatalogText.Parse, ShowsDocument;
      o, stopped := ApplyPipeline(doc, host);
      if o.Failed? {
        failures := failures + 1;
        failedVersion, pollsUntilRetry := pending, RETRY_EVERY_POLLS;
      }
    }

    ghost function RetryState(): Retry
      reads this
    {
      Retry(applied, pending, failedVersion, pollsUntilRetry)
    }

    /** One tick: records what the store holds and says whether to post an apply. */
    method Poll(version: nat, applying: bool, auto: bool) returns (post: bool)
      modifies this`latest, this`pending, this`pollsUntilRetry
      ensures latest == version && RetryState() == Polled(old(RetryState()), version)
      ensures post == (Posts(old(RetryState()), version) && !applying && auto)
    {
      latest := version;
      pending := if version > applied then version else 0;
      var heldBack := false;
      if pending != 0 && pending == failedVersion && pollsUntilRetry > 0 {
        pollsUntilRetry := pollsUntilRetry - 1;
        heldBack := pollsUntilRetry > 0;
      }
      post := pending != 0 && !heldBack && !applying && auto;
    }

    method Record(version: nat, next: Catalog)
      modifies this
      ensures applied == version && current == next && failedVersion == pollsUntilRetry == 0
      ensures applies == old(applies) + 1 && failures == old(failures) && latest == old(latest)
      ensures pending == if old(pending) <= version then 0 else old(pending)
      ensures Served(table.current.entries) == old(Served(table.current.entries))
    {
      applied, applies := version, applies + 1;
      if pending <= version { pending := 0; }
      current := next;
      failedVersion, pollsUntilRetry := 0, 0;
    }
  }

  /** The backends that a plan starts are those of the exports the table lacks. */
  lemma AddsRun(plan: Plan, served: Table, from: seq<CatalogExport>, to: seq<CatalogExport>, defaults: Defaults, env: Env,
                host: Host)
    requires PlanFor(plan, served, from, to, defaults)
    ensures (forall c | c in plan.add :: Runs(c, host, env)) <==> AddedRun(to, served, defaults, env, host)
  {
    hide Runs;
    var m := Merged(to, defaults);
    forall c | c in plan.add
      ensures c.fsid in m && c.fsid !in served && m[c.fsid] == c
    {
    }
    forall f | f in m && f !in served
      ensures m[f] in plan.add
    {
    }
  }

  lemma Foretell(served: map<nat, View>, plan: Plan, from: seq<CatalogExport>, to: seq<CatalogExport>, defaults: Defaults)
    requires PlanFor(plan, served.Keys, from, to, defaults) && NothingRejected(from, to)
    ensures Applied(served, plan, Backends(plan.add)).Keys == Merged(to, defaults).Keys
    ensures served == Rebuilt(Merged(from, defaults)) ==>
              Applied(served, plan, Backends(plan.add)) == Rebuilt(Merged(to, defaults))
  {
    forall f
      ensures f in Applied(served, plan, Backends(plan.add)) <==> f in Merged(to, defaults)
    {
      AppliedAt(served, plan, from, to, defaults, f);
    }
    if served == Rebuilt(Merged(from, defaults)) { IncrementalIsRebuild(served, plan, from, to, defaults); }
  }
}
