/** The shared export catalog as a document: validation, the merge with this host's
    settings, and the difference of two versions (src/core/catalog.cpp). */
module Catalogs {
  import opened Config
  import opened Ordering

  datatype Meta = Meta(version: nat, updatedAt: string, updatedBy: string, comment: string)

  datatype CatalogExport = CatalogExport(cfg: ExportConfig, disabled: bool)

  datatype Catalog = Catalog(meta: Meta, exports: seq<CatalogExport>)

  /** What the code asks of the build and of other checks: known backend types, client CIDR
      syntax, owner lists, and owner lists of exports that share one volume. */
  datatype Env = Env(knownBackend: string -> bool, cidrOk: string -> bool, nodesOk: ExportConfig -> bool,
                     volumesOk: seq<ExportConfig> -> bool)

  function ExportFsid(e: CatalogExport): nat {
    e.cfg.fsid
  }

  function ConfigFsid(c: ExportConfig): nat {
    c.fsid
  }

  predicate PerNode(key: string) {
    key in ["conf", "keyring", "id", "user", "name", "log_file", "fd_cache", "mon_host"]
  }

  /** The subtable without this host's keys. */
  function ClusterKeys(values: map<string, string>): map<string, string> {
    map k | k in values && !PerNode(k) :: values[k]
  }

  // ---- validate_catalog ------------------------------------------------------------

  /** `inner` lives under `outer`. */
  predicate Nested(outer: string, inner: string) {
    |inner| > |outer| && outer <= inner && (outer == "/" || inner[|outer|] == '/')
  }

  /** The names of a path, the empty one before the first slash included. */
  function Split(path: string): (names: seq<string>)
    ensures names != []
  {
    if path == "" then [""]
    else if path[0] == '/' then [""] + Split(path[1..])
    else
      var rest := Split(path[1..]);
      [[path[0]] + rest[0]] + rest[1..]
  }

  /** The directories on the way to a path: "/" is only the root. */
  function Trail(path: string): seq<string> {
    if path == "/" then [""] else Split(path)
  }

  lemma {:induction false} SplitAt(a: string, b: string)
    ensures Split(a + (['/'] + b)) == Split(a) + Split(b)
    decreases |a|
  {
    if a == "" {
      assert a + (['/'] + b) == ['/'] + b && (['/'] + b)[1..] == b;
    } else {
      assert (a + (['/'] + b))[1..] == a[1..] + (['/'] + b) && (a + (['/'] + b))[0] == a[0];
      SplitAt(a[1..], b);
    }
  }

  /** Splitting is the inverse of joining with slashes. */
  function JoinNames(names: seq<string>): string
    requires names != []
  {
    if |names| == 1 then names[0] else names[0] + (['/'] + JoinNames(names[1..]))
  }

  lemma {:induction false} SplitJoins(path: string)
    ensures JoinNames(Split(path)) == path
  {
    if path != "" {
      var rest := Split(path[1..]);
      SplitJoins(path[1..]);
      if path[0] == '/' {
        assert ([""] + rest)[1..] == rest;
        assert path == "" + (['/'] + path[1..]);
      } else {
        var names := [[path[0]] + rest[0]] + rest[1..];
        assert names[1..] == rest[1..];
        assert path == [path[0]] + path[1..];
        if |rest| > 1 { assert [path[0]] + (rest[0] + (['/'] + JoinNames(rest[1..]))) == path; }
      }
    }
  }

  lemma {:induction false} JoinAppend(a: seq<string>, b: seq<string>)
    requires a != [] && b != []
    ensures JoinNames(a + b) == JoinNames(a) + (['/'] + JoinNames(b))
    decreases |a|
  {
    assert (a + b)[1..] == a[1..] + b;
    if |a| == 1 {
      assert a[1..] + b == b;
    } else {
      JoinAppend(a[1..], b);
      var x, y, z := a[0], JoinNames(a[1..]), JoinNames(b);
      assert x + (['/'] + (y + (['/'] + z))) == (x + (['/'] + y)) + (['/'] + z);
    }
  }

  /** An export is nested in another exactly if the way to it leads through the other: "/a/b" is
      under "/a" and under "/", "/ab" is not under "/a". */
  lemma NestedMeans(outer: string, inner: string)
    requires outer != "" && outer[0] == '/' && inner != "" && inner[0] == '/'
    ensures Nested(outer, inner) <==> Trail(outer) < Trail(inner)
  {
    if outer == "/" {
      NestedInRoot(inner);
    } else if inner == "/" {
      NotUnderRoot(outer);
    } else {
      if Nested(outer, inner) {
        var b := inner[|outer| + 1..];
        assert inner == outer + (['/'] + b);
        SplitAt(outer, b);
      }
      if Split(outer) < Split(inner) { PrefixIsNested(outer, inner); }
    }
  }

  lemma NestedInRoot(inner: string)
    requires inner != "" && inner[0] == '/'
    ensures Nested("/", inner) <==> Trail("/") < Trail(inner)
  {
    assert inner == ['/'] + inner[1..];
  }

  lemma NotUnderRoot(outer: string)
    requires outer != "" && outer[0] == '/' && outer != "/"
    ensures !Nested(outer, "/") && !(Trail(outer) < Trail("/"))
  {
  }

  lemma PrefixIsNested(outer: string, inner: string)
    requires outer != "" && Split(outer) < Split(inner)
    ensures Nested(outer, inner)
  {
    var a, b := Split(outer), Split(inner)[|Split(outer)|..];
    assert Split(inner) == a + b;
    JoinAppend(a, b);
    SplitJoins(outer);
    SplitJoins(inner);
    assert inner == outer + (['/'] + JoinNames(b));
  }

  predicate Admissible(c: ExportConfig, activeActive: bool, env: Env) {
    && c.fsid != 0
    && c.path != "" && c.path[0] == '/' && NormalizePath(c.path) == c.path
    && env.knownBackend(c.backend)
    && (forall k | k in c.values :: !PerNode(k))
    && (activeActive ==> c.nodes != []) && env.nodesOk(c)
    && c.dyn.clients != [] && (forall client | client in c.dyn.clients :: env.cidrOk(client))
  }

  predicate Clash(a: ExportConfig, b: ExportConfig) {
    a.fsid == b.fsid || PathsClash(a, b)
  }

  predicate Coexist(exports: seq<CatalogExport>) {
    forall i, j | 0 <= i < j < |exports| :: !Clash(exports[i].cfg, exports[j].cfg)
  }

  function Configs(exports: seq<CatalogExport>): (r: seq<ExportConfig>)
    ensures |r| == |exports| && forall i | 0 <= i < |r| :: r[i] == exports[i].cfg
  {
    seq(|exports|, i requires 0 <= i < |exports| => exports[i].cfg)
  }

  ghost predicate ValidExports(exports: seq<CatalogExport>, activeActive: bool, env: Env) {
    && AllAdmissible(exports, activeActive, env)
    && Coexist(exports)
    && (activeActive ==> env.volumesOk(Configs(exports)))
  }

  predicate PathsClash(a: ExportConfig, b: ExportConfig) {
    a.path == b.path || Nested(a.path, b.path) || Nested(b.path, a.path)
  }

  method PathIsFree(seen: seq<CatalogExport>, cfg: ExportConfig) returns (free: bool)
    ensures free <==> forall k | 0 <= k < |seen| :: !PathsClash(seen[k].cfg, cfg)
  {
    for j := 0 to |seen|
      invariant forall k | 0 <= k < j :: !PathsClash(seen[k].cfg, cfg)
    {
      if PathsClash(seen[j].cfg, cfg) { return false; }
    }
    return true;
  }

  ghost predicate AllAdmissible(exports: seq<CatalogExport>, activeActive: bool, env: Env) {
    forall e | e in exports :: Admissible(e.cfg, activeActive, env)
  }

  lemma OneMore(exports: seq<CatalogExport>, i: nat, activeActive: bool, env: Env)
    requires i < |exports| && AllAdmissible(exports[..i], activeActive, env) && Coexist(exports[..i])
    requires Admissible(exports[i].cfg, activeActive, env)
    requires forall k | 0 <= k < i :: !Clash(exports[k].cfg, exports[i].cfg)
    ensures AllAdmissible(exports[..i + 1], activeActive, env) && Coexist(exports[..i + 1])
  {
    assert exports[..i + 1] == exports[..i] + [exports[i]];
  }

  /** One pass with a set of seen fsids and a list of seen exports. */
  method ValidateCatalog(catalog: Catalog, activeActive: bool, env: Env) returns (ok: bool)
    ensures ok <==> ValidExports(catalog.exports, activeActive, env)
  {
    var exports := catalog.exports;
    var fsids: set<nat> := {};
    for i := 0 to |exports|
      invariant fsids == set e | e in exports[..i] :: e.cfg.fsid
      invariant AllAdmissible(exports[..i], activeActive, env) && Coexist(exports[..i])
    {
      var ok := AdmitOne(exports, i, fsids, activeActive, env);
      if !ok { return false; }
      OneMore(exports, i, activeActive, env);
      fsids := fsids + {exports[i].cfg.fsid};
      assert exports[..i + 1] == exports[..i] + [exports[i]];
    }
    assert exports[..|exports|] == exports;
    return activeActive ==> env.volumesOk(Configs(exports));
  }

  /** The checks on one export against the ones before it. */
  method AdmitOne(exports: seq<CatalogExport>, i: nat, fsids: set<nat>, activeActive: bool, env: Env) returns (ok: bool)
    requires i < |exports| && fsids == set e | e in exports[..i] :: e.cfg.fsid
    ensures ok ==> Admissible(exports[i].cfg, activeActive, env)
    ensures ok ==> forall k | 0 <= k < i :: !Clash(exports[k].cfg, exports[i].cfg)
    ensures !ok ==> !ValidExports(exports, activeActive, env)
  {
    var cfg := exports[i].cfg;
    assert exports[i] in exports;
    if !Admissible(cfg, activeActive, env) { return false; }
    if cfg.fsid in fsids {
      assert exists k | 0 <= k < i :: Clash(exports[k].cfg, cfg);
      return false;
    }
    ok := PathIsFree(exports[..i], cfg);
    if ok {
      assert forall k | 0 <= k < i :: exports[k] in exports[..i] && !PathsClash(exports[..i][k].cfg, cfg);
    } else {
      assert exists k | 0 <= k < i :: Clash(exports[k].cfg, cfg);
    }
  }

  // ---- merge_with_local ------------------------------------------------------------

  type Defaults = map<string, map<string, string>>

  function DefaultsOf(defaults: Defaults, backend: string): map<string, string> {
    if backend in defaults then defaults[backend] else map[]
  }

  /** This host's view of one export: per-node keys come from here and from nowhere else. */
  function MergeOne(c: ExportConfig, defaults: Defaults): ExportConfig {
    c.(values := ClusterKeys(c.values) + DefaultsOf(defaults, c.backend))
  }

  /** What the merge promises about the values: per-node keys as this host's table for the backend
      has them, the export's other keys unless this host sets them, and nothing else. */
  ghost predicate ValuesMerge(merged: map<string, string>, own: map<string, string>, defaults: Defaults, backend: string) {
    forall k ::
      if backend in defaults && k in defaults[backend] then k in merged && merged[k] == defaults[backend][k]
      else if k in own && !PerNode(k) then k in merged && merged[k] == own[k]
      else k !in merged
  }

  /** `m` is `c` as this host serves it: nothing but the values differs. */
  ghost predicate IsMergeOf(m: ExportConfig, c: ExportConfig, defaults: Defaults) {
    && m == c.(values := m.values)
    && ValuesMerge(m.values, c.values, defaults, c.backend)
  }

  /** The list holds a merge of every enabled export and of nothing else. */
  ghost predicate MergesEnabled(cfgs: seq<ExportConfig>, exports: seq<CatalogExport>, defaults: Defaults) {
    && (forall m | m in cfgs :: exists e | e in exports && !e.disabled :: IsMergeOf(m, e.cfg, defaults))
    && (forall e | e in exports && !e.disabled :: exists m | m in cfgs :: IsMergeOf(m, e.cfg, defaults))
  }

  predicate OnlyPerNode(defaults: Defaults, backend: string) {
    forall k | k in DefaultsOf(defaults, backend) :: PerNode(k)
  }

  /** The enabled exports, merged, in document order. */
  function MergedList(exports: seq<CatalogExport>, defaults: Defaults): seq<ExportConfig> {
    if exports == [] then []
    else
      var n := |exports| - 1;
      MergedList(exports[..n], defaults) + if exports[n].disabled then [] else [MergeOne(exports[n].cfg, defaults)]
  }

  method MergeWithLocal(exports: seq<CatalogExport>, defaults: Defaults) returns (r: Result<seq<ExportConfig>>)
    ensures r.Ok? <==> forall e | e in exports && !e.disabled :: OnlyPerNode(defaults, e.cfg.backend)
    ensures r.Ok? <==> forall e, k | e in exports && !e.disabled && e.cfg.backend in defaults && k in defaults[e.cfg.backend] ::
                         PerNode(k)
    ensures r.Ok? ==> r.value == Sort(MergedList(exports, defaults), ConfigFsid)
    ensures r.Ok? ==> MergesEnabled(r.value, exports, defaults)
  {
    hide OnlyPerNode, MergesEnabled, PerNode;
    OnlyPerNodeMeans(exports, defaults);
    var out: seq<ExportConfig> := [];
    for i := 0 to |exports|
      invariant out == MergedList(exports[..i], defaults)
      invariant forall j | 0 <= j < i && !exports[j].disabled :: OnlyPerNode(defaults, exports[j].cfg.backend)
    {
      var e := exports[i];
      assert exports[..i + 1][..i] == exports[..i];
      if !e.disabled {
        if !OnlyPerNode(defaults, e.cfg.backend) {
          assert e in exports;
          return Err;
        }
        var m := MergeInto(e.cfg, defaults);
        out := out + [m];
      }
    }
    assert exports[..|exports|] == exports;
    MergedListMerges(exports, defaults);
    SortMerges(out, exports, defaults);
    return Ok(Sort(out, ConfigFsid));
  }

  /** One export: strip this host's keys, then copy each of its defaults. */
  method MergeInto(c: ExportConfig, defaults: Defaults) returns (m: ExportConfig)
    ensures m == MergeOne(c, defaults) && IsMergeOf(m, c, defaults)
  {
    hide PerNode, IsMergeOf;
    var values := CopyAll(ClusterKeys(c.values), DefaultsOf(defaults, c.backend));
    m := c.(values := values);
    MergeOneMerges(c, defaults);
  }

  /** Assigns every entry of a table. */
  method CopyAll(into: map<string, string>, table: map<string, string>) returns (values: map<string, string>)
    ensures values == into + table
  {
    values := into;
    var rest := table.Keys;
    while rest != {}
      invariant rest <= table.Keys
      invariant values.Keys == into.Keys + (table.Keys - rest)
      invariant forall k | k in values :: values[k] == if k in table && k !in rest then table[k] else into[k]
      decreases |rest|
    {
      var k :| k in rest;
      values := values[k := table[k]];
      rest := rest - {k};
    }
  }

  lemma MergeOneMerges(c: ExportConfig, defaults: Defaults)
    ensures IsMergeOf(MergeOne(c, defaults), c, defaults)
  {
  }

  lemma OnlyPerNodeMeans(exports: seq<CatalogExport>, defaults: Defaults)
    ensures (forall e | e in exports && !e.disabled :: OnlyPerNode(defaults, e.cfg.backend)) <==>
            (forall e, k | e in exports && !e.disabled && e.cfg.backend in defaults && k in defaults[e.cfg.backend] ::
               PerNode(k))
  {
    hide PerNode;
  }

  lemma SortMerges(cfgs: seq<ExportConfig>, exports: seq<CatalogExport>, defaults: Defaults)
    requires MergesEnabled(cfgs, exports, defaults)
    ensures MergesEnabled(Sort(cfgs, ConfigFsid), exports, defaults)
  {
    hide IsMergeOf, Sort;
  }

  lemma MergedListMerges(exports: seq<CatalogExport>, defaults: Defaults)
    ensures MergesEnabled(MergedList(exports, defaults), exports, defaults)
  {
    hide MergeOne, IsMergeOf, MergedList;
    MergedListMembers(exports, defaults);
    var list := MergedList(exports, defaults);
    forall m | m in list
      ensures exists e | e in exports && !e.disabled :: IsMergeOf(m, e.cfg, defaults)
    {
      var e :| e in exports && !e.disabled && m == MergeOne(e.cfg, defaults);
      MergeOneMerges(e.cfg, defaults);
    }
    forall e | e in exports && !e.disabled
      ensures exists m | m in list :: IsMergeOf(m, e.cfg, defaults)
    {
      MergeOneMerges(e.cfg, defaults);
      assert MergeOne(e.cfg, defaults) in list;
    }
  }

  // ---- documents as maps -----------------------------------------------------------

  /** The exports of a document by fsid, as filling a std::map in order gives them. */
  function Indexed(exports: seq<CatalogExport>): (m: map<nat, CatalogExport>)
    ensures forall f | f in m :: m[f] in exports && m[f].cfg.fsid == f
    ensures forall e | e in exports :: e.cfg.fsid in m
  {
    if exports == [] then map[]
    else
      var n := |exports| - 1;
      assert exports == exports[..n] + [exports[n]];
      Indexed(exports[..n])[exports[n].cfg.fsid := exports[n]]
  }

  /** What this host serves of a document. */
  function Merged(exports: seq<CatalogExport>, defaults: Defaults): (m: map<nat, ExportConfig>)
    ensures forall f | f in m :: m[f].fsid == f
  {
    map f | f in Indexed(exports) && !Indexed(exports)[f].disabled :: MergeOne(Indexed(exports)[f].cfg, defaults)
  }

  /** The list and the map hold the same configurations. */
  ghost predicate Lists(cfgs: seq<ExportConfig>, m: map<nat, ExportConfig>) {
    && (forall c | c in cfgs :: c.fsid in m && m[c.fsid] == c)
    && (forall f | f in m :: m[f] in cfgs && m[f].fsid == f)
    && Ascending(cfgs, ConfigFsid)
  }

  lemma IndexedAt(exports: seq<CatalogExport>, e: CatalogExport)
    requires DistinctKeys(exports, ExportFsid) && e in exports
    ensures Indexed(exports)[e.cfg.fsid] == e
  {
    var m := Indexed(exports);
    var i :| 0 <= i < |exports| && exports[i] == e;
    var j :| 0 <= j < |exports| && exports[j] == m[e.cfg.fsid];
    assert ExportFsid(exports[i]) == ExportFsid(exports[j]);
  }

  lemma {:induction false} MergedListMembers(exports: seq<CatalogExport>, defaults: Defaults)
    ensures forall c | c in MergedList(exports, defaults) ::
              exists e | e in exports && !e.disabled :: c == MergeOne(e.cfg, defaults)
    ensures forall e | e in exports && !e.disabled :: MergeOne(e.cfg, defaults) in MergedList(exports, defaults)
  {
    if exports != [] {
      var n := |exports| - 1;
      MergedListMembers(exports[..n], defaults);
      assert exports == exports[..n] + [exports[n]];
      assert forall e | e in exports[..n] :: e in exports;
      assert exports[n] in exports;
    }
  }

  lemma {:induction false} MergedListDistinct(exports: seq<CatalogExport>, defaults: Defaults)
    requires DistinctKeys(exports, ExportFsid)
    ensures DistinctKeys(MergedList(exports, defaults), ConfigFsid)
  {
    if exports != [] {
      var n := |exports| - 1;
      var rest := MergedList(exports[..n], defaults);
      MergedListDistinct(exports[..n], defaults);
      forall k | 0 <= k < |rest|
        ensures ConfigFsid(rest[k]) != ExportFsid(exports[n])
      {
        MergedListMembers(exports[..n], defaults);
        assert rest[k] in rest;
        var e :| e in exports[..n] && !e.disabled && rest[k] == MergeOne(e.cfg, defaults);
        var i :| 0 <= i < n && exports[i] == e;
        assert ExportFsid(exports[i]) != ExportFsid(exports[n]);
      }
    }
  }

  /** The list merge_with_local returns for a document with distinct fsids is the map view. */
  lemma MergeMeansMerged(exports: seq<CatalogExport>, defaults: Defaults)
    requires DistinctKeys(exports, ExportFsid)
    ensures Lists(Sort(MergedList(exports, defaults), ConfigFsid), Merged(exports, defaults))
  {
    var list, m := MergedList(exports, defaults), Merged(exports, defaults);
    MergedListMembers(exports, defaults);
    MergedListDistinct(exports, defaults);
    SortSorts(list, ConfigFsid);
    forall c | c in list
      ensures c.fsid in m && m[c.fsid] == c
    {
      var e :| e in exports && !e.disabled && c == MergeOne(e.cfg, defaults);
      IndexedAt(exports, e);
    }
  }

  // ---- diff_catalog ----------------------------------------------------------------

  datatype Diff = Diff(added: seq<nat>, removed: seq<nat>, disabled: seq<nat>, enabled: seq<nat>,
                       nodesChanged: seq<nat>, dynamicChanged: seq<nat>, rejected: seq<nat>)

  datatype Change = Added | Removed | Disabled | Enabled | NodesChanged | DynamicChanged | Rejected

  /** Path, backend and the cluster-wide keys are what an fsid stands for. */
  predicate SameIdentity(a: ExportConfig, b: ExportConfig) {
    a.path == b.path && a.backend == b.backend && ClusterKeys(a.values) == ClusterKeys(b.values)
  }

  predicate Is(change: Change, before: map<nat, CatalogExport>, after: map<nat, CatalogExport>, f: nat) {
    match change
    case Added => f !in before && f in after
    case Removed => f in before && f !in after
    case Rejected => f in before && f in after && !SameIdentity(before[f].cfg, after[f].cfg)
    case Disabled => Stays(before, after, f) && !before[f].disabled && after[f].disabled
    case Enabled => Stays(before, after, f) && before[f].disabled && !after[f].disabled
    case NodesChanged => Stays(before, after, f) && before[f].cfg.nodes != after[f].cfg.nodes
    case DynamicChanged => Stays(before, after, f) && before[f].cfg.dyn != after[f].cfg.dyn
  }

  /** A change is rejected exactly if the fsid stands for something else now: another path,
      another backend, or another value, or none, under some key that is not per-node. */
  lemma RejectedMeans(before: map<nat, CatalogExport>, after: map<nat, CatalogExport>, f: nat)
    ensures Is(Rejected, before, after, f) <==>
              && f in before && f in after
              && (before[f].cfg.path != after[f].cfg.path || before[f].cfg.backend != after[f].cfg.backend
                  || exists k :: KeyDiffers(before[f].cfg.values, after[f].cfg.values, k))
  {
    if f in before && f in after { SameKeys(before[f].cfg.values, after[f].cfg.values); }
  }

  lemma SameKeys(a: map<string, string>, b: map<string, string>)
    ensures ClusterKeys(a) == ClusterKeys(b) <==> forall k :: !KeyDiffers(a, b, k)
  {
    hide PerNode;
    var x, y := ClusterKeys(a), ClusterKeys(b);
    assert forall k :: KeyDiffers(a, b, k) <==> (k in x) != (k in y) || (k in x && k in y && x[k] != y[k]);
  }

  predicate KeyDiffers(a: map<string, string>, b: map<string, string>, k: string) {
    !PerNode(k) && ((k in a) != (k in b) || (k in a && k in b && a[k] != b[k]))
  }

  predicate Stays(before: map<nat, CatalogExport>, after: map<nat, CatalogExport>, f: nat) {
    f in before && f in after && SameIdentity(before[f].cfg, after[f].cfg)
  }

  function Mark(change: Change, before: map<nat, CatalogExport>, after: map<nat, CatalogExport>, f: nat): seq<nat> {
    if Is(change, before, after, f) then [f] else []
  }

  function Select(keys: seq<nat>, change: Change, before: map<nat, CatalogExport>,
                  after: map<nat, CatalogExport>): (r: seq<nat>)
    ensures forall f :: f in r <==> f in keys && Is(change, before, after, f)
  {
    if keys == [] then []
    else
      var n := |keys| - 1;
      assert keys == keys[..n] + [keys[n]];
      Select(keys[..n], change, before, after) + Mark(change, before, after, keys[n])
  }

  predicate Rising(keys: seq<nat>) {
    forall i, j | 0 <= i < j < |keys| :: keys[i] < keys[j]
  }

  lemma {:induction false} SelectRises(keys: seq<nat>, change: Change, before: map<nat, CatalogExport>,
                                       after: map<nat, CatalogExport>)
    requires Rising(keys)
    ensures Rising(Select(keys, change, before, after))
  {
    if keys != [] {
      var n := |keys| - 1;
      var rest := Select(keys[..n], change, before, after);
      SelectRises(keys[..n], change, before, after);
      assert forall k | 0 <= k < |rest| :: rest[k] in rest;
    }
  }

  lemma SelectNext(keys: seq<nat>, i: nat, change: Change, before: map<nat, CatalogExport>,
                   after: map<nat, CatalogExport>)
    requires i < |keys|
    ensures Select(keys[..i + 1], change, before, after)
         == Select(keys[..i], change, before, after) + Mark(change, before, after, keys[i])
  {
    assert keys[..i + 1][..i] == keys[..i];
  }

  /** The keys of a std::map in iteration order. */
  method SortedKeys(m: map<nat, CatalogExport>) returns (keys: seq<nat>)
    ensures Rising(keys) && forall f :: f in keys <==> f in m
  {
    keys := [];
    var rest := m.Keys;
    while rest != {}
      invariant forall f :: f in m <==> f in rest || f in keys
      invariant forall f | f in keys :: f !in rest
      invariant DistinctKeys(keys, x => x)
    {
      var f :| f in rest;
      keys := keys + [f];
      rest := rest - {f};
    }
    SortSorts(keys, x => x);
    keys := Sort(keys, x => x);
  }

  /** Every change is reported exactly in its list, each list in ascending order. */
  ghost predicate DiffOf(d: Diff, before: map<nat, CatalogExport>, after: map<nat, CatalogExport>) {
    && Reports(d.added, Added, before, after) && Reports(d.removed, Removed, before, after)
    && Reports(d.disabled, Disabled, before, after) && Reports(d.enabled, Enabled, before, after)
    && Reports(d.nodesChanged, NodesChanged, before, after)
    && Reports(d.dynamicChanged, DynamicChanged, before, after) && Reports(d.rejected, Rejected, before, after)
  }

  ghost predicate Reports(list: seq<nat>, change: Change, before: map<nat, CatalogExport>, after: map<nat, CatalogExport>) {
    Rising(list) && forall f :: f in list <==> Is(change, before, after, f)
  }

  lemma SelectReports(keys: seq<nat>, change: Change, before: map<nat, CatalogExport>, after: map<nat, CatalogExport>)
    requires Rising(keys) && forall f | Is(change, before, after, f) :: f in keys
    ensures Reports(Select(keys, change, before, after), change, before, after)
  {
    SelectRises(keys, change, before, after);
  }

  method Removals(before: map<nat, CatalogExport>, after: map<nat, CatalogExport>) returns (removed: seq<nat>)
    ensures Reports(removed, Removed, before, after)
  {
    var keys := SortedKeys(before);
    removed := [];
    for i := 0 to |keys|
      invariant removed == Select(keys[..i], Removed, before, after)
    {
      SelectNext(keys, i, Removed, before, after);
      if keys[i] !in after { removed := removed + [keys[i]]; }
    }
    assert keys[..|keys|] == keys;
    SelectReports(keys, Removed, before, after);
  }

  /** The per-field lists after looking at the keys so far. */
  ghost predicate DiffSoFar(d: Diff, keys: seq<nat>, before: map<nat, CatalogExport>, after: map<nat, CatalogExport>) {
    && d.added == Select(keys, Added, before, after) && d.rejected == Select(keys, Rejected, before, after)
    && d.disabled == Select(keys, Disabled, before, after) && d.enabled == Select(keys, Enabled, before, after)
    && d.nodesChanged == Select(keys, NodesChanged, before, after)
    && d.dynamicChanged == Select(keys, DynamicChanged, before, after)
  }

  lemma DiffSoFarNext(d: Diff, keys: seq<nat>, i: nat, before: map<nat, CatalogExport>, after: map<nat, CatalogExport>)
    requires i < |keys| && DiffSoFar(d, keys[..i], before, after)
    ensures DiffSoFar(Noted(d, before, after, keys[i]), keys[..i + 1], before, after)
  {
    SelectNext(keys, i, Added, before, after);
    SelectNext(keys, i, Rejected, before, after);
    SelectNext(keys, i, Disabled, before, after);
    SelectNext(keys, i, Enabled, before, after);
    SelectNext(keys, i, NodesChanged, before, after);
    SelectNext(keys, i, DynamicChanged, before, after);
  }

  /** One fsid of the new document goes into each list it belongs to. */
  function Noted(d: Diff, before: map<nat, CatalogExport>, after: map<nat, CatalogExport>, f: nat): Diff {
    Diff(d.added + Mark(Added, before, after, f), d.removed, d.disabled + Mark(Disabled, before, after, f),
         d.enabled + Mark(Enabled, before, after, f), d.nodesChanged + Mark(NodesChanged, before, after, f),
         d.dynamicChanged + Mark(DynamicChanged, before, after, f), d.rejected + Mark(Rejected, before, after, f))
  }

  /** The body of the loop over the new document. */
  method Note(d0: Diff, before: map<nat, CatalogExport>, after: map<nat, CatalogExport>, f: nat) returns (d: Diff)
    requires f in after
    ensures d == Noted(d0, before, after, f)
  {
    d := d0;
    if f !in before { return d.(added := d.added + [f]); }
    var was, now := before[f], after[f];
    if !SameIdentity(was.cfg, now.cfg) { return d.(rejected := d.rejected + [f]); }
    if !was.disabled && now.disabled { d := d.(disabled := d.disabled + [f]); }
    if was.disabled && !now.disabled { d := d.(enabled := d.enabled + [f]); }
    if was.cfg.nodes != now.cfg.nodes { d := d.(nodesChanged := d.nodesChanged + [f]); }
    if was.cfg.dyn != now.cfg.dyn { d := d.(dynamicChanged := d.dynamicChanged + [f]); }
  }

  method NoteAll(removed: seq<nat>, keys: seq<nat>, before: map<nat, CatalogExport>, after: map<nat, CatalogExport>)
    returns (d: Diff)
    requires forall f | f in keys :: f in after
    ensures d.removed == removed && DiffSoFar(d, keys, before, after)
  {
    d := Diff([], removed, [], [], [], [], []);
    for i := 0 to |keys|
      invariant d.removed == removed && DiffSoFar(d, keys[..i], before, after)
    {
      DiffSoFarNext(d, keys, i, before, after);
      d := Note(d, before, after, keys[i]);
    }
    assert keys[..|keys|] == keys;
  }

  method DiffCatalog(from: seq<CatalogExport>, to: seq<CatalogExport>) returns (d: Diff)
    ensures DiffOf(d, Indexed(from), Indexed(to))
  {
    var before, after := Indexed(from), Indexed(to);
    var removed := Removals(before, after);
    var keys := SortedKeys(after);
    d := NoteAll(removed, keys, before, after);
    AllReported(d, keys, before, after);
  }

  lemma AllReported(d: Diff, keys: seq<nat>, before: map<nat, CatalogExport>, after: map<nat, CatalogExport>)
    requires Rising(keys) && (forall f :: f in keys <==> f in after)
    requires DiffSoFar(d, keys, before, after) && Reports(d.removed, Removed, before, after)
    ensures DiffOf(d, before, after)
  {
    NewReports(keys, Added, before, after);
    NewReports(keys, Disabled, before, after);
    NewReports(keys, Enabled, before, after);
    NewReports(keys, NodesChanged, before, after);
    NewReports(keys, DynamicChanged, before, after);
    NewReports(keys, Rejected, before, after);
  }

  lemma NewReports(keys: seq<nat>, change: Change, before: map<nat, CatalogExport>, after: map<nat, CatalogExport>)
    requires Rising(keys) && (forall f :: f in keys <==> f in after) && change != Removed
    ensures Reports(Select(keys, change, before, after), change, before, after)
  {
    assert forall f | Is(change, before, after, f) :: f in after;
    SelectReports(keys, change, before, after);
  }
}
