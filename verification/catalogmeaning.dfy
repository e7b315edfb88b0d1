/** What a catalog text means that was not written by serialize_catalog: keys in any order,
    repeated or left out, sizes with units, and lines that are refused (parse_catalog of
    src/core/catalog.cpp, ExportBlockParser and the field defaults of src/core/config.hpp). */
module CatalogMeaning {
  import opened Config
  import opened Ordering
  import opened Catalogs
  import opened ConfigText
  import opened CatalogText

  // ---- what an export block means --------------------------------------------------

  /** An assignment whose text is a value of its key. */
  predicate Readable(a: Assign) {
    && GoodAssign(a)
    && (a.Str? && a.key.SquashMode? ==> a.s == "none" || a.s == "root" || a.s == "all")
    && (a.Arr? ==> NoneEndsInBackslash(a.xs))
  }

  predicate AllReadable(assigns: seq<Assign>) {
    forall i | 0 <= i < |assigns| :: Readable(assigns[i])
  }

  /** The last assignment to a key, if there is one. */
  function Last(assigns: seq<Assign>, k: Key): Result<Assign> {
    if assigns == [] then Err
    else
      var n := |assigns| - 1;
      if assigns[n].key == k then Ok(assigns[n]) else Last(assigns[..n], k)
  }

  function TextOr(a: Result<Assign>, or: string): string {
    if a.Ok? && a.value.Str? then a.value.s else or
  }

  function NumberOr(a: Result<Assign>, or: nat): nat {
    if a.Err? then or
    else
      match a.value
      case Num(_, n) => n
      case Size(_, n) => n
      case Sized(_, n, u) => InBytes(n, u)
      case _ => or
  }

  function FlagOr(a: Result<Assign>, or: bool): bool {
    if a.Ok? && a.value.Flag? then a.value.b else or
  }

  function ListOr(a: Result<Assign>, or: seq<string>): seq<string> {
    if a.Ok? && a.value.Arr? then a.value.xs else or
  }

  ghost predicate IdentityMeans(e: CatalogExport, assigns: seq<Assign>) {
    && e.cfg.path == NormalizePath(TextOr(Last(assigns, Path), ""))
    && e.cfg.fsid == NumberOr(Last(assigns, Fsid), 0)
    && e.cfg.backend == TextOr(Last(assigns, BackendName), "local")
    && e.cfg.nodes == ListOr(Last(assigns, Nodes), [])
    && e.cfg.dyn.clients == ListOr(Last(assigns, Clients), ["0.0.0.0/0", "::/0"])
    && e.disabled == FlagOr(Last(assigns, DisabledFlag), false)
  }

  ghost predicate PolicyMeans(e: CatalogExport, assigns: seq<Assign>) {
    && e.cfg.dyn.readonly == FlagOr(Last(assigns, Readonly), false)
    && e.cfg.dyn.securePorts == FlagOr(Last(assigns, SecurePorts), true)
    && e.cfg.dyn.strictCookies == FlagOr(Last(assigns, StrictCookies), true)
    && (e.cfg.dyn.squash == NoSquash <==> TextOr(Last(assigns, SquashMode), "root") == "none")
    && (e.cfg.dyn.squash == RootSquash <==> TextOr(Last(assigns, SquashMode), "root") == "root")
    && (e.cfg.dyn.squash == AllSquash <==> TextOr(Last(assigns, SquashMode), "root") == "all")
  }

  ghost predicate LimitsMean(e: CatalogExport, assigns: seq<Assign>) {
    && e.cfg.dyn.anonUid == NumberOr(Last(assigns, AnonUid), 65534)
    && e.cfg.dyn.anonGid == NumberOr(Last(assigns, AnonGid), 65534)
    && e.cfg.dyn.readBps == NumberOr(Last(assigns, ReadBps), 0)
    && e.cfg.dyn.writeBps == NumberOr(Last(assigns, WriteBps), 0)
    && e.cfg.dyn.iops == NumberOr(Last(assigns, Iops), 0)
  }

  /** Every field has the last value assigned to its key, and its default if there is none. */
  ghost predicate Means(e: CatalogExport, assigns: seq<Assign>) {
    IdentityMeans(e, assigns) && PolicyMeans(e, assigns) && LimitsMean(e, assigns)
  }

  lemma LastNext(assigns: seq<Assign>, a: Assign, k: Key)
    ensures Last(assigns + [a], k) == if a.key == k then Ok(a) else Last(assigns, k)
  {
    assert (assigns + [a])[..|assigns|] == assigns;
  }

  /** The export after a readable assignment. */
  function Put(e: CatalogExport, a: Assign): CatalogExport {
    match a
    case Str(k, s) => if SetString(e, k, s).Ok? then SetString(e, k, s).value else e
    case Flag(k, b) => SetBool(e, k, b)
    case Arr(k, xs) => SetArray(e, k, xs)
    case _ => SetNumber(e, a.key, NumberOr(Ok(a), 0))
  }

  lemma IdentityNext(e: CatalogExport, assigns: seq<Assign>, a: Assign)
    requires IdentityMeans(e, assigns) && Readable(a)
    ensures IdentityMeans(Put(e, a), assigns + [a])
  {
    hide Last, NormalizePath, InBytes, SquashOf, NoneEndsInBackslash;
    LastNext(assigns, a, Path);
    LastNext(assigns, a, Fsid);
    LastNext(assigns, a, BackendName);
    LastNext(assigns, a, Nodes);
    LastNext(assigns, a, Clients);
    LastNext(assigns, a, DisabledFlag);
  }

  lemma PolicyNext(e: CatalogExport, assigns: seq<Assign>, a: Assign)
    requires PolicyMeans(e, assigns) && Readable(a)
    ensures PolicyMeans(Put(e, a), assigns + [a])
  {
    hide Last, NormalizePath, InBytes, NoneEndsInBackslash;
    LastNext(assigns, a, Readonly);
    LastNext(assigns, a, SecurePorts);
    LastNext(assigns, a, StrictCookies);
    LastNext(assigns, a, SquashMode);
  }

  lemma LimitsNext(e: CatalogExport, assigns: seq<Assign>, a: Assign)
    requires LimitsMean(e, assigns) && Readable(a)
    ensures LimitsMean(Put(e, a), assigns + [a])
  {
    hide Last, NormalizePath, InBytes, SquashOf, NoneEndsInBackslash;
    LastNext(assigns, a, AnonUid);
    LastNext(assigns, a, AnonGid);
    LastNext(assigns, a, ReadBps);
    LastNext(assigns, a, WriteBps);
    LastNext(assigns, a, Iops);
  }

  lemma ReadableIsPut(e: CatalogExport, a: Assign)
    requires Readable(a)
    ensures AssignTo(e, a) == Ok(Put(e, a)) && Put(e, a).cfg.values == e.cfg.values
  {
    hide Got, NormalizePath, InBytes;
    if a.Arr? { GotIff(a.key, a.xs); }
  }

  lemma AssignMeans(e: CatalogExport, assigns: seq<Assign>, a: Assign)
    requires Means(e, assigns) && Readable(a)
    ensures AssignTo(e, a).Ok? && Means(AssignTo(e, a).value, assigns + [a])
    ensures AssignTo(e, a).value.cfg.values == e.cfg.values
  {
    hide IdentityMeans, PolicyMeans, LimitsMean, AssignTo, Put, Readable;
    ReadableIsPut(e, a);
    IdentityNext(e, assigns, a);
    PolicyNext(e, assigns, a);
    LimitsNext(e, assigns, a);
  }

  lemma DefaultMeans()
    ensures Means(DEFAULT, []) && DEFAULT.cfg.values == map[]
  {
  }

  /** Assignments in any order, with any keys repeated or missing. */
  lemma {:induction false} AssignsMean(assigns: seq<Assign>)
    requires AllReadable(assigns)
    ensures var r := AssignAll(Ok(DEFAULT), assigns);
            r.Ok? && Means(r.value, assigns) && r.value.cfg.values == map[]
    decreases |assigns|
  {
    hide Means, AssignTo, Readable;
    if assigns == [] {
      DefaultMeans();
    } else {
      var n := |assigns| - 1;
      var before, a := assigns[..n], assigns[n];
      AssignsMean(before);
      assert assigns == before + [a];
      var r := AssignAll(Ok(DEFAULT), before);
      AssignAllAppend(Ok(DEFAULT), before, [a]);
      One(r, a, []);
      None(Chain(r, a));
      assert [a] + [] == [a];
      AssignMeans(r.value, before, a);
    }
  }

  // ---- a whole text ----------------------------------------------------------------

  /** An export block as somebody wrote it: assignments, then perhaps a subtable under some
      name. */
  datatype Written = Written(assigns: seq<Assign>, name: string, values: map<string, string>, keys: seq<string>)

  ghost predicate GoodWritten(w: Written) {
    && AllReadable(w.assigns) && GoodName(w.name) && Listing(w.keys, w.values)
    && forall k | k in w.values :: Legible(k) && Uncut(k, w.values[k])
  }

  ghost function WrittenLines(w: Written): seq<string>
    requires GoodWritten(w)
  {
    ["[[export]]"] + (LinesOf(w.assigns)
      + if w.keys == [] then [] else [Section(w.name)] + EntryLines(w.values, w.keys))
  }

  /** The block reads as the export `e`, apart from this host's keys. */
  ghost predicate BlockMeans(e: CatalogExport, w: Written) {
    Means(e, w.assigns) && e.cfg.values == w.values
  }

  lemma ReadableIsGood(assigns: seq<Assign>)
    requires AllReadable(assigns)
    ensures AllGood(assigns)
  {
    hide GoodAssign, NoneEndsInBackslash;
  }

  lemma FeedOne(p: Parser, line: string, q: Parser, rest: seq<string>)
    requires Feed(p, line) == Ok(q)
    ensures FeedAll(p, [line] + rest) == FeedAll(q, rest)
  {
    hide Feed, FeedAll;
    FeedCons(p, line, rest);
  }

  lemma SubtableReads(p: Parser, w: Written)
    requires GoodWritten(w) && p.exports != [] && p.block == Block(false)
    requires p.exports[|p.exports| - 1].cfg.values == map[]
    ensures FeedAll(p, if w.keys == [] then [] else [Section(w.name)] + EntryLines(w.values, w.keys))
         == PutTable(p, Ok(w.values), w.keys != [])
  {
    hide Feed, FeedAll, Section, EntryLines, TableRead, Legible, Uncut, GoodName, AllReadable, PutTable, PutValues;
    PutFirst(p, Ok(w.values));
    if w.keys == [] {
      FeedNothing(p);
      assert w.values == map[];
    } else {
      FeedSection(p, w.name);
      FeedCons(p, Section(w.name), EntryLines(w.values, w.keys));
      FeedEntries(p.(block := Block(true)), w.values, w.keys);
      TableIff(w.values, w.keys);
    }
  }

  /** Reading a block appends what it means. */
  lemma BlockReads(p: Parser, w: Written) returns (e: CatalogExport)
    requires GoodWritten(w)
    ensures FeedAll(p, WrittenLines(w)) == CatalogText.Appended(p, Ok(e), w.keys != []) && BlockMeans(e, w)
  {
    hide Feed, FeedAll, LinesOf, EntryLines, Section, AssignAll, Means, AllReadable, AllGood, Legible, Uncut, GoodName;
    var q := p.(exports := p.exports + [DEFAULT], inHeader := false, block := Block(false));
    var table := if w.keys == [] then [] else [Section(w.name)] + EntryLines(w.values, w.keys);
    FeedExportHeader(p);
    FeedOne(p, "[[export]]", q, LinesOf(w.assigns) + table);
    FeedAllAppend(q, LinesOf(w.assigns), table);
    ReadableIsGood(w.assigns);
    FeedAssigns(q, w.assigns);
    AssignsMean(w.assigns);
    var x := AssignAll(Ok(DEFAULT), w.assigns).value;
    SubtableReads(WithLast(q, x, false), w);
    e := WithTable(x, w.values);
    MeansWithoutTable(x, w);
  }

  lemma MeansWithoutTable(x: CatalogExport, w: Written)
    requires Means(x, w.assigns)
    ensures Means(WithTable(x, w.values), w.assigns)
  {
    hide Last, NormalizePath;
  }

  ghost function BlockLines(ws: seq<Written>): seq<string>
    requires forall w | w in ws :: GoodWritten(w)
  {
    if ws == [] then [] else WrittenLines(ws[0]) + BlockLines(ws[1..])
  }

  /** `xs` are what the blocks mean. */
  ghost predicate BlocksMean(xs: seq<CatalogExport>, ws: seq<Written>) {
    |xs| == |ws| && forall i | 0 <= i < |ws| :: BlockMeans(xs[i], ws[i])
  }

  lemma {:induction false} BlocksRead(p: Parser, ws: seq<Written>) returns (xs: seq<CatalogExport>)
    requires forall w | w in ws :: GoodWritten(w)
    ensures BlocksMean(xs, ws) && Through(FeedAll(p, BlockLines(ws)), p, Ok(xs))
    decreases |ws|
  {
    hide FeedAll, WrittenLines, GoodWritten, BlockMeans;
    if ws == [] {
      FeedNothing(p);
      xs := [];
    } else {
      assert ws[0] in ws;
      FeedAllAppend(p, WrittenLines(ws[0]), BlockLines(ws[1..]));
      var e := BlockReads(p, ws[0]);
      var q := CatalogText.Appended(p, Ok(e), ws[0].keys != []).value;
      var more := BlocksRead(q, ws[1..]);
      Moved(p.exports, e, more);
      xs := [e] + more;
    }
  }

  // ---- the header ------------------------------------------------------------------

  datatype HeadKey = UpdatedAt | UpdatedBy | Comment

  datatype Head = VersionIs(n: nat) | TextIs(key: HeadKey, s: string)

  function HeadText(k: HeadKey): string {
    match k
    case UpdatedAt => "updated_at"
    case UpdatedBy => "updated_by"
    case Comment => "comment"
  }

  function HeadLine(h: Head): string {
    match h
    case VersionIs(n) => Line("version", Digits(n))
    case TextIs(k, s) => Line(HeadText(k), Quote(s))
  }

  function HeadLines(hs: seq<Head>): (r: seq<string>)
    ensures |r| == |hs| && forall i | 0 <= i < |r| :: r[i] == HeadLine(hs[i])
  {
    seq(|hs|, i requires 0 <= i < |hs| => HeadLine(hs[i]))
  }

  predicate GoodHead(hs: seq<Head>) {
    forall i | 0 <= i < |hs| && hs[i].VersionIs? :: hs[i].n < U64
  }

  function LastVersion(hs: seq<Head>): Result<nat> {
    if hs == [] then Err
    else
      var n := |hs| - 1;
      if hs[n].VersionIs? then Ok(hs[n].n) else LastVersion(hs[..n])
  }

  function LastText(hs: seq<Head>, k: HeadKey): string {
    if hs == [] then ""
    else
      var n := |hs| - 1;
      if hs[n].TextIs? && hs[n].key == k then hs[n].s else LastText(hs[..n], k)
  }

  /** The header fields have the last value assigned, and are empty otherwise. */
  ghost predicate MetaMeans(m: Meta, hs: seq<Head>) {
    && m.version == (if LastVersion(hs).Ok? then LastVersion(hs).value else 0)
    && m.updatedAt == LastText(hs, UpdatedAt) && m.updatedBy == LastText(hs, UpdatedBy)
    && m.comment == LastText(hs, Comment)
  }

  function PutHead(m: Meta, h: Head): Meta {
    match h
    case VersionIs(n) => m.(version := n)
    case TextIs(UpdatedAt, s) => m.(updatedAt := s)
    case TextIs(UpdatedBy, s) => m.(updatedBy := s)
    case TextIs(Comment, s) => m.(comment := s)
  }

  lemma HeadReads(p: Parser, h: Head)
    requires p.block == NoBlock && p.inHeader && (h.VersionIs? ==> h.n < U64)
    ensures Feed(p, HeadLine(h)) == Ok(p.(meta := PutHead(p.meta, h), version := p.version || h.VersionIs?))
  {
    hide Feed, Line, Quote, Digits, GoodKey;
    MetaKeys();
    match h
    case VersionIs(n) => FeedVersion(p, n);
    case TextIs(k, s) => FeedString(p, HeadText(k), s, p.(meta := PutHead(p.meta, h)));
  }

  lemma MetaNext(m: Meta, hs: seq<Head>, h: Head)
    requires MetaMeans(m, hs)
    ensures MetaMeans(PutHead(m, h), hs + [h]) && (LastVersion(hs + [h]).Ok? <==> LastVersion(hs).Ok? || h.VersionIs?)
  {
    assert (hs + [h])[..|hs|] == hs;
  }

  lemma {:induction false} HeadsRead(p: Parser, hs: seq<Head>) returns (m: Meta)
    requires p.block == NoBlock && p.inHeader && !p.version && p.meta == START.meta && GoodHead(hs)
    ensures FeedAll(p, HeadLines(hs)) == Ok(p.(meta := m, version := LastVersion(hs).Ok?)) && MetaMeans(m, hs)
    decreases |hs|
  {
    hide Feed, HeadLine, PutHead;
    if hs == [] {
      m := p.meta;
    } else {
      var n := |hs| - 1;
      var h := hs[n];
      var before := HeadsRead(p, hs[..n]);
      var q := p.(meta := before, version := LastVersion(hs[..n]).Ok?);
      assert hs == hs[..n] + [h];
      MetaNext(before, hs[..n], h);
      HeadReads(q, h);
      m := PutHead(before, h);
      FeedAllAppend(p, HeadLines(hs[..n]), [HeadLine(h)]);
      assert HeadLines(hs) == HeadLines(hs[..n]) + [HeadLine(h)];
      hide FeedAll;
      FeedOne(q, HeadLine(h), q.(meta := m, version := q.version || h.VersionIs?), []);
      assert [HeadLine(h)] + [] == [HeadLine(h)];
      FeedNothing(q.(meta := m, version := q.version || h.VersionIs?));
    }
  }

  // ---- the parsed document ---------------------------------------------------------

  ghost predicate GoodBlocks(ws: seq<Written>) {
    forall w | w in ws :: GoodWritten(w)
  }

  ghost function DocumentLines(hs: seq<Head>, ws: seq<Written>): seq<string>
    requires GoodBlocks(ws)
  {
    ["[catalog]"] + (HeadLines(hs) + BlockLines(ws))
  }

  /** An export without this host's keys. */
  ghost predicate ExportMeans(e: CatalogExport, w: Written) {
    && Means(e, w.assigns)
    && (forall k :: k in e.cfg.values <==> k in w.values && !PerNode(k))
    && (forall k | k in e.cfg.values :: e.cfg.values[k] == w.values[k])
  }

  ghost predicate ExportsMean(xs: seq<CatalogExport>, ws: seq<Written>) {
    |xs| == |ws| && forall i | 0 <= i < |ws| :: ExportMeans(xs[i], ws[i])
  }

  lemma StripMeans(e: CatalogExport, w: Written)
    requires BlockMeans(e, w)
    ensures ExportMeans(StripExport(e), w)
  {
    hide Last, NormalizePath, PerNode;
  }

  lemma {:induction false} BlockLinesAreOne(ws: seq<Written>)
    requires GoodBlocks(ws)
    ensures AllOne(BlockLines(ws))
    decreases |ws|
  {
    hide WrittenLines, GoodWritten, AllOne;
    EmptyIsOne();
    if ws != [] {
      assert ws[0] in ws;
      WrittenIsOne(ws[0]);
      BlockLinesAreOne(ws[1..]);
      AllOneAppend(WrittenLines(ws[0]), BlockLines(ws[1..]));
    }
  }

  lemma AssignsAreOne(assigns: seq<Assign>)
    ensures AllOne(LinesOf(assigns))
  {
    hide LineOf, OneLine;
    forall i | 0 <= i < |assigns|
      ensures OneLine(LinesOf(assigns)[i])
    {
      AssignIsOne(assigns[i]);
    }
  }

  lemma WrittenIsOne(w: Written)
    requires GoodWritten(w)
    ensures AllOne(WrittenLines(w))
  {
    hide OneLine, LinesOf, EntryLines, Section, AllOne, Legible, Uncut, GoodName, AllReadable;
    EmptyIsOne();
    AssignsAreOne(w.assigns);
    var table := if w.keys == [] then [] else [Section(w.name)] + EntryLines(w.values, w.keys);
    if w.keys != [] {
      SectionShape(w.name);
      EntriesAreOne(w.values, w.keys);
      OneMoreLine(Section(w.name), EntryLines(w.values, w.keys));
    }
    AllOneAppend(LinesOf(w.assigns), table);
    ExportHeaderIsClean();
    OneMoreLine("[[export]]", LinesOf(w.assigns) + table);
  }

  lemma HeadsAreOne(hs: seq<Head>)
    ensures AllOne(HeadLines(hs))
  {
    hide OneLine, Line, Quote, Digits, GoodKey;
    MetaKeys();
    forall i | 0 <= i < |hs|
      ensures OneLine(HeadLines(hs)[i])
    {
      match hs[i]
      case VersionIs(n) =>
        BareIsOne(n, true);
        GoodKeyIsOne("version", Digits(n));
      case TextIs(k, s) =>
        QuoteIsOne(s);
        GoodKeyIsOne(HeadText(k), Quote(s));
    }
  }

  lemma DocumentIsOne(hs: seq<Head>, ws: seq<Written>)
    requires GoodBlocks(ws)
    ensures AllOne(DocumentLines(hs, ws))
  {
    hide HeadLines, BlockLines, AllOne, OneLine, GoodWritten;
    HeadsAreOne(hs);
    BlockLinesAreOne(ws);
    AllOneAppend(HeadLines(hs), BlockLines(ws));
    CatalogHeaderIsClean();
    OneMoreLine("[catalog]", HeadLines(hs) + BlockLines(ws));
  }

  /** The parser after a header and whole blocks. */
  lemma DocumentReads(hs: seq<Head>, ws: seq<Written>) returns (p: Parser)
    requires GoodHead(hs) && GoodBlocks(ws)
    ensures FeedAll(START, DocumentLines(hs, ws)) == Ok(p)
    ensures p.header && p.version == LastVersion(hs).Ok? && MetaMeans(p.meta, hs) && BlocksMean(p.exports, ws)
  {
    hide Feed, FeedAll, HeadLines, BlockLines, MetaMeans, BlocksMean, GoodHead, GoodWritten;
    var p0 := START.(header := true, inHeader := true);
    FeedCatalogHeader();
    FeedOne(START, "[catalog]", p0, HeadLines(hs) + BlockLines(ws));
    FeedAllAppend(p0, HeadLines(hs), BlockLines(ws));
    var m := HeadsRead(p0, hs);
    var q := p0.(meta := m, version := LastVersion(hs).Ok?);
    var xs := BlocksRead(q, ws);
    p := FeedAll(q, BlockLines(ws)).value;
    assert p.exports == [] + xs == xs;
  }

  /** What a text means.  Without a version it is refused.  Otherwise every header field and every
      field of every export has the last value assigned to it, or its default; the subtables come
      without this host's keys, and the exports stand by fsid. */
  lemma ParseMeans(hs: seq<Head>, ws: seq<Written>) returns (m: Meta, xs: seq<CatalogExport>)
    requires GoodHead(hs) && GoodBlocks(ws)
    ensures MetaMeans(m, hs) && ExportsMean(xs, ws)
    ensures Parse(Unlines(DocumentLines(hs, ws)))
         == if LastVersion(hs).Err? then Err else Ok(Catalog(m, Sort(xs, ExportFsid)))
  {
    hide FeedAll, LinesFrom, Unlines, DocumentLines, MetaMeans, BlockMeans, ExportMeans, Sort, GoodHead, GoodBlocks;
    DocumentIsOne(hs, ws);
    LinesOfText(DocumentLines(hs, ws));
    var p := DocumentReads(hs, ws);
    m, xs := p.meta, StripAll(p.exports);
    forall i | 0 <= i < |ws|
      ensures ExportMeans(xs[i], ws[i])
    {
      StripMeans(p.exports[i], ws[i]);
    }
  }

  // ---- reading the version alone ---------------------------------------------------

  function FirstVersion(hs: seq<Head>): Result<nat> {
    if hs == [] then Err else if hs[0].VersionIs? then Ok(hs[0].n) else FirstVersion(hs[1..])
  }

  lemma PeekPasses(k: HeadKey, s: string, rest: seq<string>)
    ensures PeekLines([HeadLine(TextIs(k, s))] + rest, true) == PeekLines(rest, true)
  {
    hide Clean, SplitEntry, Line, Quote, GoodKey, Scalar, UintValue;
    var key := HeadText(k);
    var t := Line(key, Quote(s));
    MetaKeys();
    QuoteIsScalar(s);
    ScalarLine(key, Quote(s));
    GoodKeyStarts(key);
    assert key != "version" by { assert key[0] != "version"[0]; }
    assert ([t] + rest)[1..] == rest && ([t] + rest)[0] == t;
  }

  lemma {:induction false} PeekHeads(hs: seq<Head>, rest: seq<string>)
    requires GoodHead(hs) && FirstVersion(hs).Ok?
    ensures PeekLines(HeadLines(hs) + rest, true) == FirstVersion(hs)
    decreases |hs|
  {
    hide PeekLines, HeadLine, HeadLines;
    var h, more := hs[0], hs[1..];
    HeadLinesCons(hs);
    assert HeadLines(hs) + rest == [HeadLine(h)] + (HeadLines(more) + rest);
    match h
    case VersionIs(n) => PeekVersion(n, HeadLines(more) + rest);
    case TextIs(k, s) =>
      PeekPasses(k, s, HeadLines(more) + rest);
      PeekHeads(more, rest);
  }

  lemma HeadLinesCons(hs: seq<Head>)
    requires hs != []
    ensures HeadLines(hs) == [HeadLine(hs[0])] + HeadLines(hs[1..])
  {
    hide HeadLine;
  }

  lemma PeekVersion(n: nat, rest: seq<string>)
    requires n < U64
    ensures PeekLines([HeadLine(VersionIs(n))] + rest, true) == Ok(n)
  {
    hide PeekLines, Line, Digits;
    PeekVersionLine(n, rest);
  }

  /** The two readers of a version: peek_catalog_version takes the first one of the header,
      parse_catalog the last.  They agree exactly on headers where these are the same. */
  lemma PeekAgrees(hs: seq<Head>, ws: seq<Written>)
    requires GoodHead(hs) && GoodBlocks(ws) && FirstVersion(hs).Ok?
    ensures var text := Unlines(DocumentLines(hs, ws));
            && Peek(text) == FirstVersion(hs) && Parse(text).Ok? && LastVersion(hs).Ok?
            && Parse(text).value.meta.version == LastVersion(hs).value
            && (Peek(text) == Ok(Parse(text).value.meta.version) <==> FirstVersion(hs) == LastVersion(hs))
  {
    hide LinesFrom, Unlines, Parse, PeekLines, HeadLines, BlockLines, GoodWritten, GoodHead;
    DocumentIsOne(hs, ws);
    LinesOfText(DocumentLines(hs, ws));
    PeekHeader(HeadLines(hs) + BlockLines(ws));
    PeekHeads(hs, BlockLines(ws));
    FirstAndLast(hs);
    var m, xs := ParseMeans(hs, ws);
  }

  lemma {:induction false} FirstAndLast(hs: seq<Head>)
    requires FirstVersion(hs).Ok?
    ensures LastVersion(hs).Ok?
    decreases |hs|
  {
    var n := |hs| - 1;
    if !hs[n].VersionIs? {
      FirstIsBefore(hs);
      FirstAndLast(hs[..n]);
    }
  }

  lemma {:induction false} FirstIsBefore(hs: seq<Head>)
    requires hs != [] && FirstVersion(hs).Ok? && !hs[|hs| - 1].VersionIs?
    ensures FirstVersion(hs[..|hs| - 1]).Ok?
    decreases |hs|
  {
    if !hs[0].VersionIs? {
      FirstIsBefore(hs[1..]);
      assert hs[..|hs| - 1][1..] == hs[1..][..|hs| - 2];
    }
  }

  // ---- what is refused -------------------------------------------------------------

  /** A line of an export block that is an error: a key nobody knows, a number or size that does
      not fit its field, a unit or squash mode nobody knows, a value of the wrong kind. */
  datatype Fault =
    | UnknownKey(key: string, text: string)
    | TooBig(k: Key, n: nat)
    | TooBigSize(k: Key, n: nat, unit: Unit)
    | UnknownUnit(k: Key, n: nat, suffix: string)
    | UnknownMode(s: string)
    | NotABool(k: Key, text: string)
    | NotANumber(k: Key, text: string)
    | NotAString(k: Key, text: string)
    | NotAList(k: Key, text: string)

  ghost predicate IsFault(f: Fault) {
    match f
    case UnknownKey(key, text) =>
      && GoodKey(key) && Scalar(text) && '\n' !in text
      && key !in {"path", "fsid", "backend", "nodes", "clients", "readonly", "secure_ports", "strict_readdir_cookies",
                  "squash", "anon_uid", "anon_gid", "read_bps", "write_bps", "iops", "disabled"}
    case TooBig(k, n) => (NumberKey(k) && n >= 0x1_0000_0000) || (SizeKey(k) && n >= 0x1_0000_0000_0000_0000)
    case TooBigSize(k, n, u) => SizeKey(k) && InBytes(n, u) >= 0x1_0000_0000_0000_0000
    case UnknownUnit(k, _, suffix) =>
      SizeKey(k) && suffix !in {"", "B", "KiB", "MiB", "GiB"} && (suffix != "" ==> !IsDigit(suffix[0]))
    case UnknownMode(s) => s != "none" && s != "root" && s != "all"
    case NotABool(k, text) => BoolKey(k) && Scalar(text) && '\n' !in text && text != "true" && text != "false"
    case NotANumber(k, text) => NumberKey(k) && Scalar(text) && '\n' !in text && !AllDigits(text)
    case NotAString(k, text) => StringKey(k) && Scalar(text) && '\n' !in text && text[0] != '"'
    case NotAList(k, text) => (k.Nodes? || k.Clients?) && Scalar(text) && '\n' !in text && text[0] != '['
  }

  function FaultLine(f: Fault): string {
    match f
    case UnknownKey(key, text) => Line(key, text)
    case TooBig(k, n) => Line(KeyText(k), Digits(n))
    case TooBigSize(k, n, u) => Line(KeyText(k), Quote(Digits(n) + UnitText(u)))
    case UnknownUnit(k, n, suffix) => Line(KeyText(k), Quote(Digits(n) + suffix))
    case UnknownMode(s) => Line(KeyText(SquashMode), Quote(s))
    case NotABool(k, text) => Line(KeyText(k), text)
    case NotANumber(k, text) => Line(KeyText(k), text)
    case NotAString(k, text) => Line(KeyText(k), text)
    case NotAList(k, text) => Line(KeyText(k), text)
  }

  lemma UnknownKeyFails(p: Parser, key: string, text: string)
    requires p.exports != [] && p.block == Block(false) && IsFault(UnknownKey(key, text))
    ensures Feed(p, Line(key, text)) == Err
  {
    hide Line, Clean, SplitEntry, SetField, Scalar, TopLine, GoodKey;
    var t := Line(key, text);
    ScalarLine(key, text);
    GoodKeyStarts(key);
  }

  lemma GoodKeyStarts(key: string)
    requires GoodKey(key)
    ensures key != "" && key[0] != '['
  {
  }

  lemma ReadsAsErr(p: Parser, line: string)
    requires p.exports != [] && p.block == Block(false) && ReadsAs(p.exports[|p.exports| - 1], line, Err)
    ensures Feed(p, line) == Err
  {
    hide BlockLine, TopLine, Clean;
  }

  lemma BigUint(t: string, v: View, n: nat)
    requires Tight(t, v) && Text(t, v) == Digits(n) && n >= U64
    ensures UintValue(t, v) == Err
  {
    TrimmedText(t, v, Digits(n));
    DigitsRoundTrip(n);
  }

  lemma TooBigFails(e: CatalogExport, k: Key, n: nat)
    requires IsFault(TooBig(k, n))
    ensures ReadsAs(e, Line(KeyText(k), Digits(n)), Err)
  {
    hide KeyText, Digits, Scalar, SetNumber, Line, UintValue;
    var t := Line(KeyText(k), Digits(n));
    var v := View(|KeyText(k)| + 3, |t|);
    DigitsAreScalar(n);
    if Tight(t, v) && Text(t, v) == Digits(n) {
      if n < U64 { UintOf(t, v, n); } else { BigUint(t, v, n); }
      TrimTo(t, v, v);
      assert t[v.lo] == Text(t, v)[0];
    }
    ScalarReads(e, k, Digits(n), Err);
  }

  lemma NotABoolFails(e: CatalogExport, k: Key, text: string)
    requires IsFault(NotABool(k, text))
    ensures ReadsAs(e, Line(KeyText(k), text), Err)
  {
    hide KeyText, Scalar, SetBool, Line;
    var t := Line(KeyText(k), text);
    var v := View(|KeyText(k)| + 3, |t|);
    ScalarIsSome(text);
    if Tight(t, v) && Text(t, v) == text { TrimmedText(t, v, text); }
    ScalarReads(e, k, text, Err);
  }

  lemma NotANumberFails(e: CatalogExport, k: Key, text: string)
    requires IsFault(NotANumber(k, text))
    ensures ReadsAs(e, Line(KeyText(k), text), Err)
  {
    hide KeyText, Scalar, SetNumber, Line;
    var t := Line(KeyText(k), text);
    var v := View(|KeyText(k)| + 3, |t|);
    ScalarIsSome(text);
    if Tight(t, v) && Text(t, v) == text { TrimmedText(t, v, text); }
    ScalarReads(e, k, text, Err);
  }

  lemma NotAStringFails(e: CatalogExport, k: Key, text: string)
    requires IsFault(NotAString(k, text))
    ensures ReadsAs(e, Line(KeyText(k), text), Err)
  {
    hide KeyText, Scalar, SetString, Line, Unescape;
    var t := Line(KeyText(k), text);
    var v := View(|KeyText(k)| + 3, |t|);
    ScalarIsSome(text);
    if Tight(t, v) && Text(t, v) == text {
      TrimTo(t, v, v);
      assert t[v.lo] == Text(t, v)[0];
    }
    ScalarReads(e, k, text, Err);
  }

  lemma NotAListFails(e: CatalogExport, k: Key, text: string)
    requires IsFault(NotAList(k, text))
    ensures ReadsAs(e, Line(KeyText(k), text), Err)
  {
    hide KeyText, Scalar, SetArray, Line, Items;
    var t := Line(KeyText(k), text);
    var v := View(|KeyText(k)| + 3, |t|);
    ScalarIsSome(text);
    if Tight(t, v) && Text(t, v) == text {
      TrimTo(t, v, v);
      assert t[v.lo] == Text(t, v)[0];
    }
    ScalarReads(e, k, text, Err);
  }

  /** What a quoted size reads as, whatever its suffix. */
  lemma SuffixedSize(t: string, v: View, n: nat, suffix: string)
    requires In(v, t) && At(t, v.lo, Quote(Digits(n) + suffix)) && v.hi == v.lo + |Quote(Digits(n) + suffix)|
    requires suffix != "" ==> !IsDigit(suffix[0])
    ensures SizeValue(t, v) ==
              var m := Multiplier(suffix);
              if n >= U64 || m == 0 || n > (U64 - 1) / m then Err else Ok(n * m)
  {
    hide Digits, Quote, StringValue, CountDigits, Multiplier, Number;
    var s := Digits(n) + suffix;
    StringRoundTrip(t, v, s);
    AtQuote(t, v.lo, s);
    QuoteEnds(s);
    TrimTo(t, v, v);
    CountAllDigits(s, 0, |Digits(n)|);
    DigitsRoundTrip(n);
    assert s[..|Digits(n)|] == Digits(n) && s[|Digits(n)|..] == suffix;
  }

  lemma BigBytes(n: nat, u: Unit)
    requires InBytes(n, u) >= U64
    ensures var m := Multiplier(UnitText(u)); n >= U64 || m == 0 || n > (U64 - 1) / m
  {
  }

  lemma UnknownMultiplier(suffix: string)
    requires suffix !in {"", "B", "KiB", "MiB", "GiB"}
    ensures Multiplier(suffix) == 0
  {
  }

  lemma SuffixedFails(e: CatalogExport, k: Key, n: nat, suffix: string)
    requires SizeKey(k) && (suffix != "" ==> !IsDigit(suffix[0]))
    requires var m := Multiplier(suffix); n >= U64 || m == 0 || n > (U64 - 1) / m
    ensures ReadsAs(e, Line(KeyText(k), Quote(Digits(n) + suffix)), Err)
  {
    hide KeyText, Digits, Scalar, SetNumber, Line, SizeValue, Quote, Multiplier;
    var text := Quote(Digits(n) + suffix);
    var t := Line(KeyText(k), text);
    var v := View(|KeyText(k)| + 3, |t|);
    if In(v, t) && At(t, v.lo, text) && v.hi == v.lo + |text| { SuffixedSize(t, v, n, suffix); }
    QuoteIsScalar(Digits(n) + suffix);
    ScalarReads(e, k, text, Err);
  }

  lemma ScalarIsSome(text: string)
    requires Scalar(text)
    ensures text != ""
  {
  }

  lemma UnknownModeFails(e: CatalogExport, s: string)
    requires IsFault(UnknownMode(s))
    ensures ReadsAs(e, Line(KeyText(SquashMode), Quote(s)), Err)
  {
    hide ReadsAs, Line, Quote, KeyText;
    StrReads(e, SquashMode, s);
  }

  /** The fault in a value of a known key. */
  lemma ValueFaultReads(e: CatalogExport, f: Fault)
    requires IsFault(f) && !f.UnknownKey?
    ensures ReadsAs(e, FaultLine(f), Err)
  {
    hide ReadsAs, Line, Digits, Quote, KeyText, Scalar, Multiplier, UnitText, InBytes;
    match f
    case TooBig(k, n) => TooBigFails(e, k, n);
    case TooBigSize(k, n, u) =>
      UnitMeans(u);
      BigBytes(n, u);
      SuffixedFails(e, k, n, UnitText(u));
    case UnknownUnit(k, n, suffix) =>
      UnknownMultiplier(suffix);
      SuffixedFails(e, k, n, suffix);
    case UnknownMode(s) => UnknownModeFails(e, s);
    case NotABool(k, text) => NotABoolFails(e, k, text);
    case NotANumber(k, text) => NotANumberFails(e, k, text);
    case NotAString(k, text) => NotAStringFails(e, k, text);
    case NotAList(k, text) => NotAListFails(e, k, text);
  }

  lemma FaultFails(p: Parser, f: Fault)
    requires p.exports != [] && p.block == Block(false) && IsFault(f)
    ensures Feed(p, FaultLine(f)) == Err
  {
    if f.UnknownKey? {
      hide Feed, IsFault, Line;
      UnknownKeyFails(p, f.key, f.text);
    } else {
      hide Feed, IsFault, ReadsAs, FaultLine;
      ValueFaultReads(p.exports[|p.exports| - 1], f);
      ReadsAsErr(p, FaultLine(f));
    }
  }

  /** The text of a fault's value. */
  function FaultText(f: Fault): string {
    match f
    case TooBig(_, n) => Digits(n)
    case TooBigSize(_, n, u) => Quote(Digits(n) + UnitText(u))
    case UnknownUnit(_, n, suffix) => Quote(Digits(n) + suffix)
    case UnknownMode(s) => Quote(s)
    case _ => f.text
  }

  lemma FaultIsOne(f: Fault)
    requires IsFault(f)
    ensures OneLine(FaultLine(f))
  {
    hide OneLine, Line, Digits, Quote, KeyText, Scalar, GoodKey;
    FaultTextIsOne(f);
    if f.UnknownKey? {
      GoodKeyIsOne(f.key, f.text);
    } else {
      var k := if f.UnknownMode? then SquashMode else f.k;
      KeyTextIsGood(k);
      GoodKeyIsOne(KeyText(k), FaultText(f));
    }
  }

  lemma FaultTextIsOne(f: Fault)
    requires IsFault(f)
    ensures OneLine(FaultText(f))
  {
    hide OneLine, Digits, Quote, Scalar, GoodKey;
    match f
    case TooBig(_, n) => BareIsOne(n, true);
    case TooBigSize(_, n, u) => QuoteIsOne(Digits(n) + UnitText(u));
    case UnknownUnit(_, n, suffix) => QuoteIsOne(Digits(n) + suffix);
    case UnknownMode(s) => QuoteIsOne(s);
    case _ => PlainOne(f.text);
  }

  lemma PlainOne(text: string)
    requires '\n' !in text
    ensures OneLine(text)
  {
    assert forall i | 0 <= i < |text| :: text[i] in text;
  }

  /** One faulty line anywhere in an export block, and the whole text is refused, whatever follows. */
  lemma FaultRefusesText(hs: seq<Head>, ws: seq<Written>, assigns: seq<Assign>, f: Fault, more: seq<string>)
    requires GoodHead(hs) && GoodBlocks(ws) && AllReadable(assigns) && IsFault(f)
    ensures Parse(Unlines(DocumentLines(hs, ws) + (["[[export]]"] + (LinesOf(assigns) + ([FaultLine(f)] + more))))) == Err
  {
    hide FeedAll, Feed, LinesFrom, Unlines, DocumentLines, LinesOf, FaultLine, IsFault, AllReadable, AllOne, GoodHead, GoodBlocks;
    var head := DocumentLines(hs, ws) + (["[[export]]"] + (LinesOf(assigns) + [FaultLine(f)]));
    var whole := DocumentLines(hs, ws) + (["[[export]]"] + (LinesOf(assigns) + ([FaultLine(f)] + more)));
    assert whole == head + more;
    FaultyLinesAreOne(hs, ws, assigns, f);
    LinesAfter(head, more);
    FaultyFeed(hs, ws, assigns, f);
    FeedAllAppend(START, head, LinesFrom(Unlines(whole), |Unlines(head)|));
  }

  lemma FaultyLinesAreOne(hs: seq<Head>, ws: seq<Written>, assigns: seq<Assign>, f: Fault)
    requires GoodBlocks(ws) && IsFault(f)
    ensures AllOne(DocumentLines(hs, ws) + (["[[export]]"] + (LinesOf(assigns) + [FaultLine(f)])))
  {
    hide OneLine, DocumentLines, LinesOf, FaultLine, IsFault, AllOne, GoodBlocks;
    DocumentIsOne(hs, ws);
    AssignsAreOne(assigns);
    FaultIsOne(f);
    EmptyIsOne();
    OneMoreLine(FaultLine(f), []);
    assert [FaultLine(f)] + [] == [FaultLine(f)];
    AllOneAppend(LinesOf(assigns), [FaultLine(f)]);
    ExportHeaderIsClean();
    OneMoreLine("[[export]]", LinesOf(assigns) + [FaultLine(f)]);
    AllOneAppend(DocumentLines(hs, ws), ["[[export]]"] + (LinesOf(assigns) + [FaultLine(f)]));
  }

  lemma FaultyFeed(hs: seq<Head>, ws: seq<Written>, assigns: seq<Assign>, f: Fault)
    requires GoodHead(hs) && GoodBlocks(ws) && AllReadable(assigns) && IsFault(f)
    ensures FeedAll(START, DocumentLines(hs, ws) + (["[[export]]"] + (LinesOf(assigns) + [FaultLine(f)]))) == Err
  {
    hide FeedAll, Feed, DocumentLines, LinesOf, FaultLine, IsFault, AllReadable, AllGood, AssignAll, GoodHead, GoodBlocks, Means;
    var tail := LinesOf(assigns) + [FaultLine(f)];
    FeedAllAppend(START, DocumentLines(hs, ws), ["[[export]]"] + tail);
    var p := DocumentReads(hs, ws);
    var q := p.(exports := p.exports + [DEFAULT], inHeader := false, block := Block(false));
    FeedExportHeader(p);
    FeedOne(p, "[[export]]", q, tail);
    FeedAllAppend(q, LinesOf(assigns), [FaultLine(f)]);
    ReadableIsGood(assigns);
    FeedAssigns(q, assigns);
    AssignsMean(assigns);
    var x := AssignAll(Ok(DEFAULT), assigns).value;
    FaultFails(WithLast(q, x, false), f);
    FeedCons(WithLast(q, x, false), FaultLine(f), []);
    assert [FaultLine(f)] + [] == [FaultLine(f)];
  }

  // ---- faults outside the export blocks --------------------------------------------

  /** A section nobody knows, or a second header. */
  predicate StraySection(line: string) {
    && |line| >= 2 && line[0] == '[' && line[|line| - 1] == ']' && Plain(line) && '\n' !in line
    && line != "[[export]]" && !("[export." <= line)
  }

  /** A key of the header that nobody knows. */
  ghost predicate StrayKey(key: string, text: string) {
    && GoodKey(key) && Scalar(text) && '\n' !in text
    && key !in {"version", "updated_at", "updated_by", "comment"}
  }

  lemma StraySectionFails(p: Parser, line: string)
    requires p.header && StraySection(line)
    ensures Feed(p, line) == Err
  {
    hide SplitEntry, Clean, SetMeta, Plain;
    BracketLine(line);
    assert line[0..|line|] == line;
    assert |line| >= 8 ==> line[0..8] == line[..8];
  }

  lemma StrayKeyFails(p: Parser, key: string, text: string)
    requires p.block == NoBlock && GoodKey(key) && Scalar(text) && (!p.inHeader || StrayKey(key, text))
    ensures Feed(p, Line(key, text)) == Err
  {
    hide Line, Clean, SplitEntry, Scalar, BlockLine, GoodKey;
    var t := Line(key, text);
    ScalarLine(key, text);
    GoodKeyStarts(key);
    assert Text(t, View(0, |t|))[0] == key[0];
  }

  /** Refused at this point means refused, whatever follows. */
  lemma LineRefusesText(lines: seq<string>, p: Parser, line: string, more: seq<string>)
    requires FeedAll(START, lines) == Ok(p) && Feed(p, line) == Err && AllOne(lines) && OneLine(line)
    ensures Parse(Unlines(lines + ([line] + more))) == Err
  {
    hide FeedAll, Feed, LinesFrom, Unlines, OneLine, AllOne;
    EmptyIsOne();
    OneMoreLine(line, []);
    assert [line] + [] == [line];
    AllOneAppend(lines, [line]);
    var head := lines + [line];
    assert head + more == lines + ([line] + more);
    LinesAfter(head, more);
    FeedAllAppend(START, lines, [line]);
    FeedCons(p, line, []);
    FeedAllAppend(START, head, LinesFrom(Unlines(head + more), |Unlines(head)|));
  }

  /** A section nobody knows or a second header anywhere behind the header, before, between or
      behind the exports: the text is refused. */
  lemma SectionRefusesText(hs: seq<Head>, ws: seq<Written>, line: string, more: seq<string>)
    requires GoodHead(hs) && GoodBlocks(ws) && StraySection(line)
    ensures Parse(Unlines(DocumentLines(hs, ws) + ([line] + more))) == Err
  {
    hide FeedAll, Feed, Unlines, DocumentLines, AllOne, OneLine, StraySection, GoodHead, GoodBlocks, Parse;
    var p := DocumentReads(hs, ws);
    DocumentIsOne(hs, ws);
    StraySectionFails(p, line);
    StrayIsOne(line);
    LineRefusesText(DocumentLines(hs, ws), p, line, more);
  }

  lemma StrayIsOne(line: string)
    requires StraySection(line)
    ensures OneLine(line)
  {
    PlainOne(line);
  }

  /** A header key nobody knows, or any key before the header: the text is refused. */
  lemma KeyRefusesText(hs: seq<Head>, key: string, text: string, more: seq<string>)
    requires GoodHead(hs) && GoodKey(key) && Scalar(text) && '\n' !in text
    ensures StrayKey(key, text) ==> Parse(Unlines((["[catalog]"] + HeadLines(hs)) + ([Line(key, text)] + more))) == Err
    ensures Parse(Unlines([Line(key, text)] + more)) == Err
  {
    hide FeedAll, Feed, Unlines, AllOne, OneLine, GoodHead, Parse, HeadLines, Line, Scalar, GoodKey;
    PlainOne(text);
    GoodKeyIsOne(key, text);
    EmptyIsOne();
    FeedNothing(START);
    StrayKeyFails(START, key, text);
    LineRefusesText([], START, Line(key, text), more);
    assert [] + ([Line(key, text)] + more) == [Line(key, text)] + more;
    if StrayKey(key, text) {
      var p := HeaderReads(hs);
      StrayKeyFails(p, key, text);
      HeadsAreOne(hs);
      CatalogHeaderIsClean();
      OneMoreLine("[catalog]", HeadLines(hs));
      LineRefusesText(["[catalog]"] + HeadLines(hs), p, Line(key, text), more);
    }
  }

  lemma HeaderReads(hs: seq<Head>) returns (p: Parser)
    requires GoodHead(hs)
    ensures FeedAll(START, ["[catalog]"] + HeadLines(hs)) == Ok(p) && p.block == NoBlock && p.inHeader
  {
    hide FeedAll, Feed, HeadLines, GoodHead;
    var p0 := START.(header := true, inHeader := true);
    FeedCatalogHeader();
    FeedOne(START, "[catalog]", p0, HeadLines(hs));
    var m := HeadsRead(p0, hs);
    p := p0.(meta := m, version := LastVersion(hs).Ok?);
  }

  /** Outside the header a version is passed over by peek_catalog_version as well. */
  lemma {:induction false} PeekNeedsHeader(hs: seq<Head>, rest: seq<string>)
    ensures PeekLines(HeadLines(hs) + rest, false) == PeekLines(rest, false)
    decreases |hs|
  {
    if hs == [] {
      assert HeadLines(hs) + rest == rest;
    } else {
      hide PeekLines, HeadLine, HeadLines;
      HeadLinesCons(hs);
      var tail := HeadLines(hs[1..]) + rest;
      assert HeadLines(hs) + rest == [HeadLine(hs[0])] + tail;
      PeekSkips(hs[0], tail);
      PeekNeedsHeader(hs[1..], rest);
    }
  }

  lemma PeekSkips(h: Head, rest: seq<string>)
    ensures PeekLines([HeadLine(h)] + rest, false) == PeekLines(rest, false)
  {
    hide Clean, SplitEntry, Line, Quote, Digits, GoodKey, Scalar, UintValue;
    MetaKeys();
    var key := if h.VersionIs? then "version" else HeadText(h.key);
    var text := if h.VersionIs? then Digits(h.n) else Quote(h.s);
    var t := Line(key, text);
    if h.VersionIs? { DigitsAreScalar(h.n); } else { QuoteIsScalar(h.s); }
    ScalarLine(key, text);
    GoodKeyStarts(key);
    assert ([t] + rest)[1..] == rest && ([t] + rest)[0] == t;
  }

  /** Any section other than [catalog] ends the header for peek_catalog_version. */
  lemma SectionEndsHeader(line: string, rest: seq<string>, inHeader: bool)
    requires |line| >= 2 && line[0] == '[' && line[|line| - 1] == ']' && Plain(line) && line != "[catalog]"
    ensures PeekLines([line] + rest, inHeader) == PeekLines(rest, false)
  {
    hide Clean, SplitEntry, Plain, UintValue;
    BracketLine(line);
    assert line[0..|line|] == line;
    assert ([line] + rest)[1..] == rest && ([line] + rest)[0] == line;
  }

  // ---- bare values of a subtable ---------------------------------------------------

  /** What an unquoted subtable value is: a truth value, a number in its shortest form, or an
      error. */
  function BareValue(text: string): Result<string> {
    if text == "true" || text == "false" then Ok(text)
    else if AllDigits(text) && Number(text) < 0x1_0000_0000_0000_0000 then Ok(Digits(Number(text)))
    else Err
  }

  lemma BareValueReads(p: Parser, key: string, text: string)
    requires p.exports != [] && p.block == Block(true) && GoodKey(key) && Scalar(text) && text[0] != '"'
    ensures Feed(p, Line(key, text)) ==
              match BareValue(text)
              case Ok(v) => PutValues(p, Ok(map[key := v]))
              case Err => Err
  {
    hide Line, Clean, SplitEntry, SetField, Scalar, TopLine, GoodKey, KeyOf, Digits, Number;
    var t := Line(key, text);
    var v := View(|key| + 3, |t|);
    ScalarIsSome(text);
    ScalarLine(key, text);
    GoodKeyStarts(key);
    assert t[v.lo] == Text(t, v)[0];
    TrimmedText(t, v, text);
    var e, got := p.exports[|p.exports| - 1], BareValue(text);
    if got.Ok? { assert e.cfg.values[key := got.value] == e.cfg.values + map[key := got.value]; }
  }
}
