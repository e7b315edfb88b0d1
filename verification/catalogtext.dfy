/** The catalog file: parse_catalog, peek_catalog_version and serialize_catalog of
    src/core/catalog.cpp, with ExportBlockParser of src/core/config.cpp. */
module CatalogText {
  import opened Config
  import opened Ordering
  import opened Catalogs
  import opened ConfigText

  // ---- lines -----------------------------------------------------------------------

  function FindNewline(text: string, i: nat): (e: nat)
    requires i <= |text|
    ensures i <= e <= |text| && (e < |text| ==> text[e] == '\n')
    decreases |text| - i
  {
    if i < |text| && text[i] != '\n' then FindNewline(text, i + 1) else i
  }

  /** What repeated std::getline calls return from position `i` on. */
  function LinesFrom(text: string, i: nat): seq<string>
    requires i <= |text|
    decreases |text| - i
  {
    if i == |text| then []
    else
      var e := FindNewline(text, i);
      [text[i..e]] + if e == |text| then [] else LinesFrom(text, e + 1)
  }

  function Unlines(lines: seq<string>): string {
    if lines == [] then "" else lines[0] + (['\n'] + Unlines(lines[1..]))
  }

  predicate OneLine(s: string) {
    forall i | 0 <= i < |s| :: s[i] != '\n'
  }

  lemma {:induction false} FindNewlineAt(text: string, i: nat, s: string)
    requires At(text, i, s) && OneLine(s) && i + |s| < |text| && text[i + |s|] == '\n'
    ensures FindNewline(text, i) == i + |s|
    decreases |s|
  {
    if s != "" {
      AtCons(text, i, s[0], s[1..]);
      assert s == [s[0]] + s[1..];
      FindNewlineAt(text, i + 1, s[1..]);
    }
  }

  lemma LinesStep(text: string, i: nat, l: string)
    requires At(text, i, l) && OneLine(l) && i + |l| < |text| && text[i + |l|] == '\n'
    ensures LinesFrom(text, i) == [l] + LinesFrom(text, i + |l| + 1)
  {
    FindNewlineAt(text, i, l);
    AtText(text, i, l);
    hide At, OneLine, FindNewline;
    LinesUnfold(text, i, i + |l|);
  }

  lemma UnlinesAt(text: string, i: nat, lines: seq<string>)
    requires lines != [] && At(text, i, Unlines(lines))
    ensures var l := lines[0];
            && At(text, i, l) && i + |l| < |text| && text[i + |l|] == '\n' && At(text, i + |l| + 1, Unlines(lines[1..]))
            && |Unlines(lines)| == |l| + 1 + |Unlines(lines[1..])|
  {
    var l, rest := lines[0], Unlines(lines[1..]);
    hide At;
    AtParts(text, i, l, ['\n'] + rest);
    AtCons(text, i + |l|, '\n', rest);
  }

  /** Splitting undoes joining, for lines that hold no newline, whatever text follows them. */
  lemma {:induction false} LinesRoundTrip(text: string, i: nat, lines: seq<string>)
    requires At(text, i, Unlines(lines)) && forall l | l in lines :: OneLine(l)
    ensures i + |Unlines(lines)| <= |text| && LinesFrom(text, i) == lines + LinesFrom(text, i + |Unlines(lines)|)
    decreases |lines|
  {
    hide LinesFrom, Unlines, OneLine;
    AtFits(text, i, Unlines(lines));
    hide At;
    if lines == [] {
      NoLines(LinesFrom(text, i));
    } else {
      UnlinesAt(text, i, lines);
      LinesStep(text, i, lines[0]);
      var next := i + |lines[0]| + 1;
      LinesRoundTrip(text, next, lines[1..]);
      LinesJoin(lines, LinesFrom(text, next + |Unlines(lines[1..])|));
    }
  }

  lemma NoLines(rest: seq<string>)
    ensures Unlines([]) == "" && [] + rest == rest
  {
  }

  lemma LinesJoin(lines: seq<string>, rest: seq<string>)
    requires lines != []
    ensures [lines[0]] + (lines[1..] + rest) == lines + rest
  {
  }

  lemma AtFits(text: string, i: nat, s: string)
    requires At(text, i, s)
    ensures i + |s| <= |text|
  {
  }

  lemma {:induction false} UnlinesAppend(a: seq<string>, b: seq<string>)
    ensures Unlines(a + b) == Unlines(a) + Unlines(b)
  {
    if a == [] {
      assert a + b == b;
    } else {
      UnlinesAppend(a[1..], b);
      assert (a + b)[1..] == a[1..] + b;
      Rejoin(a[0], Unlines(a[1..]), Unlines(b));
    }
  }

  lemma Rejoin(l: string, x: string, y: string)
    ensures l + (['\n'] + (x + y)) == l + (['\n'] + x) + y
  {
  }

  // ---- one [[export]] block --------------------------------------------------------

  const DEFAULT: CatalogExport := CatalogExport(
    ExportConfig("", 0, "local", [],
                 Dynamic(["0.0.0.0/0", "::/0"], 0, 0, 0, false, true, true, RootSquash, 65534, 65534), map[]), false)

  /** The keys of an export block. */
  datatype Key = Path | Fsid | BackendName | Nodes | Clients | Readonly | SecurePorts | StrictCookies | SquashMode
               | AnonUid | AnonGid | ReadBps | WriteBps | Iops | DisabledFlag

  function KeyText(k: Key): string {
    match k
    case Path => "path"
    case Fsid => "fsid"
    case BackendName => "backend"
    case Nodes => "nodes"
    case Clients => "clients"
    case Readonly => "readonly"
    case SecurePorts => "secure_ports"
    case StrictCookies => "strict_readdir_cookies"
    case SquashMode => "squash"
    case AnonUid => "anon_uid"
    case AnonGid => "anon_gid"
    case ReadBps => "read_bps"
    case WriteBps => "write_bps"
    case Iops => "iops"
    case DisabledFlag => "disabled"
  }

  function KeyOf(s: string): Result<Key> {
    if s == "path" then Ok(Path) else if s == "backend" then Ok(BackendName) else if s == "fsid" then Ok(Fsid)
    else if s == "clients" then Ok(Clients) else if s == "nodes" then Ok(Nodes)
    else if s == "readonly" then Ok(Readonly) else if s == "secure_ports" then Ok(SecurePorts)
    else if s == "strict_readdir_cookies" then Ok(StrictCookies)
    else if s == "anon_uid" then Ok(AnonUid) else if s == "anon_gid" then Ok(AnonGid)
    else if s == "squash" then Ok(SquashMode) else if s == "read_bps" then Ok(ReadBps)
    else if s == "write_bps" then Ok(WriteBps) else if s == "iops" then Ok(Iops)
    else if s == "disabled" then Ok(DisabledFlag) else Err
  }

  predicate StringKey(k: Key) { k.Path? || k.BackendName? || k.SquashMode? }
  predicate NumberKey(k: Key) { k.Fsid? || k.AnonUid? || k.AnonGid? || k.Iops? }
  predicate SizeKey(k: Key) { k.ReadBps? || k.WriteBps? }
  predicate BoolKey(k: Key) { k.Readonly? || k.SecurePorts? || k.StrictCookies? || k.DisabledFlag? }

  function SquashText(s: Squash): string {
    match s
    case NoSquash => "none"
    case AllSquash => "all"
    case RootSquash => "root"
  }

  function SquashOf(s: string): Result<Squash> {
    if s == "none" then Ok(NoSquash) else if s == "root" then Ok(RootSquash) else if s == "all" then Ok(AllSquash)
    else Err
  }

  function SetString(e: CatalogExport, k: Key, s: string): Result<CatalogExport> {
    if k.Path? then Ok(e.(cfg := e.cfg.(path := NormalizePath(s))))
    else if k.BackendName? then Ok(e.(cfg := e.cfg.(backend := s)))
    else
      var mode :- SquashOf(s);
      Ok(e.(cfg := e.cfg.(dyn := e.cfg.dyn.(squash := mode))))
  }

  function SetNumber(e: CatalogExport, k: Key, n: nat): CatalogExport {
    if k.Fsid? then e.(cfg := e.cfg.(fsid := n))
    else if k.AnonUid? then e.(cfg := e.cfg.(dyn := e.cfg.dyn.(anonUid := n)))
    else if k.AnonGid? then e.(cfg := e.cfg.(dyn := e.cfg.dyn.(anonGid := n)))
    else if k.Iops? then e.(cfg := e.cfg.(dyn := e.cfg.dyn.(iops := n)))
    else if k.ReadBps? then e.(cfg := e.cfg.(dyn := e.cfg.dyn.(readBps := n)))
    else e.(cfg := e.cfg.(dyn := e.cfg.dyn.(writeBps := n)))
  }

  function SetBool(e: CatalogExport, k: Key, b: bool): CatalogExport {
    if k.Readonly? then e.(cfg := e.cfg.(dyn := e.cfg.dyn.(readonly := b)))
    else if k.SecurePorts? then e.(cfg := e.cfg.(dyn := e.cfg.dyn.(securePorts := b)))
    else if k.StrictCookies? then e.(cfg := e.cfg.(dyn := e.cfg.dyn.(strictCookies := b)))
    else e.(disabled := b)
  }

  function SetArray(e: CatalogExport, k: Key, xs: seq<string>): CatalogExport {
    if k.Clients? then e.(cfg := e.cfg.(dyn := e.cfg.dyn.(clients := xs))) else e.(cfg := e.cfg.(nodes := xs))
  }

  function U32Value(t: string, v: View): Result<nat>
    requires In(v, t)
  {
    var n :- UintValue(t, v);
    if n >= U32 then Err else Ok(n)
  }

  function SetField(e: CatalogExport, k: Key, t: string, v: View): Result<CatalogExport>
    requires In(v, t)
  {
    if StringKey(k) then
      var s :- StringValue(t, v);
      SetString(e, k, s)
    else if NumberKey(k) then
      var n :- U32Value(t, v);
      Ok(SetNumber(e, k, n))
    else if SizeKey(k) then
      var n :- SizeValue(t, v);
      Ok(SetNumber(e, k, n))
    else if BoolKey(k) then
      var b :- BoolValue(t, v);
      Ok(SetBool(e, k, b))
    else
      var xs :- StringArray(t, v);
      Ok(SetArray(e, k, xs))
  }

  datatype Fed = Ended | Fed(e: CatalogExport, table: bool)

  predicate StartsWith(t: string, v: View, s: string)
    requires In(v, t)
  {
    v.lo + |s| <= v.hi && t[v.lo..v.lo + |s|] == s
  }

  /** ExportBlockParser::line on a non-empty clean line. */
  function BlockLine(e: CatalogExport, table: bool, t: string, v: View): Result<Fed>
    requires In(v, t) && v.lo < v.hi
  {
    if t[v.lo] == '[' then
      if !StartsWith(t, v, "[export.") || t[v.hi - 1] != ']' then Ok(Ended) else Ok(Fed(e, true))
    else
      match SplitEntry(t, v)
      case NoEntry => Err
      case Entry(key, value) =>
        if table then
          var s :- BackendValue(t, value);
          Ok(Fed(e.(cfg := e.cfg.(values := e.cfg.values[key := s])), true))
        else
          var k :- KeyOf(key);
          var put :- SetField(e, k, t, value);
          Ok(Fed(put, false))
  }

  // ---- the document ----------------------------------------------------------------

  datatype Block = NoBlock | Block(table: bool)

  datatype Parser = Parser(meta: Meta, exports: seq<CatalogExport>, header: bool, version: bool, inHeader: bool,
                           block: Block)

  const START: Parser := Parser(Meta(0, "", "", ""), [], false, false, false, NoBlock)

  function SetMeta(p: Parser, key: string, t: string, v: View): Result<Parser>
    requires In(v, t)
  {
    if key == "version" then
      var n :- UintValue(t, v);
      Ok(p.(meta := p.meta.(version := n), version := true))
    else if key == "updated_at" then
      var s :- StringValue(t, v);
      Ok(p.(meta := p.meta.(updatedAt := s)))
    else if key == "updated_by" then
      var s :- StringValue(t, v);
      Ok(p.(meta := p.meta.(updatedBy := s)))
    else if key == "comment" then
      var s :- StringValue(t, v);
      Ok(p.(meta := p.meta.(comment := s)))
    else Err
  }

  function TopLine(p: Parser, t: string, v: View): Result<Parser>
    requires In(v, t) && v.lo < v.hi
  {
    if Text(t, v) == "[[export]]" then Ok(p.(exports := p.exports + [DEFAULT], inHeader := false, block := Block(false)))
    else if t[v.lo] == '[' && t[v.hi - 1] == ']' then
      if Text(t, v) != "[catalog]" || p.header then Err else Ok(p.(header := true, inHeader := true))
    else
      match SplitEntry(t, v)
      case NoEntry => Err
      case Entry(key, value) => if !p.inHeader then Err else SetMeta(p, key, t, value)
  }

  /** The parser after one raw line. */
  function Feed(p: Parser, raw: string): Result<Parser> {
    var v := Clean(raw);
    if v.lo == v.hi then Ok(p)
    else if p.block.Block? && p.exports != [] then
      var n := |p.exports| - 1;
      match BlockLine(p.exports[n], p.block.table, raw, v)
      case Err => Err
      case Ok(Ended) => TopLine(p.(block := NoBlock), raw, v)
      case Ok(Fed(e, table)) => Ok(p.(exports := p.exports[..n] + [e], block := Block(table)))
    else TopLine(p, raw, v)
  }

  function FeedAll(p: Parser, lines: seq<string>): Result<Parser>
    decreases |lines|
  {
    if lines == [] then Ok(p)
    else
      var next :- Feed(p, lines[0]);
      FeedAll(next, lines[1..])
  }

  function StripExport(e: CatalogExport): CatalogExport {
    e.(cfg := e.cfg.(values := ClusterKeys(e.cfg.values)))
  }

  function StripAll(exports: seq<CatalogExport>): (r: seq<CatalogExport>)
    ensures |r| == |exports| && forall i | 0 <= i < |r| :: r[i] == StripExport(exports[i])
  {
    seq(|exports|, i requires 0 <= i < |exports| => StripExport(exports[i]))
  }

  function Finish(p: Parser): Result<Catalog> {
    if !p.header || !p.version then Err else Ok(Catalog(p.meta, Sort(StripAll(p.exports), ExportFsid)))
  }

  function Parse(text: string): Result<Catalog> {
    var p :- FeedAll(START, LinesFrom(text, 0));
    Finish(p)
  }

  method GetLine(text: string, i: nat) returns (line: string, next: nat)
    requires i < |text|
    ensures i < next <= |text| && LinesFrom(text, i) == [line] + LinesFrom(text, next)
  {
    var e := i;
    while e < |text| && text[e] != '\n'
      invariant i <= e <= |text| && FindNewline(text, i) == FindNewline(text, e)
    {
      e := e + 1;
    }
    line, next := text[i..e], if e < |text| then e + 1 else e;
    LinesUnfold(text, i, e);
  }

  lemma LinesUnfold(text: string, i: nat, e: nat)
    requires i < |text| && e == FindNewline(text, i)
    ensures LinesFrom(text, i) == [text[i..e]] + LinesFrom(text, if e < |text| then e + 1 else e)
  {
    hide FindNewline;
  }

  method ParseCatalog(text: string) returns (r: Result<Catalog>)
    ensures r == Parse(text)
  {
    hide Feed, Finish;
    var p, i := START, 0;
    while i < |text|
      invariant i <= |text| && FeedAll(START, LinesFrom(text, 0)) == FeedAll(p, LinesFrom(text, i))
      decreases |text| - i
    {
      var line, next := GetLine(text, i);
      ghost var rest := LinesFrom(text, next);
      assert ([line] + rest)[1..] == rest;
      var fed := Feed(p, line);
      if fed.Err? { return Err; }
      p, i := fed.value, next;
    }
    return Finish(p);
  }

  // ---- writing ---------------------------------------------------------------------

  /** One `key = value` line of an export block. */
  datatype Assign =
    | Str(key: Key, s: string)
    | Num(key: Key, n: nat)
    | Size(key: Key, n: nat)
    | Sized(key: Key, n: nat, unit: Unit)
    | Flag(key: Key, b: bool)
    | Arr(key: Key, xs: seq<string>)

  /** Units of a quoted size. */
  datatype Unit = Bare | Bytes | KiB | MiB | GiB

  function UnitText(u: Unit): string {
    match u
    case Bare => ""
    case Bytes => "B"
    case KiB => "KiB"
    case MiB => "MiB"
    case GiB => "GiB"
  }

  /** So many units in bytes. */
  function InBytes(n: nat, u: Unit): nat {
    match u
    case Bare => n
    case Bytes => n
    case KiB => 1024 * n
    case MiB => 1048576 * n
    case GiB => 1073741824 * n
  }

  function TextOf(a: Assign): string {
    match a
    case Str(_, s) => Quote(s)
    case Num(_, n) => Digits(n)
    case Size(_, n) => Digits(n)
    case Sized(_, n, u) => Quote(Digits(n) + UnitText(u))
    case Flag(_, b) => BoolText(b)
    case Arr(_, xs) => QuoteArray(xs)
  }

  function LineOf(a: Assign): string {
    Line(KeyText(a.key), TextOf(a))
  }

  function LinesOf(assigns: seq<Assign>): (r: seq<string>)
    ensures |r| == |assigns| && forall i | 0 <= i < |r| :: r[i] == LineOf(assigns[i])
  {
    seq(|assigns|, i requires 0 <= i < |assigns| => LineOf(assigns[i]))
  }

  function Identity(e: CatalogExport): seq<Assign> {
    [Str(Path, e.cfg.path), Num(Fsid, e.cfg.fsid), Str(BackendName, e.cfg.backend), Arr(Nodes, e.cfg.nodes),
     Arr(Clients, e.cfg.dyn.clients)]
  }

  function Policy(e: CatalogExport): seq<Assign> {
    var d := e.cfg.dyn;
    [Flag(Readonly, d.readonly), Flag(SecurePorts, d.securePorts), Flag(StrictCookies, d.strictCookies),
     Str(SquashMode, SquashText(d.squash)), Num(AnonUid, d.anonUid)]
  }

  function Limits(e: CatalogExport): seq<Assign> {
    var d := e.cfg.dyn;
    [Num(AnonGid, d.anonGid), Size(ReadBps, d.readBps), Size(WriteBps, d.writeBps), Num(Iops, d.iops),
     Flag(DisabledFlag, e.disabled)]
  }

  /** The key takes this kind of value, and the number fits it. */
  predicate GoodAssign(a: Assign) {
    match a
    case Str(k, _) => StringKey(k)
    case Num(k, n) => NumberKey(k) && n < U32
    case Size(k, n) => SizeKey(k) && n < U64
    case Sized(k, n, u) => SizeKey(k) && InBytes(n, u) < U64
    case Flag(k, _) => BoolKey(k)
    case Arr(k, _) => k.Nodes? || k.Clients?
  }

  predicate AllGood(assigns: seq<Assign>) {
    forall i | 0 <= i < |assigns| :: GoodAssign(assigns[i])
  }

  predicate InRange(e: CatalogExport) {
    var d := e.cfg.dyn;
    e.cfg.fsid < U32 && d.anonUid < U32 && d.anonGid < U32 && d.iops < U32 && d.readBps < U64 && d.writeBps < U64
  }

  lemma FieldsAreGood(e: CatalogExport)
    requires InRange(e)
    ensures AllGood(Identity(e)) && AllGood(Policy(e)) && AllGood(Limits(e))
  {
  }

  lemma NameKeys()
    ensures GoodKey("path") && GoodKey("fsid") && GoodKey("backend") && GoodKey("nodes")
  {
  }

  lemma ShortKeys()
    ensures GoodKey("clients") && GoodKey("iops") && GoodKey("squash") && GoodKey("readonly")
  {
  }

  lemma FlagKeys()
    ensures GoodKey("secure_ports") && GoodKey("disabled")
  {
  }

  lemma CookieKey()
    ensures GoodKey("strict_readdir_cookies")
  {
  }

  lemma AnonKeys()
    ensures GoodKey("anon_uid") && GoodKey("anon_gid")
  {
  }

  lemma RateKeys()
    ensures GoodKey("read_bps") && GoodKey("write_bps")
  {
  }

  lemma KeyTextIsGood(k: Key)
    ensures GoodKey(KeyText(k))
  {
    hide GoodKey;
    NameKeys();
    ShortKeys();
    FlagKeys();
    CookieKey();
    AnonKeys();
    RateKeys();
  }

  lemma KeyRoundTrip(k: Key)
    ensures KeyOf(KeyText(k)) == Ok(k)
  {
  }

  // ---- reading an export block back ------------------------------------------------

  /** What an array line reads as; a bad array can read as an error or as something else. */
  function Got(k: Key, xs: seq<string>): Result<seq<string>> {
    var t, v := Line(KeyText(k), QuoteArray(xs)), ArrayView(KeyText(k), xs);
    if In(v, t) then StringArray(t, v) else Err
  }

  function AssignTo(e: CatalogExport, a: Assign): Result<CatalogExport> {
    match a
    case Str(k, s) => SetString(e, k, s)
    case Num(k, n) => Ok(SetNumber(e, k, n))
    case Size(k, n) => Ok(SetNumber(e, k, n))
    case Sized(k, n, u) => Ok(SetNumber(e, k, InBytes(n, u)))
    case Flag(k, b) => Ok(SetBool(e, k, b))
    case Arr(k, xs) =>
      var got :- Got(k, xs);
      Ok(SetArray(e, k, got))
  }

  function Took(r: Result<CatalogExport>): Result<Fed> {
    match r
    case Ok(e) => Ok(Fed(e, false))
    case Err => Err
  }

  /** The block parser reads the line as the assignment. */
  predicate ReadsAs(e: CatalogExport, line: string, r: Result<CatalogExport>) {
    var v := Clean(line);
    v.lo < v.hi && BlockLine(e, false, line, v) == Took(r)
  }

  lemma BlockLineOf(e: CatalogExport, k: Key, line: string, v: View, value: View)
    requires In(v, line) && v.lo < v.hi && line[v.lo] != '[' && In(value, line)
    requires SplitEntry(line, v) == Entry(KeyText(k), value)
    ensures BlockLine(e, false, line, v) == Took(SetField(e, k, line, value))
  {
    hide KeyText, SplitEntry, SetField, KeyOf;
    KeyRoundTrip(k);
  }

  lemma ScalarReads(e: CatalogExport, k: Key, text: string, r: Result<CatalogExport>)
    requires Scalar(text)
    requires var t, v := Line(KeyText(k), text), View(|KeyText(k)| + 3, |Line(KeyText(k), text)|);
             (In(v, t) && Tight(t, v) && At(t, v.lo, text) && v.hi == v.lo + |text| && Text(t, v) == text) ==>
               SetField(e, k, t, v) == r
    ensures ReadsAs(e, Line(KeyText(k), text), r)
  {
    hide KeyText, SplitEntry, SetField, KeyOf, BlockLine, Line, Scalar;
    var t := Line(KeyText(k), text);
    KeyTextIsGood(k);
    ScalarLine(KeyText(k), text);
    BlockLineOf(e, k, t, View(0, |t|), View(|KeyText(k)| + 3, |t|));
  }

  lemma UintOf(t: string, v: View, n: nat)
    requires Tight(t, v) && Text(t, v) == Digits(n) && n < U64
    ensures UintValue(t, v) == Ok(n)
  {
    TrimmedText(t, v, Digits(n));
    DigitsRoundTrip(n);
  }

  lemma SizeOf(t: string, v: View, n: nat)
    requires Tight(t, v) && Text(t, v) == Digits(n) && n < U64
    ensures SizeValue(t, v) == Ok(n)
  {
    hide Digits;
    DigitsAreScalar(n);
    assert v.lo < v.hi && t[v.lo] == Text(t, v)[0];
    TrimTo(t, v, v);
    UintOf(t, v, n);
  }

  lemma BoolOf(t: string, v: View, b: bool)
    requires Tight(t, v) && Text(t, v) == BoolText(b)
    ensures BoolValue(t, v) == Ok(b)
  {
    TrimmedText(t, v, BoolText(b));
  }

  lemma BoolIsScalar(b: bool)
    ensures Scalar(BoolText(b))
  {
    assert Plain("true") && Plain("false");
  }

  lemma StrReads(e: CatalogExport, k: Key, s: string)
    requires StringKey(k)
    ensures ReadsAs(e, Line(KeyText(k), Quote(s)), SetString(e, k, s))
  {
    hide KeyText, Quote, Scalar, SetString, Line;
    var t := Line(KeyText(k), Quote(s));
    var v := View(|KeyText(k)| + 3, |t|);
    if In(v, t) && At(t, v.lo, Quote(s)) && v.hi == v.lo + |Quote(s)| { StringRoundTrip(t, v, s); }
    QuoteIsScalar(s);
    ScalarReads(e, k, Quote(s), SetString(e, k, s));
  }

  lemma NumReads(e: CatalogExport, k: Key, n: nat)
    requires (NumberKey(k) && n < U32) || (SizeKey(k) && n < U64)
    ensures ReadsAs(e, Line(KeyText(k), Digits(n)), Ok(SetNumber(e, k, n)))
  {
    hide KeyText, Digits, Scalar, SetNumber, Line, UintValue, SizeValue;
    var t := Line(KeyText(k), Digits(n));
    var v := View(|KeyText(k)| + 3, |t|);
    if Tight(t, v) && Text(t, v) == Digits(n) {
      UintOf(t, v, n);
      SizeOf(t, v, n);
    }
    DigitsAreScalar(n);
    ScalarReads(e, k, Digits(n), Ok(SetNumber(e, k, n)));
  }

  lemma {:induction false} CountAllDigits(s: string, i: nat, n: nat)
    requires i <= n <= |s| && (forall j | i <= j < n :: IsDigit(s[j])) && (n < |s| ==> !IsDigit(s[n]))
    ensures CountDigits(s, i) == n
    decreases n - i
  {
    if i < n { CountAllDigits(s, i + 1, n); }
  }

  lemma UnitMeans(u: Unit)
    ensures UnitText(u) != "" ==> !IsDigit(UnitText(u)[0])
  {
  }

  lemma MultiplierMeans(n: nat, u: Unit)
    requires InBytes(n, u) < U64
    ensures var m := Multiplier(UnitText(u)); m != 0 && n <= (U64 - 1) / m && n * m == InBytes(n, u) && n < U64
  {
  }

  /** A quoted size is its number times its unit. */
  lemma SizedText(s: string, n: nat, u: Unit)
    requires s == Digits(n) + UnitText(u)
    ensures CountDigits(s, 0) == |Digits(n)| && s[..|Digits(n)|] == Digits(n) && s[|Digits(n)|..] == UnitText(u)
    ensures n < U64 ==> ParseUint(Digits(n)) == Ok(n)
  {
    hide Digits, UnitText;
    UnitMeans(u);
    CountAllDigits(s, 0, |Digits(n)|);
    DigitsRoundTrip(n);
  }

  lemma SizedOf(t: string, v: View, n: nat, u: Unit)
    requires In(v, t) && At(t, v.lo, Quote(Digits(n) + UnitText(u))) && v.hi == v.lo + |Quote(Digits(n) + UnitText(u))|
    requires InBytes(n, u) < U64
    ensures SizeValue(t, v) == Ok(InBytes(n, u))
  {
    hide Digits, Quote, StringValue, CountDigits, Multiplier, ParseUint, UnitText, InBytes;
    var s := Digits(n) + UnitText(u);
    StringRoundTrip(t, v, s);
    AtQuote(t, v.lo, s);
    QuoteEnds(s);
    TrimTo(t, v, v);
    MultiplierMeans(n, u);
    SizedText(s, n, u);
  }

  lemma SizedReads(e: CatalogExport, k: Key, n: nat, u: Unit)
    requires SizeKey(k) && InBytes(n, u) < U64
    ensures ReadsAs(e, Line(KeyText(k), Quote(Digits(n) + UnitText(u))), Ok(SetNumber(e, k, InBytes(n, u))))
  {
    hide KeyText, Digits, Scalar, SetNumber, Line, SizeValue, Quote, UnitText, InBytes;
    var text := Quote(Digits(n) + UnitText(u));
    var t := Line(KeyText(k), text);
    var v := View(|KeyText(k)| + 3, |t|);
    if In(v, t) && At(t, v.lo, text) && v.hi == v.lo + |text| { SizedOf(t, v, n, u); }
    QuoteIsScalar(Digits(n) + UnitText(u));
    ScalarReads(e, k, text, Ok(SetNumber(e, k, InBytes(n, u))));
  }

  lemma FlagReads(e: CatalogExport, k: Key, b: bool)
    requires BoolKey(k)
    ensures ReadsAs(e, Line(KeyText(k), BoolText(b)), Ok(SetBool(e, k, b)))
  {
    hide KeyText, BoolText, Scalar, SetBool, Line, BoolValue;
    var t := Line(KeyText(k), BoolText(b));
    var v := View(|KeyText(k)| + 3, |t|);
    if Tight(t, v) && Text(t, v) == BoolText(b) { BoolOf(t, v, b); }
    BoolIsScalar(b);
    ScalarReads(e, k, BoolText(b), Ok(SetBool(e, k, b)));
  }

  lemma ArrReads(e: CatalogExport, k: Key, xs: seq<string>)
    requires k.Nodes? || k.Clients?
    ensures ReadsAs(e, Line(KeyText(k), QuoteArray(xs)), AssignTo(e, Arr(k, xs)))
  {
    hide KeyText, QuoteArray, SetArray, Line, StringArray, BlockLine, ArrayView, SplitEntry;
    var t, v := Line(KeyText(k), QuoteArray(xs)), ArrayView(KeyText(k), xs);
    KeyTextIsGood(k);
    ArrayLine(KeyText(k), xs);
    BlockLineOf(e, k, t, View(0, v.hi), v);
  }

  /** Every line written for an export is read as the assignment it was written for. */
  lemma AssignReads(e: CatalogExport, a: Assign)
    requires GoodAssign(a)
    ensures ReadsAs(e, LineOf(a), AssignTo(e, a))
  {
    hide ReadsAs, KeyText, Quote, Digits, BoolText, QuoteArray, Line, SetString, SetNumber, SetBool, Got, UnitText, InBytes;
    match a
    case Str(k, s) => StrReads(e, k, s);
    case Num(k, n) => NumReads(e, k, n);
    case Size(k, n) => NumReads(e, k, n);
    case Sized(k, n, u) => SizedReads(e, k, n, u);
    case Flag(k, b) => FlagReads(e, k, b);
    case Arr(k, xs) => ArrReads(e, k, xs);
  }

  // ---- reading a whole block -------------------------------------------------------

  function Chain(r: Result<CatalogExport>, a: Assign): Result<CatalogExport> {
    match r
    case Ok(e) => AssignTo(e, a)
    case Err => Err
  }

  function AssignAll(r: Result<CatalogExport>, assigns: seq<Assign>): Result<CatalogExport>
    decreases |assigns|
  {
    if assigns == [] then r else AssignAll(Chain(r, assigns[0]), assigns[1..])
  }

  /** The parser with its last export replaced. */
  function WithLast(p: Parser, e: CatalogExport, table: bool): Parser
    requires p.exports != []
  {
    p.(exports := p.exports[..|p.exports| - 1] + [e], block := Block(table))
  }

  function Put(p: Parser, r: Result<CatalogExport>, table: bool): Result<Parser>
    requires p.exports != []
  {
    match r
    case Ok(e) => Ok(WithLast(p, e, table))
    case Err => Err
  }

  function Onward(r: Result<Parser>, lines: seq<string>): Result<Parser> {
    match r
    case Ok(p) => FeedAll(p, lines)
    case Err => Err
  }

  lemma {:induction false} FeedAllAppend(p: Parser, a: seq<string>, b: seq<string>)
    ensures FeedAll(p, a + b) == Onward(FeedAll(p, a), b)
    decreases |a|
  {
    hide Feed;
    if a == [] {
      assert a + b == b;
    } else {
      assert (a + b)[1..] == a[1..] + b;
      var next := Feed(p, a[0]);
      if next.Ok? { FeedAllAppend(next.value, a[1..], b); }
    }
  }

  lemma FeedAssign(p: Parser, a: Assign)
    requires p.exports != [] && p.block == Block(false) && GoodAssign(a)
    ensures Feed(p, LineOf(a)) == Put(p, AssignTo(p.exports[|p.exports| - 1], a), false)
  {
    hide LineOf, AssignTo, BlockLine, TopLine, Clean;
    AssignReads(p.exports[|p.exports| - 1], a);
  }

  lemma {:induction false} ErrStays(assigns: seq<Assign>)
    ensures AssignAll(Err, assigns) == Err
  {
    if assigns != [] { ErrStays(assigns[1..]); }
  }

  lemma {:induction false} FeedAssigns(p: Parser, assigns: seq<Assign>)
    requires p.exports != [] && p.block == Block(false) && AllGood(assigns)
    ensures FeedAll(p, LinesOf(assigns)) == Put(p, AssignAll(Ok(p.exports[|p.exports| - 1]), assigns), false)
    decreases |assigns|
  {
    hide Feed, AssignTo, LineOf;
    var last := p.exports[|p.exports| - 1];
    if assigns == [] {
      assert p.exports[..|p.exports| - 1] + [last] == p.exports;
    } else {
      var a := assigns[0];
      FeedAssign(p, a);
      assert LinesOf(assigns)[1..] == LinesOf(assigns[1..]);
      var r := AssignTo(last, a);
      if r.Ok? {
        FeedAssigns(WithLast(p, r.value, false), assigns[1..]);
      } else {
        ErrStays(assigns[1..]);
      }
    }
  }

  lemma Five(r: Result<CatalogExport>, a: Assign, b: Assign, c: Assign, d: Assign, f: Assign)
    ensures AssignAll(r, [a, b, c, d, f]) == Chain(Chain(Chain(Chain(Chain(r, a), b), c), d), f)
  {
    hide *;
    One(r, a, [b, c, d, f]);
    One(Chain(r, a), b, [c, d, f]);
    One(Chain(Chain(r, a), b), c, [d, f]);
    One(Chain(Chain(Chain(r, a), b), c), d, [f]);
    One(Chain(Chain(Chain(Chain(r, a), b), c), d), f, []);
    assert [a, b, c, d, f] == [a] + [b, c, d, f] && [b, c, d, f] == [b] + [c, d, f];
    assert [c, d, f] == [c] + [d, f] && [d, f] == [d] + [f] && [f] == [f] + [];
    None(Chain(Chain(Chain(Chain(Chain(r, a), b), c), d), f));
  }

  lemma One(r: Result<CatalogExport>, a: Assign, rest: seq<Assign>)
    ensures AssignAll(r, [a] + rest) == AssignAll(Chain(r, a), rest)
  {
    hide Chain;
    assert ([a] + rest)[1..] == rest;
  }

  lemma None(r: Result<CatalogExport>)
    ensures AssignAll(r, []) == r
  {
  }

  lemma {:induction false} AssignAllAppend(r: Result<CatalogExport>, a: seq<Assign>, b: seq<Assign>)
    ensures AssignAll(r, a + b) == AssignAll(AssignAll(r, a), b)
    decreases |a|
  {
    hide Chain;
    if a == [] {
      assert a + b == b;
    } else {
      assert (a + b)[1..] == a[1..] + b;
      AssignAllAppend(Chain(r, a[0]), a[1..], b);
    }
  }

  /** An export as its fifteen lines read: everything back, the arrays as they are read. */
  function RereadFields(e: CatalogExport): Result<CatalogExport> {
    var nodes :- Got(Nodes, e.cfg.nodes);
    var clients :- Got(Clients, e.cfg.dyn.clients);
    Ok(e.(cfg := e.cfg.(nodes := nodes, dyn := e.cfg.dyn.(clients := clients))))
  }

  function Bare(e: CatalogExport): CatalogExport {
    e.(cfg := e.cfg.(values := map[]))
  }

  lemma SquashRoundTrip(s: Squash)
    ensures SquashOf(SquashText(s)) == Ok(s)
  {
  }

  lemma IdentityRead(e: CatalogExport)
    requires NormalizePath(e.cfg.path) == e.cfg.path
    ensures AssignAll(Ok(DEFAULT), Identity(e)) ==
              match RereadFields(e)
              case Err => Err
              case Ok(x) => Ok(DEFAULT.(cfg := DEFAULT.cfg.(path := x.cfg.path, fsid := x.cfg.fsid,
                                          backend := x.cfg.backend, nodes := x.cfg.nodes,
                                          dyn := DEFAULT.cfg.dyn.(clients := x.cfg.dyn.clients))))
  {
    hide Got, AssignAll, NormalizePath;
    Five(Ok(DEFAULT), Str(Path, e.cfg.path), Num(Fsid, e.cfg.fsid), Str(BackendName, e.cfg.backend),
         Arr(Nodes, e.cfg.nodes), Arr(Clients, e.cfg.dyn.clients));
  }

  lemma PolicyRead(x: CatalogExport, e: CatalogExport)
    ensures var d := e.cfg.dyn;
            AssignAll(Ok(x), Policy(e)) ==
              Ok(x.(cfg := x.cfg.(dyn := x.cfg.dyn.(readonly := d.readonly, securePorts := d.securePorts,
                      strictCookies := d.strictCookies, squash := d.squash, anonUid := d.anonUid))))
  {
    hide AssignAll, SquashText, SquashOf;
    var d := e.cfg.dyn;
    SquashRoundTrip(d.squash);
    Five(Ok(x), Flag(Readonly, d.readonly), Flag(SecurePorts, d.securePorts), Flag(StrictCookies, d.strictCookies),
         Str(SquashMode, SquashText(d.squash)), Num(AnonUid, d.anonUid));
  }

  lemma LimitsRead(x: CatalogExport, e: CatalogExport)
    ensures var d := e.cfg.dyn;
            AssignAll(Ok(x), Limits(e)) ==
              Ok(x.(cfg := x.cfg.(dyn := x.cfg.dyn.(anonGid := d.anonGid, readBps := d.readBps, writeBps := d.writeBps,
                      iops := d.iops)), disabled := e.disabled))
  {
    hide AssignAll;
    var d := e.cfg.dyn;
    Five(Ok(x), Num(AnonGid, d.anonGid), Size(ReadBps, d.readBps), Size(WriteBps, d.writeBps), Num(Iops, d.iops),
         Flag(DisabledFlag, e.disabled));
  }

  function Fields(e: CatalogExport): seq<Assign> {
    Identity(e) + (Policy(e) + Limits(e))
  }

  lemma FieldsRead(e: CatalogExport)
    requires NormalizePath(e.cfg.path) == e.cfg.path
    ensures AssignAll(Ok(DEFAULT), Fields(e)) == RereadFields(Bare(e))
  {
    hide AssignAll, Identity, Policy, Limits, Got, NormalizePath;
    AssignAllAppend(Ok(DEFAULT), Identity(e), Policy(e) + Limits(e));
    IdentityRead(e);
    var r := AssignAll(Ok(DEFAULT), Identity(e));
    AssignAllAppend(r, Policy(e), Limits(e));
    if r.Ok? {
      PolicyRead(r.value, e);
      LimitsRead(AssignAll(r, Policy(e)).value, e);
    } else {
      ErrStays(Policy(e));
      ErrStays(Limits(e));
    }
  }

  /** The fifteen lines of a block build the export, without its subtable. */
  lemma FeedFields(p: Parser, e: CatalogExport)
    requires p.exports != [] && p.exports[|p.exports| - 1] == DEFAULT && p.block == Block(false)
    requires InRange(e) && NormalizePath(e.cfg.path) == e.cfg.path
    ensures FeedAll(p, LinesOf(Fields(e))) == Put(p, RereadFields(Bare(e)), false)
  {
    hide FeedAll, LinesOf, AssignAll, NormalizePath, InRange, Put, RereadFields, Bare, GoodAssign, Identity, Policy, Limits;
    FieldsAreGood(e);
    FeedAssigns(p, Fields(e));
    FieldsRead(e);
  }

  // ---- sections and subtables ------------------------------------------------------

  /** A backend name that a section header can carry. */
  predicate GoodName(s: string) {
    forall i | 0 <= i < |s| :: s[i] != '"' && s[i] != '#' && s[i] != '\n'
  }

  function Section(name: string): string {
    "[export." + (name + [']'])
  }

  lemma BracketLine(line: string)
    requires |line| >= 2 && line[0] == '[' && line[|line| - 1] == ']' && Plain(line)
    ensures Clean(line) == View(0, |line|)
  {
    CutPlain(line, 0, |line|);
    TrimTo(line, View(0, |line|), View(0, |line|));
  }

  lemma SectionShape(name: string)
    requires GoodName(name)
    ensures var s := Section(name);
            |s| >= 9 && s[0] == '[' && s[|s| - 1] == ']' && s[..8] == "[export." && Plain(s) && OneLine(s)
  {
    var s := Section(name);
    assert forall i | 8 <= i < |s| - 1 :: s[i] == name[i - 8];
    assert forall i | 0 <= i < 8 :: s[i] == "[export."[i];
    assert Plain("[export.") && OneLine("[export.");
  }

  lemma FeedSection(p: Parser, name: string)
    requires p.exports != [] && p.block == Block(false) && GoodName(name)
    ensures Feed(p, Section(name)) == Ok(p.(block := Block(true)))
  {
    hide Section, TopLine, SplitEntry;
    var s := Section(name);
    SectionShape(name);
    BracketLine(s);
    assert s[0..8] == s[..8];
    var n := |p.exports| - 1;
    assert p.exports[..n] + [p.exports[n]] == p.exports;
  }

  lemma PlainText(s: string)
    requires '"' !in s && '#' !in s && '\n' !in s
    ensures Plain(s) && OneLine(s)
  {
    assert forall i | 0 <= i < |s| :: s[i] in s;
  }

  lemma ExportHeaderIsClean()
    ensures Clean("[[export]]") == View(0, 10) && OneLine("[[export]]")
  {
    hide Clean, Plain, OneLine;
    PlainText("[[export]]");
    BracketLine("[[export]]");
  }

  lemma ExportHeaderIsNoSection()
    ensures !StartsWith("[[export]]", View(0, 10), "[export.") && Text("[[export]]", View(0, 10)) == "[[export]]"
  {
    var s := "[[export]]";
    assert s[0..8][1] == '[' && "[export."[1] == 'e';
    assert s[0..10] == s;
  }

  /** A new [[export]] starts a block, whatever came before it. */
  lemma FeedExportHeader(p: Parser)
    ensures Feed(p, "[[export]]") == Ok(p.(exports := p.exports + [DEFAULT], inHeader := false, block := Block(false)))
  {
    hide SplitEntry, Clean, StartsWith, Text;
    ExportHeaderIsClean();
    ExportHeaderIsNoSection();
  }

  lemma FeedBlank(p: Parser)
    ensures Feed(p, "") == Ok(p)
  {
    hide BlockLine, TopLine;
  }

  function EntryLines(m: map<string, string>, keys: seq<string>): (r: seq<string>)
    requires forall k | k in keys :: k in m
    ensures |r| == |keys| && forall i | 0 <= i < |r| :: r[i] == Line(keys[i], BackendText(m[keys[i]]))
  {
    seq(|keys|, i requires 0 <= i < |keys| => Line(keys[i], BackendText(m[keys[i]])))
  }

  /** The export with a stretch of its subtable added. */
  function WithValues(e: CatalogExport, m: map<string, string>): CatalogExport {
    e.(cfg := e.cfg.(values := e.cfg.values + m))
  }

  function PutValues(p: Parser, r: Result<map<string, string>>): Result<Parser>
    requires p.exports != []
  {
    match r
    case Ok(m) => Ok(WithLast(p, WithValues(p.exports[|p.exports| - 1], m), true))
    case Err => Err
  }

  lemma PutNothing(p: Parser)
    requires p.exports != [] && p.block == Block(true)
    ensures PutValues(p, Ok(map[])) == Ok(p)
  {
    var n := |p.exports| - 1;
    assert p.exports[n].cfg.values + map[] == p.exports[n].cfg.values;
    assert p.exports[..n] + [p.exports[n]] == p.exports;
  }

  lemma FeedEntry(p: Parser, k: string, v: string)
    requires p.exports != [] && p.block == Block(true) && Legible(k)
    ensures Feed(p, Line(k, BackendText(v))) == PutValues(p, EntryRead(k, v))
  {
    hide Line, BackendText, SplitEntry, TopLine, BackendValue, Clean, SetField, Uncut, KeyOf;
    var t := Line(k, BackendText(v));
    EntryIff(k, v);
    PutNothing(p);
    var view := Clean(t);
    if view.lo < view.hi && SplitEntry(t, view).Entry? {
      var entry, e := SplitEntry(t, view), p.exports[|p.exports| - 1];
      var got := BackendValue(t, entry.value);
      if got.Ok? { assert e.cfg.values[entry.key := got.value] == e.cfg.values + map[entry.key := got.value]; }
    }
  }

  /** What the lines of the listed keys add to a table. */
  function TableRead(m: map<string, string>, keys: seq<string>): Result<map<string, string>>
    requires forall k | k in keys :: k in m
    decreases |keys|
  {
    if keys == [] then Ok(map[])
    else
      var first :- EntryRead(keys[0], m[keys[0]]);
      var rest :- TableRead(m, keys[1..]);
      Ok(first + rest)
  }

  lemma ValuesTwice(p: Parser, a: map<string, string>, b: Result<map<string, string>>)
    requires p.exports != []
    ensures PutValues(PutValues(p, Ok(a)).value, b) == PutValues(p, match b case Ok(m) => Ok(a + m) case Err => Err)
  {
    var e := p.exports[|p.exports| - 1];
    if b.Ok? { assert (e.cfg.values + a) + b.value == e.cfg.values + (a + b.value); }
  }

  lemma {:induction false} FeedEntries(p: Parser, m: map<string, string>, keys: seq<string>)
    requires p.exports != [] && p.block == Block(true) && forall k | k in keys :: k in m && Legible(k)
    ensures FeedAll(p, EntryLines(m, keys)) == PutValues(p, TableRead(m, keys))
    decreases |keys|
  {
    hide Feed, Line, BackendText, Legible, WithValues, EntryRead;
    if keys == [] {
      PutNothing(p);
    } else {
      var k := keys[0];
      FeedEntry(p, k, m[k]);
      assert EntryLines(m, keys)[1..] == EntryLines(m, keys[1..]);
      var first := EntryRead(k, m[k]);
      if first.Ok? {
        FeedEntries(PutValues(p, first).value, m, keys[1..]);
        ValuesTwice(p, first.value, TableRead(m, keys[1..]));
      }
    }
  }

  predicate DistinctTexts(keys: seq<string>) {
    forall i, j | 0 <= i < j < |keys| :: keys[i] != keys[j]
  }

  /** Line by line a table loses or garbles exactly the entries that the comment scan cuts. */
  lemma {:induction false} TableMeans(m: map<string, string>, keys: seq<string>)
    requires DistinctTexts(keys) && forall k | k in keys :: k in m && Legible(k)
    ensures (forall k | k in keys :: Uncut(k, m[k])) ==> TableRead(m, keys).Ok?
    ensures var r := TableRead(m, keys);
            r.Ok? ==> (forall k | k in r.value :: k in keys)
                      && forall k | k in keys :: (k in r.value && r.value[k] == m[k]) <==> Uncut(k, m[k])
    decreases |keys|
  {
    if keys != [] {
      hide Legible, Uncut, EntryRead;
      var k := keys[0];
      EntryIff(k, m[k]);
      assert keys == [k] + keys[1..];
      TableMeans(m, keys[1..]);
      var first, rest := EntryRead(k, m[k]), TableRead(m, keys[1..]);
      if first.Ok? && rest.Ok? { TableMeansNext(m, keys, first.value, rest.value); }
    }
  }

  lemma TableMeansNext(m: map<string, string>, keys: seq<string>, first: map<string, string>, rest: map<string, string>)
    requires keys != [] && DistinctTexts(keys) && forall k | k in keys :: k in m
    requires first.Keys <= {keys[0]} && (first == map[keys[0] := m[keys[0]]] <==> Uncut(keys[0], m[keys[0]]))
    requires (forall k | k in rest :: k in keys[1..])
    requires forall k | k in keys[1..] :: (k in rest && rest[k] == m[k]) <==> Uncut(k, m[k])
    ensures forall k | k in first + rest :: k in keys
    ensures forall k | k in keys :: (k in first + rest && (first + rest)[k] == m[k]) <==> Uncut(k, m[k])
  {
    hide Uncut;
    OneEntry(first, keys[0], m[keys[0]]);
    assert keys == [keys[0]] + keys[1..];
  }

  lemma OneEntry(m: map<string, string>, k: string, v: string)
    requires m.Keys <= {k}
    ensures m == map[k := v] <==> k in m && m[k] == v
  {
    if k in m && m[k] == v { assert m.Keys == {k}; }
    assert k in map[k := v] && map[k := v][k] == v;
  }

  /** A whole table comes back exactly when every line of it stays whole. */
  lemma TableIff(m: map<string, string>, keys: seq<string>)
    requires Listing(keys, m) && forall k | k in m :: Legible(k)
    ensures TableRead(m, keys) == Ok(m) <==> forall k | k in m :: Uncut(k, m[k])
    ensures TableRead(m, keys).Ok? ==> forall k | k in TableRead(m, keys).value :: k in m
  {
    hide TableRead, Legible, Uncut;
    TableMeans(m, keys);
    var r := TableRead(m, keys);
    if r.Ok? && (forall k | k in m :: Uncut(k, m[k])) { assert r.value == m; }
  }

  // ---- whole documents -------------------------------------------------------------

  /** The keys of a map, each once, in some order. */
  ghost predicate Listing(keys: seq<string>, m: map<string, string>) {
    (forall k :: k in keys <==> k in m) && forall i, j | 0 <= i < j < |keys| :: keys[i] != keys[j]
  }

  function TableLines(e: CatalogExport, keys: seq<string>): seq<string>
    requires forall k | k in keys :: k in e.cfg.values
  {
    if keys == [] then [] else [Section(e.cfg.backend)] + EntryLines(e.cfg.values, keys)
  }

  function ExportLines(e: CatalogExport, keys: seq<string>): seq<string>
    requires forall k | k in keys :: k in e.cfg.values
  {
    [""] + (["[[export]]"] + (LinesOf(Fields(e)) + TableLines(e, keys)))
  }

  /** What validation and the field types give: normalized path, numbers in range, no per-node
      keys, and a backend name that a section header can carry. */
  ghost predicate WellFormed(e: CatalogExport) {
    && NormalizePath(e.cfg.path) == e.cfg.path && InRange(e)
    && (forall k | k in e.cfg.values :: !PerNode(k))
    && (e.cfg.values != map[] ==> GoodName(e.cfg.backend))
  }

  /** Every subtable key is one that a line can be read as. */
  ghost predicate LegibleKeys(e: CatalogExport) {
    forall k | k in e.cfg.values :: Legible(k)
  }

  function Appended(p: Parser, r: Result<CatalogExport>, table: bool): Result<Parser> {
    match r
    case Ok(e) => Ok(p.(exports := p.exports + [e], inHeader := false, block := Block(table)))
    case Err => Err
  }

  lemma TwoLines(p: Parser, rest: seq<string>)
    ensures FeedAll(p, [""] + (["[[export]]"] + rest))
         == FeedAll(p.(exports := p.exports + [DEFAULT], inHeader := false, block := Block(false)), rest)
  {
    hide Feed, FeedAll;
    FeedBlank(p);
    FeedExportHeader(p);
    FeedCons(p, "", ["[[export]]"] + rest);
    FeedCons(p, "[[export]]", rest);
  }

  lemma FeedCons(p: Parser, line: string, rest: seq<string>)
    ensures FeedAll(p, [line] + rest) == Onward(Feed(p, line), rest)
  {
    hide Feed;
    assert ([line] + rest)[1..] == rest;
  }

  /** What the subtable lines do to an export that has no values yet. */
  function PutTable(p: Parser, r: Result<map<string, string>>, table: bool): Result<Parser>
    requires p.exports != []
  {
    match r
    case Ok(m) => Ok(WithLast(p, WithTable(p.exports[|p.exports| - 1], m), table))
    case Err => Err
  }

  lemma PutFirst(p: Parser, r: Result<map<string, string>>)
    requires p.exports != [] && p.exports[|p.exports| - 1].cfg.values == map[]
    ensures PutValues(p.(block := Block(true)), r) == PutTable(p, r, true)
    ensures p.block == Block(false) ==> PutTable(p, Ok(map[]), false) == Ok(p)
  {
    var n := |p.exports| - 1;
    if r.Ok? { assert map[] + r.value == r.value; }
    assert p.exports[..n] + [p.exports[n]] == p.exports;
  }

  lemma FeedTable(p: Parser, e: CatalogExport, keys: seq<string>)
    requires p.exports != [] && p.block == Block(false) && p.exports[|p.exports| - 1].cfg.values == map[]
    requires WellFormed(e) && LegibleKeys(e) && Listing(keys, e.cfg.values)
    ensures FeedAll(p, TableLines(e, keys)) == PutTable(p, TableRead(e.cfg.values, keys), keys != [])
  {
    hide Feed, FeedAll, Section, EntryLines, TableRead, Legible, PerNode, NormalizePath, InRange, GoodName, PutTable,
         PutValues;
    var r := TableRead(e.cfg.values, keys);
    PutFirst(p, r);
    if keys == [] {
      NoTable(e.cfg.values);
      FeedNothing(p);
    } else {
      assert keys[0] in e.cfg.values;
      FeedSection(p, e.cfg.backend);
      FeedCons(p, Section(e.cfg.backend), EntryLines(e.cfg.values, keys));
      FeedEntries(p.(block := Block(true)), e.cfg.values, keys);
    }
  }

  function WithTable(x: CatalogExport, m: map<string, string>): CatalogExport {
    x.(cfg := x.cfg.(values := m))
  }

  lemma NoTable(m: map<string, string>)
    ensures TableRead(m, []) == Ok(map[])
  {
  }

  lemma NothingPerNode(e: CatalogExport)
    requires WellFormed(e)
    ensures ClusterKeys(e.cfg.values) == e.cfg.values
  {
    hide InRange, NormalizePath, PerNode, GoodName;
  }

  /** Reading the lines of one export appends it. */
  lemma FeedExport(p: Parser, e: CatalogExport, keys: seq<string>)
    requires WellFormed(e) && LegibleKeys(e) && Listing(keys, ClusterKeys(e.cfg.values))
    ensures FeedAll(p, ExportLines(e, keys)) == Appended(p, Reread(e, keys), keys != [])
  {
    hide FeedAll, LinesOf, Fields, TableLines, Got, InRange, NormalizePath, LegibleKeys, PerNode, GoodName, TableRead;
    var q := p.(exports := p.exports + [DEFAULT], inHeader := false, block := Block(false));
    TwoLines(p, LinesOf(Fields(e)) + TableLines(e, keys));
    FeedAllAppend(q, LinesOf(Fields(e)), TableLines(e, keys));
    FeedFields(q, e);
    NothingPerNode(e);
    var x := RereadFields(Bare(e));
    if x.Ok? { FeedTable(WithLast(q, x.value, false), e, keys); }
  }

  ghost predicate Orders(orders: seq<seq<string>>, es: seq<CatalogExport>) {
    |orders| == |es| && forall i | 0 <= i < |es| :: Listing(orders[i], ClusterKeys(es[i].cfg.values))
  }

  ghost function AllLines(es: seq<CatalogExport>, orders: seq<seq<string>>): seq<string>
    requires Orders(orders, es)
  {
    if es == [] then [] else ExportLines(es[0], orders[0]) + AllLines(es[1..], orders[1..])
  }

  /** An export as all its lines read. */
  function Reread(e: CatalogExport, keys: seq<string>): Result<CatalogExport>
    requires forall k | k in keys :: k in ClusterKeys(e.cfg.values)
  {
    var x :- RereadFields(Bare(e));
    var m :- TableRead(ClusterKeys(e.cfg.values), keys);
    Ok(WithTable(x, m))
  }

  function Prepend(x: Result<CatalogExport>, xs: Result<seq<CatalogExport>>): Result<seq<CatalogExport>> {
    if x.Ok? && xs.Ok? then Ok([x.value] + xs.value) else Err
  }

  ghost function RereadAll(es: seq<CatalogExport>, orders: seq<seq<string>>): Result<seq<CatalogExport>>
    requires Orders(orders, es)
    decreases |es|
  {
    if es == [] then Ok([]) else Prepend(Reread(es[0], orders[0]), RereadAll(es[1..], orders[1..]))
  }

  lemma {:induction false} RereadEach(es: seq<CatalogExport>, orders: seq<seq<string>>, xs: seq<CatalogExport>)
    requires Orders(orders, es) && RereadAll(es, orders) == Ok(xs)
    ensures |xs| == |es| && forall i | 0 <= i < |es| :: Reread(es[i], orders[i]) == Ok(xs[i])
    decreases |es|
  {
    hide Reread;
    if es != [] { RereadEach(es[1..], orders[1..], xs[1..]); }
  }

  /** The parser went from `p` through the exports. */
  ghost predicate Through(r: Result<Parser>, p: Parser, xs: Result<seq<CatalogExport>>) {
    match xs
    case Err => r == Err
    case Ok(list) =>
      r.Ok? && r.value.exports == p.exports + list && r.value.meta == p.meta && r.value.header == p.header
      && r.value.version == p.version
  }

  lemma {:induction false} FeedExports(p: Parser, es: seq<CatalogExport>, orders: seq<seq<string>>)
    requires Orders(orders, es) && forall e | e in es :: WellFormed(e) && LegibleKeys(e)
    ensures Through(FeedAll(p, AllLines(es, orders)), p, RereadAll(es, orders))
    decreases |es|
  {
    hide FeedAll, ExportLines, Reread, WellFormed, LegibleKeys;
    if es == [] {
      FeedNothing(p);
    } else {
      assert es[0] in es;
      FeedAllAppend(p, ExportLines(es[0], orders[0]), AllLines(es[1..], orders[1..]));
      FeedExport(p, es[0], orders[0]);
      var x := Reread(es[0], orders[0]);
      if x.Ok? {
        var q := Appended(p, x, orders[0] != []).value;
        FeedExports(q, es[1..], orders[1..]);
        var more := RereadAll(es[1..], orders[1..]);
        if more.Ok? { Moved(p.exports, x.value, more.value); }
      }
    }
  }

  lemma Moved(a: seq<CatalogExport>, x: CatalogExport, b: seq<CatalogExport>)
    ensures (a + [x]) + b == a + ([x] + b)
  {
  }

  lemma FeedNothing(p: Parser)
    ensures FeedAll(p, []) == Ok(p)
  {
  }

  function HeaderLines(meta: Meta): seq<string> {
    ["[catalog]"] + ([Line("version", Digits(meta.version))] + ([Line("updated_at", Quote(meta.updatedAt))]
      + ([Line("updated_by", Quote(meta.updatedBy))] + ([Line("comment", Quote(meta.comment))] + []))))
  }

  lemma CatalogHeaderIsClean()
    ensures Clean("[catalog]") == View(0, 9) && OneLine("[catalog]") && Text("[catalog]", View(0, 9)) == "[catalog]"
  {
    hide Clean, Plain, OneLine;
    PlainText("[catalog]");
    BracketLine("[catalog]");
    assert "[catalog]"[0..9] == "[catalog]";
  }

  lemma FeedCatalogHeader()
    ensures Feed(START, "[catalog]") == Ok(START.(header := true, inHeader := true))
  {
    hide Clean, Text, SplitEntry;
    CatalogHeaderIsClean();
  }

  lemma MetaKeys()
    ensures GoodKey("version") && GoodKey("updated_at") && GoodKey("updated_by") && GoodKey("comment")
  {
  }

  /** A header line sets the field it names. */
  lemma FeedMeta(p: Parser, key: string, text: string, r: Result<Parser>)
    requires p.block == NoBlock && p.inHeader && GoodKey(key) && Scalar(text)
    requires var t, v := Line(key, text), View(|key| + 3, |Line(key, text)|);
             (In(v, t) && Tight(t, v) && At(t, v.lo, text) && v.hi == v.lo + |text| && Text(t, v) == text) ==>
               SetMeta(p, key, t, v) == r
    ensures Feed(p, Line(key, text)) == r
  {
    hide Line, Clean, SplitEntry, SetMeta, Scalar, BlockLine;
    var t := Line(key, text);
    ScalarLine(key, text);
    assert Text(t, View(0, |t|))[0] == key[0];
  }

  lemma FeedVersion(p: Parser, n: nat)
    requires p.block == NoBlock && p.inHeader && n < U64
    ensures Feed(p, Line("version", Digits(n))) == Ok(p.(meta := p.meta.(version := n), version := true))
  {
    hide Line, Digits, Scalar, Feed, UintValue, GoodKey;
    MetaKeys();
    DigitsAreScalar(n);
    var t := Line("version", Digits(n));
    var v := View(|"version"| + 3, |t|);
    if Tight(t, v) && Text(t, v) == Digits(n) { UintOf(t, v, n); }
    FeedMeta(p, "version", Digits(n), Ok(p.(meta := p.meta.(version := n), version := true)));
  }

  lemma FeedString(p: Parser, key: string, s: string, q: Parser)
    requires p.block == NoBlock && p.inHeader && GoodKey(key)
    requires || (key == "updated_at" && q == p.(meta := p.meta.(updatedAt := s)))
             || (key == "updated_by" && q == p.(meta := p.meta.(updatedBy := s)))
             || (key == "comment" && q == p.(meta := p.meta.(comment := s)))
    ensures Feed(p, Line(key, Quote(s))) == Ok(q)
  {
    hide Line, Quote, Scalar, Feed, StringValue, GoodKey;
    QuoteIsScalar(s);
    var t := Line(key, Quote(s));
    var v := View(|key| + 3, |t|);
    if In(v, t) && At(t, v.lo, Quote(s)) && v.hi == v.lo + |Quote(s)| { StringRoundTrip(t, v, s); }
    FeedMeta(p, key, Quote(s), Ok(q));
  }

  lemma FeedHeader(meta: Meta)
    requires meta.version < U64
    ensures FeedAll(START, HeaderLines(meta)) == Ok(Parser(meta, [], true, true, true, NoBlock))
  {
    hide FeedAll, Feed, Line, Quote, Digits, GoodKey;
    MetaKeys();
    var p0 := START.(header := true, inHeader := true);
    var p1 := p0.(meta := p0.meta.(version := meta.version), version := true);
    var p2 := p1.(meta := p1.meta.(updatedAt := meta.updatedAt));
    var p3 := p2.(meta := p2.meta.(updatedBy := meta.updatedBy));
    var p4 := p3.(meta := p3.meta.(comment := meta.comment));
    var l1, l2 := Line("version", Digits(meta.version)), Line("updated_at", Quote(meta.updatedAt));
    var l3, l4 := Line("updated_by", Quote(meta.updatedBy)), Line("comment", Quote(meta.comment));
    FeedCatalogHeader();
    FeedVersion(p0, meta.version);
    FeedString(p1, "updated_at", meta.updatedAt, p2);
    FeedString(p2, "updated_by", meta.updatedBy, p3);
    FeedString(p3, "comment", meta.comment, p4);
    FeedCons(START, "[catalog]", [l1] + ([l2] + ([l3] + ([l4] + []))));
    FeedCons(p0, l1, [l2] + ([l3] + ([l4] + [])));
    FeedCons(p1, l2, [l3] + ([l4] + []));
    FeedCons(p2, l3, [l4] + []);
    FeedCons(p3, l4, []);
    FeedNothing(p4);
  }

  // ---- the text of a document ------------------------------------------------------

  /** The canonical text; `orders` lists the subtable keys of each export, by fsid. */
  ghost function Serialize(c: Catalog, orders: seq<seq<string>>): string
    requires Orders(orders, Sort(c.exports, ExportFsid))
  {
    Unlines(HeaderLines(c.meta) + AllLines(Sort(c.exports, ExportFsid), orders))
  }

  lemma LineIsOne(key: string, text: string)
    requires '\n' !in key && OneLine(text)
    ensures OneLine(Line(key, text))
  {
    assert forall i | 0 <= i < |key| :: key[i] in key;
  }

  lemma GoodKeyIsOne(key: string, text: string)
    requires GoodKey(key) && OneLine(text)
    ensures OneLine(Line(key, text))
  {
    LineIsOne(key, text);
  }

  lemma QuoteIsOne(s: string)
    ensures OneLine(Quote(s))
  {
    EscapeHasNoNewline(s);
    assert forall i | 0 <= i < |Escape(s)| :: Escape(s)[i] in Escape(s);
  }

  lemma {:induction false} JoinIsOne(xs: seq<string>)
    ensures OneLine(Join(xs))
  {
    if xs != [] {
      hide Quote;
      QuoteIsOne(xs[0]);
      if |xs| > 1 { JoinIsOne(xs[1..]); }
    }
  }

  lemma BareIsOne(n: nat, b: bool)
    ensures OneLine(Digits(n)) && OneLine(BoolText(b))
  {
    hide Digits;
    assert AllDigits(Digits(n));
  }

  lemma AssignIsOne(a: Assign)
    ensures OneLine(LineOf(a))
  {
    hide Line, KeyText, Quote, Join, Digits, BoolText, OneLine;
    KeyTextIsGood(a.key);
    match a {
      case Str(_, s) => QuoteIsOne(s);
      case Num(_, n) => BareIsOne(n, true);
      case Size(_, n) => BareIsOne(n, true);
      case Sized(_, n, u) => QuoteIsOne(Digits(n) + UnitText(u));
      case Flag(_, b) => BareIsOne(0, b);
      case Arr(_, xs) => ArrayIsOne(xs);
    }
    GoodKeyIsOne(KeyText(a.key), TextOf(a));
  }

  lemma ArrayIsOne(xs: seq<string>)
    ensures OneLine(QuoteArray(xs))
  {
    JoinIsOne(xs);
  }

  ghost predicate AllOne(lines: seq<string>) {
    forall l | l in lines :: OneLine(l)
  }

  lemma AllOneAppend(a: seq<string>, b: seq<string>)
    requires AllOne(a) && AllOne(b)
    ensures AllOne(a + b)
  {
  }

  lemma OneMoreLine(l: string, rest: seq<string>)
    requires OneLine(l) && AllOne(rest)
    ensures AllOne([l] + rest)
  {
  }

  lemma EntriesAreOne(m: map<string, string>, keys: seq<string>)
    requires forall k | k in keys :: k in m && Legible(k)
    ensures AllOne(EntryLines(m, keys))
  {
    hide Line, BackendText, IsSpace, OneLine;
    forall i | 0 <= i < |keys|
      ensures OneLine(EntryLines(m, keys)[i])
    {
      assert keys[i] in keys;
      BackendTextIsOne(m[keys[i]]);
      LineIsOne(keys[i], BackendText(m[keys[i]]));
    }
  }

  lemma BackendTextIsOne(v: string)
    ensures OneLine(BackendText(v))
  {
    hide Quote, Digits;
    QuoteIsOne(v);
    if ParseUint(v).Ok? { BareIsOne(ParseUint(v).value, true); }
  }

  lemma FieldsAreOne(e: CatalogExport)
    ensures AllOne(LinesOf(Fields(e)))
  {
    hide LineOf, OneLine, Fields;
    forall i | 0 <= i < |Fields(e)|
      ensures OneLine(LinesOf(Fields(e))[i])
    {
      AssignIsOne(Fields(e)[i]);
    }
  }

  lemma ExportLinesAreOne(e: CatalogExport, keys: seq<string>)
    requires WellFormed(e) && LegibleKeys(e) && Listing(keys, ClusterKeys(e.cfg.values))
    ensures AllOne(ExportLines(e, keys))
  {
    hide OneLine, LinesOf, Fields, TableLines, AllOne, WellFormed, LegibleKeys;
    EmptyIsOne();
    ExportHeaderIsClean();
    FieldsAreOne(e);
    NothingPerNode(e);
    TableIsOne(e, keys);
    AllOneAppend(LinesOf(Fields(e)), TableLines(e, keys));
    OneMoreLine("[[export]]", LinesOf(Fields(e)) + TableLines(e, keys));
    OneMoreLine("", ["[[export]]"] + (LinesOf(Fields(e)) + TableLines(e, keys)));
  }

  lemma EmptyIsOne()
    ensures OneLine("") && AllOne([])
  {
  }

  lemma TableIsOne(e: CatalogExport, keys: seq<string>)
    requires WellFormed(e) && LegibleKeys(e) && Listing(keys, e.cfg.values)
    ensures AllOne(TableLines(e, keys))
  {
    hide OneLine, Section, EntryLines, Legible, PerNode, NormalizePath, InRange, GoodName, AllOne;
    EmptyIsOne();
    if keys != [] {
      assert keys[0] in e.cfg.values;
      SectionShape(e.cfg.backend);
      EntriesAreOne(e.cfg.values, keys);
      OneMoreLine(Section(e.cfg.backend), EntryLines(e.cfg.values, keys));
    }
  }

  lemma {:induction false} AllLinesAreOne(es: seq<CatalogExport>, orders: seq<seq<string>>)
    requires Orders(orders, es) && forall e | e in es :: WellFormed(e) && LegibleKeys(e)
    ensures AllOne(AllLines(es, orders))
    decreases |es|
  {
    hide OneLine, ExportLines, WellFormed, LegibleKeys, AllOne;
    EmptyIsOne();
    if es != [] {
      assert es[0] in es;
      ExportLinesAreOne(es[0], orders[0]);
      AllLinesAreOne(es[1..], orders[1..]);
      AllOneAppend(ExportLines(es[0], orders[0]), AllLines(es[1..], orders[1..]));
    }
  }

  lemma HeaderIsOne(meta: Meta)
    ensures AllOne(HeaderLines(meta))
  {
    hide OneLine, Line, Quote, Digits, GoodKey, AllOne;
    var l1, l2 := Line("version", Digits(meta.version)), Line("updated_at", Quote(meta.updatedAt));
    var l3, l4 := Line("updated_by", Quote(meta.updatedBy)), Line("comment", Quote(meta.comment));
    EmptyIsOne();
    MetaKeys();
    CatalogHeaderIsClean();
    BareIsOne(meta.version, true);
    QuoteIsOne(meta.updatedAt);
    QuoteIsOne(meta.updatedBy);
    QuoteIsOne(meta.comment);
    GoodKeyIsOne("version", Digits(meta.version));
    GoodKeyIsOne("updated_at", Quote(meta.updatedAt));
    GoodKeyIsOne("updated_by", Quote(meta.updatedBy));
    GoodKeyIsOne("comment", Quote(meta.comment));
    OneMoreLine(l4, []);
    OneMoreLine(l3, [l4] + []);
    OneMoreLine(l2, [l3] + ([l4] + []));
    OneMoreLine(l1, [l2] + ([l3] + ([l4] + [])));
    OneMoreLine("[catalog]", [l1] + ([l2] + ([l3] + ([l4] + []))));
  }

  // ---- the round trip --------------------------------------------------------------

  /** What the field types and validate_catalog give of a document: the version in range,
      distinct fsids, every export well formed. */
  ghost predicate Storable(c: Catalog) {
    c.meta.version < U64 && DistinctKeys(c.exports, ExportFsid) && forall e | e in c.exports :: WellFormed(e)
  }

  predicate CleanArrays(e: CatalogExport) {
    NoneEndsInBackslash(e.cfg.nodes) && NoneEndsInBackslash(e.cfg.dyn.clients)
  }

  /** Every subtable key can be read from a line, and no comment starts on its line. */
  ghost predicate CleanKeys(e: CatalogExport) {
    LegibleKeys(e) && forall k | k in e.cfg.values :: Uncut(k, e.cfg.values[k])
  }

  /** `text` is the canonical text of the document, for some order of its subtable keys. */
  ghost predicate IsTextOf(text: string, c: Catalog) {
    exists orders :: Orders(orders, Sort(c.exports, ExportFsid)) && text == Serialize(c, orders)
  }

  lemma AtSelf(t: string, s: string, u: string)
    requires t == s + u
    ensures At(t, 0, s)
  {
  }

  /** The lines of a text that starts with the given ones. */
  lemma LinesAfter(lines: seq<string>, more: seq<string>)
    requires AllOne(lines)
    ensures var text := Unlines(lines + more);
            |Unlines(lines)| <= |text| && LinesFrom(text, 0) == lines + LinesFrom(text, |Unlines(lines)|)
  {
    hide LinesFrom, Unlines, At;
    var text := Unlines(lines + more);
    UnlinesAppend(lines, more);
    AtSelf(text, Unlines(lines), Unlines(more));
    LinesRoundTrip(text, 0, lines);
  }

  lemma LinesOfText(lines: seq<string>)
    requires AllOne(lines)
    ensures LinesFrom(Unlines(lines), 0) == lines
  {
    hide Unlines, OneLine;
    assert lines + [] == lines;
    LinesAfter(lines, []);
  }

  lemma SerializedLines(c: Catalog, orders: seq<seq<string>>)
    requires Orders(orders, Sort(c.exports, ExportFsid))
    requires forall e | e in c.exports :: WellFormed(e) && LegibleKeys(e)
    ensures LinesFrom(Serialize(c, orders), 0) == HeaderLines(c.meta) + AllLines(Sort(c.exports, ExportFsid), orders)
  {
    hide WellFormed, LegibleKeys, HeaderLines, AllLines, LinesFrom, AllOne, Orders, Unlines;
    var es := Sort(c.exports, ExportFsid);
    HeaderIsOne(c.meta);
    AllLinesAreOne(es, orders);
    AllOneAppend(HeaderLines(c.meta), AllLines(es, orders));
    LinesOfText(HeaderLines(c.meta) + AllLines(es, orders));
  }

  /** Parsing the written text gives the document by fsid, arrays and tables as they are read. */
  lemma ParseSerialized(c: Catalog, orders: seq<seq<string>>)
    requires Storable(c) && Orders(orders, Sort(c.exports, ExportFsid)) && forall e | e in c.exports :: LegibleKeys(e)
    ensures Parse(Serialize(c, orders)) ==
              match RereadAll(Sort(c.exports, ExportFsid), orders)
              case Err => Err
              case Ok(xs) => Ok(Catalog(c.meta, xs))
  {
    hide LinesFrom, FeedAll, Feed, HeaderLines, AllLines, RereadAll, Serialize, WellFormed, LegibleKeys, StripAll, Orders;
    var es := Sort(c.exports, ExportFsid);
    hide Sort;
    SerializedLines(c, orders);
    var p := Parser(c.meta, [], true, true, true, NoBlock);
    FeedHeader(c.meta);
    FeedAllAppend(START, HeaderLines(c.meta), AllLines(es, orders));
    FeedExports(p, es, orders);
    var xs := RereadAll(es, orders);
    if xs.Ok? {
      assert p.exports + xs.value == xs.value;
      SortSorts(c.exports, ExportFsid);
      FinishKeeps(es, orders, xs.value);
    }
  }

  /** Nothing is stripped or moved at the end. */
  lemma FinishKeeps(es: seq<CatalogExport>, orders: seq<seq<string>>, xs: seq<CatalogExport>)
    requires Orders(orders, es) && Ascending(es, ExportFsid) && RereadAll(es, orders) == Ok(xs)
    requires forall e | e in es :: WellFormed(e) && LegibleKeys(e)
    ensures Sort(StripAll(xs), ExportFsid) == xs && Ascending(xs, ExportFsid)
  {
    hide RereadAll, Sort, WellFormed, LegibleKeys, Reread, Listing;
    RereadEach(es, orders, xs);
    forall i | 0 <= i < |xs|
      ensures StripExport(xs[i]) == xs[i] && xs[i].cfg.fsid == es[i].cfg.fsid
    {
      assert es[i] in es;
      RereadKeeps(es[i], orders[i], xs[i]);
    }
    assert StripAll(xs) == xs;
    assert forall i | 0 <= i < |xs| :: ExportFsid(xs[i]) == ExportFsid(es[i]);
    SortedStays(xs, ExportFsid);
  }

  lemma RereadKeeps(e: CatalogExport, keys: seq<string>, x: CatalogExport)
    requires WellFormed(e) && LegibleKeys(e) && Listing(keys, ClusterKeys(e.cfg.values)) && Reread(e, keys) == Ok(x)
    ensures StripExport(x) == x && x.cfg.fsid == e.cfg.fsid
  {
    hide Got, InRange, NormalizePath, PerNode, GoodName, TableRead, Legible, Uncut;
    NothingPerNode(e);
    TableIff(e.cfg.values, keys);
    assert ClusterKeys(x.cfg.values) == x.cfg.values;
  }

  lemma GotIff(k: Key, xs: seq<string>)
    ensures Got(k, xs) == Ok(xs) <==> NoneEndsInBackslash(xs)
  {
    hide KeyText, Line, QuoteArray, StringArray, ArrayView, NoneEndsInBackslash;
    KeyTextIsGood(k);
    ArrayLine(KeyText(k), xs);
  }

  lemma RereadIff(e: CatalogExport, keys: seq<string>)
    requires WellFormed(e) && LegibleKeys(e) && Listing(keys, ClusterKeys(e.cfg.values))
    ensures Reread(e, keys) == Ok(e) <==> CleanArrays(e) && CleanKeys(e)
  {
    hide Got, NoneEndsInBackslash, InRange, NormalizePath, PerNode, GoodName, TableRead, Legible, Uncut;
    NothingPerNode(e);
    GotIff(Nodes, e.cfg.nodes);
    GotIff(Clients, e.cfg.dyn.clients);
    TableIff(e.cfg.values, keys);
  }

  lemma {:induction false} RereadAllIff(es: seq<CatalogExport>, orders: seq<seq<string>>)
    requires Orders(orders, es) && forall e | e in es :: WellFormed(e) && LegibleKeys(e)
    ensures RereadAll(es, orders) == Ok(es) <==> forall e | e in es :: CleanArrays(e) && CleanKeys(e)
    decreases |es|
  {
    hide Reread, CleanArrays, CleanKeys, WellFormed, LegibleKeys;
    if es != [] {
      assert es[0] in es;
      RereadIff(es[0], orders[0]);
      RereadAllIff(es[1..], orders[1..]);
      assert es == [es[0]] + es[1..];
    }
  }

  /** Keys that no line can be read as never come out of a parse, from whatever text. */
  lemma ParsedKeysAreLegible(text: string)
    ensures Parse(text).Ok? ==> forall e | e in Parse(text).value.exports :: LegibleKeys(e)
  {
    hide FeedAll, LinesFrom, LegibleKeys, Sort;
    LinesHoldNoNewline(text, 0);
    FeedAllLegible(START, LinesFrom(text, 0));
    var p := FeedAll(START, LinesFrom(text, 0));
    if p.Ok? {
      forall i | 0 <= i < |p.value.exports|
        ensures LegibleKeys(StripAll(p.value.exports)[i])
      {
        assert p.value.exports[i] in p.value.exports;
        StripLegible(p.value.exports[i]);
      }
    }
  }

  lemma StripLegible(e: CatalogExport)
    requires LegibleKeys(e)
    ensures LegibleKeys(StripExport(e))
  {
    hide Legible;
  }

  lemma {:induction false} LinesHoldNoNewline(text: string, i: nat)
    requires i <= |text|
    ensures forall l | l in LinesFrom(text, i) :: '\n' !in l
    decreases |text| - i
  {
    if i < |text| {
      var e := FindNewline(text, i);
      BeforeNewline(text, i);
      if e < |text| { LinesHoldNoNewline(text, e + 1); }
    }
  }

  lemma {:induction false} BeforeNewline(text: string, i: nat)
    requires i <= |text|
    ensures '\n' !in text[i..FindNewline(text, i)]
    decreases |text| - i
  {
    if i < |text| && text[i] != '\n' {
      BeforeNewline(text, i + 1);
      var e := FindNewline(text, i);
      assert text[i..e] == [text[i]] + text[i + 1..e];
    }
  }

  ghost predicate AllLegible(p: Parser) {
    forall e | e in p.exports :: LegibleKeys(e)
  }

  lemma {:induction false} FeedAllLegible(p: Parser, lines: seq<string>)
    requires AllLegible(p) && forall l | l in lines :: '\n' !in l
    ensures FeedAll(p, lines).Ok? ==> AllLegible(FeedAll(p, lines).value)
    decreases |lines|
  {
    hide Feed, AllLegible;
    if lines != [] {
      FeedLegible(p, lines[0]);
      var next := Feed(p, lines[0]);
      if next.Ok? { FeedAllLegible(next.value, lines[1..]); }
    }
  }

  lemma FeedLegible(p: Parser, raw: string)
    requires AllLegible(p) && '\n' !in raw
    ensures Feed(p, raw).Ok? ==> AllLegible(Feed(p, raw).value)
  {
    hide BlockLine, TopLine, Clean, LegibleKeys;
    var v, n := Clean(raw), |p.exports| - 1;
    if v.lo < v.hi {
      CleanIsTight(raw);
      if p.block.Block? && p.exports != [] {
        assert p.exports[n] in p.exports;
        BlockLineLegible(p.exports[n], p.block.table, raw, v);
      }
      TopLineLegible(p, raw, v);
      TopLineLegible(p.(block := NoBlock), raw, v);
    }
  }

  lemma CleanIsTight(raw: string)
    ensures Tight(raw, Clean(raw))
  {
    TrimTight(raw, View(0, Cut(raw, 0, false)));
  }

  lemma BlockLineLegible(e: CatalogExport, table: bool, t: string, v: View)
    requires LegibleKeys(e) && '\n' !in t && Tight(t, v) && v.lo < v.hi
    ensures BlockLine(e, table, t, v).Ok? && BlockLine(e, table, t, v).value.Fed? ==>
              LegibleKeys(BlockLine(e, table, t, v).value.e)
  {
    hide SplitEntry, BackendValue, KeyOf, SetField, Legible, StartsWith;
    if t[v.lo] != '[' && SplitEntry(t, v).Entry? {
      SplitIsLegible(t, v);
      if !table && KeyOf(SplitEntry(t, v).key).Ok? {
        FieldKeepsTable(e, KeyOf(SplitEntry(t, v).key).value, t, SplitEntry(t, v).value);
      }
    }
  }

  lemma FieldKeepsTable(e: CatalogExport, k: Key, t: string, v: View)
    requires In(v, t)
    ensures SetField(e, k, t, v).Ok? ==> SetField(e, k, t, v).value.cfg.values == e.cfg.values
  {
    hide StringValue, U32Value, SizeValue, BoolValue, StringArray, NormalizePath, SquashOf;
  }

  lemma TopLineLegible(p: Parser, t: string, v: View)
    requires AllLegible(p) && In(v, t) && v.lo < v.hi
    ensures TopLine(p, t, v).Ok? ==> AllLegible(TopLine(p, t, v).value)
  {
    hide SplitEntry, UintValue, StringValue, Text, Legible;
    assert LegibleKeys(DEFAULT);
  }

  /** The catalog round trip.  Parsing the text of a document gives it back exactly when its
      exports stand by fsid, no client or node entry ends in a backslash, and every subtable key
      can be read from a line on which no comment starts; all other strings are free. */
  lemma CatalogRoundTrip(c: Catalog, text: string)
    requires Storable(c) && IsTextOf(text, c)
    ensures Parse(text) == Ok(c) <==>
              Ascending(c.exports, ExportFsid) && forall e | e in c.exports :: CleanArrays(e) && CleanKeys(e)
  {
    hide Parse, Serialize, WellFormed, CleanArrays, LegibleKeys, Uncut, Orders;
    if forall e | e in c.exports :: LegibleKeys(e) {
      var orders :| Orders(orders, Sort(c.exports, ExportFsid)) && text == Serialize(c, orders);
      LegibleRoundTrip(c, orders);
    } else {
      ParsedKeysAreLegible(text);
    }
  }

  lemma LegibleRoundTrip(c: Catalog, orders: seq<seq<string>>)
    requires Storable(c) && Orders(orders, Sort(c.exports, ExportFsid)) && forall e | e in c.exports :: LegibleKeys(e)
    ensures Parse(Serialize(c, orders)) == Ok(c) <==>
              Ascending(c.exports, ExportFsid) && forall e | e in c.exports :: CleanArrays(e) && CleanKeys(e)
  {
    hide Parse, Serialize, RereadAll, WellFormed, CleanArrays, CleanKeys, LegibleKeys, Orders, Sort;
    var es := Sort(c.exports, ExportFsid);
    ParseSerialized(c, orders);
    SortSorts(c.exports, ExportFsid);
    RereadAllIff(es, orders);
    if Ascending(c.exports, ExportFsid) {
      SortedStays(c.exports, ExportFsid);
    } else if RereadAll(es, orders).Ok? {
      FinishKeeps(es, orders, RereadAll(es, orders).value);
    }
  }

  // ---- valid documents -------------------------------------------------------------

  /** What the build and the other checks have in common with the source: CIDR texts and owner
      names never end in a backslash, and backend types have plain names. */
  ghost predicate Plausible(env: Env) {
    && (forall s | env.cidrOk(s) :: !EndsInBackslash(s))
    && (forall c: ExportConfig | env.nodesOk(c) :: NoneEndsInBackslash(c.nodes))
    && (forall s | env.knownBackend(s) :: GoodName(s))
  }

  /** The numbers fit the fields of the source. */
  ghost predicate Typed(c: Catalog) {
    c.meta.version < U64 && forall e | e in c.exports :: InRange(e)
  }

  /** Validation leaves nothing but the order of the exports and the subtable keys to chance:
      arrays never break a valid document. */
  lemma ValidIsStorable(c: Catalog, activeActive: bool, env: Env)
    requires Plausible(env) && Typed(c) && ValidExports(c.exports, activeActive, env)
    ensures Storable(c) && forall e | e in c.exports :: CleanArrays(e)
  {
    hide InRange, NormalizePath, PerNode, EndsInBackslash, GoodName;
    forall e | e in c.exports
      ensures WellFormed(e) && CleanArrays(e)
    {
      var clients := e.cfg.dyn.clients;
      assert forall i | 0 <= i < |clients| :: clients[i] in clients;
    }
  }

  /** The promise of the header, for valid documents: it is kept exactly for those in fsid order
      whose subtable keys fit on their lines. */
  lemma ValidRoundTrip(c: Catalog, text: string, activeActive: bool, env: Env)
    requires Plausible(env) && Typed(c) && ValidExports(c.exports, activeActive, env) && IsTextOf(text, c)
    ensures Parse(text) == Ok(c) <==> Ascending(c.exports, ExportFsid) && forall e | e in c.exports :: CleanKeys(e)
  {
    hide *;
    ValidIsStorable(c, activeActive, env);
    CatalogRoundTrip(c, text);
  }

  /** A document of one export with one subtable entry. */
  function OneEntryCatalog(key: string, value: string): Catalog {
    Catalog(Meta(1, "", "", ""),
            [DEFAULT.(cfg := DEFAULT.cfg.(path := "/", fsid := 1, values := map[key := value]))])
  }

  lemma OneEntryIsValid(key: string, value: string, env: Env)
    requires env.knownBackend("local") && env.cidrOk("0.0.0.0/0") && env.cidrOk("::/0") && !PerNode(key)
    requires env.nodesOk(OneEntryCatalog(key, value).exports[0].cfg)
    ensures Typed(OneEntryCatalog(key, value)) && ValidExports(OneEntryCatalog(key, value).exports, false, env)
  {
    hide PerNode;
  }

  /** Valid documents that do not survive: a key `#x` turns its line into a comment, a key `[x`
      into a section header. */
  lemma CommentKeyIsLost(text: string, key: string, env: Env)
    requires Plausible(env) && env.knownBackend("local") && env.cidrOk("0.0.0.0/0") && env.cidrOk("::/0")
    requires key == "#x" || key == "[x"
    requires env.nodesOk(OneEntryCatalog(key, "1").exports[0].cfg) && IsTextOf(text, OneEntryCatalog(key, "1"))
    ensures ValidExports(OneEntryCatalog(key, "1").exports, false, env) && Parse(text) != Ok(OneEntryCatalog(key, "1"))
  {
    hide Parse, IsTextOf, ValidExports, Plausible, Typed, Uncut;
    var c := OneEntryCatalog(key, "1");
    OneEntryIsValid(key, "1", env);
    ValidRoundTrip(c, text, false, env);
    if key == "#x" { PlainKeyUncut(key, "1"); }
    assert key in c.exports[0].cfg.values && c.exports[0] in c.exports;
  }

  /** A trailing backslash in a client entry is lost as well, but such a document is not valid. */
  lemma TrailingBackslashIsLost(text: string, activeActive: bool, env: Env)
    requires IsTextOf(text, LOSSY) && Plausible(env)
    ensures Storable(LOSSY) && Parse(text) != Ok(LOSSY) && !ValidExports(LOSSY.exports, activeActive, env)
  {
    hide Parse, IsTextOf;
    assert LOSSY.exports[0] in LOSSY.exports && EndsInBackslash(LOSSY.exports[0].cfg.dyn.clients[0]);
    CatalogRoundTrip(LOSSY, text);
  }

  const LOSSY: Catalog := Catalog(
    Meta(1, "", "", ""),
    [DEFAULT.(cfg := DEFAULT.cfg.(path := "/", fsid := 1, dyn := DEFAULT.cfg.dyn.(clients := ["\\"])))])

  // ---- peek_catalog_version --------------------------------------------------------

  function PeekLines(lines: seq<string>, inHeader: bool): Result<nat>
    decreases |lines|
  {
    if lines == [] then Err
    else
      var t, v := lines[0], Clean(lines[0]);
      if v.lo == v.hi then PeekLines(lines[1..], inHeader)
      else if t[v.lo] == '[' then PeekLines(lines[1..], Text(t, v) == "[catalog]")
      else
        match SplitEntry(t, v)
        case NoEntry => PeekLines(lines[1..], inHeader)
        case Entry(key, value) =>
          if inHeader && key == "version" then UintValue(t, value) else PeekLines(lines[1..], inHeader)
  }

  function Peek(text: string): Result<nat> {
    PeekLines(LinesFrom(text, 0), false)
  }

  method PeekCatalogVersion(text: string) returns (r: Result<nat>)
    ensures r == Peek(text)
  {
    hide Clean, SplitEntry, UintValue;
    var inHeader, i := false, 0;
    while i < |text|
      invariant i <= |text| && Peek(text) == PeekLines(LinesFrom(text, i), inHeader)
      decreases |text| - i
    {
      var t, next := GetLine(text, i);
      ghost var rest := LinesFrom(text, next);
      assert ([t] + rest)[1..] == rest;
      i := next;
      var v := Clean(t);
      if v.lo == v.hi { continue; }
      if t[v.lo] == '[' {
        inHeader := Text(t, v) == "[catalog]";
        continue;
      }
      var entry := SplitEntry(t, v);
      if inHeader && entry.Entry? && entry.key == "version" { return UintValue(t, entry.value); }
    }
    return Err;
  }

  lemma PeekHeader(rest: seq<string>)
    ensures PeekLines(["[catalog]"] + rest, false) == PeekLines(rest, true)
  {
    hide Clean, Text, SplitEntry;
    CatalogHeaderIsClean();
    assert (["[catalog]"] + rest)[1..] == rest;
  }

  lemma PeekVersionLine(n: nat, rest: seq<string>)
    requires n < U64
    ensures PeekLines([Line("version", Digits(n))] + rest, true) == Ok(n)
  {
    hide Clean, SplitEntry, Line, Digits, GoodKey, Scalar, UintValue;
    var t := Line("version", Digits(n));
    MetaKeys();
    DigitsAreScalar(n);
    ScalarLine("version", Digits(n));
    UintOf(t, View(|"version"| + 3, |t|), n);
    assert ([t] + rest)[0] == t;
  }

  /** The version can be read without parsing the exports, whatever these hold. */
  lemma PeekSerialized(c: Catalog, text: string)
    requires c.meta.version < U64 && IsTextOf(text, c)
    ensures Peek(text) == Ok(c.meta.version)
  {
    hide LinesFrom, AllLines, PeekLines, Line, Quote, Digits, Sort, Orders, Unlines, AllOne, At;
    var orders :| Orders(orders, Sort(c.exports, ExportFsid)) && text == Serialize(c, orders);
    HeaderIsOne(c.meta);
    var header := HeaderLines(c.meta);
    LinesAfter(header, AllLines(Sort(c.exports, ExportFsid), orders));
    var more := [Line("updated_at", Quote(c.meta.updatedAt))] + ([Line("updated_by", Quote(c.meta.updatedBy))]
      + ([Line("comment", Quote(c.meta.comment))] + []));
    var l := Line("version", Digits(c.meta.version));
    var rest := LinesFrom(text, |Unlines(header)|);
    Peeled("[catalog]", l, more, rest);
    PeekHeader([l] + (more + rest));
    PeekVersionLine(c.meta.version, more + rest);
  }

  lemma Peeled(a: string, b: string, more: seq<string>, rest: seq<string>)
    ensures ([a] + ([b] + more)) + rest == [a] + ([b] + (more + rest))
  {
  }

  // ---- serialize_catalog -----------------------------------------------------------

  predicate Sorted(keys: seq<string>) {
    forall i, j | 0 <= i < j < |keys| :: TextLess(keys[i], keys[j])
  }

  method LeastKey(keys: set<string>) returns (least: string)
    requires keys != {}
    ensures least in keys && forall k | k in keys :: k == least || TextLess(least, k)
  {
    hide TextLess;
    least :| least in keys;
    var rest := keys - {least};
    while rest != {}
      invariant least in keys && rest <= keys
      invariant forall k | k in keys && k !in rest :: k == least || TextLess(least, k)
      decreases |rest|
    {
      var k :| k in rest;
      rest := rest - {k};
      if TextLess(k, least) {
        forall x | x in keys && x !in rest
          ensures x == k || TextLess(k, x)
        {
          TextOrder(k, least, x);
        }
        least := k;
      } else {
        TextOrder(k, least, k);
      }
    }
  }

  /** The keys in the order of the std::map they come from. */
  method ListKeys(m: map<string, string>) returns (keys: seq<string>)
    ensures Listing(keys, m) && Sorted(keys)
  {
    hide TextLess;
    keys := [];
    var rest := m.Keys;
    while rest != {}
      invariant forall k :: k in m <==> k in rest || k in keys
      invariant (forall k | k in keys :: k !in rest) && forall i, j | 0 <= i < j < |keys| :: keys[i] != keys[j]
      invariant Sorted(keys) && forall k, x | k in keys && x in rest :: TextLess(k, x)
      decreases |rest|
    {
      var k := LeastKey(rest);
      keys := keys + [k];
      rest := rest - {k};
    }
  }

  lemma {:induction false} AllLinesNext(es: seq<CatalogExport>, orders: seq<seq<string>>, e: CatalogExport, keys: seq<string>)
    requires Orders(orders, es) && Listing(keys, ClusterKeys(e.cfg.values))
    ensures Orders(orders + [keys], es + [e])
    ensures AllLines(es + [e], orders + [keys]) == AllLines(es, orders) + ExportLines(e, keys)
    decreases |es|
  {
    hide ExportLines;
    if es == [] {
      assert es + [e] == [e] && orders + [keys] == [keys];
      assert AllLines([], []) == [];
      assert AllLines([e], [keys]) == ExportLines(e, keys) + AllLines([e][1..], [keys][1..]);
    } else {
      AllLinesNext(es[1..], orders[1..], e, keys);
      assert (es + [e])[1..] == es[1..] + [e] && (orders + [keys])[1..] == orders[1..] + [keys];
    }
  }

  ghost predicate AllSorted(orders: seq<seq<string>>) {
    forall keys | keys in orders :: Sorted(keys)
  }

  /** The text with the subtable keys of every export sorted. */
  ghost predicate IsCanonicalText(text: string, c: Catalog) {
    exists orders ::
      Orders(orders, Sort(c.exports, ExportFsid)) && AllSorted(orders) && text == Serialize(c, orders)
  }

  method SerializeCatalog(c: Catalog) returns (text: string)
    ensures IsTextOf(text, c) && IsCanonicalText(text, c)
  {
    hide HeaderLines, ExportLines, Unlines, Sorted;
    var exports := Sort(c.exports, ExportFsid);
    text := Unlines(HeaderLines(c.meta));
    ghost var orders: seq<seq<string>> := [];
    assert exports[..0] == [] && HeaderLines(c.meta) + [] == HeaderLines(c.meta);
    for i := 0 to |exports|
      invariant Orders(orders, exports[..i]) && AllSorted(orders)
      invariant text == Unlines(HeaderLines(c.meta) + AllLines(exports[..i], orders))
    {
      var e := exports[i];
      var keys := ListKeys(ClusterKeys(e.cfg.values));
      ghost var before := HeaderLines(c.meta) + AllLines(exports[..i], orders);
      AllLinesNext(exports[..i], orders, e, keys);
      UnlinesAppend(before, ExportLines(e, keys));
      assert exports[..i + 1] == exports[..i] + [e];
      Reassociate(HeaderLines(c.meta), AllLines(exports[..i], orders), ExportLines(e, keys));
      text := text + Unlines(ExportLines(e, keys));
      orders := orders + [keys];
    }
    assert exports[..|exports|] == exports;
  }

  /** There is only one way to list the keys of a map in order ... */
  lemma {:induction false} ListingIsUnique(a: seq<string>, b: seq<string>)
    requires Sorted(a) && Sorted(b) && forall k :: k in a <==> k in b
    ensures a == b
    decreases |a|
  {
    hide TextLess;
    assert b != [] ==> b[0] in a;
    if a != [] {
      assert a[0] in b && b != [];
      var i :| 0 <= i < |b| && b[i] == a[0];
      var j :| 0 <= j < |a| && a[j] == b[0];
      TextOrder(a[0], b[0], a[0]);
      assert i == 0 && j == 0;
      forall k
        ensures k in a[1..] <==> k in b[1..]
      {
        NotAgain(a, k);
        NotAgain(b, k);
      }
      ListingIsUnique(a[1..], b[1..]);
      assert a == [a[0]] + a[1..] && b == [b[0]] + b[1..];
    }
  }

  lemma NotAgain(keys: seq<string>, k: string)
    requires keys != [] && Sorted(keys)
    ensures k in keys[1..] <==> k in keys && k != keys[0]
  {
    hide TextLess;
    TextOrder(keys[0], keys[0], keys[0]);
    assert keys == [keys[0]] + keys[1..];
    if k in keys[1..] {
      var i :| 0 <= i < |keys[1..]| && keys[1..][i] == k;
      assert TextLess(keys[0], keys[i + 1]);
    }
  }

  /** ... so the canonical text of a document is unique. */
  lemma CanonicalTextIsUnique(c: Catalog, a: string, b: string)
    requires IsCanonicalText(a, c) && IsCanonicalText(b, c)
    ensures a == b
  {
    hide Serialize, Sorted, Sort, ClusterKeys;
    var es := Sort(c.exports, ExportFsid);
    var x :| Orders(x, es) && AllSorted(x) && a == Serialize(c, x);
    var y :| Orders(y, es) && AllSorted(y) && b == Serialize(c, y);
    forall i | 0 <= i < |es|
      ensures x[i] == y[i]
    {
      assert x[i] in x && y[i] in y;
      assert Listing(x[i], ClusterKeys(es[i].cfg.values)) && Listing(y[i], ClusterKeys(es[i].cfg.values));
      ListingIsUnique(x[i], y[i]);
    }
    assert x == y;
  }

  lemma Reassociate(a: seq<string>, b: seq<string>, c: seq<string>)
    ensures (a + b) + c == a + (b + c)
  {
  }
}
