/** READDIR paging: core::readdir_page (src/core/readdir.cpp), the page loop of NFSv3 READDIR
    and READDIRPLUS (src/nfsv3/engine.cpp) and of NFSv4 READDIR (src/nfsv4/engine.cpp).

    The directory does not change between pages.  A backend returns its entries in a fixed
    order, in pages of its own choosing (`take`); sizes of encoded attributes come with the
    entry.  `shown` is false for an entry whose attributes cannot be fetched. */
module Readdir {

  const MAX_U64: nat := 0xFFFF_FFFF_FFFF_FFFF

  datatype Ent = Ent(name: string, cookie: nat, extra: nat, size: nat, shown: bool)

  datatype Page = Page(ents: seq<Ent>, eof: bool)

  datatype Fetched = Fetched(page: Page) | BadCookie | Overflow

  datatype Dir = Dir(dot: Ent, dotdot: Ent, ents: seq<Ent>, take: (nat, nat) -> (nat, bool))

  /** What a backend promises: entries have distinct nonzero cookies, a page makes progress
      unless the end is reached, and it claims the end only there. */
  ghost predicate Honest(d: Dir) {
    && (forall i | 0 <= i < |d.ents| :: d.ents[i].cookie > 0)
    && (forall i, j | 0 <= i < j < |d.ents| :: d.ents[i].cookie != d.ents[j].cookie)
    && (forall pos: nat, max: nat | pos <= |d.ents| && max > 0 :: Fair(d, pos, max))
  }

  predicate Fair(d: Dir, pos: nat, max: nat) {
    var n, eof := d.take(pos, max).0, d.take(pos, max).1;
    && n <= max && pos + n <= |d.ents| && (pos < |d.ents| ==> n > 0)
    && (eof ==> pos + n == |d.ents|) && (n == 0 ==> eof)
  }

  /** The position after the entry with this cookie. */
  function After(ents: seq<Ent>, cookie: nat): (i: int)
    ensures i < 0 || (0 < i <= |ents| && ents[i - 1].cookie == cookie)
    ensures i < 0 ==> forall k | 0 <= k < |ents| :: ents[k].cookie != cookie
  {
    if ents == [] then -1
    else if ents[|ents| - 1].cookie == cookie then |ents|
    else After(ents[..|ents| - 1], cookie)
  }

  function BackendRead(d: Dir, cookie: nat, max: nat): Fetched {
    var pos := if cookie == 0 then 0 else After(d.ents, cookie);
    if pos < 0 then BadCookie
    else
      var n := d.take(pos, max).0;
      if pos + n <= |d.ents| then Fetched(Page(d.ents[pos..pos + n], d.take(pos, max).1)) else BadCookie
  }

  // ---- core::readdir_page ----------------------------------------------------------

  function Shift(e: Ent): Ent {
    e.(cookie := e.cookie + 3)
  }

  function Shifted(ents: seq<Ent>): (r: seq<Ent>)
    ensures |r| == |ents| && forall i | 0 <= i < |r| :: r[i] == Shift(ents[i])
  {
    seq(|ents|, i requires 0 <= i < |ents| => Shift(ents[i]))
  }

  function Dot(d: Dir): Ent {
    d.dot.(name := ".", cookie := 1)
  }

  function DotDot(d: Dir): Ent {
    d.dotdot.(name := "..", cookie := 2)
  }

  /** Everything a client can see, with the cookies it sees: ".", "..", then the backend's. */
  function Listing(d: Dir): seq<Ent> {
    [Dot(d), DotDot(d)] + Shifted(d.ents)
  }

  /** The cookie a client sends to continue at a position of the listing. */
  function CookieAt(d: Dir, i: nat): nat
    requires i <= |Listing(d)|
  {
    if i == 0 then 0 else Listing(d)[i - 1].cookie
  }

  predicate CookiesFit(d: Dir) {
    forall i | 0 <= i < |d.ents| :: d.ents[i].cookie <= MAX_U64 - 3
  }

  function Min(a: nat, b: nat): nat {
    if a < b then a else b
  }

  function Dots(i: nat, max: nat): nat {
    if i < 2 then Min(2 - i, max) else 0
  }

  /** The page at a position: the dot entries still due, then the backend's next page unless
      the dots filled it. */
  ghost function PageAt(d: Dir, i: nat, max: nat): Page
    requires Honest(d) && i <= |Listing(d)| && max > 0
  {
    var dots := Dots(i, max);
    if dots == max then Page(Listing(d)[i..i + dots], false)
    else
      assert Fair(d, i + dots - 2, max - dots);
      var took := d.take(i + dots - 2, max - dots);
      Page(Listing(d)[i..i + dots + took.0], took.1)
  }

  lemma {:induction false} AfterFinds(ents: seq<Ent>, i: nat)
    requires 0 < i <= |ents| && forall j, k | 0 <= j < k < |ents| :: ents[j].cookie != ents[k].cookie
    ensures After(ents, ents[i - 1].cookie) == i
    decreases |ents|
  {
    if i < |ents| {
      assert ents[i - 1].cookie != ents[|ents| - 1].cookie;
      AfterFinds(ents[..|ents| - 1], i);
    }
  }

  /** A cookie of the listing leads the backend back to the same position. */
  lemma CookieMeans(d: Dir, i: nat)
    requires Honest(d) && i <= |Listing(d)|
    ensures i <= 2 ==> CookieAt(d, i) == i
    ensures i > 2 ==> CookieAt(d, i) > 3 && After(d.ents, CookieAt(d, i) - 3) == i - 2
  {
    hide After;
    if i > 2 { AfterFinds(d.ents, i - 2); }
  }

  lemma FairAt(d: Dir, pos: nat, max: nat)
    requires Honest(d) && pos <= |d.ents| && max > 0
    ensures Fair(d, pos, max)
  {
  }

  function BackendCookie(cookie: nat): nat {
    if cookie <= 2 then 0 else cookie - 3
  }

  lemma BackendReadAt(d: Dir, i: nat, max: nat)
    requires Honest(d) && 2 <= i <= |Listing(d)| && max > 0
    ensures var took := d.take(i - 2, max);
            && i - 2 + took.0 <= |d.ents|
            && BackendRead(d, BackendCookie(CookieAt(d, i)), max)
               == Fetched(Page(d.ents[i - 2..i - 2 + took.0], took.1))
  {
    hide Honest, After;
    CookieMeans(d, i);
    FairAt(d, i - 2, max);
  }

  lemma SameBackendCookie(d: Dir, i: nat, max: nat)
    requires Honest(d) && i <= |Listing(d)| && Dots(i, max) < max
    ensures 2 <= i + Dots(i, max) <= |Listing(d)|
    ensures BackendCookie(CookieAt(d, i + Dots(i, max))) == BackendCookie(CookieAt(d, i))
  {
    hide Honest, After;
    CookieMeans(d, i);
    CookieMeans(d, i + Dots(i, max));
  }

  /** A page that is not filled by dot entries goes on with the backend's page. */
  lemma PageParts(d: Dir, i: nat, max: nat)
    requires Honest(d) && i <= |Listing(d)| && Dots(i, max) < max
    ensures i + Dots(i, max) <= |Listing(d)|
    ensures var f := BackendRead(d, BackendCookie(CookieAt(d, i)), max - Dots(i, max));
            f.Fetched? && PageAt(d, i, max) == Page(Listing(d)[i..i + Dots(i, max)] + Shifted(f.page.ents), f.page.eof)
  {
    hide Honest, BackendRead, CookieAt, BackendCookie, Listing, Shifted, PageAt, Dots;
    ListingLength(d);
    var dots := Dots(i, max);
    SameBackendCookie(d, i, max);
    PageGoesOn(d, i, max);
    BackendReadAt(d, i + dots, max - dots);
    ListingSlice(d, i, dots, d.take(i + dots - 2, max - dots).0);
  }

  lemma PageGoesOn(d: Dir, i: nat, max: nat)
    requires Honest(d) && i <= |Listing(d)| && Dots(i, max) < max
    ensures var dots := Dots(i, max);
            && 2 <= i + dots
            && var took := d.take(i + dots - 2, max - dots);
            i + dots + took.0 <= |Listing(d)| && PageAt(d, i, max) == Page(Listing(d)[i..i + dots + took.0], took.1)
  {
    hide Listing;
    ListingLength(d);
    assert Fair(d, i + Dots(i, max) - 2, max - Dots(i, max));
  }

  lemma ListingLength(d: Dir)
    ensures |Listing(d)| == |d.ents| + 2
  {
  }

  lemma ListingSlice(d: Dir, i: nat, dots: nat, n: nat)
    requires 2 <= i + dots && i + dots + n <= |Listing(d)|
    ensures Listing(d)[i..i + dots] + Shifted(d.ents[i + dots - 2..i + dots - 2 + n]) == Listing(d)[i..i + dots + n]
  {
  }

  /** The position a cookie asks for.  Cookie 3 is never handed out and means the same as 2. */
  predicate StartsAt(d: Dir, cookie: nat, i: nat) {
    i <= |Listing(d)| && (CookieAt(d, i) == cookie || (cookie == 3 && i == 2))
  }

  /** What readdir_page returns at a position; it fails only on a cookie that has no room for
      the shift. */
  ghost predicate ServesPage(d: Dir, i: nat, max: nat, r: Fetched) {
    Honest(d) && i <= |Listing(d)| && max > 0
    && (r == Fetched(PageAt(d, i, max)) || (r == Overflow && !CookiesFit(d)))
  }

  method ReaddirPage(d: Dir, cookie: nat, max: nat) returns (r: Fetched)
    requires Honest(d)
    ensures max == 0 ==> r == Fetched(Page([], false))
    ensures max > 0 ==> forall i: nat | StartsAt(d, cookie, i) :: ServesPage(d, i, max, r)
    ensures max > 0 && cookie > 3 && After(d.ents, cookie - 3) < 0 ==> r == BadCookie
  {
    if max == 0 { return Fetched(Page([], false)); }
    forall i: nat | StartsAt(d, cookie, i)
      ensures if cookie <= 2 then i == cookie else i >= 2
    {
      CookieMeans(d, i);
    }
    var out: seq<Ent> := [];
    if cookie == 0 {
      out := [Dot(d)];
      assert out == Listing(d)[0..1];
      if |out| == max { return Fetched(Page(out, false)); }
    }
    if cookie <= 1 {
      out := out + [DotDot(d)];
      assert out == Listing(d)[cookie..2];
      if |out| == max { return Fetched(Page(out, false)); }
    }
    assert forall i: nat | StartsAt(d, cookie, i) :: out == Listing(d)[i..i + Dots(i, max)] && |out| == Dots(i, max);
    r := BackendPart(d, cookie, max, out);
  }

  /** The backend's entries behind the dot entries, their cookies moved out of the way. */
  method BackendPart(d: Dir, cookie: nat, max: nat, dots: seq<Ent>) returns (r: Fetched)
    requires Honest(d) && |dots| < max
    requires forall i: nat | StartsAt(d, cookie, i) ::
               i + Dots(i, max) <= |Listing(d)| && dots == Listing(d)[i..i + Dots(i, max)] && |dots| == Dots(i, max)
    ensures forall i: nat | StartsAt(d, cookie, i) :: ServesPage(d, i, max, r)
    ensures cookie > 3 && After(d.ents, cookie - 3) < 0 ==> r == BadCookie
  {
    hide Honest, PageAt, Shifted;
    var fetched := BackendRead(d, BackendCookie(cookie), max - |dots|);
    forall i: nat | StartsAt(d, cookie, i)
      ensures fetched.Fetched? && PageAt(d, i, max) == Page(dots + Shifted(fetched.page.ents), fetched.page.eof)
    {
      assert BackendCookie(CookieAt(d, i)) == BackendCookie(cookie) by { CookieMeans(d, i); }
      hide Listing, CookieAt, BackendRead, BackendCookie;
      PageParts(d, i, max);
    }
    if !fetched.Fetched? { return fetched; }
    FetchedMembers(d, BackendCookie(cookie), max - |dots|);
    r := ShiftAll(dots, fetched.page);
  }

  lemma FetchedMembers(d: Dir, cookie: nat, max: nat)
    ensures var f := BackendRead(d, cookie, max);
            f.Fetched? && CookiesFit(d) ==> forall k | 0 <= k < |f.page.ents| :: f.page.ents[k].cookie <= MAX_U64 - 3
  {
  }

  method ShiftAll(dots: seq<Ent>, page: Page) returns (r: Fetched)
    ensures (forall k | 0 <= k < |page.ents| :: page.ents[k].cookie <= MAX_U64 - 3) ==>
              r == Fetched(Page(dots + Shifted(page.ents), page.eof))
    ensures (exists k | 0 <= k < |page.ents| :: page.ents[k].cookie > MAX_U64 - 3) ==> r == Overflow
  {
    var out := dots;
    for k := 0 to |page.ents|
      invariant out == dots + Shifted(page.ents[..k])
      invariant forall j | 0 <= j < k :: page.ents[j].cookie <= MAX_U64 - 3
    {
      if page.ents[k].cookie > MAX_U64 - 3 { return Overflow; }
      out := out + [Shift(page.ents[k])];
      assert Shifted(page.ents[..k + 1]) == Shifted(page.ents[..k]) + [Shift(page.ents[k])];
    }
    assert page.ents[..|page.ents|] == page.ents;
    return Fetched(Page(out, page.eof));
  }

  // ---- filling a reply -------------------------------------------------------------

  datatype Proto = V3(plus: bool) | V4

  /** Bytes used, or a limit on them: for names and cookies alone, and in all. */
  datatype Meter = Meter(dir: nat, total: nat)

  /** XDR padding. */
  function Aligned4(n: nat): (r: nat)
    ensures r % 4 == 0 && n <= r < n + 4
  {
    (n + 3) / 4 * 4
  }

  function Cost(proto: Proto, e: Ent): Meter {
    match proto
    case V3(plus) => Meter(24 + Aligned4(|e.name|), 24 + Aligned4(|e.name|) + if plus then e.extra else 0)
    case V4 => Meter(12 + Aligned4(|e.name|), e.size)
  }

  /** NFSv4 lists no dot entries and passes over an entry whose attributes are gone. */
  predicate Hidden(proto: Proto, e: Ent) {
    proto.V4? && (e.name == "." || e.name == ".." || !e.shown)
  }

  predicate Fits(used: Meter, cost: Meter, limit: Meter) {
    used.dir + cost.dir <= limit.dir && used.total + cost.total <= limit.total
  }

  function Plus(a: Meter, b: Meter): Meter {
    Meter(a.dir + b.dir, a.total + b.total)
  }

  /** The entries put into a reply, the bytes used, and whether one did not fit any more. */
  datatype Scan = Scan(out: seq<Ent>, used: Meter, full: bool)

  function Fill(proto: Proto, ents: seq<Ent>, s: Scan, limit: Meter): Scan
    decreases |ents|
  {
    if ents == [] || s.full then s else Fill(proto, ents[1..], Offer(proto, ents[0], s, limit), limit)
  }

  function Offer(proto: Proto, e: Ent, s: Scan, limit: Meter): Scan {
    if Hidden(proto, e) then s
    else if Fits(s.used, Cost(proto, e), limit) then Scan(s.out + [e], Plus(s.used, Cost(proto, e)), false)
    else s.(full := true)
  }

  lemma {:induction false} FillAppend(proto: Proto, a: seq<Ent>, b: seq<Ent>, s: Scan, limit: Meter)
    ensures Fill(proto, a + b, s, limit) == Fill(proto, b, Fill(proto, a, s, limit), limit)
    decreases |a|
  {
    hide Offer;
    if a == [] || s.full {
      assert a == [] ==> a + b == b;
    } else {
      assert (a + b)[1..] == a[1..] + b;
      FillAppend(proto, a[1..], b, Offer(proto, a[0], s, limit), limit);
    }
  }

  lemma FillNext(proto: Proto, ents: seq<Ent>, k: nat, s: Scan, limit: Meter)
    requires k < |ents| && !Fill(proto, ents[..k], s, limit).full
    ensures Fill(proto, ents[..k + 1], s, limit) == Offer(proto, ents[k], Fill(proto, ents[..k], s, limit), limit)
  {
    hide Offer;
    FillAppend(proto, ents[..k], [ents[k]], s, limit);
    assert ents[..k + 1] == ents[..k] + [ents[k]];
    assert [ents[k]][1..] == [];
  }

  /** What a client of the protocol may see of a stretch of the listing. */
  function Visible(proto: Proto, ents: seq<Ent>): seq<Ent> {
    if ents == [] then []
    else
      var n := |ents| - 1;
      Visible(proto, ents[..n]) + if Hidden(proto, ents[n]) then [] else [ents[n]]
  }

  /** How far the scan went: it offered exactly the visible entries of a prefix, and stopped
      only before a visible entry that does not fit. */
  lemma {:induction false} FillMeans(proto: Proto, ents: seq<Ent>, s: Scan, limit: Meter) returns (k: nat)
    requires !s.full
    ensures k <= |ents| && ScannedTo(proto, ents, s, limit, Fill(proto, ents, s, limit), k)
    decreases |ents|
  {
    if ents == [] {
      k := 0;
      assert s.out + [] == s.out;
    } else {
      var n := |ents| - 1;
      k := FillMeans(proto, ents[..n], s, limit);
      assert ents[..n][..k] == ents[..k];
      var r := Fill(proto, ents[..n], s, limit);
      if r.full {
        FillAppend(proto, ents[..n], [ents[n]], s, limit);
        assert ents == ents[..n] + [ents[n]];
      } else {
        k := ScanOneMore(proto, ents, s, limit, r);
      }
    }
  }

  ghost predicate ScannedTo(proto: Proto, ents: seq<Ent>, s: Scan, limit: Meter, r: Scan, k: nat) {
    && k <= |ents| && r.out == s.out + Visible(proto, ents[..k])
    && (if r.full then k < |ents| && !Hidden(proto, ents[k]) && !Fits(r.used, Cost(proto, ents[k]), limit)
        else k == |ents|)
  }

  lemma ScanOneMore(proto: Proto, ents: seq<Ent>, s: Scan, limit: Meter, r: Scan) returns (k: nat)
    requires ents != [] && !s.full && !r.full && r == Fill(proto, ents[..|ents| - 1], s, limit)
    requires r.out == s.out + Visible(proto, ents[..|ents| - 1])
    ensures ScannedTo(proto, ents, s, limit, Fill(proto, ents, s, limit), k)
  {
    hide Fill, Cost, Fits;
    var n := |ents| - 1;
    var e := ents[n];
    FillNext(proto, ents, n, s, limit);
    assert ents[..n + 1] == ents && ents[..|ents|] == ents;
    k := if Hidden(proto, e) || Fits(r.used, Cost(proto, e), limit) then |ents| else n;
    Attach(s.out, Visible(proto, ents[..n]), e);
  }

  lemma Attach(a: seq<Ent>, b: seq<Ent>, e: Ent)
    ensures a + (b + [e]) == (a + b) + [e] && a + (b + []) == a + b
  {
  }

  method FillLoop(proto: Proto, ents: seq<Ent>, s0: Scan, limit: Meter) returns (s: Scan)
    requires !s0.full
    ensures s == Fill(proto, ents, s0, limit)
  {
    s := s0;
    for k := 0 to |ents|
      invariant s == Fill(proto, ents[..k], s0, limit) && !s.full
    {
      FillNext(proto, ents, k, s0, limit);
      s := Offer(proto, ents[k], s, limit);
      if s.full {
        assert ents == ents[..k + 1] + ents[k + 1..];
        FillAppend(proto, ents[..k + 1], ents[k + 1..], s0, limit);
        return;
      }
    }
    assert ents[..|ents|] == ents;
  }

  // ---- what a reply takes ----------------------------------------------------------

  /** Padded names with `fixed` bytes each. */
  function NameBytes(fixed: nat, ents: seq<Ent>): nat {
    if ents == [] then 0
    else
      var n := |ents| - 1;
      NameBytes(fixed, ents[..n]) + fixed + (|ents[n].name| + 3) / 4 * 4
  }

  /** Attributes and filehandles of a READDIRPLUS reply. */
  function ExtraBytes(ents: seq<Ent>): nat {
    if ents == [] then 0 else ExtraBytes(ents[..|ents| - 1]) + ents[|ents| - 1].extra
  }

  /** Entries as NFSv4 encodes them. */
  function EncodedBytes(ents: seq<Ent>): nat {
    if ents == [] then 0 else EncodedBytes(ents[..|ents| - 1]) + ents[|ents| - 1].size
  }

  function Costs(proto: Proto, ents: seq<Ent>): Meter {
    if ents == [] then Meter(0, 0) else Plus(Costs(proto, ents[..|ents| - 1]), Cost(proto, ents[|ents| - 1]))
  }

  lemma {:induction false} CostsMean(proto: Proto, ents: seq<Ent>)
    ensures proto.V4? ==> Costs(proto, ents) == Meter(NameBytes(12, ents), EncodedBytes(ents))
    ensures proto.V3? ==>
              Costs(proto, ents)
              == Meter(NameBytes(24, ents), NameBytes(24, ents) + if proto.plus then ExtraBytes(ents) else 0)
  {
    if ents != [] { CostsMean(proto, ents[..|ents| - 1]); }
  }

  lemma NoCosts(proto: Proto)
    ensures Costs(proto, []) == Meter(0, 0)
  {
  }

  /** One entry more. */
  lemma BytesNext(ents: seq<Ent>, e: Ent)
    ensures NameBytes(12, ents + [e]) == NameBytes(12, ents) + 12 + (|e.name| + 3) / 4 * 4
    ensures NameBytes(24, ents + [e]) == NameBytes(24, ents) + 24 + (|e.name| + 3) / 4 * 4
    ensures ExtraBytes(ents + [e]) == ExtraBytes(ents) + e.extra
    ensures EncodedBytes(ents + [e]) == EncodedBytes(ents) + e.size
  {
    assert (ents + [e])[..|ents|] == ents;
  }

  predicate Below(used: Meter, limit: Meter) {
    used.dir <= limit.dir && used.total <= limit.total
  }

  /** A scan uses what its entries cost, and no more than the limit. */
  lemma {:induction false} FillUsed(proto: Proto, ents: seq<Ent>, s: Scan, limit: Meter, start: Meter)
    requires s.used == Plus(start, Costs(proto, s.out)) && Below(s.used, limit)
    ensures var r := Fill(proto, ents, s, limit); r.used == Plus(start, Costs(proto, r.out)) && Below(r.used, limit)
    decreases |ents|
  {
    hide Cost;
    if ents != [] && !s.full {
      var e := ents[0];
      assert (s.out + [e])[..|s.out|] == s.out;
      FillUsed(proto, ents[1..], Offer(proto, e, s, limit), limit, start);
    }
  }

  datatype Reply = TooSmall | Failed(why: Fetched) | Listed(ents: seq<Ent>, eof: bool)

  // ---- NFSv3 READDIR and READDIRPLUS -----------------------------------------------

  const FIXED_REPLY: nat := 24 + 4 + 88 + 8 + 8

  function MaxEntries(dircount: nat): (n: nat)
    ensures n > 0
  {
    Min(4096, if dircount / 24 > 1 then dircount / 24 else 1)
  }

  /** The reply to a request at a position. */
  ghost function Answer3(d: Dir, i: nat, dircount: nat, maxcount: nat, plus: bool): Reply
    requires Honest(d) && i <= |Listing(d)|
  {
    if maxcount < FIXED_REPLY || dircount < 24 then TooSmall
    else
      var page := PageAt(d, i, MaxEntries(dircount));
      var s := Fill(V3(plus), page.ents, Scan([], Meter(0, FIXED_REPLY), false), Meter(dircount, maxcount));
      Listed(s.out, page.eof && !s.full)
  }

  /** The client's two limits on an NFSv3 reply with these entries: names and cookies within
      dircount, the whole reply with its 132 fixed bytes within maxcount. */
  predicate Keeps3(ents: seq<Ent>, dircount: nat, maxcount: nat, plus: bool) {
    && NameBytes(24, ents) <= dircount
    && 132 + NameBytes(24, ents) + (if plus then ExtraBytes(ents) else 0) <= maxcount
  }

  lemma FillKeeps3(ents: seq<Ent>, dircount: nat, maxcount: nat, plus: bool)
    requires maxcount >= FIXED_REPLY
    ensures var r := Fill(V3(plus), ents, Scan([], Meter(0, FIXED_REPLY), false), Meter(dircount, maxcount));
            && Keeps3(r.out, dircount, maxcount, plus)
            && r.used == Meter(NameBytes(24, r.out), 132 + NameBytes(24, r.out) + if plus then ExtraBytes(r.out) else 0)
  {
    hide Fill, NameBytes, ExtraBytes, Costs, Aligned4;
    var proto, start, limit := V3(plus), Meter(0, FIXED_REPLY), Meter(dircount, maxcount);
    NoCosts(proto);
    var s := Scan([], start, false);
    FillUsed(proto, ents, s, limit, start);
    var r := Fill(proto, ents, s, limit);
    CostsMean(proto, r.out);
  }

  /** An NFSv3 answer keeps the client's limits, and cuts the page only before an entry that would
      break one of them. */
  lemma Answer3Keeps(d: Dir, i: nat, dircount: nat, maxcount: nat, plus: bool)
    requires Honest(d) && i <= |Listing(d)| && maxcount >= 132 && dircount >= 24
    ensures var r := Answer3(d, i, dircount, maxcount, plus);
            var page := PageAt(d, i, Min(4096, if dircount / 24 > 1 then dircount / 24 else 1));
            && r.Listed? && r.ents <= page.ents && Keeps3(r.ents, dircount, maxcount, plus)
            && (|r.ents| < |page.ents| ==> !Keeps3(r.ents + [page.ents[|r.ents|]], dircount, maxcount, plus))
            && (r.eof <==> page.eof && r.ents == page.ents)
  {
    hide Honest, PageAt, Fill, Listing, Cost, Visible, NameBytes, ExtraBytes;
    var page := PageAt(d, i, MaxEntries(dircount));
    var start, limit := Scan([], Meter(0, FIXED_REPLY), false), Meter(dircount, maxcount);
    var s := Fill(V3(plus), page.ents, start, limit);
    FillKeeps3(page.ents, dircount, maxcount, plus);
    var k := FillMeans(V3(plus), page.ents, start, limit);
    VisibleAll(plus, page.ents[..k]);
    assert [] + page.ents[..k] == page.ents[..k];
    if s.full {
      var e := page.ents[k];
      BytesNext(s.out, e);
      Cost3(e, plus);
    }
  }

  lemma Cost3(e: Ent, plus: bool)
    ensures Cost(V3(plus), e).dir == 24 + (|e.name| + 3) / 4 * 4
    ensures Cost(V3(plus), e).total == 24 + (|e.name| + 3) / 4 * 4 + if plus then e.extra else 0
  {
  }

  method ProcReaddir(d: Dir, cookie: nat, dircount: nat, maxcount: nat, plus: bool) returns (r: Reply)
    requires Honest(d)
    ensures CookiesFit(d) ==> forall i: nat | StartsAt(d, cookie, i) :: r == Answer3(d, i, dircount, maxcount, plus)
    ensures r.Listed? ==> Keeps3(r.ents, dircount, maxcount, plus)
  {
    hide Honest, PageAt, Fill, StartsAt;
    if maxcount < FIXED_REPLY || dircount < 24 { return TooSmall; }
    var fetched := ReaddirPage(d, cookie, MaxEntries(dircount));
    if !fetched.Fetched? { return Failed(fetched); }
    var s := FillLoop(V3(plus), fetched.page.ents, Scan([], Meter(0, FIXED_REPLY), false), Meter(dircount, maxcount));
    FillKeeps3(fetched.page.ents, dircount, maxcount, plus);
    return Listed(s.out, fetched.page.eof && !s.full);
  }

  // ---- NFSv4 READDIR ---------------------------------------------------------------

  /** Bytes the reply may use: the client's limit and what the session leaves. */
  function Budget(maxcount: nat, maxResponse: nat, size: nat): nat {
    if maxResponse > size + 256 then Min(maxcount, maxResponse - size - 256) else 0
  }

  function Batch(dircount: nat): (n: nat)
    ensures n >= 16
  {
    Min(4096, if dircount / 24 > 16 then dircount / 24 else 16)
  }

  const START4: Scan := Scan([], Meter(0, 32), false)

  /** The reply to a request at a position: one scan over the rest of the listing, however the
      backend pages it. */
  function Answer4(d: Dir, i: nat, dircount: nat, budget: nat): Reply
    requires i <= |Listing(d)|
  {
    if budget < 128 then TooSmall
    else
      var s := Fill(V4, Listing(d)[i..], START4, Meter(dircount, budget));
      Listed(s.out, !s.full)
  }

  /** A page is a stretch of the listing; it is empty, or claims the end, only at the end. */
  lemma PageIsStretch(d: Dir, i: nat, max: nat)
    requires Honest(d) && i <= |Listing(d)| && max > 0
    ensures var p := PageAt(d, i, max); var j := i + |p.ents|;
            && j <= |Listing(d)| && p.ents == Listing(d)[i..j] && |p.ents| <= max
            && (p.eof ==> j == |Listing(d)|) && (p.ents == [] ==> p.eof) && (i < |Listing(d)| ==> p.ents != [])
  {
    hide Honest;
    var dots := Dots(i, max);
    if dots < max { FairAt(d, i + dots - 2, max - dots); }
  }

  lemma FillStretch(d: Dir, i: nat, pos: nat, j: nat, limit: Meter)
    requires i <= pos <= j <= |Listing(d)|
    ensures Fill(V4, Listing(d)[i..j], START4, limit)
         == Fill(V4, Listing(d)[pos..j], Fill(V4, Listing(d)[i..pos], START4, limit), limit)
  {
    hide Fill, Listing;
    FillAppend(V4, Listing(d)[i..pos], Listing(d)[pos..j], START4, limit);
    assert Listing(d)[i..j] == Listing(d)[i..pos] + Listing(d)[pos..j];
  }

  lemma FillStops(s: Scan, ents: seq<Ent>, limit: Meter)
    ensures s.full || ents == [] ==> Fill(V4, ents, s, limit) == s
  {
  }

  /** The loop over backend pages is one scan over the rest of the listing. */
  method ScanPages(d: Dir, ghost i: nat, first: Page, dircount: nat, budget: nat) returns (s: Scan, eof: bool)
    requires Honest(d) && i <= |Listing(d)| && first == PageAt(d, i, Batch(dircount))
    ensures CookiesFit(d) ==> s == Fill(V4, Listing(d)[i..], START4, Meter(dircount, budget)) && eof == !s.full
  {
    hide Honest, PageAt, Fill, Listing;
    var limit := Meter(dircount, budget);
    ghost var pos, end := i, |Listing(d)|;
    assert Listing(d)[i..i] == [] && Listing(d)[i..end] == Listing(d)[i..];
    FillStops(START4, [], limit);
    var page, more := first, true;
    s, eof := START4, false;
    while more
      invariant i <= pos <= end && (more ==> page == PageAt(d, pos, Batch(dircount)) && !s.full && !eof)
      invariant more ==> s == Fill(V4, Listing(d)[i..pos], START4, limit)
      invariant !more && CookiesFit(d) ==> s == Fill(V4, Listing(d)[i..end], START4, limit) && eof == !s.full
      decreases end - pos, more
    {
      PageIsStretch(d, pos, Batch(dircount));
      if page.ents == [] {
        eof, more := page.eof, false;
        assert pos == end;
      } else {
        ghost var j := pos + |page.ents|;
        FillStretch(d, i, pos, j, limit);
        FillStretch(d, i, j, end, limit);
        s := FillLoop(V4, page.ents, s, limit);
        FillStops(s, Listing(d)[j..end], limit);
        if s.full {
          more := false;
        } else if page.eof {
          eof, more := true, false;
        } else {
          more, page := NextPage(d, j, page, dircount);
          pos := j;
        }
      }
    }
  }

  /** The page behind this one, asked for by the cookie of its last entry. */
  method NextPage(d: Dir, ghost j: nat, page: Page, dircount: nat) returns (ok: bool, next: Page)
    requires Honest(d) && 0 < |page.ents| <= j <= |Listing(d)| && page.ents == Listing(d)[j - |page.ents|..j]
    ensures ok ==> next == PageAt(d, j, Batch(dircount))
    ensures !ok ==> !CookiesFit(d)
  {
    hide Honest, PageAt;
    var cookie := page.ents[|page.ents| - 1].cookie;
    assert StartsAt(d, cookie, j);
    var fetched := ReaddirPage(d, cookie, Batch(dircount));
    assert ServesPage(d, j, Batch(dircount), fetched);
    if fetched.Fetched? { return true, fetched.page; }
    return false, page;
  }

  lemma OnePosition(d: Dir, cookie: nat, i: nat, j: nat)
    requires Honest(d) && StartsAt(d, cookie, i) && StartsAt(d, cookie, j)
    ensures i == j
  {
    CookieMeans(d, i);
    CookieMeans(d, j);
  }

  lemma SomePosition(d: Dir, cookie: nat) returns (i: nat)
    requires Honest(d) && (cookie == 0 || cookie == 3 || (cookie > 3 && After(d.ents, cookie - 3) >= 0))
    ensures StartsAt(d, cookie, i)
  {
    i := if cookie == 0 then 0 else if cookie == 3 then 2 else After(d.ents, cookie - 3) + 2;
  }

  method OpReaddir(d: Dir, cookie: nat, dircount: nat, maxcount: nat, maxResponse: nat, size: nat) returns (r: Reply)
    requires Honest(d)
    ensures cookie == 1 || cookie == 2 ==> r == Failed(BadCookie)
    ensures CookiesFit(d) && cookie != 1 && cookie != 2 ==>
              forall i: nat | StartsAt(d, cookie, i) :: r == Answer4(d, i, dircount, Budget(maxcount, maxResponse, size))
  {
    hide Honest, PageAt, Fill, StartsAt, After, Listing;
    if cookie == 1 || cookie == 2 { return Failed(BadCookie); }
    var budget := Budget(maxcount, maxResponse, size);
    if budget < 128 { return TooSmall; }
    var first := ReaddirPage(d, cookie, Batch(dircount));
    if !first.Fetched? { return Failed(first); }
    ghost var i := SomePosition(d, cookie);
    assert ServesPage(d, i, Batch(dircount), first);
    assert i <= |Listing(d)|;
    var s, eof := ScanPages(d, i, first.page, dircount, budget);
    forall j: nat | StartsAt(d, cookie, j)
      ensures j == i
    {
      OnePosition(d, cookie, i, j);
    }
    return Listed(s.out, eof && !s.full);
  }

  /** The limits of an NFSv4 reply: names and cookies within dircount, the whole within the
      budget. */
  predicate Keeps4(ents: seq<Ent>, dircount: nat, budget: nat) {
    NameBytes(12, ents) <= dircount && 32 + EncodedBytes(ents) <= budget
  }

  /** An NFSv4 answer lists visible entries in order, keeps its limits, and stops only before a
      visible entry that would break one of them. */
  lemma Answer4Keeps(d: Dir, i: nat, dircount: nat, budget: nat)
    requires i <= |Listing(d)| && budget >= 128
    ensures var r, rest := Answer4(d, i, dircount, budget), Visible(V4, Listing(d)[i..]);
            && r.Listed? && r.ents <= rest && Keeps4(r.ents, dircount, budget)
            && (r.eof <==> r.ents == rest)
            && (|r.ents| < |rest| ==> !Keeps4(r.ents + [rest[|r.ents|]], dircount, budget))
  {
    hide Fill, Listing, Cost, Visible, Hidden, NameBytes, EncodedBytes, Costs;
    NoCosts(V4);
    var rest, limit := Listing(d)[i..], Meter(dircount, budget);
    var s := Fill(V4, rest, START4, limit);
    FillUsed(V4, rest, START4, limit, START4.used);
    CostsMean(V4, s.out);
    var k := FillMeans(V4, rest, START4, limit);
    assert [] + Visible(V4, rest[..k]) == Visible(V4, rest[..k]);
    VisibleAppend(V4, rest[..k], rest[k..]);
    assert rest == rest[..k] + rest[k..];
    if s.full {
      var e := rest[k];
      VisibleFirst(V4, rest[k..]);
      BytesNext(s.out, e);
      Cost4(e);
    } else {
      assert rest[k..] == [];
      NothingVisible(V4);
    }
  }

  lemma VisibleFirst(proto: Proto, ents: seq<Ent>)
    requires ents != [] && !Hidden(proto, ents[0])
    ensures Visible(proto, ents) != [] && Visible(proto, ents)[0] == ents[0]
  {
    var e, rest := ents[0], ents[1..];
    VisibleOne(proto, e);
    hide Hidden, Visible;
    VisibleAppend(proto, [e], rest);
    assert ents == [e] + rest;
  }

  lemma VisibleOne(proto: Proto, e: Ent)
    ensures Visible(proto, [e]) == if Hidden(proto, e) then [] else [e]
  {
    hide Hidden;
    assert [e][..0] == [];
  }

  lemma Cost4(e: Ent)
    ensures Cost(V4, e) == Meter(12 + (|e.name| + 3) / 4 * 4, e.size)
  {
  }

  // ---- following the cookies -------------------------------------------------------

  datatype Ask = Ask3(dircount: nat, maxcount: nat, plus: bool) | Ask4(dircount: nat, budget: nat)

  function ProtoOf(ask: Ask): Proto {
    match ask
    case Ask3(_, _, plus) => V3(plus)
    case Ask4(_, _) => V4
  }

  ghost function Answer(d: Dir, ask: Ask, i: nat): Reply
    requires Honest(d) && i <= |Listing(d)|
  {
    match ask
    case Ask3(dircount, maxcount, plus) => Answer3(d, i, dircount, maxcount, plus)
    case Ask4(dircount, budget) => Answer4(d, i, dircount, budget)
  }

  function Limit(ask: Ask): Meter {
    match ask
    case Ask3(dircount, maxcount, _) => Meter(dircount, maxcount)
    case Ask4(dircount, budget) => Meter(dircount, budget)
  }

  function Overhead(ask: Ask): Meter {
    Meter(0, if ask.Ask3? then FIXED_REPLY else 32)
  }

  /** The limits are refused as such. */
  predicate Refused(ask: Ask) {
    match ask
    case Ask3(dircount, maxcount, _) => maxcount < FIXED_REPLY || dircount < 24
    case Ask4(_, budget) => budget < 128
  }

  /** Nothing visible is left at the position, or the next visible entry fits. */
  predicate NextFits(d: Dir, ask: Ask, i: nat)
    requires i <= |Listing(d)|
  {
    var rest := Visible(ProtoOf(ask), Listing(d)[i..]);
    rest == [] || Fits(Overhead(ask), Cost(ProtoOf(ask), rest[0]), Limit(ask))
  }

  /** The byte limits admit the next entry. */
  predicate Admits(d: Dir, ask: Ask, i: nat)
    requires i <= |Listing(d)|
  {
    !Refused(ask) && NextFits(d, ask, i)
  }

  /** The reply covers the listing from i to j; unless it ends the listing it has an entry. */
  ghost predicate Covers(d: Dir, proto: Proto, i: nat, j: nat, r: Reply) {
    && r.Listed? && i <= j <= |Listing(d)| && r.ents == Visible(proto, Listing(d)[i..j])
    && (if r.eof then j == |Listing(d)| else r.ents != [])
  }

  lemma {:induction false} VisibleAll(plus: bool, ents: seq<Ent>)
    ensures Visible(V3(plus), ents) == ents
  {
    if ents != [] {
      VisibleAll(plus, ents[..|ents| - 1]);
      assert ents == ents[..|ents| - 1] + [ents[|ents| - 1]];
    }
  }

  /** A scan comes away with nothing, although something is left, exactly when the first visible
      entry does not fit. */
  lemma {:induction false} StuckIff(proto: Proto, ents: seq<Ent>, used: Meter, limit: Meter)
    ensures var r, v := Fill(proto, ents, Scan([], used, false), limit), Visible(proto, ents);
            (r.out == [] && r.full) <==> v != [] && !Fits(used, Cost(proto, v[0]), limit)
    decreases |ents|
  {
    if ents != [] {
      hide Cost, Fits, Hidden;
      var e, rest := ents[0], ents[1..];
      var s := Scan([], used, false);
      VisibleAppend(proto, [e], rest);
      assert ents == [e] + rest && [e][..0] == [];
      assert Visible(proto, [e]) == Visible(proto, []) + if Hidden(proto, e) then [] else [e];
      if Hidden(proto, e) {
        assert Visible(proto, [e]) == [] && [] + Visible(proto, rest) == Visible(proto, rest);
        StuckIff(proto, rest, used, limit);
      } else {
        assert Visible(proto, [e]) == [e];
        OnlyGrows(proto, rest, Offer(proto, e, s, limit), limit);
      }
    }
  }

  lemma {:induction false} OnlyGrows(proto: Proto, ents: seq<Ent>, s: Scan, limit: Meter)
    ensures |Fill(proto, ents, s, limit).out| >= |s.out|
    ensures s.full ==> Fill(proto, ents, s, limit) == s
    decreases |ents|
  {
    if ents != [] && !s.full { OnlyGrows(proto, ents[1..], Offer(proto, ents[0], s, limit), limit); }
  }

  const NOTHING: Reply := Listed([], false)

  lemma Answer4Covers(d: Dir, i: nat, ask: Ask) returns (j: nat)
    requires i <= |Listing(d)| && ask.Ask4? && !Refused(ask)
    ensures var r := Answer4(d, i, ask.dircount, ask.budget);
            if NextFits(d, ask, i) then Covers(d, V4, i, j, r) else r == NOTHING
  {
    hide Fill, Listing, Cost, Fits, Visible;
    var rest, limit := Listing(d)[i..], Meter(ask.dircount, ask.budget);
    StuckIff(V4, rest, Meter(0, 32), limit);
    var k := FillMeans(V4, rest, START4, limit);
    j := i + k;
    assert rest[..k] == Listing(d)[i..j];
    assert [] + Visible(V4, rest[..k]) == Visible(V4, rest[..k]);
  }

  lemma Answer3Covers(d: Dir, i: nat, ask: Ask) returns (j: nat)
    requires Honest(d) && i <= |Listing(d)| && ask.Ask3? && !Refused(ask)
    ensures var r := Answer3(d, i, ask.dircount, ask.maxcount, ask.plus);
            if NextFits(d, ask, i) then Covers(d, V3(ask.plus), i, j, r) else r == NOTHING
  {
    hide Honest, Fill, Listing, Cost, Fits, PageAt, Visible;
    var proto, limit := V3(ask.plus), Meter(ask.dircount, ask.maxcount);
    var start := Scan([], Meter(0, FIXED_REPLY), false);
    var page := PageAt(d, i, MaxEntries(ask.dircount));
    PageIsStretch(d, i, MaxEntries(ask.dircount));
    StuckIff(proto, page.ents, Meter(0, FIXED_REPLY), limit);
    VisibleAll(ask.plus, page.ents);
    VisibleAll(ask.plus, Listing(d)[i..]);
    var k := FillMeans(proto, page.ents, start, limit);
    j := i + k;
    assert page.ents[..k] == Listing(d)[i..j];
    assert [] + Visible(proto, page.ents[..k]) == Visible(proto, page.ents[..k]);
    VisibleAll(ask.plus, page.ents[..k]);
  }

  /** What every request is answered with.  Limits that are too small as such are refused.  If the
      next visible entry does not fit, the answer is OK with no entry and without eof, so the
      client cannot go on.  Otherwise it is a stretch of the listing, and only the end goes
      without an entry. */
  lemma AnswerCovers(d: Dir, i: nat, ask: Ask) returns (j: nat)
    requires Honest(d) && i <= |Listing(d)|
    ensures Refused(ask) <==> Answer(d, ask, i) == TooSmall
    ensures !Refused(ask) && !NextFits(d, ask, i) <==> Answer(d, ask, i) == NOTHING
    ensures Admits(d, ask, i) ==> Covers(d, ProtoOf(ask), i, j, Answer(d, ask, i))
  {
    hide Honest, NextFits, Listing;
    j := 0;
    if !Refused(ask) {
      hide Answer3, Answer4;
      if ask.Ask3? { j := Answer3Covers(d, i, ask); } else { j := Answer4Covers(d, i, ask); }
    }
  }

  lemma {:induction false} VisibleAppend(proto: Proto, a: seq<Ent>, b: seq<Ent>)
    ensures Visible(proto, a + b) == Visible(proto, a) + Visible(proto, b)
    decreases |b|
  {
    if b == [] {
      assert a + b == a;
    } else {
      var n := |b| - 1;
      assert (a + b)[..|a + b| - 1] == a + b[..n] && (a + b)[|a + b| - 1] == b[n];
      VisibleAppend(proto, a, b[..n]);
    }
  }

  /** The last visible entry of a stretch, and nothing visible behind it. */
  lemma {:induction false} LastVisible(proto: Proto, ents: seq<Ent>) returns (p: nat)
    requires Visible(proto, ents) != []
    ensures 0 < p <= |ents| && Visible(proto, ents[..p]) == Visible(proto, ents)
    ensures var v := Visible(proto, ents); v[|v| - 1] == ents[p - 1]
    decreases |ents|
  {
    var n := |ents| - 1;
    if Hidden(proto, ents[n]) {
      p := LastVisible(proto, ents[..n]);
      assert ents[..n][..p] == ents[..p];
    } else {
      p := |ents|;
      assert ents[..p] == ents;
    }
  }

  /** A client's session: it starts at cookie 0, and while the server has not said eof it asks
      again with the cookie of the last entry it got.  `at` are the positions meant. */
  ghost predicate Session(d: Dir, proto: Proto, asks: seq<Ask>, at: seq<nat>) {
    && Honest(d) && |at| == |asks| && (asks != [] ==> at[0] == 0)
    && (forall k | 0 <= k < |asks| :: at[k] <= |Listing(d)| && ProtoOf(asks[k]) == proto && Admits(d, asks[k], at[k]))
    && (forall k | 0 < k < |asks| :: Continues(d, Answer(d, asks[k - 1], at[k - 1]), at[k]))
  }

  predicate Continues(d: Dir, r: Reply, next: nat) {
    && r.Listed? && !r.eof && r.ents != [] && next <= |Listing(d)|
    && CookieAt(d, next) == r.ents[|r.ents| - 1].cookie
  }

  /** All entries the client has received. */
  ghost function Received(d: Dir, asks: seq<Ask>, at: seq<nat>): seq<Ent>
    requires Honest(d) && |at| == |asks| && forall k | 0 <= k < |at| :: at[k] <= |Listing(d)|
  {
    if asks == [] then []
    else
      var n := |asks| - 1;
      var r := Answer(d, asks[n], at[n]);
      Received(d, asks[..n], at[..n]) + if r.Listed? then r.ents else []
  }

  /** Continuing after a reply leads behind its last entry. */
  lemma NextIsBehind(d: Dir, proto: Proto, i: nat, j: nat, r: Reply, next: nat)
    requires Honest(d) && Covers(d, proto, i, j, r) && Continues(d, r, next)
    ensures i < next <= j && Visible(proto, Listing(d)[i..next]) == r.ents
  {
    hide Honest, Visible, CookieAt, Listing;
    var stretch := Listing(d)[i..j];
    var p := LastVisible(proto, stretch);
    assert stretch[..p] == Listing(d)[i..i + p] && stretch[p - 1] == Listing(d)[i + p - 1];
    SameCookie(d, next, i + p);
  }

  lemma SameCookie(d: Dir, i: nat, j: nat)
    requires Honest(d) && i <= |Listing(d)| && 0 < j <= |Listing(d)| && CookieAt(d, i) == Listing(d)[j - 1].cookie
    ensures i == j
  {
    CookieMeans(d, i);
    CookieMeans(d, j);
  }

  /** After any number of requests the client has exactly the visible entries before its
      position, in order and once each; the positions only move forward. */
  lemma {:induction false} SessionProgress(d: Dir, proto: Proto, asks: seq<Ask>, at: seq<nat>)
    requires Session(d, proto, asks, at) && asks != []
    ensures var n := |asks| - 1; Received(d, asks[..n], at[..n]) == Visible(proto, Listing(d)[..at[n]]) && at[n] >= n
    decreases |asks|
  {
    hide Honest, Answer, Admits, Visible, Listing, Continues;
    var n := |asks| - 1;
    if n == 0 {
      assert Listing(d)[..0] == [] && asks[..0] == [] && at[..0] == [];
      NothingVisible(proto);
    } else {
      var m := n - 1;
      SessionPrefix(d, proto, asks, at, n);
      SessionProgress(d, proto, asks[..n], at[..n]);
      assert asks[..n][..m] == asks[..m] && at[..n][..m] == at[..m];
      var r := Answer(d, asks[m], at[m]);
      var j := AnswerCovers(d, at[m], asks[m]);
      NextIsBehind(d, proto, at[m], j, r, at[n]);
      VisibleAppend(proto, Listing(d)[..at[m]], Listing(d)[at[m]..at[n]]);
      assert Listing(d)[..at[n]] == Listing(d)[..at[m]] + Listing(d)[at[m]..at[n]];
    }
  }

  lemma NothingVisible(proto: Proto)
    ensures Visible(proto, []) == []
  {
  }

  lemma SessionPrefix(d: Dir, proto: Proto, asks: seq<Ask>, at: seq<nat>, n: nat)
    requires Session(d, proto, asks, at) && 0 < n <= |asks|
    ensures Session(d, proto, asks[..n], at[..n])
  {
    hide Honest, Answer, Admits, Listing, Continues;
    forall k | 0 < k < n
      ensures Continues(d, Answer(d, asks[..n][k - 1], at[..n][k - 1]), at[..n][k])
    {
      assert asks[..n][k - 1] == asks[k - 1] && at[..n][k - 1] == at[k - 1];
    }
  }

  /** READDIR enumerates a directory: whatever the page sizes, as long as the next entry fits, the
      session that ends with eof has received every visible entry exactly once and in order,
      eof is said only then, and it comes after at most one request per entry and one more. */
  lemma SessionEnumerates(d: Dir, proto: Proto, asks: seq<Ask>, at: seq<nat>)
    requires Session(d, proto, asks, at) && asks != []
    ensures |asks| <= |Listing(d)| + 1
    ensures var r := Answer(d, asks[|asks| - 1], at[|asks| - 1]);
            && r.Listed? && Received(d, asks, at) <= Visible(proto, Listing(d))
            && (if r.eof then Received(d, asks, at) == Visible(proto, Listing(d)) else r.ents != [])
  {
    hide Honest, Answer, Admits, Visible, Listing, Continues;
    var n := |asks| - 1;
    SessionProgress(d, proto, asks, at);
    var j := AnswerCovers(d, at[n], asks[n]);
    var all := Listing(d);
    NothingVisible(proto);
    VisibleAppend(proto, all[..at[n]], all[at[n]..j]);
    VisibleAppend(proto, all[..j], all[j..]);
    assert all[..j] == all[..at[n]] + all[at[n]..j] && all == all[..j] + all[j..];
  }

  /** For NFSv3 that is ".", ".." and every backend entry. */
  lemma V3ListsEverything(d: Dir, plus: bool)
    ensures Visible(V3(plus), Listing(d)) == Listing(d)
    ensures |Listing(d)| == 2 + |d.ents| && Listing(d)[0].name == "." && Listing(d)[1].name == ".."
    ensures forall i | 0 <= i < |d.ents| :: Listing(d)[2 + i] == Shift(d.ents[i])
  {
    VisibleAll(plus, Listing(d));
  }

  /** For NFSv4 it is exactly the backend entries that are shown and not named "." or "..", in
      order: `at` are their positions. */
  lemma {:induction false} V4ListsShown(ents: seq<Ent>) returns (at: seq<nat>)
    ensures var v := Visible(V4, Shifted(ents));
            && |at| == |v| && (forall i, j | 0 <= i < j < |at| :: at[i] < at[j])
            && (forall j | 0 <= j < |at| :: at[j] < |ents| && v[j] == Shift(ents[at[j]]))
            && forall i: nat | i < |ents| :: i in at <==> ents[i].shown && ents[i].name != "." && ents[i].name != ".."
    decreases |ents|
  {
    if ents == [] {
      at := [];
    } else {
      hide Hidden;
      var n := |ents| - 1;
      at := V4ListsShown(ents[..n]);
      assert Shifted(ents)[..n] == Shifted(ents[..n]);
      HiddenMeans(ents[n]);
      assert forall i: nat | i < n :: ents[..n][i] == ents[i];
      assert n !in at;
      if !Hidden(V4, Shift(ents[n])) { at := at + [n]; }
    }
  }

  lemma HiddenMeans(e: Ent)
    ensures Hidden(V4, Shift(e)) <==> e.name == "." || e.name == ".." || !e.shown
  {
  }

  lemma V4ListsDirectory(d: Dir)
    ensures Visible(V4, Listing(d)) == Visible(V4, Shifted(d.ents))
  {
    var dots := [Dot(d), DotDot(d)];
    VisibleAppend(V4, dots, Shifted(d.ents));
    assert dots[..1] == [Dot(d)] && [Dot(d)][..0] == [];
    assert Visible(V4, [Dot(d)]) == [];
    assert Visible(V4, dots) == [];
  }
}
