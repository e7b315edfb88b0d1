/** Spacing and comments of a catalog text do not matter: parse_catalog and
    peek_catalog_version depend on a line only through its section header, or its key and the
    text of its value (src/core/catalog.cpp, src/core/config.cpp). */
module CatalogLines {
  import opened Config
  import opened Ordering
  import opened Catalogs
  import opened ConfigText
  import opened CatalogText

  // ---- the same text in two places -------------------------------------------------

  /** The views show the same characters. */
  predicate Same(t: string, v: View, u: string, w: View) {
    In(v, t) && In(w, u) && Text(t, v) == Text(u, w)
  }

  /** A part of the views that lies at the same distance. */
  lemma SamePart(t: string, v: View, u: string, w: View, lo: nat, hi: nat)
    requires Same(t, v, u, w) && lo <= hi <= v.hi - v.lo
    ensures v.hi - v.lo == w.hi - w.lo && Same(t, View(v.lo + lo, v.lo + hi), u, View(w.lo + lo, w.lo + hi))
  {
    assert |Text(t, v)| == |Text(u, w)|;
    PartText(t, v, lo, hi);
    PartText(u, w, lo, hi);
  }

  lemma PartText(t: string, v: View, lo: nat, hi: nat)
    requires In(v, t) && lo <= hi <= v.hi - v.lo
    ensures Text(t, View(v.lo + lo, v.lo + hi)) == Text(t, v)[lo..hi]
  {
  }

  lemma SameAt(t: string, v: View, u: string, w: View, k: nat)
    requires Same(t, v, u, w) && k < v.hi - v.lo
    ensures v.hi - v.lo == w.hi - w.lo && t[v.lo + k] == u[w.lo + k]
  {
    assert |Text(t, v)| == |Text(u, w)|;
    assert Text(t, v)[k] == Text(u, w)[k];
  }

  lemma {:induction false} FrontSame(t: string, v: View, u: string, w: View)
    requires Same(t, v, u, w)
    ensures Front(t, v) - v.lo == Front(u, w) - w.lo
    decreases v.hi - v.lo
  {
    if v.lo < v.hi {
      SameAt(t, v, u, w, 0);
      SamePart(t, v, u, w, 1, v.hi - v.lo);
      FrontSame(t, View(v.lo + 1, v.hi), u, View(w.lo + 1, w.hi));
    }
  }

  lemma {:induction false} BackSame(t: string, v: View, u: string, w: View)
    requires Same(t, v, u, w)
    ensures Back(t, v) - v.lo == Back(u, w) - w.lo
    decreases v.hi - v.lo
  {
    if v.lo < v.hi {
      SameAt(t, v, u, w, v.hi - v.lo - 1);
      SamePart(t, v, u, w, 0, v.hi - v.lo - 1);
      BackSame(t, View(v.lo, v.hi - 1), u, View(w.lo, w.hi - 1));
    }
  }

  lemma TrimSame(t: string, v: View, u: string, w: View)
    requires Same(t, v, u, w)
    ensures Same(t, Trim(t, v), u, Trim(u, w)) && Trim(t, v).lo - v.lo == Trim(u, w).lo - w.lo
  {
    hide Same, Front, Back;
    SameViews(t, v, u, w);
    FrontSame(t, v, u, w);
    var a, b := Front(t, v), Front(u, w);
    SamePart(t, v, u, w, a - v.lo, v.hi - v.lo);
    BackSame(t, View(a, v.hi), u, View(b, w.hi));
    SamePart(t, v, u, w, a - v.lo, Back(t, View(a, v.hi)) - v.lo);
  }

  lemma SameViews(t: string, v: View, u: string, w: View)
    requires Same(t, v, u, w)
    ensures In(v, t) && In(w, u) && v.hi - v.lo == w.hi - w.lo
  {
    assert |Text(t, v)| == |Text(u, w)|;
  }

  // ---- values depend on their text only --------------------------------------------

  lemma {:induction false} UnescapeSame(t: string, v: View, u: string, w: View, out: string)
    requires Same(t, v, u, w)
    ensures Unescape(t, v.lo, v.hi, out) == Unescape(u, w.lo, w.hi, out)
    decreases v.hi - v.lo
  {
    if v.lo < v.hi {
      SameAt(t, v, u, w, 0);
      if t[v.lo] == '\\' && v.lo + 1 < v.hi {
        SameAt(t, v, u, w, 1);
        SamePart(t, v, u, w, 2, v.hi - v.lo);
        UnescapeSame(t, View(v.lo + 2, v.hi), u, View(w.lo + 2, w.hi), out + [Meant(t[v.lo + 1])]);
      } else {
        SamePart(t, v, u, w, 1, v.hi - v.lo);
        UnescapeSame(t, View(v.lo + 1, v.hi), u, View(w.lo + 1, w.hi), out + [t[v.lo]]);
      }
    }
  }

  lemma StringSame(t: string, v: View, u: string, w: View)
    requires Same(t, v, u, w)
    ensures StringValue(t, v) == StringValue(u, w)
  {
    hide Trim, Unescape;
    TrimSame(t, v, u, w);
    var a, b := Trim(t, v), Trim(u, w);
    if a.hi - a.lo >= 2 {
      SameAt(t, a, u, b, 0);
      SameAt(t, a, u, b, a.hi - a.lo - 1);
      SamePart(t, a, u, b, 1, a.hi - a.lo - 1);
      UnescapeSame(t, View(a.lo + 1, a.hi - 1), u, View(b.lo + 1, b.hi - 1), "");
    }
  }

  lemma UintSame(t: string, v: View, u: string, w: View)
    requires Same(t, v, u, w)
    ensures UintValue(t, v) == UintValue(u, w)
  {
    hide Trim, ParseUint;
    TrimSame(t, v, u, w);
  }

  lemma BoolSame(t: string, v: View, u: string, w: View)
    requires Same(t, v, u, w)
    ensures BoolValue(t, v) == BoolValue(u, w)
  {
    hide Trim;
    TrimSame(t, v, u, w);
  }

  lemma SizeSame(t: string, v: View, u: string, w: View)
    requires Same(t, v, u, w)
    ensures SizeValue(t, v) == SizeValue(u, w)
  {
    hide Trim, StringValue, UintValue, ParseUint, CountDigits, Multiplier;
    TrimSame(t, v, u, w);
    var a, b := Trim(t, v), Trim(u, w);
    StringSame(t, a, u, b);
    UintSame(t, a, u, b);
    if a.lo < a.hi { SameAt(t, a, u, b, 0); }
  }

  lemma BackendSame(t: string, v: View, u: string, w: View)
    requires Same(t, v, u, w)
    ensures BackendValue(t, v) == BackendValue(u, w)
  {
    hide StringValue, UintValue, Digits;
    StringSame(t, v, u, w);
    UintSame(t, v, u, w);
    if v.lo < v.hi { SameAt(t, v, u, w, 0); }
  }

  lemma {:induction false} FindEndSame(t: string, v: View, u: string, w: View, i: nat)
    requires Same(t, v, u, w) && 1 <= i <= v.hi - v.lo
    ensures FindEnd(t, v.lo + i, v.hi) - v.lo == FindEnd(u, w.lo + i, w.hi) - w.lo
    decreases v.hi - v.lo - i
  {
    if i < v.hi - v.lo {
      SameAt(t, v, u, w, i);
      SameAt(t, v, u, w, i - 1);
      FindEndSame(t, v, u, w, i + 1);
    }
  }

  ghost predicate SameRound(t: string, r: Round, u: string, s: Round) {
    || (r.Bad? && s.Bad?) || (r.Final? && r == s)
    || (r.More? && s.More? && r.item == s.item && Same(t, r.rest, u, s.rest))
  }

  lemma AfterItemSame(t: string, item: Result<string>, v: View, u: string, w: View)
    requires Same(t, v, u, w)
    ensures SameRound(t, AfterItem(t, item, v), u, AfterItem(u, item, w))
  {
    hide Trim;
    TrimSame(t, v, u, w);
    var a, b := Trim(t, v), Trim(u, w);
    if a.lo < a.hi {
      SameAt(t, a, u, b, 0);
      SamePart(t, a, u, b, 1, a.hi - a.lo);
      TrimSame(t, View(a.lo + 1, a.hi), u, View(b.lo + 1, b.hi));
    }
  }

  lemma ReadItemSame(t: string, v: View, u: string, w: View)
    requires Same(t, v, u, w) && v.lo < v.hi
    ensures SameRound(t, ReadItem(t, v), u, ReadItem(u, w))
  {
    hide StringValue, AfterItem, FindEnd;
    FindEndSame(t, v, u, w, 1);
    SameAt(t, v, u, w, 0);
    var end, fin := FindEnd(t, v.lo + 1, v.hi), FindEnd(u, w.lo + 1, w.hi);
    if end < v.hi {
      SamePart(t, v, u, w, 0, end + 1 - v.lo);
      StringSame(t, View(v.lo, end + 1), u, View(w.lo, fin + 1));
      SamePart(t, v, u, w, end + 1 - v.lo, v.hi - v.lo);
      AfterItemSame(t, StringValue(t, View(v.lo, end + 1)), View(end + 1, v.hi), u, View(fin + 1, w.hi));
    }
  }

  lemma {:induction false} ItemsSame(t: string, v: View, u: string, w: View, out: seq<string>)
    requires Same(t, v, u, w)
    ensures Items(t, v, out) == Items(u, w, out)
    decreases v.hi - v.lo
  {
    hide ReadItem;
    if v.lo < v.hi {
      ReadItemSame(t, v, u, w);
      var r, s := ReadItem(t, v), ReadItem(u, w);
      if r.More? { ItemsSame(t, r.rest, u, s.rest, out + [r.item]); }
    }
  }

  lemma ArraySame(t: string, v: View, u: string, w: View)
    requires Same(t, v, u, w)
    ensures StringArray(t, v) == StringArray(u, w)
  {
    hide Trim, Items;
    TrimSame(t, v, u, w);
    var a, b := Trim(t, v), Trim(u, w);
    if a.hi - a.lo >= 2 {
      SameAt(t, a, u, b, 0);
      SameAt(t, a, u, b, a.hi - a.lo - 1);
      SamePart(t, a, u, b, 1, a.hi - a.lo - 1);
      TrimSame(t, View(a.lo + 1, a.hi - 1), u, View(b.lo + 1, b.hi - 1));
      ItemsSame(t, Trim(t, View(a.lo + 1, a.hi - 1)), u, Trim(u, View(b.lo + 1, b.hi - 1)), []);
    }
  }

  lemma FieldSame(e: CatalogExport, k: Key, t: string, v: View, u: string, w: View)
    requires Same(t, v, u, w)
    ensures SetField(e, k, t, v) == SetField(e, k, u, w)
  {
    hide StringValue, UintValue, SizeValue, BoolValue, StringArray, SetString, SetNumber, SetBool, SetArray;
    StringSame(t, v, u, w);
    UintSame(t, v, u, w);
    SizeSame(t, v, u, w);
    BoolSame(t, v, u, w);
    ArraySame(t, v, u, w);
  }

  lemma MetaSame(p: Parser, key: string, t: string, v: View, u: string, w: View)
    requires Same(t, v, u, w)
    ensures SetMeta(p, key, t, v) == SetMeta(p, key, u, w)
  {
    hide StringValue, UintValue;
    StringSame(t, v, u, w);
    UintSame(t, v, u, w);
  }

  lemma {:induction false} FindEqSame(t: string, v: View, u: string, w: View)
    requires Same(t, v, u, w)
    ensures FindEq(t, v.lo, v.hi) - v.lo == FindEq(u, w.lo, w.hi) - w.lo
    decreases v.hi - v.lo
  {
    if v.lo < v.hi {
      SameAt(t, v, u, w, 0);
      SamePart(t, v, u, w, 1, v.hi - v.lo);
      FindEqSame(t, View(v.lo + 1, v.hi), u, View(w.lo + 1, w.hi));
    }
  }

  ghost predicate SameEntry(t: string, a: Entry, u: string, b: Entry) {
    || (a.NoEntry? && b.NoEntry?)
    || (a.Entry? && b.Entry? && a.key == b.key && Same(t, a.value, u, b.value))
  }

  lemma SplitSame(t: string, v: View, u: string, w: View)
    requires Same(t, v, u, w)
    ensures SameEntry(t, SplitEntry(t, v), u, SplitEntry(u, w))
  {
    hide Trim, FindEq;
    FindEqSame(t, v, u, w);
    var a, b := FindEq(t, v.lo, v.hi), FindEq(u, w.lo, w.hi);
    if a < v.hi {
      SamePart(t, v, u, w, 0, a - v.lo);
      SamePart(t, v, u, w, a + 1 - v.lo, v.hi - v.lo);
      TrimSame(t, View(v.lo, a), u, View(w.lo, b));
      TrimSame(t, View(a + 1, v.hi), u, View(b + 1, w.hi));
    }
  }

  // ---- what a line means -----------------------------------------------------------

  /** All that a reader takes from a line. */
  datatype Meaning = Blank | Bracket(text: string) | Assigns(key: string, value: string) | Garbage

  function MeaningOf(raw: string): Meaning {
    var v := Clean(raw);
    if v.lo == v.hi then Blank
    else if raw[v.lo] == '[' then Bracket(Text(raw, v))
    else
      match SplitEntry(raw, v)
      case NoEntry => Garbage
      case Entry(key, value) => Assigns(key, Text(raw, value))
  }

  /** Both lines, cleaned: the same section text, the same entry, or no entry at all. */
  ghost predicate Alike(t: string, v: View, u: string, w: View)
    requires In(v, t) && In(w, u)
  {
    && v.lo < v.hi && w.lo < w.hi && (t[v.lo] == '[' <==> u[w.lo] == '[')
    && (t[v.lo] == '[' ==> Same(t, v, u, w))
    && SameEntry(t, SplitEntry(t, v), u, SplitEntry(u, w))
  }

  lemma MeaningIsAlike(a: string, b: string)
    requires MeaningOf(a) == MeaningOf(b) && MeaningOf(a) != Blank
    ensures Alike(a, Clean(a), b, Clean(b))
  {
    hide Clean, SplitEntry;
    var v, w := Clean(a), Clean(b);
    if a[v.lo] == '[' {
      SplitSame(a, v, b, w);
    } else if SplitEntry(a, v).Entry? {
    }
  }

  lemma BlockAlike(e: CatalogExport, table: bool, t: string, v: View, u: string, w: View)
    requires In(v, t) && In(w, u) && Alike(t, v, u, w)
    ensures BlockLine(e, table, t, v) == BlockLine(e, table, u, w)
  {
    hide SplitEntry, BackendValue, SetField, KeyOf;
    var x, y := SplitEntry(t, v), SplitEntry(u, w);
    if t[v.lo] == '[' {
      SectionAlike(t, v, u, w);
    } else if x.Entry? {
      BackendSame(t, x.value, u, y.value);
      if KeyOf(x.key).Ok? { FieldSame(e, KeyOf(x.key).value, t, x.value, u, y.value); }
    }
  }

  lemma SectionAlike(t: string, v: View, u: string, w: View)
    requires Same(t, v, u, w) && v.lo < v.hi
    ensures StartsWith(t, v, "[export.") == StartsWith(u, w, "[export.") && t[v.hi - 1] == u[w.hi - 1]
  {
    SameAt(t, v, u, w, v.hi - v.lo - 1);
    if v.lo + 8 <= v.hi {
      SamePart(t, v, u, w, 0, 8);
    }
  }

  lemma TopAlike(p: Parser, t: string, v: View, u: string, w: View)
    requires In(v, t) && In(w, u) && Alike(t, v, u, w)
    ensures TopLine(p, t, v) == TopLine(p, u, w)
  {
    hide SplitEntry, SetMeta;
    var x, y := SplitEntry(t, v), SplitEntry(u, w);
    if t[v.lo] == '[' {
      SameAt(t, v, u, w, v.hi - v.lo - 1);
    } else {
      assert Text(t, v)[0] == t[v.lo] && Text(u, w)[0] == u[w.lo];
    }
    if x.Entry? { MetaSame(p, x.key, t, x.value, u, y.value); }
  }

  /** A line is read by its meaning, whatever the state of the parser. */
  lemma FeedByMeaning(p: Parser, a: string, b: string)
    requires MeaningOf(a) == MeaningOf(b)
    ensures Feed(p, a) == Feed(p, b)
  {
    hide Clean, SplitEntry, BlockLine, TopLine, Alike;
    if MeaningOf(a) != Blank {
      MeaningIsAlike(a, b);
      var v, w, q := Clean(a), Clean(b), p.(block := NoBlock);
      AlikeIsSome(a, v, b, w);
      if p.exports != [] { BlockAlike(p.exports[|p.exports| - 1], p.block.Block? && p.block.table, a, v, b, w); }
      TopAlike(p, a, v, b, w);
      TopAlike(q, a, v, b, w);
    }
  }

  lemma AlikeIsSome(t: string, v: View, u: string, w: View)
    requires In(v, t) && In(w, u) && Alike(t, v, u, w)
    ensures v.lo < v.hi && w.lo < w.hi
  {
  }

  /** The meanings of a list of lines, blank ones left out. */
  function Meanings(lines: seq<string>): seq<Meaning>
    decreases |lines|
  {
    if lines == [] then []
    else if MeaningOf(lines[0]) == Blank then Meanings(lines[1..])
    else [MeaningOf(lines[0])] + Meanings(lines[1..])
  }

  lemma BlankIsSkipped(p: Parser, line: string)
    requires MeaningOf(line) == Blank
    ensures Feed(p, line) == Ok(p)
  {
    hide Clean, SplitEntry, BlockLine, TopLine;
  }

  lemma {:induction false} FeedAllByMeaning(p: Parser, a: seq<string>, b: seq<string>)
    requires Meanings(a) == Meanings(b)
    ensures FeedAll(p, a) == FeedAll(p, b)
    decreases |a| + |b|
  {
    hide Feed, MeaningOf;
    if a != [] && MeaningOf(a[0]) == Blank {
      BlankIsSkipped(p, a[0]);
      FeedAllByMeaning(p, a[1..], b);
    } else if b != [] && MeaningOf(b[0]) == Blank {
      BlankIsSkipped(p, b[0]);
      FeedAllByMeaning(p, a, b[1..]);
    } else if a != [] && b != [] {
      assert Meanings(a)[0] == MeaningOf(a[0]) && Meanings(a)[1..] == Meanings(a[1..]);
      assert Meanings(b)[0] == MeaningOf(b[0]) && Meanings(b)[1..] == Meanings(b[1..]);
      FeedByMeaning(p, a[0], b[0]);
      var next := Feed(p, a[0]);
      if next.Ok? { FeedAllByMeaning(next.value, a[1..], b[1..]); }
    }
  }

  /** Two texts with the same meanings, line by line, are the same catalog or the same error. */
  lemma ParseByMeaning(x: string, y: string)
    requires Meanings(LinesFrom(x, 0)) == Meanings(LinesFrom(y, 0))
    ensures Parse(x) == Parse(y)
  {
    hide Meanings, FeedAll, LinesFrom, Finish;
    FeedAllByMeaning(START, LinesFrom(x, 0), LinesFrom(y, 0));
  }

  /** What peek_catalog_version does with one line. */
  lemma PeekStep(a: string, more: seq<string>, b: string, rest: seq<string>, inHeader: bool)
    requires MeaningOf(a) == MeaningOf(b) != Blank
    requires forall h: bool :: PeekLines(more, h) == PeekLines(rest, h)
    ensures PeekLines([a] + more, inHeader) == PeekLines([b] + rest, inHeader)
  {
    hide Clean, SplitEntry, UintValue;
    MeaningIsAlike(a, b);
    assert ([a] + more)[1..] == more && ([b] + rest)[1..] == rest;
    var x, y := SplitEntry(a, Clean(a)), SplitEntry(b, Clean(b));
    if x.Entry? { UintSame(a, x.value, b, y.value); }
  }

  lemma PeekBlank(line: string, rest: seq<string>, inHeader: bool)
    requires MeaningOf(line) == Blank
    ensures PeekLines([line] + rest, inHeader) == PeekLines(rest, inHeader)
  {
    hide Clean, SplitEntry, UintValue;
    assert ([line] + rest)[1..] == rest;
  }

  lemma {:induction false} PeekByMeaning(a: seq<string>, b: seq<string>, inHeader: bool)
    requires Meanings(a) == Meanings(b)
    ensures PeekLines(a, inHeader) == PeekLines(b, inHeader)
    decreases |a| + |b|
  {
    hide MeaningOf, PeekLines;
    if a != [] && MeaningOf(a[0]) == Blank {
      assert a == [a[0]] + a[1..];
      PeekBlank(a[0], a[1..], inHeader);
      PeekByMeaning(a[1..], b, inHeader);
    } else if b != [] && MeaningOf(b[0]) == Blank {
      assert b == [b[0]] + b[1..];
      PeekBlank(b[0], b[1..], inHeader);
      PeekByMeaning(a, b[1..], inHeader);
    } else if a != [] && b != [] {
      assert a == [a[0]] + a[1..] && b == [b[0]] + b[1..];
      assert Meanings(a)[0] == MeaningOf(a[0]) && Meanings(a)[1..] == Meanings(a[1..]);
      assert Meanings(b)[0] == MeaningOf(b[0]) && Meanings(b)[1..] == Meanings(b[1..]);
      forall h: bool
        ensures PeekLines(a[1..], h) == PeekLines(b[1..], h)
      {
        PeekByMeaning(a[1..], b[1..], h);
      }
      PeekStep(a[0], a[1..], b[0], b[1..], inHeader);
    }
  }

  // ---- spacing and comments --------------------------------------------------------

  predicate Blanks(s: string) {
    forall i | 0 <= i < |s| :: IsSpace(s[i]) && s[i] != '\n'
  }

  /** Spacing around a key and a value, and a comment behind them. */
  datatype Style = Style(before: string, afterKey: string, beforeValue: string, after: string, comment: string)

  predicate GoodStyle(y: Style) {
    && Blanks(y.before) && Blanks(y.afterKey) && Blanks(y.beforeValue) && Blanks(y.after)
    && (y.comment == "" || y.comment[0] == '#')
  }

  function Styled(key: string, text: string, y: Style): string {
    y.before + (key + (y.afterKey + (['='] + (y.beforeValue + (text + (y.after + y.comment))))))
  }

  /** The comment scan comes out of the value with its quotes closed. */
  ghost predicate Closed(text: string) {
    && text != "" && !IsSpace(text[0]) && !IsSpace(text[|text| - 1])
    && (|| Plain(text) || (exists s :: text == Quote(s) && !EndsInBackslash(s))
        || (exists xs :: text == QuoteArray(xs) && NoneEndsInBackslash(xs)))
  }

  lemma StyledShape(key: string, text: string, y: Style)
    ensures var t := Styled(key, text, y);
            var k := |y.before|; var q := k + |key|; var e := q + |y.afterKey|;
            var x := e + 1 + |y.beforeValue|; var z := x + |text|; var c := z + |y.after|;
            && |t| == c + |y.comment| && At(t, 0, y.before) && At(t, k, key) && At(t, q, y.afterKey) && e < |t| && t[e] == '='
            && At(t, e + 1, y.beforeValue) && At(t, x, text) && At(t, z, y.after) && At(t, c, y.comment)
  {
    hide At;
    var t := Styled(key, text, y);
    AtWhole(t);
    var r6 := y.after + y.comment;
    var r5 := text + r6;
    var r4 := y.beforeValue + r5;
    var r3 := ['='] + r4;
    var r2 := y.afterKey + r3;
    var r1 := key + r2;
    var k := |y.before|;
    AtParts(t, 0, y.before, r1);
    AtParts(t, k, key, r2);
    AtParts(t, k + |key|, y.afterKey, r3);
    var e := k + |key| + |y.afterKey|;
    AtCons(t, e, '=', r4);
    AtParts(t, e + 1, y.beforeValue, r5);
    AtParts(t, e + 1 + |y.beforeValue|, text, r6);
    AtParts(t, e + 1 + |y.beforeValue| + |text|, y.after, y.comment);
  }

  lemma AtWhole(t: string)
    ensures At(t, 0, t)
  {
  }

  lemma CutBlanks(line: string, i: nat, s: string)
    requires At(line, i, s) && Blanks(s)
    ensures Cut(line, i, false) == Cut(line, i + |s|, false)
  {
    CutPlainAt(line, i, s);
  }

  lemma CutClosed(line: string, i: nat, text: string)
    requires At(line, i, text) && Closed(text) && 0 < i && line[i - 1] != '\\'
    ensures Cut(line, i, false) == Cut(line, i + |text|, false)
  {
    hide Cut, At, Quote, QuoteArray;
    if Plain(text) {
      CutPlainAt(line, i, text);
    } else if s :| text == Quote(s) && !EndsInBackslash(s) {
      CutQuote(line, i, s);
    } else {
      var xs :| text == QuoteArray(xs) && NoneEndsInBackslash(xs);
      CutArray(line, i, xs);
    }
  }

  lemma CutArray(line: string, i: nat, xs: seq<string>)
    requires At(line, i, QuoteArray(xs)) && NoneEndsInBackslash(xs)
    ensures Cut(line, i, false) == Cut(line, i + |QuoteArray(xs)|, false)
  {
    hide Join, Cut;
    AtArray(line, i, xs);
    CutPlain(line, i, 1);
    CutItems(line, i + 1, xs);
    CutPlain(line, i + 1 + |Join(xs)|, 1);
  }

  lemma CutComment(line: string, c: nat, comment: string)
    requires At(line, c, comment) && c + |comment| == |line| && (comment == "" || comment[0] == '#')
    ensures Cut(line, c, false) == c
  {
    if comment != "" { assert line[c] == line[c + 0] == '#'; }
  }

  /** Where the scan of a styled line ends: before the comment. */
  lemma StyledCut(key: string, text: string, y: Style)
    requires GoodKey(key) && Closed(text) && GoodStyle(y)
    ensures var t := Styled(key, text, y); Cut(t, 0, false) == |t| - |y.comment|
  {
    hide At, Cut, Styled, Closed, GoodKey;
    var t := Styled(key, text, y);
    StyledShape(key, text, y);
    var k := |y.before|;
    var e := k + |key| + |y.afterKey|;
    var x := e + 1 + |y.beforeValue|;
    CutBlanks(t, 0, y.before);
    KeyIsPlain(key);
    CutPlainAt(t, k, key);
    CutBlanks(t, k + |key|, y.afterKey);
    CutPlain(t, e, 1);
    CutBlanks(t, e + 1, y.beforeValue);
    LastBlank(t, e, y.beforeValue);
    CutClosed(t, x, text);
    CutBlanks(t, x + |text|, y.after);
    CutComment(t, x + |text| + |y.after|, y.comment);
  }

  lemma KeyIsPlain(key: string)
    requires GoodKey(key)
    ensures Plain(key)
  {
    GoodKeyChars(key);
  }

  lemma LastBlank(t: string, e: nat, s: string)
    requires e < |t| && t[e] == '=' && At(t, e + 1, s) && Blanks(s)
    ensures t[e + |s|] != '\\'
  {
    if s != "" { assert t[e + 1 + (|s| - 1)] == s[|s| - 1]; }
  }

  predicate BlankRange(t: string, lo: nat, hi: nat) {
    lo <= hi <= |t| && forall j | lo <= j < hi :: IsSpace(t[j])
  }

  predicate NoEq(t: string, lo: nat, hi: nat) {
    lo <= hi <= |t| && forall j | lo <= j < hi :: t[j] != '='
  }

  lemma BlanksAt(t: string, i: nat, s: string)
    requires At(t, i, s) && Blanks(s)
    ensures BlankRange(t, i, i + |s|)
  {
    forall j | i <= j < i + |s|
      ensures IsSpace(t[j])
    {
      assert t[i + (j - i)] == s[j - i];
    }
  }

  lemma WordAt(t: string, i: nat, s: string)
    requires At(t, i, s) && s != "" && !IsSpace(s[0]) && !IsSpace(s[|s| - 1])
    ensures Tight(t, View(i, i + |s|)) && t[i] == s[0]
  {
    assert t[i + 0] == s[0] && t[i + (|s| - 1)] == s[|s| - 1];
  }

  /** How a line splits by the positions of its parts: the key at [k, q), the equals sign at e, the
      value at [x, hi), blanks between them and up to the end of the scan. */
  lemma LaidOut(t: string, k: nat, q: nat, e: nat, x: nat, hi: nat)
    requires k < q <= e < x < hi <= Cut(t, 0, false) && t[e] == '=' && NoEq(t, k, e)
    requires Tight(t, View(k, q)) && Tight(t, View(x, hi))
    requires BlankRange(t, 0, k) && BlankRange(t, q, e) && BlankRange(t, e + 1, x) && BlankRange(t, hi, Cut(t, 0, false))
    ensures Clean(t) == View(k, hi) && SplitEntry(t, View(k, hi)) == Entry(Text(t, View(k, q)), View(x, hi))
  {
    hide Cut, IsSpace, FindEq, Trim;
    TrimTo(t, View(0, Cut(t, 0, false)), View(k, hi));
    FindEqAt(t, k, hi, e);
    TrimTo(t, View(k, e), View(k, q));
    TrimTo(t, View(e + 1, hi), View(x, hi));
  }

  /** The parts of a styled line in front of its value. */
  lemma StyledFront(key: string, text: string, y: Style)
    requires GoodKey(key) && GoodStyle(y)
    ensures var t := Styled(key, text, y);
            var k := |y.before|; var q := k + |key|; var e := q + |y.afterKey|; var x := e + 1 + |y.beforeValue|;
            && k < q && x <= |t| && t[e] == '=' && NoEq(t, k, e)
            && Tight(t, View(k, q)) && Text(t, View(k, q)) == key && t[k] == key[0]
            && BlankRange(t, 0, k) && BlankRange(t, q, e) && BlankRange(t, e + 1, x)
  {
    hide At, Styled, IsSpace, GoodKey, Blanks, BlankRange, Tight, NoEq;
    var t, k := Styled(key, text, y), |y.before|;
    StyledShape(key, text, y);
    KeyEnds(key);
    BlanksAt(t, 0, y.before);
    BlanksAt(t, k + |key|, y.afterKey);
    BlanksAt(t, k + |key| + |y.afterKey| + 1, y.beforeValue);
    WordAt(t, k, key);
    NoEqIn(t, k, key, y.afterKey);
    AtText(t, k, key);
  }

  /** A line in any style means what the plain line means. */
  lemma StyledMeans(key: string, text: string, y: Style)
    requires GoodKey(key) && Closed(text) && GoodStyle(y)
    ensures MeaningOf(Styled(key, text, y)) == Assigns(key, text)
  {
    hide At, Cut, Styled, IsSpace, SplitEntry, Clean, Closed, GoodKey, GoodStyle, BlankRange, Tight, NoEq;
    ClosedEnds(text);
    KeyEnds(key);
    var t := Styled(key, text, y);
    var k := |y.before|;
    var e := k + |key| + |y.afterKey|;
    var x := e + 1 + |y.beforeValue|;
    StyledTail(key, text, y);
    StyledFront(key, text, y);
    LaidOut(t, k, k + |key|, e, x, x + |text|);
  }

  lemma StyledTail(key: string, text: string, y: Style)
    requires GoodKey(key) && Closed(text) && GoodStyle(y)
    ensures var t := Styled(key, text, y);
            var x := |y.before| + |key| + |y.afterKey| + 1 + |y.beforeValue|;
            && x + |text| <= Cut(t, 0, false) && Tight(t, View(x, x + |text|)) && Text(t, View(x, x + |text|)) == text
            && BlankRange(t, x + |text|, Cut(t, 0, false))
  {
    hide At, Cut, Styled, IsSpace, Closed, GoodKey, Blanks, BlankRange, Tight;
    ClosedEnds(text);
    var t := Styled(key, text, y);
    var x := |y.before| + |key| + |y.afterKey| + 1 + |y.beforeValue|;
    StyledShape(key, text, y);
    StyledCut(key, text, y);
    WordAt(t, x, text);
    BlanksAt(t, x + |text|, y.after);
    AtText(t, x, text);
  }

  lemma ClosedEnds(text: string)
    requires Closed(text)
    ensures text != "" && !IsSpace(text[0]) && !IsSpace(text[|text| - 1])
  {
  }

  lemma KeyEnds(key: string)
    requires GoodKey(key)
    ensures key != "" && key[0] != '[' && !IsSpace(key[0]) && !IsSpace(key[|key| - 1])
  {
  }

  lemma NoEqIn(t: string, k: nat, key: string, blanks: string)
    requires At(t, k, key) && At(t, k + |key|, blanks) && GoodKey(key) && Blanks(blanks)
    ensures NoEq(t, k, k + |key| + |blanks|)
  {
    GoodKeyChars(key);
    forall j | k <= j < k + |key| + |blanks|
      ensures t[j] != '='
    {
      if j < k + |key| { assert t[k + (j - k)] == key[j - k]; }
      else { assert t[k + |key| + (j - k - |key|)] == blanks[j - k - |key|]; }
    }
  }

  /** A blank line or a comment means nothing. */
  lemma NoiseMeansNothing(blanks: string, comment: string)
    requires Blanks(blanks) && (comment == "" || comment[0] == '#')
    ensures MeaningOf(blanks + comment) == Blank
  {
    hide At, Cut;
    var t := blanks + comment;
    AtWhole(t);
    AtParts(t, 0, blanks, comment);
    CutBlanks(t, 0, blanks);
    CutComment(t, |blanks|, comment);
    BlanksAt(t, 0, blanks);
    AllBlank(t, View(0, |blanks|));
  }

  lemma {:induction false} AllBlank(t: string, v: View)
    requires In(v, t) && forall j | v.lo <= j < v.hi :: IsSpace(t[j])
    ensures Front(t, v) == v.hi
    decreases v.hi - v.lo
  {
    if v.lo < v.hi { AllBlank(t, View(v.lo + 1, v.hi)); }
  }

  // ---- a comment behind a trailing backslash ---------------------------------------

  lemma {:induction false} CutOpen(line: string, i: nat)
    requires i <= |line| && forall j | i <= j < |line| :: line[j] != '"'
    ensures Cut(line, i, true) == |line|
    decreases |line| - i
  {
    if i < |line| { CutOpen(line, i + 1); }
  }

  lemma NoQuotesBehind(t: string, z: nat, after: string, comment: string)
    requires At(t, z, after) && At(t, z + |after|, comment) && z + |after| + |comment| == |t|
    requires Blanks(after) && '"' !in comment
    ensures forall j | z <= j < |t| :: t[j] != '"'
  {
    forall j | z <= j < |t|
      ensures t[j] != '"'
    {
      if j < z + |after| { assert t[z + (j - z)] == after[j - z]; }
      else { assert t[z + |after| + (j - z - |after|)] == comment[j - z - |after|] && comment[j - z - |after|] in comment; }
    }
  }

  /** The quotes of a string that ends in a backslash stay open, so nothing behind it is cut. */
  lemma OpenStringCut(key: string, s: string, y: Style)
    requires GoodKey(key) && EndsInBackslash(s) && GoodStyle(y) && '"' !in y.comment
    ensures var t := Styled(key, Quote(s), y); Cut(t, 0, false) == |t|
  {
    hide At, Cut, Styled, Quote, GoodKey, EndsInBackslash;
    var t, text := Styled(key, Quote(s), y), Quote(s);
    StyledShape(key, text, y);
    var k := |y.before|;
    var e := k + |key| + |y.afterKey|;
    var x := e + 1 + |y.beforeValue|;
    CutBlanks(t, 0, y.before);
    KeyIsPlain(key);
    CutPlainAt(t, k, key);
    CutBlanks(t, k + |key|, y.afterKey);
    CutPlain(t, e, 1);
    CutBlanks(t, e + 1, y.beforeValue);
    LastBlank(t, e, y.beforeValue);
    CutQuote(t, x, s);
    NoQuotesBehind(t, x + |text|, y.after, y.comment);
    CutOpen(t, x + |text|);
  }

  /** How such a line splits: the value runs up to its last character that is not blank. */
  lemma OpenStringSplits(key: string, s: string, y: Style) returns (v: View)
    requires GoodKey(key) && EndsInBackslash(s) && GoodStyle(y) && '"' !in y.comment
    ensures var t := Styled(key, Quote(s), y);
            var x := |y.before| + |key| + |y.afterKey| + 1 + |y.beforeValue|;
            && v.lo == x && x + |Quote(s)| <= v.hi && Tight(t, v) && At(t, x, Quote(s))
            && Clean(t) == View(|y.before|, v.hi) && t[|y.before|] == key[0]
            && SplitEntry(t, Clean(t)) == Entry(key, v)
            && (y.comment == "" ==> v.hi == x + |Quote(s)|)
            && (y.comment != "" ==> v.hi > x + |Quote(s)| && t[v.hi - 1] != '"')
  {
    hide At, Cut, Styled, IsSpace, SplitEntry, Clean, GoodKey, GoodStyle, BlankRange, Tight, NoEq, Quote, EndsInBackslash;
    var t := Styled(key, Quote(s), y);
    var k := |y.before|;
    var e := k + |key| + |y.afterKey|;
    v := OpenStringTail(key, s, y);
    StyledFront(key, Quote(s), y);
    LaidOut(t, k, k + |key|, e, v.lo, v.hi);
  }

  lemma OpenStringTail(key: string, s: string, y: Style) returns (v: View)
    requires GoodKey(key) && EndsInBackslash(s) && GoodStyle(y) && '"' !in y.comment
    ensures var t := Styled(key, Quote(s), y);
            var x := |y.before| + |key| + |y.afterKey| + 1 + |y.beforeValue|;
            && v.lo == x < x + |Quote(s)| <= v.hi <= Cut(t, 0, false) && Tight(t, v) && At(t, x, Quote(s))
            && BlankRange(t, v.hi, Cut(t, 0, false))
            && (y.comment == "" ==> v.hi == x + |Quote(s)|)
            && (y.comment != "" ==> v.hi > x + |Quote(s)| && t[v.hi - 1] != '"')
  {
    hide At, Cut, Styled, IsSpace, Quote, EndsInBackslash, GoodKey;
    var t, text := Styled(key, Quote(s), y), Quote(s);
    StyledShape(key, text, y);
    OpenStringCut(key, s, y);
    var x := |y.before| + |key| + |y.afterKey| + 1 + |y.beforeValue|;
    var z := x + |text|;
    QuoteEnds(s);
    QuoteIsSolid();
    WordAt(t, x, text);
    NoQuotesBehind(t, z, y.after, y.comment);
    var hi := EndOfLine(t, z, y.after, y.comment);
    v := View(x, hi);
  }

  lemma QuoteIsSolid()
    ensures !IsSpace('"') && !IsSpace('#')
  {
  }

  /** The last character of a line that is not blank. */
  lemma EndOfLine(t: string, z: nat, after: string, comment: string) returns (hi: nat)
    requires 0 < z && At(t, z, after) && At(t, z + |after|, comment) && z + |after| + |comment| == |t|
    requires Blanks(after) && (comment == "" || comment[0] == '#') && !IsSpace(t[z - 1])
    ensures z <= hi <= |t| && !IsSpace(t[hi - 1]) && forall j | hi <= j < |t| :: IsSpace(t[j])
    ensures (comment == "" ==> hi == z) && (comment != "" ==> hi > z)
  {
    BlanksAt(t, z, after);
    if comment == "" {
      hi := z;
    } else {
      var c := z + |after|;
      assert t[c] == t[c + 0] == '#';
      hi := LastSolid(t, c);
    }
  }

  lemma LastSolid(t: string, c: nat) returns (hi: nat)
    requires c < |t| && !IsSpace(t[c])
    ensures c < hi <= |t| && !IsSpace(t[hi - 1]) && forall j | hi <= j < |t| :: IsSpace(t[j])
  {
    hi := |t|;
    while IsSpace(t[hi - 1])
      invariant c < hi <= |t| && forall j | hi <= j < |t| :: IsSpace(t[j])
      decreases hi
    {
      hi := hi - 1;
    }
  }

  lemma LongerIsNoString(t: string, v: View)
    requires Tight(t, v) && v.lo < v.hi && t[v.hi - 1] != '"'
    ensures StringValue(t, v) == Err
  {
    TrimTo(t, v, v);
  }

  lemma OpenStringReads(e: CatalogExport, k: Key, s: string, y: Style)
    requires k.Path? || k.BackendName?
    requires EndsInBackslash(s) && GoodStyle(y) && '"' !in y.comment
    ensures ReadsAs(e, Styled(KeyText(k), Quote(s), y), if y.comment == "" then SetString(e, k, s) else Err)
  {
    hide KeyText, Quote, SetString, Styled, SplitEntry, Clean, StringValue, GoodStyle, EndsInBackslash, GoodKey;
    var key := KeyText(k);
    KeyTextIsGood(k);
    var t := Styled(key, Quote(s), y);
    var v := OpenStringSplits(key, s, y);
    KeyEnds(key);
    QuoteEnds(s);
    BlockLineOf(e, k, t, Clean(t), v);
    if y.comment == "" { StringRoundTrip(t, v, s); } else { LongerIsNoString(t, v); }
  }

  lemma ClosedStringReads(e: CatalogExport, k: Key, s: string, y: Style)
    requires StringKey(k) && !EndsInBackslash(s) && GoodStyle(y)
    ensures ReadsAs(e, Styled(KeyText(k), Quote(s), y), SetString(e, k, s))
  {
    hide KeyText, Quote, SetString, Styled, Clean, SplitEntry, GoodStyle, EndsInBackslash, BlockLine, MeaningOf, GoodKey, Line;
    var key := KeyText(k);
    KeyTextIsGood(k);
    var t, plain := Styled(key, Quote(s), y), Line(key, Quote(s));
    QuoteIsClosed(s);
    StyledMeans(key, Quote(s), y);
    PlainLineMeans(key, s);
    StrReads(e, k, s);
    MeaningIsAlike(t, plain);
    AlikeIsSome(t, Clean(t), plain, Clean(plain));
    BlockAlike(e, false, t, Clean(t), plain, Clean(plain));
  }

  lemma QuoteIsClosed(s: string)
    requires !EndsInBackslash(s)
    ensures Closed(Quote(s))
  {
    hide Quote;
    QuoteEnds(s);
  }

  lemma PlainLineMeans(key: string, s: string)
    requires GoodKey(key)
    ensures MeaningOf(Line(key, Quote(s))) == Assigns(key, Quote(s))
  {
    hide Line, Quote, Clean, SplitEntry, Scalar, GoodKey;
    QuoteIsScalar(s);
    ScalarLine(key, Quote(s));
    KeyEnds(key);
  }

  /** When a path or backend name survives spacing and a comment without quotes: exactly if there is
      no comment or the text does not end in a backslash. */
  lemma CommentedStringIff(e: CatalogExport, k: Key, s: string, y: Style)
    requires (k.Path? || k.BackendName?) && GoodStyle(y) && '"' !in y.comment
    ensures ReadsAs(e, Styled(KeyText(k), Quote(s), y), SetString(e, k, s)) <==> y.comment == "" || !EndsInBackslash(s)
  {
    hide ReadsAs, Styled, Quote, KeyText, GoodStyle, EndsInBackslash;
    NamesAreTaken(e, k, s);
    if EndsInBackslash(s) {
      OpenStringReads(e, k, s, y);
      ReadsOneWay(e, Styled(KeyText(k), Quote(s), y), SetString(e, k, s));
    } else {
      ClosedStringReads(e, k, s, y);
    }
  }

  lemma NamesAreTaken(e: CatalogExport, k: Key, s: string)
    requires k.Path? || k.BackendName?
    ensures SetString(e, k, s).Ok?
  {
  }

  lemma ReadsOneWay(e: CatalogExport, line: string, r: Result<CatalogExport>)
    requires r.Ok?
    ensures !(ReadsAs(e, line, r) && ReadsAs(e, line, Err))
  {
    hide BlockLine, Clean;
  }
}
