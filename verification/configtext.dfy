/** The TOML subset of the configuration files: the text helpers of src/core/config.cpp.

    The helpers work on string views, so a value is a range [lo, hi) of a text. */
module ConfigText {
  import opened Config

  datatype View = View(lo: nat, hi: nat)

  predicate In(v: View, t: string) {
    v.lo <= v.hi <= |t|
  }

  function Text(t: string, v: View): string
    requires In(v, t)
  {
    t[v.lo..v.hi]
  }

  /** `s` stands in `t` at position `i`. */
  predicate At(t: string, i: nat, s: string) {
    i + |s| <= |t| && forall k | 0 <= k < |s| :: t[i + k] == s[k]
  }

  lemma AtParts(t: string, i: nat, a: string, b: string)
    ensures At(t, i, a + b) <==> At(t, i, a) && At(t, i + |a|, b)
  {
    if At(t, i, a + b) {
      assert forall k | 0 <= k < |a| :: (a + b)[k] == a[k];
      assert forall k | 0 <= k < |b| :: (a + b)[|a| + k] == b[k];
    }
  }

  lemma AtCons(t: string, i: nat, c: char, s: string)
    ensures At(t, i, [c] + s) <==> i < |t| && t[i] == c && At(t, i + 1, s)
  {
    AtParts(t, i, [c], s);
    assert [c][0] == c;
  }

  lemma AtText(t: string, i: nat, s: string)
    requires At(t, i, s)
    ensures Text(t, View(i, i + |s|)) == s
  {
  }

  // ---- trim ------------------------------------------------------------------------

  predicate IsSpace(c: char) {
    c == ' ' || '\t' <= c <= '\r'
  }

  function Front(t: string, v: View): (lo: nat)
    requires In(v, t)
    ensures v.lo <= lo <= v.hi
    decreases v.hi - v.lo
  {
    if v.lo < v.hi && IsSpace(t[v.lo]) then Front(t, View(v.lo + 1, v.hi)) else v.lo
  }

  function Back(t: string, v: View): (hi: nat)
    requires In(v, t)
    ensures v.lo <= hi <= v.hi
    decreases v.hi - v.lo
  {
    if v.lo < v.hi && IsSpace(t[v.hi - 1]) then Back(t, View(v.lo, v.hi - 1)) else v.hi
  }

  function Trim(t: string, v: View): (r: View)
    requires In(v, t)
    ensures In(r, t) && v.lo <= r.lo && r.hi <= v.hi
  {
    var lo := Front(t, v);
    View(lo, Back(t, View(lo, v.hi)))
  }

  method TrimLoop(t: string, v: View) returns (r: View)
    requires In(v, t)
    ensures r == Trim(t, v)
  {
    r := v;
    while r.lo < r.hi && IsSpace(t[r.lo])
      invariant In(r, t) && r.hi == v.hi && Front(t, r) == Front(t, v)
      decreases r.hi - r.lo
    {
      r := r.(lo := r.lo + 1);
    }
    while r.lo < r.hi && IsSpace(t[r.hi - 1])
      invariant In(r, t) && r.lo == Front(t, v) && Back(t, r) == Trim(t, v).hi
      decreases r.hi - r.lo
    {
      r := r.(hi := r.hi - 1);
    }
  }

  /** The ends of the view are not blank. */
  predicate Tight(t: string, v: View) {
    In(v, t) && (v.lo < v.hi ==> !IsSpace(t[v.lo]) && !IsSpace(t[v.hi - 1]))
  }

  /** Only blanks surround the tight part. */
  lemma {:induction false} TrimTo(t: string, v: View, r: View)
    requires In(v, t) && Tight(t, r) && v.lo <= r.lo < r.hi <= v.hi
    requires forall i | v.lo <= i < r.lo || r.hi <= i < v.hi :: IsSpace(t[i])
    ensures Trim(t, v) == r
    decreases v.hi - v.lo
  {
    if v.lo < r.lo {
      TrimTo(t, View(v.lo + 1, v.hi), r);
    } else {
      BackTo(t, v, r.hi);
    }
  }

  lemma {:induction false} BackTo(t: string, v: View, hi: nat)
    requires In(v, t) && v.lo < hi <= v.hi && !IsSpace(t[hi - 1]) && forall i | hi <= i < v.hi :: IsSpace(t[i])
    ensures Back(t, v) == hi
    decreases v.hi - v.lo
  {
    if hi < v.hi { BackTo(t, View(v.lo, v.hi - 1), hi); }
  }

  // ---- comments --------------------------------------------------------------------

  predicate Toggles(line: string, i: nat)
    requires i < |line|
  {
    line[i] == '"' && (i == 0 || line[i - 1] != '\\')
  }

  /** Where the comment of a line starts, scanning from `i` inside quotes or not. */
  function Cut(line: string, i: nat, quoted: bool): (r: nat)
    requires i <= |line|
    ensures i <= r <= |line|
    decreases |line| - i
  {
    if i == |line| then i
    else
      var q := quoted != Toggles(line, i);
      if line[i] == '#' && !q then i else Cut(line, i + 1, q)
  }

  method StripComment(line: string) returns (r: string)
    ensures r == line[..Cut(line, 0, false)]
  {
    var quoted := false;
    for i := 0 to |line|
      invariant Cut(line, 0, false) == Cut(line, i, quoted)
    {
      if line[i] == '"' && (i == 0 || line[i - 1] != '\\') { quoted := !quoted; }
      if line[i] == '#' && !quoted { return line[..i]; }
    }
    return line;
  }

  predicate Plain(s: string) {
    forall i | 0 <= i < |s| :: s[i] != '"' && s[i] != '#'
  }

  lemma {:induction false} CutPlain(line: string, i: nat, n: nat)
    requires i + n <= |line| && forall k | i <= k < i + n :: line[k] != '"' && line[k] != '#'
    ensures Cut(line, i, false) == Cut(line, i + n, false)
    decreases n
  {
    if n > 0 { CutPlain(line, i + 1, n - 1); }
  }

  lemma CutPlainAt(line: string, i: nat, s: string)
    requires At(line, i, s) && Plain(s)
    ensures Cut(line, i, false) == Cut(line, i + |s|, false)
  {
    forall k | i <= k < i + |s|
      ensures line[k] != '"' && line[k] != '#'
    {
      assert line[i + (k - i)] == s[k - i];
    }
    CutPlain(line, i, |s|);
  }

  // ---- quoted strings --------------------------------------------------------------

  function EscapeChar(c: char): (r: string)
    ensures 1 <= |r| <= 2 && (|r| == 2 ==> r[0] == '\\')
    ensures |r| == 1 ==> r[0] == c && c != '"' && c != '\\' && c != '\n'
  {
    if c == '"' || c == '\\' then ['\\', c] else if c == '\n' then "\\n" else if c == '\t' then "\\t" else [c]
  }

  function Escape(s: string): string {
    if s == "" then "" else EscapeChar(s[0]) + Escape(s[1..])
  }

  function Quote(s: string): string {
    ['"'] + (Escape(s) + ['"'])
  }

  lemma {:induction false} EscapeAppend(a: string, b: string)
    ensures Escape(a + b) == Escape(a) + Escape(b)
  {
    if a == "" {
      assert a + b == b;
    } else {
      assert (a + b)[1..] == a[1..] + b;
      EscapeAppend(a[1..], b);
    }
  }

  method QuoteLoop(value: string) returns (out: string)
    ensures out == Quote(value)
  {
    var body := "";
    for i := 0 to |value|
      invariant body == Escape(value[..i])
    {
      var ch := value[i];
      EscapeAppend(value[..i], [ch]);
      assert value[..i + 1] == value[..i] + [ch] && Escape([ch]) == EscapeChar(ch);
      if ch == '"' || ch == '\\' { body := body + ['\\', ch]; }
      else if ch == '\n' { body := body + "\\n"; }
      else if ch == '\t' { body := body + "\\t"; }
      else { body := body + [ch]; }
    }
    assert value[..|value|] == value;
    out := ['"'] + (body + ['"']);
  }

  function Meant(c: char): char {
    if c == 'n' then '\n' else if c == 't' then '\t' else c
  }

  /** The decoded text of [i, end), appended to `out`. */
  function Unescape(t: string, i: nat, end: nat, out: string): string
    requires i <= end <= |t|
    decreases end - i
  {
    if i == end then out
    else if t[i] == '\\' && i + 1 < end then Unescape(t, i + 2, end, out + [Meant(t[i + 1])])
    else Unescape(t, i + 1, end, out + [t[i]])
  }

  function StringValue(t: string, value: View): Result<string>
    requires In(value, t)
  {
    var v := Trim(t, value);
    if v.hi - v.lo < 2 || t[v.lo] != '"' || t[v.hi - 1] != '"' then Err else Ok(Unescape(t, v.lo + 1, v.hi - 1, ""))
  }

  method StringValueLoop(t: string, value: View) returns (r: Result<string>)
    requires In(value, t)
    ensures r == StringValue(t, value)
  {
    var v := TrimLoop(t, value);
    if v.hi - v.lo < 2 || t[v.lo] != '"' || t[v.hi - 1] != '"' { return Err; }
    var out, i, end := "", v.lo + 1, v.hi - 1;
    while i < end
      invariant v.lo < i <= end && Unescape(t, v.lo + 1, end, "") == Unescape(t, i, end, out)
    {
      if t[i] == '\\' && i + 1 < end {
        i := i + 1;
        out := out + [if t[i] == 'n' then '\n' else if t[i] == 't' then '\t' else t[i]];
      } else {
        out := out + [t[i]];
      }
      i := i + 1;
    }
    return Ok(out);
  }

  lemma UnescapeChar(t: string, i: nat, end: nat, c: char, out: string)
    requires At(t, i, EscapeChar(c)) && i + |EscapeChar(c)| <= end <= |t|
    ensures Unescape(t, i, end, out) == Unescape(t, i + |EscapeChar(c)|, end, out + [c])
  {
    var e := EscapeChar(c);
    assert t[i] == e[0] && (|e| == 2 ==> t[i + 1] == e[1]);
  }

  lemma Regroup(out: string, s: string)
    requires s != ""
    ensures (out + [s[0]]) + s[1..] == out + s
  {
  }

  /** Reading undoes escaping, whatever follows. */
  lemma {:induction false} UnescapeEscape(t: string, i: nat, end: nat, s: string, out: string)
    requires At(t, i, Escape(s)) && i + |Escape(s)| <= end <= |t|
    ensures Unescape(t, i, end, out) == Unescape(t, i + |Escape(s)|, end, out + s)
    decreases |s|
  {
    if s == "" {
      assert out + s == out;
    } else {
      var e, rest := EscapeChar(s[0]), s[1..];
      AtParts(t, i, e, Escape(rest));
      UnescapeChar(t, i, end, s[0], out);
      UnescapeEscape(t, i + |e|, end, rest, out + [s[0]]);
      Regroup(out, s);
    }
  }

  lemma {:induction false} UnescapeGrows(t: string, i: nat, end: nat, out: string)
    requires i <= end <= |t|
    ensures |Unescape(t, i, end, out)| >= |out| && (i < end ==> |Unescape(t, i, end, out)| > |out|)
    decreases end - i
  {
    if i < end {
      if t[i] == '\\' && i + 1 < end {
        UnescapeGrows(t, i + 2, end, out + [Meant(t[i + 1])]);
      } else {
        UnescapeGrows(t, i + 1, end, out + [t[i]]);
      }
    }
  }

  lemma AtQuote(t: string, i: nat, s: string)
    requires At(t, i, Quote(s))
    ensures At(t, i + 1, Escape(s)) && t[i] == '"' && t[i + |Quote(s)| - 1] == '"'
  {
    AtParts(t, i, ['"'], Escape(s) + ['"']);
    AtParts(t, i + 1, Escape(s), ['"']);
    assert ['"'][0] == '"';
  }

  /** Every string survives quoting: quotes, backslashes, tabs, newlines and all. */
  lemma StringRoundTrip(t: string, v: View, s: string)
    requires In(v, t) && At(t, v.lo, Quote(s)) && v.hi == v.lo + |Quote(s)|
    ensures StringValue(t, v) == Ok(s) && Tight(t, v)
  {
    hide Escape;
    AtQuote(t, v.lo, s);
    TrimTo(t, v, v);
    UnescapeEscape(t, v.lo + 1, v.hi - 1, s, "");
    assert "" + s == s;
  }

  predicate EndsInBackslash(s: string) {
    s != "" && s[|s| - 1] == '\\'
  }

  lemma {:induction false} EscapeLast(s: string)
    ensures s != "" ==> Escape(s) != "" && (EndsInBackslash(Escape(s)) <==> EndsInBackslash(s))
  {
    if s != "" {
      EscapeLast(s[1..]);
      if s[1..] == "" { assert Escape(s) == EscapeChar(s[0]); }
    }
  }

  lemma {:induction false} EscapeHasNoNewline(s: string)
    ensures '\n' !in Escape(s)
  {
    if s != "" { EscapeHasNoNewline(s[1..]); }
  }

  /** Inside quotes nothing of an escaped string is a comment or ends the quotes. */
  lemma {:induction false} CutEscape(line: string, i: nat, s: string)
    requires 0 < i && At(line, i, Escape(s))
    ensures Cut(line, i, true) == Cut(line, i + |Escape(s)|, true)
    decreases |s|
  {
    if s != "" {
      var e := EscapeChar(s[0]);
      AtParts(line, i, e, Escape(s[1..]));
      assert line[i] == e[0] && (|e| == 2 ==> line[i + 1] == e[1]);
      CutEscape(line, i + |e|, s[1..]);
    }
  }

  /** Scanning over a quoted string drops nothing; the quotes stay open only behind a
      trailing backslash. */
  lemma CutQuote(line: string, i: nat, s: string)
    requires At(line, i, Quote(s)) && 0 < i && line[i - 1] != '\\'
    ensures Cut(line, i, false) == Cut(line, i + |Quote(s)|, EndsInBackslash(s))
  {
    AtQuote(line, i, s);
    EscapeLast(s);
    CutEscape(line, i + 1, s);
    var e := Escape(s);
    assert s != "" ==> line[i + |e|] == e[|e| - 1];
  }

  // ---- arrays ----------------------------------------------------------------------

  /** The first quote from `i` on that no backslash precedes, or the end. */
  function FindEnd(t: string, i: nat, hi: nat): (end: nat)
    requires 1 <= i <= hi <= |t|
    ensures i <= end <= hi && (end < hi ==> t[end] == '"')
    decreases hi - i
  {
    if i < hi && (t[i] != '"' || t[i - 1] == '\\') then FindEnd(t, i + 1, hi) else i
  }

  /** One round of the item loop: a bad text, the last item, or an item and what follows. */
  datatype Round = Bad | Final(item: string) | More(item: string, rest: View)

  function ReadItem(t: string, v: View): (r: Round)
    requires In(v, t) && v.lo < v.hi
    ensures r.More? ==> In(r.rest, t) && v.lo < r.rest.lo && r.rest.hi <= v.hi
  {
    ReadItemTo(t, v, FindEnd(t, v.lo + 1, v.hi))
  }

  function ReadItemTo(t: string, v: View, end: nat): (r: Round)
    requires In(v, t) && v.lo < end <= v.hi
    ensures r.More? ==> In(r.rest, t) && v.lo < r.rest.lo && r.rest.hi <= v.hi
  {
    if t[v.lo] != '"' || end == v.hi then Bad
    else AfterItem(t, StringValue(t, View(v.lo, end + 1)), View(end + 1, v.hi))
  }

  function AfterItem(t: string, item: Result<string>, v: View): (r: Round)
    requires In(v, t)
    ensures r.More? ==> In(r.rest, t) && v.lo < r.rest.lo && r.rest.hi <= v.hi
    ensures !r.Bad? ==> item == Ok(r.item)
  {
    var rest := Trim(t, v);
    if item.Err? then Bad
    else if rest.lo == rest.hi then Final(item.value)
    else if t[rest.lo] != ',' then Bad
    else More(item.value, Trim(t, View(rest.lo + 1, rest.hi)))
  }

  /** The items of a text, appended to `out`. */
  function Items(t: string, v: View, out: seq<string>): Result<seq<string>>
    requires In(v, t)
    decreases v.hi - v.lo
  {
    if v.lo == v.hi then Ok(out)
    else
      match ReadItem(t, v)
      case Bad => Err
      case Final(item) => Ok(out + [item])
      case More(item, rest) => Items(t, rest, out + [item])
  }

  function StringArray(t: string, value: View): Result<seq<string>>
    requires In(value, t)
  {
    var v := Trim(t, value);
    if v.hi - v.lo < 2 || t[v.lo] != '[' || t[v.hi - 1] != ']' then Err
    else Items(t, Trim(t, View(v.lo + 1, v.hi - 1)), [])
  }

  method FindEndLoop(t: string, i: nat, hi: nat) returns (end: nat)
    requires 1 <= i <= hi <= |t|
    ensures end == FindEnd(t, i, hi)
  {
    end := i;
    while end < hi && (t[end] != '"' || t[end - 1] == '\\')
      invariant i <= end <= hi && FindEnd(t, i, hi) == FindEnd(t, end, hi)
    {
      end := end + 1;
    }
  }

  method ReadItemLoop(t: string, v: View) returns (r: Round)
    requires In(v, t) && v.lo < v.hi
    ensures r == ReadItem(t, v)
  {
    if t[v.lo] != '"' { return Bad; }
    var end := FindEndLoop(t, v.lo + 1, v.hi);
    r := ReadItemToLoop(t, v, end);
  }

  method ReadItemToLoop(t: string, v: View, end: nat) returns (r: Round)
    requires In(v, t) && v.lo < end <= v.hi && t[v.lo] == '"'
    ensures r == ReadItemTo(t, v, end)
  {
    if end == v.hi { return Bad; }
    var item := StringValueLoop(t, View(v.lo, end + 1));
    r := AfterItemLoop(t, item, View(end + 1, v.hi));
  }

  method AfterItemLoop(t: string, item: Result<string>, v: View) returns (r: Round)
    requires In(v, t)
    ensures r == AfterItem(t, item, v)
  {
    if item.Err? { return Bad; }
    var rest := TrimLoop(t, v);
    if rest.lo == rest.hi { return Final(item.value); }
    if t[rest.lo] != ',' { return Bad; }
    rest := TrimLoop(t, View(rest.lo + 1, rest.hi));
    return More(item.value, rest);
  }

  method StringArrayLoop(t: string, value: View) returns (r: Result<seq<string>>)
    requires In(value, t)
    ensures r == StringArray(t, value)
  {
    hide Items;
    var v := TrimLoop(t, value);
    if v.hi - v.lo < 2 || t[v.lo] != '[' || t[v.hi - 1] != ']' { return Err; }
    v := TrimLoop(t, View(v.lo + 1, v.hi - 1));
    r := ItemsLoop(t, v);
  }

  method ItemsLoop(t: string, text: View) returns (r: Result<seq<string>>)
    requires In(text, t)
    ensures r == Items(t, text, [])
  {
    var v, out: seq<string> := text, [];
    while v.lo < v.hi
      invariant In(v, t) && Items(t, text, []) == Items(t, v, out)
      decreases v.hi - v.lo
    {
      var round := ReadItemLoop(t, v);
      match round {
        case Bad => return Err;
        case Final(item) => return Ok(out + [item]);
        case More(item, rest) => v, out := rest, out + [item];
      }
    }
    return Ok(out);
  }

  function Join(xs: seq<string>): string {
    if xs == [] then "" else if |xs| == 1 then Quote(xs[0]) else Quote(xs[0]) + ([','] + ([' '] + Join(xs[1..])))
  }

  function QuoteArray(xs: seq<string>): string {
    ['['] + (Join(xs) + [']'])
  }

  /** The search for the closing quote walks over a whole escaped string. */
  lemma {:induction false} FindEndSkips(t: string, i: nat, hi: nat, s: string)
    requires 1 <= i && At(t, i, Escape(s)) && i + |Escape(s)| <= hi <= |t|
    ensures FindEnd(t, i, hi) == FindEnd(t, i + |Escape(s)|, hi)
    decreases |s|
  {
    if s != "" {
      var e := EscapeChar(s[0]);
      AtParts(t, i, e, Escape(s[1..]));
      assert t[i] == e[0] && (|e| == 2 ==> t[i + 1] == e[1]);
      FindEndSkips(t, i + |e|, hi, s[1..]);
    }
  }

  lemma FindEndQuote(t: string, i: nat, hi: nat, s: string)
    requires At(t, i, Quote(s)) && i + |Quote(s)| <= hi <= |t|
    ensures if EndsInBackslash(s) then FindEnd(t, i + 1, hi) >= i + |Quote(s)|
            else FindEnd(t, i + 1, hi) == i + |Quote(s)| - 1
  {
    AtQuote(t, i, s);
    EscapeLast(s);
    FindEndSkips(t, i + 1, hi, s);
    var e := Escape(s);
    assert s != "" ==> t[i + |e|] == e[|e| - 1];
  }

  /** A quoted string that does not end in a backslash is read as itself. */
  lemma ReadGoodItem(t: string, v: View, x: string, end: nat)
    requires In(v, t) && At(t, v.lo, Quote(x)) && end == v.lo + |Quote(x)| - 1 < v.hi && !EndsInBackslash(x)
    ensures ReadItem(t, v) == AfterItem(t, Ok(x), View(end + 1, v.hi))
  {
    hide AfterItem, FindEnd, Quote, ReadItemTo;
    FindEndQuote(t, v.lo, v.hi, x);
    ReadJustFar(t, v, end, x);
  }

  lemma ReadJustFar(t: string, v: View, end: nat, x: string)
    requires In(v, t) && At(t, v.lo, Quote(x)) && end == v.lo + |Quote(x)| - 1 < v.hi
    ensures ReadItemTo(t, v, end) == AfterItem(t, Ok(x), View(end + 1, v.hi))
  {
    AtQuote(t, v.lo, x);
    StringRoundTrip(t, View(v.lo, end + 1), x);
  }

  /** A quoted string read past its closing quote is longer. */
  lemma SwallowedValue(t: string, w: View, x: string)
    requires In(w, t) && At(t, w.lo, Quote(x)) && w.lo + |Quote(x)| < w.hi && t[w.hi - 1] == '"'
    ensures StringValue(t, w).Ok? && |StringValue(t, w).value| > |x|
  {
    AtQuote(t, w.lo, x);
    TrimTo(t, w, w);
    var end := w.hi - 1;
    UnescapeEscape(t, w.lo + 1, end, x, "");
    UnescapeGrows(t, w.lo + 1 + |Escape(x)|, end, "" + x);
  }

  /** One that ends in a backslash swallows its closing quote: it is read as something longer. */
  lemma ReadSwallowingItem(t: string, v: View, x: string)
    requires In(v, t) && At(t, v.lo, Quote(x)) && v.lo + |Quote(x)| <= v.hi && EndsInBackslash(x)
    ensures ReadItem(t, v).Bad? || |ReadItem(t, v).item| > |x|
  {
    hide ReadItemTo, FindEnd, Quote, EndsInBackslash;
    FindEndQuote(t, v.lo, v.hi, x);
    ReadTooFar(t, v, FindEnd(t, v.lo + 1, v.hi), x);
  }

  lemma ReadTooFar(t: string, v: View, end: nat, x: string)
    requires In(v, t) && At(t, v.lo, Quote(x)) && v.lo + |Quote(x)| <= end <= v.hi && (end < v.hi ==> t[end] == '"')
    ensures ReadItemTo(t, v, end).Bad? || |ReadItemTo(t, v, end).item| > |x|
  {
    if end < v.hi { SwallowedValue(t, View(v.lo, end + 1), x); }
  }

  lemma {:induction false} JoinEnds(xs: seq<string>)
    requires xs != []
    ensures |Join(xs)| >= 2 && Join(xs)[0] == '"' && Join(xs)[|Join(xs)| - 1] == '"'
  {
    if |xs| > 1 { JoinEnds(xs[1..]); }
  }

  lemma AtSeparated(t: string, i: nat, q: string, more: string)
    requires At(t, i, q + ([','] + ([' '] + more))) && more != ""
    ensures var e := i + |q|;
            At(t, i, q) && At(t, e + 2, more) && t[e] == ',' && t[e + 1] == ' ' && t[e + 2] == more[0]
  {
    AtParts(t, i, q, [','] + ([' '] + more));
    AtCons(t, i + |q|, ',', [' '] + more);
    AtCons(t, i + |q| + 1, ' ', more);
    assert t[i + |q| + 2] == more[0];
  }

  lemma AtJoin(t: string, i: nat, xs: seq<string>)
    requires |xs| > 1 && At(t, i, Join(xs))
    ensures At(t, i, Quote(xs[0]))
    ensures var e := i + |Quote(xs[0])|;
            At(t, e + 2, Join(xs[1..])) && t[e] == ',' && t[e + 1] == ' ' && t[e + 2] == '"'
  {
    JoinEnds(xs[1..]);
    AtSeparated(t, i, Quote(xs[0]), Join(xs[1..]));
  }

  lemma {:induction false} BackBeyond(t: string, v: View, j: nat)
    requires In(v, t) && v.lo <= j < v.hi && !IsSpace(t[j])
    ensures j < Back(t, v)
    decreases v.hi - v.lo
  {
    if IsSpace(t[v.hi - 1]) { BackBeyond(t, View(v.lo, v.hi - 1), j); }
  }

  /** After an item, ", " and a quote lead to the next item, and trimming takes nothing solid. */
  lemma AfterComma(t: string, x: string, v: View, j: nat) returns (rest: View)
    requires In(v, t) && v.lo + 2 <= j < v.hi && t[v.lo] == ',' && t[v.lo + 1] == ' ' && t[v.lo + 2] == '"'
    requires !IsSpace(t[j])
    ensures AfterItem(t, Ok(x), v) == More(x, rest) && rest.lo == v.lo + 2 && j < rest.hi <= v.hi
    ensures !IsSpace(t[v.hi - 1]) ==> rest.hi == v.hi
  {
    BackBeyond(t, v, j);
    var all := Trim(t, v);
    assert all == View(v.lo, Back(t, v));
    var w := View(v.lo + 1, all.hi);
    assert Front(t, w) == Front(t, View(w.lo + 1, w.hi)) == w.lo + 1;
    BackBeyond(t, View(w.lo + 1, w.hi), j);
    rest := Trim(t, w);
  }

  predicate NoneEndsInBackslash(xs: seq<string>) {
    forall i | 0 <= i < |xs| :: !EndsInBackslash(xs[i])
  }

  lemma Appended(out: seq<string>, xs: seq<string>)
    requires xs != []
    ensures (out + [xs[0]]) + xs[1..] == out + xs
  {
  }

  predicate Starts(t: string, v: View, xs: seq<string>) {
    In(v, t) && At(t, v.lo, Join(xs)) && v.lo + |Join(xs)| <= v.hi
  }

  /** A good item with others behind it: the loop goes on exactly at the next one. */
  lemma ReadThenMore(t: string, v: View, xs: seq<string>) returns (rest: View)
    requires |xs| > 1 && Starts(t, v, xs) && !EndsInBackslash(xs[0])
    ensures ReadItem(t, v) == More(xs[0], rest) && v.lo < rest.lo && Starts(t, rest, xs[1..])
    ensures v.hi == v.lo + |Join(xs)| ==> rest.hi == rest.lo + |Join(xs[1..])|
  {
    hide ReadItem, AfterItem, EndsInBackslash;
    AtJoin(t, v.lo, xs);
    var end := v.lo + |Quote(xs[0])| - 1;
    ReadGoodItem(t, v, xs[0], end);
    JoinEnds(xs);
    var j := v.lo + |Join(xs)| - 1;
    assert t[j] == Join(xs)[|Join(xs)| - 1];
    rest := AfterComma(t, xs[0], View(end + 1, v.hi), j);
  }

  lemma ReadLast(t: string, v: View, x: string)
    requires In(v, t) && At(t, v.lo, Quote(x)) && v.hi == v.lo + |Quote(x)| && !EndsInBackslash(x)
    ensures ReadItem(t, v) == Final(x)
  {
    ReadGoodItem(t, v, x, v.hi - 1);
  }

  lemma ItemsStep(t: string, v: View, out: seq<string>, item: string, rest: View)
    requires In(v, t) && v.lo < v.hi && ReadItem(t, v) == More(item, rest)
    ensures Items(t, v, out) == Items(t, rest, out + [item])
  {
  }

  lemma {:induction false} ItemsRoundTrip(t: string, v: View, xs: seq<string>, out: seq<string>)
    requires Starts(t, v, xs) && v.hi == v.lo + |Join(xs)| && NoneEndsInBackslash(xs)
    ensures Items(t, v, out) == Ok(out + xs)
    decreases |xs|
  {
    if xs == [] {
      assert out + xs == out;
    } else if |xs| == 1 {
      ReadLast(t, v, xs[0]);
      assert xs == [xs[0]];
    } else {
      var rest := ReadThenMore(t, v, xs);
      ItemsStep(t, v, out, xs[0], rest);
      ItemsRoundTrip(t, rest, xs[1..], out + [xs[0]]);
      Appended(out, xs);
    }
  }

  /** Any text that starts with the items up to one ending in a backslash reads differently. */
  lemma {:induction false} ItemsDiffer(t: string, v: View, xs: seq<string>, k: nat, out: seq<string>)
    requires k < |xs| && Starts(t, v, xs[..k + 1])
    requires EndsInBackslash(xs[k]) && forall i | 0 <= i < k :: !EndsInBackslash(xs[i])
    ensures Items(t, v, out) != Ok(out + xs)
    decreases k
  {
    hide *;
    if k == 0 {
      FirstDiffers(t, v, xs, out);
    } else {
      var rest := ItemsGoOn(t, v, xs, k, out);
      ItemsDiffer(t, rest, xs[1..], k - 1, out + [xs[0]]);
      Appended(out, xs);
    }
  }

  lemma ItemsGoOn(t: string, v: View, xs: seq<string>, k: nat, out: seq<string>) returns (rest: View)
    requires 0 < k < |xs| && Starts(t, v, xs[..k + 1]) && !EndsInBackslash(xs[0])
    ensures Starts(t, rest, xs[1..][..k]) && Items(t, v, out) == Items(t, rest, out + [xs[0]])
  {
    var ys := xs[..k + 1];
    rest := ReadThenMore(t, v, ys);
    ItemsStep(t, v, out, xs[0], rest);
    assert ys[1..] == xs[1..][..k];
  }

  lemma FirstDiffers(t: string, v: View, xs: seq<string>, out: seq<string>)
    requires xs != [] && EndsInBackslash(xs[0]) && Starts(t, v, xs[..1])
    ensures Items(t, v, out) != Ok(out + xs)
  {
    assert Join(xs[..1]) == Quote(xs[0]);
    ReadSwallowingItem(t, v, xs[0]);
    ItemsStartWith(t, v, out);
    var r := Items(t, v, out);
    assert r.Ok? ==> r.value[|out|] == (out + [ReadItem(t, v).item])[|out|] != xs[0];
    assert (out + xs)[|out|] == xs[0];
  }

  /** Reading only appends: what comes out starts with the item just read. */
  lemma {:induction false} ItemsStartWith(t: string, v: View, out: seq<string>)
    requires In(v, t)
    ensures Items(t, v, out).Ok? ==> out <= Items(t, v, out).value
    ensures Items(t, v, out).Ok? && v.lo < v.hi ==>
              !ReadItem(t, v).Bad? && out + [ReadItem(t, v).item] <= Items(t, v, out).value
    decreases v.hi - v.lo
  {
    if v.lo < v.hi {
      var round := ReadItem(t, v);
      if round.More? { ItemsStartWith(t, round.rest, out + [round.item]); }
    }
  }

  // ---- numbers, booleans, backend values -------------------------------------------

  const U32: nat := 0x1_0000_0000
  const U64: nat := 0x1_0000_0000_0000_0000

  predicate IsDigit(c: char) {
    '0' <= c <= '9'
  }

  predicate AllDigits(s: string) {
    forall i | 0 <= i < |s| :: IsDigit(s[i])
  }

  function Number(s: string): nat
    requires AllDigits(s)
  {
    if s == "" then 0 else Number(s[..|s| - 1]) * 10 + (s[|s| - 1] as int - '0' as int)
  }

  function ParseUint(s: string): Result<nat> {
    if s != "" && AllDigits(s) && Number(s) < U64 then Ok(Number(s)) else Err
  }

  function UintValue(t: string, v: View): Result<nat>
    requires In(v, t)
  {
    ParseUint(Text(t, Trim(t, v)))
  }

  function Digit(n: nat): char
    requires n < 10
  {
    ('0' as int + n) as char
  }

  function Digits(n: nat): (s: string)
    ensures s != "" && AllDigits(s)
  {
    if n < 10 then [Digit(n)] else Digits(n / 10) + [Digit(n % 10)]
  }

  lemma {:induction false} DigitsRoundTrip(n: nat)
    ensures Number(Digits(n)) == n
  {
    if n < 10 {
      assert [Digit(n)][..0] == "";
    } else {
      DigitsRoundTrip(n / 10);
      assert Digits(n)[..|Digits(n)| - 1] == Digits(n / 10);
    }
  }

  function BoolText(b: bool): string {
    if b then "true" else "false"
  }

  function BoolValue(t: string, v: View): Result<bool>
    requires In(v, t)
  {
    var s := Text(t, Trim(t, v));
    if s == "true" then Ok(true) else if s == "false" then Ok(false) else Err
  }

  function CountDigits(s: string, i: nat): (n: nat)
    requires i <= |s|
    ensures i <= n <= |s|
    decreases |s| - i
  {
    if i < |s| && IsDigit(s[i]) then CountDigits(s, i + 1) else i
  }

  function Multiplier(suffix: string): nat {
    if suffix == "" || suffix == "B" then 1 else if suffix == "KiB" then 1024
    else if suffix == "MiB" then 1024 * 1024 else if suffix == "GiB" then 1024 * 1024 * 1024 else 0
  }

  /** A bare number, or a quoted one with a unit. */
  function SizeValue(t: string, value: View): Result<nat>
    requires In(value, t)
  {
    var v := Trim(t, value);
    if v.lo < v.hi && t[v.lo] == '"' then
      var s :- StringValue(t, v);
      var n := CountDigits(s, 0);
      var base :- ParseUint(s[..n]);
      var mul := Multiplier(s[n..]);
      if mul == 0 || base > (U64 - 1) / mul then Err else Ok(base * mul)
    else UintValue(t, v)
  }

  /** Bare when that is exactly what reading it back yields, otherwise quoted. */
  function BackendText(value: string): string {
    if value == "true" || value == "false" then value
    else if ParseUint(value).Ok? && Digits(ParseUint(value).value) == value then value
    else Quote(value)
  }

  function BackendValue(t: string, v: View): Result<string>
    requires In(v, t)
  {
    if v.lo < v.hi && t[v.lo] == '"' then StringValue(t, v)
    else if Text(t, v) == "true" || Text(t, v) == "false" then Ok(Text(t, v))
    else
      var n :- UintValue(t, v);
      Ok(Digits(n))
  }

  // ---- key = value lines -----------------------------------------------------------

  /** A raw line without its comment and surrounding blanks. */
  function Clean(line: string): (v: View)
    ensures In(v, line)
  {
    Trim(line, View(0, Cut(line, 0, false)))
  }

  function FindEq(t: string, i: nat, hi: nat): (eq: nat)
    requires i <= hi <= |t|
    ensures i <= eq <= hi && (eq < hi ==> t[eq] == '=')
    decreases hi - i
  {
    if i < hi && t[i] != '=' then FindEq(t, i + 1, hi) else i
  }

  datatype Entry = NoEntry | Entry(key: string, value: View)

  function SplitEntry(t: string, v: View): (e: Entry)
    requires In(v, t)
    ensures e.Entry? ==> In(e.value, t)
  {
    var eq := FindEq(t, v.lo, v.hi);
    if eq == v.hi then NoEntry
    else Entry(Text(t, Trim(t, View(v.lo, eq))), Trim(t, View(eq + 1, v.hi)))
  }

  function Line(key: string, text: string): string {
    key + ([' '] + (['='] + ([' '] + text)))
  }

  /** A key that a line can carry. */
  predicate GoodKey(key: string) {
    && key != "" && key[0] != '[' && !IsSpace(key[0]) && !IsSpace(key[|key| - 1])
    && '"' !in key && '#' !in key && '=' !in key && '\n' !in key
  }

  lemma GoodKeyChars(key: string)
    requires GoodKey(key)
    ensures forall i | 0 <= i < |key| :: key[i] != '"' && key[i] != '#' && key[i] != '=' && key[i] != '\n'
  {
    assert forall i | 0 <= i < |key| :: key[i] in key;
  }

  lemma LineShape(key: string, text: string)
    ensures var t, n := Line(key, text), |key|;
            |t| == n + 3 + |text| && At(t, 0, key) && t[n] == ' ' && t[n + 1] == '=' && t[n + 2] == ' ' && At(t, n + 3, text)
  {
    var t, n := Line(key, text), |key|;
    AtParts(t, 0, key, [' '] + (['='] + ([' '] + text)));
    AtCons(t, n, ' ', ['='] + ([' '] + text));
    AtCons(t, n + 1, '=', [' '] + text);
    AtCons(t, n + 2, ' ', text);
  }

  /** Cutting the comment of a line only looks at its text. */
  lemma CutLine(key: string, text: string)
    requires GoodKey(key)
    ensures Cut(Line(key, text), 0, false) == Cut(Line(key, text), |key| + 3, false)
  {
    hide Line, Cut;
    var t, n := Line(key, text), |key|;
    GoodKeyChars(key);
    LineShape(key, text);
    CutPlainAt(t, 0, key);
    CutPlain(t, n, 3);
  }

  lemma {:induction false} FindEqAt(t: string, i: nat, hi: nat, eq: nat)
    requires i <= eq < hi <= |t| && t[eq] == '=' && forall k | i <= k < eq :: t[k] != '='
    ensures FindEq(t, i, hi) == eq
    decreases eq - i
  {
    if i < eq { FindEqAt(t, i + 1, hi, eq); }
  }

  lemma SplitsAt(t: string, n: nat, hi: nat)
    requires 0 < n && n + 3 < hi <= |t| && t[n] == ' ' && t[n + 1] == '=' && t[n + 2] == ' '
    requires !IsSpace(t[0]) && !IsSpace(t[n - 1]) && !IsSpace(t[n + 3]) && !IsSpace(t[hi - 1])
    requires forall k | 0 <= k < n :: t[k] != '='
    ensures SplitEntry(t, View(0, hi)) == Entry(Text(t, View(0, n)), View(n + 3, hi))
  {
    FindEqAt(t, 0, hi, n + 1);
    TrimTo(t, View(0, n + 1), View(0, n));
    TrimTo(t, View(n + 2, hi), View(n + 3, hi));
  }

  lemma LineChars(key: string, text: string)
    requires GoodKey(key) && text != ""
    ensures var t, n := Line(key, text), |key|;
            && t[0] == key[0] && t[n - 1] == key[n - 1] && t[n + 3] == text[0]
            && (forall k | 0 <= k < n :: t[k] != '=') && Text(t, View(0, n)) == key
  {
    var t, n := Line(key, text), |key|;
    GoodKeyChars(key);
    LineShape(key, text);
    AtText(t, 0, key);
    assert forall k | 0 <= k < n :: t[k] == t[0 + k] == key[k];
    assert t[n + 3] == t[n + 3 + 0] == text[0];
  }

  /** A line whose comment scan keeps at least the start of its text splits at its key; the
      value is the kept text without trailing blanks. */
  lemma LineSplits(key: string, text: string, hi: nat)
    requires GoodKey(key) && text != "" && !IsSpace(text[0])
    requires |key| + 3 < hi && hi == Back(Line(key, text), View(0, Cut(Line(key, text), 0, false)))
    ensures Clean(Line(key, text)) == View(0, hi)
    ensures SplitEntry(Line(key, text), View(0, hi)) == Entry(key, View(|key| + 3, hi))
  {
    hide Line, SplitEntry, Cut;
    var t := Line(key, text);
    LineShape(key, text);
    LineChars(key, text);
    BackSolid(t, View(0, Cut(t, 0, false)));
    SplitsAt(t, |key|, hi);
  }

  lemma {:induction false} BackSolid(t: string, v: View)
    requires In(v, t)
    ensures Back(t, v) > v.lo ==> !IsSpace(t[Back(t, v) - 1])
    decreases v.hi - v.lo
  {
    if v.lo < v.hi && IsSpace(t[v.hi - 1]) { BackSolid(t, View(v.lo, v.hi - 1)); }
  }

  // ---- scalar lines ----------------------------------------------------------------

  /** A text that is kept whole: a bare word or a quoted string. */
  ghost predicate Scalar(text: string) {
    text != "" && !IsSpace(text[0]) && !IsSpace(text[|text| - 1]) && (Plain(text) || exists s :: text == Quote(s))
  }

  lemma ScalarIsKept(key: string, text: string)
    requires GoodKey(key) && Scalar(text)
    ensures Cut(Line(key, text), 0, false) == |Line(key, text)|
  {
    var t, n := Line(key, text), |key| + 3;
    CutLine(key, text);
    LineShape(key, text);
    if Plain(text) {
      CutPlainAt(t, n, text);
    } else {
      var s :| text == Quote(s);
      CutQuote(t, n, s);
    }
  }

  /** Key and text of a scalar line come back whole. */
  lemma ScalarLine(key: string, text: string)
    requires GoodKey(key) && Scalar(text)
    ensures var t := Line(key, text);
            && Clean(t) == View(0, |t|) && t[0] == key[0]
            && SplitEntry(t, View(0, |t|)) == Entry(key, View(|key| + 3, |t|))
            && At(t, |key| + 3, text) && |t| == |key| + 3 + |text|
            && Text(t, View(|key| + 3, |t|)) == text && Tight(t, View(|key| + 3, |t|))
  {
    var t, n := Line(key, text), |key| + 3;
    ScalarIsKept(key, text);
    LineShape(key, text);
    LineChars(key, text);
    AtText(t, n, text);
    assert t[|t| - 1] == t[n + (|text| - 1)] == text[|text| - 1];
    LineSplits(key, text, |t|);
  }

  lemma TrimmedText(t: string, v: View, text: string)
    requires Tight(t, v) && Text(t, v) == text && text != ""
    ensures Text(t, Trim(t, v)) == text
  {
    TrimTo(t, v, v);
  }

  lemma DigitsAreScalar(n: nat)
    ensures Scalar(Digits(n)) && Digits(n)[0] != '"'
  {
  }

  lemma QuoteIsScalar(s: string)
    ensures Scalar(Quote(s))
  {
  }

  /** Reading a backend value from the text written for it gives the value back. */
  lemma BackendRoundTrip(t: string, v: View, value: string)
    requires In(v, t) && At(t, v.lo, BackendText(value)) && v.hi == v.lo + |BackendText(value)|
    requires Tight(t, v) && Text(t, v) == BackendText(value)
    ensures BackendValue(t, v) == Ok(value)
  {
    if BackendText(value) == Quote(value) {
      AtQuote(t, v.lo, value);
      StringRoundTrip(t, v, value);
    } else {
      assert t[v.lo] == BackendText(value)[0] == value[0] != '"';
      if value != "true" && value != "false" { TrimmedText(t, v, value); }
    }
  }

  // ---- subtable lines --------------------------------------------------------------

  /** A key that some line can be read as: on one line, without an equals sign, without blanks
      at its ends, and not opening a section. */
  predicate Legible(key: string) {
    && (key != "" ==> key[0] != '[' && !IsSpace(key[0]) && !IsSpace(key[|key| - 1]))
    && '=' !in key && '\n' !in key
  }

  /** The comment scan takes nothing off the line of a subtable entry. */
  predicate Uncut(key: string, value: string) {
    Cut(Line(key, BackendText(value)), 0, false) == |Line(key, BackendText(value))|
  }

  /** What the line of a subtable entry adds to the table: nothing when all of it is a comment. */
  function EntryRead(key: string, value: string): Result<map<string, string>> {
    var t := Line(key, BackendText(value));
    var v := Clean(t);
    if v.lo == v.hi then Ok(map[])
    else
      match SplitEntry(t, v)
      case NoEntry => Err
      case Entry(k, text) =>
        var w :- BackendValue(t, text);
        Ok(map[k := w])
  }

  lemma {:induction false} CutAt(line: string, i: nat, quoted: bool)
    requires i <= |line|
    ensures Cut(line, i, quoted) < |line| ==> line[Cut(line, i, quoted)] == '#'
    decreases |line| - i
  {
    if i < |line| { CutAt(line, i + 1, quoted != Toggles(line, i)); }
  }

  lemma {:induction false} FindEqNone(t: string, i: nat, hi: nat)
    requires i <= hi <= |t| && forall k | i <= k < hi :: t[k] != '='
    ensures FindEq(t, i, hi) == hi
    decreases hi - i
  {
    if i < hi { FindEqNone(t, i + 1, hi); }
  }

  /** A backend value is written without blanks at its ends, and only quotes bring a `#`. */
  lemma BackendTextEnds(value: string)
    ensures var text := BackendText(value);
            && text != "" && !IsSpace(text[0]) && !IsSpace(text[|text| - 1]) && text[0] != '#' && text[0] != '['
            && (Plain(text) || text == Quote(value))
  {
    assert Plain("true") && Plain("false");
  }

  lemma EntryShape(key: string, value: string)
    requires Legible(key)
    ensures var t, n := Line(key, BackendText(value)), |key|;
            && n + 3 < |t| && t[n] == ' ' && t[n + 1] == '=' && t[n + 2] == ' ' && Text(t, View(0, n)) == key
            && At(t, n + 3, BackendText(value)) && |t| == n + 3 + |BackendText(value)|
            && !IsSpace(t[n + 3]) && !IsSpace(t[|t| - 1]) && t[n + 3] != '#'
            && (forall k | 0 <= k < n :: t[k] != '=')
            && (n > 0 ==> t[0] != '[' && !IsSpace(t[0]) && !IsSpace(t[n - 1]))
  {
    hide BackendText, Line;
    var t, n, text := Line(key, BackendText(value)), |key|, BackendText(value);
    LineShape(key, text);
    BackendTextEnds(value);
    AtText(t, 0, key);
    assert forall k | 0 <= k < n :: t[k] == t[0 + k] == key[k] && key[k] in key;
    assert t[n + 3] == t[n + 3 + 0] == text[0] && t[|t| - 1] == t[n + 3 + (|text| - 1)] == text[|text| - 1];
  }

  /** The scan stops in the key, or keeps at least the first character of the value. */
  lemma EntryCut(key: string, value: string)
    requires Legible(key)
    ensures var t := Line(key, BackendText(value));
            var c := Cut(t, 0, false); c < |key| || |key| + 3 < c <= |t|
  {
    hide BackendText, Line;
    var t := Line(key, BackendText(value));
    EntryShape(key, value);
    CutAt(t, 0, false);
  }

  /** Cut within the key: a comment or an error. */
  lemma EntryLost(key: string, value: string)
    requires Legible(key) && Cut(Line(key, BackendText(value)), 0, false) < |key|
    ensures var t := Line(key, BackendText(value));
            var v := Clean(t); v.lo < v.hi ==> t[v.lo] != '[' && SplitEntry(t, v) == NoEntry
  {
    hide BackendText, Line, Cut;
    var t := Line(key, BackendText(value));
    EntryShape(key, value);
    var v := Clean(t);
    FindEqNone(t, v.lo, v.hi);
  }

  /** Cut within the value or not at all: the line splits at its key. */
  lemma EntrySplits(key: string, value: string)
    requires Legible(key) && |key| + 3 < Cut(Line(key, BackendText(value)), 0, false)
    ensures var t := Line(key, BackendText(value));
            var v, hi := Clean(t), Back(t, View(0, Cut(t, 0, false)));
            && |key| + 3 < hi <= Cut(t, 0, false) && !IsSpace(t[hi - 1])
            && v.lo < v.hi && t[v.lo] != '[' && SplitEntry(t, v) == Entry(key, View(|key| + 3, hi))
  {
    hide BackendText, Line, Cut, SplitEntry;
    var t, n := Line(key, BackendText(value)), |key|;
    var c := Cut(t, 0, false);
    EntryShape(key, value);
    BackBeyond(t, View(0, c), n + 3);
    BackSolid(t, View(0, c));
    var hi := Back(t, View(0, c));
    if n > 0 {
      assert Clean(t) == View(0, hi);
      SplitsAt(t, n, hi);
    } else {
      BareEntrySplits(t, c, hi);
    }
  }

  /** The line of the empty key. */
  lemma BareEntrySplits(t: string, c: nat, hi: nat)
    requires 3 < hi <= c <= |t| && t[0] == ' ' && t[1] == '=' && t[2] == ' ' && !IsSpace(t[3]) && !IsSpace(t[hi - 1])
    requires hi == Back(t, View(0, c))
    ensures Trim(t, View(0, c)) == View(1, hi) && SplitEntry(t, View(1, hi)) == Entry("", View(3, hi))
  {
    assert Front(t, View(0, c)) == Front(t, View(1, c)) == 1;
    BackFrom(t, View(0, c), 1);
    FindEqAt(t, 1, hi, 1);
    TrimTo(t, View(2, hi), View(3, hi));
  }

  /** Stripping from the back does not look below a solid character. */
  lemma {:induction false} BackFrom(t: string, v: View, lo: nat)
    requires In(v, t) && v.lo <= lo < v.hi && !IsSpace(t[lo])
    ensures Back(t, v) == Back(t, View(lo, v.hi))
    decreases v.hi - v.lo
  {
    if IsSpace(t[v.hi - 1]) { BackFrom(t, View(v.lo, v.hi - 1), lo); }
  }

  /** An escaped string that is cut short by more than its last character decodes to less. */
  lemma {:induction false} UnescapeShort(t: string, i: nat, end: nat, s: string, out: string)
    requires At(t, i, Escape(s)) && i <= end && end + 2 <= i + |Escape(s)|
    ensures |Unescape(t, i, end, out)| < |out| + |s|
    decreases |s|
  {
    var e, rest := EscapeChar(s[0]), s[1..];
    AtParts(t, i, e, Escape(rest));
    if i + |e| <= end {
      UnescapeChar(t, i, end, s[0], out);
      UnescapeShort(t, i + |e|, end, rest, out + [s[0]]);
    } else if end == i + 1 {
      assert Unescape(t, i, end, out) == Unescape(t, i + 1, end, out + [t[i]]);
      assert rest != "";
    }
  }

  /** A quoted value that a comment cuts is read as an error or as a shorter one. */
  lemma CutValueDiffers(t: string, v: View, c: nat, value: string)
    requires Tight(t, v) && v.lo < v.hi <= c < v.lo + |Quote(value)| - 1 && At(t, v.lo, Quote(value))
    ensures StringValue(t, v) != Ok(value)
  {
    hide Escape;
    AtQuote(t, v.lo, value);
    TrimTo(t, v, v);
    if v.hi - v.lo >= 2 && t[v.hi - 1] == '"' { UnescapeShort(t, v.lo + 1, v.hi - 1, value, ""); }
  }

  lemma CutEntryDiffers(key: string, value: string)
    requires Legible(key) && |key| + 3 < Cut(Line(key, BackendText(value)), 0, false) < |Line(key, BackendText(value))|
    ensures var t := Line(key, BackendText(value));
            var v := View(|key| + 3, Back(t, View(0, Cut(t, 0, false)))); In(v, t) && BackendValue(t, v) != Ok(value)
  {
    hide BackendText, Line, Cut, StringValue, SplitEntry, Quote;
    var t, n, text := Line(key, BackendText(value)), |key| + 3, BackendText(value);
    var c := Cut(t, 0, false);
    EntryShape(key, value);
    EntrySplits(key, value);
    BackendTextEnds(value);
    CutAt(t, 0, false);
    assert t[n + (c - n)] == text[c - n] == '#' && t[n + 0] == text[0];
    QuoteEnds(value);
    assert t[n + (|text| - 1)] == text[|text| - 1];
    CutValueDiffers(t, View(n, Back(t, View(0, c))), c, value);
  }

  lemma OtherValue(key: string, value: string, got: Result<string>)
    requires got != Ok(value)
    ensures got.Ok? ==> map[key := got.value] != map[key := value]
  {
    if got.Ok? { assert map[key := got.value][key] != map[key := value][key]; }
  }

  lemma QuoteEnds(s: string)
    ensures |Quote(s)| >= 2 && Quote(s)[0] == '"' && Quote(s)[|Quote(s)| - 1] == '"'
  {
  }

  /** The line of a legible key adds its own key or nothing, and its own value exactly when the
      comment scan leaves the line whole. */
  lemma EntryIff(key: string, value: string)
    requires Legible(key)
    ensures var t := Line(key, BackendText(value));
            var v := Clean(t); v.lo < v.hi ==> t[v.lo] != '['
    ensures EntryRead(key, value).Ok? ==> EntryRead(key, value).value.Keys <= {key}
    ensures EntryRead(key, value) == Ok(map[key := value]) <==> Uncut(key, value)
  {
    hide BackendText, Line, Cut, BackendValue, SplitEntry;
    var t, n := Line(key, BackendText(value)), |key| + 3;
    var c := Cut(t, 0, false);
    EntryShape(key, value);
    EntryCut(key, value);
    if c < |key| {
      EntryLost(key, value);
      assert key in map[key := value];
    } else {
      EntrySplits(key, value);
      if c < |t| {
        CutEntryDiffers(key, value);
        OtherValue(key, value, BackendValue(t, View(n, Back(t, View(0, c)))));
      } else {
        BackTo(t, View(0, c), |t|);
        AtText(t, n, BackendText(value));
        BackendRoundTrip(t, View(n, |t|), value);
      }
    }
  }

  /** For a key without quotes that means: no `#` in the key, whatever the value. */
  lemma PlainKeyUncut(key: string, value: string)
    requires Legible(key) && '"' !in key
    ensures Uncut(key, value) <==> '#' !in key
  {
    hide BackendText, Line, Cut;
    var t, n := Line(key, BackendText(value)), |key|;
    EntryShape(key, value);
    BackendTextEnds(value);
    assert forall k | 0 <= k < n :: t[k] == Text(t, View(0, n))[k] == key[k] && key[k] in key;
    if '#' in key {
      var j := FirstHash(key);
      CutPlain(t, 0, j);
      CutHere(t, j);
    } else {
      CutPlain(t, 0, n + 3);
      if Plain(BackendText(value)) {
        CutPlainAt(t, n + 3, BackendText(value));
      } else {
        CutQuote(t, n + 3, value);
      }
      CutEnd(t);
    }
  }

  lemma FirstHash(s: string) returns (j: nat)
    requires '#' in s
    ensures j < |s| && s[j] == '#' && forall k | 0 <= k < j :: s[k] != '#'
  {
    j := 0;
    while s[j] != '#'
      invariant j < |s| && (forall k | 0 <= k < j :: s[k] != '#') && '#' in s[j..]
      decreases |s| - j
    {
      j := j + 1;
    }
  }

  lemma CutHere(t: string, j: nat)
    requires j < |t| && t[j] == '#'
    ensures Cut(t, j, false) == j
  {
  }

  lemma CutEnd(t: string)
    ensures Cut(t, |t|, false) == Cut(t, |t|, true) == |t|
  {
  }

  lemma {:induction false} FrontSolid(t: string, v: View)
    requires In(v, t)
    ensures Front(t, v) < v.hi ==> !IsSpace(t[Front(t, v)])
    decreases v.hi - v.lo
  {
    if v.lo < v.hi && IsSpace(t[v.lo]) { FrontSolid(t, View(v.lo + 1, v.hi)); }
  }

  lemma TrimTight(t: string, v: View)
    requires In(v, t)
    ensures Tight(t, Trim(t, v))
  {
    FrontSolid(t, v);
    BackSolid(t, View(Front(t, v), v.hi));
  }

  lemma {:induction false} FindEqFirst(t: string, i: nat, hi: nat)
    requires i <= hi <= |t|
    ensures forall k | i <= k < FindEq(t, i, hi) :: t[k] != '='
    decreases hi - i
  {
    if i < hi && t[i] != '=' { FindEqFirst(t, i + 1, hi); }
  }

  /** Whatever a line is read as has a legible key. */
  lemma SplitIsLegible(t: string, v: View)
    requires Tight(t, v) && v.lo < v.hi && t[v.lo] != '[' && '\n' !in t && SplitEntry(t, v).Entry?
    ensures Legible(SplitEntry(t, v).key)
  {
    var eq := FindEq(t, v.lo, v.hi);
    FindEqFirst(t, v.lo, v.hi);
    var w := Trim(t, View(v.lo, eq));
    TrimTight(t, View(v.lo, eq));
    assert w.lo < w.hi ==> w.lo == v.lo;
    var key := Text(t, w);
    assert forall i | 0 <= i < |key| :: key[i] == t[w.lo + i] && t[w.lo + i] in t;
  }

  // ---- array lines -----------------------------------------------------------------

  /** The comment scan passes good items as a whole. */
  lemma {:induction false} CutItems(line: string, i: nat, xs: seq<string>)
    requires 0 < i && At(line, i, Join(xs)) && line[i - 1] != '\\' && NoneEndsInBackslash(xs)
    ensures Cut(line, i, false) == Cut(line, i + |Join(xs)|, false)
    decreases |xs|
  {
    hide Quote, Cut, EndsInBackslash;
    if |xs| == 1 {
      CutQuote(line, i, xs[0]);
    } else if |xs| > 1 {
      CutFirst(line, i, xs);
      CutItems(line, i + |Quote(xs[0])| + 2, xs[1..]);
    }
  }

  lemma CutFirst(line: string, i: nat, xs: seq<string>)
    requires 0 < i && |xs| > 1 && At(line, i, Join(xs)) && line[i - 1] != '\\' && !EndsInBackslash(xs[0])
    ensures var j := i + |Quote(xs[0])| + 2;
            && line[j - 1] != '\\' && At(line, j, Join(xs[1..])) && j + |Join(xs[1..])| == i + |Join(xs)|
            && Cut(line, i, false) == Cut(line, j, false)
  {
    hide Quote, EndsInBackslash;
    AtJoin(line, i, xs);
    CutQuote(line, i, xs[0]);
    CutPlain(line, i + |Quote(xs[0])|, 2);
  }

  /** It never cuts inside the items up to the first one ending in a backslash. */
  lemma {:induction false} CutBeyond(line: string, i: nat, xs: seq<string>, k: nat)
    requires 0 < i && k < |xs| && At(line, i, Join(xs[..k + 1])) && line[i - 1] != '\\'
    requires EndsInBackslash(xs[k]) && forall j | 0 <= j < k :: !EndsInBackslash(xs[j])
    ensures Cut(line, i, false) >= i + |Join(xs[..k + 1])|
    decreases k
  {
    hide Quote, Cut, EndsInBackslash;
    var ys := xs[..k + 1];
    if k == 0 {
      assert Join(ys) == Quote(xs[0]);
      CutQuote(line, i, xs[0]);
    } else {
      CutFirst(line, i, ys);
      assert ys[1..] == xs[1..][..k];
      CutBeyond(line, i + |Quote(xs[0])| + 2, xs[1..], k - 1);
    }
  }

  lemma AtArray(t: string, i: nat, xs: seq<string>)
    requires At(t, i, QuoteArray(xs))
    ensures t[i] == '[' && At(t, i + 1, Join(xs)) && t[i + |QuoteArray(xs)| - 1] == ']'
  {
    AtCons(t, i, '[', Join(xs) + [']']);
    AtParts(t, i + 1, Join(xs), [']']);
    assert [']'][0] == ']';
  }

  lemma StringArrayOf(t: string, v: View)
    requires Tight(t, v) && v.hi - v.lo >= 2 && t[v.lo] == '['
    ensures t[v.hi - 1] == ']' ==> StringArray(t, v) == Items(t, Trim(t, View(v.lo + 1, v.hi - 1)), [])
    ensures t[v.hi - 1] != ']' ==> StringArray(t, v) == Err
  {
    hide Items;
    TrimTo(t, v, v);
  }

  lemma InnerRoundTrip(t: string, inner: View, xs: seq<string>)
    requires Starts(t, inner, xs) && inner.hi == inner.lo + |Join(xs)| && NoneEndsInBackslash(xs)
    ensures Items(t, Trim(t, inner), []) == Ok(xs)
  {
    hide Items;
    var join := Join(xs);
    if xs != [] {
      JoinEnds(xs);
      assert t[inner.lo + 0] == join[0] && t[inner.lo + (|join| - 1)] == join[|join| - 1];
      TrimTo(t, inner, inner);
    }
    ItemsRoundTrip(t, inner, xs, []);
    assert [] + xs == xs;
  }

  /** A whole array of good items is read back. */
  lemma ArrayRoundTrip(t: string, v: View, xs: seq<string>)
    requires In(v, t) && At(t, v.lo, QuoteArray(xs)) && v.hi == v.lo + |QuoteArray(xs)| && NoneEndsInBackslash(xs)
    ensures StringArray(t, v) == Ok(xs)
  {
    hide Items;
    AtArray(t, v.lo, xs);
    StringArrayOf(t, v);
    InnerRoundTrip(t, View(v.lo + 1, v.hi - 1), xs);
  }

  lemma InnerDiffers(t: string, inner: View, xs: seq<string>, k: nat)
    requires k < |xs| && Starts(t, inner, xs[..k + 1])
    requires EndsInBackslash(xs[k]) && forall j | 0 <= j < k :: !EndsInBackslash(xs[j])
    ensures Items(t, Trim(t, inner), []) != Ok(xs)
  {
    hide Items;
    var join := Join(xs[..k + 1]);
    JoinEnds(xs[..k + 1]);
    assert t[inner.lo + 0] == join[0] && t[inner.lo + (|join| - 1)] == join[|join| - 1];
    BackBeyond(t, inner, inner.lo + |join| - 1);
    var v := Trim(t, inner);
    assert v == View(inner.lo, Back(t, inner));
    ItemsDiffer(t, v, xs, k, []);
    assert [] + xs == xs;
  }

  /** A text that starts like the array up to an item ending in a backslash is read as an
      error or as something else, wherever it ends. */
  lemma ArrayDiffers(t: string, v: View, xs: seq<string>, k: nat)
    requires Tight(t, v) && k < |xs| && v.lo < v.hi && t[v.lo] == '[' && At(t, v.lo + 1, Join(xs[..k + 1]))
    requires v.lo + 1 + |Join(xs[..k + 1])| <= v.hi
    requires EndsInBackslash(xs[k]) && forall j | 0 <= j < k :: !EndsInBackslash(xs[j])
    ensures StringArray(t, v) != Ok(xs)
  {
    hide Items, StringArray, Join, EndsInBackslash;
    var join := Join(xs[..k + 1]);
    JoinEnds(xs[..k + 1]);
    StringArrayOf(t, v);
    assert t[v.lo + 1 + (|join| - 1)] == join[|join| - 1];
    if t[v.hi - 1] == ']' { InnerDiffers(t, View(v.lo + 1, v.hi - 1), xs, k); }
  }

  /** The value a line hands on when its text is an array. */
  function ArrayView(key: string, xs: seq<string>): View {
    var t := Line(key, QuoteArray(xs));
    View(|key| + 3, Back(t, View(0, Cut(t, 0, false))))
  }

  lemma FirstBad(xs: seq<string>) returns (k: nat)
    requires !NoneEndsInBackslash(xs)
    ensures k < |xs| && EndsInBackslash(xs[k]) && forall j | 0 <= j < k :: !EndsInBackslash(xs[j])
  {
    k := 0;
    while !EndsInBackslash(xs[k])
      invariant k < |xs| && (forall j | 0 <= j < k :: !EndsInBackslash(xs[j]))
      invariant exists j | k <= j < |xs| :: EndsInBackslash(xs[j])
      decreases |xs| - k
    {
      k := k + 1;
    }
  }

  predicate ArrayLineReads(key: string, xs: seq<string>) {
    var t, v := Line(key, QuoteArray(xs)), ArrayView(key, xs);
    && In(v, t) && Tight(t, v) && 0 < v.hi && key != "" && t[0] == key[0]
    && Clean(t) == View(0, v.hi) && SplitEntry(t, View(0, v.hi)) == Entry(key, v)
  }

  /** However the comment scan treats an array line, the line splits at its key. */
  lemma ArrayLineSplits(key: string, xs: seq<string>, reach: nat)
    requires GoodKey(key) && |key| + 3 < reach <= Cut(Line(key, QuoteArray(xs)), 0, false)
    requires !IsSpace(Line(key, QuoteArray(xs))[reach - 1])
    ensures ArrayLineReads(key, xs) && reach <= ArrayView(key, xs).hi
  {
    hide SplitEntry, Line, QuoteArray, Cut;
    var t := Line(key, QuoteArray(xs));
    var kept := View(0, Cut(t, 0, false));
    BackBeyond(t, kept, reach - 1);
    BackSolid(t, kept);
    ArrayOpens(xs);
    LineShape(key, QuoteArray(xs));
    LineChars(key, QuoteArray(xs));
    LineSplits(key, QuoteArray(xs), ArrayView(key, xs).hi);
  }

  lemma ArrayOpens(xs: seq<string>)
    ensures QuoteArray(xs) != "" && QuoteArray(xs)[0] == '['
  {
  }

  lemma CutGoodArray(key: string, xs: seq<string>)
    requires GoodKey(key) && NoneEndsInBackslash(xs)
    ensures Cut(Line(key, QuoteArray(xs)), 0, false) == |Line(key, QuoteArray(xs))|
  {
    hide Line, Join;
    var t, n := Line(key, QuoteArray(xs)), |key| + 3;
    CutLine(key, QuoteArray(xs));
    LineShape(key, QuoteArray(xs));
    AtArray(t, n, xs);
    CutPlain(t, n, 1);
    CutItems(t, n + 1, xs);
    CutPlain(t, n + 1 + |Join(xs)|, 1);
  }

  lemma CutBadArray(key: string, xs: seq<string>, k: nat)
    requires GoodKey(key) && k < |xs| && EndsInBackslash(xs[k]) && forall j | 0 <= j < k :: !EndsInBackslash(xs[j])
    ensures var t, n, join := Line(key, QuoteArray(xs)), |key| + 4, Join(xs[..k + 1]);
            n + |join| <= Cut(t, 0, false) && At(t, n, join) && |join| >= 2 && t[n + |join| - 1] == '"' && t[n - 1] == '['
  {
    hide Line, QuoteArray, Join, Cut;
    var t, n, join := Line(key, QuoteArray(xs)), |key| + 4, Join(xs[..k + 1]);
    CutLine(key, QuoteArray(xs));
    LineShape(key, QuoteArray(xs));
    AtArray(t, n - 1, xs);
    JoinPrefix(xs, k + 1);
    JoinEnds(xs[..k + 1]);
    assert forall i | 0 <= i < |join| :: join[i] == Join(xs)[i];
    assert t[n + (|join| - 1)] == join[|join| - 1];
    CutPlain(t, n - 1, 1);
    CutBeyond(t, n, xs, k);
  }

  lemma {:induction false} JoinPrefix(xs: seq<string>, k: nat)
    requires 0 < k <= |xs|
    ensures Join(xs[..k]) <= Join(xs)
    decreases k
  {
    if |xs| == k {
      assert xs[..k] == xs;
    } else if k > 1 {
      JoinPrefix(xs[1..], k - 1);
      assert xs[..k][1..] == xs[1..][..k - 1];
    }
  }

  /** An array line always splits at its key.  Its items come back exactly when none of them
      ends in a backslash. */
  lemma ArrayLine(key: string, xs: seq<string>)
    requires GoodKey(key)
    ensures ArrayLineReads(key, xs)
    ensures StringArray(Line(key, QuoteArray(xs)), ArrayView(key, xs)) == Ok(xs) <==> NoneEndsInBackslash(xs)
  {
    if NoneEndsInBackslash(xs) {
      GoodArrayLine(key, xs);
    } else {
      var k := FirstBad(xs);
      BadArrayLine(key, xs, k);
    }
  }

  lemma GoodArrayLine(key: string, xs: seq<string>)
    requires GoodKey(key) && NoneEndsInBackslash(xs)
    ensures ArrayLineReads(key, xs) && StringArray(Line(key, QuoteArray(xs)), ArrayView(key, xs)) == Ok(xs)
  {
    hide StringArray, SplitEntry, Line, QuoteArray, Cut;
    var t, v := Line(key, QuoteArray(xs)), ArrayView(key, xs);
    LineShape(key, QuoteArray(xs));
    CutGoodArray(key, xs);
    AtArray(t, |key| + 3, xs);
    ArrayLineSplits(key, xs, |t|);
    ArrayRoundTrip(t, v, xs);
  }

  lemma BadArrayLine(key: string, xs: seq<string>, k: nat)
    requires GoodKey(key) && k < |xs| && EndsInBackslash(xs[k]) && forall j | 0 <= j < k :: !EndsInBackslash(xs[j])
    ensures ArrayLineReads(key, xs) && StringArray(Line(key, QuoteArray(xs)), ArrayView(key, xs)) != Ok(xs)
  {
    hide StringArray, SplitEntry, Line, QuoteArray, Cut, Join;
    var t, v := Line(key, QuoteArray(xs)), ArrayView(key, xs);
    CutBadArray(key, xs, k);
    ArrayLineSplits(key, xs, |key| + 4 + |Join(xs[..k + 1])|);
    ArrayDiffers(t, v, xs, k);
  }
}
