/** Orders shared by several parts: a stable sort by a numeric key, as std::stable_sort with
    `<` on fsids gives, and the lexicographic order of byte strings. */
module Ordering {
  function Insert<T>(x: T, xs: seq<T>, key: T -> nat): (r: seq<T>)
    ensures |r| == |xs| + 1 && x in r
    ensures (forall y | y in r :: y == x || y in xs) && (forall y | y in xs :: y in r)
  {
    if xs == [] then [x]
    else if key(x) <= key(xs[0]) then [x] + xs
    else
      assert xs == [xs[0]] + xs[1..];
      [xs[0]] + Insert(x, xs[1..], key)
  }

  function Sort<T>(xs: seq<T>, key: T -> nat): (r: seq<T>)
    ensures |r| == |xs|
    ensures (forall y | y in r :: y in xs) && (forall y | y in xs :: y in r)
  {
    if xs == [] then []
    else
      assert xs == [xs[0]] + xs[1..];
      Insert(xs[0], Sort(xs[1..], key), key)
  }

  predicate Ascending<T>(xs: seq<T>, key: T -> nat) {
    forall i, j | 0 <= i < j < |xs| :: key(xs[i]) < key(xs[j])
  }

  predicate DistinctKeys<T>(xs: seq<T>, key: T -> nat) {
    forall i, j | 0 <= i < j < |xs| :: key(xs[i]) != key(xs[j])
  }

  lemma AscendingCons<T>(x: T, rest: seq<T>, key: T -> nat)
    requires Ascending(rest, key) && forall y | y in rest :: key(x) < key(y)
    ensures Ascending([x] + rest, key)
  {
  }

  lemma {:induction false} InsertKeepsAscending<T>(x: T, xs: seq<T>, key: T -> nat)
    requires Ascending(xs, key) && forall y | y in xs :: key(y) != key(x)
    ensures Ascending(Insert(x, xs, key), key)
  {
    if xs != [] {
      var first, rest := xs[0], xs[1..];
      assert first in xs;
      assert forall y | y in rest :: key(first) < key(y);
      if key(x) <= key(first) {
        assert xs == [first] + rest;
        AscendingCons(x, xs, key);
      } else {
        InsertKeepsAscending(x, rest, key);
        AscendingCons(first, Insert(x, rest, key), key);
      }
    }
  }

  lemma {:induction false} SortSorts<T>(xs: seq<T>, key: T -> nat)
    requires DistinctKeys(xs, key)
    ensures Ascending(Sort(xs, key), key)
  {
    if xs != [] {
      SortSorts(xs[1..], key);
      assert forall y | y in xs[1..] :: key(y) != key(xs[0]);
      InsertKeepsAscending(xs[0], Sort(xs[1..], key), key);
    }
  }

  /** Sorting what is already in order changes nothing. */
  lemma {:induction false} SortedStays<T>(xs: seq<T>, key: T -> nat)
    requires Ascending(xs, key)
    ensures Sort(xs, key) == xs
  {
    if xs != [] {
      SortedStays(xs[1..], key);
      assert xs == [xs[0]] + xs[1..];
    }
  }

  /** Lexicographic order of byte strings, as std::array and std::string compare. */
  predicate LexLess(a: seq<nat>, b: seq<nat>) {
    b != [] && (a == [] || a[0] < b[0] || (a[0] == b[0] && LexLess(a[1..], b[1..])))
  }

  lemma {:induction false} LexTotal(a: seq<nat>, b: seq<nat>)
    ensures LexLess(a, b) || LexLess(b, a) || a == b
    ensures !(LexLess(a, b) && LexLess(b, a))
    ensures !LexLess(a, a)
  {
    if a != [] && b != [] {
      LexTotal(a[1..], b[1..]);
      if a[0] == b[0] && a[1..] == b[1..] {
        assert a == [a[0]] + a[1..] && b == [b[0]] + b[1..];
      }
    }
    if a != [] { LexTotal(a[1..], a[1..]); }
  }

  lemma {:induction false} LexTransitive(a: seq<nat>, b: seq<nat>, c: seq<nat>)
    requires LexLess(a, b) && LexLess(b, c)
    ensures LexLess(a, c)
  {
    if a != [] && a[0] == b[0] && b[0] == c[0] { LexTransitive(a[1..], b[1..], c[1..]); }
  }

  function Codes(s: string): (r: seq<nat>)
    ensures |r| == |s| && forall i | 0 <= i < |r| :: r[i] == s[i] as nat
  {
    seq(|s|, i requires 0 <= i < |s| => s[i] as nat)
  }

  /** The order of a std::map keyed by strings. */
  predicate TextLess(a: string, b: string) {
    LexLess(Codes(a), Codes(b))
  }

  lemma TextOrder(a: string, b: string, c: string)
    ensures TextLess(a, b) || TextLess(b, a) || a == b
    ensures !(TextLess(a, b) && TextLess(b, a)) && !TextLess(a, a)
    ensures TextLess(a, b) && TextLess(b, c) ==> TextLess(a, c)
  {
    LexTotal(Codes(a), Codes(b));
    LexTotal(Codes(a), Codes(a));
    if Codes(a) == Codes(b) {
      assert forall i | 0 <= i < |a| :: a[i] as nat == Codes(a)[i] == Codes(b)[i] == b[i] as nat;
      assert a == b;
    }
    if TextLess(a, b) && TextLess(b, c) { LexTransitive(Codes(a), Codes(b), Codes(c)); }
  }
}
