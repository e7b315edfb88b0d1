/** The argument checksum in the key of the duplicate request cache: the args_hash loop of
    parse_call (src/rpc/rpc_msg.cpp).  A record arrives as a chain of segments. */
module ArgsHash {

  const OFFSET_BASIS: bv64 := 1469598103934665603
  const LIMIT: nat := 256

  function Mix(h: bv64, b: bv8): bv64 {
    (h ^ (b as bv64)) * 1099511628211
  }

  /** FNV-1a of a flat byte string, continued from `h`. */
  function Fnv(h: bv64, bytes: seq<bv8>): bv64
    decreases |bytes|
  {
    if bytes == [] then h else Mix(Fnv(h, bytes[..|bytes| - 1]), bytes[|bytes| - 1])
  }

  function Flatten(segs: seq<seq<bv8>>): seq<bv8> {
    if segs == [] then [] else Flatten(segs[..|segs| - 1]) + segs[|segs| - 1]
  }

  function Min(a: nat, b: nat): nat {
    if a < b then a else b
  }

  /** The bytes the hash covers: the first 256 behind the RPC header, or all there are. */
  function Covered(record: seq<bv8>, argsOff: nat): seq<bv8>
    requires argsOff <= |record|
  {
    record[argsOff..argsOff + Min(LIMIT, |record| - argsOff)]
  }

  lemma {:induction false} FnvAppend(h: bv64, a: seq<bv8>, b: seq<bv8>)
    ensures Fnv(h, a + b) == Fnv(Fnv(h, a), b)
    decreases |b|
  {
    hide Mix;
    if b == [] {
      assert a + b == a;
    } else {
      var n := |b| - 1;
      assert (a + b)[..|a| + n] == a + b[..n];
      FnvAppend(h, a, b[..n]);
    }
  }

  method HashBytes(h0: bv64, bytes: seq<bv8>) returns (h: bv64)
    ensures h == Fnv(h0, bytes)
  {
    hide Mix;
    h := h0;
    for j := 0 to |bytes|
      invariant h == Fnv(h0, bytes[..j])
    {
      assert bytes[..j + 1][..j] == bytes[..j];
      h := Mix(h, bytes[j]);
    }
    assert bytes[..|bytes|] == bytes;
  }

  lemma FlattenNext(segs: seq<seq<bv8>>, i: nat)
    requires i < |segs|
    ensures Flatten(segs[..i + 1]) == Flatten(segs[..i]) + segs[i]
  {
    assert segs[..i + 1][..i] == segs[..i];
  }

  lemma {:induction false} FlattenPrefix(segs: seq<seq<bv8>>, i: nat)
    requires i <= |segs|
    ensures Flatten(segs[..i]) <= Flatten(segs)
    decreases |segs| - i
  {
    if i < |segs| {
      FlattenPrefix(segs, i + 1);
      FlattenNext(segs, i);
    } else {
      assert segs[..i] == segs;
    }
  }

  /** Where the loop is: `seen` bytes of the record have passed, `done` of them are hashed. */
  ghost predicate Progress(record: seq<bv8>, argsOff: nat, seen: nat, skipped: nat, want: nat, h: bv64) {
    argsOff <= |record| && seen <= |record| &&
    var all := Min(LIMIT, |record| - argsOff);
    && want <= all && skipped == Min(argsOff, seen)
    && h == Fnv(OFFSET_BASIS, record[argsOff..argsOff + (all - want)])
    && (want > 0 ==> argsOff + (all - want) == if seen < argsOff then argsOff else seen)
  }

  lemma CoveredMeans(record: seq<bv8>, argsOff: nat)
    requires argsOff <= |record|
    ensures var args := record[argsOff..]; Covered(record, argsOff) == if |args| > 256 then args[..256] else args
  {
  }

  /** The checksum depends only on the bytes of the record, however it was cut. */
  method ArgsHash(segs: seq<seq<bv8>>, argsOff: nat) returns (hash: bv64)
    requires argsOff <= |Flatten(segs)|
    ensures hash == Fnv(OFFSET_BASIS, Covered(Flatten(segs), argsOff))
    ensures var args := Flatten(segs)[argsOff..];
            hash == Fnv(1469598103934665603, if |args| > 256 then args[..256] else args)
  {
    hide Fnv, Flatten, Progress;
    ghost var record := Flatten(segs);
    var total := RecordSize(segs);
    var want := Min(total - argsOff, LIMIT);
    var h, skipped: nat, i: nat := OFFSET_BASIS, 0, 0;
    ghost var seen: nat := 0;
    Started(segs, record, argsOff);
    while i < |segs| && want > 0
      invariant i <= |segs| && seen == |Flatten(segs[..i])| && Progress(record, argsOff, seen, skipped, want, h)
    {
      var seg := segs[i];
      FlattenNext(segs, i);
      FlattenPrefix(segs, i + 1);
      assert record[seen..seen + |seg|] == seg;
      OneSegment(record, argsOff, seen, skipped, want, h, seg);
      var begin := 0;
      if skipped < argsOff {
        begin := Min(|seg|, argsOff - skipped);
        skipped := skipped + begin;
      }
      var take := Min(|seg| - begin, want);
      h := HashBytes(h, seg[begin..begin + take]);
      want := want - take;
      i, seen := i + 1, seen + |seg|;
    }
    if i == |segs| { assert segs[..i] == segs; }
    Finished(record, argsOff, seen, skipped, want, h);
    CoveredMeans(record, argsOff);
    return h;
  }

  method RecordSize(segs: seq<seq<bv8>>) returns (n: nat)
    ensures n == |Flatten(segs)|
  {
    n := 0;
    for i := 0 to |segs|
      invariant n == |Flatten(segs[..i])|
    {
      FlattenNext(segs, i);
      n := n + |segs[i]|;
    }
    assert segs[..|segs|] == segs;
  }

  lemma Started(segs: seq<seq<bv8>>, record: seq<bv8>, argsOff: nat)
    requires argsOff <= |record|
    ensures |Flatten(segs[..0])| == 0
    ensures Progress(record, argsOff, 0, 0, Min(|record| - argsOff, LIMIT), OFFSET_BASIS)
  {
    assert record[argsOff..argsOff] == [];
  }

  lemma Finished(record: seq<bv8>, argsOff: nat, seen: nat, skipped: nat, want: nat, h: bv64)
    requires Progress(record, argsOff, seen, skipped, want, h) && (want == 0 || seen == |record|)
    ensures h == Fnv(OFFSET_BASIS, Covered(record, argsOff))
  {
    hide Fnv;
  }

  /** Hashing the next stretch of a segment extends the hash of the record. */
  lemma Stretch(record: seq<bv8>, argsOff: nat, done: nat, take: nat, seg: seq<bv8>, begin: nat, seen: nat)
    requires begin + take <= |seg| && seen + |seg| <= |record| && record[seen..seen + |seg|] == seg
    requires argsOff + done == seen + begin
    ensures Fnv(Fnv(OFFSET_BASIS, record[argsOff..argsOff + done]), seg[begin..begin + take])
         == Fnv(OFFSET_BASIS, record[argsOff..argsOff + done + take])
  {
    hide Mix, Fnv;
    var b := argsOff + done;
    SliceOfSlice(record, seen, |seg|, begin, take);
    FnvAppend(OFFSET_BASIS, record[argsOff..b], record[b..b + take]);
    JoinedSlices(record, argsOff, b, b + take);
  }

  lemma SliceOfSlice(s: seq<bv8>, lo: nat, len: nat, begin: nat, take: nat)
    requires lo + len <= |s| && begin + take <= len
    ensures s[lo..lo + len][begin..begin + take] == s[lo + begin..lo + begin + take]
  {
    var whole := s[lo..lo + len];
    var x, y := whole[begin..begin + take], s[lo + begin..lo + begin + take];
    assert forall k | 0 <= k < take :: x[k] == whole[begin + k] && y[k] == s[lo + begin + k];
    assert forall k | 0 <= k < take :: x[k] == y[k];
  }

  lemma JoinedSlices(s: seq<bv8>, a: nat, b: nat, c: nat)
    requires a <= b <= c <= |s|
    ensures s[a..b] + s[b..c] == s[a..c]
  {
  }

  function Begin(skipped: nat, argsOff: nat, len: nat): nat {
    if skipped < argsOff then Min(len, argsOff - skipped) else 0
  }

  /** One segment further: what is before the arguments is skipped, then up to `want` hashed. */
  lemma OneSegment(record: seq<bv8>, argsOff: nat, seen: nat, skipped: nat, want: nat, h: bv64, seg: seq<bv8>)
    requires Progress(record, argsOff, seen, skipped, want, h) && want > 0
    requires seen + |seg| <= |record| && record[seen..seen + |seg|] == seg
    ensures var begin := Begin(skipped, argsOff, |seg|);
            var take := Min(|seg| - begin, want);
            Progress(record, argsOff, seen + |seg|, if skipped < argsOff then skipped + begin else skipped, want - take,
                     Fnv(h, seg[begin..begin + take]))
  {
    hide Fnv;
    var begin := Begin(skipped, argsOff, |seg|);
    var take := Min(|seg| - begin, want);
    var done := Min(LIMIT, |record| - argsOff) - want;
    if begin < |seg| {
      Stretch(record, argsOff, done, take, seg, begin, seen);
    } else {
      assert seg[begin..begin + take] == [];
      FnvNothing(h);
    }
  }

  lemma FnvNothing(h: bv64)
    ensures Fnv(h, []) == h
  {
  }

  // ---- the checksum tells bytes apart ----------------------------------------------

  /** The prime is odd, so multiplying by it loses nothing. */
  lemma TimesIsInjective(x: bv64, y: bv64)
    ensures x * 1099511628211 == y * 1099511628211 ==> x == y
  {
  }

  predicate IsTimes(u: bv64, x: bv64) {
    u == x * 1099511628211
  }

  lemma SameFactor(u: bv64, x: bv64, y: bv64)
    requires IsTimes(u, x) && IsTimes(u, y)
    ensures x == y
  {
    TimesIsInjective(x, y);
  }

  lemma MixIsTimes(h: bv64, b: bv8)
    ensures IsTimes(Mix(h, b), h ^ (b as bv64))
  {
  }

  lemma XorCancels(h: bv64, g: bv64, b: bv8, c: bv8)
    ensures h ^ (b as bv64) == h ^ (c as bv64) ==> b == c
    ensures h ^ (b as bv64) == g ^ (b as bv64) ==> h == g
  {
  }

  /** From one state different bytes lead to different states, and so do different states by one
      byte. */
  lemma MixIsInjective(h: bv64, b: bv8, c: bv8, g: bv64)
    ensures Mix(h, b) == Mix(h, c) ==> b == c
    ensures Mix(h, b) == Mix(g, b) ==> h == g
  {
    hide Mix, IsTimes;
    MixIsTimes(h, b);
    MixIsTimes(h, c);
    MixIsTimes(g, b);
    XorCancels(h, g, b, c);
    if Mix(h, b) == Mix(h, c) { SameFactor(Mix(h, b), h ^ (b as bv64), h ^ (c as bv64)); }
    if Mix(h, b) == Mix(g, b) { SameFactor(Mix(h, b), h ^ (b as bv64), g ^ (b as bv64)); }
  }

  lemma {:induction false} FnvKeepsApart(g: bv64, h: bv64, bytes: seq<bv8>)
    requires g != h
    ensures Fnv(g, bytes) != Fnv(h, bytes)
    decreases |bytes|
  {
    hide Mix;
    if bytes != [] {
      var n := |bytes| - 1;
      FnvKeepsApart(g, h, bytes[..n]);
      MixIsInjective(Fnv(g, bytes[..n]), bytes[n], bytes[n], Fnv(h, bytes[..n]));
    }
  }

  /** Changing one covered byte of a record changes its checksum. */
  lemma OneByteChangesHash(record: seq<bv8>, argsOff: nat, i: nat, b: bv8)
    requires argsOff <= i < |record| && i < argsOff + LIMIT && record[i] != b
    ensures Fnv(OFFSET_BASIS, Covered(record, argsOff)) != Fnv(OFFSET_BASIS, Covered(record[i := b], argsOff))
  {
    hide Fnv, Covered;
    CoveredUpdate(record, argsOff, i, b);
    OneByteDiffers(OFFSET_BASIS, Covered(record, argsOff), i - argsOff, b);
  }

  lemma CoveredUpdate(record: seq<bv8>, argsOff: nat, i: nat, b: bv8)
    requires argsOff <= i < |record| && i < argsOff + LIMIT
    ensures var k := i - argsOff;
            && k < |Covered(record, argsOff)| && Covered(record, argsOff)[k] == record[i]
            && Covered(record[i := b], argsOff) == Covered(record, argsOff)[k := b]
  {
  }

  lemma OneByteDiffers(h: bv64, bytes: seq<bv8>, k: nat, b: bv8)
    requires k < |bytes| && bytes[k] != b
    ensures Fnv(h, bytes) != Fnv(h, bytes[k := b])
  {
    hide Mix, Fnv;
    var y := bytes[k := b];
    var g := Fnv(h, bytes[..k]);
    assert y[..k] == bytes[..k] && y[k + 1..] == bytes[k + 1..] && y[k] == b;
    FnvAt(h, bytes, k);
    FnvAt(h, y, k);
    MixIsInjective(g, bytes[k], b, g);
    FnvKeepsApart(Mix(g, bytes[k]), Mix(g, b), bytes[k + 1..]);
  }

  lemma FnvAt(h: bv64, bytes: seq<bv8>, k: nat)
    requires k < |bytes|
    ensures Fnv(h, bytes) == Fnv(Mix(Fnv(h, bytes[..k]), bytes[k]), bytes[k + 1..])
  {
    hide Mix;
    assert bytes == bytes[..k + 1] + bytes[k + 1..] && bytes[..k + 1][..k] == bytes[..k];
    FnvAppend(h, bytes[..k + 1], bytes[k + 1..]);
  }
}
