/** The debt-mode token bucket (src/runtime/token_bucket.hpp).  Levels and times are exact
    numbers, times in seconds; the wait is truncated to nanoseconds as the code does.  One
    critical section of acquire() is one attempt. */
module TokenBuckets {

  datatype Bucket = Bucket(rate: nat, burst: nat, tokens: real, last: real, lastValid: bool)

  function MinReal(a: real, b: real): real {
    if a < b then a else b
  }

  function MaxReal(a: real, b: real): real {
    if a < b then b else a
  }

  function Min(a: nat, b: nat): nat {
    if a < b then a else b
  }

  /** Tokens that `t` seconds bring. */
  function Over(t: real, rate: nat): real {
    t * rate as real
  }

  lemma OverAdds(a: real, b: real, rate: nat)
    ensures Over(a + b, rate) == Over(a, rate) + Over(b, rate) && Over(0.0, rate) == 0.0
  {
  }

  lemma OverGrows(a: real, b: real, rate: nat)
    requires a <= b
    ensures Over(a, rate) <= Over(b, rate)
  {
  }

  lemma OverUndoes(x: real, rate: nat)
    requires rate > 0
    ensures Over(x / rate as real, rate) == x
  {
  }

  /** The next acquire sees the new shape; enabling a disabled bucket fills it. */
  function Configured(b: Bucket, rate: nat, burst: nat): Bucket {
    var cap := if burst != 0 then burst else rate;
    if b.rate == 0 then Bucket(rate, cap, cap as real, b.last, false)
    else Bucket(rate, cap, MinReal(b.tokens, cap as real), b.last, b.lastValid)
  }

  function Refilled(b: Bucket, now: real): Bucket {
    b.(tokens := if b.lastValid && now > b.last then MinReal(b.tokens + Over(now - b.last, b.rate), b.burst as real)
                 else b.tokens,
       last := now, lastValid := true)
  }

  function Need(b: Bucket, n: nat): real {
    Min(n, b.burst) as real
  }

  predicate Grants(b: Bucket, n: nat, now: real) {
    Refilled(b, now).tokens >= Need(b, n)
  }

  /** One attempt to take n tokens: the bucket afterwards. */
  function Attempt(b: Bucket, n: nat, now: real): Bucket {
    var r := Refilled(b, now);
    if Grants(b, n, now) then r.(tokens := r.tokens - n as real) else r
  }

  const NANO: real := 1000000000.0
  const MILLISECOND: real := 0.001

  /** A duration in whole nanoseconds. */
  function Truncated(t: real): real {
    (t * NANO).Floor as real / NANO
  }

  function Shortfall(b: Bucket, n: nat, now: real): real
    requires b.rate > 0
  {
    (Need(b, n) - Refilled(b, now).tokens) / b.rate as real
  }

  /** The sleep after a failed attempt: the shortfall in whole nanoseconds, at least 1 ms. */
  function Sleep(b: Bucket, n: nat, now: real): real
    requires b.rate > 0
  {
    MaxReal(Truncated(Shortfall(b, n, now)), MILLISECOND)
  }

  class TokenBucket {
    var rate: nat
    var burst: nat
    var tokens: real
    var lastValid: bool
    var last: real

    ghost function Value(): Bucket
      reads this
    {
      Bucket(rate, burst, tokens, last, lastValid)
    }

    constructor ()
      ensures Value() == Bucket(0, 0, 0.0, 0.0, false)
    {
      rate, burst, tokens, last, lastValid := 0, 0, 0.0, 0.0, false;
    }

    method Configure(ratePerS: nat, cap: nat)
      modifies this
      ensures Value() == Configured(old(Value()), ratePerS, cap)
    {
      burst := if cap != 0 then cap else ratePerS;
      tokens := MinReal(tokens, burst as real);
      var was := rate;
      rate := ratePerS;
      if was == 0 {
        tokens := burst as real;
        lastValid := false;
      }
    }

    /** The critical section of acquire(): done, or how long to sleep before the next try. */
    method TryAcquire(n: nat, now: real) returns (done: bool, wait: real)
      modifies this
      ensures if old(rate) == 0 || n == 0 then done && Value() == old(Value())
              else Value() == Attempt(old(Value()), n, now) && done == Grants(old(Value()), n, now)
                   && (!done ==> wait == Sleep(old(Value()), n, now) >= MILLISECOND)
    {
      hide Truncated, Over;
      wait := 0.0;
      if rate == 0 || n == 0 { return true, wait; }
      if lastValid && now > last { tokens := MinReal(tokens + Over(now - last, rate), burst as real); }
      last, lastValid := now, true;
      var need := Min(n, burst) as real;
      if tokens >= need {
        tokens := tokens - n as real;
        return true, wait;
      }
      var shortfall := (need - tokens) / rate as real;
      wait := MaxReal(Truncated(shortfall), MILLISECOND);
      return false, wait;
    }
  }

  // ---- the level -------------------------------------------------------------------

  /** The bucket never holds more than its capacity. */
  predicate Capped(b: Bucket) {
    b.tokens <= b.burst as real
  }

  lemma LevelIsCapped(b: Bucket, n: nat, now: real, rate: nat, burst: nat)
    requires Capped(b)
    ensures Capped(Attempt(b, n, now)) && Capped(Configured(b, rate, burst))
  {
  }

  /** Enabling a disabled bucket: burst 0 stands for one second of the rate, and whatever the level
      was before, requests of up to the burst in all are granted at once and the next one is not. */
  lemma EnabledBucketIsFull(b: Bucket, rate: nat, burst: nat, n: nat, more: nat, now: real)
    requires b.rate == 0 && rate > 0
    ensures var size := if burst == 0 then rate else burst;
            var c := Configured(b, rate, burst);
            && c.rate == rate && c.burst == size
            && (n <= size ==> Grants(c, n, now)
                              && (0 < more ==> (Grants(Attempt(c, n, now), more, now) <==> n + Min(more, size) <= size)))
  {
  }

  /** Changing the shape of an enabled bucket keeps its level, cut down to the new burst, and its
      clock. */
  lemma ReconfiguredKeepsLevel(b: Bucket, rate: nat, burst: nat)
    requires b.rate > 0
    ensures var size := if burst == 0 then rate else burst;
            var c := Configured(b, rate, burst);
            && c.rate == rate && c.burst == size && c.last == b.last && c.lastValid == b.lastValid
            && c.tokens == if b.tokens > size as real then size as real else b.tokens
  {
  }

  // ---- what is taken in a window ---------------------------------------------------

  datatype Try = Try(n: nat, now: real)

  /** The buckets before each attempt and after the last one. */
  predicate IsHistory(tries: seq<Try>, bs: seq<Bucket>) {
    && |bs| == |tries| + 1 && Capped(bs[0])
    && forall k | 0 <= k < |tries| :: bs[k + 1] == Attempt(bs[k], tries[k].n, tries[k].now)
  }

  function TakenAt(tries: seq<Try>, bs: seq<Bucket>, k: nat): nat
    requires k < |tries| && |bs| == |tries| + 1
  {
    if Grants(bs[k], tries[k].n, tries[k].now) then tries[k].n else 0
  }

  /** Tokens taken by the attempts i to j. */
  function Taken(tries: seq<Try>, bs: seq<Bucket>, i: nat, j: nat): nat
    requires i <= j < |tries| && |bs| == |tries| + 1
    decreases j - i
  {
    if i == j then TakenAt(tries, bs, i) else Taken(tries, bs, i, j - 1) + TakenAt(tries, bs, j)
  }

  /** How far the clock readings climbed between the attempts i and j. */
  function Climb(tries: seq<Try>, i: nat, j: nat): real
    requires i <= j < |tries|
    decreases j - i
  {
    if i == j then 0.0 else Climb(tries, i, j - 1) + MaxReal(0.0, tries[j].now - tries[j - 1].now)
  }

  predicate Monotone(tries: seq<Try>) {
    forall i, j | 0 <= i < j < |tries| :: tries[i].now <= tries[j].now
  }

  lemma {:induction false} Shape(tries: seq<Try>, bs: seq<Bucket>, k: nat)
    requires IsHistory(tries, bs) && k < |bs|
    ensures Capped(bs[k]) && bs[k].rate == bs[0].rate && bs[k].burst == bs[0].burst
    ensures k > 0 ==> bs[k].lastValid && bs[k].last == tries[k - 1].now
  {
    if k > 0 {
      Shape(tries, bs, k - 1);
      LevelIsCapped(bs[k - 1], tries[k - 1].n, tries[k - 1].now, 0, 0);
    }
  }

  lemma AttemptBooks(b: Bucket, n: nat, now: real)
    requires Capped(b)
    ensures var taken := if Grants(b, n, now) then n else 0;
            Attempt(b, n, now).tokens + taken as real == Refilled(b, now).tokens
    ensures Refilled(b, now).tokens <= b.burst as real
    ensures b.lastValid ==> Refilled(b, now).tokens <= b.tokens + Over(MaxReal(0.0, now - b.last), b.rate)
  {
  }

  /** What was taken plus what is left is at most a full bucket and the refill. */
  lemma {:induction false} TakenPlusLevel(tries: seq<Try>, bs: seq<Bucket>, i: nat, j: nat)
    requires IsHistory(tries, bs) && i <= j < |tries|
    ensures Taken(tries, bs, i, j) as real + bs[j + 1].tokens
         <= bs[0].burst as real + Over(Climb(tries, i, j), bs[0].rate)
    decreases j - i
  {
    hide Over, Attempt, Refilled, Grants;
    Shape(tries, bs, j);
    AttemptBooks(bs[j], tries[j].n, tries[j].now);
    if i < j {
      TakenPlusLevel(tries, bs, i, j - 1);
      OverAdds(Climb(tries, i, j - 1), MaxReal(0.0, tries[j].now - tries[j - 1].now), bs[0].rate);
    } else {
      OverAdds(0.0, 0.0, bs[0].rate);
    }
  }

  function Largest(tries: seq<Try>, i: nat, j: nat): nat
    requires i <= j < |tries|
    decreases j - i
  {
    if i == j then tries[i].n
    else if tries[j].n > Largest(tries, i, j - 1) then tries[j].n else Largest(tries, i, j - 1)
  }

  /** After a successful attempt the debt is at most what the request exceeds the burst by. */
  lemma DebtIsBounded(b: Bucket, n: nat, now: real)
    requires Grants(b, n, now)
    ensures Attempt(b, n, now).tokens >= Min(n, b.burst) as real - n as real
  {
  }

  /** In any window the attempts take at most what the clock readings refill, plus a full
      bucket or the largest single request. */
  lemma {:induction false} WindowBound(tries: seq<Try>, bs: seq<Bucket>, i: nat, j: nat)
    requires IsHistory(tries, bs) && i <= j < |tries|
    ensures Taken(tries, bs, i, j) as real
         <= Over(Climb(tries, i, j), bs[0].rate) + MaxReal(bs[0].burst as real, Largest(tries, i, j) as real)
    decreases j - i
  {
    hide Over, Attempt, Refilled, Grants;
    Shape(tries, bs, j);
    if Grants(bs[j], tries[j].n, tries[j].now) {
      TakenPlusLevel(tries, bs, i, j);
      DebtIsBounded(bs[j], tries[j].n, tries[j].now);
    } else if i < j {
      WindowBound(tries, bs, i, j - 1);
      var step := MaxReal(0.0, tries[j].now - tries[j - 1].now);
      OverAdds(Climb(tries, i, j - 1), step, bs[0].rate);
      OverAdds(0.0, 0.0, bs[0].rate);
      OverGrows(0.0, step, bs[0].rate);
    } else {
      OverAdds(0.0, 0.0, bs[0].rate);
    }
  }

  lemma {:induction false} ClimbIsLength(tries: seq<Try>, i: nat, j: nat)
    requires i <= j < |tries| && Monotone(tries)
    ensures Climb(tries, i, j) == tries[j].now - tries[i].now
    decreases j - i
  {
    if i < j { ClimbIsLength(tries, i, j - 1); }
  }

  /** A window of length T takes at most rate * T + max(burst, largest request). */
  predicate WithinRate(tries: seq<Try>, bs: seq<Bucket>, i: nat, j: nat)
    requires i <= j < |tries| && |bs| == |tries| + 1
  {
    Taken(tries, bs, i, j) as real
      <= Over(tries[j].now - tries[i].now, bs[0].rate) + MaxReal(bs[0].burst as real, Largest(tries, i, j) as real)
  }

  /** With clock readings that never go back every window keeps the rate. */
  lemma RateIsKept(tries: seq<Try>, bs: seq<Bucket>, i: nat, j: nat)
    requires IsHistory(tries, bs) && i <= j < |tries| && Monotone(tries)
    ensures WithinRate(tries, bs, i, j)
  {
    hide Over, IsHistory;
    WindowBound(tries, bs, i, j);
    ClimbIsLength(tries, i, j);
  }

  // ---- clock readings that go back -------------------------------------------------

  predicate NeverBack(readings: seq<real>) {
    forall i, j | 0 <= i < j < |readings| :: readings[i] <= readings[j]
  }

  /** The attempts were made at these readings, for any number of tokens from one up. */
  predicate MadeAt(tries: seq<Try>, readings: seq<real>) {
    |tries| == |readings| && forall k | 0 <= k < |tries| :: tries[k].now == readings[k] && tries[k].n > 0
  }

  /** Every bucket and every choice of requests keeps the rate at these readings. */
  ghost predicate RateHolds(readings: seq<real>) {
    forall tries: seq<Try>, bs: seq<Bucket>, i: nat, j: nat |
      MadeAt(tries, readings) && IsHistory(tries, bs) && bs[0].rate > 0 && i <= j < |tries| ::
      WithinRate(tries, bs, i, j)
  }

  /** The condition on the clock is exact: the rate is kept at all readings that never go back
      and at no others. */
  lemma RateIsKeptIff(readings: seq<real>)
    ensures RateHolds(readings) <==> NeverBack(readings)
  {
    hide WithinRate;
    if NeverBack(readings) {
      forall tries: seq<Try>, bs: seq<Bucket>, i: nat, j: nat |
        MadeAt(tries, readings) && IsHistory(tries, bs) && bs[0].rate > 0 && i <= j < |tries|
        ensures WithinRate(tries, bs, i, j)
      {
        RateIsKept(tries, bs, i, j);
      }
    } else {
      var k := FirstDrop(readings);
      var tries, bs := DropMisses(readings, k);
    }
  }

  lemma FirstDrop(readings: seq<real>) returns (k: nat)
    requires !NeverBack(readings)
    ensures k + 1 < |readings| && readings[k + 1] < readings[k]
  {
    if !exists k | 0 <= k < |readings| - 1 :: readings[k + 1] < readings[k] {
      var i, j :| 0 <= i < j < |readings| && readings[i] > readings[j];
      NoDrop(readings, i, j);
    }
    k :| 0 <= k < |readings| - 1 && readings[k + 1] < readings[k];
  }

  lemma {:induction false} NoDrop(readings: seq<real>, i: nat, j: nat)
    requires i <= j < |readings| && forall k | 0 <= k < |readings| - 1 :: readings[k] <= readings[k + 1]
    ensures readings[i] <= readings[j]
    decreases j - i
  {
    if i < j {
      NoDrop(readings, i, j - 1);
      assert readings[j - 1] <= readings[j - 1 + 1];
    }
  }

  /** The buckets that a list of attempts leads through. */
  function Histories(b: Bucket, tries: seq<Try>): (bs: seq<Bucket>)
    ensures |bs| == |tries| + 1 && bs[0] == b
    ensures forall k | 0 <= k < |tries| :: bs[k + 1] == Attempt(bs[k], tries[k].n, tries[k].now)
  {
    if tries == [] then [b]
    else
      var n := |tries| - 1;
      var bs := Histories(b, tries[..n]);
      bs + [Attempt(bs[n], tries[n].n, tries[n].now)]
  }

  function OneEach(readings: seq<real>): (tries: seq<Try>)
    ensures MadeAt(tries, readings) && forall k | 0 <= k < |tries| :: tries[k].n == 1
  {
    seq(|readings|, k requires 0 <= k < |readings| => Try(1, readings[k]))
  }

  /** A full bucket lasts for as many single tokens as it holds, whatever the clock says. */
  lemma {:induction false} LevelFalls(tries: seq<Try>, bs: seq<Bucket>, k: nat)
    requires IsHistory(tries, bs) && k < |bs| && bs[0].tokens == bs[0].burst as real
    requires forall i | 0 <= i < |tries| :: tries[i].n == 1
    ensures bs[k].tokens >= bs[0].burst as real - k as real
  {
    if k > 0 {
      LevelFalls(tries, bs, k - 1);
      Shape(tries, bs, k - 1);
      OneToken(bs[k - 1], tries[k - 1].now);
    }
  }

  lemma OneToken(b: Bucket, now: real)
    requires Capped(b)
    ensures Attempt(b, 1, now).tokens >= b.tokens - 1.0 && (b.tokens >= 1.0 ==> Grants(b, 1, now))
  {
    if b.lastValid && now > b.last { OverGrows(0.0, now - b.last, b.rate); }
  }

  /** Wherever a reading goes back, single tokens from a full bucket miss the rate. */
  lemma DropMisses(readings: seq<real>, k: nat) returns (tries: seq<Try>, bs: seq<Bucket>)
    requires k + 1 < |readings| && readings[k + 1] < readings[k]
    ensures MadeAt(tries, readings) && IsHistory(tries, bs) && bs[0].rate > 0 && |tries| == |readings|
    ensures !WithinRate(tries, bs, k, k + 1)
  {
    hide Over, Attempt, Grants;
    var d := readings[k] - readings[k + 1];
    var rate := FastEnough(d, k);
    tries := OneEach(readings);
    bs := Histories(Bucket(rate, k + 1, (k + 1) as real, 0.0, false), tries);
    LevelFalls(tries, bs, k);
    Shape(tries, bs, k);
    OneToken(bs[k], readings[k]);
    assert Taken(tries, bs, k, k + 1) == Taken(tries, bs, k, k) + TakenAt(tries, bs, k + 1) >= 1;
    assert Largest(tries, k, k + 1) == 1 by { assert Largest(tries, k, k) == 1; }
    OverAdds(d, -d, rate);
    assert readings[k + 1] - readings[k] == -d;
  }

  lemma FastEnough(d: real, k: nat) returns (rate: nat)
    requires d > 0.0
    ensures rate > 0 && Over(d, rate) > k as real
  {
    var q := k as real / d;
    rate := q.Floor + 1;
    assert rate as real > q;
    OverUp(d, rate, q, k as real);
  }

  lemma OverUp(d: real, rate: nat, q: real, k: real)
    requires d > 0.0 && rate as real > q && q == k / d
    ensures Over(d, rate) > k
  {
    assert d * q == k;
    assert d * (rate as real - q) > 0.0;
  }

  /** What goes wrong: the time up to the higher reading is refilled once more.  A full bucket
      whose burst refills in the stretch that is gone back is emptied twice within a window of
      length zero. */
  lemma BackwardClockRefillsTwice(b: Bucket, t: real, back: real)
    requires b.burst > 0 && b.tokens == b.burst as real && back < t && Over(t - back, b.rate) >= b.burst as real
    ensures var n := b.burst;
            var tries, bs := [Try(n, t), Try(n, back), Try(n, t)], Histories(b, [Try(n, t), Try(n, back), Try(n, t)]);
            IsHistory(tries, bs) && Taken(tries, bs, 0, 2) == 2 * n && !WithinRate(tries, bs, 0, 2)
  {
    hide Over, Attempt, Grants, Histories, Refilled;
    var n := b.burst;
    var tries := [Try(n, t), Try(n, back), Try(n, t)];
    var bs := Histories(b, tries);
    var empty := Bucket(b.rate, n, 0.0, t, true);
    assert bs[1] == Attempt(b, n, t) && bs[2] == Attempt(bs[1], n, back) && bs[3] == Attempt(bs[2], n, t);
    FullIsEmptied(b, n, t);
    EmptyWaits(empty, n, back);
    RefillGrants(empty.(last := back), n, t);
    assert TakenAt(tries, bs, 0) == n && TakenAt(tries, bs, 1) == 0 && TakenAt(tries, bs, 2) == n;
    assert Taken(tries, bs, 0, 1) == n;
    assert Taken(tries, bs, 0, 2) == 2 * n;
    assert Largest(tries, 0, 1) == n;
    OverAdds(0.0, 0.0, b.rate);
  }

  lemma EmptyWaits(b: Bucket, n: nat, back: real)
    requires n == b.burst > 0 && b.tokens == 0.0 && b.lastValid && back < b.last
    ensures !Grants(b, n, back) && Attempt(b, n, back) == b.(last := back)
  {
  }

  lemma RefillGrants(b: Bucket, n: nat, t: real)
    requires n == b.burst && b.tokens == 0.0 && b.lastValid && b.last < t && Over(t - b.last, b.rate) >= n as real
    ensures Grants(b, n, t)
  {
  }

  lemma FullIsEmptied(b: Bucket, n: nat, t: real)
    requires b.tokens == b.burst as real && n == b.burst
    ensures Grants(b, n, t) && Attempt(b, n, t) == Bucket(b.rate, n, 0.0, t, true)
  {
    if b.lastValid && t > b.last { OverGrows(0.0, t - b.last, b.rate); }
  }

  // ---- a lone acquire finishes -----------------------------------------------------

  lemma TruncatedIsClose(t: real)
    ensures Truncated(t) > t - 1.0 / NANO
  {
    var x := t * NANO;
    assert x.Floor as real > x - 1.0;
    assert x.Floor as real / NANO > (x - 1.0) / NANO == t - 1.0 / NANO;
  }

  /** A sleep brings the missing tokens up to a nanosecond's worth, and a millisecond's worth
      in any case. */
  lemma SleepBrings(b: Bucket, n: nat, now: real)
    requires b.rate > 0
    ensures var r := Refilled(b, now);
            && Over(Sleep(b, n, now), b.rate) >= Over(MILLISECOND, b.rate)
            && r.tokens + Over(Sleep(b, n, now), b.rate) + Over(1.0 / NANO, b.rate) >= Need(b, n)
  {
    hide Refilled, Truncated, Over;
    var s, x := Sleep(b, n, now), Shortfall(b, n, now);
    TruncatedIsClose(x);
    OverGrows(MILLISECOND, s, b.rate);
    OverGrows(x, s + 1.0 / NANO, b.rate);
    OverAdds(s, 1.0 / NANO, b.rate);
    OverUndoes(Need(b, n) - Refilled(b, now).tokens, b.rate);
  }

  /** The sleep is the time the missing tokens take, up to a nanosecond, but at least 1 ms. */
  lemma SleepIsExact(b: Bucket, n: nat, now: real)
    requires b.rate > 0 && !Grants(b, n, now)
    ensures var missing := (if n < b.burst then n else b.burst) as real - Refilled(b, now).tokens;
            var time := missing / b.rate as real;
            && missing > 0.0 && Sleep(b, n, now) >= 0.001
            && (if time >= 0.002 then time - 0.000000001 < Sleep(b, n, now) <= time else Sleep(b, n, now) <= 0.002)
  {
    hide Refilled, Over;
    TruncatedIsBelow(Shortfall(b, n, now));
    TruncatedIsClose(Shortfall(b, n, now));
  }

  lemma TruncatedIsBelow(t: real)
    ensures Truncated(t) <= t
  {
    var x := t * NANO;
    assert x.Floor as real <= x;
    assert x.Floor as real / NANO <= x / NANO == t;
  }

  /** Waking up at least `d` seconds after a failed attempt finds d seconds of refill. */
  lemma SleepRefills(b: Bucket, n: nat, now: real, d: real, next: real)
    requires !Grants(b, n, now) && d > 0.0 && next >= now + d
    ensures var r := Attempt(b, n, now);
            Refilled(r, next).tokens >= MinReal(Refilled(b, now).tokens + Over(d, b.rate), b.burst as real)
  {
    hide Over;
    OverGrows(d, next - now, b.rate);
  }

  lemma AttemptKeepsShape(b: Bucket, n: nat, now: real)
    ensures Attempt(b, n, now).rate == b.rate && Attempt(b, n, now).burst == b.burst
    ensures Need(Attempt(b, n, now), n) == Need(b, n) <= b.burst as real
  {
  }

  /** An acquire nobody competes with is granted after at most two sleeps: the first covers
      the shortfall up to a nanosecond, the second covers that. */
  lemma LoneAcquireFinishes(b: Bucket, n: nat, t0: real, t1: real, t2: real)
    requires b.rate > 0 && !Grants(b, n, t0) && t1 >= t0 + Sleep(b, n, t0)
    requires var b1 := Attempt(b, n, t0); b1.rate > 0 && (!Grants(b1, n, t1) ==> t2 >= t1 + Sleep(b1, n, t1))
    ensures var b1 := Attempt(b, n, t0);
            Grants(b1, n, t1) || Grants(Attempt(b1, n, t1), n, t2)
  {
    hide Over, Attempt, Refilled, Truncated, Shortfall, Need;
    var b1 := Attempt(b, n, t0);
    AttemptKeepsShape(b, n, t0);
    SleepBrings(b, n, t0);
    SleepRefills(b, n, t0, Sleep(b, n, t0), t1);
    if !Grants(b1, n, t1) {
      AttemptKeepsShape(b1, n, t1);
      SleepBrings(b1, n, t1);
      SleepRefills(b1, n, t1, Sleep(b1, n, t1), t2);
      OverGrows(1.0 / NANO, MILLISECOND, b.rate);
    }
  }
}
