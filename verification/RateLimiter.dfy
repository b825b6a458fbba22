/** include/task_engine/rate_limiter.hpp: token buckets, one per category. Clock readings are
    integers in nanoseconds and do not decrease; intervals are in milliseconds. */
module RateLimiters {
  import opened Arithmetic

  datatype RateLimit = RateLimit(maxTokens: nat, refillInterval: int, refillAmount: int)

  datatype Bucket = Bucket(limit: RateLimit, tokens: nat, lastRefill: int)

  /** What a bucket needs to be asked: an interval of zero is divided by, and a product below zero
      would become a huge number of tokens. */
  predicate ValidLimit(limit: RateLimit) {
    limit.refillInterval > 0 && limit.refillAmount >= 0
  }

  function NewBucket(limit: RateLimit, now: int): Bucket {
    Bucket(limit, limit.maxTokens, now)
  }

  /** `duration_cast<milliseconds>` of a duration that is not negative. */
  function ElapsedMillis(since: int, now: int): nat
    requires since <= now
  {
    (now - since) / NANOS_PER_MILLI
  }

  /** The refill of `try_acquire`: whole intervals only, and what is left over is dropped. */
  function Refilled(b: Bucket, now: int): Bucket
    requires ValidLimit(b.limit) && b.lastRefill <= now
  {
    var elapsed := ElapsedMillis(b.lastRefill, now);
    if elapsed >= b.limit.refillInterval then
      b.(tokens := Min(b.limit.maxTokens, b.tokens + elapsed / b.limit.refillInterval * b.limit.refillAmount),
         lastRefill := now)
    else b
  }

  predicate Grants(b: Bucket, now: int)
    requires ValidLimit(b.limit) && b.lastRefill <= now
  {
    Refilled(b, now).tokens > 0
  }

  function Acquired(b: Bucket, now: int): Bucket
    requires ValidLimit(b.limit) && b.lastRefill <= now
  {
    var r := Refilled(b, now);
    if r.tokens > 0 then r.(tokens := r.tokens - 1) else r
  }

  // ---- one bucket over a run of requests

  ghost predicate NonDecreasing(times: seq<int>, from: int) {
    && (forall i :: 0 <= i < |times| ==> from <= times[i])
    && (forall i, j :: 0 <= i < j < |times| ==> times[i] <= times[j])
  }

  /** The bucket after requests at the given times. */
  ghost function After(b: Bucket, times: seq<int>): (r: Bucket)
    requires ValidLimit(b.limit) && NonDecreasing(times, b.lastRefill)
    ensures r.limit == b.limit
    ensures b.lastRefill <= r.lastRefill <= if times == [] then b.lastRefill else times[|times| - 1]
    decreases |times|
  {
    if times == [] then b else Acquired(After(b, times[..|times| - 1]), times[|times| - 1])
  }

  /** How many of the requests were granted. */
  ghost function Granted(b: Bucket, times: seq<int>): nat
    requires ValidLimit(b.limit) && NonDecreasing(times, b.lastRefill)
    decreases |times|
  {
    if times == [] then 0 else
      Granted(b, times[..|times| - 1]) + if Grants(After(b, times[..|times| - 1]), times[|times| - 1]) then 1 else 0
  }

  /** Whole intervals between two readings, in one division. */
  ghost function Intervals(limit: RateLimit, since: int, now: int): int
    requires ValidLimit(limit)
  {
    (now - since) / (limit.refillInterval * NANOS_PER_MILLI)
  }

  // ---- floors

  /** Truncating to milliseconds first loses nothing. */
  lemma FloorOfFloor(x: nat, a: nat, b: nat)
    requires a > 0 && b > 0
    ensures b * a > 0 && (x / a) / b == x / (b * a)
  {
    var m, q := x / a, (x / a) / b;
    assert x == a * m + x % a;
    assert m == b * q + m % b;
    assert a * m == a * (b * q) + a * (m % b);
    assert a * (b * q) == (b * a) * q;
    var r := a * (m % b) + x % a;
    assert r < b * a by {
      assert m % b <= b - 1;
      ProductMonotone(a, m % b, b - 1);
      assert a * (b - 1) == a * b - a;
    }
    assert b * a > 0 by {
      ProductMonotone(a, 1, b);
    }
    Divided(x, b * a, q, r);
  }

  /** Floors are superadditive: dropping remainders never gains an interval. */
  lemma FloorsAdd(x: int, y: int, c: int)
    requires c > 0
    ensures x / c + y / c <= (x + y) / c
  {
    var q := x / c + y / c;
    var r := x % c + y % c;
    assert x + y == c * q + r;
    var d := (x + y) / c - q;
    assert c * d == r - (x + y) % c;
    Multiples(c, d);
  }

  lemma FloorMonotone(x: int, y: int, c: int)
    requires c > 0 && x <= y
    ensures x / c <= y / c
  {
    FloorsAdd(x, y - x, c);
    assert (y - x) / c >= 0;
  }

  // ---- the bounds

  lemma RefillIntervals(b: Bucket, now: int)
    requires ValidLimit(b.limit) && b.lastRefill <= now
    ensures ElapsedMillis(b.lastRefill, now) / b.limit.refillInterval == Intervals(b.limit, b.lastRefill, now)
  {
    FloorOfFloor(now - b.lastRefill, NANOS_PER_MILLI, b.limit.refillInterval);
  }

  /** No more tokens than the cap, ever. */
  lemma {:induction false} TokensNeverExceedTheCap(b: Bucket, times: seq<int>)
    requires ValidLimit(b.limit) && NonDecreasing(times, b.lastRefill)
    requires b.tokens <= b.limit.maxTokens
    ensures After(b, times).tokens <= b.limit.maxTokens
    decreases |times|
  {
    if times != [] {
      TokensNeverExceedTheCap(b, times[..|times| - 1]);
    }
  }

  /** One request keeps the account: what has been granted and what is in the bucket was there at
      the start or came from whole intervals. */
  lemma {:induction false} Account(b: Bucket, times: seq<int>)
    requires ValidLimit(b.limit) && NonDecreasing(times, b.lastRefill)
    ensures Granted(b, times) + After(b, times).tokens
            <= b.tokens + b.limit.refillAmount * Intervals(b.limit, b.lastRefill, After(b, times).lastRefill)
    decreases |times|
  {
    var limit, t0 := b.limit, b.lastRefill;
    var c := limit.refillInterval * NANOS_PER_MILLI;
    if times == [] {
      assert Intervals(limit, t0, t0) == 0;
    } else {
      var n := |times| - 1;
      var prev, now := After(b, times[..n]), times[n];
      Account(b, times[..n]);
      var next := Refilled(prev, now);
      RefillIntervals(prev, now);
      FloorsAdd(prev.lastRefill - t0, now - prev.lastRefill, c);
      var before, more, after := Intervals(limit, t0, prev.lastRefill), Intervals(limit, prev.lastRefill, now),
          Intervals(limit, t0, now);
      assert before + more <= after;
      if next.lastRefill == now && next != prev {
        assert next.tokens <= prev.tokens + more * limit.refillAmount;
        ScaledSum(limit.refillAmount, before, more, after);
      }
    }
  }

  lemma ScaledSum(a: nat, x: int, y: int, z: int)
    requires x + y <= z
    ensures a * x + y * a <= a * z
  {
    assert a * x + a * y == a * (x + y);
    assert a * (x + y) <= a * z;
  }

  /** From its creation a bucket grants at most its cap and one refill for every whole interval. */
  lemma GrantsSinceCreation(limit: RateLimit, created: int, times: seq<int>, now: int)
    requires ValidLimit(limit) && NonDecreasing(times, created)
    requires created <= now && forall i :: 0 <= i < |times| ==> times[i] <= now
    ensures Granted(NewBucket(limit, created), times) <= limit.maxTokens
            + limit.refillAmount * Intervals(limit, created, now)
  {
    var b := NewBucket(limit, created);
    Account(b, times);
    var last := After(b, times).lastRefill;
    FloorMonotone(last - created, now - created, limit.refillInterval * NANOS_PER_MILLI);
    assert limit.refillAmount * Intervals(limit, created, last)
           <= limit.refillAmount * Intervals(limit, created, now) by {
      ScaledSum(limit.refillAmount, Intervals(limit, created, last), 0, Intervals(limit, created, now));
    }
  }

  /** In any window the grants are at most two caps and one refill for every whole interval of the
      window: a full bucket at its start, and a refill that began before it. */
  lemma {:induction false} GrantsInAWindow(b: Bucket, times: seq<int>, start: int, end: int)
    requires ValidLimit(b.limit) && b.lastRefill <= start <= end
    requires NonDecreasing(times, start) && forall i :: 0 <= i < |times| ==> times[i] <= end
    requires b.tokens <= b.limit.maxTokens
    ensures Granted(b, times) <= 2 * b.limit.maxTokens + b.limit.refillAmount * Intervals(b.limit, start, end)
    decreases |times|
  {
    WindowAccount(b, times, start);
    var last := After(b, times).lastRefill;
    var limit := b.limit;
    assert Intervals(limit, start, end) >= 0 by {
      FloorMonotone(0, end - start, limit.refillInterval * NANOS_PER_MILLI);
    }
    if last != b.lastRefill {
      FloorMonotone(last - start, end - start, limit.refillInterval * NANOS_PER_MILLI);
      ScaledSum(limit.refillAmount, Intervals(limit, start, last), 0, Intervals(limit, start, end));
    } else {
      ScaledSum(limit.refillAmount, 0, 0, Intervals(limit, start, end));
    }
  }

  lemma {:induction false} WindowAccount(b: Bucket, times: seq<int>, start: int)
    requires ValidLimit(b.limit) && b.lastRefill <= start
    requires NonDecreasing(times, start)
    requires b.tokens <= b.limit.maxTokens
    ensures var r := After(b, times);
            if r.lastRefill == b.lastRefill then Granted(b, times) + r.tokens <= b.limit.maxTokens
            else r.lastRefill >= start
                 && Granted(b, times) + r.tokens <= 2 * b.limit.maxTokens
                    + b.limit.refillAmount * Intervals(b.limit, start, r.lastRefill)
    decreases |times|
  {
    if times != [] {
      var limit := b.limit;
      var n := |times| - 1;
      var prev, now := After(b, times[..n]), times[n];
      WindowAccount(b, times[..n], start);
      var next := Refilled(prev, now);
      if next.lastRefill != prev.lastRefill {
        if prev.lastRefill == b.lastRefill {
          assert Granted(b, times[..n]) <= limit.maxTokens && next.tokens <= limit.maxTokens;
          FloorMonotone(0, now - start, limit.refillInterval * NANOS_PER_MILLI);
          ScaledSum(limit.refillAmount, 0, 0, Intervals(limit, start, now));
        } else {
          RefillIntervals(prev, now);
          FloorsAdd(prev.lastRefill - start, now - prev.lastRefill, limit.refillInterval * NANOS_PER_MILLI);
          ScaledSum(limit.refillAmount, Intervals(limit, start, prev.lastRefill),
              Intervals(limit, prev.lastRefill, now),
                    Intervals(limit, start, now));
        }
      }
    }
  }

  /** A waiter gets its token once one whole interval has passed since the last refill, however the
      requests before that were spread. */
  lemma {:induction false} WaitingEnds(b: Bucket, times: seq<int>)
    requires ValidLimit(b.limit) && NonDecreasing(times, b.lastRefill)
    requires b.limit.maxTokens > 0 && b.limit.refillAmount > 0
    requires times != [] && ElapsedMillis(b.lastRefill, times[|times| - 1]) >= b.limit.refillInterval
    ensures Granted(b, times) > 0
    decreases |times|
  {
    var n := |times| - 1;
    var prev, now := After(b, times[..n]), times[n];
    if Granted(b, times[..n]) == 0 {
      NoGrantNoRefill(b, times[..n]);
      var k := ElapsedMillis(prev.lastRefill, now) / b.limit.refillInterval;
      AtLeastOne(ElapsedMillis(prev.lastRefill, now), b.limit.refillInterval);
      ProductMonotone(b.limit.refillAmount, 1, k);
    }
  }

  lemma AtLeastOne(x: nat, c: nat)
    requires 0 < c <= x
    ensures x / c >= 1
  {
  }

  lemma {:induction false} NoGrantNoRefill(b: Bucket, times: seq<int>)
    requires ValidLimit(b.limit) && NonDecreasing(times, b.lastRefill)
    requires b.limit.maxTokens > 0 && b.limit.refillAmount > 0
    requires Granted(b, times) == 0
    ensures After(b, times).lastRefill == b.lastRefill
    decreases |times|
  {
    if times != [] {
      var n := |times| - 1;
      NoGrantNoRefill(b, times[..n]);
      var prev, now := After(b, times[..n]), times[n];
      if ElapsedMillis(prev.lastRefill, now) >= b.limit.refillInterval {
        AtLeastOne(ElapsedMillis(prev.lastRefill, now), b.limit.refillInterval);
        ProductMonotone(b.limit.refillAmount, 1, ElapsedMillis(prev.lastRefill, now) / b.limit.refillInterval);
        assert false;
      }
    }
  }

  // ---- exactly how many

  /** Whole intervals between two readings in nanoseconds, an interval being so many milliseconds. */
  function WholeIntervals(interval: int, since: int, now: int): int
    requires interval > 0
  {
    (now - since) / (1_000_000 * interval)
  }

  lemma RefillIff(b: Bucket, now: int)
    requires ValidLimit(b.limit) && b.lastRefill <= now
    ensures var k := WholeIntervals(b.limit.refillInterval, b.lastRefill, now);
            && k >= 0 && (k >= 1 <==> now - b.lastRefill >= 1_000_000 * b.limit.refillInterval)
            && Refilled(b, now)
               == if k == 0 then b
                  else b.(tokens := Min(b.limit.maxTokens, b.tokens + b.limit.refillAmount * k), lastRefill := now)
  {
    var c := b.limit.refillInterval * NANOS_PER_MILLI;
    RefillIntervals(b, now);
    var x := now - b.lastRefill;
    assert x == c * (x / c) + x % c;
    Multiples(c, x / c);
    var e := ElapsedMillis(b.lastRefill, now);
    assert e == b.limit.refillInterval * (e / b.limit.refillInterval) + e % b.limit.refillInterval;
    Multiples(b.limit.refillInterval, e / b.limit.refillInterval);
  }

  /** One request in numbers: the whole intervals since the last refill are made up for, up to the cap,
      and restart the clock; then one token goes if there is one. */
  ghost predicate IsAnswer(b: Bucket, now: int, ok: bool, b': Bucket) {
    && ValidLimit(b.limit)
    && var k := WholeIntervals(b.limit.refillInterval, b.lastRefill, now);
       var filled := if k == 0 then b.tokens else Min(b.limit.maxTokens, b.tokens + b.limit.refillAmount * k);
       && ok == (filled > 0)
       && b'.tokens == (if ok then filled - 1 else filled)
       && b'.limit == b.limit && b'.lastRefill == if k == 0 then b.lastRefill else now
  }

  lemma AnswerIs(b: Bucket, now: int)
    requires ValidLimit(b.limit) && b.lastRefill <= now
    ensures IsAnswer(b, now, Grants(b, now), Acquired(b, now))
  {
    hide WholeIntervals;
    RefillIff(b, now);
  }

  /** No request comes a whole interval after the reading. */
  ghost predicate WithinAnInterval(limit: RateLimit, since: int, times: seq<int>) {
    forall i :: 0 <= i < |times| ==> times[i] - since < 1_000_000 * limit.refillInterval
  }

  /** Without a whole interval a bucket grants exactly the tokens it has. */
  lemma {:induction false} GrantsWithoutRefill(b: Bucket, times: seq<int>)
    requires ValidLimit(b.limit) && NonDecreasing(times, b.lastRefill)
    requires WithinAnInterval(b.limit, b.lastRefill, times)
    ensures Granted(b, times) == Min(|times|, b.tokens)
    ensures After(b, times) == b.(tokens := b.tokens - Min(|times|, b.tokens))
    decreases |times|
  {
    if times != [] {
      var n := |times| - 1;
      GrantsWithoutRefill(b, times[..n]);
      RefillIff(After(b, times[..n]), times[n]);
    }
  }

  /** And once a whole interval has passed, exactly what the refill of all whole intervals since the last
      one makes of them, which then has to last for an interval from this request on: what was left over
      of the last interval is lost. */
  lemma GrantsAfterRefill(b: Bucket, times: seq<int>)
    requires ValidLimit(b.limit) && NonDecreasing(times, b.lastRefill)
    requires times != [] && times[0] - b.lastRefill >= 1_000_000 * b.limit.refillInterval
    requires WithinAnInterval(b.limit, times[0], times)
    ensures var k := WholeIntervals(b.limit.refillInterval, b.lastRefill, times[0]);
            Granted(b, times) == Min(|times|, Min(b.limit.maxTokens, b.tokens + b.limit.refillAmount * k))
  {
    RefillIff(b, times[0]);
    RefilledFirst(b, times);
    GrantsWithoutRefill(Refilled(b, times[0]), times);
  }

  /** The first request's refill can be taken out of the run. */
  lemma {:induction false} RefilledFirst(b: Bucket, times: seq<int>)
    requires ValidLimit(b.limit) && NonDecreasing(times, b.lastRefill)
    requires times != [] && times[0] - b.lastRefill >= 1_000_000 * b.limit.refillInterval
    ensures var r := Refilled(b, times[0]);
            && r.limit == b.limit && r.lastRefill == times[0] && NonDecreasing(times, r.lastRefill)
            && Granted(b, times) == Granted(r, times) && After(b, times) == After(r, times)
    decreases |times|
  {
    var r, n := Refilled(b, times[0]), |times| - 1;
    RefillIff(b, times[0]);
    if n == 0 {
      RefillIff(r, times[0]);
      assert times[..0] == [];
    } else {
      RefilledFirst(b, times[..n]);
    }
  }

  // ---- the limiter: one bucket per category

  type Category = string
  type Buckets = map<Category, Bucket>

  /** One call, with the two clock readings it may make: a new bucket is stamped before the refill
      is worked out. */
  datatype Call =
    | SetLimit(category: Category, limit: RateLimit, created: int, now: int)
    | TryAcquire(category: Category, created: int, now: int)

  /** What `get_bucket` finds or makes. */
  function BucketOf(fallback: RateLimit, buckets: Buckets, category: Category, created: int): Bucket {
    if category in buckets then buckets[category] else NewBucket(fallback, created)
  }

  /** Usable limits everywhere, and no bucket refilled in the future. */
  ghost predicate Fit(fallback: RateLimit, buckets: Buckets, clock: int) {
    && ValidLimit(fallback)
    && forall c :: c in buckets ==> ValidLimit(buckets[c].limit) && buckets[c].lastRefill <= clock
  }

  ghost predicate CallFits(call: Call, clock: int) {
    clock <= call.created <= call.now && (call.SetLimit? ==> ValidLimit(call.limit))
  }

  ghost predicate NotFuture(buckets: Buckets, clock: int) {
    forall c :: c in buckets ==> buckets[c].lastRefill <= clock
  }

  /** `set_limit` takes any limit; `try_acquire` divides by the interval of the one it finds. */
  ghost predicate Callable(fallback: RateLimit, buckets: Buckets, call: Call, clock: int) {
    && NotFuture(buckets, clock) && clock <= call.created <= call.now
    && (call.TryAcquire? ==> ValidLimit(BucketOf(fallback, buckets, call.category, call.created).limit))
  }

  ghost function Called(fallback: RateLimit, buckets: Buckets, call: Call, clock: int): (r: Buckets)
    requires Callable(fallback, buckets, call, clock)
    ensures NotFuture(r, call.now)
    ensures Fit(fallback, buckets, clock) && CallFits(call, clock) ==> Fit(fallback, r, call.now)
  {
    buckets[call.category :=
      if call.SetLimit? then NewBucket(call.limit, call.now)
      else Acquired(BucketOf(fallback, buckets, call.category, call.created), call.now)]
  }

  ghost predicate Allowed(fallback: RateLimit, buckets: Buckets, call: Call, clock: int)
    requires Callable(fallback, buckets, call, clock)
  {
    call.TryAcquire? && Grants(BucketOf(fallback, buckets, call.category, call.created), call.now)
  }

  class RateLimiter {
    const defaultLimit: RateLimit
    var limits: map<Category, RateLimit>
    var buckets: Buckets

    ghost predicate Valid(clock: int)
      reads this
    {
      NotFuture(buckets, clock)
    }

    constructor (limit: RateLimit, ghost clock: int)
      ensures defaultLimit == limit && limits == map[] && buckets == map[] && Valid(clock)
    {
      defaultLimit, limits, buckets := limit, map[], map[];
    }

    method SetLimit(category: Category, limit: RateLimit, now: int, ghost clock: int)
      requires Valid(clock) && clock <= now
      modifies this
      ensures limits == old(limits)[category := limit]
      ensures buckets == old(buckets)[category := Bucket(limit, limit.maxTokens, now)]
      ensures buckets == Called(defaultLimit, old(buckets), Call.SetLimit(category, limit, now, now), clock)
      ensures Valid(now)
    {
      limits := limits[category := limit];
      buckets := buckets[category := Bucket(limit, limit.maxTokens, now)];
    }

    method GetBucket(category: Category, created: int) returns (bucket: Bucket)
      modifies this`buckets
      ensures bucket == BucketOf(defaultLimit, old(buckets), category, created)
      ensures bucket == if category in old(buckets) then old(buckets)[category]
                        else Bucket(defaultLimit, defaultLimit.maxTokens, created)
      ensures buckets == old(buckets)[category := bucket]
    {
      if category !in buckets {
        buckets := buckets[category := Bucket(defaultLimit, defaultLimit.maxTokens, created)];
      }
      bucket := buckets[category];
      assert buckets == old(buckets)[category := bucket];
    }

    method TryAcquire(category: Category, created: int, now: int, ghost clock: int) returns (ok: bool)
      requires Valid(clock) && clock <= created <= now
      requires ValidLimit(BucketOf(defaultLimit, buckets, category, created).limit)
      modifies this`buckets
      ensures ok == Allowed(defaultLimit, old(buckets), Call.TryAcquire(category, created, now), clock)
      ensures buckets == Called(defaultLimit, old(buckets), Call.TryAcquire(category, created, now), clock)
      ensures category in buckets && buckets == old(buckets)[category := buckets[category]]
      ensures IsAnswer(BucketOf(defaultLimit, old(buckets), category, created), now, ok, buckets[category])
      ensures Valid(now)
    {
      hide IsAnswer;
      AnswerIs(BucketOf(defaultLimit, buckets, category, created), now);
      var bucket := GetBucket(category, created);
      var elapsed := ElapsedMillis(bucket.lastRefill, now);
      if elapsed >= bucket.limit.refillInterval {
        var more := elapsed / bucket.limit.refillInterval * bucket.limit.refillAmount;
        var filled := Min(bucket.limit.maxTokens, bucket.tokens + more);
        bucket := bucket.(tokens := filled, lastRefill := now);
      }
      ok := bucket.tokens > 0;
      if ok {
        bucket := bucket.(tokens := bucket.tokens - 1);
      }
      buckets := buckets[category := bucket];
    }
  }

  // ---- runs of calls on all categories

  ghost predicate Timed(calls: seq<Call>, clock: int)
    decreases |calls|
  {
    calls == [] || (CallFits(calls[0], clock) && Timed(calls[1..], calls[0].now))
  }

  /** The answers that `try_acquire` gives for one category, in order. */
  ghost function Answers(fallback: RateLimit, buckets: Buckets, calls: seq<Call>, clock: int,
                         category: Category): seq<bool>
    requires Fit(fallback, buckets, clock) && Timed(calls, clock)
    decreases |calls|
  {
    if calls == [] then [] else
      (if calls[0].TryAcquire? && calls[0].category == category
       then [Allowed(fallback, buckets, calls[0], clock)] else [])
      + Answers(fallback, Called(fallback, buckets, calls[0], clock), calls[1..], calls[0].now, category)
  }

  ghost function CallsOf(calls: seq<Call>, category: Category): seq<Call> {
    if calls == [] then [] else
      (if calls[0].category == category then [calls[0]] else []) + CallsOf(calls[1..], category)
  }

  lemma {:induction false} TimedOwnCalls(calls: seq<Call>, clock: int, earlier: int, category: Category)
    requires Timed(calls, clock) && earlier <= clock
    ensures Timed(CallsOf(calls, category), earlier)
    decreases |calls|
  {
    if calls != [] {
      var rest := CallsOf(calls[1..], category);
      if calls[0].category == category {
        TimedOwnCalls(calls[1..], calls[0].now, calls[0].now, category);
        assert ([calls[0]] + rest)[1..] == rest;
      } else {
        TimedOwnCalls(calls[1..], calls[0].now, earlier, category);
        assert CallsOf(calls, category) == rest;
      }
    }
  }

  /** Categories do not interfere: the answers for one are those it would get with every call for
      another category left out. */
  lemma {:induction false} CategoriesDoNotInterfere(fallback: RateLimit, calls: seq<Call>, clock: int,
                                                    category: Category,
                                                    mixed: Buckets, alone: Buckets, earlier: int)
    requires Fit(fallback, mixed, clock) && Fit(fallback, alone, earlier) && earlier <= clock
    requires Timed(calls, clock)
    requires category in mixed <==> category in alone
    requires category in mixed ==> mixed[category] == alone[category]
    ensures Timed(CallsOf(calls, category), earlier)
    ensures Answers(fallback, mixed, calls, clock, category)
            == Answers(fallback, alone, CallsOf(calls, category), earlier, category)
    decreases |calls|
  {
    TimedOwnCalls(calls, clock, earlier, category);
    if calls != [] {
      var call, rest, own := calls[0], calls[1..], CallsOf(calls[1..], category);
      var next := Called(fallback, mixed, call, clock);
      if call.category == category {
        assert CallsOf(calls, category)[1..] == own;
        CategoriesDoNotInterfere(fallback, rest, call.now, category, next, Called(fallback, alone, call, earlier),
            call.now);
      } else {
        assert CallsOf(calls, category) == own;
        CategoriesDoNotInterfere(fallback, rest, call.now, category, next, alone, earlier);
      }
    }
  }

  ghost function Count(answers: seq<bool>): nat {
    if answers == [] then 0 else (if answers[0] then 1 else 0) + Count(answers[1..])
  }

  ghost function Times(calls: seq<Call>): (r: seq<int>)
    ensures |r| == |calls| && forall i :: 0 <= i < |r| ==> r[i] == calls[i].now
  {
    if calls == [] then [] else [calls[0].now] + Times(calls[1..])
  }

  /** Only requests, and only for this category. */
  ghost predicate Requests(calls: seq<Call>, category: Category) {
    forall i :: 0 <= i < |calls| ==> calls[i].TryAcquire? && calls[i].category == category
  }

  lemma {:induction false} TimedTimes(calls: seq<Call>, clock: int)
    requires Timed(calls, clock)
    ensures NonDecreasing(Times(calls), clock)
    decreases |calls|
  {
    if calls != [] {
      TimedTimes(calls[1..], calls[0].now);
      var t, rest := Times(calls), Times(calls[1..]);
      assert forall i :: 0 < i < |t| ==> t[i] == rest[i - 1];
    }
  }

  lemma AcquiredAt(b: Bucket, now: int)
    requires ValidLimit(b.limit) && b.lastRefill <= now
    ensures Acquired(b, now).limit == b.limit && b.lastRefill <= Acquired(b, now).lastRefill <= now
  {
  }

  lemma {:induction false} FirstRequest(b: Bucket, time: int, times: seq<int>)
    requires ValidLimit(b.limit) && b.lastRefill <= time && NonDecreasing(times, time)
    ensures NonDecreasing([time] + times, b.lastRefill)
    ensures After(b, [time] + times) == After(Acquired(b, time), times)
    ensures Granted(b, [time] + times) == (if Grants(b, time) then 1 else 0) + Granted(Acquired(b, time), times)
    decreases |times|
  {
    hide Grants, Acquired, Refilled;
    AcquiredAt(b, time);
    var all := [time] + times;
    var n := |all| - 1;
    if times == [] {
      assert all[..n] == [];
      assert Granted(b, all[..n]) == 0;
    } else {
      var front := times[..n - 1];
      assert all[..n] == [time] + front && all[n] == times[n - 1];
      FirstRequest(b, time, front);
      assert After(b, all[..n]) == After(Acquired(b, time), front);
    }
  }

  /** The limiter's answers for a category are the grants of that category's own bucket. */
  lemma {:induction false} AnswersAreGrants(fallback: RateLimit, buckets: Buckets, calls: seq<Call>, clock: int,
                                            category: Category)
    requires Fit(fallback, buckets, clock) && Timed(calls, clock) && Requests(calls, category)
    requires category in buckets
    ensures NonDecreasing(Times(calls), clock)
    ensures Count(Answers(fallback, buckets, calls, clock, category)) == Granted(buckets[category], Times(calls))
    decreases |calls|
  {
    TimedTimes(calls, clock);
    if calls != [] {
      var call, rest := calls[0], calls[1..];
      var next := Called(fallback, buckets, call, clock);
      AnswersAreGrants(fallback, next, rest, call.now, category);
      FirstRequest(buckets[category], call.now, Times(rest));
      var answers := Answers(fallback, buckets, calls, clock, category);
      assert answers[1..] == Answers(fallback, next, rest, call.now, category);
    }
  }

  lemma {:induction false} OwnRequests(calls: seq<Call>, category: Category, end: int)
    requires forall i :: 0 <= i < |calls| ==> calls[i].now <= end
    requires forall i :: 0 <= i < |calls| && calls[i].category == category ==> calls[i].TryAcquire?
    ensures Requests(CallsOf(calls, category), category)
    ensures forall i :: 0 <= i < |CallsOf(calls, category)| ==> CallsOf(calls, category)[i].now <= end
    decreases |calls|
  {
    if calls != [] {
      OwnRequests(calls[1..], category, end);
    }
  }

  /** The window bound seen through the whole limiter: whatever is asked of the other categories,
      a category whose limit is not set again in the window gets at most two caps and one refill
      for every whole interval of the window. */
  lemma LimiterWindowBound(fallback: RateLimit, buckets: Buckets, calls: seq<Call>, start: int, end: int,
                           category: Category)
    requires Fit(fallback, buckets, start) && Timed(calls, start) && start <= end
    requires category in buckets && buckets[category].tokens <= buckets[category].limit.maxTokens
    requires forall i :: 0 <= i < |calls| ==> calls[i].now <= end
    requires forall i :: 0 <= i < |calls| && calls[i].category == category ==> calls[i].TryAcquire?
    ensures var limit := buckets[category].limit;
            Count(Answers(fallback, buckets, calls, start, category))
            <= 2 * limit.maxTokens + limit.refillAmount * Intervals(limit, start, end)
  {
    var own := CallsOf(calls, category);
    CategoriesDoNotInterfere(fallback, calls, start, category, buckets, buckets, start);
    OwnRequests(calls, category, end);
    AnswersAreGrants(fallback, buckets, own, start, category);
    GrantsInAWindow(buckets[category], Times(own), start, end);
  }

  // ---- every state a limiter can be in

  ghost function AfterCalls(fallback: RateLimit, buckets: Buckets, calls: seq<Call>, clock: int): (r: Buckets)
    requires Fit(fallback, buckets, clock) && Timed(calls, clock)
    ensures Fit(fallback, r, ClockAfter(calls, clock))
    decreases |calls|
  {
    if calls == [] then buckets
    else AfterCalls(fallback, Called(fallback, buckets, calls[0], clock), calls[1..], calls[0].now)
  }

  ghost function ClockAfter(calls: seq<Call>, clock: int): int {
    if calls == [] then clock else ClockAfter(calls[1..], calls[0].now)
  }

  ghost predicate Capped(buckets: Buckets) {
    forall c :: c in buckets ==> buckets[c].tokens <= buckets[c].limit.maxTokens
  }

  /** No call ever puts more tokens in a bucket than its cap. */
  lemma {:induction false} CallsKeepTheCap(fallback: RateLimit, buckets: Buckets, calls: seq<Call>, clock: int)
    requires Fit(fallback, buckets, clock) && Timed(calls, clock) && Capped(buckets)
    ensures Capped(AfterCalls(fallback, buckets, calls, clock))
    decreases |calls|
  {
    if calls != [] {
      CallsKeepTheCap(fallback, Called(fallback, buckets, calls[0], clock), calls[1..], calls[0].now);
    }
  }

  /** A category first asked for in the window starts with a full bucket then. */
  lemma {:induction false} FirstCallCreates(fallback: RateLimit, buckets: Buckets, own: seq<Call>, clock: int,
                                            category: Category)
    requires Fit(fallback, buckets, clock) && Timed(own, clock) && Requests(own, category)
    requires own != [] && category !in buckets
    ensures var made := buckets[category := NewBucket(fallback, own[0].created)];
            && Fit(fallback, made, own[0].created) && Timed(own, own[0].created)
            && Answers(fallback, buckets, own, clock, category)
               == Answers(fallback, made, own, own[0].created, category)
  {
    var made := buckets[category := NewBucket(fallback, own[0].created)];
    assert Called(fallback, buckets, own[0], clock) == Called(fallback, made, own[0], own[0].created);
  }

  lemma OwnCreationBound(fallback: RateLimit, buckets: Buckets, own: seq<Call>, start: int, end: int,
                         category: Category)
    requires Fit(fallback, buckets, start) && Timed(own, start) && start <= end
    requires category !in buckets && own != [] && Requests(own, category)
    requires forall i :: 0 <= i < |own| ==> own[i].now <= end
    ensures Count(Answers(fallback, buckets, own, start, category))
            <= fallback.maxTokens + fallback.refillAmount * Intervals(fallback, start, end)
  {
    var created := own[0].created;
    var made := buckets[category := NewBucket(fallback, created)];
    assert start <= created <= own[0].now <= end;
    FirstCallCreates(fallback, buckets, own, start, category);
    AnswersAreGrants(fallback, made, own, created, category);
    hide Answers, Timed, Fit, Granted, NonDecreasing;
    GrantsSinceCreation(fallback, created, Times(own), end);
    LongerWindow(fallback, created, start, end);
  }

  lemma LongerWindow(limit: RateLimit, created: int, start: int, end: int)
    requires ValidLimit(limit) && start <= created
    ensures limit.refillAmount * Intervals(limit, created, end) <= limit.refillAmount * Intervals(limit, start, end)
  {
    FloorMonotone(end - created, end - start, limit.refillInterval * NANOS_PER_MILLI);
    ScaledSum(limit.refillAmount, Intervals(limit, created, end), 0, Intervals(limit, start, end));
  }

  /** From its first request on, a new category gets at most the default cap and one refill for every
      whole interval. */
  lemma LimiterCreationBound(fallback: RateLimit, buckets: Buckets, calls: seq<Call>, start: int, end: int,
                             category: Category)
    requires Fit(fallback, buckets, start) && Timed(calls, start) && start <= end
    requires category !in buckets
    requires forall i :: 0 <= i < |calls| ==> calls[i].now <= end
    requires forall i :: 0 <= i < |calls| && calls[i].category == category ==> calls[i].TryAcquire?
    ensures Count(Answers(fallback, buckets, calls, start, category))
            <= fallback.maxTokens + fallback.refillAmount * Intervals(fallback, start, end)
  {
    var own := CallsOf(calls, category);
    CategoriesDoNotInterfere(fallback, calls, start, category, buckets, buckets, start);
    OwnRequests(calls, category, end);
    hide Answers, Count, Intervals, CallsOf, Fit, Timed, Requests;
    if own != [] {
      OwnCreationBound(fallback, buckets, own, start, end, category);
    } else {
      NoRequests(fallback, buckets, start, end, category);
    }
  }

  lemma NoRequests(fallback: RateLimit, buckets: Buckets, start: int, end: int, category: Category)
    requires Fit(fallback, buckets, start) && start <= end
    ensures Count(Answers(fallback, buckets, [], start, category))
            <= fallback.maxTokens + fallback.refillAmount * Intervals(fallback, start, end)
  {
    LongerWindow(fallback, end, start, end);
    assert Intervals(fallback, end, end) == 0;
  }

  /** The limit in force for a category. */
  function LimitOf(fallback: RateLimit, buckets: Buckets, category: Category): RateLimit {
    if category in buckets then buckets[category].limit else fallback
  }

  /** The window bound for a limiter in use: after any calls at all on a new limiter, a category gets
      in a window at most two caps and one refill for every whole interval, as long as its limit is
      not set in the window; it need not have been asked for before. */
  lemma ReachableWindowBound(fallback: RateLimit, before: seq<Call>, clock: int, calls: seq<Call>, start: int,
                             end: int, category: Category)
    requires ValidLimit(fallback) && Timed(before, clock) && ClockAfter(before, clock) <= start <= end
    requires Timed(calls, start)
    requires forall i :: 0 <= i < |calls| ==> calls[i].now <= end
    requires forall i :: 0 <= i < |calls| && calls[i].category == category ==> calls[i].TryAcquire?
    ensures var buckets := AfterCalls(fallback, map[], before, clock);
            var limit := LimitOf(fallback, buckets, category);
            && Fit(fallback, buckets, start) && ValidLimit(limit)
            && Count(Answers(fallback, buckets, calls, start, category))
               <= 2 * limit.maxTokens + limit.refillAmount * Intervals(limit, start, end)
  {
    var buckets := AfterCalls(fallback, map[], before, clock);
    CallsKeepTheCap(fallback, map[], before, clock);
    if category in buckets {
      LimiterWindowBound(fallback, buckets, calls, start, end, category);
    } else {
      LimiterCreationBound(fallback, buckets, calls, start, end, category);
    }
  }
}
