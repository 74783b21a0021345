/**
 The state of one token bucket as a value, and the two steps of an admission
 decision (the lazy refill and the guarded debit) as functions on it. The class
 in module Job updates its fields exactly as these functions say; the lemmas
 here state what a token bucket guarantees about those steps.

 Time is a nanosecond count supplied by the caller; the token level is a real
 number (the implementation's `double`, without rounding).
 */
module Bucket {

  /** The divisor of the refill formula: nanoseconds per second. */
  const NanosPerSecond: real := 1_000_000_000.0

  /** Configuration, token level and last-refill instant of one bucket. */
  datatype State = State(
    maxBucketSize: nat,
    refillRate: nat,
    currentBucketSize: real,
    lastRefillTimestamp: int)

  /** The bucket invariant: the level is never negative and never above the limit. */
  predicate Valid(s: State)
  {
    0.0 <= s.currentBucketSize <= s.maxBucketSize as real
  }

  /** A bucket as the constructor leaves it: full, refilled at `now`. */
  function Fresh(maxBucketSize: nat, refillRate: nat, now: int): (s: State)
    ensures s.maxBucketSize == maxBucketSize && s.refillRate == refillRate
    ensures s.lastRefillTimestamp == now
    ensures Valid(s)
    ensures s.currentBucketSize == s.maxBucketSize as real
  {
    State(maxBucketSize, refillRate, maxBucketSize as real, now)
  }

  /** Tokens earned over `elapsed` nanoseconds at `rate` tokens per second. */
  function TokensToAdd(rate: nat, elapsed: int): (t: real)
    ensures elapsed >= 0 ==> t >= 0.0
    ensures elapsed == 0 ==> t == 0.0
  {
    (elapsed * rate) as real / NanosPerSecond
  }

  /** The smaller of two levels (Math.min). */
  function Min(a: real, b: real): (m: real)
    ensures m <= a && m <= b
    ensures m == a || m == b
  {
    if a <= b then a else b
  }

  /**
   The lazy refill: credit the tokens earned since the last refill, cap the
   level at the limit, and stamp the same instant `now` as the last refill.
   */
  function Refill(s: State, now: int): (r: State)
    ensures r.maxBucketSize == s.maxBucketSize && r.refillRate == s.refillRate
    ensures r.lastRefillTimestamp == now
    ensures r.currentBucketSize <= r.maxBucketSize as real
    ensures Valid(s) && now >= s.lastRefillTimestamp ==>
              Valid(r) && r.currentBucketSize >= s.currentBucketSize
  {
    var tokensToAdd := TokensToAdd(s.refillRate, now - s.lastRefillTimestamp);
    s.(currentBucketSize := Min(s.currentBucketSize + tokensToAdd, s.maxBucketSize as real),
       lastRefillTimestamp := now)
  }

  /** The answer to one request and the bucket after it. */
  datatype Outcome = Outcome(allowed: bool, after: State)

  /**
   One call of allowRequest: refill at `now`, then admit and debit `tokens`
   exactly when the refilled level is strictly greater than `tokens`.
   */
  function AllowRequest(s: State, now: int, tokens: int): (o: Outcome)
    ensures o.allowed <==> Refill(s, now).currentBucketSize > tokens as real
    ensures o.allowed ==>
              o.after == Refill(s, now).(currentBucketSize := Refill(s, now).currentBucketSize - tokens as real)
    ensures !o.allowed ==> o.after == Refill(s, now)
    ensures tokens >= s.maxBucketSize ==> !o.allowed
    ensures Valid(s) && now >= s.lastRefillTimestamp && tokens >= 0 ==> Valid(o.after)
  {
    var refilled := Refill(s, now);
    if refilled.currentBucketSize > tokens as real then
      Outcome(true, refilled.(currentBucketSize := refilled.currentBucketSize - tokens as real))
    else
      Outcome(false, refilled)
  }

  /** Tokens earned over two adjacent intervals add up to those of the whole interval. */
  lemma TokensToAddSplit(rate: nat, t0: int, t1: int, t2: int)
    ensures TokensToAdd(rate, t1 - t0) + TokensToAdd(rate, t2 - t1) == TokensToAdd(rate, t2 - t0)
  {
    assert (t1 - t0) * rate + (t2 - t1) * rate == (t2 - t0) * rate;
  }

  /**
   Refilling first at `t1` and then at `t2` leaves the same bucket as refilling
   once at `t2`: how often the bucket is refilled does not change its level,
   which is why the refill can be done lazily on each request.
   */
  lemma RefillComposes(s: State, t1: int, t2: int)
    requires t1 <= t2
    ensures Refill(Refill(s, t1), t2) == Refill(s, t2)
  {
    TokensToAddSplit(s.refillRate, s.lastRefillTimestamp, t1, t2);
  }

  /** A second refill at the same instant adds nothing. */
  lemma RefillIdempotent(s: State, now: int)
    ensures Refill(Refill(s, now), now) == Refill(s, now)
  {
  }

  /**
   Once the level plus the tokens earned reaches the limit, the refill
   saturates at exactly the limit.
   */
  lemma RefillSaturates(s: State, now: int)
    requires s.currentBucketSize + TokensToAdd(s.refillRate, now - s.lastRefillTimestamp)
             >= s.maxBucketSize as real
    ensures Refill(s, now).currentBucketSize == s.maxBucketSize as real
  {
  }

  /**
   A clock that runs backwards makes the refill remove tokens: the
   implementation does not clamp a negative elapsed time.
   */
  lemma BackwardClockDrains(s: State, now: int)
    requires Valid(s)
    requires now < s.lastRefillTimestamp && s.refillRate > 0
    ensures Refill(s, now).currentBucketSize < s.currentBucketSize
  {
    var elapsed := now - s.lastRefillTimestamp;
    NegativeTimesPositive(elapsed, s.refillRate);
    assert TokensToAdd(s.refillRate, elapsed) < 0.0;
  }

  lemma NegativeTimesPositive(e: int, r: nat)
    requires e < 0 && r > 0
    ensures e * r < 0
  {
  }

  /**
   No starvation: after waiting long enough to refill the whole bucket, any
   request cheaper than the limit is admitted.
   */
  lemma AdmittedAfterFullRefill(s: State, now: int, tokens: int)
    requires Valid(s)
    requires (now - s.lastRefillTimestamp) * s.refillRate >= s.maxBucketSize * 1_000_000_000
    requires tokens < s.maxBucketSize
    ensures AllowRequest(s, now, tokens).allowed
    ensures AllowRequest(s, now, tokens).after.currentBucketSize
              == s.maxBucketSize as real - tokens as real
  {
    assert TokensToAdd(s.refillRate, now - s.lastRefillTimestamp) >= s.maxBucketSize as real;
    RefillSaturates(s, now);
    assert Refill(s, now).currentBucketSize == s.maxBucketSize as real;
  }

  /**
   The strict boundary: from a full bucket at the instant of its last refill,
   a request costing the whole limit is rejected and leaves the level alone,
   while one costing less is admitted and debited exactly.
   */
  lemma FullBucketBoundary(maxBucketSize: nat, refillRate: nat, now: int, tokens: int)
    ensures var o := AllowRequest(Fresh(maxBucketSize, refillRate, now), now, tokens);
            (o.allowed <==> tokens < maxBucketSize)
            && o.after.currentBucketSize
               == if o.allowed then (maxBucketSize - tokens) as real else maxBucketSize as real
  {
  }

  /**
   Below the cap, refill credits the earned tokens exactly, fractions
   included: nothing is lost to rounding between calls.
   */
  lemma RefillAccumulatesExactly(s: State, now: int)
    requires s.currentBucketSize + TokensToAdd(s.refillRate, now - s.lastRefillTimestamp)
             <= s.maxBucketSize as real
    ensures Refill(s, now).currentBucketSize
            == s.currentBucketSize + TokensToAdd(s.refillRate, now - s.lastRefillTimestamp)
  {
  }

  /**
   A positive level stays positive across a request on a forward clock: the
   refill does not lower it, and a debit happens only when the level is
   strictly greater than the cost. So a bucket with a positive limit never
   empties completely.
   */
  lemma LevelStaysPositive(s: State, now: int, tokens: int)
    requires Valid(s) && s.currentBucketSize > 0.0
    requires now >= s.lastRefillTimestamp
    ensures AllowRequest(s, now, tokens).after.currentBucketSize > 0.0
  {
  }

  /**
   Refill accumulates fractional time exactly: an empty bucket of 10 refilled
   at 5 tokens per second for one second holds 5 tokens, so a request of cost 4
   is admitted and leaves 1.
   */
  lemma RefillAccumulates()
    ensures var o := AllowRequest(State(10, 5, 0.0, 0), 1_000_000_000, 4);
            o.allowed && o.after.currentBucketSize == 1.0
  {
  }
}
