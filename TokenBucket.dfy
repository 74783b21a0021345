/**
 The rate limiter of package rateLimiter.job: one bucket object per client,
 whose token level and last-refill instant are updated in place by each
 request. The clock is the `now` argument of the constructor and the methods.
 */
module Job {
  import Bucket

  class TokenBucket {
    /** The limit and the rate never change once the bucket exists. */
    const maxBucketSize: nat
    const refillRate: nat

    var currentBucketSize: real
    var lastRefillTimestamp: int

    /** The fields of this bucket as a value. */
    function Snapshot(): (s: Bucket.State)
      reads this
      ensures s.maxBucketSize == maxBucketSize && s.refillRate == refillRate
    {
      Bucket.State(maxBucketSize, refillRate, currentBucketSize, lastRefillTimestamp)
    }

    /** The object invariant: 0 <= currentBucketSize <= maxBucketSize. */
    ghost predicate Valid()
      reads this
    {
      Bucket.Valid(Snapshot())
    }

    /** A new bucket starts full, with `now` as its last refill. */
    constructor (maxBucketSize: nat, refillRate: nat, now: int)
      ensures Valid()
      ensures this.maxBucketSize == maxBucketSize && this.refillRate == refillRate
      ensures currentBucketSize == maxBucketSize as real
      ensures lastRefillTimestamp == now
      ensures Snapshot() == Bucket.Fresh(maxBucketSize, refillRate, now)
    {
      this.maxBucketSize := maxBucketSize;
      this.refillRate := refillRate;
      currentBucketSize := maxBucketSize as real;
      lastRefillTimestamp := now;
    }

    /**
     Credits the tokens earned since the last refill, capped at the limit, and
     records `now` as the last refill.
     */
    method Refill(now: int)
      requires Valid()
      requires now >= lastRefillTimestamp
      modifies this
      ensures Valid()
      ensures Snapshot() == Bucket.Refill(old(Snapshot()), now)
      ensures old(currentBucketSize) <= currentBucketSize <= maxBucketSize as real
      ensures lastRefillTimestamp == now
    {
      var tokensToAdd := Bucket.TokensToAdd(refillRate, now - lastRefillTimestamp);
      currentBucketSize := Bucket.Min(currentBucketSize + tokensToAdd, maxBucketSize as real);
      lastRefillTimestamp := now;
    }

    /**
     Refills, then admits the request and debits `tokens` exactly when the
     refilled level is strictly greater than `tokens`; a rejected request
     leaves the refilled level as it is.
     */
    method AllowRequest(now: int, tokens: int) returns (allowed: bool)
      requires Valid()
      requires now >= lastRefillTimestamp
      requires tokens >= 0
      modifies this
      ensures Valid()
      ensures var refilled := Bucket.Refill(old(Snapshot()), now);
              && (allowed <==> refilled.currentBucketSize > tokens as real)
              && currentBucketSize == (if allowed then refilled.currentBucketSize - tokens as real
                                       else refilled.currentBucketSize)
              && lastRefillTimestamp == now
      ensures tokens >= maxBucketSize ==> !allowed
      ensures Bucket.AllowRequest(old(Snapshot()), now, tokens) == Bucket.Outcome(allowed, Snapshot())
    {
      Refill(now);
      if currentBucketSize > tokens as real {
        currentBucketSize := currentBucketSize - tokens as real;
        return true;
      }
      return false;
    }
  }

  /**
   A client of the class: the situations the bucket is meant to handle, as
   callers see them through the method contracts alone.
   */
  method Client() {
    // A full bucket of 10 at a negligible elapsed time: cost 10 is rejected,
    // cost 9 is admitted and leaves exactly 1 token.
    var b := new TokenBucket(10, 5, 0);
    var ok := b.AllowRequest(0, 10);
    assert !ok && b.currentBucketSize == 10.0;
    ok := b.AllowRequest(0, 9);
    assert ok && b.currentBucketSize == 1.0;

    // Cost 1 against the 1 token left is rejected (strict boundary); one
    // second later at 5 tokens per second, cost 4 is admitted and leaves 2.
    ok := b.AllowRequest(0, 1);
    assert !ok && b.currentBucketSize == 1.0;
    ok := b.AllowRequest(1_000_000_000, 4);
    assert ok && b.currentBucketSize == 2.0;

    // Ten seconds at 100 tokens per second saturate a bucket of 10.
    var d := new TokenBucket(10, 100, 0);
    ok := d.AllowRequest(0, 9);
    ok := d.AllowRequest(10_000_000_000, 0);
    assert ok && d.currentBucketSize == 10.0;
  }
}
