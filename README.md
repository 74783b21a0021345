# Token-bucket rate limiter

This project models `TokenBucket`, the single-client token-bucket rate limiter
of the `rateLimiter.job` package, and proves properties of it. A bucket has two
fixed settings: a limit (`maxBucketSize`) and a refill rate (`refillRate`,
tokens per second). It also has two mutable fields: a fractional token level
(`currentBucketSize`) and the instant of its last refill (`lastRefillTimestamp`,
in nanoseconds). A new bucket starts full. Each `allowRequest(tokens)` call does
two steps in order:

1. It refills lazily. It adds `elapsed * refillRate / 1e9` tokens for the
   nanoseconds elapsed since the last refill, caps the level at the limit, and
   records the same instant as the last refill.
2. It admits the request and debits exactly `tokens` only when the refilled
   level is strictly greater than `tokens`.

The project has three modules:

- `Bucket` (Bucket.dfy): the bucket state as a value. Refill and the
  admission decision are functions on that value, and the lemmas about single
  steps live here.
- `Job` (TokenBucket.dfy): the class `TokenBucket`. It has `const` fields for
  the limit and the rate, and `var` fields for the level and the timestamp.
  Its `Refill` and `AllowRequest` methods update those fields in place. Each
  method is proved to keep `Valid()` (0 <= level <= limit) and to leave the
  fields exactly as the `Bucket` functions say. The `Client` method derives the
  expected admission scenarios from the method contracts alone.
- `Traces` (Traces.dfy): runs of requests served one after another. The
  lemmas here prove that the invariant holds for every reachable state. They
  prove that no tokens are created, and that the admitted cost over a run is at
  most a full bucket plus rate times elapsed seconds. They also count
  admissions in a burst of requests at one instant.

The clock (`System.nanoTime()`) is an explicit `now` argument to the
constructor and to both methods. The methods require `now` to be at least the
last-refill instant and `tokens` to be non-negative. These are the conditions
under which the invariant holds. The `Bucket` functions themselves are total:
they compute what the code computes for any clock value and any cost.

Edge cases of the code that the model keeps as they are:

- The constructor accepts a zero limit or rate (TokenBucket.java:21-23).
  There is no error path, and the parameters are `nat`.
- A negative elapsed time is not clamped (TokenBucket.java:60).
  `Bucket.BackwardClockDrains` proves that such a refill removes tokens.
- N unit requests against an integral level K, all at the instant of the last
  refill, admit min(N, K-1) of them, and none when K <= 1, because the
  comparison is the strict `>`.
  `Traces.SameInstantBurst` proves this.
- With a positive limit, an admission always leaves a strictly positive level,
  so the class never reaches 0 (`Bucket.LevelStaysPositive`).
  `Bucket.RefillAccumulates` starts from an empty bucket and is therefore
  stated on the value model; `Bucket.RefillAccumulatesExactly` states the same
  accumulation for every state below the cap.

## Model

| member | source | states |
|---|---|---|
| `Bucket.Fresh` | server/src/main/java/rateLimiter/job/TokenBucket.java:21-28 | a new bucket carries the given limit and rate, is full (level equals the limit), has the construction instant as its last refill, and satisfies the invariant |
| `Bucket.TokensToAdd` | server/src/main/java/rateLimiter/job/TokenBucket.java:60 | the credit for elapsed nanoseconds is non-negative when time does not run backward, and zero when no time has elapsed |
| `Bucket.Min` | server/src/main/java/rateLimiter/job/TokenBucket.java:63 | Math.min: the result is one of the two arguments and is at most each of them |
| `Bucket.Refill` | server/src/main/java/rateLimiter/job/TokenBucket.java:56-65 | refill keeps the limit and the rate, stamps `now`, never leaves the level above the limit, and, for a valid bucket and a forward clock, keeps the invariant and never lowers the level |
| `Bucket.AllowRequest` | server/src/main/java/rateLimiter/job/TokenBucket.java:37-51 | admitted exactly when the refilled level is strictly greater than the cost; on admission the level is the refilled level minus exactly the cost; on rejection the bucket is the refilled one; a cost at or above the limit is never admitted; the invariant is preserved for a forward clock and a non-negative cost |
| `Bucket.TokensToAddSplit` | server/src/main/java/rateLimiter/job/TokenBucket.java:60 | the credits for two adjacent intervals add up to the credit for the whole interval |
| `Bucket.RefillComposes` | server/src/main/java/rateLimiter/job/TokenBucket.java:56-64 | for any state and any t1 <= t2, refilling at t1 and then at t2 gives the same bucket as one refill at t2, so lazy refill does not depend on how often requests arrive |
| `Bucket.RefillIdempotent` | server/src/main/java/rateLimiter/job/TokenBucket.java:57-64 | because the timestamp is the same `now` sample used for the elapsed time, a second refill at the same instant changes nothing |
| `Bucket.RefillSaturates` | server/src/main/java/rateLimiter/job/TokenBucket.java:60-63 | whenever the level plus the earned tokens reaches the limit, the refilled level is exactly the limit; with `RefillAccumulatesExactly` this gives the refilled level as the minimum of the sum and the limit in every case |
| `Bucket.BackwardClockDrains` | server/src/main/java/rateLimiter/job/TokenBucket.java:57-63 | a clock earlier than the last refill, with a positive rate, lowers the level, because a negative elapsed time is not clamped |
| `Bucket.AdmittedAfterFullRefill` | server/src/main/java/rateLimiter/job/TokenBucket.java:40-46 | no permanent lockout: once the elapsed time times the rate has earned a full bucket (limit / rate seconds), any cost below the limit is admitted and leaves the limit minus the cost |
| `Bucket.FullBucketBoundary` | server/src/main/java/rateLimiter/job/TokenBucket.java:21-50 | from a new bucket with no time elapsed, a request is admitted exactly when its cost is below the limit (cost equal to the limit is rejected); the level afterwards is the limit minus the cost, or the limit if rejected |
| `Bucket.RefillAccumulatesExactly` | server/src/main/java/rateLimiter/job/TokenBucket.java:60-63 | whenever the level plus the earned tokens stays within the limit, the refilled level is exactly that sum, fractions included |
| `Bucket.LevelStaysPositive` | server/src/main/java/rateLimiter/job/TokenBucket.java:40-50 | on a forward clock, a request against a valid bucket with a positive level leaves a positive level, admitted or not |
| `Bucket.RefillAccumulates` | server/src/main/java/rateLimiter/job/TokenBucket.java:40-46 | an empty bucket of 10 at 5 tokens per second holds 5 tokens after one second, so cost 4 is admitted and leaves exactly 1 |
| `Job.TokenBucket.Snapshot` | server/src/main/java/rateLimiter/job/TokenBucket.java:11-15 | the value view of the object carries the object's limit and rate |
| `Job.TokenBucket.constructor` | server/src/main/java/rateLimiter/job/TokenBucket.java:21-28 | the limit and rate are the arguments, the level equals the limit, the last refill is the construction instant, and the invariant holds |
| `Job.TokenBucket.Refill` | server/src/main/java/rateLimiter/job/TokenBucket.java:56-65 | the new fields are those of `Bucket.Refill` on the old fields; the level does not decrease and stays at most the limit; the timestamp becomes `now`; the invariant is kept |
| `Job.TokenBucket.AllowRequest` | server/src/main/java/rateLimiter/job/TokenBucket.java:37-51 | the result is true exactly when the refilled level is strictly greater than the cost; the level is debited by exactly the cost on admission and stays at the refilled level on rejection; a cost at or above the limit is rejected; the invariant is kept; the result and new fields equal `Bucket.AllowRequest` on the old fields |
| `Traces.Replay` | server/src/main/java/rateLimiter/job/TokenBucket.java:37-51 | serving a run of requests gives one answer per request, keeps the limit and rate, and leaves the last request's instant as the last refill |
| `Traces.ReplayValid` | server/src/main/java/rateLimiter/job/TokenBucket.java:43-63 | every state reachable by in-order requests with non-negative costs satisfies 0 <= level <= limit |
| `Traces.ReplayConserves` | server/src/main/java/rateLimiter/job/TokenBucket.java:43-63 | the tokens debited over a run plus the final level never exceed the starting level plus the tokens earned over the run's time span |
| `Traces.ReplaySpendBound` | server/src/main/java/rateLimiter/job/TokenBucket.java:43-63 | over any run, the admitted cost is at most a full bucket plus the refill rate times the elapsed seconds |
| `Traces.SameInstantBurst` | server/src/main/java/rateLimiter/job/TokenBucket.java:43-50 | n unit requests at the last-refill instant against an integral level k admit min(n, k - 1) of them (none when k <= 1); each admitted request takes exactly one token |

## Left out

- The wall clock `System.nanoTime()` is replaced by the caller-supplied `now` argument.
- The `synchronized` mutual exclusion of `allowRequest` is not modelled, since it is a concurrency concern. The model has one sequential caller. Because each call is atomic, `Traces.Replay` (requests served one after another) describes any interleaving of whole calls.
- IEEE `double` arithmetic and its rounding in `currentBucketSize` and in the `/ 1e9` division are not modelled. The level is an exact `real`.
- Overflow of the `long` product `(now - lastRefillTimestamp) * refillRate` is not modelled. Integers are unbounded.
- Job.TokenBucket.AllowRequest: requires `tokens >= 0`, although the Java method accepts any `int`. A negative cost would raise the level above the limit. The pure `Bucket.AllowRequest` still accepts any cost.
- Job.TokenBucket.Refill: requires `now >= lastRefillTimestamp`, and so does `Job.TokenBucket.AllowRequest`, because the invariant needs a forward clock. The pure `Bucket.Refill` still computes the backward case.
- Negative `maxBucketSize` or `refillRate` are excluded by the `nat` parameter types. The Java constructor takes them unchecked.
- The client-key, rule-configuration and cache collaborators named in the class comment are not part of this model. They appear in no code of the class.
