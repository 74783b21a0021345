/**
 Sequences of requests served one after another by a single bucket: what a
 run of allowRequest calls admits, and the budget it can never exceed.
 */
module Traces {
  import opened Bucket

  /** One call of allowRequest: the instant it is served and its cost. */
  datatype Request = Request(now: int, tokens: int)

  /** The answers to a run of requests, the tokens they debited, and the bucket after them. */
  datatype Trace = Trace(decisions: seq<bool>, spent: real, final: State)

  /** Serve `reqs` in order, starting from bucket `s`. */
  function Replay(s: State, reqs: seq<Request>): (t: Trace)
    ensures |t.decisions| == |reqs|
    ensures t.final.maxBucketSize == s.maxBucketSize && t.final.refillRate == s.refillRate
    ensures reqs != [] ==> t.final.lastRefillTimestamp == reqs[|reqs| - 1].now
    ensures reqs == [] ==> t.final == s
    decreases |reqs|
  {
    if reqs == [] then Trace([], 0.0, s)
    else
      var o := AllowRequest(s, reqs[0].now, reqs[0].tokens);
      var rest := Replay(o.after, reqs[1..]);
      var debit := if o.allowed then reqs[0].tokens as real else 0.0;
      Trace([o.allowed] + rest.decisions, debit + rest.spent, rest.final)
  }

  /** Requests with non-negative costs, served no earlier than `start` and in time order. */
  predicate InOrder(start: int, reqs: seq<Request>)
    decreases |reqs|
  {
    reqs == [] ||
    (start <= reqs[0].now && reqs[0].tokens >= 0 && InOrder(reqs[0].now, reqs[1..]))
  }

  /** How many requests were admitted. */
  function Admitted(decisions: seq<bool>): (n: nat)
    ensures n <= |decisions|
  {
    if decisions == [] then 0
    else (if decisions[0] then 1 else 0) + Admitted(decisions[1..])
  }

  /** `n` requests of cost 1, all served at instant `now`. */
  function Burst(now: int, n: nat): (reqs: seq<Request>)
    ensures |reqs| == n
    ensures forall i :: 0 <= i < n ==> reqs[i] == Request(now, 1)
  {
    if n == 0 then [] else [Request(now, 1)] + Burst(now, n - 1)
  }

  /** Every reachable bucket satisfies the invariant 0 <= level <= limit. */
  lemma {:induction false} ReplayValid(s: State, reqs: seq<Request>)
    requires Valid(s)
    requires InOrder(s.lastRefillTimestamp, reqs)
    ensures Valid(Replay(s, reqs).final)
    decreases |reqs|
  {
    if reqs != [] {
      ReplayValid(AllowRequest(s, reqs[0].now, reqs[0].tokens).after, reqs[1..]);
    }
  }

  /**
   No tokens are created: what a run debits plus what is left never exceeds
   the starting level plus the tokens earned between the first refill instant
   and the last one.
   */
  lemma {:induction false} ReplayConserves(s: State, reqs: seq<Request>)
    requires Valid(s)
    requires InOrder(s.lastRefillTimestamp, reqs)
    ensures var t := Replay(s, reqs);
            && t.final.lastRefillTimestamp >= s.lastRefillTimestamp
            && t.spent >= 0.0
            && t.spent + t.final.currentBucketSize
               <= s.currentBucketSize
                  + TokensToAdd(s.refillRate, t.final.lastRefillTimestamp - s.lastRefillTimestamp)
    decreases |reqs|
  {
    if reqs != [] {
      var r := reqs[0];
      var o := AllowRequest(s, r.now, r.tokens);
      var rest := Replay(o.after, reqs[1..]);
      ReplayConserves(o.after, reqs[1..]);
      TokensToAddSplit(s.refillRate, s.lastRefillTimestamp, r.now, rest.final.lastRefillTimestamp);
      var debit := if o.allowed then r.tokens as real else 0.0;
      assert debit + o.after.currentBucketSize
             <= s.currentBucketSize + TokensToAdd(s.refillRate, r.now - s.lastRefillTimestamp);
    }
  }

  /**
   The rate limit itself: over any run, the tokens admitted are at most a full
   bucket plus the refill rate times the elapsed seconds.
   */
  lemma ReplaySpendBound(s: State, reqs: seq<Request>)
    requires Valid(s)
    requires InOrder(s.lastRefillTimestamp, reqs)
    ensures var t := Replay(s, reqs);
            t.spent <= s.maxBucketSize as real
                       + TokensToAdd(s.refillRate, t.final.lastRefillTimestamp - s.lastRefillTimestamp)
  {
    ReplayConserves(s, reqs);
    ReplayValid(s, reqs);
  }

  /**
   Requests of cost 1 arriving at the instant of the last refill, against an
   integral level k: because admission needs strictly more than the cost, at
   most k - 1 of them are admitted, and each admitted one takes exactly one
   token.
   */
  lemma {:induction false} SameInstantBurst(s: State, k: nat, n: nat)
    requires Valid(s)
    requires s.currentBucketSize == k as real
    ensures var t := Replay(s, Burst(s.lastRefillTimestamp, n));
            && Admitted(t.decisions) == (if k <= 1 then 0 else if n < k - 1 then n else k - 1)
            && t.final.currentBucketSize == (k - Admitted(t.decisions)) as real
    decreases n
  {
    var now := s.lastRefillTimestamp;
    if n > 0 {
      var reqs := Burst(now, n);
      assert reqs[0] == Request(now, 1) && reqs[1..] == Burst(now, n - 1);
      var o := AllowRequest(s, now, 1);
      assert Refill(s, now) == s;
      var t := Replay(s, reqs);
      var rest := Replay(o.after, reqs[1..]);
      assert t.decisions == [o.allowed] + rest.decisions;
      assert t.decisions[1..] == rest.decisions;
      if k > 1 {
        SameInstantBurst(o.after, k - 1, n - 1);
      } else {
        SameInstantBurst(o.after, k, n - 1);
      }
    }
  }
}
