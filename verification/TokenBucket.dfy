/** A `rate.Limiter` as internal/resilience/rate_limiter.go uses it: a token bucket that starts full.
    Time is in seconds and real-valued. */
module TokenBucket {

  datatype Bucket = Bucket(rate: real, burst: nat, tokens: real, last: real)

  datatype TenantConfig = TenantConfig(rate: real, burst: nat)

  function FullBucket(c: TenantConfig, now: real): Bucket {
    Bucket(c.rate, c.burst, c.burst as real, now)
  }

  function Gain(rate: real, span: real): real { rate * span }

  function Refill(b: Bucket, now: real): real {
    var t := b.tokens + Gain(b.rate, now - b.last);
    if t < b.burst as real then t else b.burst as real
  }

  predicate Grants(b: Bucket, n: int, now: real) {
    n as real <= Refill(b, now)
  }

  /** A refused request leaves the bucket as it was. */
  function Take(b: Bucket, n: int, now: real): Bucket {
    if Grants(b, n, now) then b.(tokens := Refill(b, now) - n as real, last := now) else b
  }

  /** The tokens up to this moment go on under another configuration. */
  function Retuned(b: Bucket, c: TenantConfig, now: real): Bucket { Bucket(c.rate, c.burst, Refill(b, now), now) }

  predicate Full(b: Bucket, now: real) { Refill(b, now) == b.burst as real }

  /** Buckets that answer alike from now on. */
  predicate Alike(a: Bucket, b: Bucket, now: real) {
    a.rate == b.rate && a.burst == b.burst && (a == b || (Full(a, now) && Full(b, now)))
  }

  lemma NonnegativeProduct(x: real, y: real)
    requires x >= 0.0 && y >= 0.0
    ensures x * y >= 0.0
  {
  }

  lemma GainNonnegative(rate: real, span: real)
    requires rate >= 0.0 && span >= 0.0
    ensures Gain(rate, span) >= 0.0
  {
    NonnegativeProduct(rate, span);
  }

  lemma GainNothing(rate: real, span: real)
    requires rate == 0.0 || span == 0.0
    ensures Gain(rate, span) == 0.0
  {
  }

  lemma GainMore(rate: real, span: real, longer: real)
    requires rate >= 0.0 && span <= longer
    ensures Gain(rate, span) <= Gain(rate, longer)
  {
    NonnegativeProduct(rate, longer - span);
    assert rate * longer == rate * span + rate * (longer - span);
  }

  lemma GainLater(rate: real, start: real, now: real, later: real)
    ensures Gain(rate, later - start) == Gain(rate, now - start) + Gain(rate, later - now)
  {
  }

  lemma RefillNonnegative(b: Bucket, now: real)
    requires b.rate >= 0.0 && b.tokens >= 0.0 && b.last <= now
    ensures Refill(b, now) >= 0.0
  {
    hide Gain;
    GainNonnegative(b.rate, now - b.last);
  }

  lemma AtMostFull(b: Bucket, now: real)
    ensures Refill(b, now) <= b.burst as real
  {
  }

  lemma StaysFull(b: Bucket, now: real, later: real)
    requires b.rate >= 0.0 && now <= later && Full(b, now)
    ensures Full(b, later)
  {
    hide Gain;
    GainNonnegative(b.rate, later - now);
    GainLater(b.rate, b.last, now, later);
  }

  lemma FullFromStart(cfg: TenantConfig, now: real)
    ensures Full(FullBucket(cfg, now), now)
  {
  }

  lemma RetunedAlike(a: Bucket, b: Bucket, next: TenantConfig, now: real)
    requires Alike(a, b, now)
    ensures Retuned(a, next, now) == Retuned(b, next, now)
  {
  }

  lemma TakeAlike(a: Bucket, b: Bucket, n: int, now: real)
    requires Alike(a, b, now)
    ensures Grants(a, n, now) == Grants(b, n, now) && Alike(Take(a, n, now), Take(b, n, now), now)
  {
  }
}
