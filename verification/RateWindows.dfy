/** What the tenant rate limiter of internal/resilience/rate_limiter.go grants, in terms of the requests
    alone: the tokens granted in any window never exceed the burst and what the window's length earns,
    and nothing else is refused. */
module RateWindows {
  import opened TokenBucket
  import opened RateLimiter

  predicate IsRequest(op: Op, t: string) { op.AllowN? && op.tenant == t }

  /** A run from the start of requests, each with its answer, and cleanups. */
  ghost predicate Trace(s: Settings, cs: seq<Cache>, ops: seq<Op>, granted: seq<bool>) {
    && |cs| == |ops| + 1 && |granted| == |ops| && cs[0] == EMPTY
    && forall i {:trigger ops[i]} :: 0 <= i < |ops| ==>
      match ops[i]
      case AllowN(t, n, now) => cs[i + 1] == Ask(s, cs[i], t, n, now) && granted[i] == Answer(s, cs[i], t, n, now)
      case Cleanup(now) => cs[i + 1] == Evict(s, cs[i], now)
      case Reconfigure(_, _, _) => false
  }

  predicate TimesOrdered(ops: seq<Op>) { forall i, j :: 0 <= i < j < |ops| ==> ops[i].now <= ops[j].now }

  /** Dropping the tenant's limiter loses nothing: there are no cleanups, or the bucket refills before
      one takes it. */
  predicate CleanupHarmless(s: Settings, ops: seq<Op>, t: string) {
    s.maxIdleTime >= 0.0
    && (RefillsInTime(s.ConfigOf(t), s.maxIdleTime) || forall i :: 0 <= i < |ops| ==> !ops[i].Cleanup?)
  }

  /** The tokens granted to a tenant by requests `j` up to, not including, `k`. */
  function Granted(ops: seq<Op>, granted: seq<bool>, t: string, j: nat, k: nat): int
    requires j <= k <= |ops| == |granted|
  {
    if j == k then 0
    else
      var op := ops[k - 1];
      Granted(ops, granted, t, j, k - 1) + (if IsRequest(op, t) && granted[k - 1] then op.n else 0)
  }

  /** The most a tenant is to be granted from one moment to another: the burst and what the rate earns. */
  function Allowance(s: Settings, t: string, since: real, now: real): real {
    s.ConfigOf(t).burst as real + s.ConfigOf(t).rate * (now - since)
  }

  /** `x` more tokens at a moment stay within the allowance of every window that a request opens. */
  ghost predicate Room(s: Settings, ops: seq<Op>, granted: seq<bool>, t: string, k: nat, x: real, now: real)
    requires k <= |ops| == |granted|
  {
    && x <= s.ConfigOf(t).burst as real
    && forall j :: 0 <= j < k && IsRequest(ops[j], t) ==>
      Granted(ops, granted, t, j, k) as real + x <= Allowance(s, t, ops[j].now, now)
  }

  /** The tokens a tenant finds; a tenant without a limiter gets a full one. */
  function Level(s: Settings, c: Cache, t: string, now: real): real {
    if t in c.limiters then Refill(c.limiters[t], now) else s.ConfigOf(t).burst as real
  }

  lemma AnswerLevel(s: Settings, c: Cache, t: string, n: int, now: real)
    ensures Answer(s, c, t, n, now) <==> n as real <= Level(s, c, t, now)
  {
    FullFromStart(s.ConfigOf(t), now);
  }

  /** A live limiter is the tenant's, and refills in proportion if its bucket refills within the idle time. */
  predicate LiveOk(s: Settings, c: Cache, t: string, clock: real) {
    && (t in c.limiters <==> t in c.lastUsed)
    && (t in c.limiters ==> FieldsOk(s.ConfigOf(t), c.limiters[t], clock))
    && (t in c.limiters && RefillsInTime(s.ConfigOf(t), s.maxIdleTime) ==>
          BucketOk(s.ConfigOf(t), s.maxIdleTime, c.limiters[t], c.lastUsed[t], clock))
  }

  predicate FieldsOk(cfg: TenantConfig, b: Bucket, clock: real) {
    b.rate == cfg.rate && b.burst == cfg.burst && b.tokens >= 0.0 && b.last <= clock
  }

  lemma LiveLater(s: Settings, c: Cache, t: string, clock: real, now: real)
    requires LiveOk(s, c, t, clock) && clock <= now && s.ConfigOf(t).rate >= 0.0
    ensures LiveOk(s, c, t, now)
  {
    hide BucketOk, RefillsInTime;
    if t in c.limiters && RefillsInTime(s.ConfigOf(t), s.maxIdleTime) {
      BucketLater(s.ConfigOf(t), s.maxIdleTime, c.limiters[t], c.lastUsed[t], clock, now);
    }
  }

  lemma TakeFields(cfg: TenantConfig, b: Bucket, n: int, now: real)
    requires FieldsOk(cfg, b, now)
    ensures FieldsOk(cfg, Take(b, n, now), now)
  {
    hide Refill;
  }

  lemma LiveAsk(s: Settings, c: Cache, tenant: string, n: int, now: real, t: string)
    requires LiveOk(s, c, t, now) && s.ConfigOf(t).rate >= 0.0 && s.maxIdleTime >= 0.0
    ensures LiveOk(s, Ask(s, c, tenant, n, now), t, now)
  {
    hide BucketOk, RefillsInTime, Take;
    if t == tenant {
      var cfg, b := s.ConfigOf(t), Touch(s, c, t, now).limiters[t];
      TakeFields(cfg, b, n, now);
      UsedNow(cfg, s.maxIdleTime, Take(b, n, now), now);
    }
  }

  lemma LiveEvict(s: Settings, c: Cache, now: real, t: string)
    requires LiveOk(s, c, t, now)
    ensures LiveOk(s, Evict(s, c, now), t, now)
  {
    hide BucketOk, RefillsInTime, FieldsOk;
  }

  /** The moment of the last step before number `k` has passed. */
  predicate Past(ops: seq<Op>, k: nat, now: real)
    requires k <= |ops|
  {
    k > 0 ==> ops[k - 1].now <= now
  }

  lemma {:induction false} LiveAt(
    s: Settings, cs: seq<Cache>, ops: seq<Op>, granted: seq<bool>, t: string, k: nat, now: real)
    requires Trace(s, cs, ops, granted) && TimesOrdered(ops) && k <= |ops| && Past(ops, k, now)
    requires s.ConfigOf(t).rate >= 0.0 && s.maxIdleTime >= 0.0
    ensures LiveOk(s, cs[k], t, now)
  {
    hide LiveOk, Ask, Answer, Evict;
    if k == 0 {
      assert LiveOk(s, EMPTY, t, now) by {
        NothingLive(s, t, now);
      }
    } else {
      var op := ops[k - 1];
      LiveAt(s, cs, ops, granted, t, k - 1, op.now);
      if op.AllowN? {
        LiveAsk(s, cs[k - 1], op.tenant, op.n, op.now, t);
      } else {
        LiveEvict(s, cs[k - 1], op.now, t);
      }
      LiveLater(s, cs[k], t, op.now, now);
    }
  }

  lemma NothingLive(s: Settings, t: string, now: real)
    ensures LiveOk(s, EMPTY, t, now)
  {
  }

  // ---- How a step changes the level ----

  lemma LevelOfOther(s: Settings, c: Cache, tenant: string, n: int, at: real, t: string, now: real)
    requires t != tenant
    ensures Level(s, Ask(s, c, tenant, n, at), t, now) == Level(s, c, t, now)
  {
    hide Take, Refill;
  }

  /** A refused request changes nothing. */
  lemma LevelRefused(s: Settings, c: Cache, t: string, n: int, at: real, now: real)
    requires !Answer(s, c, t, n, at) && at <= now && s.ConfigOf(t).rate >= 0.0
    ensures Level(s, Ask(s, c, t, n, at), t, now) == Level(s, c, t, now)
  {
    hide Gain;
    FullFromStart(s.ConfigOf(t), at);
    StaysFull(FullBucket(s.ConfigOf(t), at), at, now);
  }

  /** A granted one leaves room for `x` exactly when there was room for both. */
  lemma LevelGranted(s: Settings, c: Cache, t: string, n: int, at: real, now: real, x: real)
    requires Answer(s, c, t, n, at) && (t in c.limiters ==> FieldsOk(s.ConfigOf(t), c.limiters[t], at))
    ensures var cfg := s.ConfigOf(t);
      x <= Level(s, Ask(s, c, t, n, at), t, now)
      <==> x <= cfg.burst as real && x + n as real - Gain(cfg.rate, now - at) <= Level(s, c, t, at)
  {
    hide Gain;
    AnswerLevel(s, c, t, n, at);
    FullFromStart(s.ConfigOf(t), at);
    var b := Touch(s, c, t, at).limiters[t];
    assert Refill(b, at) == Level(s, c, t, at);
    assert Ask(s, c, t, n, at).limiters[t] == b.(tokens := Refill(b, at) - n as real, last := at);
  }

  /** A limiter that a cleanup drops was full. */
  lemma LevelEvicted(s: Settings, c: Cache, at: real, t: string, now: real)
    requires LiveOk(s, c, t, at) && RefillsInTime(s.ConfigOf(t), s.maxIdleTime)
    requires s.maxIdleTime >= 0.0 && s.ConfigOf(t).rate >= 0.0 && at <= now
    ensures Level(s, Evict(s, c, at), t, now) == Level(s, c, t, now)
  {
    hide BucketOk, RefillsInTime, Refill;
    if t in c.limiters && t in Idle(s, c, at) {
      var cfg, b := s.ConfigOf(t), c.limiters[t];
      IdleIsFull(cfg, s.maxIdleTime, b, c.lastUsed[t], at);
      StaysFull(b, at, now);
    }
  }

  // ---- How a step changes the room ----

  lemma AllowanceLater(s: Settings, t: string, since: real, at: real, now: real)
    ensures Allowance(s, t, since, now) == Allowance(s, t, since, at) + Gain(s.ConfigOf(t).rate, now - at)
  {
    GainLater(s.ConfigOf(t).rate, since, at, now);
  }

  lemma AllowanceAtOnce(s: Settings, t: string, at: real, now: real)
    ensures Allowance(s, t, at, now) == s.ConfigOf(t).burst as real + Gain(s.ConfigOf(t).rate, now - at)
  {
  }

  /** Request `k`, granted to the tenant, opens a window and counts in the others. */
  lemma RoomGranted(s: Settings, ops: seq<Op>, granted: seq<bool>, t: string, k: nat, x: real, now: real)
    requires k < |ops| == |granted| && IsRequest(ops[k], t) && granted[k]
    ensures var cfg, at := s.ConfigOf(t), ops[k].now;
      Room(s, ops, granted, t, k + 1, x, now)
      <==> x <= cfg.burst as real && Room(s, ops, granted, t, k, x + ops[k].n as real - Gain(cfg.rate, now - at), at)
  {
    hide Allowance, Gain;
    var at := ops[k].now;
    AllowanceAtOnce(s, t, at, now);
    forall j | 0 <= j < k && IsRequest(ops[j], t)
      ensures Granted(ops, granted, t, j, k + 1) == Granted(ops, granted, t, j, k) + ops[k].n
      ensures Allowance(s, t, ops[j].now, now)
        == Allowance(s, t, ops[j].now, at) + Gain(s.ConfigOf(t).rate, now - at)
    {
      AllowanceLater(s, t, ops[j].now, at, now);
    }
    assert Granted(ops, granted, t, k, k + 1) == ops[k].n;
  }

  /** Any other step leaves the room as it was: a refused request's window allows the whole burst. */
  lemma RoomKept(s: Settings, ops: seq<Op>, granted: seq<bool>, t: string, k: nat, x: real, now: real)
    requires k < |ops| == |granted| && (IsRequest(ops[k], t) ==> !granted[k])
    requires ops[k].now <= now && s.ConfigOf(t).rate >= 0.0
    ensures Room(s, ops, granted, t, k + 1, x, now) <==> Room(s, ops, granted, t, k, x, now)
  {
    hide Allowance, Gain;
    AllowanceAtOnce(s, t, ops[k].now, now);
    GainNonnegative(s.ConfigOf(t).rate, now - ops[k].now);
    forall j | 0 <= j < k ensures Granted(ops, granted, t, j, k + 1) == Granted(ops, granted, t, j, k) {
    }
    assert Granted(ops, granted, t, k, k + 1) == 0;
  }

  // ---- The limiter grants what every window allows ----

  predicate Sound(s: Settings, ops: seq<Op>, t: string) {
    TimesOrdered(ops) && CleanupHarmless(s, ops, t) && s.ConfigOf(t).rate >= 0.0
  }

  /** The level before step `k` is the room that the requests before it leave. */
  lemma {:induction false} LevelIsRoom(
    s: Settings, cs: seq<Cache>, ops: seq<Op>, granted: seq<bool>, t: string, k: nat, x: real, now: real)
    requires Trace(s, cs, ops, granted) && Sound(s, ops, t) && k <= |ops| && Past(ops, k, now)
    ensures x <= Level(s, cs[k], t, now) <==> Room(s, ops, granted, t, k, x, now)
  {
    hide Level, Room, Ask, Answer, Evict, Gain, RefillsInTime, LiveOk;
    if k == 0 {
      FirstLevel(s, ops, granted, t, x, now);
    } else {
      var c, op := cs[k - 1], ops[k - 1];
      assert Past(ops, k - 1, op.now);
      if IsRequest(op, t) && granted[k - 1] {
        var y := x + op.n as real - Gain(s.ConfigOf(t).rate, now - op.now);
        LevelIsRoom(s, cs, ops, granted, t, k - 1, y, op.now);
        RoomGranted(s, ops, granted, t, k - 1, x, now);
        LiveAt(s, cs, ops, granted, t, k - 1, op.now);
        LiveFields(s, c, t, op.now);
        LevelGranted(s, c, t, op.n, op.now, now, x);
      } else {
        LevelIsRoom(s, cs, ops, granted, t, k - 1, x, now);
        RoomKept(s, ops, granted, t, k - 1, x, now);
        LevelKept(s, cs, ops, granted, t, k - 1, now);
      }
    }
  }

  lemma FirstLevel(s: Settings, ops: seq<Op>, granted: seq<bool>, t: string, x: real, now: real)
    requires |ops| == |granted|
    ensures x <= Level(s, EMPTY, t, now) <==> Room(s, ops, granted, t, 0, x, now)
  {
  }

  lemma LiveFields(s: Settings, c: Cache, t: string, clock: real)
    requires LiveOk(s, c, t, clock)
    ensures t in c.limiters ==> FieldsOk(s.ConfigOf(t), c.limiters[t], clock)
  {
  }

  lemma LevelKept(
    s: Settings, cs: seq<Cache>, ops: seq<Op>, granted: seq<bool>, t: string, k: nat, now: real)
    requires Trace(s, cs, ops, granted) && Sound(s, ops, t) && k < |ops| && ops[k].now <= now
    requires IsRequest(ops[k], t) ==> !granted[k]
    ensures Level(s, cs[k + 1], t, now) == Level(s, cs[k], t, now)
  {
    hide Level, Ask, Answer, Evict, Gain, RefillsInTime, LiveOk;
    var c, op := cs[k], ops[k];
    if op.Cleanup? {
      LiveAt(s, cs, ops, granted, t, k, op.now);
      LevelEvicted(s, c, op.now, t, now);
    } else if op.tenant == t {
      LevelRefused(s, c, t, op.n, op.now, now);
    } else {
      LevelOfOther(s, c, op.tenant, op.n, op.now, t, now);
    }
  }

  /** A request is granted exactly when it asks for no more than the burst and, in the window that any
      earlier request of the tenant opens, what was granted since and what it asks for are no more than
      the burst and what the rate earns in the meantime. */
  lemma GrantedIff(s: Settings, cs: seq<Cache>, ops: seq<Op>, granted: seq<bool>, k: nat)
    requires Trace(s, cs, ops, granted) && k < |ops| && ops[k].AllowN? && Sound(s, ops, ops[k].tenant)
    ensures var t, cfg := ops[k].tenant, s.ConfigOf(ops[k].tenant);
      granted[k] <==>
        && ops[k].n <= cfg.burst
        && forall j :: 0 <= j < k && IsRequest(ops[j], t) ==>
             Granted(ops, granted, t, j, k) as real + ops[k].n as real <= Allowance(s, t, ops[j].now, ops[k].now)
  {
    hide Level, Answer, Ask, Evict, Allowance, Granted;
    var t, n, now := ops[k].tenant, ops[k].n, ops[k].now;
    AnswerLevel(s, cs[k], t, n, now);
    LevelIsRoom(s, cs, ops, granted, t, k, n as real, now);
  }

  lemma GrantedOneMore(ops: seq<Op>, granted: seq<bool>, t: string, j: nat, k: nat)
    requires j <= k < |ops| == |granted|
    ensures Granted(ops, granted, t, j, k + 1)
      == Granted(ops, granted, t, j, k) + (if IsRequest(ops[k], t) && granted[k] then ops[k].n else 0)
    ensures j == k ==> Granted(ops, granted, t, j, k) == 0
  {
  }

  /** In every window, from one request of a tenant to the end of another, the tokens granted stay
      within the burst and what the rate earns in that time. */
  lemma {:induction false} WindowsConform(
    s: Settings, cs: seq<Cache>, ops: seq<Op>, granted: seq<bool>, t: string, j: nat, k: nat)
    requires Trace(s, cs, ops, granted) && Sound(s, ops, t) && j <= k < |ops|
    requires IsRequest(ops[j], t) && forall i :: j <= i <= k && IsRequest(ops[i], t) ==> ops[i].n >= 0
    ensures Granted(ops, granted, t, j, k + 1) as real <= Allowance(s, t, ops[j].now, ops[k].now)
  {
    hide Answer, Ask, Evict, Allowance, RefillsInTime, Granted, Gain;
    var op := ops[k];
    GrantedOneMore(ops, granted, t, j, k);
    if IsRequest(op, t) && granted[k] {
      GrantedIff(s, cs, ops, granted, k);
      AllowanceAtOnce(s, t, ops[j].now, op.now);
      GainNothing(s.ConfigOf(t).rate, op.now - op.now);
    } else if j == k {
      AllowanceAtOnce(s, t, op.now, op.now);
      GainNothing(s.ConfigOf(t).rate, op.now - op.now);
    } else {
      WindowsConform(s, cs, ops, granted, t, j, k - 1);
      AllowanceLater(s, t, ops[j].now, ops[k - 1].now, op.now);
      GainNonnegative(s.ConfigOf(t).rate, op.now - ops[k - 1].now);
    }
  }

  /** After SetTenantConfig a tenant has the tokens it had, up to the new burst, and earns at the new
      rate; one without a limiter gets a full one of the new burst, and other tenants keep theirs. */
  lemma RetunedLevel(
    s: Settings, c: Cache, tenant: string, cfg: TenantConfig, at: real, t: string, now: real, x: real)
    requires at <= now
    ensures var before, d := Level(s, c, t, at), Retune(c, tenant, cfg, at);
      x <= Level(s.With(tenant, cfg), d, t, now) <==>
        if t != tenant then x <= Level(s, c, t, now)
        else if t !in c.limiters then x <= cfg.burst as real
        else x <= cfg.burst as real && x <= before + cfg.rate * (now - at)
  {
    hide Refill;
    if t == tenant && t in c.limiters {
      RefillMeans(Retuned(c.limiters[t], cfg, at), now, x);
    }
  }

  lemma RefillMeans(b: Bucket, now: real, x: real)
    ensures x <= Refill(b, now) <==> x <= b.burst as real && x <= b.tokens + b.rate * (now - b.last)
  {
  }
}
