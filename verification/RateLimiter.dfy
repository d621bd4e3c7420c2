/** The tenant rate limiter of internal/resilience/rate_limiter.go.  A request and its bookkeeping
    happen at one instant. */
module RateLimiter {
  import opened TokenBucket

  /** Defaults, per-tenant overrides and the idle time after which a limiter is dropped. */
  datatype Settings = Settings(default: TenantConfig, overrides: map<string, TenantConfig>, maxIdleTime: real) {
    function ConfigOf(tenant: string): TenantConfig {
      if tenant in overrides then overrides[tenant] else default
    }

    function With(tenant: string, config: TenantConfig): Settings {
      this.(overrides := overrides[tenant := config])
    }
  }

  // ---- The limiter cache ----

  datatype Cache = Cache(limiters: map<string, Bucket>, lastUsed: map<string, real>)

  const EMPTY := Cache(map[], map[])

  function Touch(s: Settings, c: Cache, tenant: string, now: real): (r: Cache)
    ensures tenant in r.limiters
  {
    Cache(if tenant in c.limiters then c.limiters else c.limiters[tenant := FullBucket(s.ConfigOf(tenant), now)],
          c.lastUsed[tenant := now])
  }

  predicate Answer(s: Settings, c: Cache, tenant: string, n: int, now: real) {
    Grants(Touch(s, c, tenant, now).limiters[tenant], n, now)
  }

  function Ask(s: Settings, c: Cache, tenant: string, n: int, now: real): Cache {
    var t := Touch(s, c, tenant, now);
    t.(limiters := t.limiters[tenant := Take(t.limiters[tenant], n, now)])
  }

  function Retune(c: Cache, tenant: string, config: TenantConfig, now: real): Cache {
    if tenant in c.limiters then c.(limiters := c.limiters[tenant := Retuned(c.limiters[tenant], config, now)]) else c
  }

  function Idle(s: Settings, c: Cache, now: real): set<string> {
    set t | t in c.lastUsed && now - c.lastUsed[t] > s.maxIdleTime
  }

  function Evict(s: Settings, c: Cache, now: real): Cache {
    Cache(c.limiters - Idle(s, c, now), c.lastUsed - Idle(s, c, now))
  }

  // ---- Runs, with and without eviction ----

  datatype Op =
    | AllowN(tenant: string, n: int, now: real)
    | Cleanup(now: real)
    | Reconfigure(tenant: string, config: TenantConfig, now: real)

  predicate InOrder(ops: seq<Op>, clock: real) {
    ops == [] || (clock <= ops[0].now && InOrder(ops[1..], ops[0].now))
  }

  /** The answers a run gives; with `evicting` false the cleanups do nothing. */
  function Answers(s: Settings, c: Cache, ops: seq<Op>, evicting: bool): seq<bool>
    decreases |ops|
  {
    if ops == [] then []
    else
      match ops[0]
      case AllowN(t, n, now) => [Answer(s, c, t, n, now)] + Answers(s, Ask(s, c, t, n, now), ops[1..], evicting)
      case Cleanup(now) => Answers(s, if evicting then Evict(s, c, now) else c, ops[1..], evicting)
      case Reconfigure(t, cfg, now) => Answers(s.With(t, cfg), Retune(c, t, cfg, now), ops[1..], evicting)
  }

  /** The configurations that SetTenantConfig may be called with. */
  type Choice = (string, TenantConfig) -> bool

  predicate Permitted(ops: seq<Op>, may: Choice) {
    forall i :: 0 <= i < |ops| && ops[i].Reconfigure? ==> may(ops[i].tenant, ops[i].config)
  }

  /** The configurations a tenant may have at some time. */
  predicate Possible(s: Settings, may: Choice, tenant: string, cfg: TenantConfig) {
    cfg == s.ConfigOf(tenant) || may(tenant, cfg)
  }

  // ---- Why eviction cannot be observed ----

  predicate RefillsInTime(cfg: TenantConfig, idle: real) { cfg.burst as real <= cfg.rate * idle }

  /** Every bucket a tenant may have refills within the idle time. */
  ghost predicate AllRefill(s: Settings, may: Choice) {
    forall t, cfg :: Possible(s, may, t, cfg) ==> RefillsInTime(cfg, s.maxIdleTime)
  }

  /** No call of SetTenantConfig raises a burst. */
  ghost predicate NeverRaised(s: Settings, may: Choice) {
    forall t, cfg, next :: Possible(s, may, t, cfg) && may(t, next) ==> next.burst <= cfg.burst
  }

  ghost predicate RatesOk(s: Settings, may: Choice) {
    s.maxIdleTime >= 0.0 && forall t, cfg :: Possible(s, may, t, cfg) ==> cfg.rate >= 0.0
  }

  ghost predicate Steady(s: Settings, may: Choice) {
    RatesOk(s, may) && AllRefill(s, may) && NeverRaised(s, may)
  }

  /** The bucket is full, or has refilled in proportion to the idle time that has passed. */
  predicate OnTheWay(b: Bucket, idle: real, used: real, now: real) {
    Full(b, now) || Refill(b, now) * idle >= b.burst as real * (now - used)
  }

  predicate BucketOk(cfg: TenantConfig, idle: real, b: Bucket, used: real, clock: real) {
    && b.rate == cfg.rate && b.burst == cfg.burst && b.tokens >= 0.0 && b.last <= clock && used <= clock
    && OnTheWay(b, idle, used, clock)
  }

  /** One tenant in two caches of which `c` evicts and `d` never does: what `c` lacks is full in `d`. */
  predicate Agrees(s: Settings, c: Cache, d: Cache, clock: real, t: string) {
    && (t in c.limiters <==> t in c.lastUsed) && (t in d.limiters <==> t in d.lastUsed)
    && (t in c.limiters ==>
          t in d.limiters && c.lastUsed[t] == d.lastUsed[t] && Alike(c.limiters[t], d.limiters[t], clock))
    && (t in d.limiters ==>
          && BucketOk(s.ConfigOf(t), s.maxIdleTime, d.limiters[t], d.lastUsed[t], clock)
          && (t !in c.limiters ==> Full(d.limiters[t], clock)))
  }

  ghost predicate Simulates(s: Settings, c: Cache, d: Cache, clock: real) {
    forall t :: Agrees(s, c, d, clock, t)
  }

  /** At the rate `rate` a bucket gains at least its share of the burst. */
  lemma GainsItsShare(x: real, rate: real, burst: real, idle: real, past: real, more: real)
    requires x * idle >= burst * past && burst <= rate * idle && more >= 0.0
    ensures (x + Gain(rate, more)) * idle >= burst * (past + more)
  {
    NonnegativeProduct(rate * idle - burst, more);
    assert (rate * idle - burst) * more == (rate * idle) * more - burst * more;
    assert (x + rate * more) * idle == x * idle + (rate * idle) * more;
    assert burst * (past + more) == burst * past + burst * more;
  }

  lemma BucketLater(cfg: TenantConfig, idle: real, b: Bucket, used: real, clock: real, now: real)
    requires cfg.rate >= 0.0 && RefillsInTime(cfg, idle) && BucketOk(cfg, idle, b, used, clock) && clock <= now
    ensures BucketOk(cfg, idle, b, used, now)
  {
    if Full(b, clock) {
      StaysFull(b, clock, now);
    } else {
      hide Gain;
      GainLater(b.rate, b.last, clock, now);
      GainsItsShare(Refill(b, clock), b.rate, b.burst as real, idle, clock - used, now - clock);
    }
  }

  /** A bucket that refills within the idle time is full when it is dropped. */
  lemma IdleIsFull(cfg: TenantConfig, idle: real, b: Bucket, used: real, now: real)
    requires idle >= 0.0 && cfg.rate >= 0.0 && BucketOk(cfg, idle, b, used, now) && now - used > idle
    ensures Full(b, now)
  {
    hide Refill;
    RefillNonnegative(b, now);
    AtMostFull(b, now);
    if !Full(b, now) {
      var burst, x := b.burst as real, Refill(b, now);
      StrictProduct(burst, now - used - idle, burst - x, idle, x);
    }
  }

  lemma StrictProduct(burst: real, late: real, missing: real, idle: real, x: real)
    requires late > 0.0 && missing > 0.0 && idle >= 0.0 && x == burst - missing
    requires burst > 0.0
    ensures x * idle < burst * (idle + late)
  {
    NonnegativeProduct(missing, idle);
    assert burst * late > 0.0;
    assert x * idle == burst * idle - missing * idle;
    assert burst * (idle + late) == burst * idle + burst * late;
  }

  lemma RetunedRefill(b: Bucket, next: TenantConfig, now: real)
    ensures var x := Refill(b, now);
      Refill(Retuned(b, next, now), now) == if x < next.burst as real then x else next.burst as real
  {
    hide Gain;
    GainNothing(next.rate, now - now);
  }

  lemma SmallerShare(burst: nat, next: nat, past: real)
    requires next <= burst && past >= 0.0
    ensures next as real * past <= burst as real * past
  {
    NonnegativeProduct((burst - next) as real, past);
    assert burst as real == next as real + (burst - next) as real;
  }

  lemma HasItsShare(b: Bucket, x: real, idle: real, used: real, now: real)
    requires Refill(b, now) == x && x * idle >= b.burst as real * (now - used)
    ensures OnTheWay(b, idle, used, now)
  {
    hide Refill;
  }

  lemma RetunedOnTheWay(b: Bucket, next: TenantConfig, idle: real, used: real, now: real)
    requires OnTheWay(b, idle, used, now) && used <= now && next.burst <= b.burst
    ensures OnTheWay(Retuned(b, next, now), idle, used, now)
  {
    hide Refill;
    var x := Refill(b, now);
    RetunedRefill(b, next, now);
    if x < next.burst as real {
      SmallerShare(b.burst, next.burst, now - used);
      HasItsShare(Retuned(b, next, now), x, idle, used, now);
    }
  }

  /** A lower burst keeps what is full full, and the rest on its way. */
  lemma RetunedOk(cfg: TenantConfig, next: TenantConfig, idle: real, b: Bucket, used: real, now: real)
    requires cfg.rate >= 0.0 && BucketOk(cfg, idle, b, used, now) && next.burst <= cfg.burst
    ensures BucketOk(next, idle, Retuned(b, next, now), used, now)
    ensures Full(b, now) ==> Full(Retuned(b, next, now), now)
  {
    hide Refill, OnTheWay;
    RefillNonnegative(b, now);
    RetunedRefill(b, next, now);
    RetunedOnTheWay(b, next, idle, used, now);
  }

  /** A bucket that has just been used is on its way. */
  lemma UsedNow(cfg: TenantConfig, idle: real, b: Bucket, now: real)
    requires idle >= 0.0 && cfg.rate >= 0.0
    requires b.rate == cfg.rate && b.burst == cfg.burst && b.tokens >= 0.0 && b.last <= now
    ensures BucketOk(cfg, idle, b, now, now)
  {
    hide Refill;
    RefillNonnegative(b, now);
    NonnegativeProduct(Refill(b, now), idle);
  }

  lemma TenantLater(s: Settings, may: Choice, c: Cache, d: Cache, clock: real, now: real, t: string)
    requires Steady(s, may) && Agrees(s, c, d, clock, t) && clock <= now
    ensures Agrees(s, c, d, now, t)
  {
    hide BucketOk, Full;
    var cfg := s.ConfigOf(t);
    assert Possible(s, may, t, cfg);
    if t in d.limiters {
      BucketFields(cfg, s.maxIdleTime, d.limiters[t], d.lastUsed[t], clock);
      BucketLater(cfg, s.maxIdleTime, d.limiters[t], d.lastUsed[t], clock, now);
      if Full(d.limiters[t], clock) {
        StaysFull(d.limiters[t], clock, now);
      }
      if t in c.limiters && Full(c.limiters[t], clock) {
        StaysFull(c.limiters[t], clock, now);
      }
    }
  }

  lemma BucketFields(cfg: TenantConfig, idle: real, b: Bucket, used: real, clock: real)
    requires BucketOk(cfg, idle, b, used, clock)
    ensures b.rate == cfg.rate && b.burst == cfg.burst
  {
  }

  lemma TenantAsked(s: Settings, may: Choice, c: Cache, d: Cache, n: int, now: real, t: string)
    requires RatesOk(s, may) && Agrees(s, c, d, now, t)
    ensures Answer(s, c, t, n, now) == Answer(s, d, t, n, now)
    ensures Agrees(s, Ask(s, c, t, n, now), Ask(s, d, t, n, now), now, t)
  {
    hide Full, OnTheWay;
    var cfg := s.ConfigOf(t);
    assert Possible(s, may, t, cfg);
    FullFromStart(cfg, now);
    var a, b := Touch(s, c, t, now).limiters[t], Touch(s, d, t, now).limiters[t];
    assert Alike(a, b, now);
    TakeAlike(a, b, n, now);
    UsedNow(cfg, s.maxIdleTime, Take(b, n, now), now);
  }

  lemma AskSimulates(s: Settings, may: Choice, c: Cache, d: Cache, tenant: string, n: int, now: real)
    requires RatesOk(s, may) && Simulates(s, c, d, now)
    ensures Answer(s, c, tenant, n, now) == Answer(s, d, tenant, n, now)
    ensures Simulates(s, Ask(s, c, tenant, n, now), Ask(s, d, tenant, n, now), now)
  {
    hide Answer, BucketOk, Alike, Full;
    assert Agrees(s, c, d, now, tenant);
    TenantAsked(s, may, c, d, n, now, tenant);
    forall t ensures Agrees(s, Ask(s, c, tenant, n, now), Ask(s, d, tenant, n, now), now, t) {
      assert Agrees(s, c, d, now, t);
    }
  }

  lemma EvictSimulates(s: Settings, may: Choice, c: Cache, d: Cache, now: real)
    requires RatesOk(s, may) && Simulates(s, c, d, now)
    ensures Simulates(s, Evict(s, c, now), d, now)
  {
    hide BucketOk, Alike, Full;
    forall t ensures Agrees(s, Evict(s, c, now), d, now, t) {
      assert Agrees(s, c, d, now, t);
      if t in Idle(s, c, now) {
        assert Possible(s, may, t, s.ConfigOf(t));
        IdleIsFull(s.ConfigOf(t), s.maxIdleTime, d.limiters[t], d.lastUsed[t], now);
      }
    }
  }

  lemma TenantRetuned(s: Settings, may: Choice, c: Cache, d: Cache, cfg: TenantConfig, now: real, t: string)
    requires Steady(s, may) && Agrees(s, c, d, now, t) && may(t, cfg)
    ensures Agrees(s.With(t, cfg), Retune(c, t, cfg, now), Retune(d, t, cfg, now), now, t)
  {
    hide BucketOk, Full, Retuned;
    var was := s.ConfigOf(t);
    assert Possible(s, may, t, was) && cfg.burst <= was.burst;
    if t in d.limiters {
      RetunedOk(was, cfg, s.maxIdleTime, d.limiters[t], d.lastUsed[t], now);
      if t in c.limiters {
        RetunedAlike(c.limiters[t], d.limiters[t], cfg, now);
      }
    }
  }

  lemma RetuneSimulates(s: Settings, may: Choice, c: Cache, d: Cache, tenant: string, cfg: TenantConfig, now: real)
    requires Steady(s, may) && Simulates(s, c, d, now) && may(tenant, cfg)
    ensures Simulates(s.With(tenant, cfg), Retune(c, tenant, cfg, now), Retune(d, tenant, cfg, now), now)
  {
    hide BucketOk, Alike, Full, Steady;
    forall t ensures Agrees(s.With(tenant, cfg), Retune(c, tenant, cfg, now), Retune(d, tenant, cfg, now), now, t) {
      assert Agrees(s, c, d, now, t);
      if t == tenant {
        TenantRetuned(s, may, c, d, cfg, now, t);
      }
    }
  }

  lemma PossibleWith(s: Settings, may: Choice, tenant: string, cfg: TenantConfig, t: string, other: TenantConfig)
    requires may(tenant, cfg) && Possible(s.With(tenant, cfg), may, t, other)
    ensures Possible(s, may, t, other)
  {
  }

  lemma StaysSteady(s: Settings, may: Choice, tenant: string, cfg: TenantConfig)
    requires Steady(s, may) && may(tenant, cfg)
    ensures Steady(s.With(tenant, cfg), may)
  {
    hide Possible;
    forall t, other | Possible(s.With(tenant, cfg), may, t, other) ensures Possible(s, may, t, other) {
      PossibleWith(s, may, tenant, cfg, t, other);
    }
  }

  lemma PermittedRest(ops: seq<Op>, may: Choice)
    requires Permitted(ops, may) && ops != []
    ensures Permitted(ops[1..], may) && (ops[0].Reconfigure? ==> may(ops[0].tenant, ops[0].config))
  {
  }

  lemma TimePasses(s: Settings, may: Choice, c: Cache, d: Cache, clock: real, now: real)
    requires Steady(s, may) && Simulates(s, c, d, clock) && clock <= now
    ensures Simulates(s, c, d, now)
  {
    hide Agrees, Steady;
    forall t ensures Agrees(s, c, d, now, t) {
      assert Agrees(s, c, d, clock, t);
      TenantLater(s, may, c, d, clock, now, t);
    }
  }

  lemma {:induction false} SameAnswers(s: Settings, may: Choice, c: Cache, d: Cache, ops: seq<Op>, clock: real)
    requires Steady(s, may) && Simulates(s, c, d, clock) && InOrder(ops, clock) && Permitted(ops, may)
    ensures Answers(s, c, ops, true) == Answers(s, d, ops, false)
    decreases |ops|
  {
    hide Simulates, Answer, Ask, Evict, Retune, AllRefill, NeverRaised, Permitted, Possible;
    if ops != [] {
      var now, rest := ops[0].now, ops[1..];
      PermittedRest(ops, may);
      TimePasses(s, may, c, d, clock, now);
      match ops[0]
      case AllowN(t, n, _) =>
        AskSimulates(s, may, c, d, t, n, now);
        SameAnswers(s, may, Ask(s, c, t, n, now), Ask(s, d, t, n, now), rest, now);
      case Cleanup(_) =>
        EvictSimulates(s, may, c, d, now);
        SameAnswers(s, may, Evict(s, c, now), d, rest, now);
      case Reconfigure(t, cfg, _) =>
        StaysSteady(s, may, t, cfg);
        RetuneSimulates(s, may, c, d, t, cfg, now);
        SameAnswers(s.With(t, cfg), may, Retune(c, t, cfg, now), Retune(d, t, cfg, now), rest, now);
    }
  }

  // ---- Runs in which it can ----

  ghost predicate Seen(s: Settings, may: Choice, ops: seq<Op>) {
    InOrder(ops, 0.0) && Permitted(ops, may) && Answers(s, EMPTY, ops, true) != Answers(s, EMPTY, ops, false)
  }

  /** A moment after the idle time at which the drained bucket is still not full. */
  lemma JustTooLate(rate: real, burst: nat, idle: real) returns (now: real)
    requires rate >= 0.0 && idle >= 0.0 && burst as real > rate * idle
    ensures now > idle && rate * now < burst as real
  {
    if rate == 0.0 {
      now := idle + 1.0;
    } else {
      var half := (burst as real - rate * idle) / 2.0;
      now := idle + half / rate;
      assert rate * (half / rate) == half;
      assert rate * now == rate * idle + half;
    }
  }

  lemma Led(op: Op, rest: seq<Op>, may: Choice, clock: real)
    requires clock <= op.now && InOrder(rest, op.now) && Permitted(rest, may)
    requires op.Reconfigure? ==> may(op.tenant, op.config)
    ensures InOrder([op] + rest, clock) && Permitted([op] + rest, may)
  {
    assert ([op] + rest)[1..] == rest;
  }

  lemma LedAsk(s: Settings, c: Cache, t: string, n: int, now: real, rest: seq<Op>, evicting: bool)
    ensures Answers(s, c, [AllowN(t, n, now)] + rest, evicting) ==
      [Answer(s, c, t, n, now)] + Answers(s, Ask(s, c, t, n, now), rest, evicting)
  {
    hide Answer, Ask;
    assert ([AllowN(t, n, now)] + rest)[1..] == rest;
  }

  lemma LedCleanup(s: Settings, c: Cache, now: real, rest: seq<Op>, evicting: bool)
    ensures Answers(s, c, [Cleanup(now)] + rest, evicting) ==
      Answers(s, if evicting then Evict(s, c, now) else c, rest, evicting)
  {
    hide Evict;
    assert ([Cleanup(now)] + rest)[1..] == rest;
  }

  lemma LedReconfigure(
    s: Settings, c: Cache, t: string, cfg: TenantConfig, now: real, rest: seq<Op>, evicting: bool)
    ensures Answers(s, c, [Reconfigure(t, cfg, now)] + rest, evicting) ==
      Answers(s.With(t, cfg), Retune(c, t, cfg, now), rest, evicting)
  {
    hide Retune;
    assert ([Reconfigure(t, cfg, now)] + rest)[1..] == rest;
  }

  lemma LastAnswer(s: Settings, c: Cache, t: string, n: int, now: real, evicting: bool)
    ensures Answers(s, c, [AllowN(t, n, now)], evicting) == [Answer(s, c, t, n, now)]
  {
    assert [AllowN(t, n, now)] + [] == [AllowN(t, n, now)];
    LedAsk(s, c, t, n, now, [], evicting);
  }

  /** A tenant asks, its limiter may be dropped at `late`, and `rest` goes on. */
  lemma AskThenClean(s: Settings, t: string, n: int, late: real, rest: seq<Op>, evicting: bool)
    ensures var c := Ask(s, EMPTY, t, n, 0.0);
      Answers(s, EMPTY, [AllowN(t, n, 0.0)] + ([Cleanup(late)] + rest), evicting) ==
        [Answer(s, EMPTY, t, n, 0.0)] + Answers(s, if evicting then Evict(s, c, late) else c, rest, evicting)
  {
    hide Answers, Ask, Answer, Evict;
    LedAsk(s, EMPTY, t, n, 0.0, [Cleanup(late)] + rest, evicting);
    LedCleanup(s, Ask(s, EMPTY, t, n, 0.0), late, rest, evicting);
  }

  lemma EndsWith(first: bool, a: bool, b: bool)
    requires a != b
    ensures [first] + [a] != [first] + [b]
  {
    assert ([first] + [a])[1] == a && ([first] + [b])[1] == b;
  }

  /** Drain a tenant, let it be evicted, ask again: the two limiters disagree. */
  lemma EvictionSeen(s: Settings, may: Choice, tenant: string) returns (ops: seq<Op>)
    requires RatesOk(s, may) && !RefillsInTime(s.ConfigOf(tenant), s.maxIdleTime)
    ensures Seen(s, may, ops)
  {
    hide Answers, InOrder, Permitted;
    var cfg := s.ConfigOf(tenant);
    assert Possible(s, may, tenant, cfg);
    var now := JustTooLate(cfg.rate, cfg.burst, s.maxIdleTime);
    var again := AllowN(tenant, cfg.burst, now);
    ops := [AllowN(tenant, cfg.burst, 0.0)] + ([Cleanup(now)] + [again]);
    NothingAfter(again, may);
    Led(Cleanup(now), [again], may, 0.0);
    Led(AllowN(tenant, cfg.burst, 0.0), [Cleanup(now)] + [again], may, 0.0);
    var c := Ask(s, EMPTY, tenant, cfg.burst, 0.0);
    AskThenClean(s, tenant, cfg.burst, now, [again], true);
    AskThenClean(s, tenant, cfg.burst, now, [again], false);
    LastAnswer(s, Evict(s, c, now), tenant, cfg.burst, now, true);
    LastAnswer(s, c, tenant, cfg.burst, now, false);
    DrainedTooSlow(s, tenant, now);
    EndsWith(Answer(s, EMPTY, tenant, cfg.burst, 0.0), true, false);
  }

  lemma NothingAfter(op: Op, may: Choice)
    requires op.AllowN?
    ensures InOrder([op], op.now) && Permitted([op], may)
  {
  }

  lemma DrainedTooSlow(s: Settings, tenant: string, now: real)
    requires now > s.maxIdleTime >= 0.0
    requires s.ConfigOf(tenant).rate * now < s.ConfigOf(tenant).burst as real
    ensures var cfg := s.ConfigOf(tenant);
      var c := Ask(s, EMPTY, tenant, cfg.burst, 0.0);
      !Answer(s, c, tenant, cfg.burst, now) && Answer(s, Evict(s, c, now), tenant, cfg.burst, now)
  {
    var cfg := s.ConfigOf(tenant);
    var c := Ask(s, EMPTY, tenant, cfg.burst, 0.0);
    assert c.limiters[tenant] == Bucket(cfg.rate, cfg.burst, 0.0, 0.0);
    assert tenant in Idle(s, c, now);
  }

  /** An idle tenant is evicted, then its burst is raised: only a new bucket holds the new burst. */
  lemma RaiseSeen(s: Settings, may: Choice, tenant: string, next: TenantConfig) returns (ops: seq<Op>)
    requires RatesOk(s, may) && may(tenant, next) && next.burst > s.ConfigOf(tenant).burst
    ensures Seen(s, may, ops)
  {
    hide Answers, InOrder, Permitted;
    var now := s.maxIdleTime + 1.0;
    var raise, again := Reconfigure(tenant, next, now), AllowN(tenant, next.burst, now);
    var rest := [raise] + [again];
    ops := [AllowN(tenant, 0, 0.0)] + ([Cleanup(now)] + rest);
    NothingAfter(again, may);
    Led(raise, [again], may, now);
    Led(Cleanup(now), rest, may, 0.0);
    Led(AllowN(tenant, 0, 0.0), [Cleanup(now)] + rest, may, 0.0);
    var c := Ask(s, EMPTY, tenant, 0, 0.0);
    AskThenClean(s, tenant, 0, now, rest, true);
    AskThenClean(s, tenant, 0, now, rest, false);
    LedReconfigure(s, Evict(s, c, now), tenant, next, now, [again], true);
    LedReconfigure(s, c, tenant, next, now, [again], false);
    LastAnswer(s.With(tenant, next), Retune(Evict(s, c, now), tenant, next, now), tenant, next.burst, now, true);
    LastAnswer(s.With(tenant, next), Retune(c, tenant, next, now), tenant, next.burst, now, false);
    RaisedTooLate(s, tenant, next, now);
    EndsWith(Answer(s, EMPTY, tenant, 0, 0.0), true, false);
  }

  lemma RaisedTooLate(s: Settings, tenant: string, next: TenantConfig, now: real)
    requires now > s.maxIdleTime >= 0.0 && next.burst > s.ConfigOf(tenant).burst
    ensures var c, s' := Ask(s, EMPTY, tenant, 0, 0.0), s.With(tenant, next);
      && !Answer(s', Retune(c, tenant, next, now), tenant, next.burst, now)
      && Answer(s', Retune(Evict(s, c, now), tenant, next, now), tenant, next.burst, now)
  {
    var cfg := s.ConfigOf(tenant);
    var c := Ask(s, EMPTY, tenant, 0, 0.0);
    assert tenant in Idle(s, c, now);
    var r := Retuned(c.limiters[tenant], next, now);
    assert r.tokens <= cfg.burst as real;
    GainNothing(next.rate, now - now);
  }

  /** What can be seen under a configuration that a tenant may get can be seen. */
  lemma SeenAfter(s: Settings, may: Choice, tenant: string, cfg: TenantConfig, ops: seq<Op>)
    requires may(tenant, cfg) && Seen(s.With(tenant, cfg), may, ops)
    ensures Seen(s, may, [Reconfigure(tenant, cfg, 0.0)] + ops)
  {
    hide Answers, InOrder, Permitted;
    var first := Reconfigure(tenant, cfg, 0.0);
    Led(first, ops, may, 0.0);
    LedReconfigure(s, EMPTY, tenant, cfg, 0.0, ops, true);
    LedReconfigure(s, EMPTY, tenant, cfg, 0.0, ops, false);
  }

  lemma RatesStayOk(s: Settings, may: Choice, tenant: string, cfg: TenantConfig)
    requires RatesOk(s, may) && may(tenant, cfg)
    ensures RatesOk(s.With(tenant, cfg), may)
  {
    hide Possible;
    forall t, other | Possible(s.With(tenant, cfg), may, t, other) ensures Possible(s, may, t, other) {
      PossibleWith(s, may, tenant, cfg, t, other);
    }
  }

  lemma SlowSeen(s: Settings, may: Choice, tenant: string, cfg: TenantConfig) returns (ops: seq<Op>)
    requires RatesOk(s, may) && Possible(s, may, tenant, cfg) && !RefillsInTime(cfg, s.maxIdleTime)
    ensures Seen(s, may, ops)
  {
    hide Seen, RatesOk, RefillsInTime;
    if cfg == s.ConfigOf(tenant) {
      ops := EvictionSeen(s, may, tenant);
    } else {
      RatesStayOk(s, may, tenant, cfg);
      var rest := EvictionSeen(s.With(tenant, cfg), may, tenant);
      SeenAfter(s, may, tenant, cfg, rest);
      ops := [Reconfigure(tenant, cfg, 0.0)] + rest;
    }
  }

  lemma RaisedSeen(s: Settings, may: Choice, tenant: string, cfg: TenantConfig, next: TenantConfig)
    returns (ops: seq<Op>)
    requires RatesOk(s, may) && Possible(s, may, tenant, cfg) && may(tenant, next) && next.burst > cfg.burst
    ensures Seen(s, may, ops)
  {
    hide Seen, RatesOk;
    if cfg == s.ConfigOf(tenant) {
      ops := RaiseSeen(s, may, tenant, next);
    } else {
      RatesStayOk(s, may, tenant, cfg);
      var rest := RaiseSeen(s.With(tenant, cfg), may, tenant, next);
      SeenAfter(s, may, tenant, cfg, rest);
      ops := [Reconfigure(tenant, cfg, 0.0)] + rest;
    }
  }

  // ---- The exact conditions ----

  lemma NothingToAgreeOn(s: Settings)
    ensures Simulates(s, EMPTY, EMPTY, 0.0)
  {
  }

  /** When configurations may change, eviction is unobservable, in every run and for every tenant,
      exactly when every bucket a tenant may have refills within the idle time and no change ever
      raises a burst. */
  lemma ReconfiguredUnobservableIff(s: Settings, may: Choice)
    requires RatesOk(s, may)
    ensures (forall ops :: InOrder(ops, 0.0) && Permitted(ops, may) ==>
               Answers(s, EMPTY, ops, true) == Answers(s, EMPTY, ops, false))
       <==> AllRefill(s, may) && NeverRaised(s, may)
  {
    hide Answers, InOrder, Permitted, RatesOk, Possible, RefillsInTime;
    if AllRefill(s, may) && NeverRaised(s, may) {
      NothingToAgreeOn(s);
      forall ops | InOrder(ops, 0.0) && Permitted(ops, may)
        ensures Answers(s, EMPTY, ops, true) == Answers(s, EMPTY, ops, false)
      {
        SameAnswers(s, may, EMPTY, EMPTY, ops, 0.0);
      }
    } else if !AllRefill(s, may) {
      var t, cfg :| Possible(s, may, t, cfg) && !RefillsInTime(cfg, s.maxIdleTime);
      var ops := SlowSeen(s, may, t, cfg);
    } else {
      var t, cfg, next :| Possible(s, may, t, cfg) && may(t, next) && next.burst > cfg.burst;
      var ops := RaisedSeen(s, may, t, cfg, next);
    }
  }

  /** No configuration ever changes. */
  const FIXED: Choice := (t, cfg) => false

  predicate Reconfigures(ops: seq<Op>) { exists i :: 0 <= i < |ops| && ops[i].Reconfigure? }

  /** With fixed configurations the exact condition is that every bucket refills in time. */
  lemma EvictionUnobservableIff(s: Settings)
    requires s.maxIdleTime >= 0.0 && forall t :: s.ConfigOf(t).rate >= 0.0
    ensures (forall ops :: InOrder(ops, 0.0) && !Reconfigures(ops) ==>
               Answers(s, EMPTY, ops, true) == Answers(s, EMPTY, ops, false))
       <==> forall t :: RefillsInTime(s.ConfigOf(t), s.maxIdleTime)
  {
    hide Answers, InOrder, RefillsInTime;
    ReconfiguredUnobservableIff(s, FIXED);
    FixedPossible(s);
    forall ops ensures Permitted(ops, FIXED) <==> !Reconfigures(ops) {
      FixedPermitted(ops);
    }
  }

  lemma FixedPossible(s: Settings)
    ensures forall t :: Possible(s, FIXED, t, s.ConfigOf(t))
    ensures forall t, cfg :: Possible(s, FIXED, t, cfg) ==> cfg == s.ConfigOf(t)
  {
  }

  lemma FixedPermitted(ops: seq<Op>)
    ensures Permitted(ops, FIXED) <==> !Reconfigures(ops)
  {
  }

  /** What is left of `m` when of the keys in `idle` only those in `todo` are still there. */
  ghost function Left<V>(m: map<string, V>, idle: set<string>, todo: set<string>): map<string, V> {
    m - (idle - todo)
  }

  lemma LeftAt<V>(m: map<string, V>, idle: set<string>, todo: set<string>, key: string)
    requires key in m && key in todo
    ensures key in Left(m, idle, todo) && Left(m, idle, todo)[key] == m[key]
    ensures Left(m, idle, todo - {key}) == if key in idle then Left(m, idle, todo) - {key} else Left(m, idle, todo)
  {
    assert idle - (todo - {key}) == if key in idle then (idle - todo) + {key} else idle - todo;
  }

  lemma LeftEnds<V>(m: map<string, V>, idle: set<string>)
    requires idle <= m.Keys
    ensures Left(m, idle, m.Keys) == m && Left(m, idle, {}) == m - idle
  {
    assert idle - m.Keys == {};
    assert idle - {} == idle;
  }

  lemma IdleMeans(s: Settings, c: Cache, now: real)
    ensures Idle(s, c, now) <= c.lastUsed.Keys
    ensures forall t :: t in c.lastUsed ==> (t in Idle(s, c, now) <==> now - c.lastUsed[t] > s.maxIdleTime)
  {
  }

  // ---- The limiter itself ----

  class TenantRateLimiter {
    const default: TenantConfig
    const maxIdleTime: real
    var overrides: map<string, TenantConfig>
    var limiters: map<string, Bucket>
    var lastUsed: map<string, real>

    function Config(): Settings
      reads this
    {
      Settings(default, overrides, maxIdleTime)
    }

    function Contents(): Cache
      reads this
    {
      Cache(limiters, lastUsed)
    }

    /** Live limiters are exactly the used ones, each with its tenant's configuration. */
    ghost predicate Valid()
      reads this
    {
      && limiters.Keys == lastUsed.Keys
      && forall t :: t in limiters ==> TenantConfig(limiters[t].rate, limiters[t].burst) == Config().ConfigOf(t)
    }

    constructor (default: TenantConfig)
      ensures Valid() && Contents() == EMPTY
      ensures Config() == Settings(default, map[], 1800.0)
    {
      this.default := default;
      maxIdleTime := 1800.0;
      overrides, limiters, lastUsed := map[], map[], map[];
    }

    /** A live limiter keeps its tokens up to this moment and goes on under the new configuration. */
    method SetTenantConfig(tenant: string, config: TenantConfig, now: real)
      requires Valid()
      modifies this
      ensures Valid() && Config() == old(Config()).With(tenant, config)
      ensures Contents() == Retune(old(Contents()), tenant, config, now)
    {
      overrides := overrides[tenant := config];
      if tenant in limiters {
        var b := limiters[tenant];
        limiters := limiters[tenant := Bucket(config.rate, config.burst, Refill(b, now), now)];
      }
    }

    method GetLimiter(tenant: string, now: real) returns (limiter: Bucket)
      requires Valid()
      modifies this
      ensures Valid() && overrides == old(overrides)
      ensures Contents() == Touch(Config(), old(Contents()), tenant, now)
      ensures limiter == limiters[tenant]
    {
      lastUsed := lastUsed[tenant := now];
      if tenant in limiters {
        return limiters[tenant];
      }
      var config := default;
      if tenant in overrides {
        config := overrides[tenant];
      }
      limiter := Bucket(config.rate, config.burst, config.burst as real, now);
      limiters := limiters[tenant := limiter];
    }

    method AllowN(tenant: string, n: int, now: real) returns (allowed: bool)
      requires Valid()
      modifies this
      ensures Valid() && overrides == old(overrides)
      ensures allowed == Answer(Config(), old(Contents()), tenant, n, now)
      ensures Contents() == Ask(Config(), old(Contents()), tenant, n, now)
    {
      hide Refill;
      var limiter := GetLimiter(tenant, now);
      var tokens := Refill(limiter, now);
      allowed := n as real <= tokens;
      if allowed {
        limiters := limiters[tenant := limiter.(tokens := tokens - n as real, last := now)];
      }
    }

    method Allow(tenant: string, now: real) returns (allowed: bool)
      requires Valid()
      modifies this
      ensures Valid() && overrides == old(overrides)
      ensures allowed == Answer(Config(), old(Contents()), tenant, 1, now)
      ensures Contents() == Ask(Config(), old(Contents()), tenant, 1, now)
    {
      allowed := AllowN(tenant, 1, now);
    }

    /** One sweep over the last-used times. */
    method Cleanup(now: real)
      requires Valid()
      modifies this`limiters, this`lastUsed
      ensures Valid()
      ensures Contents() == Evict(Config(), old(Contents()), now)
      ensures forall t :: t in lastUsed <==> t in old(lastUsed) && now - old(lastUsed)[t] <= maxIdleTime
      ensures forall t :: t in lastUsed ==> lastUsed[t] == old(lastUsed)[t] && limiters[t] == old(limiters)[t]
    {
      hide Idle, Left;
      var todo := lastUsed.Keys;
      ghost var used, kept := lastUsed, limiters;
      ghost var idle := Idle(Config(), Contents(), now);
      IdleMeans(Config(), Contents(), now);
      LeftEnds(kept, idle);
      LeftEnds(used, idle);
      while todo != {}
        invariant todo <= used.Keys
        invariant limiters == Left(kept, idle, todo) && lastUsed == Left(used, idle, todo)
        decreases |todo|
      {
        var tenant :| tenant in todo;
        LeftAt(kept, idle, todo, tenant);
        LeftAt(used, idle, todo, tenant);
        todo := todo - {tenant};
        if now - lastUsed[tenant] > maxIdleTime {
          limiters := limiters - {tenant};
          lastUsed := lastUsed - {tenant};
        }
      }
    }
  }
}
