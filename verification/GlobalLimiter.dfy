/** The system-wide limiter of internal/resilience/rate_limiter.go: a token bucket in front of a
    circuit breaker.  A request first takes a token and then enters the breaker; other requests
    may come between the two. */
module GlobalLimiter {
  import opened BreakerGuarantees
  import opened BreakerRecovery
  import opened CircuitBreaker
  import opened Options
  import B = TokenBucket

  /** Half the burst as probes, 30 seconds of counting, 10 seconds open, more than half failing. */
  function BreakerFor(burst: nat): Config {
    Defaulted(Settings(burst / 2, 30.0, 10.0, Some(FailureRateRule(0.5))))
  }

  /** What the proofs use of that configuration. */
  ghost predicate Governs(cfg: Config, burst: nat) {
    && cfg.maxRequests == (if burst < 2 then 1 else burst / 2)
    && cfg.interval == 30.0 && cfg.timeout == 10.0
    && (forall c :: cfg.readyToTrip(c) ==> c.requests >= 10)
    && cfg.readyToTrip(AllFailed(10))
  }

  lemma BreakerGoverns(burst: nat)
    ensures Governs(BreakerFor(burst), burst)
  {
    FailureRateOnAllFailed(0.5, 10);
  }

  /** It trips exactly on ten requests of which more than half failed. */
  lemma SystemBreakerTripsIff(burst: nat, c: Counts)
    ensures BreakerFor(burst).readyToTrip(c) <==> c.requests >= 10 && 2 * c.failures > c.requests
  {
    FailureRateIff(0.5, c);
    assert BreakerFor(burst).readyToTrip == FailureRateRule(0.5);
  }

  // ---- Runs ----

  /** `passed` requests have found the breaker not open and not yet asked for a token; `permits`
      requests hold a token and have not yet entered the breaker. */
  datatype Global = Global(breaker: World, bucket: B.Bucket, passed: nat, permits: nat, clock: real)

  /** A request reads the clock at its poll, at its token and at its entry. */
  datatype Turn =
    | Execute(now: real)  // all three at one moment
    | Pass(now: real)     // the poll alone
    | Permit(now: real)   // a request that passed asks for its token
    | Enter(now: real)    // a request that holds a token enters
    | Other(event: Event) // a call ends, the state is polled, the metrics are reset

  /** The limiter's parameters and the kind of run.  An unlimited rate never refuses and draws nothing. */
  datatype Setup = Setup(cfg: Config, rps: real, unlimited: bool, burst: nat, lagging: bool) {
    ghost predicate Valid() { cfg.Valid() && Governs(cfg, burst) && rps >= 0.0 }
  }

  ghost predicate Enabled(g: Global, t: Turn) {
    match t
    case Execute(now) => now >= g.clock
    case Pass(now) => now >= g.clock
    case Permit(now) => now >= g.clock && g.passed > 0
    case Enter(now) => now >= g.clock && g.permits > 0
    case Other(e) => Possible(g.breaker, e) && e.now >= g.clock && !e.Start?
  }

  predicate Gives(s: Setup, b: B.Bucket, now: real) { s.unlimited || B.Grants(b, 1, now) }

  function Drawn(s: Setup, b: B.Bucket, now: real): B.Bucket { if s.unlimited then b else B.Take(b, 1, now) }

  ghost function Stepped(s: Setup, g: Global, e: Event): Global {
    g.(breaker := Step(s.cfg, g.breaker, e), clock := e.now)
  }

  /** The first half of Allow: no token is asked for while the breaker is open. */
  ghost function Passed(s: Setup, g: Global, now: real): Global {
    var p := Stepped(s, g, Poll(now));
    if p.breaker.core.state == Open then p else p.(passed := p.passed + 1)
  }

  /** The second half. */
  ghost function Permitted(s: Setup, g: Global, now: real): Global
    requires g.passed > 0
  {
    if Gives(s, g.bucket, now) then
      Global(g.breaker, Drawn(s, g.bucket, now), g.passed - 1, g.permits + 1, now)
    else g.(passed := g.passed - 1, clock := now)
  }

  ghost function Entered(s: Setup, g: Global, now: real): Global
    requires g.permits > 0
  {
    Stepped(s, g.(permits := g.permits - 1), Start(now))
  }

  ghost function After(s: Setup, g: Global, t: Turn): Global
    requires Enabled(g, t)
  {
    match t
    case Execute(now) =>
      var p := Passed(s, g, now);
      if p.passed == g.passed then p
      else
        var q := Permitted(s, p, now);
        if q.permits == g.permits then q else Entered(s, q, now)
    case Pass(now) => Passed(s, g, now)
    case Permit(now) => Permitted(s, g, now)
    case Enter(now) => Entered(s, g, now)
    case Other(e) => Stepped(s, g, e)
  }

  predicate Prompt(t: Turn) { t.Execute? || t.Other? }

  ghost function Init(s: Setup, now: real, metricsNow: real): Global {
    Global(Fresh(s.cfg, now, metricsNow), B.FullBucket(B.TenantConfig(s.rps, s.burst), now), 0, 0, metricsNow)
  }

  /** Without `lagging` every request does its three steps at one moment. */
  ghost predicate Run(s: Setup, gs: seq<Global>, ts: seq<Turn>) {
    && |gs| == |ts| + 1
    && forall i {:trigger ts[i]} :: 0 <= i < |ts| ==>
      Enabled(gs[i], ts[i]) && gs[i + 1] == After(s, gs[i], ts[i]) && (s.lagging || Prompt(ts[i]))
  }

  ghost predicate Begins(s: Setup, g: Global) {
    exists now: real, metricsNow: real :: now <= metricsNow && g == Init(s, now, metricsNow)
  }

  ghost predicate Arises(s: Setup, g: Global) {
    exists gs, ts :: Run(s, gs, ts) && Begins(s, gs[0]) && gs[|ts|] == g
  }

  lemma Go(s: Setup, g: Global, t: Turn) returns (h: Global)
    requires Arises(s, g) && Enabled(g, t) && (s.lagging || Prompt(t))
    ensures Arises(s, h) && h == After(s, g, t)
  {
    hide After, Enabled, Begins;
    h := After(s, g, t);
    var gs, ts :| Run(s, gs, ts) && Begins(s, gs[0]) && gs[|ts|] == g;
    assert Run(s, gs + [h], ts + [t]) && (gs + [h])[|ts + [t]|] == h;
  }

  // ---- What every run keeps ----

  predicate BucketFits(s: Setup, bucket: B.Bucket, clock: real) {
    && bucket.rate == s.rps && bucket.burst == s.burst
    && 0.0 <= bucket.tokens <= s.burst as real && bucket.last <= clock
  }

  ghost predicate BucketOk(s: Setup, g: Global) { BucketFits(s, g.bucket, g.clock) }

  /** Tokens that must have been spent for the breaker to be where it is. */
  function Needed(c: Core): nat {
    match c.state
    case Closed => c.counts.requests
    case Open => 10
    case HalfOpen => 10 + c.counts.requests
  }

  lemma TickNeeds(cfg: Config, c: Core, now: real)
    ensures Needed(Tick(cfg, c, now)) <= Needed(c)
  {
  }

  lemma BeginNeeds(cfg: Config, c: Core, now: real)
    ensures Needed(Begin(cfg, c, now)) <= Needed(c) + 1
  {
    TickNeeds(cfg, c, now);
  }

  lemma EndNeeds(s: Setup, c: Core, g: nat, success: bool, now: real)
    requires s.Valid()
    ensures Needed(End(s.cfg, c, g, success, now)) <= Needed(c)
  {
    TickNeeds(s.cfg, c, now);
  }

  lemma StepNeeds(s: Setup, w: World, e: Event)
    requires s.Valid()
    ensures Needed(Step(s.cfg, w, e).core) <= Needed(w.core) + if e.Start? then 1 else 0
  {
    match e
    case Start(now) => BeginNeeds(s.cfg, w.core, now);
    case Finish(g, outcome, now) => EndNeeds(s, w.core, g, outcome == Succeeded, now);
    case Poll(now) => TickNeeds(s.cfg, w.core, now);
    case Reset(now) =>
  }

  /** Without refill the tokens left, held and needed never exceed the burst; without a burst no
      request ever gets through. */
  ghost predicate Spare(s: Setup, g: Global) {
    && (s.rps == 0.0 ==> g.bucket.tokens + (g.permits + Needed(g.breaker.core)) as real <= s.burst as real)
    && (s.burst == 0 ==> g.permits == 0 && g.breaker.core.counts.requests == 0)
  }

  /** A closed generation that began at `start` has counted no more than the bucket could give. */
  ghost predicate InWindow(s: Setup, c: Core, bucket: B.Bucket, clock: real) {
    c.state == Closed ==>
      && c.expiry.Some?
      && var start := c.expiry.value - 30.0;
      && start <= clock
      && c.counts.requests as real + B.Refill(bucket, clock) <= s.burst as real + B.Gain(s.rps, clock - start)
      && c.counts.requests as real <= s.burst as real + s.rps * 30.0
  }

  ghost predicate Unhurried(s: Setup, g: Global) {
    !s.lagging ==>
      && g.permits == 0
      && InWindow(s, g.breaker.core, g.bucket, g.clock)
      && (s.burst as real + s.rps * 30.0 < 10.0 ==> g.breaker.core.state == Closed)
  }

  ghost predicate Inv(s: Setup, g: Global) {
    && Reachable(s.cfg, g.breaker) && g.breaker.clock <= g.clock && BucketOk(s, g)
    && (!s.unlimited ==> Spare(s, g) && Unhurried(s, g))
  }

  lemma RefillGrows(b: B.Bucket, now: real, later: real)
    requires b.rate >= 0.0 && b.last <= now <= later && 0.0 <= b.tokens <= b.burst as real
    ensures b.tokens <= B.Refill(b, now) <= B.Refill(b, later) <= B.Refill(b, now) + B.Gain(b.rate, later - now)
    ensures B.Refill(b, later) <= b.burst as real
  {
    hide B.Gain;
    B.GainNonnegative(b.rate, now - b.last);
    B.GainNonnegative(b.rate, later - now);
    B.GainLater(b.rate, b.last, now, later);
  }

  lemma TakenRefill(b: B.Bucket, now: real)
    requires B.Grants(b, 1, now)
    ensures B.Refill(B.Take(b, 1, now), now) == B.Refill(b, now) - 1.0
  {
    hide B.Gain;
    B.GainNothing(b.rate, now - now);
  }

  lemma FreshWindow(s: Setup, c: Core, bucket: B.Bucket, now: real)
    requires s.Valid() && c.counts == NO_COUNTS && c.expiry == Some(now + 30.0)
    requires B.Refill(bucket, now) <= s.burst as real
    ensures InWindow(s, c, bucket, now)
  {
    hide B.Gain, B.Refill;
    B.GainNothing(s.rps, now - now);
  }

  /** Time passes within a generation. */
  lemma LaterWindow(s: Setup, c: Core, bucket: B.Bucket, clock: real, now: real)
    requires s.Valid() && InWindow(s, c, bucket, clock) && clock <= now && BucketFits(s, bucket, clock)
    ensures InWindow(s, c, bucket, now)
  {
    hide B.Gain, B.Refill;
    RefillGrows(bucket, clock, now);
    if c.state == Closed {
      B.GainLater(s.rps, c.expiry.value - 30.0, clock, now);
    }
  }

  /** Time passes and the breaker makes its timed transition. */
  lemma TickWindow(s: Setup, c: Core, bucket: B.Bucket, clock: real, now: real)
    requires s.Valid() && InWindow(s, c, bucket, clock) && clock <= now && BucketFits(s, bucket, clock)
    ensures InWindow(s, Tick(s.cfg, c, now), bucket, now)
  {
    hide B.Gain, B.Refill;
    var t := Tick(s.cfg, c, now);
    if t == c {
      LaterWindow(s, c, bucket, clock, now);
    } else if t.state == Closed {
      RefillGrows(bucket, clock, now);
      FreshWindow(s, t, bucket, now);
    }
  }

  /** A request enters at the moment it takes its token. */
  lemma BeginWindow(s: Setup, c: Core, bucket: B.Bucket, now: real)
    requires s.Valid() && InWindow(s, c, bucket, now) && Tick(s.cfg, c, now) == c && c.state != Open
    requires B.Grants(bucket, 1, now)
    ensures InWindow(s, Begin(s.cfg, c, now), B.Take(bucket, 1, now), now)
  {
    hide B.Gain, B.Refill, B.Take;
    TakenRefill(bucket, now);
    if c.state == Closed {
      var start := c.expiry.value - 30.0;
      OneMore(s.rps, s.burst as real, c.counts.requests as real, B.Refill(bucket, now), start, now);
    }
  }

  lemma OneMore(rps: real, burst: real, requests: real, refill: real, start: real, now: real)
    requires rps >= 0.0 && refill >= 1.0 && now <= start + 30.0
    requires requests + refill <= burst + B.Gain(rps, now - start)
    ensures requests + 1.0 <= burst + rps * 30.0
  {
    B.GainNonnegative(rps, start + 30.0 - now);
    B.GainLater(rps, start, now, start + 30.0);
    assert B.Gain(rps, 30.0) == rps * 30.0;
  }

  /** A result leaves a closed generation's requests and expiry alone, or a fresh one begins. */
  lemma EndsClosed(s: Setup, c: Core, g: nat, success: bool, now: real)
    requires s.Valid()
    ensures var t, e := Tick(s.cfg, c, now), End(s.cfg, c, g, success, now);
      e.state == Closed ==>
        || (e.counts == NO_COUNTS && e.expiry == Some(now + 30.0))
        || (t.state == Closed && e.expiry == t.expiry && e.counts.requests == t.counts.requests)
  {
  }

  lemma EndWindow(s: Setup, c: Core, bucket: B.Bucket, g: nat, success: bool, clock: real, now: real)
    requires s.Valid() && InWindow(s, c, bucket, clock) && clock <= now
    requires BucketFits(s, bucket, clock)
    ensures InWindow(s, End(s.cfg, c, g, success, now), bucket, now)
  {
    hide Tick, End, B.Gain, B.Refill;
    TickWindow(s, c, bucket, clock, now);
    EndsClosed(s, c, g, success, now);
    var e := End(s.cfg, c, g, success, now);
    if e.counts == NO_COUNTS && e.expiry == Some(now + 30.0) {
      RefillGrows(bucket, clock, now);
      FreshWindow(s, e, bucket, now);
    }
  }

  /** A closed breaker with fewer than ten requests, whatever happens next, stays closed. */
  lemma StaysShut(s: Setup, c: Core, bucket: B.Bucket, clock: real, w: World, e: Event)
    requires s.Valid() && InWindow(s, c, bucket, clock) && s.burst as real + s.rps * 30.0 < 10.0
    requires c.state == Closed && w.core == c
    ensures Step(s.cfg, w, e).core.state == Closed
  {
    assert c.counts.requests < 10;
  }

  lemma TickTwice(cfg: Config, c: Core, now: real)
    requires cfg.Valid()
    ensures Tick(cfg, Tick(cfg, c, now), now) == Tick(cfg, c, now)
  {
  }

  lemma OneStep(cfg: Config, w: World, e: Event)
    requires Reachable(cfg, w) && Possible(w, e)
    ensures Reachable(cfg, Step(cfg, w, e))
  {
    var v := Then(cfg, w, e);
  }

  lemma NoRequests(cfg: Config, w: World, e: Event)
    requires w.core.counts.requests == 0 && !e.Start?
    ensures Step(cfg, w, e).core.counts.requests == 0
  {
  }

  /** The breaker's clock never runs ahead. */
  lemma SteppedReachable(s: Setup, g: Global, e: Event)
    requires Reachable(s.cfg, g.breaker) && Possible(g.breaker, e) && g.breaker.clock <= g.clock <= e.now
    ensures Reachable(s.cfg, Stepped(s, g, e).breaker) && Stepped(s, g, e).breaker.clock <= e.now
  {
    hide Reachable;
    OneStep(s.cfg, g.breaker, e);
  }

  lemma SteppedSpare(s: Setup, g: Global, e: Event)
    requires s.Valid() && Spare(s, g) && !e.Start?
    ensures Spare(s, Stepped(s, g, e))
  {
    hide Step;
    StepNeeds(s, g.breaker, e);
    if s.burst == 0 {
      NoRequests(s.cfg, g.breaker, e);
    }
  }

  /** Anything but a request's entry keeps the window. */
  lemma StepWindow(s: Setup, w: World, bucket: B.Bucket, e: Event, clock: real)
    requires s.Valid() && InWindow(s, w.core, bucket, clock) && clock <= e.now && !e.Start?
    requires BucketFits(s, bucket, clock)
    ensures InWindow(s, Step(s.cfg, w, e).core, bucket, e.now)
  {
    hide InWindow, BucketFits, End, Tick;
    match e
    case Finish(g, outcome, now) => EndWindow(s, w.core, bucket, g, outcome == Succeeded, clock, now);
    case Poll(now) => TickWindow(s, w.core, bucket, clock, now);
    case Reset(now) => ClearedWindow(s, w.core, bucket, clock, now);
  }

  lemma ClearedWindow(s: Setup, c: Core, bucket: B.Bucket, clock: real, now: real)
    requires s.Valid() && InWindow(s, c, bucket, clock) && clock <= now && BucketFits(s, bucket, clock)
    ensures InWindow(s, ClearMetrics(c, now), bucket, now)
  {
    LaterWindow(s, c, bucket, clock, now);
  }

  lemma SteppedUnhurried(s: Setup, g: Global, e: Event)
    requires s.Valid() && Unhurried(s, g) && BucketOk(s, g) && g.clock <= e.now && !e.Start?
    ensures Unhurried(s, Stepped(s, g, e))
  {
    hide InWindow, Step;
    if !s.lagging {
      StepWindow(s, g.breaker, g.bucket, e, g.clock);
      if s.burst as real + s.rps * 30.0 < 10.0 {
        StaysShut(s, g.breaker.core, g.bucket, g.clock, g.breaker, e);
      }
    }
  }

  lemma OtherInv(s: Setup, g: Global, e: Event)
    requires s.Valid() && Inv(s, g) && Possible(g.breaker, e) && g.clock <= e.now && !e.Start?
    ensures Inv(s, Stepped(s, g, e))
  {
    hide Reachable, Spare, Unhurried, Step;
    SteppedReachable(s, g, e);
    if !s.unlimited {
      SteppedSpare(s, g, e);
      SteppedUnhurried(s, g, e);
    }
  }

  lemma TakenOk(s: Setup, b: B.Bucket, clock: real, now: real)
    requires s.Valid() && BucketFits(s, b, clock) && clock <= now && B.Grants(b, 1, now)
    ensures BucketFits(s, B.Take(b, 1, now), now) && s.burst >= 1
    ensures s.rps == 0.0 ==> B.Take(b, 1, now).tokens == b.tokens - 1.0
  {
    hide B.Gain;
    RefillGrows(b, now, now);
    if s.rps == 0.0 {
      B.GainNothing(s.rps, now - b.last);
    }
  }

  /** A request takes a token and enters at the moment it passed the poll. */
  lemma EnteredUnhurried(s: Setup, p: Global, now: real)
    requires s.Valid() && Unhurried(s, p) && !s.lagging && B.Grants(p.bucket, 1, now) && now == p.clock
    requires Tick(s.cfg, p.breaker.core, now) == p.breaker.core && p.breaker.core.state != Open
    ensures Unhurried(s, Stepped(s, p.(bucket := B.Take(p.bucket, 1, now)), Start(now)))
  {
    hide InWindow, Tick;
    BeginWindow(s, p.breaker.core, p.bucket, now);
    if s.burst as real + s.rps * 30.0 < 10.0 {
      StaysShut(s, p.breaker.core, p.bucket, p.clock, p.breaker, Start(now));
    }
  }

  lemma EnteredSpare(s: Setup, p: Global, now: real)
    requires s.Valid() && Spare(s, p) && BucketFits(s, p.bucket, p.clock) && p.clock <= now
    requires B.Grants(p.bucket, 1, now)
    ensures Spare(s, Stepped(s, p.(bucket := B.Take(p.bucket, 1, now)), Start(now)))
  {
    hide Step, B.Take, B.Grants, BucketFits;
    TakenOk(s, p.bucket, p.clock, now);
    StepNeeds(s, p.breaker, Start(now));
  }

  /** All three steps at one moment: the entry follows the poll. */
  lemma EnteredInv(s: Setup, p: Global, now: real)
    requires s.Valid() && Inv(s, p) && now == p.clock && Gives(s, p.bucket, now)
    requires Tick(s.cfg, p.breaker.core, now) == p.breaker.core && p.breaker.core.state != Open
    ensures Inv(s, Stepped(s, p.(bucket := Drawn(s, p.bucket, now)), Start(now)))
  {
    hide Reachable, Spare, Unhurried, Step, Tick, B.Take, B.Grants, BucketFits;
    var q := p.(bucket := Drawn(s, p.bucket, now));
    SteppedReachable(s, q, Start(now));
    if !s.unlimited {
      TakenOk(s, p.bucket, p.clock, now);
      EnteredSpare(s, p, now);
      if s.lagging {
        assert Unhurried(s, Stepped(s, q, Start(now))) by {
          LaggingUnhurried(s, Stepped(s, q, Start(now)));
        }
      } else {
        EnteredUnhurried(s, p, now);
      }
    }
  }

  lemma LaggingUnhurried(s: Setup, g: Global)
    requires s.lagging
    ensures Unhurried(s, g)
  {
  }

  lemma ExecuteInv(s: Setup, g: Global, now: real)
    requires s.Valid() && Inv(s, g) && now >= g.clock
    ensures Inv(s, After(s, g, Execute(now)))
  {
    hide Inv, Tick, Gives, Drawn;
    var p := Stepped(s, g, Poll(now));
    PolledInv(s, g, now);
    TickTwice(s.cfg, g.breaker.core, now);
    if p.breaker.core.state != Open && Gives(s, p.bucket, now) {
      EnteredInv(s, p, now);
    }
  }

  lemma PolledInv(s: Setup, g: Global, now: real)
    requires s.Valid() && Inv(s, g) && now >= g.clock
    ensures Inv(s, Stepped(s, g, Poll(now)))
  {
    hide Step;
    OtherInv(s, g, Poll(now));
  }

  lemma PassInv(s: Setup, g: Global, now: real)
    requires s.Valid() && s.lagging && Inv(s, g) && now >= g.clock
    ensures Inv(s, Passed(s, g, now))
  {
    hide Step, Reachable, BucketFits;
    PolledInv(s, g, now);
  }

  lemma PermitInv(s: Setup, g: Global, now: real)
    requires s.Valid() && s.lagging && Inv(s, g) && Enabled(g, Permit(now))
    ensures Inv(s, Permitted(s, g, now))
  {
    hide Reachable, B.Take, B.Grants;
    if !s.unlimited && B.Grants(g.bucket, 1, now) {
      TakenOk(s, g.bucket, g.clock, now);
    }
  }

  lemma EnterInv(s: Setup, g: Global, now: real)
    requires s.Valid() && s.lagging && Inv(s, g) && Enabled(g, Enter(now))
    ensures Inv(s, Entered(s, g, now))
  {
    hide Reachable, Step;
    SteppedReachable(s, g, Start(now));
    StepNeeds(s, g.breaker, Start(now));
  }

  lemma FreshReachable(cfg: Config, now: real, metricsNow: real)
    requires now <= metricsNow
    ensures Reachable(cfg, Fresh(cfg, now, metricsNow))
  {
    hide Leads;
    LeadsNowhere(cfg, Fresh(cfg, now, metricsNow));
  }

  lemma InitInv(s: Setup, g: Global)
    requires s.Valid() && Begins(s, g)
    ensures Inv(s, g)
  {
    var now: real, metricsNow: real :| now <= metricsNow && g == Init(s, now, metricsNow);
    hide Reachable, B.Gain;
    FreshReachable(s.cfg, now, metricsNow);
    B.GainNonnegative(s.rps, metricsNow - now);
  }

  lemma TurnInv(s: Setup, g: Global, t: Turn)
    requires s.Valid() && Inv(s, g) && Enabled(g, t) && (s.lagging || Prompt(t))
    ensures Inv(s, After(s, g, t))
  {
    hide Inv, Stepped, Passed, Permitted, Entered;
    match t
    case Execute(now) => ExecuteInv(s, g, now);
    case Pass(now) => PassInv(s, g, now);
    case Permit(now) => PermitInv(s, g, now);
    case Enter(now) => EnterInv(s, g, now);
    case Other(e) => OtherInv(s, g, e);
  }

  lemma {:induction false} RunInv(s: Setup, gs: seq<Global>, ts: seq<Turn>, n: nat)
    requires s.Valid() && Run(s, gs, ts) && n <= |ts| && Inv(s, gs[0])
    ensures Inv(s, gs[n])
  {
    hide Inv, After, Enabled;
    if n > 0 {
      RunInv(s, gs, ts, n - 1);
      TurnInv(s, gs[n - 1], ts[n - 1]);
    }
  }

  lemma ArisesInv(s: Setup, g: Global)
    requires s.Valid() && Arises(s, g)
    ensures Inv(s, g)
  {
    hide Inv, After, Enabled;
    var gs, ts :| Run(s, gs, ts) && Begins(s, gs[0]) && gs[|ts|] == g;
    InitInv(s, gs[0]);
    RunInv(s, gs, ts, |ts|);
  }

  // ---- Runs into the stuck state ----

  /** The breaker is closed or half-open at this moment, with these counts and outstanding calls. */
  ghost predicate At(s: Setup, g: Global, state: State, counts: Counts, outstanding: nat) {
    && Arises(s, g) && g.breaker.clock <= g.clock && g.breaker.core.state == state && state != Open
    && !Expired(g.breaker.core, g.clock)
    && g.breaker.core.counts == counts && g.breaker.calls[g.breaker.core.generation] >= outstanding
  }

  ghost function Tokens(g: Global): real { B.Refill(g.bucket, g.clock) }

  predicate HasRoom(s: Setup, state: State, requests: nat) { state == HalfOpen ==> requests < s.cfg.maxRequests }

  /** A request gets through at a later moment of the same generation. */
  lemma GetThrough(s: Setup, g: Global, state: State, counts: Counts, n: nat, now: real) returns (h: Global)
    requires s.Valid() && At(s, g, state, counts, n) && HasRoom(s, state, counts.requests)
    requires now >= g.clock && !Expired(g.breaker.core, now) && Gives(s, g.bucket, now)
    ensures At(s, h, state, counts.(requests := counts.requests + 1), n + 1)
    ensures h.clock == now && h.bucket == Drawn(s, g.bucket, now) && h.breaker.core.expiry == g.breaker.core.expiry
  {
    hide Arises, B.Take, B.Grants;
    h := Go(s, g, Execute(now));
  }

  lemma {:induction false} GetThroughMany(s: Setup, g: Global, state: State, counts: Counts, n: nat, k: nat)
    returns (h: Global)
    requires s.Valid() && At(s, g, state, counts, n) && (s.unlimited || Tokens(g) >= k as real)
    requires state == HalfOpen ==> counts.requests + k <= s.cfg.maxRequests
    ensures At(s, h, state, counts.(requests := counts.requests + k), n + k)
    ensures h.clock == g.clock && h.breaker.core.expiry == g.breaker.core.expiry
    ensures !s.unlimited ==> Tokens(h) == Tokens(g) - k as real
  {
    if k == 0 {
      h := g;
    } else {
      h := GetThroughMany(s, g, state, counts, n, k - 1);
      h := OneAtOnce(s, h, state, counts.(requests := counts.requests + k - 1), n + k - 1);
    }
  }

  lemma OneAtOnce(s: Setup, g: Global, state: State, counts: Counts, n: nat) returns (h: Global)
    requires s.Valid() && At(s, g, state, counts, n) && (s.unlimited || Tokens(g) >= 1.0)
    requires HasRoom(s, state, counts.requests)
    ensures At(s, h, state, counts.(requests := counts.requests + 1), n + 1)
    ensures h.clock == g.clock && h.breaker.core.expiry == g.breaker.core.expiry
    ensures !s.unlimited ==> Tokens(h) == Tokens(g) - 1.0
  {
    if !s.unlimited {
      TakenRefill(g.bucket, g.clock);
    }
    h := GetThrough(s, g, state, counts, n, g.clock);
  }

  lemma FailNext(s: Setup, g: Global, state: State, counts: Counts, n: nat) returns (h: Global)
    requires s.Valid() && At(s, g, state, counts, n) && n > 0
    ensures if s.cfg.readyToTrip(Failing(counts, 1)) then Arises(s, h) && h.breaker.core.state == Open
      else At(s, h, state, Failing(counts, 1), n - 1)
    ensures h.bucket == g.bucket && h.clock == g.clock
  {
    hide Arises;
    h := Go(s, g, Other(Finish(g.breaker.core.generation, Failed, g.clock)));
  }

  lemma {:induction false} FailAll(s: Setup, g: Global, state: State, counts: Counts, n: nat, k: nat)
    returns (h: Global)
    requires s.Valid() && At(s, g, state, counts, n) && k <= n
    ensures (Arises(s, h) && h.breaker.core.state == Open) || At(s, h, state, Failing(counts, k), n - k)
    ensures counts.requests < 10 ==> At(s, h, state, Failing(counts, k), n - k)
    ensures h.bucket == g.bucket && h.clock == g.clock
  {
    if k == 0 {
      h := g;
    } else {
      h := FailAll(s, g, state, counts, n, k - 1);
      if h.breaker.core.state != Open {
        h := FailNext(s, h, state, Failing(counts, k - 1), n - k + 1);
      }
    }
  }

  /** Ten calls are outstanding in one closed generation and none has ended. */
  ghost predicate Loaded(s: Setup, g: Global) {
    At(s, g, Closed, NO_COUNTS.(requests := 10), 10)
  }

  /** They fail: the breaker opens. */
  lemma OpenUp(s: Setup, g: Global) returns (h: Global)
    requires s.Valid() && Loaded(s, g)
    ensures Arises(s, h) && h.breaker.core.state == Open && h.bucket == g.bucket && h.clock == g.clock
  {
    var counts := NO_COUNTS.(requests := 10);
    h := FailAll(s, g, Closed, counts, 10, 9);
    if h.breaker.core.state != Open {
      assert Failing(Failing(counts, 9), 1) == AllFailed(10);
      h := FailNext(s, h, Closed, Failing(counts, 9), 1);
    }
  }

  /** A wait after which the bucket has refilled, if it refills at all. */
  lemma FillTime(rate: real, burst: real) returns (fill: real)
    requires rate >= 0.0 && burst >= 0.0
    ensures fill >= 0.0 && (rate > 0.0 ==> B.Gain(rate, fill) >= burst)
  {
    fill := 0.0;
    if rate > 0.0 {
      fill := burst / rate;
      Quotient(burst, rate);
    }
  }

  lemma Quotient(x: real, y: real)
    requires x >= 0.0 && y > 0.0
    ensures x / y >= 0.0 && y * (x / y) == x
  {
  }

  lemma Refilled(b: B.Bucket, fill: real, now: real)
    requires b.rate >= 0.0 && 0.0 <= b.tokens <= b.burst as real && now - b.last >= fill
    requires b.rate > 0.0 ==> B.Gain(b.rate, fill) >= b.burst as real
    ensures B.Refill(b, now) == if b.rate > 0.0 then b.burst as real else b.tokens
  {
    hide B.Gain;
    if b.rate > 0.0 {
      B.GainMore(b.rate, fill, now - b.last);
    } else {
      B.GainNothing(b.rate, now - b.last);
    }
  }

  lemma PollLater(s: Setup, g: Global, now: real) returns (h: Global)
    requires s.Valid() && Arises(s, g) && g.breaker.core.state == Open && g.breaker.clock <= g.clock <= now
    requires Expired(g.breaker.core, now)
    ensures At(s, h, HalfOpen, NO_COUNTS, 0) && h.bucket == g.bucket && h.clock == now
  {
    h := Go(s, g, Other(Poll(now)));
  }

  lemma OpenExpires(cfg: Config, w: World)
    requires cfg.Valid() && Reachable(cfg, w) && w.core.state == Open
    ensures w.core.expiry.Some?
  {
    hide Reachable;
    ReachableInv(cfg, w);
  }

  /** Long after the timeout the breaker is half-open and the bucket as full as it gets. */
  lemma Rest(s: Setup, g: Global) returns (h: Global)
    requires s.Valid() && Arises(s, g) && g.breaker.core.state == Open
    ensures At(s, h, HalfOpen, NO_COUNTS, 0) && h.bucket == g.bucket
    ensures Tokens(h) == if s.rps > 0.0 then s.burst as real else g.bucket.tokens
  {
    hide Arises, Reachable, Step, Spare, Unhurried;
    ArisesInv(s, g);
    OpenExpires(s.cfg, g.breaker);
    var expiry := g.breaker.core.expiry.value;
    var fill := FillTime(s.rps, s.burst as real);
    var later := (if expiry < g.clock then g.clock else expiry) + 1.0 + fill;
    h := PollLater(s, g, later);
    Refilled(g.bucket, fill, later);
  }

  /** With tokens for all probes, and fewer than ten of them, they fail without tripping. */
  lemma Stick(s: Setup, g: Global) returns (h: Global)
    requires s.Valid() && At(s, g, HalfOpen, NO_COUNTS, 0) && s.burst < 20
    requires s.unlimited || Tokens(g) >= s.cfg.maxRequests as real
    ensures Arises(s, h) && Stuck(s.cfg, h.breaker)
  {
    var m := s.cfg.maxRequests;
    h := GetThroughMany(s, g, HalfOpen, NO_COUNTS, 0, m);
    h := FailAll(s, h, HalfOpen, NO_COUNTS.(requests := m), m, m);
    ArisesInv(s, h);
    CountsBalance(s.cfg, h.breaker);
  }

  /** From ten outstanding calls on, what is left is tokens for the probes. */
  lemma StickFromLoaded(s: Setup, g: Global) returns (h: Global)
    requires s.Valid() && Loaded(s, g) && s.burst < 20
    requires s.unlimited || (s.burst >= 1 && (s.rps > 0.0 || g.bucket.tokens >= s.cfg.maxRequests as real))
    ensures Arises(s, h) && Stuck(s.cfg, h.breaker)
  {
    h := OpenUp(s, g);
    h := Rest(s, h);
    h := Stick(s, h);
  }

  lemma FreshLimiter(s: Setup) returns (g: Global)
    requires s.Valid()
    ensures At(s, g, Closed, NO_COUNTS, 0) && g.clock == 1.0 && Tokens(g) == s.burst as real
    ensures g.breaker.core.expiry == Some(31.0) && g.permits == 0
  {
    g := Init(s, 1.0, 1.0);
    var ts: seq<Turn> := [];
    assert Begins(s, g) && Run(s, [g], ts) && [g][|ts|] == g;
    B.GainNothing(s.rps, 1.0 - 1.0);
  }

  /** After the first burst one request gets through every `gap` seconds. */
  lemma {:induction false} Trickle(s: Setup, g: Global, gap: real, k: nat, n: nat) returns (h: Global)
    requires s.Valid() && !s.unlimited && s.burst >= 1 && gap >= 0.0 && B.Gain(s.rps, gap) >= 1.0
    requires k as real * gap <= 30.0
    requires At(s, g, Closed, NO_COUNTS.(requests := n), n)
    requires g.clock == 1.0 && g.breaker.core.expiry == Some(31.0)
    ensures At(s, h, Closed, NO_COUNTS.(requests := n + k), n + k)
    ensures h.clock == 1.0 + k as real * gap && h.breaker.core.expiry == Some(31.0)
  {
    hide At;
    if k == 0 {
      h := g;
    } else {
      Spacing(k, gap);
      var u := Trickle(s, g, gap, k - 1, n);
      h := OneTrickle(s, u, gap, n + k - 1);
    }
  }

  lemma OneTrickle(s: Setup, g: Global, gap: real, n: nat) returns (h: Global)
    requires s.Valid() && !s.unlimited && s.burst >= 1 && gap >= 0.0 && B.Gain(s.rps, gap) >= 1.0
    requires At(s, g, Closed, NO_COUNTS.(requests := n), n)
    requires g.clock + gap <= 31.0 && g.breaker.core.expiry == Some(31.0)
    ensures At(s, h, Closed, NO_COUNTS.(requests := n + 1), n + 1)
    ensures h.clock == g.clock + gap && h.breaker.core.expiry == Some(31.0)
  {
    var now := g.clock + gap;
    ArisesInv(s, g);
    OneMoreToken(s, g, gap, now);
    h := GetThrough(s, g, Closed, NO_COUNTS.(requests := n), n, now);
  }

  lemma Spacing(k: nat, gap: real)
    requires k > 0 && gap >= 0.0
    ensures k as real * gap == (k - 1) as real * gap + gap
    ensures (k - 1) as real * gap <= k as real * gap
  {
    assert k as real == (k - 1) as real + 1.0;
  }

  lemma OneMoreToken(s: Setup, g: Global, gap: real, now: real)
    requires s.Valid() && BucketOk(s, g) && s.burst >= 1 && gap >= 0.0 && B.Gain(s.rps, gap) >= 1.0
    requires now == g.clock + gap
    ensures B.Refill(g.bucket, now) >= 1.0
  {
    hide B.Gain;
    B.GainMore(s.rps, gap, now - g.bucket.last);
  }

  lemma NoRefill(s: Setup, g: Global)
    requires s.Valid() && !s.unlimited && s.rps == 0.0 && Arises(s, g)
    ensures Tokens(g) == g.bucket.tokens
  {
    hide Arises, Reachable;
    ArisesInv(s, g);
    B.GainNothing(s.rps, g.clock - g.bucket.last);
  }

  lemma Load(s: Setup) returns (g: Global)
    requires s.Valid() && !s.unlimited && s.burst >= 1 && s.burst as real + s.rps * 30.0 >= 10.0
    ensures Loaded(s, g) && (s.burst >= 10 && s.rps == 0.0 ==> g.bucket.tokens == (s.burst - 10) as real)
  {
    hide Arises, Tokens;
    if s.burst >= 10 {
      g := FreshLimiter(s);
      g := GetThroughMany(s, g, Closed, NO_COUNTS, 0, 10);
      if s.rps == 0.0 {
        NoRefill(s, g);
      }
    } else {
      g := LoadSlowly(s);
    }
  }

  /** The whole burst at once, and the rest of the ten requests evenly over the interval. */
  lemma LoadSlowly(s: Setup) returns (g: Global)
    requires s.Valid() && !s.unlimited && 1 <= s.burst < 10 && s.burst as real + s.rps * 30.0 >= 10.0
    ensures Loaded(s, g)
  {
    hide At, Tokens;
    var k := 10 - s.burst;
    var gap := 30.0 / k as real;
    EnoughGap(s.rps, k, gap);
    g := FreshLimiter(s);
    g := GetThroughMany(s, g, Closed, NO_COUNTS, 0, s.burst);
    g := Trickle(s, g, gap, k, s.burst);
  }

  lemma EnoughGap(rps: real, k: nat, gap: real)
    requires k > 0 && rps * 30.0 >= k as real && gap == 30.0 / k as real
    ensures gap >= 0.0 && k as real * gap == 30.0 && B.Gain(rps, gap) >= 1.0
  {
    assert rps * gap == (rps * 30.0) / k as real;
    assert (rps * 30.0) / k as real >= 1.0;
  }

  /** Permits pile up while the breaker stays closed. */
  lemma {:induction false} Hoard(s: Setup, k: nat) returns (g: Global)
    requires s.Valid() && !s.unlimited && s.lagging && s.rps > 0.0 && s.burst >= 1
    ensures At(s, g, Closed, NO_COUNTS, 0) && g.permits == k
  {
    if k == 0 {
      g := FreshLimiter(s);
    } else {
      var u := Hoard(s, k - 1);
      g := OnePermit(s, u);
    }
  }

  /** A request passes the poll, waits until there is a token and takes it; the closed breaker may
      begin its next generation meanwhile. */
  lemma OnePermit(s: Setup, g: Global) returns (h: Global)
    requires s.Valid() && !s.unlimited && s.lagging && s.rps > 0.0 && s.burst >= 1
    requires At(s, g, Closed, NO_COUNTS, 0)
    ensures At(s, h, Closed, NO_COUNTS, 0) && h.permits == g.permits + 1
  {
    hide Arises;
    var gap := FillTime(s.rps, 1.0);
    var now := g.clock + gap;
    ArisesInv(s, g);
    OneMoreToken(s, g, gap, now);
    h := Go(s, g, Pass(g.clock));
    h := Go(s, h, Permit(now));
    h := Go(s, h, Other(Poll(now)));
  }

  lemma {:induction false} EnterMany(s: Setup, g: Global, k: nat) returns (h: Global)
    requires s.Valid() && s.lagging && At(s, g, Closed, NO_COUNTS, 0) && g.permits >= k
    ensures At(s, h, Closed, NO_COUNTS.(requests := k), k) && h.permits == g.permits - k
  {
    if k == 0 {
      h := g;
    } else {
      var u := EnterMany(s, g, k - 1);
      h := Go(s, u, Enter(u.clock));
    }
  }

  // ---- The exact conditions ----

  lemma LargeBurstRecovers(s: Setup, g: Global)
    requires s.Valid() && s.cfg == BreakerFor(s.burst) && s.burst >= 20 && Arises(s, g)
    ensures !Stuck(s.cfg, g.breaker)
  {
    ArisesInv(s, g);
    RateRuleRecovers(s.cfg, 0.5);
    if Stuck(s.cfg, g.breaker) {
      StuckHasSlipped(s.cfg, g.breaker);
    }
  }

  lemma StuckNeeds(s: Setup, g: Global)
    requires s.Valid() && !s.unlimited && Arises(s, g) && Stuck(s.cfg, g.breaker) && s.burst < 20
    ensures s.burst >= 1 && (s.rps == 0.0 ==> s.burst == 19)
    ensures !s.lagging ==> s.burst as real + s.rps * 30.0 >= 10.0
  {
    hide Arises, Reachable, InWindow;
    ArisesInv(s, g);
    assert Needed(g.breaker.core) >= 10 + s.cfg.maxRequests;
    if s.rps == 0.0 {
      assert (10 + s.cfg.maxRequests) as real <= s.burst as real;
    }
  }

  ghost predicate CanStick(s: Setup) { exists g :: Arises(s, g) && Stuck(s.cfg, g.breaker) }

  lemma LimitedNeeds(s: Setup)
    requires s.Valid() && s.cfg == BreakerFor(s.burst) && !s.unlimited && CanStick(s)
    ensures 1 <= s.burst < 20 && (s.rps > 0.0 || s.burst == 19)
    ensures !s.lagging ==> s.burst as real + s.rps * 30.0 >= 10.0
  {
    hide Arises;
    var g :| Arises(s, g) && Stuck(s.cfg, g.breaker);
    if s.burst >= 20 {
      LargeBurstRecovers(s, g);
    } else {
      StuckNeeds(s, g);
    }
  }

  /** When every request does its three steps at one moment: the breaker can get stuck exactly when
      fewer than ten probes suffice, ten requests fit into its counting interval, and the bucket
      refills or holds tokens for ten requests and all probes. */
  lemma PromptSticksIff(rps: real, burst: nat)
    requires rps >= 0.0
    ensures CanStick(Setup(BreakerFor(burst), rps, false, burst, false)) <==>
      1 <= burst < 20 && burst as real + rps * 30.0 >= 10.0 && (rps > 0.0 || burst == 19)
  {
    hide Arises;
    var s := Setup(BreakerFor(burst), rps, false, burst, false);
    BreakerGoverns(burst);
    if CanStick(s) {
      LimitedNeeds(s);
    }
    if 1 <= burst < 20 && burst as real + rps * 30.0 >= 10.0 && (rps > 0.0 || burst == 19) {
      var g := Load(s);
      g := StickFromLoaded(s, g);
    }
  }

  lemma LoadLagging(s: Setup) returns (g: Global)
    requires s.Valid() && !s.unlimited && s.lagging && 1 <= s.burst < 20 && (s.rps > 0.0 || s.burst == 19)
    ensures Loaded(s, g) && (s.rps > 0.0 || g.bucket.tokens == (s.burst - 10) as real)
  {
    hide At;
    if s.rps > 0.0 {
      g := Hoard(s, 10);
      g := EnterMany(s, g, 10);
    } else {
      g := Load(s);
    }
  }

  /** When requests may lag between poll, token and entry, the interval does not protect it. */
  lemma LaggingSticksIff(rps: real, burst: nat)
    requires rps >= 0.0
    ensures CanStick(Setup(BreakerFor(burst), rps, false, burst, true)) <==>
      1 <= burst < 20 && (rps > 0.0 || burst == 19)
  {
    hide Arises;
    var s := Setup(BreakerFor(burst), rps, false, burst, true);
    BreakerGoverns(burst);
    if CanStick(s) {
      LimitedNeeds(s);
    }
    if 1 <= burst < 20 && (rps > 0.0 || burst == 19) {
      var g := LoadLagging(s);
      g := StickFromLoaded(s, g);
    }
  }

  /** With an unlimited rate only the number of probes matters, however requests lag. */
  lemma UnlimitedSticksIff(rps: real, burst: nat, lagging: bool)
    requires rps >= 0.0
    ensures CanStick(Setup(BreakerFor(burst), rps, true, burst, lagging)) <==> burst < 20
  {
    hide Arises;
    var s := Setup(BreakerFor(burst), rps, true, burst, lagging);
    BreakerGoverns(burst);
    if burst >= 20 {
      forall g | Arises(s, g) ensures !Stuck(s.cfg, g.breaker) {
        LargeBurstRecovers(s, g);
      }
    } else {
      var g := FreshLimiter(s);
      g := GetThroughMany(s, g, Closed, NO_COUNTS, 0, 10);
      g := StickFromLoaded(s, g);
    }
  }

  // ---- The limiter itself ----

  class GlobalRateLimiter {
    const circuitBreaker: CircuitBreaker
    const unlimited: bool
    var limiter: B.Bucket

    constructor (rps: real, unlimited: bool, burst: nat, now: real, metricsNow: real)
      ensures fresh(circuitBreaker) && circuitBreaker.cfg == BreakerFor(burst) && this.unlimited == unlimited
      ensures circuitBreaker.Fields() == InitialCore(BreakerFor(burst), now, metricsNow)
      ensures limiter == B.FullBucket(B.TenantConfig(rps, burst), now)
    {
      this.unlimited := unlimited;
      limiter := B.FullBucket(B.TenantConfig(rps, burst), now);
      circuitBreaker := new CircuitBreaker(
        Settings(burst / 2, 30.0, 10.0, Some(FailureRateRule(0.5))), now, metricsNow);
    }

    /** An open breaker refuses before a token is taken.  `now` is the moment of the token. */
    method Allow(polled: real, now: real) returns (allowed: bool)
      modifies this, circuitBreaker
      ensures circuitBreaker.Fields() == Tick(circuitBreaker.cfg, old(circuitBreaker.Fields()), polled)
      ensures allowed <==> circuitBreaker.state != Open && (unlimited || B.Grants(old(limiter), 1, now))
      ensures limiter == if allowed && !unlimited then B.Take(old(limiter), 1, now) else old(limiter)
    {
      var state, _ := circuitBreaker.CurrentState(polled);
      if state == Open {
        return false;
      }
      if unlimited {
        return true;
      }
      allowed := B.Grants(limiter, 1, now);
      limiter := B.Take(limiter, 1, now);
    }

    /** A token first, then one call of the breaker with nothing in between. */
    method Execute(outcome: Outcome, polled: real, now: real, entered: real, finished: real) returns (ran: bool)
      modifies this, circuitBreaker
      ensures var cfg, was := circuitBreaker.cfg, old(circuitBreaker.Fields());
        var t := Tick(cfg, was, polled);
        var allowed := t.state != Open && (unlimited || B.Grants(old(limiter), 1, now));
        && (ran <==> allowed && Admits(cfg, Tick(cfg, t, entered)))
        && limiter == (if allowed && !unlimited then B.Take(old(limiter), 1, now) else old(limiter))
        && circuitBreaker.Fields() ==
             if !allowed then t
             else
               var b := Begin(cfg, t, entered);
               if ran then End(cfg, b, b.generation, outcome == Succeeded, finished) else b
    {
      var allowed := Allow(polled, now);
      if !allowed {
        return false;
      }
      var rejection := circuitBreaker.Execute(outcome, entered, finished);
      return rejection == Accepted;
    }
  }
}
