/** When a half-open breaker of internal/resilience/circuit_breaker.go recovers, and when it
    rejects every call for good. */
module BreakerRecovery {
  import opened BreakerGuarantees
  import opened CircuitBreaker
  import opened Options

  function AllFailed(n: nat): Counts { Counts(n, 0, n, 0, n) }

  /** Half-open, nothing outstanding, and the next call is refused. */
  ghost predicate Stuck(cfg: Config, w: World) {
    w.core.state == HalfOpen && w.calls[w.core.generation] == 0 && !Admits(cfg, w.core)
  }

  lemma ProbesRecover(cfg: Config, w: World)
    requires cfg.Valid() && Reachable(cfg, w) && cfg.readyToTrip(AllFailed(cfg.maxRequests))
    ensures !Stuck(cfg, w)
  {
    ReachableInv(cfg, w);
  }

  lemma StuckStep(cfg: Config, w: World, e: Event)
    requires Stuck(cfg, w) && w.core.expiry == None && Possible(w, e)
    ensures var v := Step(cfg, w, e);
      v.core.(metrics := w.core.metrics) == w.core && Stuck(cfg, v) && v.log == w.log
  {
    assert w.log + [] == w.log;
  }

  lemma {:induction false} StuckTrace(cfg: Config, ws: seq<World>, es: seq<Event>, n: nat)
    requires Trace(cfg, ws, es) && Stuck(cfg, ws[0]) && ws[0].core.expiry == None && n <= |es|
    ensures ws[n].core.(metrics := ws[0].core.metrics) == ws[0].core && Stuck(cfg, ws[n]) && ws[n].log == ws[0].log
  {
    if n > 0 {
      StuckTrace(cfg, ws, es, n - 1);
      StuckStep(cfg, ws[n - 1], es[n - 1]);
    }
  }

  /** A stuck breaker stays as it is and admits no call, whatever happens next. */
  lemma StuckForever(cfg: Config, w: World, v: World)
    requires cfg.Valid() && Reachable(cfg, w) && Stuck(cfg, w) && Leads(cfg, w, v)
    ensures v.core.(metrics := w.core.metrics) == w.core && Stuck(cfg, v) && v.log == w.log
  {
    ReachableInv(cfg, w);
    var ws, es :| Trace(cfg, ws, es) && ws[0] == w && ws[|es|] == v;
    StuckTrace(cfg, ws, es, |es|);
  }

  // ---- The condition on the trip rule ----

  /** Counts that a closed breaker can have just after a failed call. */
  predicate Plausible(c: Counts) {
    && c.consecutiveSuccesses == 0 && 1 <= c.consecutiveFailures <= c.failures
    && (c.successes == 0 ==> c.consecutiveFailures == c.failures)
    && c.successes + c.failures <= c.requests
  }

  /** Some possible counts trip the rule. */
  ghost predicate CanTrip(cfg: Config) {
    exists c :: Plausible(c) && cfg.readyToTrip(c)
  }

  function Probing(requests: nat, failures: nat): Counts { Counts(requests, 0, failures, 0, failures) }

  /** A way to fail probes without tripping: `rs[i]` probes have started when probe `i` fails. */
  ghost predicate Slips(cfg: Config, rs: seq<nat>) {
    && (forall i :: 0 <= i < |rs| ==> i + 1 <= rs[i] <= cfg.maxRequests && !cfg.readyToTrip(Probing(rs[i], i + 1)))
    && forall i :: 0 < i < |rs| ==> rs[i - 1] <= rs[i]
  }

  /** All probes can fail without tripping. */
  ghost predicate CanSlip(cfg: Config) {
    exists rs :: |rs| == cfg.maxRequests && Slips(cfg, rs)
  }

  // ---- A stuck breaker has tripped and slipped ----

  /** The slips so far of a half-open breaker with these counts. */
  ghost predicate Slipped(cfg: Config, c: Counts, rs: seq<nat>) {
    |rs| == c.failures && Slips(cfg, rs) && (rs != [] ==> rs[|rs| - 1] <= c.requests)
  }

  ghost predicate HistoryOk(cfg: Config, c: Core) {
    && c.counts.consecutiveFailures <= c.counts.failures
    && (c.counts.successes == 0 ==> c.counts.consecutiveFailures == c.counts.failures)
    && (c.state != Closed ==> CanTrip(cfg))
    && (c.state == HalfOpen ==> exists rs :: Slipped(cfg, c.counts, rs))
  }

  lemma CleanHistory(cfg: Config, c: Core)
    requires c.counts == NO_COUNTS && (c.state != Closed ==> CanTrip(cfg))
    ensures HistoryOk(cfg, c)
  {
    assert Slipped(cfg, NO_COUNTS, []);
  }

  lemma TickHistory(cfg: Config, c: Core, now: real)
    requires HistoryOk(cfg, c)
    ensures HistoryOk(cfg, Tick(cfg, c, now))
  {
    if Tick(cfg, c, now) != c {
      CleanHistory(cfg, Tick(cfg, c, now));
    }
  }

  lemma BeginHistory(cfg: Config, c: Core, now: real)
    requires HistoryOk(cfg, c)
    ensures HistoryOk(cfg, Begin(cfg, c, now))
  {
    TickHistory(cfg, c, now);
    var t, b := Tick(cfg, c, now), Begin(cfg, c, now);
    if t.state == HalfOpen {
      var rs :| Slipped(cfg, t.counts, rs);
      assert Slipped(cfg, b.counts, rs);
    }
  }

  lemma FailHistory(cfg: Config, c: Core, calls: multiset<nat>, now: real)
    requires cfg.Valid() && HistoryOk(cfg, c) && CountsOk(cfg, c, calls) && c.generation in calls
    ensures HistoryOk(cfg, Fail(cfg, c, now))
  {
    var f := Fail(cfg, c, now);
    var counts := c.counts.(failures := c.counts.failures + 1,
                            consecutiveFailures := c.counts.consecutiveFailures + 1,
                            consecutiveSuccesses := 0);
    assert Plausible(counts);
    if cfg.readyToTrip(counts) {
      if c.state != Open {
        CleanHistory(cfg, f);
      }
    } else if c.state == HalfOpen {
      var rs :| Slipped(cfg, c.counts, rs);
      assert counts == Probing(c.counts.requests, |rs| + 1);
      assert Slipped(cfg, counts, rs + [c.counts.requests]);
    }
  }

  lemma EndHistory(cfg: Config, c: Core, calls: multiset<nat>, g: nat, success: bool, now: real)
    requires cfg.Valid() && HistoryOk(cfg, c) && CountsOk(cfg, c, calls) && g in calls
    ensures HistoryOk(cfg, End(cfg, c, g, success, now))
  {
    TickHistory(cfg, c, now);
    TickCounts(cfg, c, calls, now);
    var t := Tick(cfg, c, now);
    if t.generation == g {
      if !success {
        FailHistory(cfg, t, calls, now);
      } else if t.state == HalfOpen {
        CleanHistory(cfg, Succeed(cfg, t, now));
      }
    }
  }

  lemma StepHistory(cfg: Config, w: World, e: Event)
    requires cfg.Valid() && HistoryOk(cfg, w.core) && CountsOk(cfg, w.core, w.calls) && Possible(w, e)
    ensures HistoryOk(cfg, Step(cfg, w, e).core)
  {
    match e
    case Start(now) => BeginHistory(cfg, w.core, now);
    case Finish(g, outcome, now) => EndHistory(cfg, w.core, w.calls, g, outcome == Succeeded, now);
    case Poll(now) => TickHistory(cfg, w.core, now);
    case Reset(now) =>
  }

  lemma {:induction false} TraceHistory(cfg: Config, ws: seq<World>, es: seq<Event>, n: nat)
    requires cfg.Valid() && Trace(cfg, ws, es) && n <= |es|
    requires HistoryOk(cfg, ws[0].core) && CountsOk(cfg, ws[0].core, ws[0].calls)
    ensures HistoryOk(cfg, ws[n].core) && CountsOk(cfg, ws[n].core, ws[n].calls)
  {
    hide Step, Possible, HistoryOk, CountsOk;
    if n > 0 {
      TraceHistory(cfg, ws, es, n - 1);
      StepHistory(cfg, ws[n - 1], es[n - 1]);
      StepCounts(cfg, ws[n - 1], es[n - 1]);
    }
  }

  lemma ReachableHistory(cfg: Config, w: World)
    requires cfg.Valid() && Reachable(cfg, w)
    ensures HistoryOk(cfg, w.core)
  {
    hide Step, Possible;
    var now: real, metricsNow: real :| now <= metricsNow && Leads(cfg, Fresh(cfg, now, metricsNow), w);
    var ws, es :| Trace(cfg, ws, es) && ws[0] == Fresh(cfg, now, metricsNow) && ws[|es|] == w;
    TraceHistory(cfg, ws, es, |es|);
  }

  lemma StuckHasSlipped(cfg: Config, w: World)
    requires cfg.Valid() && Reachable(cfg, w) && Stuck(cfg, w)
    ensures CanTrip(cfg) && CanSlip(cfg)
  {
    ReachableHistory(cfg, w);
    ReachableInv(cfg, w);
    var rs :| Slipped(cfg, w.core.counts, rs);
    assert |rs| == cfg.maxRequests;
  }

  // ---- A run into the stuck state ----

  /** Calls may be admitted and may end at this moment without a timed transition. */
  ghost predicate Settled(cfg: Config, w: World) {
    Reachable(cfg, w) && w.core.state != Open && !Expired(w.core, w.clock)
  }

  /** Same moment and generation, other counts and outstanding calls. */
  ghost predicate Recounted(w: World, v: World, counts: Counts, outstanding: int) {
    && v.core == w.core.(counts := counts, metrics := v.core.metrics)
    && v.clock == w.clock && v.calls[v.core.generation] == outstanding
  }

  lemma StartOne(cfg: Config, w: World) returns (v: World)
    requires Settled(cfg, w) && Admits(cfg, w.core)
    ensures Settled(cfg, v)
    ensures Recounted(w, v, w.core.counts.(requests := w.core.counts.requests + 1), w.calls[w.core.generation] + 1)
  {
    v := Then(cfg, w, Start(w.clock));
  }

  lemma {:induction false} StartMany(cfg: Config, w: World, n: nat) returns (v: World)
    requires Settled(cfg, w) && (w.core.state == HalfOpen ==> w.core.counts.requests + n <= cfg.maxRequests)
    ensures Settled(cfg, v)
    ensures Recounted(w, v, w.core.counts.(requests := w.core.counts.requests + n), w.calls[w.core.generation] + n)
  {
    if n == 0 {
      v := w;
    } else {
      var u := StartMany(cfg, w, n - 1);
      v := StartOne(cfg, u);
    }
  }

  function Failing(c: Counts, n: nat): Counts {
    c.(failures := c.failures + n, consecutiveFailures := c.consecutiveFailures + n,
       consecutiveSuccesses := if n == 0 then c.consecutiveSuccesses else 0)
  }

  function Succeeding(c: Counts, n: nat): Counts {
    c.(successes := c.successes + n, consecutiveSuccesses := c.consecutiveSuccesses + n,
       consecutiveFailures := if n == 0 then c.consecutiveFailures else 0)
  }

  /** The breaker has just opened. */
  ghost predicate Opened(cfg: Config, w: World) { Reachable(cfg, w) && w.core.state == Open }

  lemma FailOne(cfg: Config, w: World) returns (v: World)
    requires Settled(cfg, w) && w.core.generation in w.calls
    ensures if cfg.readyToTrip(Failing(w.core.counts, 1)) then Opened(cfg, v)
      else Settled(cfg, v) && Recounted(w, v, Failing(w.core.counts, 1), w.calls[w.core.generation] - 1)
  {
    v := Then(cfg, w, Finish(w.core.generation, Failed, w.clock));
  }

  lemma {:induction false} FailMany(cfg: Config, w: World, n: nat) returns (v: World)
    requires Settled(cfg, w) && w.calls[w.core.generation] >= n
    ensures Opened(cfg, v)
      || (Settled(cfg, v) && Recounted(w, v, Failing(w.core.counts, n), w.calls[w.core.generation] - n))
  {
    if n == 0 {
      v := w;
    } else {
      v := FailMany(cfg, w, n - 1);
      if !Opened(cfg, v) {
        v := FailOne(cfg, v);
      }
    }
  }

  lemma {:induction false} SucceedMany(cfg: Config, w: World, n: nat) returns (v: World)
    requires Settled(cfg, w) && w.core.state == Closed && w.calls[w.core.generation] >= n
    ensures Settled(cfg, v)
    ensures Recounted(w, v, Succeeding(w.core.counts, n), w.calls[w.core.generation] - n)
  {
    if n == 0 {
      v := w;
    } else {
      var u := SucceedMany(cfg, w, n - 1);
      v := Then(cfg, u, Finish(u.core.generation, Succeeded, u.clock));
    }
  }

  /** Start all calls, fail some, let the successes follow, fail the rest. */
  lemma Trip(cfg: Config, c: Counts) returns (w: World)
    requires cfg.Valid() && Plausible(c) && cfg.readyToTrip(c)
    ensures Opened(cfg, w)
  {
    w := Fresh(cfg, 1.0, 1.0);
    LeadsNowhere(cfg, w);
    w := StartMany(cfg, w, c.requests);
    w := FailMany(cfg, w, c.failures - c.consecutiveFailures);
    if !Opened(cfg, w) {
      w := SucceedMany(cfg, w, c.successes);
      w := FailMany(cfg, w, c.consecutiveFailures - 1);
      if !Opened(cfg, w) {
        assert Failing(w.core.counts, 1) == c;
        w := FailOne(cfg, w);
      }
    }
  }

  /** A poll after the timeout makes an open breaker half-open, with no call of its generation. */
  lemma WaitOut(cfg: Config, w: World) returns (v: World)
    requires cfg.Valid() && Opened(cfg, w)
    ensures Settled(cfg, v) && v.core.state == HalfOpen && v.core.counts == NO_COUNTS && v.calls[v.core.generation] == 0
  {
    ReachableInv(cfg, w);
    var expiry := w.core.expiry.value;
    var later := if expiry < w.clock then w.clock else expiry;
    v := Then(cfg, w, Poll(later + 1.0));
    CountsBalance(cfg, v);
  }

  lemma {:induction false} Slip(cfg: Config, w: World, rs: seq<nat>, n: nat) returns (v: World)
    requires cfg.Valid() && Slips(cfg, rs) && n <= |rs|
    requires Settled(cfg, w) && w.core.state == HalfOpen && w.core.counts == NO_COUNTS
    requires w.calls[w.core.generation] == 0
    ensures Settled(cfg, v) && v.core.state == HalfOpen
    ensures var r := if n == 0 then 0 else rs[n - 1];
      v.core.counts == Probing(r, n) && v.calls[v.core.generation] == r - n
  {
    hide Settled;
    if n == 0 {
      v := w;
    } else {
      v := Slip(cfg, w, rs, n - 1);
      v := StartMany(cfg, v, rs[n - 1] - v.core.counts.requests);
      v := FailOne(cfg, v);
    }
  }

  /** Trip the breaker, wait out the timeout, fail every probe without tripping. */
  lemma StuckIsReachable(cfg: Config) returns (w: World)
    requires cfg.Valid() && CanTrip(cfg) && CanSlip(cfg)
    ensures Reachable(cfg, w) && Stuck(cfg, w)
  {
    var c :| Plausible(c) && cfg.readyToTrip(c);
    var rs :| |rs| == cfg.maxRequests && Slips(cfg, rs);
    w := Trip(cfg, c);
    w := WaitOut(cfg, w);
    w := Slip(cfg, w, rs, |rs|);
  }

  /** For every rule: the breaker can get stuck exactly when some possible counts trip the rule
      and all probes can fail, in some order of starts and failures, without tripping it. */
  lemma StuckIff(cfg: Config)
    requires cfg.Valid()
    ensures (exists w :: Reachable(cfg, w) && Stuck(cfg, w)) <==> CanTrip(cfg) && CanSlip(cfg)
  {
    if w :| Reachable(cfg, w) && Stuck(cfg, w) {
      StuckHasSlipped(cfg, w);
    }
    if CanTrip(cfg) && CanSlip(cfg) {
      var w := StuckIsReachable(cfg);
    }
  }

  lemma SlipsAt(cfg: Config, rs: seq<nat>, i: nat)
    requires Slips(cfg, rs) && i < |rs|
    ensures !cfg.readyToTrip(Probing(rs[i], i + 1))
  {
  }

  // ---- The rules in use ----

  /** The constructor's default rule leaves the breaker stuck for every maxRequests up to 5,
      its own default of 1 included. */
  lemma DefaultRuleSticksIff(st: Settings)
    requires st.readyToTrip.None?
    ensures (exists w :: Reachable(Defaulted(st), w) && Stuck(Defaulted(st), w)) <==> st.maxRequests <= 5
  {
    var cfg := Defaulted(st);
    StuckIff(cfg);
    assert Plausible(AllFailed(6)) && cfg.readyToTrip(AllFailed(6));
    if st.maxRequests <= 5 {
      assert Slips(cfg, seq(cfg.maxRequests, i => cfg.maxRequests));
    } else if rs :| |rs| == cfg.maxRequests && Slips(cfg, rs) {
      SlipsAt(cfg, rs, 5);
    }
  }

  function FailureRateRule(threshold: real): Counts -> bool {
    (c: Counts) =>
      if c.requests == 0 then false
      else c.requests >= 10 && c.failures as real / c.requests as real > threshold
  }

  lemma FullRate(n: nat)
    requires n > 0
    ensures n as real / n as real == 1.0
  {
  }

  /** The rule in whole numbers: ten requests, and more failures than the threshold's share of them. */
  lemma FailureRateIff(threshold: real, c: Counts)
    ensures FailureRateRule(threshold)(c) <==> c.requests >= 10 && c.failures as real > threshold * c.requests as real
  {
    if c.requests > 0 {
      RateIff(c.failures as real, c.requests as real, threshold);
    }
  }

  lemma RateIff(x: real, n: real, threshold: real)
    requires n > 0.0
    ensures x / n > threshold <==> x > threshold * n
  {
    assert (x / n) * n == x;
  }

  lemma FailureRateOnAllFailed(threshold: real, n: nat)
    ensures FailureRateRule(threshold)(AllFailed(n)) <==> n >= 10 && threshold < 1.0
  {
    if n > 0 {
      FullRate(n);
    }
  }

  lemma RateAtMostOne(failures: nat, requests: nat)
    requires 0 < requests && failures <= requests
    ensures failures as real / requests as real <= 1.0
  {
  }

  /** With ten probes or more a failure-rate rule cannot both trip and let all probes fail. */
  lemma RateRuleRecovers(cfg: Config, threshold: real)
    requires cfg.readyToTrip == FailureRateRule(threshold) && cfg.maxRequests >= 10
    ensures !CanTrip(cfg) || !CanSlip(cfg)
  {
    if threshold < 1.0 {
      FailureRateOnAllFailed(threshold, cfg.maxRequests);
      if rs :| |rs| == cfg.maxRequests && Slips(cfg, rs) {
        SlipsAt(cfg, rs, cfg.maxRequests - 1);
      }
    } else {
      forall c | Plausible(c) ensures !cfg.readyToTrip(c) {
        RateAtMostOne(c.failures, c.requests);
      }
    }
  }

  /** The application's breaker (100 probes) is never stuck, whatever threshold is configured. */
  lemma AppNeverStuck(interval: real, timeout: real, threshold: real, w: World)
    requires Reachable(Defaulted(Settings(100, interval, timeout, Some(FailureRateRule(threshold)))), w)
    ensures !Stuck(Defaulted(Settings(100, interval, timeout, Some(FailureRateRule(threshold)))), w)
  {
    var cfg := Defaulted(Settings(100, interval, timeout, Some(FailureRateRule(threshold))));
    RateRuleRecovers(cfg, threshold);
    if Stuck(cfg, w) {
      StuckHasSlipped(cfg, w);
    }
  }
}
