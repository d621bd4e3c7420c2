/** What the circuit breaker of internal/resilience/circuit_breaker.go does, told by what happened:
    when its state changes, whom it admits, and that its counters, expiry and times are those of the run. */
module BreakerAccounts {
  import opened BreakerGuarantees
  import opened CircuitBreaker
  import opened Options

  // ---- Transitions ----

  predicate Overdue(w: World, e: Event) { w.core.expiry.Some? && w.core.expiry.value < e.now }

  /** A call of the generation that is current when its result comes in. */
  predicate Counted(w: World, e: Event) {
    e.Finish? && e.generation == w.core.generation && !Overdue(w, e)
  }

  function WithFailure(c: Counts): Counts {
    Counts(c.requests, c.successes, c.failures + 1, 0, c.consecutiveFailures + 1)
  }

  /** The state after a result of that generation, or of another. */
  lemma EndState(cfg: Config, c: Core, g: nat, success: bool, now: real)
    requires g <= c.generation && (c.state == HalfOpen ==> c.expiry == None) && (c.state == Open ==> g < c.generation)
    ensures var late := c.expiry.Some? && c.expiry.value < now;
      var own := g == c.generation && !late;
      End(cfg, c, g, success, now).state ==
        if c.state == Open then (if late then HalfOpen else Open)
        else if own && !success && cfg.readyToTrip(WithFailure(c.counts)) then Open
        else if own && success then Closed
        else c.state
  {
  }

  lemma TickState(cfg: Config, c: Core, now: real)
    ensures Tick(cfg, c, now).state ==
      if c.state == Open && c.expiry.Some? && c.expiry.value < now then HalfOpen else c.state
  {
  }

  lemma BeginState(cfg: Config, c: Core, now: real)
    ensures Begin(cfg, c, now).state == Tick(cfg, c, now).state
  {
  }

  lemma StateAfter(cfg: Config, w: World, e: Event)
    requires cfg.Valid() && CountsOk(cfg, w.core, w.calls) && Possible(w, e)
    ensures var own := Counted(w, e);
      Step(cfg, w, e).core.state ==
        if w.core.state == Open then (if !e.Reset? && Overdue(w, e) then HalfOpen else Open)
        else if own && e.outcome != Succeeded && cfg.readyToTrip(WithFailure(w.core.counts)) then Open
        else if own && e.outcome == Succeeded then Closed
        else w.core.state
  {
    hide Tick, Begin, End;
    match e
    case Start(now) =>
      BeginState(cfg, w.core, now);
      TickState(cfg, w.core, now);
    case Finish(g, outcome, now) => EndState(cfg, w.core, g, outcome == Succeeded, now);
    case Poll(now) => TickState(cfg, w.core, now);
    case Reset(now) =>
  }

  lemma ReachableCounts(cfg: Config, w: World)
    requires cfg.Valid() && Reachable(cfg, w)
    ensures CountsOk(cfg, w.core, w.calls)
  {
    hide Reachable, LogOk, TimesOk;
    ReachableInv(cfg, w);
  }

  /** The breaker opens exactly when a call of the current generation fails or panics and the trip
      rule holds on the counts with that failure. */
  lemma TripsIff(cfg: Config, w: World, e: Event)
    requires cfg.Valid() && Reachable(cfg, w) && Possible(w, e)
    ensures w.core.state != Open && Step(cfg, w, e).core.state == Open <==>
      Counted(w, e) && e.outcome != Succeeded && cfg.readyToTrip(WithFailure(w.core.counts))
  {
    hide Reachable, Step;
    ReachableCounts(cfg, w);
    StateAfter(cfg, w, e);
  }

  /** It closes exactly when a probe of the current generation succeeds. */
  lemma ClosesIff(cfg: Config, w: World, e: Event)
    requires cfg.Valid() && Reachable(cfg, w) && Possible(w, e)
    ensures w.core.state != Closed && Step(cfg, w, e).core.state == Closed <==>
      w.core.state == HalfOpen && Counted(w, e) && e.outcome == Succeeded
  {
    hide Reachable, Step;
    ReachableCounts(cfg, w);
    StateAfter(cfg, w, e);
  }

  /** It becomes half-open exactly when it is looked at after its timeout. */
  lemma ProbesIff(cfg: Config, w: World, e: Event)
    requires cfg.Valid() && Reachable(cfg, w) && Possible(w, e)
    ensures w.core.state != HalfOpen && Step(cfg, w, e).core.state == HalfOpen <==>
      w.core.state == Open && !e.Reset? && Overdue(w, e)
  {
    hide Reachable, Step;
    ReachableCounts(cfg, w);
    StateAfter(cfg, w, e);
  }

  /** A probe's success closes the breaker and starts afresh. */
  lemma ProbeSuccessCloses(cfg: Config, w: World, g: nat, now: real)
    requires cfg.Valid() && Reachable(cfg, w) && Possible(w, Finish(g, Succeeded, now))
    requires w.core.state == HalfOpen && g == w.core.generation
    ensures var c := Step(cfg, w, Finish(g, Succeeded, now)).core;
      && c.state == Closed && c.counts == NO_COUNTS && c.generation == g + 1
      && c.expiry == if cfg.interval == 0.0 then None else Some(now + cfg.interval)
  {
    hide Reachable;
    ReachableInv(cfg, w);
  }

  /** A new generation begins exactly with a change of state and when a closed interval is over. */
  lemma GenerationsIff(cfg: Config, w: World, e: Event)
    requires cfg.Valid() && Reachable(cfg, w) && Possible(w, e)
    ensures var v := Step(cfg, w, e);
      && (v.core.generation == w.core.generation || v.core.generation == w.core.generation + 1)
      && (v.core.generation != w.core.generation <==>
            v.core.state != w.core.state || (w.core.state == Closed && !e.Reset? && Overdue(w, e)))
  {
    hide Reachable, Step;
    ReachableCounts(cfg, w);
    GenerationAfter(cfg, w, e);
  }

  lemma GenerationAfter(cfg: Config, w: World, e: Event)
    requires cfg.Valid() && CountsOk(cfg, w.core, w.calls) && Possible(w, e)
    ensures var v := Step(cfg, w, e);
      v.core.generation == w.core.generation +
        if v.core.state != w.core.state || (w.core.state == Closed && !e.Reset? && Overdue(w, e)) then 1 else 0
  {
    hide Tick, Begin, End;
    match e
    case Start(now) => BeginGeneration(cfg, w.core, now);
    case Finish(g, outcome, now) => EndGeneration(cfg, w.core, g, outcome == Succeeded, now);
    case Poll(now) => TickGeneration(cfg, w.core, now);
    case Reset(now) =>
  }

  lemma TickGeneration(cfg: Config, c: Core, now: real)
    ensures var t := Tick(cfg, c, now);
      t.generation == c.generation +
        if t.state != c.state || (c.state == Closed && c.expiry.Some? && c.expiry.value < now) then 1 else 0
  {
  }

  lemma BeginGeneration(cfg: Config, c: Core, now: real)
    ensures var t := Begin(cfg, c, now);
      t.generation == c.generation +
        if t.state != c.state || (c.state == Closed && c.expiry.Some? && c.expiry.value < now) then 1 else 0
  {
    hide Tick;
    TickGeneration(cfg, c, now);
  }

  lemma EndGeneration(cfg: Config, c: Core, g: nat, success: bool, now: real)
    requires g <= c.generation && (c.state == Open ==> g < c.generation)
    ensures var t := End(cfg, c, g, success, now);
      t.generation == c.generation +
        if t.state != c.state || (c.state == Closed && c.expiry.Some? && c.expiry.value < now) then 1 else 0
  {
    hide Tick;
    TickGeneration(cfg, c, now);
    if Tick(cfg, c, now).generation == g {
      TickedOwn(cfg, c, g, now);
    }
  }

  lemma TickedOwn(cfg: Config, c: Core, g: nat, now: real)
    requires g <= c.generation && Tick(cfg, c, now).generation == g
    ensures Tick(cfg, c, now) == c && g == c.generation
  {
  }

  // ---- Admissions ----

  function Admissions(log: seq<Entry>, g: nat): nat {
    if log == [] then 0
    else
      var n := |log| - 1;
      Admissions(log[..n], g) + if log[n].Admitted? && log[n].generation == g then 1 else 0
  }

  lemma AdmissionsAppend(log: seq<Entry>, x: Entry, g: nat)
    ensures Admissions(log + [x], g) == Admissions(log, g) + if x.Admitted? && x.generation == g then 1 else 0
  {
    assert (log + [x])[..|log|] == log;
  }

  ghost predicate AdmissionsOk(w: World) {
    && w.core.counts.requests == Admissions(w.log, w.core.generation)
    && forall g :: g > w.core.generation ==> Admissions(w.log, g) == 0
  }

  lemma StepAdmissions(cfg: Config, w: World, e: Event, g: nat)
    ensures var v := Step(cfg, w, e);
      Admissions(v.log, g) ==
        Admissions(w.log, g) + if Admitting(cfg, w, e) && v.core.generation == g then 1 else 0
  {
    hide Step, Admitting, Admissions;
    StepEntries(cfg, w, e);
    var v := Step(cfg, w, e);
    var seen := Observed(w.core, v.core, e.now);
    assert Admissions(w.log + seen, g) == Admissions(w.log, g) by {
      if seen == [] {
        assert w.log + seen == w.log;
      } else {
        AdmissionsAppend(w.log, seen[0], g);
      }
    }
    if Admitting(cfg, w, e) {
      AdmissionsAppend(w.log + seen, Admitted(v.core.generation, e.now, v.core.state == HalfOpen), g);
    } else {
      assert w.log + seen + [] == w.log + seen;
    }
  }

  lemma StepAdmissionsOk(cfg: Config, w: World, e: Event)
    requires cfg.Valid() && CountsOk(cfg, w.core, w.calls) && Possible(w, e) && AdmissionsOk(w)
    ensures AdmissionsOk(Step(cfg, w, e))
  {
    hide Step, Admitting, Admissions, CountsOk;
    var v := Step(cfg, w, e);
    StepChange(cfg, w, e);
    StepRequests(cfg, w, e);
    forall g: nat | g >= v.core.generation
      ensures Admissions(v.log, g) ==
        Admissions(w.log, g) + if Admitting(cfg, w, e) && v.core.generation == g then 1 else 0
    {
      StepAdmissions(cfg, w, e, g);
    }
  }

  lemma {:induction false} RunAdmissions(cfg: Config, ws: seq<World>, es: seq<Event>, n: nat)
    requires cfg.Valid() && Trace(cfg, ws, es) && n <= |es|
    requires AdmissionsOk(ws[0]) && CountsOk(cfg, ws[0].core, ws[0].calls)
    ensures AdmissionsOk(ws[n]) && CountsOk(cfg, ws[n].core, ws[n].calls)
  {
    hide Step, Possible, AdmissionsOk, CountsOk;
    if n > 0 {
      RunAdmissions(cfg, ws, es, n - 1);
      StepAdmissionsOk(cfg, ws[n - 1], es[n - 1]);
      StepCounts(cfg, ws[n - 1], es[n - 1]);
    }
  }

  /** The request count is the number of admissions of the generation. */
  lemma RequestsAreAdmissions(cfg: Config, w: World)
    requires cfg.Valid() && Reachable(cfg, w)
    ensures w.core.counts.requests == Admissions(w.log, w.core.generation)
    ensures forall g :: g > w.core.generation ==> Admissions(w.log, g) == 0
  {
    hide Step, Possible;
    var now: real, metricsNow: real :| now <= metricsNow && Leads(cfg, Fresh(cfg, now, metricsNow), w);
    var ws, es :| Trace(cfg, ws, es) && ws[0] == Fresh(cfg, now, metricsNow) && ws[|es|] == w;
    RunAdmissions(cfg, ws, es, |es|);
  }

  /** A call is admitted exactly by a closed breaker, and by a half-open one that has admitted fewer
      than maxRequests; it is logged with the generation it belongs to. */
  lemma AdmittedIff(cfg: Config, w: World, now: real)
    requires cfg.Valid() && Reachable(cfg, w) && Possible(w, Start(now))
    ensures var v := Step(cfg, w, Start(now));
      var g := v.core.generation;
      var admitted := v.core.state == Closed || (v.core.state == HalfOpen && Admissions(w.log, g) < cfg.maxRequests);
      && v.calls == (if admitted then w.calls + multiset{g} else w.calls)
      && Admissions(v.log, g) == Admissions(w.log, g) + if admitted then 1 else 0
  {
    hide Reachable, Admissions;
    ReachableInv(cfg, w);
    RequestsAreAdmissions(cfg, w);
    StepAdmissions(cfg, w, Start(now), Step(cfg, w, Start(now)).core.generation);
  }

  // ---- Results ----

  predicate IsResult(e: Event, g: nat, success: bool) {
    e.Finish? && e.generation == g && (e.outcome == Succeeded <==> success)
  }

  /** The results of a generation among these events. */
  function Results(es: seq<Event>, g: nat, success: bool): nat {
    if es == [] then 0
    else
      var n := |es| - 1;
      Results(es[..n], g, success) + if IsResult(es[n], g, success) then 1 else 0
  }

  lemma ResultsAppend(es: seq<Event>, e: Event, g: nat, success: bool)
    ensures Results(es + [e], g, success) == Results(es, g, success) + if IsResult(e, g, success) then 1 else 0
  {
    assert (es + [e])[..|es|] == es;
  }

  /** How many results of this kind came after the last one of the other kind. */
  ghost predicate Streak(es: seq<Event>, g: nat, success: bool, n: nat) {
    exists k ::
      && 0 <= k <= |es| && (k == 0 || IsResult(es[k - 1], g, !success))
      && Results(es[k..], g, success) == n && Results(es[k..], g, !success) == 0
  }

  lemma StreakBroken(es: seq<Event>, e: Event, g: nat, success: bool)
    requires IsResult(e, g, !success)
    ensures Streak(es + [e], g, success, 0)
  {
    var more := es + [e];
    var k := |more|;
    assert more[k..] == [] && more[k - 1] == e;
  }

  lemma StreakGoesOn(es: seq<Event>, e: Event, g: nat, success: bool, n: nat)
    requires Streak(es, g, success, n) && !IsResult(e, g, !success)
    ensures Streak(es + [e], g, success, if IsResult(e, g, success) then n + 1 else n)
  {
    hide Results, IsResult;
    var more := es + [e];
    var k :| 0 <= k <= |es| && (k == 0 || IsResult(es[k - 1], g, !success))
      && Results(es[k..], g, success) == n && Results(es[k..], g, !success) == 0;
    assert more[k..] == es[k..] + [e];
    assert k > 0 ==> more[k - 1] == es[k - 1];
    ResultsAppend(es[k..], e, g, success);
    ResultsAppend(es[k..], e, g, !success);
  }

  lemma StreakNext(es: seq<Event>, e: Event, g: nat, success: bool, n: nat)
    requires Streak(es, g, success, n)
    ensures Streak(es + [e], g, success,
      if IsResult(e, g, success) then n + 1 else if IsResult(e, g, !success) then 0 else n)
  {
    hide Streak;
    if IsResult(e, g, !success) {
      StreakBroken(es, e, g, success);
    } else {
      StreakGoesOn(es, e, g, success, n);
    }
  }

  lemma NoStreak(es: seq<Event>, g: nat, success: bool)
    requires Results(es, g, true) == 0 && Results(es, g, false) == 0
    ensures Streak(es, g, success, 0)
  {
    assert es[0..] == es;
  }

  /** The counters of the current generation are its results, and no later one has any. */
  ghost predicate ResultsOk(w: World, es: seq<Event>) {
    var c, g := w.core.counts, w.core.generation;
    && c.successes == Results(es, g, true) && c.failures == Results(es, g, false)
    && Streak(es, g, true, c.consecutiveSuccesses) && Streak(es, g, false, c.consecutiveFailures)
    && forall later: nat, success: bool :: later > g ==> Results(es, later, success) == 0
  }

  /** The result counters `b` after one more event. */
  predicate Updated(a: Counts, b: Counts, good: bool, bad: bool) {
    && b.successes == a.successes + (if good then 1 else 0)
    && b.failures == a.failures + (if bad then 1 else 0)
    && b.consecutiveSuccesses ==
         (if good then a.consecutiveSuccesses + 1 else if bad then 0 else a.consecutiveSuccesses)
    && b.consecutiveFailures ==
         (if bad then a.consecutiveFailures + 1 else if good then 0 else a.consecutiveFailures)
  }

  lemma SameBegin(cfg: Config, c: Core, now: real)
    requires Begin(cfg, c, now).generation == c.generation
    ensures Updated(c.counts, Begin(cfg, c, now).counts, false, false)
  {
  }

  lemma SameEnd(cfg: Config, c: Core, g: nat, success: bool, now: real)
    requires End(cfg, c, g, success, now).generation == c.generation
    requires g == c.generation ==> c.state != Open
    ensures Updated(c.counts, End(cfg, c, g, success, now).counts,
      g == c.generation && success, g == c.generation && !success)
  {
    assert Tick(cfg, c, now) == c;
  }

  lemma SameGeneration(cfg: Config, w: World, e: Event)
    requires cfg.Valid() && CountsOk(cfg, w.core, w.calls) && Possible(w, e)
    requires Step(cfg, w, e).core.generation == w.core.generation
    ensures Updated(w.core.counts, Step(cfg, w, e).core.counts,
      IsResult(e, w.core.generation, true), IsResult(e, w.core.generation, false))
  {
    hide Begin, End, Updated;
    match e
    case Start(now) => SameBegin(cfg, w.core, now);
    case Finish(g, outcome, now) => SameEnd(cfg, w.core, g, outcome == Succeeded, now);
    case Poll(now) => SameTick(cfg, w.core, now);
    case Reset(now) => SameCounts(w.core.counts);
  }

  lemma SameTick(cfg: Config, c: Core, now: real)
    requires Tick(cfg, c, now).generation == c.generation
    ensures Updated(c.counts, Tick(cfg, c, now).counts, false, false)
  {
  }

  lemma SameCounts(c: Counts)
    ensures Updated(c, c, false, false)
  {
  }

  lemma NextBegin(cfg: Config, c: Core, now: real)
    requires Begin(cfg, c, now).generation != c.generation
    ensures var b := Begin(cfg, c, now).counts; b == NO_COUNTS.(requests := b.requests)
  {
  }

  lemma NextEnd(cfg: Config, c: Core, g: nat, success: bool, now: real)
    requires g <= c.generation && End(cfg, c, g, success, now).generation != c.generation
    ensures End(cfg, c, g, success, now).counts == NO_COUNTS
  {
  }

  lemma NextGeneration(cfg: Config, w: World, e: Event)
    requires cfg.Valid() && CountsOk(cfg, w.core, w.calls) && Possible(w, e)
    requires Step(cfg, w, e).core.generation != w.core.generation
    ensures var v := Step(cfg, w, e);
      && v.core.counts == NO_COUNTS.(requests := v.core.counts.requests)
      && v.core.generation == w.core.generation + 1
  {
    hide Begin, End;
    GenerationAfter(cfg, w, e);
    match e
    case Start(now) => NextBegin(cfg, w.core, now);
    case Finish(g, outcome, now) => NextEnd(cfg, w.core, g, outcome == Succeeded, now);
    case Poll(now) =>
    case Reset(now) =>
  }

  lemma StepResults(cfg: Config, w: World, e: Event, es: seq<Event>)
    requires cfg.Valid() && CountsOk(cfg, w.core, w.calls) && Possible(w, e) && ResultsOk(w, es)
    ensures ResultsOk(Step(cfg, w, e), es + [e])
  {
    hide Step, Results, Streak;
    var v, g := Step(cfg, w, e), w.core.generation;
    forall later: nat, success: bool | later >= g
      ensures Results(es + [e], later, success) ==
        Results(es, later, success) + if IsResult(e, later, success) then 1 else 0
    {
      ResultsAppend(es, e, later, success);
    }
    assert e.Finish? ==> e.generation <= g;
    if v.core.generation == g {
      SameGeneration(cfg, w, e);
      StreakNext(es, e, g, true, w.core.counts.consecutiveSuccesses);
      StreakNext(es, e, g, false, w.core.counts.consecutiveFailures);
    } else {
      NextGeneration(cfg, w, e);
      NoStreak(es + [e], g + 1, true);
      NoStreak(es + [e], g + 1, false);
    }
  }

  lemma {:induction false} RunResults(cfg: Config, ws: seq<World>, es: seq<Event>, n: nat)
    requires cfg.Valid() && Trace(cfg, ws, es) && n <= |es|
    requires ResultsOk(ws[0], []) && CountsOk(cfg, ws[0].core, ws[0].calls)
    ensures ResultsOk(ws[n], es[..n]) && CountsOk(cfg, ws[n].core, ws[n].calls)
  {
    hide Step, Possible, ResultsOk, CountsOk;
    if n == 0 {
      assert es[..0] == [];
    } else {
      RunResults(cfg, ws, es, n - 1);
      StepResults(cfg, ws[n - 1], es[n - 1], es[..n - 1]);
      StepCounts(cfg, ws[n - 1], es[n - 1]);
      assert es[..n] == es[..n - 1] + [es[n - 1]];
    }
  }

  /** A run from the moment the breaker is made. */
  ghost predicate FromStart(cfg: Config, ws: seq<World>, es: seq<Event>, now: real, metricsNow: real) {
    Trace(cfg, ws, es) && now <= metricsNow && ws[0] == Fresh(cfg, now, metricsNow)
  }

  /** After every run the counters are the results of calls of the current generation, and the
      consecutive ones those since the last result of the other kind. */
  lemma CountersAreResults(cfg: Config, ws: seq<World>, es: seq<Event>, n: nat, now: real, metricsNow: real)
    requires cfg.Valid() && FromStart(cfg, ws, es, now, metricsNow) && n <= |es|
    ensures var c, g := ws[n].core.counts, ws[n].core.generation;
      && c.successes == Results(es[..n], g, true) && c.failures == Results(es[..n], g, false)
      && Streak(es[..n], g, true, c.consecutiveSuccesses) && Streak(es[..n], g, false, c.consecutiveFailures)
  {
    hide Step, Possible, Streak;
    NoStreak([], ws[0].core.generation, true);
    NoStreak([], ws[0].core.generation, false);
    RunResults(cfg, ws, es, n);
  }

  // ---- Expiry ----

  /** The generation of world `n` began with event `k - 1`, or with the breaker when `k` is 0. */
  predicate BeganAt(ws: seq<World>, n: nat, k: nat)
    requires n < |ws|
  {
    && k <= n && (forall i :: k <= i <= n ==> ws[i].core.generation == ws[n].core.generation)
    && (k > 0 ==> ws[k - 1].core.generation != ws[k].core.generation)
  }

  predicate ExpiresFrom(cfg: Config, c: Core, start: real) {
    c.expiry == match c.state
      case Closed => if cfg.interval == 0.0 then None else Some(start + cfg.interval)
      case Open => Some(start + cfg.timeout)
      case HalfOpen => None
  }

  lemma TickExpiry(cfg: Config, c: Core, now: real, start: real)
    requires ExpiresFrom(cfg, c, start)
    ensures var t := Tick(cfg, c, now); ExpiresFrom(cfg, t, if t.generation == c.generation then start else now)
  {
  }

  lemma SucceedExpiry(cfg: Config, c: Core, now: real, start: real)
    requires ExpiresFrom(cfg, c, start)
    ensures var t := Succeed(cfg, c, now); ExpiresFrom(cfg, t, if t.generation == c.generation then start else now)
  {
  }

  lemma FailExpiry(cfg: Config, c: Core, now: real, start: real)
    requires ExpiresFrom(cfg, c, start)
    ensures var t := Fail(cfg, c, now); ExpiresFrom(cfg, t, if t.generation == c.generation then start else now)
  {
  }

  lemma EndExpiry(cfg: Config, c: Core, g: nat, success: bool, now: real, start: real)
    requires ExpiresFrom(cfg, c, start) && g <= c.generation
    ensures var t := End(cfg, c, g, success, now);
      ExpiresFrom(cfg, t, if t.generation == c.generation then start else now)
  {
    hide Tick, Succeed, Fail, ExpiresFrom;
    TickExpiry(cfg, c, now, start);
    if Tick(cfg, c, now).generation == g {
      TickedOwn(cfg, c, g, now);
      SucceedExpiry(cfg, c, now, start);
      FailExpiry(cfg, c, now, start);
    }
  }

  lemma BeginExpiry(cfg: Config, c: Core, now: real, start: real)
    requires ExpiresFrom(cfg, c, start)
    ensures var t := Begin(cfg, c, now); ExpiresFrom(cfg, t, if t.generation == c.generation then start else now)
  {
    hide Tick;
    TickExpiry(cfg, c, now, start);
  }

  lemma StepExpiry(cfg: Config, w: World, e: Event, start: real)
    requires cfg.Valid() && CountsOk(cfg, w.core, w.calls) && Possible(w, e) && ExpiresFrom(cfg, w.core, start)
    ensures var v := Step(cfg, w, e);
      ExpiresFrom(cfg, v.core, if v.core.generation == w.core.generation then start else e.now)
  {
    hide Begin, End, Tick, ExpiresFrom;
    match e
    case Start(now) => BeginExpiry(cfg, w.core, now, start);
    case Finish(g, outcome, now) => EndExpiry(cfg, w.core, g, outcome == Succeeded, now, start);
    case Poll(now) => TickExpiry(cfg, w.core, now, start);
    case Reset(now) => ClearedExpiry(cfg, w.core, now, start);
  }

  lemma ClearedExpiry(cfg: Config, c: Core, now: real, start: real)
    requires ExpiresFrom(cfg, c, start)
    ensures ExpiresFrom(cfg, ClearMetrics(c, now), start)
  {
  }

  lemma FreshInv(cfg: Config, now: real, metricsNow: real)
    requires cfg.Valid() && now <= metricsNow
    ensures Inv(cfg, Fresh(cfg, now, metricsNow))
  {
  }

  lemma RunCounts(cfg: Config, ws: seq<World>, es: seq<Event>, n: nat, now: real, metricsNow: real)
    requires cfg.Valid() && FromStart(cfg, ws, es, now, metricsNow) && n <= |es|
    ensures CountsOk(cfg, ws[n].core, ws[n].calls)
  {
    hide Step, CountsOk, LogOk, TimesOk;
    FreshInv(cfg, now, metricsNow);
    TraceKeepsInv(cfg, ws, es, n);
  }

  /** The expiry runs from the moment the generation began. */
  lemma {:induction false} ExpiryIs(cfg: Config, ws: seq<World>, es: seq<Event>, n: nat, now: real, metricsNow: real)
    returns (k: nat)
    requires cfg.Valid() && FromStart(cfg, ws, es, now, metricsNow) && n <= |es|
    ensures BeganAt(ws, n, k) && ExpiresFrom(cfg, ws[n].core, if k == 0 then now else es[k - 1].now)
  {
    hide Step, ExpiresFrom, CountsOk, LogOk, TimesOk;
    if n == 0 {
      k := 0;
      FreshExpiry(cfg, now, metricsNow);
    } else {
      k := ExpiryIs(cfg, ws, es, n - 1, now, metricsNow);
      RunCounts(cfg, ws, es, n - 1, now, metricsNow);
      StepExpiry(cfg, ws[n - 1], es[n - 1], if k == 0 then now else es[k - 1].now);
      if ws[n].core.generation != ws[n - 1].core.generation {
        k := n;
      }
    }
  }

  lemma FreshExpiry(cfg: Config, now: real, metricsNow: real)
    ensures ExpiresFrom(cfg, Fresh(cfg, now, metricsNow).core, now)
  {
  }

  // ---- Metrics ----

  /** What the metrics count: a call is asked for, is turned away, or ends well or badly. */
  datatype Kind = Asked | TurnedAway | EndedWell | EndedBadly

  predicate Shows(kind: Kind, w: World, e: Event, v: World) {
    match kind
    case Asked => e.Start?
    case TurnedAway => e.Start? && v.calls == w.calls
    case EndedWell => Counted(w, e) && e.outcome == Succeeded
    case EndedBadly => Counted(w, e) && e.outcome != Succeeded
  }

  /** How often that happened from world `k` to world `n`. */
  function Tally(ws: seq<World>, es: seq<Event>, k: nat, n: nat, kind: Kind): nat
    requires |ws| == |es| + 1 && k <= n <= |es|
  {
    if n == k then 0
    else Tally(ws, es, k, n - 1, kind) + if Shows(kind, ws[n - 1], es[n - 1], ws[n]) then 1 else 0
  }

  function MetricOf(m: Metrics, kind: Kind): nat {
    match kind
    case Asked => m.requests
    case TurnedAway => m.rejected
    case EndedWell => m.successes
    case EndedBadly => m.failures
  }

  /** The metrics have been cleared at world `k`, or the breaker is new, and not since. */
  predicate ClearedAt(es: seq<Event>, k: nat, n: nat) {
    && k <= n <= |es| && (k == 0 || es[k - 1].Reset?)
    && forall i :: k <= i < n ==> !es[i].Reset?
  }

  predicate Gained(a: Metrics, b: Metrics, asked: bool, turnedAway: bool, well: bool, badly: bool) {
    && b.requests == a.requests + (if asked then 1 else 0)
    && b.rejected == a.rejected + (if turnedAway then 1 else 0)
    && b.successes == a.successes + (if well then 1 else 0)
    && b.failures == a.failures + (if badly then 1 else 0)
  }

  lemma TickGains(cfg: Config, c: Core, now: real)
    ensures Gained(c.metrics, Tick(cfg, c, now).metrics, false, false, false, false)
  {
  }

  lemma BeginGains(cfg: Config, c: Core, now: real)
    ensures Gained(c.metrics, Begin(cfg, c, now).metrics, true, !Admits(cfg, Tick(cfg, c, now)), false, false)
  {
    hide Tick, Admits;
    TickGains(cfg, c, now);
  }

  lemma EndGains(cfg: Config, c: Core, g: nat, success: bool, now: real)
    ensures var own := Tick(cfg, c, now).generation == g;
      Gained(c.metrics, End(cfg, c, g, success, now).metrics, false, false, own && success, own && !success)
  {
    hide Tick;
    TickGains(cfg, c, now);
  }

  /** A result is of the current generation exactly when no timed transition comes before it. */
  lemma OwnIff(cfg: Config, w: World, e: Event)
    requires cfg.Valid() && CountsOk(cfg, w.core, w.calls) && Possible(w, e) && e.Finish?
    ensures Tick(cfg, w.core, e.now).generation == e.generation <==> Counted(w, e)
  {
  }

  lemma StepGains(cfg: Config, w: World, e: Event)
    requires cfg.Valid() && CountsOk(cfg, w.core, w.calls) && Possible(w, e) && !e.Reset?
    ensures var v := Step(cfg, w, e);
      Gained(w.core.metrics, v.core.metrics,
        Shows(Asked, w, e, v), Shows(TurnedAway, w, e, v), Shows(EndedWell, w, e, v), Shows(EndedBadly, w, e, v))
  {
    hide Tick, Begin, End, Admits, Gained, CountsOk;
    match e
    case Start(now) =>
      BeginGains(cfg, w.core, now);
      var v := Step(cfg, w, e);
      assert Admits(cfg, Tick(cfg, w.core, now)) ==> v.calls[v.core.generation] == w.calls[v.core.generation] + 1;
    case Finish(g, outcome, now) =>
      EndGains(cfg, w.core, g, outcome == Succeeded, now);
      OwnIff(cfg, w, e);
    case Poll(now) => TickGains(cfg, w.core, now);
  }

  lemma StepKind(cfg: Config, w: World, e: Event, kind: Kind)
    requires cfg.Valid() && CountsOk(cfg, w.core, w.calls) && Possible(w, e) && !e.Reset?
    ensures var v := Step(cfg, w, e);
      MetricOf(v.core.metrics, kind) == MetricOf(w.core.metrics, kind) + if Shows(kind, w, e, v) then 1 else 0
  {
    hide Step, Shows, CountsOk;
    StepGains(cfg, w, e);
  }

  lemma ClearedEarlier(es: seq<Event>, k: nat, n: nat)
    requires ClearedAt(es, k, n) && k < n
    ensures ClearedAt(es, k, n - 1) && !es[n - 1].Reset?
  {
  }

  /** Since they were last cleared the metrics count the calls asked for, turned away and ended. */
  lemma {:induction false} MetricsAreTallies(
    cfg: Config, ws: seq<World>, es: seq<Event>, k: nat, n: nat, kind: Kind, now: real, metricsNow: real)
    requires cfg.Valid() && FromStart(cfg, ws, es, now, metricsNow) && ClearedAt(es, k, n)
    ensures MetricOf(ws[n].core.metrics, kind) == Tally(ws, es, k, n, kind)
    decreases n - k
  {
    hide Step, Shows, MetricOf, CountsOk;
    if n == k {
      ClearedMetrics(cfg, ws, es, k, now, metricsNow, kind);
    } else {
      ClearedEarlier(es, k, n);
      MetricsAreTallies(cfg, ws, es, k, n - 1, kind, now, metricsNow);
      RunCounts(cfg, ws, es, n - 1, now, metricsNow);
      StepKind(cfg, ws[n - 1], es[n - 1], kind);
    }
  }

  lemma ClearedMetrics(
    cfg: Config, ws: seq<World>, es: seq<Event>, k: nat, now: real, metricsNow: real, kind: Kind)
    requires FromStart(cfg, ws, es, now, metricsNow) && ClearedAt(es, k, k)
    ensures var m := ws[k].core.metrics;
      MetricOf(m, kind) == 0 && m == Metrics(0, 0, 0, 0, ws[k].clock, 0.0, 0.0, 0.0)
  {
    if k > 0 {
      assert ws[k] == Step(cfg, ws[k - 1], es[k - 1]);
    }
  }

  // ---- Times ----

  /** The time from world `k` to world `n` in which the breaker was in that state. */
  function Elapsed(ws: seq<World>, k: nat, n: nat, s: State): real
    requires k <= n < |ws|
  {
    if n == k then 0.0
    else Elapsed(ws, k, n - 1, s) + if ws[n - 1].core.state == s then ws[n].clock - ws[n - 1].clock else 0.0
  }

  function TimeOf(m: Metrics, s: State): real {
    match s
    case Closed => m.closedTime
    case Open => m.openTime
    case HalfOpen => m.halfOpenTime
  }

  /** The time charged to a state, and what is not yet charged when the breaker is still in it. */
  function Accounted(c: Core, clock: real, s: State): real {
    TimeOf(c.metrics, s) + if c.state == s then clock - c.metrics.lastChange else 0.0
  }

  lemma ChangeAccounts(cfg: Config, c: Core, to: State, clock: real, now: real, s: State)
    requires c.metrics.lastChange > 0.0
    ensures Accounted(ChangeState(cfg, c, to, now), now, s) ==
      Accounted(c, clock, s) + if c.state == s then now - clock else 0.0
  {
  }

  lemma TickAccounts(cfg: Config, c: Core, clock: real, now: real, s: State)
    requires c.metrics.lastChange > 0.0
    ensures Accounted(Tick(cfg, c, now), now, s) == Accounted(c, clock, s) + if c.state == s then now - clock else 0.0
    ensures Tick(cfg, c, now).metrics.lastChange >= c.metrics.lastChange || Tick(cfg, c, now).metrics.lastChange == now
  {
    ChangeAccounts(cfg, c, HalfOpen, clock, now, s);
  }

  lemma BeginAccounts(cfg: Config, c: Core, clock: real, now: real, s: State)
    requires c.metrics.lastChange > 0.0
    ensures Accounted(Begin(cfg, c, now), now, s) == Accounted(c, clock, s) + if c.state == s then now - clock else 0.0
  {
    hide Tick;
    TickAccounts(cfg, c, clock, now, s);
  }

  lemma EndAccounts(cfg: Config, c: Core, clock: real, g: nat, success: bool, now: real, s: State)
    requires c.metrics.lastChange > 0.0 && now > 0.0
    ensures Accounted(End(cfg, c, g, success, now), now, s) ==
      Accounted(c, clock, s) + if c.state == s then now - clock else 0.0
  {
    hide Tick;
    TickAccounts(cfg, c, clock, now, s);
  }

  lemma StepAccounts(cfg: Config, w: World, e: Event, s: State)
    requires w.core.metrics.lastChange > 0.0 && w.clock > 0.0 && Possible(w, e) && !e.Reset?
    ensures var v := Step(cfg, w, e);
      Accounted(v.core, v.clock, s) ==
        Accounted(w.core, w.clock, s) + if w.core.state == s then v.clock - w.clock else 0.0
  {
    hide Tick, Begin, End, Accounted;
    match e
    case Start(now) => BeginAccounts(cfg, w.core, w.clock, now, s);
    case Finish(g, outcome, now) => EndAccounts(cfg, w.core, w.clock, g, outcome == Succeeded, now, s);
    case Poll(now) => TickAccounts(cfg, w.core, w.clock, now, s);
  }

  lemma SinceStays(cfg: Config, w: World, e: Event)
    requires !e.Reset?
    ensures Step(cfg, w, e).since == w.since
  {
  }

  lemma {:induction false} SinceIs(
    cfg: Config, ws: seq<World>, es: seq<Event>, k: nat, n: nat, now: real, metricsNow: real)
    requires FromStart(cfg, ws, es, now, metricsNow) && ClearedAt(es, k, n)
    ensures ws[n].since == ws[k].clock
    decreases n - k
  {
    if n == k {
      if k > 0 {
        assert ws[k] == Step(cfg, ws[k - 1], es[k - 1]);
      }
    } else {
      hide Step;
      SinceIs(cfg, ws, es, k, n - 1, now, metricsNow);
      SinceStays(cfg, ws[n - 1], es[n - 1]);
    }
  }

  lemma LastChangeIsLater(
    cfg: Config, ws: seq<World>, es: seq<Event>, k: nat, n: nat, now: real, metricsNow: real)
    requires cfg.Valid() && FromStart(cfg, ws, es, now, metricsNow) && ClearedAt(es, k, n)
    ensures ws[k].clock <= ws[n].core.metrics.lastChange <= ws[n].clock
  {
    hide Step, CountsOk, LogOk;
    SinceIs(cfg, ws, es, k, n, now, metricsNow);
    FreshInv(cfg, now, metricsNow);
    TraceKeepsInv(cfg, ws, es, n);
  }

  /** Since the metrics were last cleared each state is charged the time spent in it, up to the last
      change; the rest belongs to the present state. */
  lemma {:induction false} TimesAreElapsed(
    cfg: Config, ws: seq<World>, es: seq<Event>, k: nat, n: nat, s: State, now: real, metricsNow: real)
    requires cfg.Valid() && FromStart(cfg, ws, es, now, metricsNow) && ClearedAt(es, k, n) && ws[k].clock > 0.0
    ensures var c := ws[n].core;
      TimeOf(c.metrics, s) + (if c.state == s then ws[n].clock - c.metrics.lastChange else 0.0)
        == Elapsed(ws, k, n, s)
    decreases n - k
  {
    if n == k {
      ClearedMetrics(cfg, ws, es, k, now, metricsNow, Asked);
    } else {
      hide Step, CountsOk, LogOk;
      TimesAreElapsed(cfg, ws, es, k, n - 1, s, now, metricsNow);
      LastChangeIsLater(cfg, ws, es, k, n - 1, now, metricsNow);
      StepAccounts(cfg, ws[n - 1], es[n - 1], s);
    }
  }

  // ---- The log ----

  /** What an event adds to the log: its change of state, if any, and its admission, if any. */
  lemma LoggedIs(cfg: Config, w: World, e: Event)
    requires cfg.Valid() && Reachable(cfg, w) && Possible(w, e)
    ensures var v := Step(cfg, w, e);
      var changed := Changed(w.core.state, v.core.state, e.now, w.core.generation, v.core.generation);
      var admitted := Admitted(v.core.generation, e.now, v.core.state == HalfOpen);
      v.log == w.log + (if v.core.state != w.core.state then [changed] else [])
                     + (if e.Start? && v.calls != w.calls then [admitted] else [])
  {
    hide Reachable, Step, Admitting;
    StepEntries(cfg, w, e);
    AdmittingIff(cfg, w, e);
  }

  lemma AdmittingIff(cfg: Config, w: World, e: Event)
    ensures Admitting(cfg, w, e) <==> e.Start? && Step(cfg, w, e).calls != w.calls
  {
    if Admitting(cfg, w, e) {
      var v := Step(cfg, w, e);
      assert v.calls[v.core.generation] == w.calls[v.core.generation] + 1;
    }
  }

  /** The event that a logged change comes from. */
  lemma {:induction false} ChangeHasCause(
    cfg: Config, ws: seq<World>, es: seq<Event>, n: nat, x: Entry, now: real, metricsNow: real)
    returns (i: nat)
    requires cfg.Valid() && FromStart(cfg, ws, es, now, metricsNow) && n <= |es| && x in ws[n].log && x.Changed?
    ensures i < n && x.at == es[i].now && x.from == ws[i].core.state && x.to == ws[i + 1].core.state
    ensures x.from != x.to && x.before == ws[i].core.generation && x.after == ws[i + 1].core.generation
  {
    hide Step, Admitting;
    if x in ws[n - 1].log {
      i := ChangeHasCause(cfg, ws, es, n - 1, x, now, metricsNow);
    } else {
      i := n - 1;
      StepEntries(cfg, ws[i], es[i]);
    }
  }

  lemma RunReachable(cfg: Config, ws: seq<World>, es: seq<Event>, n: nat, now: real, metricsNow: real)
    requires FromStart(cfg, ws, es, now, metricsNow) && n <= |es|
    ensures Reachable(cfg, ws[n])
  {
    hide Step, Possible, Fresh;
    assert Trace(cfg, ws[..n + 1], es[..n]) && ws[..n + 1][|es[..n]|] == ws[n];
    assert Leads(cfg, Fresh(cfg, now, metricsNow), ws[n]);
  }

  /** Every trip in the log is the failure of a call of the generation current then, with counts on
      which the rule holds. */
  lemma TripHasCause(
    cfg: Config, ws: seq<World>, es: seq<Event>, n: nat, x: Entry, now: real, metricsNow: real)
    returns (i: nat)
    requires cfg.Valid() && FromStart(cfg, ws, es, now, metricsNow) && n <= |es| && x in ws[n].log
    requires x.Changed? && x.to == Open
    ensures i < n && x.at == es[i].now && Counted(ws[i], es[i]) && es[i].outcome != Succeeded
    ensures cfg.readyToTrip(WithFailure(ws[i].core.counts))
  {
    hide Step, Counted, Reachable;
    i := ChangeHasCause(cfg, ws, es, n, x, now, metricsNow);
    RunReachable(cfg, ws, es, i, now, metricsNow);
    TripsIff(cfg, ws[i], es[i]);
  }

  /** Every return to normal in the log is the success of a probe. */
  lemma ClosingHasCause(
    cfg: Config, ws: seq<World>, es: seq<Event>, n: nat, x: Entry, now: real, metricsNow: real)
    returns (i: nat)
    requires cfg.Valid() && FromStart(cfg, ws, es, now, metricsNow) && n <= |es| && x in ws[n].log
    requires x.Changed? && x.to == Closed
    ensures i < n && x.at == es[i].now && Counted(ws[i], es[i]) && es[i].outcome == Succeeded
    ensures x.from == HalfOpen == ws[i].core.state
  {
    hide Step, Counted, Reachable;
    i := ChangeHasCause(cfg, ws, es, n, x, now, metricsNow);
    RunReachable(cfg, ws, es, i, now, metricsNow);
    ClosesIff(cfg, ws[i], es[i]);
  }
}
