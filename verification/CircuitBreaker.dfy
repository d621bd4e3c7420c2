/** The circuit breaker of internal/resilience/circuit_breaker.go.

    The clock is a parameter of every operation, counts seconds and never runs backwards;
    counters are unbounded.  `Core` holds the fields, the functions on it say what each operation does,
    and the class at the end updates the fields in place and is proved to do the same. */
module CircuitBreaker {
  import opened Options

  datatype State = Closed | Open | HalfOpen

  datatype Counts = Counts(requests: nat, successes: nat, failures: nat,
                           consecutiveSuccesses: nat, consecutiveFailures: nat)

  const NO_COUNTS := Counts(0, 0, 0, 0, 0)

  datatype Settings = Settings(maxRequests: nat, interval: real, timeout: real, readyToTrip: Option<Counts -> bool>)

  /** Settings after the constructor filled in its defaults. */
  datatype Config = Config(maxRequests: nat, interval: real, timeout: real, readyToTrip: Counts -> bool) {
    ghost predicate Valid() { maxRequests > 0 && interval >= 0.0 && timeout > 0.0 }
  }

  predicate DefaultReadyToTrip(c: Counts) { c.consecutiveFailures > 5 }

  function Defaulted(st: Settings): (cfg: Config)
    ensures cfg.Valid()
    ensures (st.maxRequests > 0 ==> cfg.maxRequests == st.maxRequests) && (st.maxRequests == 0 ==> cfg.maxRequests == 1)
    ensures (st.timeout > 0.0 ==> cfg.timeout == st.timeout) && (st.timeout <= 0.0 ==> cfg.timeout == 60.0)
    ensures (st.interval > 0.0 ==> cfg.interval == st.interval) && (st.interval <= 0.0 ==> cfg.interval == 0.0)
    ensures st.readyToTrip.Some? ==> cfg.readyToTrip == st.readyToTrip.value
    ensures st.readyToTrip.None? ==> forall c :: cfg.readyToTrip(c) <==> c.consecutiveFailures > 5
  {
    Config(if st.maxRequests == 0 then 1 else st.maxRequests,
           if st.interval <= 0.0 then 0.0 else st.interval,
           if st.timeout <= 0.0 then 60.0 else st.timeout,
           if st.readyToTrip.None? then DefaultReadyToTrip else st.readyToTrip.value)
  }

  datatype Metrics = Metrics(requests: nat, successes: nat, failures: nat, rejected: nat, lastChange: real,
                             closedTime: real, openTime: real, halfOpenTime: real)

  datatype Core = Core(state: State, generation: nat, counts: Counts, expiry: Option<real>, metrics: Metrics)

  // ---- What the operations do ----

  function ExpiryAfter(cfg: Config, s: State, now: real): Option<real> {
    match s
    case Closed => if cfg.interval == 0.0 then None else Some(now + cfg.interval)
    case Open => Some(now + cfg.timeout)
    case HalfOpen => None
  }

  function NewGeneration(cfg: Config, c: Core, now: real): Core {
    c.(generation := c.generation + 1, counts := NO_COUNTS, expiry := ExpiryAfter(cfg, c.state, now))
  }

  function ChargeTime(m: Metrics, s: State, now: real): Metrics {
    var d := if m.lastChange > 0.0 then now - m.lastChange else 0.0;
    match s
    case Closed => m.(closedTime := m.closedTime + d)
    case Open => m.(openTime := m.openTime + d)
    case HalfOpen => m.(halfOpenTime := m.halfOpenTime + d)
  }

  function ChangeState(cfg: Config, c: Core, to: State, now: real): Core {
    if c.state == to then c
    else NewGeneration(cfg, c.(state := to, metrics := ChargeTime(c.metrics, c.state, now).(lastChange := now)), now)
  }

  predicate Expired(c: Core, now: real) { c.expiry.Some? && c.expiry.value < now }

  /** The timed transition every operation begins with. */
  function Tick(cfg: Config, c: Core, now: real): Core {
    if c.state == Closed && Expired(c, now) then NewGeneration(cfg, c, now)
    else if c.state == Open && Expired(c, now) then ChangeState(cfg, c, HalfOpen, now)
    else c
  }

  predicate Admits(cfg: Config, c: Core) {
    c.state == Closed || (c.state == HalfOpen && c.counts.requests < cfg.maxRequests)
  }

  function Begin(cfg: Config, c: Core, now: real): Core {
    var c := Tick(cfg, c, now);
    var m := c.metrics.(requests := c.metrics.requests + 1);
    if Admits(cfg, c) then c.(metrics := m, counts := c.counts.(requests := c.counts.requests + 1))
    else c.(metrics := m.(rejected := m.rejected + 1))
  }

  function Succeed(cfg: Config, c: Core, now: real): Core {
    var c := c.(counts := c.counts.(successes := c.counts.successes + 1,
                                    consecutiveSuccesses := c.counts.consecutiveSuccesses + 1,
                                    consecutiveFailures := 0),
                metrics := c.metrics.(successes := c.metrics.successes + 1));
    if c.state == HalfOpen then ChangeState(cfg, c, Closed, now) else c
  }

  /** A half-open failure reopens the breaker only when the trip rule says so. */
  function Fail(cfg: Config, c: Core, now: real): Core {
    var c := c.(counts := c.counts.(failures := c.counts.failures + 1,
                                    consecutiveFailures := c.counts.consecutiveFailures + 1,
                                    consecutiveSuccesses := 0),
                metrics := c.metrics.(failures := c.metrics.failures + 1));
    if cfg.readyToTrip(c.counts) then ChangeState(cfg, c, Open, now) else c
  }

  function End(cfg: Config, c: Core, generation: nat, success: bool, now: real): Core {
    var c := Tick(cfg, c, now);
    if c.generation != generation then c
    else if success then Succeed(cfg, c, now) else Fail(cfg, c, now)
  }

  function ClearMetrics(c: Core, now: real): Core {
    c.(metrics := Metrics(0, 0, 0, 0, now, 0.0, 0.0, 0.0))
  }

  function InitialCore(cfg: Config, now: real, metricsNow: real): Core {
    NewGeneration(cfg, Core(Closed, 0, NO_COUNTS, None, Metrics(0, 0, 0, 0, metricsNow, 0.0, 0.0, 0.0)), now)
  }

  // ---- Runs ----

  datatype Outcome = Succeeded | Failed | Panicked

  /** Calls start and finish in any interleaving; a panic is reported as a failure. */
  datatype Event =
    | Start(now: real)
    | Finish(generation: nat, outcome: Outcome, now: real)
    | Poll(now: real)
    | Reset(now: real)

  /** What an observer of the breaker sees. */
  datatype Entry =
    | Admitted(generation: nat, at: real, probe: bool)
    | Changed(from: State, to: State, at: real, before: nat, after: nat)

  datatype World = World(core: Core, clock: real, calls: multiset<nat>, since: real, log: seq<Entry>)

  ghost predicate Possible(w: World, e: Event) {
    e.now >= w.clock && (e.Finish? ==> e.generation in w.calls)
  }

  ghost function Observed(a: Core, b: Core, now: real): seq<Entry> {
    if a.state == b.state then [] else [Changed(a.state, b.state, now, a.generation, b.generation)]
  }

  ghost function Step(cfg: Config, w: World, e: Event): World {
    match e
    case Start(now) =>
      var c := Begin(cfg, w.core, now);
      var seen := w.log + Observed(w.core, c, now);
      if Admits(cfg, Tick(cfg, w.core, now)) then
        World(c, now, w.calls + multiset{c.generation}, w.since,
              seen + [Admitted(c.generation, now, c.state == HalfOpen)])
      else World(c, now, w.calls, w.since, seen)
    case Finish(g, outcome, now) =>
      var c := End(cfg, w.core, g, outcome == Succeeded, now);
      World(c, now, w.calls - multiset{g}, w.since, w.log + Observed(w.core, c, now))
    case Poll(now) =>
      var c := Tick(cfg, w.core, now);
      World(c, now, w.calls, w.since, w.log + Observed(w.core, c, now))
    case Reset(now) => World(ClearMetrics(w.core, now), now, w.calls, now, w.log)
  }

  /** `ws` are the worlds a run passes through, one more than its events. */
  ghost predicate Trace(cfg: Config, ws: seq<World>, es: seq<Event>) {
    && |ws| == |es| + 1
    && forall i {:trigger es[i]} :: 0 <= i < |es| ==> Possible(ws[i], es[i]) && ws[i + 1] == Step(cfg, ws[i], es[i])
  }

  ghost predicate Leads(cfg: Config, w: World, v: World) {
    exists ws, es :: Trace(cfg, ws, es) && ws[0] == w && ws[|es|] == v
  }

  ghost function Fresh(cfg: Config, now: real, metricsNow: real): World {
    World(InitialCore(cfg, now, metricsNow), metricsNow, multiset{}, metricsNow, [])
  }

  ghost predicate Reachable(cfg: Config, w: World) {
    exists now: real, metricsNow: real :: now <= metricsNow && Leads(cfg, Fresh(cfg, now, metricsNow), w)
  }

  lemma LeadsNowhere(cfg: Config, w: World)
    ensures Leads(cfg, w, w)
  {
    assert Trace(cfg, [w], []);
  }

  /** One more event. */
  lemma Then(cfg: Config, w: World, e: Event) returns (v: World)
    requires Reachable(cfg, w) && Possible(w, e)
    ensures Reachable(cfg, v) && v == Step(cfg, w, e)
  {
    hide Step, Possible, Fresh;
    v := Step(cfg, w, e);
    var now: real, metricsNow: real :| now <= metricsNow && Leads(cfg, Fresh(cfg, now, metricsNow), w);
    var ws, es :| Trace(cfg, ws, es) && ws[0] == Fresh(cfg, now, metricsNow) && ws[|es|] == w;
    assert Trace(cfg, ws + [v], es + [e]);
    assert Leads(cfg, Fresh(cfg, now, metricsNow), v);
  }

  // ---- The invariant of all runs ----

  ghost predicate CountsOk(cfg: Config, c: Core, calls: multiset<nat>) {
    && (forall g :: g in calls ==> g <= c.generation)
    && c.counts.requests == c.counts.successes + c.counts.failures + calls[c.generation]
    && (c.state == Open ==> c.counts == NO_COUNTS && c.expiry.Some?)
    && (c.state == HalfOpen ==>
          && c.expiry == None
          && c.counts.requests <= cfg.maxRequests
          && c.counts == Counts(c.counts.requests, 0, c.counts.failures, 0, c.counts.failures)
          && (calls[c.generation] == 0 && c.counts.requests > 0 ==> !cfg.readyToTrip(c.counts)))
  }

  ghost predicate TimesOk(m: Metrics, since: real, clock: real) {
    && since <= m.lastChange <= clock
    && (since > 0.0 ==> m.closedTime + m.openTime + m.halfOpenTime == m.lastChange - since)
  }

  predicate Legal(e: Entry) {
    e.Changed? ==>
      && e.before < e.after
      && (e.from, e.to) in {(Closed, Open), (Open, HalfOpen), (HalfOpen, Closed), (HalfOpen, Open)}
  }

  predicate IsTrip(e: Entry) { e.Changed? && e.to == Open }

  /** No admission follows a trip by `timeout` or less. */
  ghost predicate Quiet(cfg: Config, log: seq<Entry>) {
    forall i, j :: 0 <= i < j < |log| && IsTrip(log[i]) && log[j].Admitted? ==> log[j].at > log[i].at + cfg.timeout
  }

  ghost function Probes(log: seq<Entry>, g: nat): nat {
    if log == [] then 0
    else
      var last := log[|log| - 1];
      Probes(log[..|log| - 1], g) + if last.Admitted? && last.probe && last.generation == g then 1 else 0
  }

  ghost predicate TripsPast(cfg: Config, c: Core, clock: real, log: seq<Entry>) {
    forall i :: 0 <= i < |log| && IsTrip(log[i]) ==>
      if c.state == Open then c.expiry.Some? && log[i].at + cfg.timeout <= c.expiry.value
      else log[i].at + cfg.timeout < clock
  }

  /** The log of a breaker whose state is `c` at the moment `clock`. */
  ghost predicate InOrder(cfg: Config, c: Core, clock: real, log: seq<Entry>) {
    (forall e :: e in log ==> Legal(e)) && Quiet(cfg, log) && TripsPast(cfg, c, clock, log)
  }

  ghost predicate ProbesOk(cfg: Config, w: World) {
    && (forall g :: Probes(w.log, g) <= cfg.maxRequests)
    && (forall g :: g > w.core.generation ==> Probes(w.log, g) == 0)
    && Probes(w.log, w.core.generation) == if w.core.state == HalfOpen then w.core.counts.requests else 0
  }

  ghost predicate LogOk(cfg: Config, w: World) {
    InOrder(cfg, w.core, w.clock, w.log) && ProbesOk(cfg, w)
  }

  ghost predicate Inv(cfg: Config, w: World) {
    CountsOk(cfg, w.core, w.calls) && TimesOk(w.core.metrics, w.since, w.clock) && LogOk(cfg, w)
  }

  lemma FreshGeneration(cfg: Config, c: Core, calls: multiset<nat>, now: real)
    requires cfg.Valid() && forall g :: g in calls ==> g <= c.generation
    ensures CountsOk(cfg, NewGeneration(cfg, c, now), calls)
  {
    assert c.generation + 1 !in calls;
  }

  lemma TickCounts(cfg: Config, c: Core, calls: multiset<nat>, now: real)
    requires cfg.Valid() && CountsOk(cfg, c, calls)
    ensures CountsOk(cfg, Tick(cfg, c, now), calls)
  {
    FreshGeneration(cfg, c, calls, now);
    var charged := ChargeTime(c.metrics, c.state, now).(lastChange := now);
    FreshGeneration(cfg, c.(state := HalfOpen, metrics := charged), calls, now);
  }

  lemma BeginCounts(cfg: Config, c: Core, calls: multiset<nat>, now: real)
    requires cfg.Valid() && CountsOk(cfg, c, calls)
    ensures var b := Begin(cfg, c, now);
      CountsOk(cfg, b, if Admits(cfg, Tick(cfg, c, now)) then calls + multiset{b.generation} else calls)
  {
    TickCounts(cfg, c, calls, now);
  }

  lemma EndCounts(cfg: Config, c: Core, calls: multiset<nat>, g: nat, success: bool, now: real)
    requires cfg.Valid() && CountsOk(cfg, c, calls) && g in calls
    ensures CountsOk(cfg, End(cfg, c, g, success, now), calls - multiset{g})
  {
    hide Tick;
    TickCounts(cfg, c, calls, now);
    var t, rest := Tick(cfg, c, now), calls - multiset{g};
    assert forall x :: x in rest ==> x in calls;
  }

  lemma StepCounts(cfg: Config, w: World, e: Event)
    requires cfg.Valid() && CountsOk(cfg, w.core, w.calls) && Possible(w, e)
    ensures var v := Step(cfg, w, e); CountsOk(cfg, v.core, v.calls)
  {
    match e
    case Start(now) => BeginCounts(cfg, w.core, w.calls, now);
    case Finish(g, outcome, now) => EndCounts(cfg, w.core, w.calls, g, outcome == Succeeded, now);
    case Poll(now) => TickCounts(cfg, w.core, w.calls, now);
    case Reset(now) =>
  }

  lemma ChangeTimes(cfg: Config, c: Core, to: State, since: real, now: real)
    requires TimesOk(c.metrics, since, now)
    ensures TimesOk(ChangeState(cfg, c, to, now).metrics, since, now)
  {
  }

  lemma EndTimes(cfg: Config, c: Core, g: nat, success: bool, since: real, now: real)
    requires TimesOk(c.metrics, since, now)
    ensures TimesOk(End(cfg, c, g, success, now).metrics, since, now)
  {
    ChangeTimes(cfg, c, HalfOpen, since, now);
  }

  lemma StepTimes(cfg: Config, w: World, e: Event)
    requires TimesOk(w.core.metrics, w.since, w.clock) && Possible(w, e)
    ensures var v := Step(cfg, w, e); TimesOk(v.core.metrics, v.since, v.clock)
  {
    if e.Finish? {
      EndTimes(cfg, w.core, e.generation, e.outcome == Succeeded, w.since, e.now);
    } else {
      ChangeTimes(cfg, w.core, HalfOpen, w.since, e.now);
    }
  }

  /** One operation moves `a` to `b`: at most one generation on, along a legal transition. */
  ghost predicate Moves(cfg: Config, a: Core, b: Core, now: real) {
    && (forall x :: x in Observed(a, b, now) ==> Legal(x))
    && (b.generation == a.generation || b.generation == a.generation + 1)
    && (b.generation == a.generation ==> b.state == a.state && b.expiry == a.expiry)
    && (b.state == Open ==> b.expiry == if a.state == Open then a.expiry else Some(now + cfg.timeout))
    && (a.state == Open && b.state != Open ==> Expired(a, now))
  }

  lemma EndMoves(cfg: Config, c: Core, calls: multiset<nat>, g: nat, success: bool, now: real)
    requires CountsOk(cfg, c, calls) && g in calls
    ensures Moves(cfg, c, End(cfg, c, g, success, now), now)
  {
    var t := Tick(cfg, c, now);
    assert t.generation == g ==> t == c && c.state != Open;
  }

  /** Only a failure can trip, and one event changes the state at most once. */
  lemma StepChange(cfg: Config, w: World, e: Event)
    requires cfg.Valid() && CountsOk(cfg, w.core, w.calls) && Possible(w, e)
    ensures Moves(cfg, w.core, Step(cfg, w, e).core, e.now)
  {
    if e.Finish? {
      EndMoves(cfg, w.core, w.calls, e.generation, e.outcome == Succeeded, e.now);
    }
  }

  lemma ProbesAppend(log: seq<Entry>, x: Entry, g: nat)
    ensures Probes(log + [x], g) == Probes(log, g) + (if x.Admitted? && x.probe && x.generation == g then 1 else 0)
  {
    assert (log + [x])[..|log|] == log;
  }

  lemma QuietAppend(cfg: Config, log: seq<Entry>, x: Entry)
    requires Quiet(cfg, log)
    requires x.Admitted? ==> forall i :: 0 <= i < |log| && IsTrip(log[i]) ==> x.at > log[i].at + cfg.timeout
    ensures Quiet(cfg, log + [x])
  {
  }

  /** The observed change, if any, keeps the log in order. */
  lemma ObserveLog(cfg: Config, w: World, c: Core, now: real)
    requires cfg.Valid() && InOrder(cfg, w.core, w.clock, w.log) && now >= w.clock && Moves(cfg, w.core, c, now)
    ensures InOrder(cfg, c, now, w.log + Observed(w.core, c, now))
  {
    var seen := Observed(w.core, c, now);
    if seen == [] {
      assert w.log + seen == w.log;
    } else {
      var x := seen[0];
      assert seen == [x];
      QuietAppend(cfg, w.log, x);
    }
  }

  /** So does an admission by a breaker that is not open. */
  lemma AdmitLog(cfg: Config, c: Core, now: real, log: seq<Entry>, probe: bool)
    requires InOrder(cfg, c, now, log) && c.state != Open
    ensures InOrder(cfg, c, now, log + [Admitted(c.generation, now, probe)])
  {
    QuietAppend(cfg, log, Admitted(c.generation, now, probe));
  }

  lemma ObserveProbes(w: World, c: Core, now: real, g: nat)
    ensures Probes(w.log + Observed(w.core, c, now), g) == Probes(w.log, g)
  {
    var seen := Observed(w.core, c, now);
    if seen == [] {
      assert w.log + seen == w.log;
    } else {
      assert seen == [seen[0]];
      ProbesAppend(w.log, seen[0], g);
    }
  }

  ghost predicate Admitting(cfg: Config, w: World, e: Event) {
    e.Start? && Admits(cfg, Tick(cfg, w.core, e.now))
  }

  function Carried(a: Core, b: Core): nat { if b.generation == a.generation then a.counts.requests else 0 }

  lemma BeginRequests(cfg: Config, c: Core, now: real)
    ensures var b := Begin(cfg, c, now);
      b.counts.requests == Carried(c, b) + if Admits(cfg, Tick(cfg, c, now)) then 1 else 0
  {
  }

  lemma EndRequests(cfg: Config, c: Core, g: nat, success: bool, now: real)
    ensures var e := End(cfg, c, g, success, now); e.counts.requests == Carried(c, e)
  {
  }

  /** The request count of a generation rises with admissions and with nothing else. */
  lemma StepRequests(cfg: Config, w: World, e: Event)
    ensures var c := Step(cfg, w, e).core;
      c.counts.requests == Carried(w.core, c) + if Admitting(cfg, w, e) then 1 else 0
  {
    match e
    case Start(now) => BeginRequests(cfg, w.core, now);
    case Finish(g, outcome, now) => EndRequests(cfg, w.core, g, outcome == Succeeded, now);
    case Poll(now) =>
    case Reset(now) =>
  }

  lemma StepEntries(cfg: Config, w: World, e: Event)
    ensures var v := Step(cfg, w, e);
      && v.clock == e.now && (Admitting(cfg, w, e) ==> v.core.state != Open)
      && v.log == w.log + Observed(w.core, v.core, e.now)
               + if Admitting(cfg, w, e) then [Admitted(v.core.generation, e.now, v.core.state == HalfOpen)] else []
  {
  }

  /** The probes of generation `g` that the event admits. */
  ghost function Probed(cfg: Config, w: World, e: Event, g: nat): nat {
    var c := Step(cfg, w, e).core;
    if Admitting(cfg, w, e) && c.state == HalfOpen && c.generation == g then 1 else 0
  }

  lemma StepProbeCount(cfg: Config, w: World, e: Event, g: nat)
    ensures Probes(Step(cfg, w, e).log, g) == Probes(w.log, g) + Probed(cfg, w, e, g)
  {
    hide Step, Admitting, Observed, Probes;
    var v := Step(cfg, w, e);
    StepEntries(cfg, w, e);
    ObserveProbes(w, v.core, e.now, g);
    var log := w.log + Observed(w.core, v.core, e.now);
    if Admitting(cfg, w, e) {
      ProbesAppend(log, Admitted(v.core.generation, e.now, v.core.state == HalfOpen), g);
    } else {
      assert log + [] == log;
    }
  }

  /** Probe counts follow the half-open request count. */
  lemma StepProbes(cfg: Config, w: World, e: Event)
    requires cfg.Valid() && CountsOk(cfg, w.core, w.calls) && ProbesOk(cfg, w) && Possible(w, e)
    ensures ProbesOk(cfg, Step(cfg, w, e))
  {
    hide Step, Admitting, Observed, Probes, Legal;
    var v := Step(cfg, w, e);
    StepChange(cfg, w, e);
    StepCounts(cfg, w, e);
    StepRequests(cfg, w, e);
    forall g: nat ensures Probes(v.log, g) == Probes(w.log, g) + Probed(cfg, w, e, g) {
      StepProbeCount(cfg, w, e, g);
    }
  }

  lemma StepLog(cfg: Config, w: World, e: Event)
    requires cfg.Valid() && CountsOk(cfg, w.core, w.calls) && LogOk(cfg, w) && Possible(w, e)
    ensures LogOk(cfg, Step(cfg, w, e))
  {
    hide Step, Admitting, Observed, InOrder, ProbesOk, CountsOk, Moves;
    var v := Step(cfg, w, e);
    StepProbes(cfg, w, e);
    StepEntries(cfg, w, e);
    StepChange(cfg, w, e);
    ObserveLog(cfg, w, v.core, e.now);
    var log := w.log + Observed(w.core, v.core, e.now);
    if Admitting(cfg, w, e) {
      AdmitLog(cfg, v.core, e.now, log, v.core.state == HalfOpen);
    } else {
      assert log + [] == log;
    }
  }

  lemma {:induction false} TraceKeepsInv(cfg: Config, ws: seq<World>, es: seq<Event>, n: nat)
    requires cfg.Valid() && Trace(cfg, ws, es) && Inv(cfg, ws[0]) && n <= |es|
    ensures Inv(cfg, ws[n])
  {
    hide Step, CountsOk, TimesOk, LogOk;
    if n > 0 {
      TraceKeepsInv(cfg, ws, es, n - 1);
      var w, e := ws[n - 1], es[n - 1];
      StepCounts(cfg, w, e);
      StepTimes(cfg, w, e);
      StepLog(cfg, w, e);
    }
  }

  lemma ReachableInv(cfg: Config, w: World)
    requires cfg.Valid() && Reachable(cfg, w)
    ensures Inv(cfg, w)
  {
    var now: real, metricsNow: real :| now <= metricsNow && Leads(cfg, Fresh(cfg, now, metricsNow), w);
    var ws, es :| Trace(cfg, ws, es) && ws[0] == Fresh(cfg, now, metricsNow) && ws[|es|] == w;
    TraceKeepsInv(cfg, ws, es, |es|);
  }

  // ---- The breaker itself ----

  datatype Rejection = Accepted | BreakerOpen | TooManyRequests

  class CircuitBreaker {
    const cfg: Config
    var state: State
    var generation: nat
    var counts: Counts
    var expiry: Option<real>
    var metrics: Metrics

    function Fields(): Core
      reads this
    {
      Core(state, generation, counts, expiry, metrics)
    }

    constructor (st: Settings, now: real, metricsNow: real)
      ensures cfg == Defaulted(st) && Fields() == InitialCore(cfg, now, metricsNow)
    {
      cfg := Defaulted(st);
      state, generation, counts, expiry := Closed, 0, NO_COUNTS, None;
      metrics := Metrics(0, 0, 0, 0, 0.0, 0.0, 0.0, 0.0);
      new;
      ToNewGeneration(now);
      metrics := metrics.(lastChange := metricsNow);
    }

    method ToNewGeneration(now: real)
      modifies this
      ensures Fields() == NewGeneration(cfg, old(Fields()), now)
    {
      generation := generation + 1;
      counts := NO_COUNTS;
      match state {
        case Closed =>
          if cfg.interval == 0.0 {
            expiry := None;
          } else {
            expiry := Some(now + cfg.interval);
          }
        case Open => expiry := Some(now + cfg.timeout);
        case HalfOpen => expiry := None;
      }
    }

    method SetState(to: State, now: real)
      modifies this
      ensures Fields() == ChangeState(cfg, old(Fields()), to, now)
    {
      if state == to {
        return;
      }
      if metrics.lastChange > 0.0 {
        var spent := now - metrics.lastChange;
        match state {
          case Closed => metrics := metrics.(closedTime := metrics.closedTime + spent);
          case Open => metrics := metrics.(openTime := metrics.openTime + spent);
          case HalfOpen => metrics := metrics.(halfOpenTime := metrics.halfOpenTime + spent);
        }
      }
      state := to;
      ToNewGeneration(now);
      metrics := metrics.(lastChange := now);
    }

    method CurrentState(now: real) returns (s: State, g: nat)
      modifies this
      ensures Fields() == Tick(cfg, old(Fields()), now)
      ensures s == state && g == generation
    {
      match state {
        case Closed =>
          if expiry.Some? && expiry.value < now {
            ToNewGeneration(now);
          }
        case Open =>
          if expiry.Some? && expiry.value < now {
            SetState(HalfOpen, now);
          }
        case HalfOpen =>
      }
      s, g := state, generation;
    }

    method BeforeRequest(now: real) returns (g: nat, r: Rejection)
      modifies this
      ensures Fields() == Begin(cfg, old(Fields()), now)
      ensures g == generation
      ensures r == Accepted <==> Admits(cfg, Tick(cfg, old(Fields()), now))
      ensures r == BreakerOpen <==> state == Open
    {
      var s;
      s, g := CurrentState(now);
      metrics := metrics.(requests := metrics.requests + 1);
      if s == Open {
        metrics := metrics.(rejected := metrics.rejected + 1);
        return g, BreakerOpen;
      } else if s == HalfOpen && counts.requests >= cfg.maxRequests {
        metrics := metrics.(rejected := metrics.rejected + 1);
        return g, TooManyRequests;
      }
      counts := counts.(requests := counts.requests + 1);
      return g, Accepted;
    }

    method OnSuccess(now: real)
      modifies this
      ensures Fields() == Succeed(cfg, old(Fields()), now)
    {
      var was := state;
      counts := counts.(successes := counts.successes + 1,
                        consecutiveSuccesses := counts.consecutiveSuccesses + 1,
                        consecutiveFailures := 0);
      metrics := metrics.(successes := metrics.successes + 1);
      if was == HalfOpen {
        SetState(Closed, now);
      }
    }

    method OnFailure(now: real)
      modifies this
      ensures Fields() == Fail(cfg, old(Fields()), now)
    {
      counts := counts.(failures := counts.failures + 1,
                        consecutiveFailures := counts.consecutiveFailures + 1,
                        consecutiveSuccesses := 0);
      metrics := metrics.(failures := metrics.failures + 1);
      if cfg.readyToTrip(counts) {
        SetState(Open, now);
      }
    }

    method AfterRequest(before: nat, success: bool, now: real)
      modifies this
      ensures Fields() == End(cfg, old(Fields()), before, success, now)
    {
      var _, g := CurrentState(now);
      if g != before {
        return;
      }
      if success {
        OnSuccess(now);
      } else {
        OnFailure(now);
      }
    }

    /** One call with nothing in between; a panicking request counts as a failure. */
    method Execute(outcome: Outcome, started: real, finished: real) returns (r: Rejection)
      modifies this
      ensures var b := Begin(cfg, old(Fields()), started);
        Fields() == if r == Accepted then End(cfg, b, b.generation, outcome == Succeeded, finished) else b
      ensures r == Accepted <==> Admits(cfg, Tick(cfg, old(Fields()), started))
    {
      var g;
      g, r := BeforeRequest(started);
      if r != Accepted {
        return;
      }
      if outcome == Panicked {
        AfterRequest(g, false, finished);
        return;
      }
      AfterRequest(g, outcome == Succeeded, finished);
    }

    method ResetMetrics(now: real)
      modifies this
      ensures Fields() == ClearMetrics(old(Fields()), now)
    {
      metrics := Metrics(0, 0, 0, 0, now, 0.0, 0.0, 0.0);
    }
  }
}
