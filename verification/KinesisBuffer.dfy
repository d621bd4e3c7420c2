/** Per-tenant buffering and flushing (internal/resilience/kinesis_buffer.go).

    First the runs: adds, drains and batch sends of any number of concurrent flushes in any
    interleaving.  Then the objects, whose methods take the same steps in place. */
module KinesisBuffer {
  import opened Sums

  /** How an event arrived; a legacy event names its own type. */
  datatype Form = Traces | Metrics | Logs | Legacy(kind: string)

  datatype Event = Event(id: nat, form: Form)

  datatype Config = Config(maxBatchSize: nat, maxTenantBuffer: nat) {
    ghost predicate Valid() { maxBatchSize > 0 }
  }

  /** Zero means the default. */
  function Defaulted(cfg: Config): (r: Config)
    ensures r.Valid()
  {
    Config(if cfg.maxBatchSize == 0 then 500 else cfg.maxBatchSize,
           if cfg.maxTenantBuffer == 0 then 1000 else cfg.maxTenantBuffer)
  }

  function Min(a: nat, b: nat): nat { if a < b then a else b }

  // ---- One flush ----

  /** A flush owns the events it drained; `done` of them are published, in `sent` batches. */
  datatype Job = Job(events: seq<Event>, done: nat, sent: nat, failed: bool)

  function NewJob(events: seq<Event>): Job { Job(events, 0, 0, false) }

  predicate Running(j: Job) { !j.failed && j.done < |j.events| }

  function BatchEnd(cfg: Config, j: Job): nat { Min(j.done + cfg.maxBatchSize, |j.events|) }

  /** The result of sending the next batch; the first failure ends the flush. */
  function Advance(cfg: Config, j: Job, ok: bool): Job {
    if ok then j.(done := BatchEnd(cfg, j), sent := j.sent + 1) else j.(failed := true)
  }

  /** `n` events make up `k` batches of which only the last may be short. */
  ghost predicate FullBatches(cfg: Config, n: nat, k: nat) {
    if n == 0 then k == 0 else k > 0 && (k - 1) * cfg.maxBatchSize < n <= k * cfg.maxBatchSize
  }

  ghost predicate JobOk(cfg: Config, j: Job) {
    && j.done <= |j.events| && j.events != []
    && (j.failed ==> j.done < |j.events|)
    && FullBatches(cfg, j.done, j.sent)
    && (j.done < |j.events| ==> j.done == j.sent * cfg.maxBatchSize)
  }

  function Published(j: Job): seq<Event>
    requires j.done <= |j.events|
  {
    j.events[..j.done]
  }

  function DeadLettered(cfg: Config, j: Job): seq<Event>
    requires j.done <= |j.events|
  {
    if j.failed then j.events[j.done..BatchEnd(cfg, j)] else []
  }

  /** What lies behind the failed batch is neither published nor dead-lettered nor buffered. */
  function AbandonedTail(cfg: Config, j: Job): seq<Event>
    requires j.done <= |j.events|
  {
    if j.failed then j.events[BatchEnd(cfg, j)..] else []
  }

  function InFlight(j: Job): seq<Event>
    requires j.done <= |j.events|
  {
    if j.failed then [] else j.events[j.done..]
  }

  lemma JobParts(cfg: Config, j: Job)
    requires cfg.Valid() && JobOk(cfg, j)
    ensures j.events == Published(j) + DeadLettered(cfg, j) + AbandonedTail(cfg, j) + InFlight(j)
    ensures |DeadLettered(cfg, j)| <= cfg.maxBatchSize
    ensures |j.events| <= cfg.maxBatchSize ==> AbandonedTail(cfg, j) == []
  {
  }

  // ---- What one batch sends ----

  datatype Groups = Groups(traces: seq<Event>, metrics: seq<Event>, logs: seq<Event>,
                           legacyTraces: seq<Event>, legacyMetrics: seq<Event>, legacyLogs: seq<Event>)

  function Select(events: seq<Event>, form: Form): seq<Event> {
    if events == [] then []
    else
      var last := events[|events| - 1];
      Select(events[..|events| - 1], form) + if last.form == form then [last] else []
  }

  /** `picked` are the events of that form as they stand in the batch, at these places. */
  ghost predicate PickedAt(at: seq<nat>, picked: seq<Event>, events: seq<Event>, form: Form) {
    && |at| == |picked|
    && (forall k :: 0 <= k < |at| ==> at[k] < |events| && events[at[k]] == picked[k])
    && (forall j, k :: 0 <= j < k < |at| ==> at[j] < at[k])
    && (forall i :: 0 <= i < |events| ==> (events[i].form == form <==> i in at))
  }

  lemma PickedMore(at: seq<nat>, picked: seq<Event>, events: seq<Event>, form: Form, e: Event)
    requires PickedAt(at, picked, events, form)
    ensures if e.form == form then PickedAt(at + [|events|], picked + [e], events + [e], form)
      else PickedAt(at, picked, events + [e], form)
  {
    var more := if e.form == form then at + [|events|] else at;
    forall i | 0 <= i < |events + [e]| ensures (events + [e])[i].form == form <==> i in more {
      assert i < |events| ==> (i in more <==> i in at);
    }
  }

  /** A group keeps the order of the batch. */
  lemma {:induction false} SelectKeepsOrder(events: seq<Event>, form: Form) returns (at: seq<nat>)
    ensures PickedAt(at, Select(events, form), events, form)
  {
    at := [];
    if events != [] {
      hide PickedAt;
      var n := |events| - 1;
      at := SelectKeepsOrder(events[..n], form);
      PickedMore(at, Select(events[..n], form), events[..n], form, events[n]);
      assert events == events[..n] + [events[n]];
      assert Select(events[..n], form) + [] == Select(events[..n], form);
      if events[n].form == form {
        at := at + [n];
      }
    }
  }

  /** The forms a batch knows how to publish. */
  predicate Routed(form: Form) {
    form.Legacy? ==> form.kind == "traces" || form.kind == "metrics" || form.kind == "logs"
  }

  ghost predicate GroupsOf(g: Groups, events: seq<Event>) {
    && g.traces == Select(events, Traces)
    && g.metrics == Select(events, Metrics)
    && g.logs == Select(events, Logs)
    && g.legacyTraces == Select(events, Legacy("traces"))
    && g.legacyMetrics == Select(events, Legacy("metrics"))
    && g.legacyLogs == Select(events, Legacy("logs"))
  }

  /** Grouping for publication: each group is published in the order of the batch. */
  method GroupBatch(events: seq<Event>) returns (g: Groups)
    ensures GroupsOf(g, events)
  {
    g := Groups([], [], [], [], [], []);
    for i := 0 to |events|
      invariant GroupsOf(g, events[..i])
    {
      assert events[..i + 1][..i] == events[..i];
      var e := events[i];
      match e.form {
        case Traces => g := g.(traces := g.traces + [e]);
        case Metrics => g := g.(metrics := g.metrics + [e]);
        case Logs => g := g.(logs := g.logs + [e]);
        case Legacy(kind) =>
          if kind == "traces" {
            g := g.(legacyTraces := g.legacyTraces + [e]);
          } else if kind == "metrics" {
            g := g.(legacyMetrics := g.legacyMetrics + [e]);
          } else if kind == "logs" {
            g := g.(legacyLogs := g.legacyLogs + [e]);
          }
      }
    }
    assert events[..|events|] == events;
  }

  ghost function Sendable(g: Groups): multiset<Event> {
    multiset(g.traces) + multiset(g.metrics) + multiset(g.logs)
    + multiset(g.legacyTraces) + multiset(g.legacyMetrics) + multiset(g.legacyLogs)
  }

  lemma {:induction false} SelectCount(events: seq<Event>, form: Form, e: Event)
    ensures multiset(Select(events, form))[e] == if e.form == form then multiset(events)[e] else 0
  {
    if events != [] {
      var n := |events| - 1;
      SelectCount(events[..n], form, e);
      assert events == events[..n] + [events[n]];
    }
  }

  lemma SendCount(events: seq<Event>, g: Groups, e: Event)
    requires GroupsOf(g, events)
    ensures Sendable(g)[e] == if Routed(e.form) then multiset(events)[e] else 0
  {
    SelectCount(events, Traces, e);
    SelectCount(events, Metrics, e);
    SelectCount(events, Logs, e);
    SelectCount(events, Legacy("traces"), e);
    SelectCount(events, Legacy("metrics"), e);
    SelectCount(events, Legacy("logs"), e);
    assert "traces" != "metrics" && "traces" != "logs" && "metrics" != "logs" by {
      assert "traces"[0] == 't' && "metrics"[0] == 'm' && "logs"[0] == 'l';
    }
  }

  /** A batch sends each of its events once exactly when none is a legacy event of an unknown
      type; such an event is skipped, yet the batch counts as published. */
  lemma BatchSendsAllIff(events: seq<Event>, g: Groups)
    requires GroupsOf(g, events)
    ensures Sendable(g) == multiset(events) <==>
      forall i :: 0 <= i < |events| && events[i].form.Legacy? ==>
        events[i].form.kind == "traces" || events[i].form.kind == "metrics" || events[i].form.kind == "logs"
  {
    if i :| 0 <= i < |events| && !Routed(events[i].form) {
      SendCount(events, g, events[i]);
      assert multiset(events)[events[i]] > 0;
    } else {
      forall e ensures Sendable(g)[e] == multiset(events)[e] {
        SendCount(events, g, e);
        if e in multiset(events) {
          assert e in events;
        }
      }
    }
  }

  // ---- Runs ----

  datatype Tenant = Tenant(accepted: seq<Event>, buffer: seq<Event>, jobs: seq<Job>)

  const NEW_TENANT := Tenant([], [], [])

  /** The health counters, or increments of them. */
  datatype Health = Health(buffered: nat, dropped: nat, processed: nat, batchesSent: nat, batchesFailed: nat)

  const NO_HEALTH := Health(0, 0, 0, 0, 0)

  function Plus(a: Health, b: Health): Health {
    Health(a.buffered + b.buffered, a.dropped + b.dropped, a.processed + b.processed,
           a.batchesSent + b.batchesSent, a.batchesFailed + b.batchesFailed)
  }

  predicate Within(a: Health, b: Health) {
    && a.buffered <= b.buffered && a.dropped <= b.dropped && a.processed <= b.processed
    && a.batchesSent <= b.batchesSent && a.batchesFailed <= b.batchesFailed
  }

  function Minus(b: Health, a: Health): Health
    requires Within(a, b)
  {
    Health(b.buffered - a.buffered, b.dropped - a.dropped, b.processed - a.processed,
           b.batchesSent - a.batchesSent, b.batchesFailed - a.batchesFailed)
  }

  /** `refused` are the events given up, of whatever tenant; `owed` are increments that operations under
      way have still to make. */
  datatype World = World(tenants: seq<Tenant>, refused: seq<Event>, health: Health, owed: Health)

  const EMPTY := World([], [], NO_HEALTH, NO_HEALTH)

  predicate Starts(w: World) { w.tenants == [] && w.refused == [] && w.health == NO_HEALTH && w.owed == NO_HEALTH }

  datatype Step =
    | Arrive                            // a tenant is seen for the first time
    | Offer(tenant: nat, event: Event)  // addEvent: nothing happens when the buffer is full
    | Refuse(event: Event)              // throttled, or given up after the flush
    | Drain(tenant: nat)                // getEvents at the start of a flush
    | Send(tenant: nat, job: nat, ok: bool)
    | Credit(part: Health)              // some increments are made

  ghost predicate Possible(w: World, s: Step) {
    match s
    case Arrive => true
    case Offer(t, _) => t < |w.tenants|
    case Refuse(_) => true
    case Drain(t) => t < |w.tenants|
    case Send(t, j, _) => t < |w.tenants| && j < |w.tenants[t].jobs| && Running(w.tenants[t].jobs[j])
    case Credit(part) => Within(part, w.owed)
  }

  function JobHealth(j: Job): Health { Health(0, 0, j.done, j.sent, FailedOnce(j)) }

  ghost function Next(cfg: Config, w: World, s: Step): World
    requires Possible(w, s)
  {
    match s
    case Arrive => w.(tenants := w.tenants + [NEW_TENANT])
    case Offer(t, e) =>
      var x := w.tenants[t];
      if |x.buffer| >= cfg.maxTenantBuffer then w
      else w.(tenants := w.tenants[t := x.(accepted := x.accepted + [e], buffer := x.buffer + [e])],
              owed := Plus(w.owed, NO_HEALTH.(buffered := 1)))
    case Refuse(e) => w.(refused := w.refused + [e], owed := Plus(w.owed, NO_HEALTH.(dropped := 1)))
    case Drain(t) =>
      var x := w.tenants[t];
      if x.buffer == [] then w
      else w.(tenants := w.tenants[t := x.(buffer := [], jobs := x.jobs + [NewJob(x.buffer)])])
    case Send(t, j, ok) =>
      var x := w.tenants[t];
      var job := x.jobs[j];
      var next := Advance(cfg, job, ok);
      w.(tenants := w.tenants[t := x.(jobs := x.jobs[j := next])],
         owed := Plus(w.owed,
           if ok then Health(0, 0, if next.done >= job.done then next.done - job.done else 0, 1, 0)
           else NO_HEALTH.(batchesFailed := 1)))
    case Credit(part) => w.(health := Plus(w.health, part), owed := Minus(w.owed, part))
  }

  ghost predicate Trace(cfg: Config, ws: seq<World>, ss: seq<Step>) {
    && |ws| == |ss| + 1
    && forall i {:trigger ss[i]} :: 0 <= i < |ss| ==> Possible(ws[i], ss[i]) && ws[i + 1] == Next(cfg, ws[i], ss[i])
  }

  ghost predicate Reachable(cfg: Config, w: World) {
    exists ws, ss :: Trace(cfg, ws, ss) && Starts(ws[0]) && ws[|ss|] == w
  }

  // ---- Totals ----

  function Done(j: Job): nat { j.done }

  function Sent(j: Job): nat { j.sent }

  function FailedOnce(j: Job): nat { if j.failed then 1 else 0 }

  function AcceptedBy(t: Tenant): nat { |t.accepted| }

  function DoneBy(t: Tenant): nat { Sum(Done, t.jobs) }

  function SentBy(t: Tenant): nat { Sum(Sent, t.jobs) }

  function FailedBy(t: Tenant): nat { Sum(FailedOnce, t.jobs) }

  /** Accepted, refused and published events, published and failed batches, over all tenants. */
  function Total(ts: seq<Tenant>, refused: nat): Health {
    Health(Sum(AcceptedBy, ts), refused, Sum(DoneBy, ts), Sum(SentBy, ts), Sum(FailedBy, ts))
  }

  /** Replacing one tenant moves every total by that tenant's difference. */
  lemma TotalUpdate(ts: seq<Tenant>, r: nat, i: nat, t: Tenant)
    requires i < |ts|
    ensures var a, b := Total(ts, r), Total(ts[i := t], r);
      && b.buffered + AcceptedBy(ts[i]) == a.buffered + AcceptedBy(t)
      && b.processed + DoneBy(ts[i]) == a.processed + DoneBy(t)
      && b.batchesSent + SentBy(ts[i]) == a.batchesSent + SentBy(t)
      && b.batchesFailed + FailedBy(ts[i]) == a.batchesFailed + FailedBy(t)
  {
    SumUpdate(AcceptedBy, ts, i, t);
    SumUpdate(DoneBy, ts, i, t);
    SumUpdate(SentBy, ts, i, t);
    SumUpdate(FailedBy, ts, i, t);
  }

  // ---- The invariant of all runs ----

  function Drained(jobs: seq<Job>): seq<Event> {
    if jobs == [] then [] else jobs[0].events + Drained(jobs[1..])
  }

  lemma {:induction false} DrainedAppend(jobs: seq<Job>, j: Job)
    ensures Drained(jobs + [j]) == Drained(jobs) + j.events
  {
    if jobs == [] {
      assert [j][1..] == [];
    } else {
      assert (jobs + [j])[1..] == jobs[1..] + [j];
      DrainedAppend(jobs[1..], j);
    }
  }

  lemma {:induction false} DrainedUpdate(jobs: seq<Job>, i: nat, j: Job)
    requires i < |jobs| && j.events == jobs[i].events
    ensures Drained(jobs[i := j]) == Drained(jobs)
  {
    if i == 0 {
      assert jobs[0 := j][1..] == jobs[1..];
    } else {
      assert jobs[i := j][1..] == jobs[1..][i - 1 := j];
      DrainedUpdate(jobs[1..], i - 1, j);
    }
  }

  ghost predicate SmallJob(cfg: Config, j: Job) {
    JobOk(cfg, j) && |j.events| <= cfg.maxTenantBuffer
  }

  ghost predicate TenantOk(cfg: Config, t: Tenant) {
    && t.accepted == Drained(t.jobs) + t.buffer
    && |t.buffer| <= cfg.maxTenantBuffer
    && forall i :: 0 <= i < |t.jobs| ==> SmallJob(cfg, t.jobs[i])
  }

  ghost predicate TenantsOk(cfg: Config, ts: seq<Tenant>) {
    forall i :: 0 <= i < |ts| ==> TenantOk(cfg, ts[i])
  }

  /** Counters and increments still owed add up to the totals. */
  ghost predicate CountersOk(w: World) { Plus(w.health, w.owed) == Total(w.tenants, |w.refused|) }

  ghost predicate Inv(cfg: Config, w: World) {
    TenantsOk(cfg, w.tenants) && CountersOk(w)
  }

  lemma BatchCounts(cfg: Config, j: Job)
    requires cfg.Valid() && JobOk(cfg, j) && Running(j)
    ensures var k := Advance(cfg, j, true); JobOk(cfg, k) && j.done < k.done
  {
    assert (j.sent + 1) * cfg.maxBatchSize == j.sent * cfg.maxBatchSize + cfg.maxBatchSize;
  }

  lemma SendTenantOk(cfg: Config, x: Tenant, j: nat, ok: bool)
    requires cfg.Valid() && TenantOk(cfg, x) && j < |x.jobs| && Running(x.jobs[j])
    ensures TenantOk(cfg, x.(jobs := x.jobs[j := Advance(cfg, x.jobs[j], ok)]))
    ensures ok ==> x.jobs[j].done < Advance(cfg, x.jobs[j], ok).done
  {
    assert SmallJob(cfg, x.jobs[j]);
    BatchCounts(cfg, x.jobs[j]);
    DrainedUpdate(x.jobs, j, Advance(cfg, x.jobs[j], ok));
  }

  lemma DrainTenantOk(cfg: Config, x: Tenant)
    requires TenantOk(cfg, x) && x.buffer != []
    ensures TenantOk(cfg, x.(buffer := [], jobs := x.jobs + [NewJob(x.buffer)]))
  {
    DrainedAppend(x.jobs, NewJob(x.buffer));
  }

  lemma NextTenantsOk(cfg: Config, w: World, s: Step)
    requires cfg.Valid() && TenantsOk(cfg, w.tenants) && Possible(w, s)
    ensures TenantsOk(cfg, Next(cfg, w, s).tenants)
  {
    match s
    case Arrive =>
    case Refuse(e) =>
    case Credit(part) =>
    case Offer(t, e) => assert TenantOk(cfg, w.tenants[t]);
    case Drain(t) =>
      if w.tenants[t].buffer != [] {
        DrainTenantOk(cfg, w.tenants[t]);
      }
    case Send(t, j, ok) => SendTenantOk(cfg, w.tenants[t], j, ok);
  }

  lemma ArriveTotals(ts: seq<Tenant>, r: nat)
    ensures Total(ts + [NEW_TENANT], r) == Total(ts, r)
  {
    SumSnoc(AcceptedBy, ts, NEW_TENANT);
    SumSnoc(DoneBy, ts, NEW_TENANT);
    SumSnoc(SentBy, ts, NEW_TENANT);
    SumSnoc(FailedBy, ts, NEW_TENANT);
  }

  lemma OfferTotals(ts: seq<Tenant>, r: nat, t: nat, e: Event)
    requires t < |ts|
    ensures var x := ts[t];
      Total(ts[t := x.(accepted := x.accepted + [e], buffer := x.buffer + [e])], r)
      == Plus(Total(ts, r), NO_HEALTH.(buffered := 1))
  {
    var x := ts[t];
    TotalUpdate(ts, r, t, x.(accepted := x.accepted + [e], buffer := x.buffer + [e]));
  }

  lemma DrainTotals(ts: seq<Tenant>, r: nat, t: nat)
    requires t < |ts|
    ensures Total(ts[t := ts[t].(buffer := [], jobs := ts[t].jobs + [NewJob(ts[t].buffer)])], r) == Total(ts, r)
  {
    var x := ts[t];
    var job := NewJob(x.buffer);
    SumSnoc(Done, x.jobs, job);
    SumSnoc(Sent, x.jobs, job);
    SumSnoc(FailedOnce, x.jobs, job);
    TotalUpdate(ts, r, t, x.(buffer := [], jobs := x.jobs + [job]));
  }

  lemma SendTotals(ts: seq<Tenant>, r: nat, t: nat, j: nat, next: Job)
    requires t < |ts| && j < |ts[t].jobs|
    ensures Plus(Total(ts[t := ts[t].(jobs := ts[t].jobs[j := next])], r), JobHealth(ts[t].jobs[j]))
      == Plus(Total(ts, r), JobHealth(next))
  {
    var x := ts[t];
    SumUpdate(Done, x.jobs, j, next);
    SumUpdate(Sent, x.jobs, j, next);
    SumUpdate(FailedOnce, x.jobs, j, next);
    TotalUpdate(ts, r, t, x.(jobs := x.jobs[j := next]));
  }

  lemma NextTotals(cfg: Config, w: World, s: Step)
    requires CountersOk(w) && Possible(w, s)
    requires s.Send? && s.ok ==>
      var job := w.tenants[s.tenant].jobs[s.job]; job.done < Advance(cfg, job, true).done
    ensures CountersOk(Next(cfg, w, s))
  {
    var r := |w.refused|;
    match s
    case Arrive => ArriveTotals(w.tenants, r);
    case Offer(t, e) => OfferTotals(w.tenants, r, t, e);
    case Refuse(e) =>
    case Drain(t) => DrainTotals(w.tenants, r, t);
    case Send(t, j, ok) => SendTotals(w.tenants, r, t, j, Advance(cfg, w.tenants[t].jobs[j], ok));
    case Credit(part) =>
  }

  lemma NextOk(cfg: Config, w: World, s: Step)
    requires cfg.Valid() && Inv(cfg, w) && Possible(w, s)
    ensures Inv(cfg, Next(cfg, w, s))
  {
    NextTenantsOk(cfg, w, s);
    if s.Send? {
      SendTenantOk(cfg, w.tenants[s.tenant], s.job, s.ok);
    }
    NextTotals(cfg, w, s);
  }

  lemma {:induction false} TraceOk(cfg: Config, ws: seq<World>, ss: seq<Step>, n: nat)
    requires cfg.Valid() && Trace(cfg, ws, ss) && Starts(ws[0]) && n <= |ss|
    ensures Inv(cfg, ws[n])
  {
    if n == 0 {
      EmptyOk(cfg, ws[0]);
    } else {
      TraceOk(cfg, ws, ss, n - 1);
      NextOk(cfg, ws[n - 1], ss[n - 1]);
    }
  }

  lemma EmptySum<T>(f: T -> nat, xs: seq<T>)
    requires xs == []
    ensures Sum(f, xs) == 0
  {
  }

  lemma EmptyOk(cfg: Config, w: World)
    requires Starts(w)
    ensures Inv(cfg, w)
  {
    EmptySum(AcceptedBy, w.tenants);
    EmptySum(DoneBy, w.tenants);
    EmptySum(SentBy, w.tenants);
    EmptySum(FailedBy, w.tenants);
  }

  lemma ReachableOk(cfg: Config, w: World)
    requires cfg.Valid() && Reachable(cfg, w)
    ensures Inv(cfg, w)
  {
    var ws, ss :| Trace(cfg, ws, ss) && Starts(ws[0]) && ws[|ss|] == w;
    TraceOk(cfg, ws, ss, |ss|);
  }

  // ---- What every run guarantees ----

  /** Where an accepted event can be. */
  datatype Place = ToStream | Skipped | ToDLQ | Lost | InTransit | Waiting

  function Labelled(events: seq<Event>, place: Event -> Place): seq<(Event, Place)> {
    seq(|events|, i requires 0 <= i < |events| => (events[i], place(events[i])))
  }

  /** A published batch sends what it can route and skips the rest. */
  function WhenPublished(e: Event): Place { if Routed(e.form) then ToStream else Skipped }

  function JobLedger(cfg: Config, j: Job): seq<(Event, Place)>
    requires j.done <= |j.events|
  {
    Labelled(Published(j), WhenPublished) + Labelled(DeadLettered(cfg, j), e => ToDLQ)
    + Labelled(AbandonedTail(cfg, j), e => Lost) + Labelled(InFlight(j), e => InTransit)
  }

  predicate JobsInBounds(jobs: seq<Job>) { forall i :: 0 <= i < |jobs| ==> jobs[i].done <= |jobs[i].events| }

  function JobsLedger(cfg: Config, jobs: seq<Job>): seq<(Event, Place)>
    requires JobsInBounds(jobs)
  {
    if jobs == [] then [] else JobLedger(cfg, jobs[0]) + JobsLedger(cfg, jobs[1..])
  }

  /** A tenant's events with their places: what its flushes took, then what is buffered. */
  function Ledger(cfg: Config, t: Tenant): seq<(Event, Place)>
    requires JobsInBounds(t.jobs)
  {
    JobsLedger(cfg, t.jobs) + Labelled(t.buffer, e => Waiting)
  }

  function Unlabelled(ledger: seq<(Event, Place)>): seq<Event> {
    seq(|ledger|, i requires 0 <= i < |ledger| => ledger[i].0)
  }

  lemma UnlabelledAppend(a: seq<(Event, Place)>, b: seq<(Event, Place)>)
    ensures Unlabelled(a + b) == Unlabelled(a) + Unlabelled(b)
  {
  }

  lemma UnlabelledLabelled(events: seq<Event>, place: Event -> Place)
    ensures Unlabelled(Labelled(events, place)) == events
  {
  }

  lemma JobLedgerEvents(cfg: Config, j: Job)
    requires cfg.Valid() && JobOk(cfg, j)
    ensures Unlabelled(JobLedger(cfg, j)) == j.events
  {
    JobParts(cfg, j);
    var a, b := Labelled(Published(j), WhenPublished), Labelled(DeadLettered(cfg, j), e => ToDLQ);
    var c, d := Labelled(AbandonedTail(cfg, j), e => Lost), Labelled(InFlight(j), e => InTransit);
    UnlabelledAppend(a + b + c, d);
    UnlabelledAppend(a + b, c);
    UnlabelledAppend(a, b);
    UnlabelledLabelled(Published(j), WhenPublished);
    UnlabelledLabelled(DeadLettered(cfg, j), e => ToDLQ);
    UnlabelledLabelled(AbandonedTail(cfg, j), e => Lost);
    UnlabelledLabelled(InFlight(j), e => InTransit);
  }

  lemma {:induction false} JobsLedgerEvents(cfg: Config, jobs: seq<Job>)
    requires cfg.Valid() && forall i :: 0 <= i < |jobs| ==> JobOk(cfg, jobs[i])
    ensures JobsInBounds(jobs) && Unlabelled(JobsLedger(cfg, jobs)) == Drained(jobs)
  {
    if jobs != [] {
      JobLedgerEvents(cfg, jobs[0]);
      JobsLedgerEvents(cfg, jobs[1..]);
      UnlabelledAppend(JobLedger(cfg, jobs[0]), JobsLedger(cfg, jobs[1..]));
    }
  }

  /** Each accepted event is, once and in order, sent in a published batch or skipped by it, in the
      dead-lettered batch of a failed flush, in the tail behind that batch, in flight, or still buffered. */
  lemma EveryEventAccountedFor(cfg: Config, w: World, t: nat)
    requires cfg.Valid() && Reachable(cfg, w) && t < |w.tenants|
    ensures JobsInBounds(w.tenants[t].jobs)
    ensures Unlabelled(Ledger(cfg, w.tenants[t])) == w.tenants[t].accepted
    ensures forall i :: 0 <= i < |w.tenants[t].jobs| && |w.tenants[t].jobs[i].events| <= cfg.maxBatchSize ==>
      AbandonedTail(cfg, w.tenants[t].jobs[i]) == []
  {
    ReachableOk(cfg, w);
    var x := w.tenants[t];
    assert TenantOk(cfg, x);
    assert forall i :: 0 <= i < |x.jobs| ==> SmallJob(cfg, x.jobs[i]);
    JobsLedgerEvents(cfg, x.jobs);
    UnlabelledAppend(JobsLedger(cfg, x.jobs), Labelled(x.buffer, e => Waiting));
    UnlabelledLabelled(x.buffer, e => Waiting);
    forall i | 0 <= i < |x.jobs| && |x.jobs[i].events| <= cfg.maxBatchSize ensures AbandonedTail(cfg, x.jobs[i]) == [] {
      JobParts(cfg, x.jobs[i]);
    }
  }

  lemma {:induction false} LabelCount(events: seq<Event>, place: Event -> Place, e: Event, p: Place)
    ensures multiset(Labelled(events, place))[(e, p)] == if place(e) == p then multiset(events)[e] else 0
  {
    if events != [] {
      var n := |events| - 1;
      LabelCount(events[..n], place, e, p);
      assert events == events[..n] + [events[n]];
      assert Labelled(events, place) == Labelled(events[..n], place) + [(events[n], place(events[n]))];
    }
  }

  /** The label is the truth: a batch hands an event to the stream as often as it labels it so. */
  lemma LabelsAreSends(events: seq<Event>, g: Groups, e: Event)
    requires GroupsOf(g, events)
    ensures Sendable(g)[e] == multiset(Labelled(events, WhenPublished))[(e, ToStream)]
  {
    SendCount(events, g, e);
    LabelCount(events, WhenPublished, e, ToStream);
  }

  /** The health counters and the increments still owed equal the totals over all tenants and flushes;
      without operations under way the counters are the totals. */
  lemma CountersAreTotals(cfg: Config, w: World)
    requires cfg.Valid() && Reachable(cfg, w)
    ensures Plus(w.health, w.owed) == Total(w.tenants, |w.refused|)
    ensures w.owed == NO_HEALTH ==> w.health == Total(w.tenants, |w.refused|)
  {
    ReachableOk(cfg, w);
  }

  ghost predicate LosesEvents(cfg: Config, w: World) {
    exists t: nat, j: nat :: t < |w.tenants| && j < |w.tenants[t].jobs|
      && w.tenants[t].jobs[j].done <= |w.tenants[t].jobs[j].events|
      && AbandonedTail(cfg, w.tenants[t].jobs[j]) != []
  }

  lemma Then(cfg: Config, w: World, s: Step) returns (v: World)
    requires Reachable(cfg, w) && Possible(w, s)
    ensures Reachable(cfg, v) && v == Next(cfg, w, s)
  {
    hide Next, Possible, Starts;
    v := Next(cfg, w, s);
    var ws, ss :| Trace(cfg, ws, ss) && Starts(ws[0]) && ws[|ss|] == w;
    assert Trace(cfg, ws + [v], ss + [s]) && (ws + [v])[|ss + [s]|] == v;
  }

  lemma {:induction false} Fill(cfg: Config, n: nat) returns (w: World)
    requires n <= cfg.maxTenantBuffer
    ensures Reachable(cfg, w) && |w.tenants| == 1 && |w.tenants[0].buffer| == n && w.tenants[0].jobs == []
  {
    if n == 0 {
      w := EMPTY;
      assert Trace(cfg, [w], []);
      w := Then(cfg, w, Arrive);
    } else {
      w := Fill(cfg, n - 1);
      w := Then(cfg, w, Offer(0, Event(n, Logs)));
    }
  }

  /** A failed flush can silently abandon events exactly when a tenant may buffer more than one batch. */
  lemma TailPossibleIff(cfg: Config)
    requires cfg.Valid()
    ensures (exists w :: Reachable(cfg, w) && LosesEvents(cfg, w)) <==> cfg.maxTenantBuffer > cfg.maxBatchSize
  {
    if cfg.maxTenantBuffer > cfg.maxBatchSize {
      var w := Fill(cfg, cfg.maxBatchSize + 1);
      w := Then(cfg, w, Drain(0));
      var job := w.tenants[0].jobs[0];
      assert |job.events| == cfg.maxBatchSize + 1;
      w := Then(cfg, w, Send(0, 0, false));
      assert w.tenants[0].jobs[0] == job.(failed := true);
      assert LosesEvents(cfg, w);
    } else {
      forall w | Reachable(cfg, w) ensures !LosesEvents(cfg, w) {
        ReachableOk(cfg, w);
        forall t: nat, j: nat | t < |w.tenants| && j < |w.tenants[t].jobs|
          ensures var job := w.tenants[t].jobs[j]; job.done <= |job.events| && AbandonedTail(cfg, job) == []
        {
          assert TenantOk(cfg, w.tenants[t]);
          JobParts(cfg, w.tenants[t].jobs[j]);
        }
      }
    }
  }

  /** The default sizes do allow it. */
  lemma DefaultsLoseEvents()
    ensures Defaulted(Config(0, 0)) == Config(500, 1000)
    ensures exists w :: Reachable(Defaulted(Config(0, 0)), w) && LosesEvents(Defaulted(Config(0, 0)), w)
  {
    TailPossibleIff(Defaulted(Config(0, 0)));
  }

  // ---- One flush, start to end ----

  /** All batches of a flush in order; `sends(k)` is the result of the k-th send. */
  function Settle(cfg: Config, j: Job, sends: nat -> bool, k: nat): (r: Job)
    requires cfg.maxBatchSize > 0 && j.done <= |j.events|
    ensures r.events == j.events && r.done <= |r.events| && !Running(r)
    decreases !j.failed, |j.events| - j.done
  {
    if Running(j) then Settle(cfg, Advance(cfg, j, sends(k)), sends, k + 1) else j
  }

  /** The next batch of a flush that has not failed. */
  lemma SettleNext(cfg: Config, events: seq<Event>, done: nat, sent: nat, sends: nat -> bool)
    requires cfg.maxBatchSize > 0 && done <= |events|
    ensures var j := Job(events, done, sent, false);
      Settle(cfg, j, sends, sent) ==
        if done == |events| then j
        else if sends(sent) then Settle(cfg, Job(events, BatchEnd(cfg, j), sent + 1, false), sends, sent + 1)
        else j.(failed := true)
  {
  }

  /** A flush that nobody interleaves with is one of the runs. */
  lemma {:induction false} FlushIsARun(cfg: Config, w: World, t: nat, j: nat, sends: nat -> bool, k: nat)
    returns (v: World)
    requires cfg.Valid() && Reachable(cfg, w) && t < |w.tenants| && j < |w.tenants[t].jobs|
    requires w.tenants[t].jobs[j].done <= |w.tenants[t].jobs[j].events|
    ensures Reachable(cfg, v) && v.refused == w.refused && v.health == w.health
    ensures var job := w.tenants[t].jobs[j];
      var r := Settle(cfg, job, sends, k);
      && v.tenants == w.tenants[t := w.tenants[t].(jobs := w.tenants[t].jobs[j := r])]
      && Plus(v.owed, JobHealth(job)) == Plus(w.owed, JobHealth(r))
    decreases !w.tenants[t].jobs[j].failed, |w.tenants[t].jobs[j].events| - w.tenants[t].jobs[j].done
  {
    var job := w.tenants[t].jobs[j];
    if Running(job) {
      var next := Then(cfg, w, Send(t, j, sends(k)));
      assert next.tenants[t].jobs[j] == Advance(cfg, job, sends(k));
      v := FlushIsARun(cfg, next, t, j, sends, k + 1);
      var r := Settle(cfg, job, sends, k);
      assert next.tenants[t].jobs[j := r] == w.tenants[t].jobs[j := r];
      assert next.tenants[t].(jobs := next.tenants[t].jobs[j := r]) == w.tenants[t].(jobs := w.tenants[t].jobs[j := r]);
    } else {
      v := w;
      assert w.tenants[t].jobs[j := job] == w.tenants[t].jobs;
    }
  }

  // ---- The objects ----

  function Tagged(tenant: string, events: seq<Event>): seq<(string, Event)> {
    seq(|events|, i requires 0 <= i < |events| => (tenant, events[i]))
  }

  /** The letters `b` are `a` and then these events of this tenant, in order. */
  predicate Appended(a: seq<(string, Event)>, b: seq<(string, Event)>, tenant: string, events: seq<Event>) {
    && |b| == |a| + |events| && b[..|a|] == a
    && forall i :: 0 <= i < |events| ==> b[|a| + i] == (tenant, events[i])
  }

  lemma TaggedNothing(tenant: string)
    ensures Tagged(tenant, []) == []
  {
  }

  class TenantBuffer {
    const maxSize: nat
    var events: seq<Event>
    var totalEvents: nat
    var droppedEvents: nat

    constructor (maxSize: nat)
      ensures this.maxSize == maxSize && events == [] && totalEvents == 0 && droppedEvents == 0
    {
      this.maxSize := maxSize;
      events, totalEvents, droppedEvents := [], 0, 0;
    }

    method AddEvent(e: Event) returns (ok: bool)
      modifies this
      ensures ok <==> |old(events)| < maxSize
      ensures events == if ok then old(events) + [e] else old(events)
      ensures totalEvents == old(totalEvents) + if ok then 1 else 0
      ensures droppedEvents == old(droppedEvents) + if ok then 0 else 1
    {
      if |events| >= maxSize {
        droppedEvents := droppedEvents + 1;
        return false;
      }
      events := events + [e];
      totalEvents := totalEvents + 1;
      return true;
    }

    method GetEvents() returns (drained: seq<Event>)
      modifies this`events
      ensures drained == old(events) && events == []
    {
      if |events| == 0 {
        return [];
      }
      drained := events;
      events := [];
    }
  }

  datatype Reply = Accepted | BufferClosed | Throttled | FlushFailed | BufferFull

  /** What becomes of an event offered to a buffer holding `was`, whose flush would end as `job`. */
  function Verdict(cfg: Config, was: seq<Event>, job: Job): Reply {
    if |was| < cfg.maxTenantBuffer then Accepted
    else if job.failed then FlushFailed
    else if cfg.maxTenantBuffer == 0 then BufferFull
    else Accepted
  }

  function After(cfg: Config, was: seq<Event>, reply: Reply, e: Event): seq<Event> {
    (if |was| < cfg.maxTenantBuffer then was else []) + (if reply == Accepted then [e] else [])
  }

  /** The counters after that offer; only a full buffer is flushed. */
  function Charge(h: Health, cfg: Config, was: seq<Event>, job: Job, reply: Reply): Health {
    var flushed := if |was| < cfg.maxTenantBuffer then NO_HEALTH else JobHealth(job);
    Plus(Plus(h, flushed), if reply == Accepted then NO_HEALTH.(buffered := 1) else NO_HEALTH.(dropped := 1))
  }

  /** What a caller can see: the buffered events, the counters and the dead letters. */
  datatype View = View(buffers: map<string, seq<Event>>, health: Health, deadLetters: seq<(string, Event)>)

  /** One BufferEvent call of an open buffer; `allowed` is the rate limiter's answer. */
  datatype Request = Request(tenant: string, event: Event, allowed: bool, sends: nat -> bool)

  function Before(v: View, tenant: string): seq<Event> { if tenant in v.buffers then v.buffers[tenant] else [] }

  function ReplyTo(cfg: Config, v: View, r: Request): Reply
    requires cfg.maxBatchSize > 0
  {
    if !r.allowed then Throttled
    else
      var was := Before(v, r.tenant);
      Verdict(cfg, was, Settle(cfg, NewJob(was), r.sends, 0))
  }

  function Served(cfg: Config, v: View, r: Request): View
    requires cfg.maxBatchSize > 0
  {
    if !r.allowed then v.(health := Plus(v.health, NO_HEALTH.(dropped := 1)))
    else
      var was := Before(v, r.tenant);
      var job := Settle(cfg, NewJob(was), r.sends, 0);
      var reply := Verdict(cfg, was, job);
      View(v.buffers[r.tenant := After(cfg, was, reply, r.event)],
           Charge(v.health, cfg, was, job, reply),
           v.deadLetters + if reply == FlushFailed
             then Tagged(r.tenant, DeadLettered(cfg, job)) + Tagged(r.tenant, [r.event]) else [])
  }

  class Buffer {
    const cfg: Config
    var tenantBuffers: map<string, TenantBuffer>
    var closed: bool
    var health: Health
    var deadLetters: seq<(string, Event)>  // what was handed to the dead letter queue, in order

    ghost predicate Valid()
      reads this
    {
      && cfg.Valid()
      && (forall t :: t in tenantBuffers ==> tenantBuffers[t].maxSize == cfg.maxTenantBuffer)
      && forall t, u :: t in tenantBuffers && u in tenantBuffers && t != u ==> tenantBuffers[t] != tenantBuffers[u]
    }

    constructor (config: Config)
      ensures Valid() && cfg == Defaulted(config) && tenantBuffers == map[]
      ensures cfg.maxBatchSize == if config.maxBatchSize == 0 then 500 else config.maxBatchSize
      ensures cfg.maxTenantBuffer == if config.maxTenantBuffer == 0 then 1000 else config.maxTenantBuffer
      ensures !closed && health == NO_HEALTH && deadLetters == []
    {
      cfg := Defaulted(config);
      tenantBuffers, closed, health, deadLetters := map[], false, NO_HEALTH, [];
    }

    method GetTenantBuffer(tenant: string) returns (buffer: TenantBuffer)
      requires Valid()
      modifies this`tenantBuffers
      ensures Valid() && tenant in tenantBuffers && tenantBuffers[tenant] == buffer
      ensures if tenant in old(tenantBuffers) then tenantBuffers == old(tenantBuffers)
        else fresh(buffer) && buffer.events == [] && tenantBuffers == old(tenantBuffers)[tenant := buffer]
    {
      if tenant in tenantBuffers {
        return tenantBuffers[tenant];
      }
      buffer := new TenantBuffer(cfg.maxTenantBuffer);
      tenantBuffers := tenantBuffers[tenant := buffer];
    }

    /** Drain the buffer, then send batch after batch until one fails. */
    method FlushTenantBuffer(tenant: string, buffer: TenantBuffer, sends: nat -> bool) returns (ok: bool)
      requires cfg.Valid()
      modifies buffer`events, this`health, this`deadLetters
      ensures buffer.events == []
      ensures var job := Settle(cfg, NewJob(old(buffer.events)), sends, 0);
        && (ok <==> !job.failed)
        && deadLetters == old(deadLetters) + Tagged(tenant, DeadLettered(cfg, job))
        && Appended(old(deadLetters), deadLetters, tenant, DeadLettered(cfg, job))
        && health == Plus(old(health), JobHealth(job))
    {
      hide Settle, Tagged;
      var events := buffer.GetEvents();
      var i := 0;
      var batches := 0;
      ghost var total := Settle(cfg, NewJob(events), sends, 0);
      while i < |events|
        invariant 0 <= i <= |events| && buffer.events == []
        invariant total == Settle(cfg, Job(events, i, batches, false), sends, batches)
        invariant deadLetters == old(deadLetters)
        invariant health == Plus(old(health), Health(0, 0, i, batches, 0))
      {
        SettleNext(cfg, events, i, batches, sends);
        var end := i + cfg.maxBatchSize;
        if end > |events| {
          end := |events|;
        }
        var batch := events[i..end];
        if !sends(batches) {
          SendToDLQ(tenant, batch);
          health := health.(batchesFailed := health.batchesFailed + 1);
          return false;
        }
        health := health.(batchesSent := health.batchesSent + 1, processed := health.processed + |batch|);
        i, batches := end, batches + 1;
      }
      SettleNext(cfg, events, i, batches, sends);
      TaggedNothing(tenant);
      return true;
    }

    method SendToDLQ(tenant: string, batch: seq<Event>)
      modifies this`deadLetters
      ensures deadLetters == old(deadLetters) + Tagged(tenant, batch)
      ensures Appended(old(deadLetters), deadLetters, tenant, batch)
    {
      for k := 0 to |batch|
        invariant deadLetters == old(deadLetters) + Tagged(tenant, batch[..k])
      {
        assert Tagged(tenant, batch[..k + 1]) == Tagged(tenant, batch[..k]) + [(tenant, batch[k])];
        deadLetters := deadLetters + [(tenant, batch[k])];
      }
      assert batch[..|batch|] == batch;
    }

    /** Add an event to its tenant's buffer; a full buffer is flushed first, once. */
    method AddWithFlush(tenant: string, buffer: TenantBuffer, e: Event, sends: nat -> bool) returns (reply: Reply)
      requires cfg.Valid() && buffer.maxSize == cfg.maxTenantBuffer
      modifies buffer, this`health, this`deadLetters
      ensures var was := old(buffer.events);
        var job := Settle(cfg, NewJob(was), sends, 0);
        && reply == Verdict(cfg, was, job)
        && buffer.events == After(cfg, was, reply, e)
        && deadLetters == old(deadLetters) +
             (if reply == FlushFailed then Tagged(tenant, DeadLettered(cfg, job)) + Tagged(tenant, [e]) else [])
        && health == Charge(old(health), cfg, was, job, reply)
    {
      var added := buffer.AddEvent(e);
      if !added {
        var flushed := FlushTenantBuffer(tenant, buffer, sends);
        if !flushed {
          SendToDLQ(tenant, [e]);
          health := health.(dropped := health.dropped + 1);
          return FlushFailed;
        }
        added := buffer.AddEvent(e);
        if !added {
          health := health.(dropped := health.dropped + 1);
          return BufferFull;
        }
      }
      health := health.(buffered := health.buffered + 1);
      return Accepted;
    }

    /** What tenant `t` has buffered; nothing when it is not known yet. */
    ghost function BufferOf(t: string): seq<Event>
      reads this, tenantBuffers.Values
    {
      if t in tenantBuffers then tenantBuffers[t].events else []
    }

    /** Find or make the tenant's buffer and add to it; no other buffer changes. */
    method AddForTenant(tenant: string, e: Event, sends: nat -> bool) returns (reply: Reply)
      requires Valid()
      modifies this, tenantBuffers.Values
      ensures Valid() && closed == old(closed) && tenantBuffers.Keys == old(tenantBuffers.Keys) + {tenant}
      ensures forall t :: t != tenant ==> BufferOf(t) == old(BufferOf(t))
      ensures var was := old(BufferOf(tenant));
        var job := Settle(cfg, NewJob(was), sends, 0);
        && reply == Verdict(cfg, was, job)
        && BufferOf(tenant) == After(cfg, was, reply, e)
        && deadLetters == old(deadLetters) +
             (if reply == FlushFailed then Tagged(tenant, DeadLettered(cfg, job)) + Tagged(tenant, [e]) else [])
        && health == Charge(old(health), cfg, was, job, reply)
    {
      var buffer := GetTenantBuffer(tenant);
      assert buffer.events == old(BufferOf(tenant));
      reply := AddWithFlush(tenant, buffer, e, sends);
    }

    /** The view of this object. */
    ghost predicate Shows(v: View)
      reads this, tenantBuffers.Values
    {
      && tenantBuffers.Keys == v.buffers.Keys
      && (forall t :: t in v.buffers ==> BufferOf(t) == v.buffers[t])
      && health == v.health && deadLetters == v.deadLetters
    }

    /** The entry point.  `v` is what the object shows before. */
    method BufferEvent(r: Request, ghost v: View) returns (reply: Reply, flushRequested: bool)
      requires Valid() && Shows(v)
      modifies this, tenantBuffers.Values
      ensures Valid() && closed == old(closed)
      ensures closed ==> reply == BufferClosed && Shows(v) && !flushRequested
      ensures !closed ==> reply == ReplyTo(cfg, v, r) && Shows(Served(cfg, v, r))
      ensures !closed ==> (flushRequested <==> reply == Accepted && |BufferOf(r.tenant)| >= cfg.maxBatchSize)
    {
      hide Settle, Verdict, After, Charge, Tagged, DeadLettered;
      flushRequested := false;
      if closed {
        return BufferClosed, false;
      }
      if !r.allowed {
        health := health.(dropped := health.dropped + 1);
        return Throttled, false;
      }
      assert BufferOf(r.tenant) == Before(v, r.tenant);
      reply := AddForTenant(r.tenant, r.event, r.sends);
      ghost var u := Served(cfg, v, r);
      assert u.buffers.Keys == v.buffers.Keys + {r.tenant};
      assert forall t :: t in u.buffers ==> BufferOf(t) == u.buffers[t];
      if reply == Accepted {
        flushRequested := |tenantBuffers[r.tenant].events| >= cfg.maxBatchSize;
      }
    }
  }
}
