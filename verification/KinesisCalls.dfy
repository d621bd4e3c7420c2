/** Sequences of BufferEvent calls are runs (internal/resilience/kinesis_buffer.go): what the object
    does call after call is one of the interleavings that the theorems of KinesisBuffer are about. */
module KinesisCalls {
  import opened KinesisBuffer

  function ServedAll(cfg: Config, v: View, rs: seq<Request>): View
    requires cfg.maxBatchSize > 0
  {
    if rs == [] then v else Served(cfg, ServedAll(cfg, v, rs[..|rs| - 1]), rs[|rs| - 1])
  }

  /** `names[i]` is the tenant at place `i` of the world. */
  ghost predicate Mirrors(w: World, names: seq<string>, v: View) {
    && |names| == |w.tenants|
    && (forall i, j :: 0 <= i < j < |names| ==> names[i] != names[j])
    && (forall t :: t in names <==> t in v.buffers)
    && (forall i :: 0 <= i < |names| ==> names[i] in v.buffers && v.buffers[names[i]] == w.tenants[i].buffer)
    && w.health == v.health && w.owed == NO_HEALTH
  }

  // ---- Dead letters ----

  /** The dead letters of one tenant, in order. */
  function LettersOf(letters: seq<(string, Event)>, tenant: string): seq<Event> {
    if letters == [] then []
    else
      var n := |letters| - 1;
      LettersOf(letters[..n], tenant) + if letters[n].0 == tenant then [letters[n].1] else []
  }

  lemma {:induction false} LettersAppended(
    a: seq<(string, Event)>, b: seq<(string, Event)>, tenant: string, events: seq<Event>, other: string)
    requires Appended(a, b, tenant, events)
    ensures LettersOf(b, other) == LettersOf(a, other) + if other == tenant then events else []
    decreases |events|
  {
    if events == [] {
      assert b == a;
    } else {
      var n, k := |b| - 1, |events| - 1;
      assert b[n] == b[|a| + k] == (tenant, events[k]);
      assert b[..n][..|a|] == b[..|a|];
      LettersAppended(a, b[..n], tenant, events[..k], other);
      assert events == events[..k] + [events[k]];
    }
  }

  /** What failed flushes hand over: the batch that was not sent, and `given[j]`, for whose sake
      flush `j` was made. */
  function Handed(cfg: Config, jobs: seq<Job>, given: seq<Event>): seq<Event>
    requires JobsInBounds(jobs) && |given| == |jobs|
  {
    if jobs == [] then []
    else
      var n := |jobs| - 1;
      Handed(cfg, jobs[..n], given[..n]) + if jobs[n].failed then DeadLettered(cfg, jobs[n]) + [given[n]] else []
  }

  /** These are the letters of a tenant with these flushes, the events given up being refused ones. */
  ghost predicate HandedOver(cfg: Config, jobs: seq<Job>, refused: seq<Event>, letters: seq<Event>) {
    && JobsInBounds(jobs)
    && exists given ::
         && |given| == |jobs| && letters == Handed(cfg, jobs, given)
         && forall j :: 0 <= j < |jobs| && jobs[j].failed ==> given[j] in refused
  }

  /** Every dead letter comes from a failed flush of its tenant. */
  ghost predicate Delivers(cfg: Config, w: World, names: seq<string>, letters: seq<(string, Event)>) {
    && |names| == |w.tenants|
    && (forall i :: 0 <= i < |names| ==>
          HandedOver(cfg, w.tenants[i].jobs, w.refused, LettersOf(letters, names[i])))
    && (forall i :: 0 <= i < |letters| ==> letters[i].0 in names)
  }

  lemma RefusedMore(cfg: Config, jobs: seq<Job>, refused: seq<Event>, more: seq<Event>, letters: seq<Event>)
    requires HandedOver(cfg, jobs, refused, letters) && refused <= more
    ensures HandedOver(cfg, jobs, more, letters)
  {
    var given :| |given| == |jobs| && letters == Handed(cfg, jobs, given)
      && forall j :: 0 <= j < |jobs| && jobs[j].failed ==> given[j] in refused;
    assert forall e :: e in refused ==> e in more;
  }

  lemma FlushedMore(cfg: Config, jobs: seq<Job>, refused: seq<Event>, letters: seq<Event>, job: Job, e: Event)
    requires HandedOver(cfg, jobs, refused, letters) && job.done <= |job.events| && (job.failed ==> e in refused)
    ensures HandedOver(cfg, jobs + [job], refused,
      letters + if job.failed then DeadLettered(cfg, job) + [e] else [])
  {
    var given :| |given| == |jobs| && letters == Handed(cfg, jobs, given)
      && forall j :: 0 <= j < |jobs| && jobs[j].failed ==> given[j] in refused;
    var all, gifts := jobs + [job], given + [e];
    assert all[..|jobs|] == jobs && gifts[..|jobs|] == given;
    assert JobsInBounds(all);
    assert Handed(cfg, all, gifts) == letters + if job.failed then DeadLettered(cfg, job) + [e] else [];
  }

  lemma {:induction false} NoLetters(letters: seq<(string, Event)>, tenant: string)
    requires forall i :: 0 <= i < |letters| ==> letters[i].0 != tenant
    ensures LettersOf(letters, tenant) == []
  {
    if letters != [] {
      NoLetters(letters[..|letters| - 1], tenant);
    }
  }

  lemma DeliversKept(cfg: Config, w: World, v: World, names: seq<string>, letters: seq<(string, Event)>)
    requires Delivers(cfg, w, names, letters) && w.refused <= v.refused && |v.tenants| == |w.tenants|
    requires forall i :: 0 <= i < |w.tenants| ==> v.tenants[i].jobs == w.tenants[i].jobs
    ensures Delivers(cfg, v, names, letters)
  {
    hide HandedOver;
    forall i | 0 <= i < |names|
      ensures HandedOver(cfg, v.tenants[i].jobs, v.refused, LettersOf(letters, names[i]))
    {
      RefusedMore(cfg, w.tenants[i].jobs, w.refused, v.refused, LettersOf(letters, names[i]));
    }
  }

  lemma DeliversNew(cfg: Config, w: World, names: seq<string>, letters: seq<(string, Event)>, tenant: string)
    requires Delivers(cfg, w, names, letters) && tenant !in names
    ensures Delivers(cfg, w.(tenants := w.tenants + [NEW_TENANT]), names + [tenant], letters)
  {
    NoLetters(letters, tenant);
    var none: seq<Event> := [];
    assert Handed(cfg, [], none) == none;
    assert HandedOver(cfg, NEW_TENANT.jobs, w.refused, LettersOf(letters, tenant));
  }

  /** Another flush for the sake of `e`; a failed one has handed over its batch and then `e`. */
  lemma DeliversFlush(
    cfg: Config, w: World, v: World, names: seq<string>, letters: seq<(string, Event)>,
    more: seq<(string, Event)>, t: nat, job: Job, e: Event)
    requires Delivers(cfg, w, names, letters) && w.refused <= v.refused && |v.tenants| == |w.tenants| && t < |names|
    requires forall i :: 0 <= i < |w.tenants| && i != t ==> v.tenants[i].jobs == w.tenants[i].jobs
    requires forall i :: 0 <= i < |names| && i != t ==> names[i] != names[t]
    requires v.tenants[t].jobs == w.tenants[t].jobs + [job] && job.done <= |job.events|
    requires job.failed ==> e in v.refused && Appended(letters, more, names[t], DeadLettered(cfg, job) + [e])
    requires !job.failed ==> more == letters
    ensures Delivers(cfg, v, names, more)
  {
    hide HandedOver, DeadLettered, LettersOf;
    var events := if job.failed then DeadLettered(cfg, job) + [e] else [];
    assert Appended(letters, more, names[t], events);
    forall i | 0 <= i < |names|
      ensures HandedOver(cfg, v.tenants[i].jobs, v.refused, LettersOf(more, names[i]))
    {
      var own := LettersOf(letters, names[i]);
      LettersAppended(letters, more, names[t], events, names[i]);
      RefusedMore(cfg, w.tenants[i].jobs, w.refused, v.refused, own);
      if i == t {
        FlushedMore(cfg, w.tenants[t].jobs, v.refused, own, job, e);
      } else {
        assert own + [] == own;
      }
    }
    forall i | 0 <= i < |more| ensures more[i].0 in names {
      if i < |letters| {
        assert more[..|letters|][i] == letters[i];
      } else {
        var k := i - |letters|;
        assert more[|letters| + k] == (names[t], events[k]);
      }
    }
  }

  lemma TaggedAppended(letters: seq<(string, Event)>, tenant: string, events: seq<Event>, e: Event)
    ensures Appended(letters, letters + (Tagged(tenant, events) + Tagged(tenant, [e])), tenant, events + [e])
  {
  }

  // ---- One call as a run ----

  /** All increments owed are made. */
  lemma PayUp(cfg: Config, w: World) returns (v: World)
    requires Reachable(cfg, w)
    ensures Reachable(cfg, v) && v == w.(health := Plus(w.health, w.owed), owed := NO_HEALTH)
  {
    v := Then(cfg, w, Credit(w.owed));
  }

  lemma RefuseNow(cfg: Config, w: World, e: Event) returns (v: World)
    requires Reachable(cfg, w)
    ensures Reachable(cfg, v) && v.tenants == w.tenants && v.refused == w.refused + [e] && v.owed == NO_HEALTH
    ensures v.health == Plus(Plus(w.health, w.owed), NO_HEALTH.(dropped := 1))
  {
    v := Then(cfg, w, Refuse(e));
    v := PayUp(cfg, v);
  }

  lemma AcceptNow(cfg: Config, w: World, t: nat, e: Event) returns (v: World)
    requires Reachable(cfg, w) && t < |w.tenants| && |w.tenants[t].buffer| < cfg.maxTenantBuffer
    ensures Reachable(cfg, v) && v.refused == w.refused && v.owed == NO_HEALTH
    ensures var x := w.tenants[t];
      v.tenants == w.tenants[t := x.(accepted := x.accepted + [e], buffer := x.buffer + [e])]
    ensures v.health == Plus(Plus(w.health, w.owed), NO_HEALTH.(buffered := 1))
  {
    v := Then(cfg, w, Offer(t, e));
    v := PayUp(cfg, v);
  }

  /** The buffer is drained and its events are sent until a batch fails. */
  lemma FlushNow(cfg: Config, w: World, t: nat, sends: nat -> bool) returns (v: World)
    requires cfg.Valid() && Reachable(cfg, w) && t < |w.tenants| && w.owed == NO_HEALTH
    ensures var job := Settle(cfg, NewJob(w.tenants[t].buffer), sends, 0);
      && Reachable(cfg, v) && v.health == w.health && v.owed == JobHealth(job) && v.refused == w.refused
      && |v.tenants| == |w.tenants| && v.tenants[t].buffer == []
      && v.tenants[t].jobs == w.tenants[t].jobs + (if w.tenants[t].buffer == [] then [] else [job])
      && forall i :: 0 <= i < |w.tenants| && i != t ==> v.tenants[i] == w.tenants[i]
  {
    if w.tenants[t].buffer == [] {
      v := w;
    } else {
      var u := Then(cfg, w, Drain(t));
      v := FlushIsARun(cfg, u, t, |u.tenants[t].jobs| - 1, sends, 0);
    }
  }

  /** The tenant's place, new if it has none. */
  lemma Find(cfg: Config, w: World, names: seq<string>, v: View, tenant: string)
    returns (w': World, names': seq<string>, t: nat)
    requires Reachable(cfg, w) && Mirrors(w, names, v)
    ensures Reachable(cfg, w') && t < |names'| && names'[t] == tenant
    ensures Mirrors(w', names', v.(buffers := v.buffers[tenant := Before(v, tenant)]))
    ensures Delivers(cfg, w, names, v.deadLetters) ==> Delivers(cfg, w', names', v.deadLetters)
  {
    hide Delivers;
    if tenant in v.buffers {
      t :| 0 <= t < |names| && names[t] == tenant;
      w', names' := w, names;
      assert v.buffers[tenant := Before(v, tenant)] == v.buffers;
    } else {
      w' := Then(cfg, w, Arrive);
      names' := names + [tenant];
      t := |names|;
      if Delivers(cfg, w, names, v.deadLetters) {
        DeliversNew(cfg, w, names, v.deadLetters, tenant);
      }
    }
  }

  /** A request to a tenant that has its place. */
  lemma ServeKnown(cfg: Config, w: World, names: seq<string>, v: View, r: Request, t: nat) returns (w': World)
    requires cfg.Valid() && Reachable(cfg, w) && Mirrors(w, names, v) && Delivers(cfg, w, names, v.deadLetters)
    requires r.allowed && t < |names| && names[t] == r.tenant
    ensures Reachable(cfg, w') && Mirrors(w', names, Served(cfg, v, r))
    ensures Delivers(cfg, w', names, Served(cfg, v, r).deadLetters)
  {
    if |Before(v, r.tenant)| < cfg.maxTenantBuffer {
      w' := ServeRoom(cfg, w, names, v, r, t);
    } else {
      w' := ServeFull(cfg, w, names, v, r, t);
    }
  }

  lemma ServeRoom(cfg: Config, w: World, names: seq<string>, v: View, r: Request, t: nat) returns (w': World)
    requires cfg.Valid() && Reachable(cfg, w) && Mirrors(w, names, v) && Delivers(cfg, w, names, v.deadLetters)
    requires r.allowed && t < |names| && names[t] == r.tenant && |Before(v, r.tenant)| < cfg.maxTenantBuffer
    ensures Reachable(cfg, w') && Mirrors(w', names, Served(cfg, v, r))
    ensures Delivers(cfg, w', names, Served(cfg, v, r).deadLetters)
  {
    hide Reachable, Settle, Delivers;
    w' := AcceptNow(cfg, w, t, r.event);
    assert v.deadLetters + [] == v.deadLetters;
    DeliversKept(cfg, w, w', names, v.deadLetters);
  }

  lemma ServeFull(cfg: Config, w: World, names: seq<string>, v: View, r: Request, t: nat) returns (w': World)
    requires cfg.Valid() && Reachable(cfg, w) && Mirrors(w, names, v) && Delivers(cfg, w, names, v.deadLetters)
    requires r.allowed && t < |names| && names[t] == r.tenant && |Before(v, r.tenant)| >= cfg.maxTenantBuffer
    ensures Reachable(cfg, w') && Mirrors(w', names, Served(cfg, v, r))
    ensures Delivers(cfg, w', names, Served(cfg, v, r).deadLetters)
  {
    hide Reachable, Settle, Delivers;
    var was := Before(v, r.tenant);
    var job := Settle(cfg, NewJob(was), r.sends, 0);
    var u := FlushNow(cfg, w, t, r.sends);
    if job.failed || cfg.maxTenantBuffer == 0 {
      w' := RefuseNow(cfg, u, r.event);
    } else {
      w' := AcceptNow(cfg, u, t, r.event);
    }
    FullDelivers(cfg, w, w', names, v, r, t);
  }

  lemma EmptyFlush(cfg: Config, sends: nat -> bool)
    requires cfg.maxBatchSize > 0
    ensures !Settle(cfg, NewJob([]), sends, 0).failed
  {
  }

  lemma FullDelivers(cfg: Config, w: World, w': World, names: seq<string>, v: View, r: Request, t: nat)
    requires cfg.Valid() && Mirrors(w, names, v) && Delivers(cfg, w, names, v.deadLetters)
    requires r.allowed && t < |names| && names[t] == r.tenant && |Before(v, r.tenant)| >= cfg.maxTenantBuffer
    requires |w'.tenants| == |w.tenants| && w.refused <= w'.refused
    requires forall i :: 0 <= i < |w.tenants| && i != t ==> w'.tenants[i].jobs == w.tenants[i].jobs
    requires var was := Before(v, r.tenant);
      var job := Settle(cfg, NewJob(was), r.sends, 0);
      && w'.tenants[t].jobs == w.tenants[t].jobs + (if was == [] then [] else [job])
      && (job.failed ==> r.event in w'.refused)
    ensures Delivers(cfg, w', names, Served(cfg, v, r).deadLetters)
  {
    hide Settle, Delivers, DeadLettered, Tagged, Appended;
    var was := Before(v, r.tenant);
    var job := Settle(cfg, NewJob(was), r.sends, 0);
    assert v.deadLetters + [] == v.deadLetters;
    if was == [] {
      EmptyFlush(cfg, r.sends);
      DeliversKept(cfg, w, w', names, v.deadLetters);
    } else {
      TaggedAppended(v.deadLetters, r.tenant, DeadLettered(cfg, job), r.event);
      DeliversFlush(cfg, w, w', names, v.deadLetters, Served(cfg, v, r).deadLetters, t, job, r.event);
    }
  }

  lemma KnownAlike(cfg: Config, v: View, r: Request)
    requires cfg.maxBatchSize > 0 && r.allowed
    ensures Served(cfg, v.(buffers := v.buffers[r.tenant := Before(v, r.tenant)]), r) == Served(cfg, v, r)
  {
    hide Settle, Verdict, After, Charge, Tagged, DeadLettered;
  }

  lemma ServeIsARun(cfg: Config, w: World, names: seq<string>, v: View, r: Request)
    returns (w': World, names': seq<string>)
    requires cfg.Valid() && Reachable(cfg, w) && Mirrors(w, names, v) && Delivers(cfg, w, names, v.deadLetters)
    ensures Reachable(cfg, w') && Mirrors(w', names', Served(cfg, v, r))
    ensures Delivers(cfg, w', names', Served(cfg, v, r).deadLetters)
  {
    hide Reachable, Delivers;
    if !r.allowed {
      w' := RefuseNow(cfg, w, r.event);
      names' := names;
      DeliversKept(cfg, w, w', names, v.deadLetters);
    } else {
      hide Mirrors, Served;
      var u, t;
      u, names', t := Find(cfg, w, names, v, r.tenant);
      var known := v.(buffers := v.buffers[r.tenant := Before(v, r.tenant)]);
      w' := ServeKnown(cfg, u, names', known, r, t);
      KnownAlike(cfg, v, r);
    }
  }

  const NOTHING_SEEN := View(map[], NO_HEALTH, [])

  /** After any sequence of calls the object shows the buffers and counters of a reachable world in
      which no operation is under way, and each tenant's dead letters are those of its failed flushes
      in order: the batch that was not sent, then the event for whose sake the flush was made. */
  lemma {:induction false} CallsAreARun(cfg: Config, rs: seq<Request>) returns (w: World, names: seq<string>)
    requires cfg.Valid()
    ensures Reachable(cfg, w) && Mirrors(w, names, ServedAll(cfg, NOTHING_SEEN, rs))
    ensures Delivers(cfg, w, names, ServedAll(cfg, NOTHING_SEEN, rs).deadLetters)
  {
    if rs == [] {
      w, names := EMPTY, [];
      var ss: seq<Step> := [];
      assert Trace(cfg, [w], ss) && [w][|ss|] == w;
    } else {
      w, names := CallsAreARun(cfg, rs[..|rs| - 1]);
      w, names := ServeIsARun(cfg, w, names, ServedAll(cfg, NOTHING_SEEN, rs[..|rs| - 1]), rs[|rs| - 1]);
    }
  }
}
