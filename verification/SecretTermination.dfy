/** When the resolution of placeholders ends (internal/config/secrets_integration.go), for secret
    values that may hold placeholders themselves.  Values and texts are segment lists in which `$`
    and braces are only delimiters. */
module SecretTermination {
  import opened Options
  import opened SecretPlaceholders
  import opened Text

  type Secrets = map<string, seq<Segment>>

  predicate AllDelimited(gs: seq<Segment>) { forall i :: 0 <= i < |gs| ==> Delimited(gs[i]) }

  predicate Wellformed(secrets: Secrets) { forall k :: k in secrets ==> AllDelimited(secrets[k]) }

  /** The values as the store returns them. */
  function Stored(secrets: Secrets): map<string, string> { map k | k in secrets :: Print(secrets[k]) }

  /** The text is resolved, or found to be unresolvable, in some number of calls. */
  ghost predicate Ends(gs: seq<Segment>, secrets: Secrets) {
    exists calls: nat :: Resolve(Print(gs), Stored(secrets), calls).Some?
  }

  // ---- The exact condition ----

  /** What takes the place of a hole: its secret, else its nonempty default. */
  function Fill(g: Segment, secrets: Secrets): Option<seq<Segment>>
    requires g.Hole?
  {
    if g.key in secrets then Some(secrets[g.key])
    else if g.default.Some? && g.default.value != "" then Some([Plain(g.default.value)])
    else None
  }

  /** A set of names, a rank of each, and those among them whose values fail. */
  datatype Layering = Layering(reached: set<string>, rank: string -> nat, failing: set<string>)

  /** Resolving the list fails, given the names whose secrets fail. */
  predicate Fails(gs: seq<Segment>, secrets: Secrets, failing: set<string>) {
    gs != [] &&
    if gs[0].Hole? && gs[0].key in secrets then gs[0].key in failing || Fails(gs[1..], secrets, failing)
    else if gs[0].Hole? && Fill(gs[0], secrets).None? then true
    else Fails(gs[1..], secrets, failing)
  }

  /** Every secret named up to the first failure is in the set and ranks below `bound`. */
  predicate Below(gs: seq<Segment>, secrets: Secrets, l: Layering, bound: nat) {
    gs == [] ||
    if gs[0].Hole? && gs[0].key in secrets then
      var k := gs[0].key;
      k in l.reached && l.rank(k) < bound && (k in l.failing || Below(gs[1..], secrets, l, bound))
    else
      (gs[0].Hole? && Fill(gs[0], secrets).None?) || Below(gs[1..], secrets, l, bound)
  }

  /** The rank falls from each name in the set to every secret that its value names before the
      resolution of that value fails; the failing names are those whose values fail. */
  ghost predicate Layered(secrets: Secrets, l: Layering) {
    forall k :: k in secrets && k in l.reached ==>
      Below(secrets[k], secrets, l, l.rank(k)) && (k in l.failing <==> Fails(secrets[k], secrets, l.failing))
  }

  /** The secrets the text reaches before a failure are layered, and rank below `bound`. */
  ghost predicate Ranks(l: Layering, bound: nat, gs: seq<Segment>, secrets: Secrets) {
    Layered(secrets, l) && Below(gs, secrets, l, bound)
  }

  // ---- Filling holes one at a time ----

  datatype Verdict = Running | Completed | Failed

  /** The first `n` holes are filled, each where it stands. */
  function Unfold(gs: seq<Segment>, secrets: Secrets, n: nat): Verdict
    decreases n, |gs|
  {
    if gs == [] then Completed
    else if gs[0].Plain? then Unfold(gs[1..], secrets, n)
    else
      var fill := Fill(gs[0], secrets);
      if fill.None? then Failed
      else if n == 0 then Running
      else Unfold(fill.value + gs[1..], secrets, n - 1)
  }

  lemma {:induction false} UnfoldMore(gs: seq<Segment>, secrets: Secrets, n: nat, m: nat)
    requires Unfold(gs, secrets, n) != Running && n <= m
    ensures Unfold(gs, secrets, m) == Unfold(gs, secrets, n)
    decreases n, |gs|
  {
    if gs != [] {
      if gs[0].Plain? {
        UnfoldMore(gs[1..], secrets, n, m);
      } else if Fill(gs[0], secrets).Some? {
        UnfoldMore(Fill(gs[0], secrets).value + gs[1..], secrets, n - 1, m - 1);
      }
    }
  }

  /** A finished list splits: its first part has finished, and the rest after it. */
  lemma {:induction false} UnfoldSplit(a: seq<Segment>, b: seq<Segment>, secrets: Secrets, n: nat)
    requires Unfold(a + b, secrets, n) != Running
    ensures Unfold(a, secrets, n) != Running
    ensures Unfold(a, secrets, n) == Failed ==> Unfold(a + b, secrets, n) == Failed
    ensures Unfold(a, secrets, n) == Completed ==> Unfold(b, secrets, n) == Unfold(a + b, secrets, n)
    decreases n, |a|
  {
    if a == [] {
      assert a + b == b;
    } else {
      assert (a + b)[1..] == a[1..] + b;
      if a[0].Plain? {
        UnfoldSplit(a[1..], b, secrets, n);
      } else if Fill(a[0], secrets).Some? {
        var fill := Fill(a[0], secrets).value;
        assert fill + (a[1..] + b) == (fill + a[1..]) + b;
        UnfoldSplit(fill + a[1..], b, secrets, n - 1);
        if Unfold(a, secrets, n) == Completed {
          UnfoldMore(b, secrets, n - 1, n);
        }
      }
    }
  }

  // ---- Layered secrets end ----

  /** The fills a list takes. */
  function Cost(gs: seq<Segment>, secrets: Secrets, l: Layering, bound: nat): nat
    requires Layered(secrets, l) && Below(gs, secrets, l, bound)
    decreases bound, |gs|
  {
    if gs == [] then 0
    else if gs[0].Plain? then Cost(gs[1..], secrets, l, bound)
    else if gs[0].key in secrets then
      var k := gs[0].key;
      1 + Cost(secrets[k], secrets, l, l.rank(k)) + if k in l.failing then 0 else Cost(gs[1..], secrets, l, bound)
    else if Fill(gs[0], secrets).None? then 0
    else 1 + Cost(gs[1..], secrets, l, bound)
  }

  /** A list costs what it costs wherever it stands; what follows matters only if it does not fail. */
  lemma {:induction false} UnfoldsWithin(
    gs: seq<Segment>, tail: seq<Segment>, secrets: Secrets, l: Layering, bound: nat, m: nat)
    requires Layered(secrets, l) && Below(gs, secrets, l, bound)
    requires !Fails(gs, secrets, l.failing) ==> Unfold(tail, secrets, m) != Running
    ensures Unfold(gs + tail, secrets, Cost(gs, secrets, l, bound) + m) != Running
    decreases bound, |gs|
  {
    if gs == [] {
      assert gs + tail == tail;
    } else {
      var rest := gs[1..];
      assert (gs + tail)[1..] == rest + tail;
      if gs[0].Hole? && gs[0].key in secrets {
        var k := gs[0].key;
        var c := 0;
        if k !in l.failing {
          UnfoldsWithin(rest, tail, secrets, l, bound, m);
          c := Cost(rest, secrets, l, bound);
        }
        UnfoldsWithin(secrets[k], rest + tail, secrets, l, l.rank(k), c + m);
      } else if gs[0].Plain? || Fill(gs[0], secrets).Some? {
        UnfoldsWithin(rest, tail, secrets, l, bound, m);
        if gs[0].Hole? {
          var fill := Fill(gs[0], secrets).value;
          assert fill + (rest + tail) == [fill[0]] + (rest + tail);
          assert (fill + (rest + tail))[1..] == rest + tail;
        }
      }
    }
  }

  lemma LayeredUnfolds(gs: seq<Segment>, secrets: Secrets, l: Layering, bound: nat) returns (n: nat)
    requires Ranks(l, bound, gs, secrets)
    ensures Unfold(gs, secrets, n) != Running
  {
    n := Cost(gs, secrets, l, bound);
    UnfoldsWithin(gs, [], secrets, l, bound, 0);
    assert gs + [] == gs;
  }

  lemma {:induction false} BelowMore(gs: seq<Segment>, secrets: Secrets, l: Layering, bound: nat, more: nat)
    requires Below(gs, secrets, l, bound) && bound <= more
    ensures Below(gs, secrets, l, more)
  {
    if gs != [] && !(gs[0].Hole? && gs[0].key in secrets && gs[0].key in l.failing)
      && !(gs[0].Hole? && Fill(gs[0], secrets).None?)
    {
      BelowMore(gs[1..], secrets, l, bound, more);
    }
  }

  /** With every secret in the set, every list is below something. */
  lemma {:induction false} SomeBound(gs: seq<Segment>, secrets: Secrets, l: Layering) returns (bound: nat)
    requires secrets.Keys <= l.reached
    ensures Below(gs, secrets, l, bound)
  {
    bound := 0;
    if gs != [] {
      var b := SomeBound(gs[1..], secrets, l);
      bound := b + if gs[0].Hole? then l.rank(gs[0].key) + 1 else 0;
      BelowMore(gs[1..], secrets, l, b, bound);
    }
  }

  // ---- Secrets that end are layered ----

  ghost predicate Unfolds(gs: seq<Segment>, secrets: Secrets) { exists n: nat :: Unfold(gs, secrets, n) != Running }

  lemma {:induction false} LeastTime(gs: seq<Segment>, secrets: Secrets, n: nat) returns (m: nat)
    requires Unfold(gs, secrets, n) != Running
    ensures Unfold(gs, secrets, m) != Running && forall i: nat :: i < m ==> Unfold(gs, secrets, i) == Running
  {
    m := n;
    if i: nat :| i < n && Unfold(gs, secrets, i) != Running {
      m := LeastTime(gs, secrets, i);
    }
  }

  ghost predicate IsTime(gs: seq<Segment>, secrets: Secrets, m: nat) {
    Unfold(gs, secrets, m) != Running && forall i: nat :: i < m ==> Unfold(gs, secrets, i) == Running
  }

  /** The fills a list takes; any number if it never ends. */
  ghost function Time(gs: seq<Segment>, secrets: Secrets): nat {
    if exists m: nat :: IsTime(gs, secrets, m) then var m: nat :| IsTime(gs, secrets, m); m else 0
  }

  lemma TimeIsLeast(gs: seq<Segment>, secrets: Secrets, n: nat)
    requires Unfold(gs, secrets, n) != Running
    ensures Unfold(gs, secrets, Time(gs, secrets)) == Unfold(gs, secrets, n) && Time(gs, secrets) <= n
  {
    var m := LeastTime(gs, secrets, n);
    assert IsTime(gs, secrets, m);
    UnfoldMore(gs, secrets, Time(gs, secrets), n);
  }

  /** The names whose values end, ranked by the fills they take. */
  ghost function Timing(secrets: Secrets): Layering {
    Layering(
      (set k | k in secrets && Unfolds(secrets[k], secrets)),
      k => if k in secrets then Time(secrets[k], secrets) else 0,
      (set k | k in secrets && Unfold(secrets[k], secrets, Time(secrets[k], secrets)) == Failed))
  }

  lemma {:induction false} EndedIsBelow(gs: seq<Segment>, secrets: Secrets, n: nat, bound: nat)
    requires Unfold(gs, secrets, n) != Running && n <= bound
    ensures Below(gs, secrets, Timing(secrets), bound)
    ensures Fails(gs, secrets, Timing(secrets).failing) <==> Unfold(gs, secrets, n) == Failed
    decreases |gs|
  {
    if gs != [] {
      var rest := gs[1..];
      if gs[0].Plain? {
        EndedIsBelow(rest, secrets, n, bound);
      } else if gs[0].key in secrets {
        var value := secrets[gs[0].key];
        UnfoldSplit(value, rest, secrets, n - 1);
        TimeIsLeast(value, secrets, n - 1);
        if Unfold(value, secrets, n - 1) == Completed {
          EndedIsBelow(rest, secrets, n - 1, bound);
        }
      } else if Fill(gs[0], secrets).Some? {
        var fill := Fill(gs[0], secrets).value;
        assert (fill + rest)[1..] == rest;
        EndedIsBelow(rest, secrets, n - 1, bound);
      }
    }
  }

  lemma TimingIsLayered(secrets: Secrets)
    ensures Layered(secrets, Timing(secrets))
  {
    var l := Timing(secrets);
    forall k | k in secrets && k in l.reached
      ensures Below(secrets[k], secrets, l, l.rank(k)) && (k in l.failing <==> Fails(secrets[k], secrets, l.failing))
    {
      var n: nat :| Unfold(secrets[k], secrets, n) != Running;
      TimeIsLeast(secrets[k], secrets, n);
      EndedIsBelow(secrets[k], secrets, Time(secrets[k], secrets), l.rank(k));
    }
  }

  // ---- The calls do the same ----

  lemma {:induction false} PrintAppend(a: seq<Segment>, b: seq<Segment>)
    ensures Print(a + b) == Print(a) + Print(b)
  {
    if a == [] {
      assert a + b == b;
    } else {
      assert (a + b)[1..] == a[1..] + b;
      PrintAppend(a[1..], b);
    }
  }

  /** What a call does on a text whose first hole is `g`. */
  ghost predicate Follows(step: string -> Outcome, secrets: Secrets) {
    && (forall s: string :: '$' !in s ==> step(s) == Done(s))
    && (forall prefix: string, g: Segment, tail: string :: '$' !in prefix && g.Hole? && Delimited(g) ==>
          step(Open(prefix, g, tail)) ==
            if Fill(g, secrets).None? then Missing(g.key)
            else Continue(prefix + Print(Fill(g, secrets).value) + tail))
  }

  lemma FillPrints(g: Segment, secrets: Secrets)
    requires g.Hole?
    ensures Filling(g, Stored(secrets)).Some? <==> Fill(g, secrets).Some?
    ensures Fill(g, secrets).Some? ==> Filling(g, Stored(secrets)).value == Print(Fill(g, secrets).value)
  {
    if g.key !in secrets && Fill(g, secrets).Some? {
      var d := g.default.value;
      assert Print([Plain(d)]) == d + Print([]) == d;
    }
  }

  lemma StepFollows(secrets: Secrets)
    ensures Follows(StepWith(Stored(secrets)), secrets)
  {
    var step := StepWith(Stored(secrets));
    forall s: string | '$' !in s ensures step(s) == Done(s) {
      PlainDone(s, Stored(secrets));
    }
    forall prefix: string, g: Segment, tail: string | '$' !in prefix && g.Hole? && Delimited(g)
      ensures step(Open(prefix, g, tail)) ==
        if Fill(g, secrets).None? then Missing(g.key)
        else Continue(prefix + Print(Fill(g, secrets).value) + tail)
    {
      StepOnHole(prefix, g, tail, Stored(secrets));
      FillPrints(g, secrets);
    }
  }

  lemma FollowsAt(step: string -> Outcome, prefix: string, g: Segment, tail: string, secrets: Secrets)
    requires Follows(step, secrets) && '$' !in prefix && g.Hole? && Delimited(g)
    ensures step(Open(prefix, g, tail)) ==
      if Fill(g, secrets).None? then Missing(g.key)
      else Continue(prefix + Print(Fill(g, secrets).value) + tail)
  {
  }

  /** What a call does with a text that begins with a hole, as one of three cases. */
  lemma Filled(step: string -> Outcome, prefix: string, gs: seq<Segment>, secrets: Secrets)
    requires Follows(step, secrets) && '$' !in prefix && gs != [] && gs[0].Hole? && Delimited(gs[0])
    ensures var o := step(prefix + Print(gs));
      if Fill(gs[0], secrets).None? then o == Missing(gs[0].key)
      else
        var next := prefix + Print(Fill(gs[0], secrets).value + gs[1..]);
        o == if Index(next, "${") == -1 then Done(next) else Again(next)
  {
    hide Follows, Index, Fill;
    var g, tail := gs[0], Print(gs[1..]);
    assert prefix + Print(gs) == Open(prefix, g, tail);
    FollowsAt(step, prefix, g, tail, secrets);
    if Fill(g, secrets).Some? {
      var fill := Fill(g, secrets).value;
      PrintAppend(fill, gs[1..]);
      assert prefix + Print(fill) + tail == prefix + (Print(fill) + tail);
    }
  }

  /** Fills keep a list delimited. */
  lemma FillDelimited(gs: seq<Segment>, secrets: Secrets)
    requires Wellformed(secrets) && AllDelimited(gs) && gs != [] && gs[0].Hole? && Fill(gs[0], secrets).Some?
    ensures AllDelimited(Fill(gs[0], secrets).value + gs[1..])
  {
    var fill := Fill(gs[0], secrets).value;
    assert Delimited(gs[0]);
    assert AllDelimited(fill);
  }

  lemma NextPrefix(prefix: string, gs: seq<Segment>)
    requires gs != [] && gs[0].Plain? && Delimited(gs[0]) && '$' !in prefix
    ensures '$' !in prefix + gs[0].text && prefix + Print(gs) == prefix + gs[0].text + Print(gs[1..])
  {
  }

  lemma {:induction false} CallsEnd(
    step: string -> Outcome, prefix: string, gs: seq<Segment>, secrets: Secrets, n: nat)
    requires Follows(step, secrets) && Wellformed(secrets) && AllDelimited(gs) && '$' !in prefix
    requires Unfold(gs, secrets, n) != Running
    ensures Iterate(step, prefix + Print(gs), n + 1).Some?
    decreases n, |gs|, 1
  {
    if gs == [] {
      assert prefix + Print(gs) == prefix;
    } else if gs[0].Plain? {
      NextPrefix(prefix, gs);
      CallsEnd(step, prefix + gs[0].text, gs[1..], secrets, n);
    } else {
      CallsEndHole(step, prefix, gs, secrets, n);
    }
  }

  lemma {:induction false} CallsEndHole(
    step: string -> Outcome, prefix: string, gs: seq<Segment>, secrets: Secrets, n: nat)
    requires Follows(step, secrets) && Wellformed(secrets) && AllDelimited(gs) && '$' !in prefix
    requires gs != [] && gs[0].Hole? && Unfold(gs, secrets, n) != Running
    ensures Iterate(step, prefix + Print(gs), n + 1).Some?
    decreases n, |gs|, 0
  {
    hide Follows;
    Filled(step, prefix, gs, secrets);
    if Fill(gs[0], secrets).Some? {
      FillDelimited(gs, secrets);
      CallsEnd(step, prefix, Fill(gs[0], secrets).value + gs[1..], secrets, n - 1);
    }
  }

  lemma HoleShows(prefix: string, gs: seq<Segment>)
    requires gs != [] && gs[0].Hole? && '$' !in prefix
    ensures Index(prefix + Print(gs), "${") == |prefix|
  {
    var tail := Inside(gs[0]) + "}" + Print(gs[1..]);
    assert prefix + Print(gs) == prefix + "${" + tail;
    FirstDollar(prefix, tail);
  }

  /** Without `${` there is nothing left to fill. */
  lemma {:induction false} NoHoles(prefix: string, gs: seq<Segment>, secrets: Secrets, n: nat)
    requires AllDelimited(gs) && '$' !in prefix && Index(prefix + Print(gs), "${") == -1
    ensures Unfold(gs, secrets, n) == Completed
    decreases |gs|
  {
    hide Index;
    if gs != [] {
      if gs[0].Plain? {
        NextPrefix(prefix, gs);
        NoHoles(prefix + gs[0].text, gs[1..], secrets, n);
      } else {
        HoleShows(prefix, gs);
      }
    }
  }

  lemma {:induction false} CallsEnded(
    step: string -> Outcome, prefix: string, gs: seq<Segment>, secrets: Secrets, calls: nat)
    requires Follows(step, secrets) && Wellformed(secrets) && AllDelimited(gs) && '$' !in prefix
    requires Iterate(step, prefix + Print(gs), calls).Some?
    ensures Unfold(gs, secrets, calls) != Running
    decreases calls, |gs|, 1
  {
    if gs == [] {
    } else if gs[0].Plain? {
      NextPrefix(prefix, gs);
      CallsEnded(step, prefix + gs[0].text, gs[1..], secrets, calls);
    } else {
      CallsEndedHole(step, prefix, gs, secrets, calls);
    }
  }

  lemma {:induction false} CallsEndedHole(
    step: string -> Outcome, prefix: string, gs: seq<Segment>, secrets: Secrets, calls: nat)
    requires Follows(step, secrets) && Wellformed(secrets) && AllDelimited(gs) && '$' !in prefix
    requires gs != [] && gs[0].Hole? && Iterate(step, prefix + Print(gs), calls).Some?
    ensures Unfold(gs, secrets, calls) != Running
    decreases calls, |gs|, 0
  {
    hide Follows;
    Filled(step, prefix, gs, secrets);
    if Fill(gs[0], secrets).Some? {
      var next := Fill(gs[0], secrets).value + gs[1..];
      FillDelimited(gs, secrets);
      if Index(prefix + Print(next), "${") == -1 {
        NoHoles(prefix, next, secrets, calls - 1);
      } else {
        CallsEnded(step, prefix, next, secrets, calls - 1);
      }
    }
  }

  lemma EndsIff(gs: seq<Segment>, secrets: Secrets)
    requires Wellformed(secrets) && AllDelimited(gs)
    ensures Ends(gs, secrets) <==> Unfolds(gs, secrets)
  {
    var step := StepWith(Stored(secrets));
    StepFollows(secrets);
    assert "" + Print(gs) == Print(gs);
    if calls: nat :| Resolve(Print(gs), Stored(secrets), calls).Some? {
      CallsEnded(step, "", gs, secrets, calls);
    }
    if n: nat :| Unfold(gs, secrets, n) != Running {
      CallsEnd(step, "", gs, secrets, n);
      assert Resolve(Print(gs), Stored(secrets), n + 1).Some?;
    }
  }

  // ---- The theorem ----

  lemma EndedRanks(gs: seq<Segment>, secrets: Secrets, n: nat)
    requires Unfold(gs, secrets, n) != Running
    ensures Ranks(Timing(secrets), n, gs, secrets)
  {
    hide Layered, Below;
    TimingIsLayered(secrets);
    EndedIsBelow(gs, secrets, n, n);
  }

  /** Resolution of a text ends exactly when the secrets it reaches before a failure can be ranked:
      each above all that its value names before the value's resolution fails, if it does. */
  lemma TextEndsIff(gs: seq<Segment>, secrets: Secrets)
    requires Wellformed(secrets) && AllDelimited(gs)
    ensures Ends(gs, secrets) <==> exists l, bound: nat :: Ranks(l, bound, gs, secrets)
  {
    hide Ranks, Ends, Unfold;
    EndsIff(gs, secrets);
    if n: nat :| Unfold(gs, secrets, n) != Running {
      EndedRanks(gs, secrets, n);
    }
    if l, bound: nat :| Ranks(l, bound, gs, secrets) {
      var n := LayeredUnfolds(gs, secrets, l, bound);
    }
  }

  lemma RankedTextEnds(gs: seq<Segment>, secrets: Secrets, l: Layering)
    requires Wellformed(secrets) && AllDelimited(gs) && secrets.Keys <= l.reached && Layered(secrets, l)
    ensures Ends(gs, secrets)
  {
    var bound := SomeBound(gs, secrets, l);
    assert Ranks(l, bound, gs, secrets);
    TextEndsIff(gs, secrets);
  }

  /** Resolution of every such text ends exactly when all secrets can be ranked so. */
  lemma ResolutionEndsIff(secrets: Secrets)
    requires Wellformed(secrets)
    ensures (forall gs :: AllDelimited(gs) ==> Ends(gs, secrets)) <==>
      exists l: Layering :: secrets.Keys <= l.reached && Layered(secrets, l)
  {
    if forall gs :: AllDelimited(gs) ==> Ends(gs, secrets) {
      forall k | k in secrets ensures Unfolds(secrets[k], secrets) {
        EndsIff(secrets[k], secrets);
      }
      TimingIsLayered(secrets);
      assert secrets.Keys <= Timing(secrets).reached;
    }
    if l: Layering :| secrets.Keys <= l.reached && Layered(secrets, l) {
      forall gs | AllDelimited(gs) ensures Ends(gs, secrets) {
        RankedTextEnds(gs, secrets, l);
      }
    }
  }

  // ---- Cycles ----

  /** The list names `k` before anything else. */
  predicate NamesFirst(gs: seq<Segment>, k: string) {
    gs != [] && if gs[0].Plain? then NamesFirst(gs[1..], k) else gs[0].key == k
  }

  lemma {:induction false} NamesFirstUnfolds(gs: seq<Segment>, k: string, secrets: Secrets, n: nat)
    requires NamesFirst(gs, k) && k in secrets && Unfold(gs, secrets, n) != Running
    ensures n > 0 && Unfold(secrets[k], secrets, n - 1) != Running
    decreases |gs|
  {
    if gs[0].Plain? {
      NamesFirstUnfolds(gs[1..], k, secrets, n);
    } else {
      UnfoldSplit(secrets[k], gs[1..], secrets, n - 1);
    }
  }

  /** The value of each name names the next first, and the last one's the first. */
  predicate Cycle(ks: seq<string>, secrets: Secrets) {
    forall j :: 0 <= j < |ks| ==> ks[j] in secrets && NamesFirst(secrets[ks[j]], ks[(j + 1) % |ks|])
  }

  /** Names that lead from one to the next and back never end, one name alone included. */
  lemma {:induction false} CycleRuns(ks: seq<string>, secrets: Secrets, i: nat, n: nat)
    requires i < |ks| && Cycle(ks, secrets)
    ensures Unfold(secrets[ks[i]], secrets, n) == Running
    decreases n
  {
    if Unfold(secrets[ks[i]], secrets, n) != Running {
      var next := (i + 1) % |ks|;
      NamesFirstUnfolds(secrets[ks[i]], ks[next], secrets, n);
      CycleRuns(ks, secrets, next, n - 1);
    }
  }

  /** No value on such a cycle is ever resolved. */
  lemma CycleNeverEnds(ks: seq<string>, secrets: Secrets, i: nat)
    requires Wellformed(secrets)
    requires i < |ks| && Cycle(ks, secrets)
    ensures !Ends(secrets[ks[i]], secrets)
  {
    EndsIff(secrets[ks[i]], secrets);
    if n: nat :| Unfold(secrets[ks[i]], secrets, n) != Running {
      CycleRuns(ks, secrets, i, n);
    }
  }

  /** A secret whose value is its own placeholder. */
  lemma SelfReferenceNeverEnds(calls: nat)
    ensures Resolve("${A}", map["A" := "${A}"], calls).None?
  {
    var gs := [Hole("A", None)];
    var secrets := map["A" := gs];
    assert Print(gs) == "${" + "A" + "}" + Print([]) == "${A}";
    assert Stored(secrets) == map["A" := "${A}"];
    IndexIsLeast("A", ":-");
    assert Delimited(gs[0]);
    CycleNeverEnds(["A"], secrets, 0);
    assert !Ends(gs, secrets);
  }

  /** A value that names itself behind a hole which cannot be filled does end: with a failure. */
  lemma FailureCutsCycle()
    ensures var secrets := map["A" := [Hole("B", None), Hole("A", None)], "B" := [Hole("C", None)]];
      && Layered(secrets, Layering({"A", "B"}, k => if k == "A" then 1 else 0, {"A", "B"}))
      && forall gs :: AllDelimited(gs) ==> Ends(gs, secrets)
  {
    var a, b := [Hole("B", None), Hole("A", None)], [Hole("C", None)];
    var secrets := map["A" := a, "B" := b];
    var l := Layering({"A", "B"}, k => if k == "A" then 1 else 0, {"A", "B"});
    assert "A"[0] == 'A' && "B"[0] == 'B' && "C"[0] == 'C';
    assert Fails(b, secrets, {"A", "B"});
    assert Layered(secrets, l);
    IndexIsLeast("A", ":-");
    IndexIsLeast("B", ":-");
    IndexIsLeast("C", ":-");
    assert Wellformed(secrets);
    assert secrets.Keys <= l.reached;
    ResolutionEndsIff(secrets);
  }
}
