/** Expansion of `${NAME}` and `${NAME:-default}` (internal/config/secrets_integration.go). */
module SecretPlaceholders {
  import opened Options
  import opened Text

  datatype Result = Ok(value: string) | Unresolved(key: string)

  /** One call: finished, failed, or a text to resolve further. */
  datatype Outcome = Done(value: string) | Missing(key: string) | Again(value: string)

  /** strings.Replace with a count of one. */
  function ReplaceFirst(s: string, old_: string, new_: string): string {
    var i := Index(s, old_);
    if i == -1 then s else s[..i] + new_ + s[i + |old_|..]
  }

  /** `:-` separates the name from its default. */
  function KeyAndFallback(placeholder: string): (string, string) {
    var (key, fallback, found) := Cut(placeholder, ":-");
    if found then (key, fallback) else (placeholder, "")
  }

  /** The placeholder that is read next: text before it, inside it and behind it. */
  datatype Place = Nowhere | Place(before: string, inside: string, behind: string)

  /** The first `${` and the first `}` behind it. */
  function Locate(value: string): Place {
    var start := Index(value, "${");
    if start == -1 then Nowhere
    else
      var end := Index(value[start..], "}");
      if end < 2 then Nowhere
      else Place(value[..start], value[start + 2..start + end], value[start + end + 1..])
  }

  /** Resolution goes on only while a `${` remains. */
  function Continue(v: string): Outcome {
    if Index(v, "${") != -1 then Again(v) else Done(v)
  }

  function Step(value: string, secrets: map<string, string>): Outcome {
    match Locate(value)
    case Nowhere => Done(value)
    case Place(_, inside, _) =>
      var (key, fallback) := KeyAndFallback(inside);
      if key in secrets then Continue(ReplaceFirst(value, "${" + inside + "}", secrets[key]))
      else if fallback != "" then Continue(ReplaceFirst(value, "${" + inside + "}", fallback))
      else Missing(key)
  }

  /** The recursion over any step, cut off after `calls` calls: None when it is not finished. */
  function Iterate(step: string -> Outcome, value: string, calls: nat): Option<Result>
    decreases calls
  {
    if calls == 0 then None
    else
      match step(value)
      case Done(v) => Some(Ok(v))
      case Missing(k) => Some(Unresolved(k))
      case Again(v) => Iterate(step, v, calls - 1)
  }

  function StepWith(secrets: map<string, string>): string -> Outcome {
    v => Step(v, secrets)
  }

  function Resolve(value: string, secrets: map<string, string>, calls: nat): Option<Result> {
    Iterate(StepWith(secrets), value, calls)
  }

  // ---- One step, exactly ----

  lemma Pieces(value: string, start: nat, end: nat)
    requires 2 <= end && start + end < |value| && value[start..start + 2] == "${" && value[start + end] == '}'
    ensures value == value[..start] + "${" + value[start + 2..start + end] + "}" + value[start + end + 1..]
  {
    assert value == value[..start] + value[start..start + 2] + value[start + 2..start + end]
      + [value[start + end]] + value[start + end + 1..];
  }

  /** `}` cannot come before the end of `${`, so the place is where the code looks. */
  lemma LocateFinds(value: string)
    requires Locate(value).Place?
    ensures var p := Locate(value);
      && value == p.before + "${" + p.inside + "}" + p.behind
      && Index(value, "${") == |p.before| && '}' !in p.inside
  {
    hide Index;
    var start := Index(value, "${");
    IndexIsLeast(value, "${");
    var rest := value[start..];
    var end := Index(rest, "}");
    FirstOfChar(rest, '}');
    assert value[start + 2..start + end] == rest[..end][2..];
    Pieces(value, start, end);
  }

  lemma NowhereMeans(value: string)
    requires Locate(value).Nowhere?
    ensures !HasPlaceholder(value)
  {
    hide Index;
    var start := Index(value, "${");
    IndexIsLeast(value, "${");
    if start != -1 {
      var rest := value[start..];
      FirstOfChar(rest, '}');
      assert rest[0] == value[start..start + 2][0] && rest[1] == value[start..start + 2][1];
      forall i: nat, j: nat | OccursAt(value, "${", i) && i + 2 <= j < |value| ensures value[j] != '}' {
        assert start <= i;
        assert rest[j - start] == value[j];
      }
    }
  }

  lemma StartsThere(value: string, a: string, b: string, i: nat)
    ensures OccursAt(value, a + b, i) ==> OccursAt(value, a, i)
  {
    if OccursAt(value, a + b, i) {
      assert value[i..i + |a|] == value[i..i + |a + b|][..|a|];
    }
  }

  /** The text replaced is the placeholder that was read: nothing earlier can match it. */
  lemma ReplacesPlace(value: string, put: string)
    requires Locate(value).Place?
    ensures var p := Locate(value); ReplaceFirst(value, "${" + p.inside + "}", put) == p.before + put + p.behind
  {
    hide Index;
    LocateFinds(value);
    var p := Locate(value);
    var whole := "${" + p.inside + "}";
    var start := |p.before|;
    IndexIsLeast(value, "${");
    assert value == p.before + whole + p.behind;
    assert OccursAt(value, whole, start);
    forall i: nat | i < start ensures !OccursAt(value, whole, i) {
      StartsThere(value, "${", p.inside + "}", i);
      assert "${" + (p.inside + "}") == whole;
    }
    IndexIs(value, whole, start);
  }

  /** What takes the place of a placeholder. */
  function Put(inside: string, secrets: map<string, string>): string {
    var (key, fallback) := KeyAndFallback(inside);
    if key in secrets then secrets[key] else fallback
  }

  lemma StepReplaces(value: string, secrets: map<string, string>)
    ensures Locate(value).Place? && !Step(value, secrets).Missing? ==>
      var p := Locate(value); Step(value, secrets) == Continue(p.before + Put(p.inside, secrets) + p.behind)
  {
    if Locate(value).Place? {
      ReplacesPlace(value, Put(Locate(value).inside, secrets));
    }
  }

  // ---- Termination ----

  function Dollars(s: string): nat {
    if s == "" then 0 else (if s[0] == '$' then 1 else 0) + Dollars(s[1..])
  }

  lemma {:induction false} DollarsAppend(a: string, b: string)
    ensures Dollars(a + b) == Dollars(a) + Dollars(b)
  {
    if a == "" {
      assert a + b == b;
    } else {
      assert (a + b)[1..] == a[1..] + b;
      DollarsAppend(a[1..], b);
    }
  }

  lemma {:induction false} NoDollars(s: string)
    ensures Dollars(s) == 0 <==> '$' !in s
  {
    if s != "" {
      NoDollars(s[1..]);
      assert s == [s[0]] + s[1..];
    }
  }

  predicate Harmless(secrets: map<string, string>) {
    forall k :: k in secrets ==> '$' !in secrets[k]
  }

  /** Each substitution removes at least the `$` of its placeholder, nested defaults included. */
  lemma StepDropsDollar(value: string, secrets: map<string, string>)
    requires Harmless(secrets)
    ensures Step(value, secrets).Again? ==> Dollars(Step(value, secrets).value) < Dollars(value)
  {
    if Step(value, secrets).Again? {
      StepReplaces(value, secrets);
      LocateFinds(value);
      var p := Locate(value);
      SubstitutionDrops(p.before, p.inside, p.behind, Put(p.inside, secrets), secrets);
    }
  }

  lemma SubstitutionDrops(before: string, inside: string, behind: string, put: string, secrets: map<string, string>)
    requires Harmless(secrets) && put == Put(inside, secrets)
    ensures Dollars(before + put + behind) < Dollars(before + "${" + inside + "}" + behind)
  {
    PutDollars(inside, secrets);
    DollarsAppend(before + "${" + inside + "}", behind);
    DollarsAppend(before + "${" + inside, "}");
    DollarsAppend(before + "${", inside);
    DollarsAppend(before, "${");
    DollarsAppend(before + put, behind);
    DollarsAppend(before, put);
    assert Dollars("${") == 1 by {
      assert "${"[1..] == "{" && "{"[1..] == "";
    }
  }

  lemma PutDollars(inside: string, secrets: map<string, string>)
    requires Harmless(secrets)
    ensures Dollars(Put(inside, secrets)) <= Dollars(inside)
  {
    var (key, fallback) := KeyAndFallback(inside);
    CutParts(inside, ":-");
    if key in secrets {
      NoDollars(secrets[key]);
    } else if fallback != "" {
      assert inside == key + ":-" + fallback;
      DollarsAppend(key + ":-", fallback);
    }
  }

  lemma {:induction false} IterateEnds(step: string -> Outcome, size: string -> nat, value: string, calls: nat)
    requires forall v :: step(v).Again? ==> size(step(v).value) < size(v)
    requires calls > size(value)
    ensures Iterate(step, value, calls).Some?
    decreases calls
  {
    if step(value).Again? {
      IterateEnds(step, size, step(value).value, calls - 1);
    }
  }

  lemma AllStepsDrop(secrets: map<string, string>)
    requires Harmless(secrets)
    ensures forall v :: StepWith(secrets)(v).Again? ==> Dollars(StepWith(secrets)(v).value) < Dollars(v)
  {
    forall v | StepWith(secrets)(v).Again? ensures Dollars(StepWith(secrets)(v).value) < Dollars(v) {
      StepDropsDollar(v, secrets);
    }
  }

  /** Resolution terminates, after at most one call per `$`, whenever no secret value contains a `$`. */
  lemma Terminates(value: string, secrets: map<string, string>, calls: nat)
    requires Harmless(secrets) && calls > Dollars(value)
    ensures Resolve(value, secrets, calls).Some?
  {
    AllStepsDrop(secrets);
    IterateEnds(StepWith(secrets), Dollars, value, calls);
  }

  // ---- What a result looks like ----

  /** A complete `${...}`. */
  ghost predicate HasPlaceholder(s: string) {
    exists i: nat, j: nat :: OccursAt(s, "${", i) && i + 2 <= j < |s| && s[j] == '}'
  }

  lemma {:induction false} IterateKeeps(step: string -> Outcome, good: iset<string>, value: string, calls: nat)
    requires forall v :: step(v).Done? ==> step(v).value in good
    requires Iterate(step, value, calls).Some? && Iterate(step, value, calls).value.Ok?
    ensures Iterate(step, value, calls).value.value in good
    decreases calls
  {
    if step(value).Again? {
      IterateKeeps(step, good, step(value).value, calls - 1);
    }
  }

  lemma DoneHasNone(value: string, secrets: map<string, string>)
    requires Step(value, secrets).Done?
    ensures !HasPlaceholder(Step(value, secrets).value)
  {
    if Locate(value).Nowhere? {
      NowhereMeans(value);
    } else {
      IndexIsLeast(Step(value, secrets).value, "${");
    }
  }

  /** Whatever the secrets are, a successful result has no complete placeholder left. */
  lemma NothingLeft(value: string, secrets: map<string, string>, calls: nat)
    requires Resolve(value, secrets, calls).Some? && Resolve(value, secrets, calls).value.Ok?
    ensures !HasPlaceholder(Resolve(value, secrets, calls).value.value)
  {
    var good := iset s | !HasPlaceholder(s);
    forall v | StepWith(secrets)(v).Done? ensures StepWith(secrets)(v).value in good {
      DoneHasNone(v, secrets);
    }
    IterateKeeps(StepWith(secrets), good, value, calls);
  }

  // ---- One left-to-right pass ----

  /** A configuration value as its author means it. */
  datatype Segment = Plain(text: string) | Hole(key: string, default: Option<string>)

  predicate Delimited(g: Segment) {
    match g
    case Plain(t) => '$' !in t
    case Hole(k, d) =>
      && '$' !in k && '}' !in k && Index(k, ":-") == -1
      && (d.Some? ==> '$' !in d.value && '}' !in d.value)
  }

  function Inside(g: Segment): string
    requires g.Hole?
  {
    if g.default.Some? then g.key + ":-" + g.default.value else g.key
  }

  function Print(gs: seq<Segment>): string {
    if gs == [] then ""
    else (if gs[0].Plain? then gs[0].text else "${" + Inside(gs[0]) + "}") + Print(gs[1..])
  }

  /** Every hole replaced by its secret or its nonempty default, left to right. */
  function Expand(gs: seq<Segment>, secrets: map<string, string>): Result {
    if gs == [] then Ok("")
    else
      match gs[0]
      case Plain(t) => Prepend(t, Expand(gs[1..], secrets))
      case Hole(k, d) =>
        if k in secrets then Prepend(secrets[k], Expand(gs[1..], secrets))
        else if d.Some? && d.value != "" then Prepend(d.value, Expand(gs[1..], secrets))
        else Unresolved(k)
  }

  function Prepend(s: string, r: Result): Result {
    if r.Ok? then Ok(s + r.value) else r
  }

  lemma FirstDollar(prefix: string, tail: string)
    requires '$' !in prefix
    ensures Index(prefix + "${" + tail, "${") == |prefix|
  {
    var s := prefix + "${" + tail;
    assert s[|prefix|..|prefix| + 2] == "${";
    forall i: nat | i < |prefix| ensures !OccursAt(s, "${", i) {
      assert s[i] == prefix[i] != '$';
      assert i + 2 <= |s| ==> s[i..i + 2][0] == s[i];
    }
    IndexIs(s, "${", |prefix|);
  }

  lemma FirstDash(key: string, fallback: string)
    requires Index(key, ":-") == -1
    ensures Index(key + ":-" + fallback, ":-") == |key|
  {
    var s := key + ":-" + fallback;
    IndexIsLeast(key, ":-");
    assert s[|key|..|key| + 2] == ":-";
    forall i: nat | i < |key| ensures !OccursAt(s, ":-", i) {
      if i + 2 <= |key| {
        assert s[i..i + 2] == key[i..i + 2];
        assert !OccursAt(key, ":-", i);
      } else {
        assert s[i..i + 2][1] == s[i + 1] == ':';
      }
    }
    IndexIs(s, ":-", |key|);
  }

  lemma SplitInside(g: Segment)
    requires g.Hole? && Delimited(g)
    ensures KeyAndFallback(Inside(g)) == (g.key, if g.default.Some? then g.default.value else "")
  {
    if g.default.Some? {
      FirstDash(g.key, g.default.value);
      assert Inside(g)[..|g.key|] == g.key && Inside(g)[|g.key| + 2..] == g.default.value;
    }
  }

  /** The leftmost hole behind plain text is the one that is found. */
  lemma LocateHole(prefix: string, inside: string, tail: string)
    requires '$' !in prefix && '}' !in inside
    ensures Locate(prefix + ("${" + inside + "}" + tail)) == Place(prefix, inside, tail)
  {
    var value := prefix + ("${" + inside + "}" + tail);
    assert value == prefix + "${" + (inside + "}" + tail);
    FirstDollar(prefix, inside + "}" + tail);
    var rest := value[|prefix|..];
    assert rest == "${" + inside + ['}'] + tail;
    IndexOfChar("${" + inside, '}', tail);
  }

  /** The text in which the hole `g` comes behind a prefix. */
  function Open(prefix: string, g: Segment, tail: string): string
    requires g.Hole?
  {
    prefix + ("${" + Inside(g) + "}" + tail)
  }

  function Filling(g: Segment, secrets: map<string, string>): Option<string>
    requires g.Hole?
  {
    if g.key in secrets then Some(secrets[g.key])
    else if g.default.Some? && g.default.value != "" then g.default
    else None
  }

  lemma StepOnHole(prefix: string, g: Segment, tail: string, secrets: map<string, string>)
    requires '$' !in prefix && g.Hole? && Delimited(g)
    ensures Step(Open(prefix, g, tail), secrets) ==
      if Filling(g, secrets).Some? then Continue(prefix + Filling(g, secrets).value + tail) else Missing(g.key)
  {
    LocateHole(prefix, Inside(g), tail);
    SplitInside(g);
    ReplacesPlace(Open(prefix, g, tail), Put(Inside(g), secrets));
  }

  /** One call on the first hole of a text: the secret is put in its place, or a nonempty default, and the
      result is looked at again while it holds a `${`; without either the secret's name is reported. */
  lemma HoleIsFilled(before: string, key: string, default: Option<string>, behind: string, secrets: map<string, string>)
    requires '$' !in before && '$' !in key && '}' !in key && !Contains(key, ":-")
    requires default.Some? ==> '$' !in default.value && '}' !in default.value
    ensures var text := before + ("${" + key + (if default.Some? then ":-" + default.value else "") + "}" + behind);
      var o := Step(text, secrets);
      if key in secrets then FilledWith(o, before + secrets[key] + behind)
      else if default.Some? && default.value != "" then FilledWith(o, before + default.value + behind)
      else o == Missing(key)
  {
    IndexIsLeast(key, ":-");
    var g := Hole(key, default);
    assert "${" + Inside(g) + "}" == "${" + key + (if default.Some? then ":-" + default.value else "") + "}" by {
      if default.Some? {
        assert "${" + (key + ":-" + default.value) == "${" + key + (":-" + default.value);
      } else {
        assert key + "" == key && "${" + key + "" == "${" + key;
      }
    }
    StepOnHole(before, g, behind, secrets);
    if Filling(g, secrets).Some? {
      IndexIsLeast(before + Filling(g, secrets).value + behind, "${");
    }
  }

  /** The call's outcome is this text, to be resolved further while it holds a `${`. */
  ghost predicate FilledWith(o: Outcome, text: string) {
    o == if Contains(text, "${") then Again(text) else Done(text)
  }

  lemma DollarThere(s: string, i: nat)
    requires OccursAt(s, "${", i)
    ensures '$' in s
  {
    assert s[i] == s[i..i + 2][0];
  }

  lemma PlainDone(s: string, secrets: map<string, string>)
    requires Index(s, "${") == -1 || '$' !in s
    ensures Step(s, secrets) == Done(s)
  {
    IndexIsLeast(s, "${");
    var i := Index(s, "${");
    if i != -1 {
      DollarThere(s, i);
    }
  }

  /** What a step does where `$` and braces are only delimiters. */
  ghost predicate Obeys(step: string -> Outcome, secrets: map<string, string>) {
    && (forall s: string :: '$' !in s ==> step(s) == Done(s))
    && (forall prefix: string, g: Segment, tail: string :: '$' !in prefix && g.Hole? && Delimited(g) ==>
          var o := step(Open(prefix, g, tail));
          if Filling(g, secrets).None? then o == Missing(g.key)
          else
            var v := prefix + Filling(g, secrets).value + tail;
            o == Again(v) || (o == Done(v) && step(v) == Done(v)))
  }

  lemma FillingHarmless(prefix: string, g: Segment, secrets: map<string, string>)
    requires Harmless(secrets) && '$' !in prefix && g.Hole? && Delimited(g) && Filling(g, secrets).Some?
    ensures '$' !in prefix + Filling(g, secrets).value
  {
  }

  /** What the step does on an open hole, as one of three cases. */
  lemma HoleCases(step: string -> Outcome, prefix: string, g: Segment, tail: string, secrets: map<string, string>)
    requires Obeys(step, secrets) && '$' !in prefix && g.Hole? && Delimited(g)
    ensures var o := step(Open(prefix, g, tail));
      if Filling(g, secrets).None? then o == Missing(g.key)
      else
        var v := prefix + Filling(g, secrets).value + tail;
        o == Again(v) || (o == Done(v) && step(v) == Done(v))
  {
  }

  lemma {:induction false} IterateBehind(
    step: string -> Outcome, prefix: string, gs: seq<Segment>, secrets: map<string, string>, calls: nat)
    requires Obeys(step, secrets) && Harmless(secrets)
    requires '$' !in prefix && forall i :: 0 <= i < |gs| ==> Delimited(gs[i])
    requires Iterate(step, prefix + Print(gs), calls).Some?
    ensures Iterate(step, prefix + Print(gs), calls).value == Prepend(prefix, Expand(gs, secrets))
    decreases |gs|
  {
    var value := prefix + Print(gs);
    if gs == [] {
      assert value == prefix && prefix + "" == prefix;
    } else if gs[0].Plain? {
      var t := gs[0].text;
      assert value == prefix + t + Print(gs[1..]);
      IterateBehind(step, prefix + t, gs[1..], secrets, calls);
      Regroup(prefix, t, Expand(gs[1..], secrets));
    } else {
      IterateHole(step, prefix, gs, secrets, calls);
    }
  }

  lemma {:induction false} IterateHole(
    step: string -> Outcome, prefix: string, gs: seq<Segment>, secrets: map<string, string>, calls: nat)
    requires Obeys(step, secrets) && Harmless(secrets) && gs != [] && gs[0].Hole?
    requires '$' !in prefix && forall i :: 0 <= i < |gs| ==> Delimited(gs[i])
    requires Iterate(step, prefix + Print(gs), calls).Some?
    ensures Iterate(step, prefix + Print(gs), calls).value == Prepend(prefix, Expand(gs, secrets))
    decreases |gs|, 0
  {
    var g, tail := gs[0], Print(gs[1..]);
    assert prefix + Print(gs) == Open(prefix, g, tail);
    HoleCases(step, prefix, g, tail, secrets);
    if Filling(g, secrets).Some? {
      var put := Filling(g, secrets).value;
      FillingHarmless(prefix, g, secrets);
      var left := if step(Open(prefix, g, tail)).Again? then calls - 1 else 1;
      IterateBehind(step, prefix + put, gs[1..], secrets, left);
      Regroup(prefix, put, Expand(gs[1..], secrets));
    }
  }

  lemma IterateIsOnePass(step: string -> Outcome, gs: seq<Segment>, secrets: map<string, string>, calls: nat)
    requires Obeys(step, secrets) && Harmless(secrets) && forall i :: 0 <= i < |gs| ==> Delimited(gs[i])
    requires Iterate(step, Print(gs), calls).Some?
    ensures Iterate(step, Print(gs), calls) == Some(Expand(gs, secrets))
  {
    hide Obeys, Harmless;
    assert "" + Print(gs) == Print(gs);
    IterateBehind(step, "", gs, secrets, calls);
    var r := Expand(gs, secrets);
    assert r.Ok? ==> "" + r.value == r.value;
  }

  lemma Regroup(a: string, b: string, r: Result)
    ensures Prepend(a + b, r) == Prepend(a, Prepend(b, r))
  {
    if r.Ok? {
      assert a + b + r.value == a + (b + r.value);
    }
  }

  lemma StepObeys(secrets: map<string, string>)
    ensures Obeys(StepWith(secrets), secrets)
  {
    var step := StepWith(secrets);
    forall s: string | '$' !in s ensures step(s) == Done(s) {
      PlainDone(s, secrets);
    }
    forall prefix: string, g: Segment, tail: string | '$' !in prefix && g.Hole? && Delimited(g)
      ensures var o := step(Open(prefix, g, tail));
        if Filling(g, secrets).None? then o == Missing(g.key)
        else
          var v := prefix + Filling(g, secrets).value + tail;
          o == Again(v) || (o == Done(v) && step(v) == Done(v))
    {
      StepOnHole(prefix, g, tail, secrets);
      if Filling(g, secrets).Some? {
        var v := prefix + Filling(g, secrets).value + tail;
        if Continue(v).Done? {
          PlainDone(v, secrets);
        }
      }
    }
  }

  lemma ResolveExpands(gs: seq<Segment>, secrets: map<string, string>, calls: nat)
    requires Harmless(secrets) && forall i :: 0 <= i < |gs| ==> Delimited(gs[i])
    requires Iterate(StepWith(secrets), Print(gs), calls).Some?
    ensures Iterate(StepWith(secrets), Print(gs), calls) == Some(Expand(gs, secrets))
  {
    StepObeys(secrets);
    IterateIsOnePass(StepWith(secrets), gs, secrets, calls);
  }

  /** Where `$` and braces are only delimiters, the repeated rewriting of the whole string is
      one left-to-right expansion, failing on the first hole that has neither secret nor default. */
  lemma ResolveIsOnePass(gs: seq<Segment>, secrets: map<string, string>, calls: nat)
    requires Harmless(secrets) && calls > Dollars(Print(gs))
    requires forall i :: 0 <= i < |gs| ==> Delimited(gs[i])
    ensures Resolve(Print(gs), secrets, calls) == Some(Expand(gs, secrets))
  {
    Terminates(Print(gs), secrets, calls);
    ResolveExpands(gs, secrets, calls);
  }
}
