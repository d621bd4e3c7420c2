/** Merging, validating and swapping configuration snapshots
    (internal/config/manager.go, internal/config/base/functions.go). */
module ConfigReload {
  import opened Options

  type Layer = map<string, string>

  // ---- Merge ----

  /** A key is set exactly when some layer sets it, to what the last such layer says. */
  ghost predicate IsMerge(out: Layer, layers: seq<Layer>) {
    && (forall k :: k in out <==> exists i :: 0 <= i < |layers| && k in layers[i])
    && (forall k, i :: 0 <= i < |layers| && k in layers[i] && (forall j :: i < j < |layers| ==> k !in layers[j]) ==>
      k in out && out[k] == layers[i][k])
  }

  method Merge(layers: seq<Layer>) returns (out: Layer)
    ensures IsMerge(out, layers)
  {
    out := map[];
    var n := 0;
    while n < |layers|
      invariant 0 <= n <= |layers|
      invariant IsMerge(out, layers[..n])
    {
      MergeOne(out, layers[..n], layers[n]);
      assert layers[..n + 1] == layers[..n] + [layers[n]];
      out := out + layers[n];
      n := n + 1;
    }
    assert layers[..n] == layers;
  }

  /** A further layer overrides. */
  lemma MergeOne(out: Layer, layers: seq<Layer>, layer: Layer)
    requires IsMerge(out, layers)
    ensures IsMerge(out + layer, layers + [layer])
  {
    var all := layers + [layer];
    forall k ensures k in out + layer <==> exists i :: 0 <= i < |all| && k in all[i] {
      if k in layer {
        assert k in all[|layers|];
      } else if k in out {
        var i :| 0 <= i < |layers| && k in layers[i];
        assert k in all[i];
      }
    }
    forall k, i | 0 <= i < |all| && k in all[i] && (forall j :: i < j < |all| ==> k !in all[j])
      ensures k in out + layer && (out + layer)[k] == all[i][k]
    {
      if i < |layers| {
        assert k !in all[|layers|];
        assert forall j :: i < j < |layers| ==> layers[j] == all[j];
        assert k in layers[i];
      }
    }
  }

  lemma {:induction false} LastSetter(layers: seq<Layer>, k: string) returns (i: nat)
    requires exists j :: 0 <= j < |layers| && k in layers[j]
    ensures i < |layers| && k in layers[i] && forall j :: i < j < |layers| ==> k !in layers[j]
  {
    i := |layers| - 1;
    if k !in layers[i] {
      var j :| 0 <= j < |layers| && k in layers[j];
      assert k in layers[..i][j];
      i := LastSetter(layers[..i], k);
    }
  }

  lemma MergeHas(out: Layer, layers: seq<Layer>, k: string)
    requires IsMerge(out, layers)
    ensures k in out <==> exists i :: 0 <= i < |layers| && k in layers[i]
  {
  }

  lemma LastWins(out: Layer, layers: seq<Layer>, k: string, i: nat)
    requires IsMerge(out, layers) && i < |layers| && k in layers[i]
    requires forall j :: i < j < |layers| ==> k !in layers[j]
    ensures k in out && out[k] == layers[i][k]
  {
  }

  /** The last-layer-wins rule leaves no choice. */
  lemma MergeIsUnique(a: Layer, b: Layer, layers: seq<Layer>)
    requires IsMerge(a, layers) && IsMerge(b, layers)
    ensures a == b
  {
    hide IsMerge;
    forall k ensures k in a <==> k in b {
      MergeHas(a, layers, k);
      MergeHas(b, layers, k);
    }
    assert a.Keys == b.Keys;
    forall k | k in a ensures a[k] == b[k] {
      MergeHas(a, layers, k);
      var i := LastSetter(layers, k);
      LastWins(a, layers, k, i);
      LastWins(b, layers, k, i);
    }
  }

  /** The merge as a fold of overrides. */
  function Merged(layers: seq<Layer>): Layer {
    if layers == [] then map[] else Merged(layers[..|layers| - 1]) + layers[|layers| - 1]
  }

  lemma {:induction false} MergedIsMerge(layers: seq<Layer>)
    ensures IsMerge(Merged(layers), layers)
  {
    if layers != [] {
      var n := |layers| - 1;
      MergedIsMerge(layers[..n]);
      MergeOne(Merged(layers[..n]), layers[..n], layers[n]);
      assert layers == layers[..n] + [layers[n]];
    }
  }

  // ---- AllUnique ----

  predicate AllDistinct<T(==)>(vals: seq<T>) { forall i, j :: 0 <= i < j < |vals| ==> vals[i] != vals[j] }

  /** Reports the first index whose value was seen before, with the index it was seen at. */
  method AllUnique<T(==)>(vals: seq<T>) returns (collision: Option<(nat, nat)>)
    ensures collision.None? <==> AllDistinct(vals)
    ensures collision.Some? ==>
      var (prevIdx, i) := collision.value;
      prevIdx < i < |vals| && vals[prevIdx] == vals[i] && AllDistinct(vals[..i])
  {
    var seen: map<T, nat> := map[];
    var i := 0;
    while i < |vals|
      invariant 0 <= i <= |vals|
      invariant forall j :: 0 <= j < i ==> vals[j] in seen && seen[vals[j]] == j
      invariant forall v :: v in seen ==> seen[v] < i && vals[seen[v]] == v
      invariant AllDistinct(vals[..i])
    {
      var val := vals[i];
      if val in seen {
        return Some((seen[val], i));
      }
      seen := seen[val := i];
      i := i + 1;
    }
    assert vals[..i] == vals;
    return None;
  }

  // ---- Validation ----

  /** The fields that the cross-section checks read; the sections as a whole stay abstract. */
  datatype Snapshot = Snapshot(
    sections: Layer, httpPort: int, grpcPort: int, metricsPort: int,
    metricsPath: string, healthPath: string, swaggerPath: string, enableSwagger: bool)

  /** The section decoders and section validators, whose code is not modelled. */
  datatype Sections = Sections(decode: Layer -> Option<Snapshot>, valid: Snapshot -> bool)

  predicate Consistent(s: Snapshot) {
    && s.httpPort != s.grpcPort && s.httpPort != s.metricsPort && s.grpcPort != s.metricsPort
    && s.metricsPath != s.healthPath
    && (s.enableSwagger ==> s.swaggerPath != s.metricsPath && s.swaggerPath != s.healthPath)
  }

  method ValidateAll(s: Snapshot, sections: Sections) returns (ok: bool)
    ensures ok <==> sections.valid(s) && Consistent(s)
  {
    ok := sections.valid(s);
    var ports := [s.httpPort, s.grpcPort, s.metricsPort];
    var portCollision := AllUnique(ports);
    ThreeDistinct(s.httpPort, s.grpcPort, s.metricsPort);
    if portCollision.Some? {
      ok := false;
    }
    var paths := [s.metricsPath, s.healthPath];
    if s.enableSwagger {
      paths := paths + [s.swaggerPath];
      assert paths == [s.metricsPath, s.healthPath, s.swaggerPath];
      ThreeDistinct(s.metricsPath, s.healthPath, s.swaggerPath);
    } else {
      assert AllDistinct(paths) <==> paths[0] != paths[1];
    }
    var pathCollision := AllUnique(paths);
    if pathCollision.Some? {
      ok := false;
    }
  }

  lemma ThreeDistinct<T>(a: T, b: T, c: T)
    ensures AllDistinct([a, b, c]) <==> a != b && a != c && b != c
  {
    var s := [a, b, c];
    if AllDistinct(s) {
      assert s[0] != s[1] && s[0] != s[2] && s[1] != s[2];
    }
  }

  // ---- Reload ----

  type FP = bv64

  type Hasher = Layer -> FP

  /** What the providers answer, one load after the other. */
  type Loads = seq<Option<Layer>>

  predicate AllLoaded(loads: Loads) { forall i :: 0 <= i < |loads| ==> loads[i].Some? }

  function Layers(loads: Loads): seq<Layer>
    requires AllLoaded(loads)
  {
    seq(|loads|, i requires 0 <= i < |loads| => loads[i].value)
  }

  method FetchLayers(loads: Loads) returns (r: Option<seq<Layer>>)
    ensures r == if AllLoaded(loads) then Some(Layers(loads)) else None
  {
    var out: seq<Layer> := [];
    var i := 0;
    while i < |loads|
      invariant 0 <= i <= |loads| && |out| == i
      invariant forall j :: 0 <= j < i ==> loads[j].Some? && out[j] == loads[j].value
    {
      match loads[i]
      case None =>
        return None;
      case Some(kv) =>
        out := out + [kv];
        i := i + 1;
    }
    assert out == Layers(loads);
    return Some(out);
  }

  datatype Plan = Failed | Unchanged | Replace(snapshot: Snapshot, fp: FP)

  /** What a merged configuration leads to. */
  function Planned(merged: Layer, prev: FP, hash: Hasher, sections: Sections): Plan {
    if hash(merged) == prev && prev != 0 then Unchanged
    else match sections.decode(merged)
      case None => Failed
      case Some(s) => if sections.valid(s) && Consistent(s) then Replace(s, hash(merged)) else Failed
  }

  method CreatePlan(layers: seq<Layer>, prev: FP, hash: Hasher, sections: Sections) returns (plan: Plan)
    ensures plan == Planned(Merged(layers), prev, hash, sections)
  {
    var merged := Merge(layers);
    MergedIsMerge(layers);
    MergeIsUnique(merged, Merged(layers), layers);
    var fp := hash(merged);
    if fp == prev && prev != 0 {
      return Unchanged;
    }
    var decoded := sections.decode(merged);
    if decoded.None? {
      return Failed;
    }
    var ok := ValidateAll(decoded.value, sections);
    if !ok {
      return Failed;
    }
    return Replace(decoded.value, fp);
  }

  /** One call of Reload: what the providers say and the hash its Fingerprint call uses. */
  datatype Call = Call(loads: Loads, hash: Hasher) {
    function Config(): Layer
      requires AllLoaded(loads)
    {
      Merged(Layers(loads))
    }
  }

  /** The manager's published state, and the broadcasts it has issued, each with the snapshot before and
      after; when they are handled is the matter of Delivery. */
  datatype State = State(ptr: Option<Snapshot>, lastFP: FP, broadcasts: seq<(Snapshot, Snapshot)>)

  function Init(): State { State(None, 0, []) }

  /** A reload replaces the snapshot or changes nothing. */
  ghost predicate Reloaded(s: State, t: State, c: Call, sections: Sections, ok: bool) {
    if !AllLoaded(c.loads) then !ok && t == s
    else match Planned(c.Config(), s.lastFP, c.hash, sections)
      case Failed => !ok && t == s
      case Unchanged => ok && t == s
      case Replace(snapshot, fp) =>
        && ok
        && t == State(Some(snapshot), fp, s.broadcasts + if s.ptr.Some? then [(s.ptr.value, snapshot)] else [])
  }

  class Manager {
    const sections: Sections
    var ptr: Option<Snapshot>
    var lastFP: FP
    ghost var broadcasts: seq<(Snapshot, Snapshot)>

    ghost function Published(): State
      reads this
    {
      State(ptr, lastFP, broadcasts)
    }

    constructor (sections: Sections)
      ensures this.sections == sections && Published() == Init()
    {
      this.sections := sections;
      ptr, lastFP, broadcasts := None, 0, [];
    }

    method Reload(c: Call) returns (ok: bool)
      modifies this
      ensures Reloaded(old(Published()), Published(), c, sections, ok)
    {
      var layers := FetchLayers(c.loads);
      if layers.None? {
        return false;
      }
      var plan := CreatePlan(layers.value, lastFP, c.hash, sections);
      match plan
      case Failed =>
        ok := false;
      case Unchanged =>
        ok := true;
      case Replace(snapshot, fp) =>
        var previous := ptr;
        ptr := Some(snapshot);
        lastFP := fp;
        if previous.Some? {
          broadcasts := broadcasts + [(previous.value, snapshot)];
        }
        ok := true;
    }
  }

  // ---- Whole runs ----

  ghost predicate Trace(ws: seq<State>, cs: seq<Call>, oks: seq<bool>, sections: Sections) {
    && |ws| == |cs| + 1 && |oks| == |cs|
    && ws[0] == Init()
    && forall i {:trigger cs[i]} :: 0 <= i < |cs| ==> Reloaded(ws[i], ws[i + 1], cs[i], sections, oks[i])
  }

  /** Call `i` loaded a configuration that decodes to the valid snapshot `s`. */
  ghost predicate Justifies(cs: seq<Call>, i: nat, s: Snapshot, sections: Sections) {
    && i < |cs| && AllLoaded(cs[i].loads)
    && sections.decode(cs[i].Config()) == Some(s) && sections.valid(s) && Consistent(s)
  }

  /** A snapshot is published only when some reload before justified it, and only then with that
      reload's fingerprint. */
  lemma {:induction false} PublishedIsJustified(
    ws: seq<State>, cs: seq<Call>, oks: seq<bool>, sections: Sections, n: nat)
    requires Trace(ws, cs, oks, sections) && n <= |cs|
    ensures ws[n].ptr.None? ==> ws[n] == Init()
    ensures ws[n].ptr.Some? ==>
      exists i: nat ::
        i < n && Justifies(cs, i, ws[n].ptr.value, sections) && ws[n].lastFP == cs[i].hash(cs[i].Config())
  {
    if n > 0 {
      PublishedIsJustified(ws, cs, oks, sections, n - 1);
      var c := cs[n - 1];
      if ws[n] != ws[n - 1] {
        assert Justifies(cs, n - 1, ws[n].ptr.value, sections);
      }
    }
  }

  /** Broadcasts are issued as one unbroken chain of snapshots that ends with the published one. */
  ghost predicate Chained(s: State) {
    && (s.broadcasts != [] ==> s.ptr == Some(s.broadcasts[|s.broadcasts| - 1].1))
    && forall i {:trigger s.broadcasts[i]} :: 0 < i < |s.broadcasts| ==> s.broadcasts[i - 1].1 == s.broadcasts[i].0
  }

  lemma {:induction false} BroadcastsChain(
    ws: seq<State>, cs: seq<Call>, oks: seq<bool>, sections: Sections, n: nat)
    requires Trace(ws, cs, oks, sections) && n <= |cs|
    ensures Chained(ws[n])
  {
    if n > 0 {
      BroadcastsChain(ws, cs, oks, sections, n - 1);
      var c := cs[n - 1];
    }
  }

  /** No two calls give different configurations the same fingerprint. */
  ghost predicate NoCollision(cs: seq<Call>, n: nat)
    requires n <= |cs|
  {
    forall i, j | 0 <= i < j < n && AllLoaded(cs[i].loads) && AllLoaded(cs[j].loads) ::
      cs[i].hash(cs[i].Config()) == cs[j].hash(cs[j].Config()) ==> cs[i].Config() == cs[j].Config()
  }

  /** Short of a fingerprint collision, a reload that reports no error leaves published exactly
      what its own providers said, whether it was elided or not. */
  lemma SuccessfulReloadIsCurrent(
    ws: seq<State>, cs: seq<Call>, oks: seq<bool>, sections: Sections, n: nat)
    requires Trace(ws, cs, oks, sections) && n < |cs| && NoCollision(cs, n + 1) && oks[n]
    ensures AllLoaded(cs[n].loads) && ws[n + 1].ptr.Some? && ws[n + 1].ptr == sections.decode(cs[n].Config())
  {
    PublishedIsJustified(ws, cs, oks, sections, n);
    var c := cs[n];
    if ws[n + 1] == ws[n] && Planned(c.Config(), ws[n].lastFP, c.hash, sections).Unchanged? {
      var i: nat :| i < n && Justifies(cs, i, ws[n].ptr.value, sections) && ws[n].lastFP == cs[i].hash(cs[i].Config());
      assert cs[i].Config() == c.Config();
    }
  }

  // ---- What one reload of a run does ----

  /** A provider that cannot be loaded fails the reload and changes nothing. */
  lemma MissingLayerFails(ws: seq<State>, cs: seq<Call>, oks: seq<bool>, sections: Sections, n: nat, i: nat)
    requires Trace(ws, cs, oks, sections) && n < |cs| && i < |cs[n].loads| && cs[n].loads[i].None?
    ensures !oks[n] && ws[n + 1] == ws[n]
  {
    assert Reloaded(ws[n], ws[n + 1], cs[n], sections, oks[n]);
  }

  /** With all layers there, merged into `merged`: the reload succeeds exactly when the fingerprint is
      the last one, and not zero, or the merge decodes to a valid snapshot whose three ports differ and
      whose paths differ.  A different fingerprint and such a snapshot replace what is published, and
      a subscriber hears of it if something was published before; nothing else changes anything. */
  lemma ReloadSucceedsIff(
    ws: seq<State>, cs: seq<Call>, oks: seq<bool>, sections: Sections, n: nat, layers: seq<Layer>, merged: Layer)
    requires Trace(ws, cs, oks, sections) && n < |cs|
    requires |layers| == |cs[n].loads| && forall i :: 0 <= i < |layers| ==> cs[n].loads[i] == Some(layers[i])
    requires IsMerge(merged, layers)
    ensures var s, t, fp := ws[n], ws[n + 1], cs[n].hash(merged);
      var elided := fp == s.lastFP && fp != 0;
      match sections.decode(merged)
      case None => (oks[n] <==> elided) && t == s
      case Some(x) =>
        var good := sections.valid(x)
          && x.httpPort != x.grpcPort && x.grpcPort != x.metricsPort && x.metricsPort != x.httpPort
          && x.metricsPath != x.healthPath
          && (x.enableSwagger ==> x.swaggerPath != x.metricsPath && x.swaggerPath != x.healthPath);
        && (oks[n] <==> elided || good)
        && t == if elided || !good then s
           else State(Some(x), fp, if s.ptr.Some? then s.broadcasts + [(s.ptr.value, x)] else s.broadcasts)
  {
    var c := cs[n];
    assert Reloaded(ws[n], ws[n + 1], c, sections, oks[n]);
    assert Layers(c.loads) == layers;
    MergedIsMerge(layers);
    MergeIsUnique(merged, Merged(layers), layers);
    assert ws[n].broadcasts + [] == ws[n].broadcasts;
  }
}
