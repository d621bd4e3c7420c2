/** The pooled, unrolled trace validator of internal/validation/schema.go. */
module SpanValidator {
  import opened FastHash
  import opened Options

  const MAX_ATTRIBUTE_KEY_LENGTH := 256
  const MAX_ATTRIBUTE_VALUE_LENGTH := 4096
  const MAX_ATTRIBUTES_PER_SPAN := 128

  // ---- Requests ----

  datatype AnyValue = StringValue(s: string) | BytesValue(b: Bytes) | OtherValue

  datatype Attribute = Attribute(key: string, value: Option<AnyValue>)

  datatype Span = Span(traceId: Bytes, spanId: Bytes, startTime: nat, attributes: seq<Option<Attribute>>)

  datatype ScopeSpans = ScopeSpans(spans: seq<Option<Span>>)

  datatype ResourceSpans = ResourceSpans(scopeSpans: seq<Option<ScopeSpans>>)

  datatype TracesData = TracesData(resourceSpans: seq<Option<ResourceSpans>>)

  datatype Error =
    | DataNil | ResourceNil | ScopeNil | TooManySpans
    | SpanNil | TraceIDEmpty | SpanIDEmpty | DuplicateSpanID | BadStart
    | TooManyAttributes | AttributeNil | AttributeKeyLong | StringTooLong | BytesTooLong

  // ---- The plain left-to-right scan ----

  function ValueError(v: AnyValue): Option<Error> {
    match v
    case StringValue(s) => if |s| > MAX_ATTRIBUTE_VALUE_LENGTH then Some(StringTooLong) else None
    case BytesValue(b) => if |b| > MAX_ATTRIBUTE_VALUE_LENGTH then Some(BytesTooLong) else None
    case OtherValue => None
  }

  function AttributeError(strict: bool, a: Option<Attribute>): Option<Error> {
    if a.None? then Some(AttributeNil)
    else if |a.value.key| == 0 || |a.value.key| > MAX_ATTRIBUTE_KEY_LENGTH then Some(AttributeKeyLong)
    else if strict && a.value.value.Some? then ValueError(a.value.value.value)
    else None
  }

  function AttributesError(strict: bool, attributes: seq<Option<Attribute>>): Option<Error> {
    if attributes == [] then None
    else
      var e := AttributeError(strict, attributes[0]);
      if e.Some? then e else AttributesError(strict, attributes[1..])
  }

  /** The first error, if any, and the span ID hashes seen so far. */
  datatype Scan = Scan(error: Option<Error>, seen: set<bv64>)

  function ScanSpan(strict: bool, span: Option<Span>, seen: set<bv64>): Scan {
    if span.None? then Scan(Some(SpanNil), seen)
    else
      var s := span.value;
      if s.traceId == [] then Scan(Some(TraceIDEmpty), seen)
      else if s.spanId == [] then Scan(Some(SpanIDEmpty), seen)
      else if Hash(s.spanId) in seen then Scan(Some(DuplicateSpanID), seen)
      else
        var now := seen + {Hash(s.spanId)};
        if s.startTime == 0 then Scan(Some(BadStart), now)
        else if |s.attributes| > MAX_ATTRIBUTES_PER_SPAN then Scan(Some(TooManyAttributes), now)
        else Scan(AttributesError(strict, s.attributes), now)
  }

  function ScanSpans(strict: bool, spans: seq<Option<Span>>, seen: set<bv64>): Scan {
    if spans == [] then Scan(None, seen)
    else
      var r := ScanSpan(strict, spans[0], seen);
      if r.error.Some? then r else ScanSpans(strict, spans[1..], r.seen)
  }

  function ScanScope(strict: bool, scope: Option<ScopeSpans>, seen: set<bv64>): Scan {
    if scope.None? then Scan(Some(ScopeNil), seen)
    else if |scope.value.spans| > MAX_ATTRIBUTES_PER_SPAN then Scan(Some(TooManySpans), seen)
    else ScanSpans(strict, scope.value.spans, seen)
  }

  function ScanScopes(strict: bool, scopes: seq<Option<ScopeSpans>>, seen: set<bv64>): Scan {
    if scopes == [] then Scan(None, seen)
    else
      var r := ScanScope(strict, scopes[0], seen);
      if r.error.Some? then r else ScanScopes(strict, scopes[1..], r.seen)
  }

  function ScanResource(strict: bool, r: Option<ResourceSpans>, seen: set<bv64>): Scan {
    if r.None? then Scan(Some(ResourceNil), seen) else ScanScopes(strict, r.value.scopeSpans, seen)
  }

  function ScanResources(strict: bool, rs: seq<Option<ResourceSpans>>, seen: set<bv64>): Scan {
    if rs == [] then Scan(None, seen)
    else
      var r := ScanResource(strict, rs[0], seen);
      if r.error.Some? then r else ScanResources(strict, rs[1..], r.seen)
  }

  lemma NoSpansLeft(strict: bool, spans: seq<Option<Span>>, seen: set<bv64>)
    ensures ScanSpans(strict, spans[|spans|..], seen) == Scan(None, seen)
  {
  }

  lemma ScopesFrom(strict: bool, scopes: seq<Option<ScopeSpans>>, j: nat, seen: set<bv64>)
    requires j <= |scopes|
    ensures ScanScopes(strict, scopes[j..], seen) ==
      if j == |scopes| then Scan(None, seen)
      else
        var r := ScanScope(strict, scopes[j], seen);
        if r.error.Some? then r else ScanScopes(strict, scopes[j + 1..], r.seen)
  {
    hide ScanScope;
    if j < |scopes| {
      assert scopes[j..][1..] == scopes[j + 1..];
    }
  }

  lemma ResourcesFrom(strict: bool, rs: seq<Option<ResourceSpans>>, i: nat, seen: set<bv64>)
    requires i <= |rs|
    ensures ScanResources(strict, rs[i..], seen) ==
      if i == |rs| then Scan(None, seen)
      else
        var r := ScanResource(strict, rs[i], seen);
        if r.error.Some? then r else ScanResources(strict, rs[i + 1..], r.seen)
  {
    hide ScanResource;
    if i < |rs| {
      assert rs[i..][1..] == rs[i + 1..];
    }
  }

  function FirstError(strict: bool, data: Option<TracesData>): Option<Error> {
    if data.None? then Some(DataNil) else ScanResources(strict, data.value.resourceSpans, {}).error
  }

  // ---- What acceptance means ----

  function Size(v: AnyValue): nat {
    match v
    case StringValue(s) => |s|
    case BytesValue(b) => |b|
    case OtherValue => 0
  }

  predicate AttributeOk(strict: bool, a: Option<Attribute>) {
    && a.Some? && 1 <= |a.value.key| <= 256
    && (strict && a.value.value.Some? ==> Size(a.value.value.value) <= 4096)
  }

  predicate SpanOk(strict: bool, span: Option<Span>) {
    && span.Some? && span.value.traceId != [] && span.value.spanId != [] && span.value.startTime != 0
    && |span.value.attributes| <= 128
    && forall i :: 0 <= i < |span.value.attributes| ==> AttributeOk(strict, span.value.attributes[i])
  }

  predicate SpansOk(strict: bool, spans: seq<Option<Span>>) {
    forall i :: 0 <= i < |spans| ==> SpanOk(strict, spans[i])
  }

  predicate ScopeOk(strict: bool, scope: Option<ScopeSpans>) {
    scope.Some? && |scope.value.spans| <= 128 && SpansOk(strict, scope.value.spans)
  }

  predicate ScopesOk(strict: bool, scopes: seq<Option<ScopeSpans>>) {
    forall i :: 0 <= i < |scopes| ==> ScopeOk(strict, scopes[i])
  }

  predicate ResourceOk(strict: bool, r: Option<ResourceSpans>) {
    r.Some? && ScopesOk(strict, r.value.scopeSpans)
  }

  predicate ResourcesOk(strict: bool, rs: seq<Option<ResourceSpans>>) {
    forall i :: 0 <= i < |rs| ==> ResourceOk(strict, rs[i])
  }

  predicate DataOk(strict: bool, d: TracesData) { ResourcesOk(strict, d.resourceSpans) }

  /** All span IDs of a request, across resources and scopes, in order. */
  function SpanIDs(spans: seq<Option<Span>>): seq<Bytes> {
    if spans == [] then [] else (if spans[0].Some? then [spans[0].value.spanId] else []) + SpanIDs(spans[1..])
  }

  function ScopeIDs(scopes: seq<Option<ScopeSpans>>): seq<Bytes> {
    if scopes == [] then []
    else (if scopes[0].Some? then SpanIDs(scopes[0].value.spans) else []) + ScopeIDs(scopes[1..])
  }

  function ResourceIDs(rs: seq<Option<ResourceSpans>>): seq<Bytes> {
    if rs == [] then [] else (if rs[0].Some? then ScopeIDs(rs[0].value.scopeSpans) else []) + ResourceIDs(rs[1..])
  }

  /** The hashes of `ids` are new and pairwise different. */
  predicate Unseen(ids: seq<Bytes>, seen: set<bv64>) {
    ids == [] || (Hash(ids[0]) !in seen && Unseen(ids[1..], seen + {Hash(ids[0])}))
  }

  function With(ids: seq<Bytes>, seen: set<bv64>): set<bv64> {
    seen + set id | id in ids :: Hash(id)
  }

  lemma {:induction false} UnseenAppend(a: seq<Bytes>, b: seq<Bytes>, seen: set<bv64>)
    ensures Unseen(a + b, seen) <==> Unseen(a, seen) && Unseen(b, With(a, seen))
  {
    if a == [] {
      assert a + b == b && With(a, seen) == seen;
    } else {
      assert (a + b)[1..] == a[1..] + b;
      assert a == [a[0]] + a[1..];
      assert With(a, seen) == With(a[1..], seen + {Hash(a[0])});
      UnseenAppend(a[1..], b, seen + {Hash(a[0])});
    }
  }

  lemma WithAppend(a: seq<Bytes>, b: seq<Bytes>, seen: set<bv64>)
    ensures With(a + b, seen) == With(b, With(a, seen))
  {
  }

  lemma {:induction false} UnseenMeaning(ids: seq<Bytes>, seen: set<bv64>)
    ensures Unseen(ids, seen) <==>
      && (forall i :: 0 <= i < |ids| ==> Hash(ids[i]) !in seen)
      && (forall i, j :: 0 <= i < j < |ids| ==> Hash(ids[i]) != Hash(ids[j]))
  {
    if ids != [] {
      var rest := ids[1..];
      UnseenMeaning(rest, seen + {Hash(ids[0])});
      assert forall i :: 0 < i < |ids| ==> ids[i] == rest[i - 1];
      assert forall i :: 0 <= i < |rest| ==> rest[i] == ids[i + 1];
    }
  }

  lemma {:induction false} AttributesMeaning(strict: bool, attributes: seq<Option<Attribute>>)
    ensures AttributesError(strict, attributes).None? <==>
      forall i :: 0 <= i < |attributes| ==> AttributeOk(strict, attributes[i])
  {
    if attributes != [] {
      AttributesMeaning(strict, attributes[1..]);
      assert forall i :: 0 < i < |attributes| ==> attributes[i] == attributes[1..][i - 1];
    }
  }

  lemma SpanMeaning(strict: bool, span: Option<Span>, seen: set<bv64>)
    ensures var r := ScanSpan(strict, span, seen);
      && (r.error.None? <==> SpanOk(strict, span) && Hash(span.value.spanId) !in seen)
      && (r.error.None? ==> r.seen == seen + {Hash(span.value.spanId)})
  {
    if span.Some? {
      AttributesMeaning(strict, span.value.attributes);
    }
  }

  lemma FirstSpan(strict: bool, spans: seq<Option<Span>>)
    requires spans != []
    ensures SpansOk(strict, spans) <==> SpanOk(strict, spans[0]) && SpansOk(strict, spans[1..])
  {
    hide SpanOk;
    assert forall i :: 0 < i < |spans| ==> spans[i] == spans[1..][i - 1];
  }

  lemma FirstScope(strict: bool, scopes: seq<Option<ScopeSpans>>)
    requires scopes != []
    ensures ScopesOk(strict, scopes) <==> ScopeOk(strict, scopes[0]) && ScopesOk(strict, scopes[1..])
  {
    hide ScopeOk;
    assert forall i :: 0 < i < |scopes| ==> scopes[i] == scopes[1..][i - 1];
  }

  lemma FirstResource(strict: bool, rs: seq<Option<ResourceSpans>>)
    requires rs != []
    ensures ResourcesOk(strict, rs) <==> ResourceOk(strict, rs[0]) && ResourcesOk(strict, rs[1..])
  {
    hide ResourceOk;
    assert forall i :: 0 < i < |rs| ==> rs[i] == rs[1..][i - 1];
  }

  lemma {:induction false} SpansMeaning(strict: bool, spans: seq<Option<Span>>, seen: set<bv64>)
    ensures ScanSpans(strict, spans, seen).error.None? <==> SpansOk(strict, spans) && Unseen(SpanIDs(spans), seen)
    ensures ScanSpans(strict, spans, seen).error.None? ==>
      ScanSpans(strict, spans, seen).seen == With(SpanIDs(spans), seen)
  {
    if spans != [] {
      hide ScanSpan, SpanOk, SpansOk;
      FirstSpan(strict, spans);
      SpanMeaning(strict, spans[0], seen);
      if spans[0].Some? {
        var id := spans[0].value.spanId;
        assert SpanIDs(spans) == [id] + SpanIDs(spans[1..]);
        WithAppend([id], SpanIDs(spans[1..]), seen);
        assert With([id], seen) == seen + {Hash(id)};
        SpansMeaning(strict, spans[1..], seen + {Hash(id)});
      }
    }
  }

  lemma ScopeMeaning(strict: bool, scope: Option<ScopeSpans>, seen: set<bv64>)
    requires scope.Some?
    ensures var r, ids := ScanScope(strict, scope, seen), SpanIDs(scope.value.spans);
      && (r.error.None? <==> ScopeOk(strict, scope) && Unseen(ids, seen))
      && (r.error.None? ==> r.seen == With(ids, seen))
  {
    hide SpansOk, Unseen, With, SpanIDs;
    SpansMeaning(strict, scope.value.spans, seen);
  }

  lemma {:induction false} ScopesMeaning(strict: bool, scopes: seq<Option<ScopeSpans>>, seen: set<bv64>)
    ensures ScanScopes(strict, scopes, seen).error.None? <==>
      ScopesOk(strict, scopes) && Unseen(ScopeIDs(scopes), seen)
    ensures ScanScopes(strict, scopes, seen).error.None? ==>
      ScanScopes(strict, scopes, seen).seen == With(ScopeIDs(scopes), seen)
  {
    if scopes != [] {
      hide SpansOk, ScopesOk, Unseen, With, SpanIDs;
      FirstScope(strict, scopes);
      if scopes[0].Some? {
        var first := SpanIDs(scopes[0].value.spans);
        ScopeMeaning(strict, scopes[0], seen);
        ScopesMeaning(strict, scopes[1..], With(first, seen));
        UnseenAppend(first, ScopeIDs(scopes[1..]), seen);
        WithAppend(first, ScopeIDs(scopes[1..]), seen);
      }
    }
  }

  lemma {:induction false} ResourcesMeaning(strict: bool, rs: seq<Option<ResourceSpans>>, seen: set<bv64>)
    ensures ScanResources(strict, rs, seen).error.None? <==>
      ResourcesOk(strict, rs) && Unseen(ResourceIDs(rs), seen)
  {
    if rs != [] {
      hide ScopesOk, ResourcesOk, Unseen, With, ScopeIDs, ScanScopes;
      FirstResource(strict, rs);
      if rs[0].Some? {
        var first := rs[0].value.scopeSpans;
        ScopesMeaning(strict, first, seen);
        ResourcesMeaning(strict, rs[1..], With(ScopeIDs(first), seen));
        UnseenAppend(ScopeIDs(first), ResourceIDs(rs[1..]), seen);
      }
    }
  }

  /** A request is accepted exactly when nothing in it is missing or malformed and the hashes
      of its span IDs differ across all scopes; then the span IDs themselves differ too. */
  lemma AcceptedIff(strict: bool, d: TracesData)
    ensures var ids := ResourceIDs(d.resourceSpans);
      && (FirstError(strict, Some(d)).None? <==>
            DataOk(strict, d) && forall i, j :: 0 <= i < j < |ids| ==> Hash(ids[i]) != Hash(ids[j]))
      && (FirstError(strict, Some(d)).None? ==> forall i, j :: 0 <= i < j < |ids| ==> ids[i] != ids[j])
  {
    hide ResourcesOk, ScanResources, Unseen;
    ResourcesMeaning(strict, d.resourceSpans, {});
    UnseenMeaning(ResourceIDs(d.resourceSpans), {});
  }

  /** With eight-byte span IDs the duplicate check is exact. */
  lemma EightByteIDsAcceptedIff(strict: bool, d: TracesData)
    requires forall i :: 0 <= i < |ResourceIDs(d.resourceSpans)| ==> |ResourceIDs(d.resourceSpans)[i]| == 8
    ensures var ids := ResourceIDs(d.resourceSpans);
      FirstError(strict, Some(d)).None? <==> DataOk(strict, d) && forall i, j :: 0 <= i < j < |ids| ==> ids[i] != ids[j]
  {
    AcceptedIff(strict, d);
    var ids := ResourceIDs(d.resourceSpans);
    forall i, j | 0 <= i < j < |ids| ensures Hash(ids[i]) != Hash(ids[j]) <==> ids[i] != ids[j] {
      EightByteHashesInjective(ids[i], ids[j]);
    }
  }

  /** With span IDs of at most two bytes it is exact as well. */
  lemma TwoByteIDsAcceptedIff(strict: bool, d: TracesData)
    requires forall i :: 0 <= i < |ResourceIDs(d.resourceSpans)| ==> 1 <= |ResourceIDs(d.resourceSpans)[i]| <= 2
    ensures var ids := ResourceIDs(d.resourceSpans);
      FirstError(strict, Some(d)).None? <==> DataOk(strict, d) && forall i, j :: 0 <= i < j < |ids| ==> ids[i] != ids[j]
  {
    hide FirstError, DataOk, ResourceIDs;
    AcceptedIff(strict, d);
    var ids := ResourceIDs(d.resourceSpans);
    forall i, j | 0 <= i < j < |ids| ensures Hash(ids[i]) != Hash(ids[j]) <==> ids[i] != ids[j] {
      TwoByteHashesInjective(ids[i], ids[j]);
    }
  }

  /** With span IDs of up to eight bytes the hashes, and with them acceptance, depend on nothing but
      the eight bytes each identifier stands for. */
  lemma ShortIDsAcceptedIff(strict: bool, d: TracesData)
    requires forall i :: 0 <= i < |ResourceIDs(d.resourceSpans)| ==> 1 <= |ResourceIDs(d.resourceSpans)[i]| <= 8
    ensures var ids := ResourceIDs(d.resourceSpans);
      FirstError(strict, Some(d)).None? <==>
        DataOk(strict, d) && forall i, j :: 0 <= i < j < |ids| ==> Canonical(ids[i]) != Canonical(ids[j])
  {
    AcceptedIff(strict, d);
    var ids := ResourceIDs(d.resourceSpans);
    forall i, j | 0 <= i < j < |ids| ensures Hash(ids[i]) != Hash(ids[j]) <==> Canonical(ids[i]) != Canonical(ids[j]) {
      CollideIff(ids[i], ids[j]);
    }
  }

  function TwoSpans(a: Bytes, b: Bytes): TracesData {
    var spans := [Some(Span([1], a, 1, [])), Some(Span([1], b, 1, []))];
    TracesData([Some(ResourceSpans([Some(ScopeSpans(spans))]))])
  }

  /** Two well-formed spans with different identifiers are refused as duplicates when one identifier
      stands for the other. */
  lemma FalseDuplicate(strict: bool, id: Bytes)
    requires 1 <= |id| < 8
    ensures DataOk(strict, TwoSpans(id, Partner(id))) && id != Partner(id)
    ensures FirstError(strict, Some(TwoSpans(id, Partner(id)))) == Some(DuplicateSpanID)
  {
    hide Hash, Partner;
    PartnerCollides(id);
    var other := Partner(id);
    var a, b := Some(Span([1], id, 1, [])), Some(Span([1], other, 1, []));
    var spans := [a, b];
    assert spans[1..] == [b];
    assert ScanSpan(strict, a, {}) == Scan(None, {Hash(id)});
    assert ScanSpan(strict, b, {Hash(id)}) == Scan(Some(DuplicateSpanID), {Hash(id)});
    assert ScanSpans(strict, [b], {Hash(id)}).error == Some(DuplicateSpanID);
    assert ScanSpans(strict, spans, {}).error == Some(DuplicateSpanID);
  }

  // ---- The validator ----

  class HotPathValidator {
    var spanIDSet: set<bv64>
    var traceIDSet: set<bv64>
    var spanCount: nat

    constructor () {
      spanIDSet, traceIDSet, spanCount := {}, {}, 0;
    }

    /** A pooled validator comes back with whatever its last user left in it. */
    method Reset()
      modifies this
      ensures spanIDSet == {} && traceIDSet == {} && spanCount == 0
    {
      spanIDSet, traceIDSet := {}, {};  // deletes every key
      spanCount := 0;
    }
  }

  class SchemaValidator {
    const enableStrict: bool

    constructor (enableStrict: bool)
      ensures this.enableStrict == enableStrict
    {
      this.enableStrict := enableStrict;
    }

    method ValidateAttributeValueFast(value: AnyValue) returns (error: Option<Error>)
      ensures error.None? <==> Size(value) <= MAX_ATTRIBUTE_VALUE_LENGTH
      ensures error == ValueError(value)
    {
      match value {
        case StringValue(s) =>
          if |s| > MAX_ATTRIBUTE_VALUE_LENGTH {
            return Some(StringTooLong);
          }
        case BytesValue(b) =>
          if |b| > MAX_ATTRIBUTE_VALUE_LENGTH {
            return Some(BytesTooLong);
          }
        case OtherValue =>
      }
      return None;
    }

    method ValidateAttributes(attributes: seq<Option<Attribute>>) returns (error: Option<Error>)
      ensures error == AttributesError(enableStrict, attributes)
    {
      for i := 0 to |attributes|
        invariant AttributesError(enableStrict, attributes) == AttributesError(enableStrict, attributes[i..])
      {
        assert attributes[i..][1..] == attributes[i + 1..];
        var attr := attributes[i];
        if attr.None? {
          return Some(AttributeNil);
        }
        if |attr.value.key| == 0 || |attr.value.key| > MAX_ATTRIBUTE_KEY_LENGTH {
          return Some(AttributeKeyLong);
        }
        if enableStrict && attr.value.value.Some? {
          error := ValidateAttributeValueFast(attr.value.value.value);
          if error.Some? {
            return;
          }
        }
      }
      return None;
    }

    method ValidateSpanInline(span: Option<Span>, v: HotPathValidator) returns (error: Option<Error>)
      modifies v
      ensures Scan(error, v.spanIDSet) == ScanSpan(enableStrict, span, old(v.spanIDSet))
    {
      if span.None? {
        return Some(SpanNil);
      }
      var s := span.value;
      if |s.traceId| == 0 {
        return Some(TraceIDEmpty);
      }
      if |s.spanId| == 0 {
        return Some(SpanIDEmpty);
      }
      var traceIDHash := FastHash64(s.traceId);
      var spanIDHash := FastHash64(s.spanId);
      if spanIDHash in v.spanIDSet {
        return Some(DuplicateSpanID);
      }
      v.spanIDSet := v.spanIDSet + {spanIDHash};
      v.traceIDSet := v.traceIDSet + {traceIDHash};
      if s.startTime == 0 {
        return Some(BadStart);
      }
      if |s.attributes| > MAX_ATTRIBUTES_PER_SPAN {
        return Some(TooManyAttributes);
      }
      error := ValidateAttributes(s.attributes);
    }

    /** One unrolled step: the scan from `i` on is this span's result or the scan behind it. */
    method ValidateNext(spans: seq<Option<Span>>, i: nat, v: HotPathValidator) returns (error: Option<Error>)
      requires i < |spans|
      modifies v
      ensures ScanSpans(enableStrict, spans[i..], old(v.spanIDSet)) ==
        if error.Some? then Scan(error, v.spanIDSet) else ScanSpans(enableStrict, spans[i + 1..], v.spanIDSet)
    {
      assert spans[i..][1..] == spans[i + 1..];
      error := ValidateSpanInline(spans[i], v);
    }

    /** One round of the unrolled loop. */
    method ValidateFour(spans: seq<Option<Span>>, i: nat, v: HotPathValidator) returns (error: Option<Error>)
      requires i + 4 <= |spans|
      modifies v
      ensures ScanSpans(enableStrict, spans[i..], old(v.spanIDSet)) ==
        if error.Some? then Scan(error, v.spanIDSet) else ScanSpans(enableStrict, spans[i + 4..], v.spanIDSet)
    {
      error := ValidateNext(spans, i, v);
      if error.Some? {
        return;
      }
      error := ValidateNext(spans, i + 1, v);
      if error.Some? {
        return;
      }
      error := ValidateNext(spans, i + 2, v);
      if error.Some? {
        return;
      }
      error := ValidateNext(spans, i + 3, v);
    }

    /** Four spans a round, then the rest one by one. */
    method ValidateSpansHotPath(spans: seq<Option<Span>>, v: HotPathValidator) returns (error: Option<Error>)
      modifies v
      ensures Scan(error, v.spanIDSet) == ScanScope(enableStrict, Some(ScopeSpans(spans)), old(v.spanIDSet))
    {
      hide ScanSpan, ScanSpans;
      v.spanCount := v.spanCount + |spans|;
      if |spans| > MAX_ATTRIBUTES_PER_SPAN {
        return Some(TooManySpans);
      }
      ghost var whole := ScanSpans(enableStrict, spans, v.spanIDSet);
      var i := 0;
      assert spans[0..] == spans;
      while i < |spans| - 3
        invariant 0 <= i <= |spans|
        invariant whole == ScanSpans(enableStrict, spans[i..], v.spanIDSet)
      {
        error := ValidateFour(spans, i, v);
        if error.Some? {
          return;
        }
        i := i + 4;
      }
      while i < |spans|
        invariant 0 <= i <= |spans|
        invariant whole == ScanSpans(enableStrict, spans[i..], v.spanIDSet)
      {
        error := ValidateNext(spans, i, v);
        if error.Some? {
          return;
        }
        i := i + 1;
      }
      NoSpansLeft(enableStrict, spans, v.spanIDSet);
      return None;
    }

    method ValidateScopes(scopes: seq<Option<ScopeSpans>>, v: HotPathValidator) returns (error: Option<Error>)
      modifies v
      ensures Scan(error, v.spanIDSet) == ScanScopes(enableStrict, scopes, old(v.spanIDSet))
    {
      hide ScanScopes, ScanSpans;
      var j := 0;
      assert scopes[0..] == scopes;
      ghost var whole := ScanScopes(enableStrict, scopes, v.spanIDSet);
      while j < |scopes|
        invariant 0 <= j <= |scopes|
        invariant whole == ScanScopes(enableStrict, scopes[j..], v.spanIDSet)
      {
        ScopesFrom(enableStrict, scopes, j, v.spanIDSet);
        if scopes[j].None? {
          return Some(ScopeNil);
        }
        error := ValidateSpansHotPath(scopes[j].value.spans, v);
        if error.Some? {
          return;
        }
        j := j + 1;
      }
      ScopesFrom(enableStrict, scopes, j, v.spanIDSet);
      return None;
    }

    /** `pooled` is any validator the pool hands out. */
    method ValidateTraceData(data: Option<TracesData>, pooled: HotPathValidator) returns (error: Option<Error>)
      modifies pooled
      ensures error == FirstError(enableStrict, data)
    {
      hide ScanResources, ScanScopes;
      if data.None? {
        return Some(DataNil);
      }
      pooled.Reset();
      var rs := data.value.resourceSpans;
      var i := 0;
      assert rs[0..] == rs;
      while i < |rs|
        invariant 0 <= i <= |rs|
        invariant ScanResources(enableStrict, rs, {}) == ScanResources(enableStrict, rs[i..], pooled.spanIDSet)
      {
        ResourcesFrom(enableStrict, rs, i, pooled.spanIDSet);
        if rs[i].None? {
          return Some(ResourceNil);
        }
        error := ValidateScopes(rs[i].value.scopeSpans, pooled);
        if error.Some? {
          return;
        }
        i := i + 1;
      }
      ResourcesFrom(enableStrict, rs, i, pooled.spanIDSet);
      return None;
    }
  }
}
