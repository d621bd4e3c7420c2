/** Which error the validator of internal/validation/schema.go returns: the one of the first test that
    fails, when all tests of a request are written down in the order in which they apply. */
module SpanErrors {
  import opened FastHash
  import opened Options
  import opened SpanValidator

  datatype Test = Test(fails: bool, error: Error)

  function FirstFailing(tests: seq<Test>): Option<Error> {
    if tests == [] then None
    else if tests[0].fails then Some(tests[0].error)
    else FirstFailing(tests[1..])
  }

  // ---- The tests ----

  function ValueTests(strict: bool, v: AnyValue): seq<Test> {
    match v
    case StringValue(s) => [Test(strict && |s| > 4096, StringTooLong)]
    case BytesValue(b) => [Test(strict && |b| > 4096, BytesTooLong)]
    case OtherValue => []
  }

  function AttributeTests(strict: bool, a: Option<Attribute>): seq<Test> {
    if a.None? then [Test(true, AttributeNil)]
    else
      [Test(a.value.key == "" || |a.value.key| > 256, AttributeKeyLong)]
      + if a.value.value.Some? then ValueTests(strict, a.value.value.value) else []
  }

  function AttributesTests(strict: bool, attributes: seq<Option<Attribute>>): seq<Test> {
    if attributes == [] then []
    else AttributeTests(strict, attributes[0]) + AttributesTests(strict, attributes[1..])
  }

  /** A span is compared with every span before it in the request. */
  function SpanTests(strict: bool, span: Option<Span>, earlier: seq<Bytes>): seq<Test> {
    if span.None? then [Test(true, SpanNil)]
    else
      var s := span.value;
      [Test(s.traceId == [], TraceIDEmpty),
       Test(s.spanId == [], SpanIDEmpty),
       Test(exists i :: 0 <= i < |earlier| && Hash(earlier[i]) == Hash(s.spanId), DuplicateSpanID),
       Test(s.startTime == 0, BadStart),
       Test(|s.attributes| > 128, TooManyAttributes)]
      + AttributesTests(strict, s.attributes)
  }

  function SpansTests(strict: bool, spans: seq<Option<Span>>, earlier: seq<Bytes>): seq<Test> {
    if spans == [] then []
    else SpanTests(strict, spans[0], earlier) + SpansTests(strict, spans[1..], earlier + SpanIDs(spans[..1]))
  }

  function ScopeTests(strict: bool, scope: Option<ScopeSpans>, earlier: seq<Bytes>): seq<Test> {
    if scope.None? then [Test(true, ScopeNil)]
    else [Test(|scope.value.spans| > 128, TooManySpans)] + SpansTests(strict, scope.value.spans, earlier)
  }

  function ScopesTests(strict: bool, scopes: seq<Option<ScopeSpans>>, earlier: seq<Bytes>): seq<Test> {
    if scopes == [] then []
    else ScopeTests(strict, scopes[0], earlier) + ScopesTests(strict, scopes[1..], earlier + ScopeIDs(scopes[..1]))
  }

  function ResourceTests(strict: bool, r: Option<ResourceSpans>, earlier: seq<Bytes>): seq<Test> {
    if r.None? then [Test(true, ResourceNil)] else ScopesTests(strict, r.value.scopeSpans, earlier)
  }

  function ResourcesTests(strict: bool, rs: seq<Option<ResourceSpans>>, earlier: seq<Bytes>): seq<Test> {
    if rs == [] then []
    else ResourceTests(strict, rs[0], earlier) + ResourcesTests(strict, rs[1..], earlier + ResourceIDs(rs[..1]))
  }

  // ---- The scan stops at the first that fails ----

  lemma {:induction false} FirstOfBoth(a: seq<Test>, b: seq<Test>)
    ensures FirstFailing(a + b) == if FirstFailing(a).Some? then FirstFailing(a) else FirstFailing(b)
  {
    if a == [] {
      assert a + b == b;
    } else {
      assert (a + b)[1..] == a[1..] + b;
      FirstOfBoth(a[1..], b);
    }
  }

  lemma AttributeFirst(strict: bool, a: Option<Attribute>)
    ensures AttributeError(strict, a) == FirstFailing(AttributeTests(strict, a))
  {
    if a.Some? && a.value.value.Some? {
      FirstOfBoth([Test(a.value.key == "" || |a.value.key| > 256, AttributeKeyLong)],
                  ValueTests(strict, a.value.value.value));
    }
  }

  lemma {:induction false} AttributesFirst(strict: bool, attributes: seq<Option<Attribute>>)
    ensures AttributesError(strict, attributes) == FirstFailing(AttributesTests(strict, attributes))
  {
    if attributes != [] {
      AttributeFirst(strict, attributes[0]);
      AttributesFirst(strict, attributes[1..]);
      FirstOfBoth(AttributeTests(strict, attributes[0]), AttributesTests(strict, attributes[1..]));
    }
  }

  lemma SeenIff(earlier: seq<Bytes>, id: Bytes)
    ensures Hash(id) in With(earlier, {}) <==> exists i :: 0 <= i < |earlier| && Hash(earlier[i]) == Hash(id)
  {
    hide Hash;
    if Hash(id) in With(earlier, {}) {
      var e :| e in earlier && Hash(e) == Hash(id);
      var i :| 0 <= i < |earlier| && earlier[i] == e;
    }
  }

  lemma SpanFirst(strict: bool, span: Option<Span>, earlier: seq<Bytes>)
    ensures ScanSpan(strict, span, With(earlier, {})).error == FirstFailing(SpanTests(strict, span, earlier))
  {
    if span.Some? {
      hide Hash, With;
      var s := span.value;
      SeenIff(earlier, s.spanId);
      AttributesFirst(strict, s.attributes);
      var own := SpanTests(strict, span, earlier)[..5];
      FiveTests(own, AttributesTests(strict, s.attributes));
      assert SpanTests(strict, span, earlier) == own + AttributesTests(strict, s.attributes);
    }
  }

  lemma FromTest(a: seq<Test>, k: nat)
    requires k < |a|
    ensures FirstFailing(a[k..]) ==
      if a[k].fails then Some(a[k].error) else if k + 1 < |a| then FirstFailing(a[k + 1..]) else None
  {
    assert a[k..][1..] == a[k + 1..];
  }

  lemma FiveTests(a: seq<Test>, b: seq<Test>)
    requires |a| == 5
    ensures FirstFailing(a + b) ==
      if a[0].fails then Some(a[0].error)
      else if a[1].fails then Some(a[1].error)
      else if a[2].fails then Some(a[2].error)
      else if a[3].fails then Some(a[3].error)
      else if a[4].fails then Some(a[4].error)
      else FirstFailing(b)
  {
    FirstOfBoth(a, b);
    FromTest(a, 0);
    FromTest(a, 1);
    FromTest(a, 2);
    FromTest(a, 3);
    FromTest(a, 4);
  }

  lemma SpanSeen(strict: bool, span: Option<Span>, earlier: seq<Bytes>)
    requires ScanSpan(strict, span, With(earlier, {})).error.None?
    ensures ScanSpan(strict, span, With(earlier, {})).seen == With(earlier + SpanIDs([span]), {})
  {
    SpanMeaning(strict, span, With(earlier, {}));
    var id := span.value.spanId;
    assert SpanIDs([span]) == [id];
    WithAppend(earlier, [id], {});
    assert With([id], With(earlier, {})) == With(earlier, {}) + {Hash(id)};
  }

  lemma {:induction false} SpansFirst(strict: bool, spans: seq<Option<Span>>, earlier: seq<Bytes>)
    ensures ScanSpans(strict, spans, With(earlier, {})).error == FirstFailing(SpansTests(strict, spans, earlier))
  {
    if spans != [] {
      hide ScanSpan, With, SpanTests, SpanIDs;
      SpanFirst(strict, spans[0], earlier);
      assert spans[..1] == [spans[0]];
      var next := earlier + SpanIDs(spans[..1]);
      FirstOfBoth(SpanTests(strict, spans[0], earlier), SpansTests(strict, spans[1..], next));
      if ScanSpan(strict, spans[0], With(earlier, {})).error.None? {
        SpanSeen(strict, spans[0], earlier);
        SpansFirst(strict, spans[1..], next);
      }
    }
  }

  lemma ScopeFirst(strict: bool, scope: Option<ScopeSpans>, earlier: seq<Bytes>)
    ensures ScanScope(strict, scope, With(earlier, {})).error == FirstFailing(ScopeTests(strict, scope, earlier))
  {
    if scope.Some? {
      hide With, ScanSpans, SpansTests;
      SpansFirst(strict, scope.value.spans, earlier);
      FirstOfBoth([Test(|scope.value.spans| > 128, TooManySpans)], SpansTests(strict, scope.value.spans, earlier));
    }
  }

  lemma ScopeSeen(strict: bool, scope: Option<ScopeSpans>, earlier: seq<Bytes>)
    requires ScanScope(strict, scope, With(earlier, {})).error.None?
    ensures ScanScope(strict, scope, With(earlier, {})).seen == With(earlier + ScopeIDs([scope]), {})
  {
    hide With, ScanSpans, SpanIDs, Unseen;
    ScopeMeaning(strict, scope, With(earlier, {}));
    var ids := SpanIDs(scope.value.spans);
    assert ScopeIDs([scope]) == ids + ScopeIDs([]) == ids;
    WithAppend(earlier, ids, {});
  }

  lemma {:induction false} ScopesFirst(strict: bool, scopes: seq<Option<ScopeSpans>>, earlier: seq<Bytes>)
    ensures ScanScopes(strict, scopes, With(earlier, {})).error == FirstFailing(ScopesTests(strict, scopes, earlier))
  {
    if scopes != [] {
      hide ScanScope, With, ScopeTests, ScopeIDs;
      ScopeFirst(strict, scopes[0], earlier);
      assert scopes[..1] == [scopes[0]];
      var next := earlier + ScopeIDs(scopes[..1]);
      FirstOfBoth(ScopeTests(strict, scopes[0], earlier), ScopesTests(strict, scopes[1..], next));
      if ScanScope(strict, scopes[0], With(earlier, {})).error.None? {
        ScopeSeen(strict, scopes[0], earlier);
        ScopesFirst(strict, scopes[1..], next);
      }
    }
  }

  lemma ResourceSeen(strict: bool, r: Option<ResourceSpans>, earlier: seq<Bytes>)
    requires ScanResource(strict, r, With(earlier, {})).error.None?
    ensures ScanResource(strict, r, With(earlier, {})).seen == With(earlier + ResourceIDs([r]), {})
  {
    hide With, ScanScopes, ScopeIDs, Unseen, ScopesOk;
    ScopesMeaning(strict, r.value.scopeSpans, With(earlier, {}));
    var ids := ScopeIDs(r.value.scopeSpans);
    assert ResourceIDs([r]) == ids + ResourceIDs([]) == ids;
    WithAppend(earlier, ids, {});
  }

  lemma {:induction false} ResourcesFirst(strict: bool, rs: seq<Option<ResourceSpans>>, earlier: seq<Bytes>)
    ensures ScanResources(strict, rs, With(earlier, {})).error == FirstFailing(ResourcesTests(strict, rs, earlier))
  {
    if rs != [] {
      hide With, ResourceIDs, ScanScopes, ScopesTests;
      if rs[0].Some? {
        ScopesFirst(strict, rs[0].value.scopeSpans, earlier);
      }
      assert rs[..1] == [rs[0]];
      var next := earlier + ResourceIDs(rs[..1]);
      FirstOfBoth(ResourceTests(strict, rs[0], earlier), ResourcesTests(strict, rs[1..], next));
      if ScanResource(strict, rs[0], With(earlier, {})).error.None? {
        ResourceSeen(strict, rs[0], earlier);
        ResourcesFirst(strict, rs[1..], next);
      }
    }
  }

  /** The error of a request is that of the first test that fails; none fails when there is no error. */
  lemma ErrorIsFirstFailing(strict: bool, d: TracesData)
    ensures FirstError(strict, Some(d)) == FirstFailing(ResourcesTests(strict, d.resourceSpans, []))
    ensures FirstError(strict, None) == Some(DataNil)
  {
    ResourcesFirst(strict, d.resourceSpans, []);
    assert With([], {}) == {};
  }
}
