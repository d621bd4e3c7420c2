/** The origin decision of createCorsMiddleware (api/rest/cors.go). */
module Cors {
  import opened Glob

  const WILDCARD_ORIGIN := "*"

  /** What the middleware keeps between requests. */
  datatype Middleware = Middleware(allowAll: bool, exact: map<string, bool>, patterns: seq<string>)

  datatype Setup = NoOrigins | Ready(middleware: Middleware)

  /** The Access-Control-Allow-Origin header, with its credentials header when an origin is echoed. */
  datatype Decision = AllowAny | Echo(origin: string) | NoHeader

  /** The entries a request origin is compared with. */
  ghost predicate Listed(origins: seq<string>, entry: string) {
    entry in origins && entry != WILDCARD_ORIGIN
  }

  /** One lookup table and one pattern list, split by the presence of metacharacters. */
  ghost predicate SplitOf(mw: Middleware, origins: seq<string>) {
    && (forall e :: e in mw.exact <==> Listed(origins, e) && !HasMeta(e))
    && (forall e :: e in mw.exact ==> mw.exact[e])
    && (forall e :: e in mw.patterns <==> Listed(origins, e) && HasMeta(e))
  }

  /** The setup loop.  A pattern entry is never empty, so compiling it cannot fail. */
  method CreateCorsMiddleware(origins: seq<string>) returns (setup: Setup)
    ensures setup.NoOrigins? <==> origins == []
    ensures setup.Ready? ==>
      && (setup.middleware.allowAll <==> origins == [WILDCARD_ORIGIN])
      && SplitOf(setup.middleware, origins)
  {
    if |origins| == 0 {
      return NoOrigins;
    }
    var mw := Middleware(|origins| == 1 && origins[0] == WILDCARD_ORIGIN, map[], []);
    for i := 0 to |origins|
      invariant mw.allowAll <==> origins == [WILDCARD_ORIGIN]
      invariant SplitOf(mw, origins[..i])
    {
      var origin := origins[i];
      assert origins[..i + 1] == origins[..i] + [origin];
      if origin == WILDCARD_ORIGIN {
        continue;
      }
      if HasMeta(origin) {
        mw := mw.(patterns := mw.patterns + [origin]);
      } else {
        mw := mw.(exact := mw.exact[origin := true]);
      }
    }
    assert origins[..|origins|] == origins;
    return Ready(mw);
  }

  /** Exact lookup first, then the patterns in order. */
  method Decide(mw: Middleware, requestOrigin: string) returns (d: Decision)
    ensures d.AllowAny? <==> mw.allowAll
    ensures d.Echo? <==>
      && !mw.allowAll && requestOrigin != ""
      && ((requestOrigin in mw.exact && mw.exact[requestOrigin])
          || exists p :: p in mw.patterns && InLanguage(Tokens(p), requestOrigin))
    ensures d.Echo? ==> d.origin == requestOrigin
  {
    if mw.allowAll {
      return AllowAny;
    }
    if requestOrigin == "" {
      return NoHeader;
    }
    if requestOrigin in mw.exact && mw.exact[requestOrigin] {
      return Echo(requestOrigin);
    }
    for i := 0 to |mw.patterns|
      invariant forall p :: p in mw.patterns[..i] ==> !InLanguage(Tokens(p), requestOrigin)
    {
      assert mw.patterns[..i + 1] == mw.patterns[..i] + [mw.patterns[i]];
      var matched := MatchGlob(mw.patterns[i], requestOrigin);
      if matched {
        return Echo(requestOrigin);
      }
    }
    assert mw.patterns[..|mw.patterns|] == mw.patterns;
    return NoHeader;
  }

  /** What the configuration means: some listed entry glob-matches the origin. */
  ghost predicate GlobAllowed(origins: seq<string>, requestOrigin: string) {
    requestOrigin != "" && exists e :: Listed(origins, e) && InLanguage(Tokens(e), requestOrigin)
  }

  /** An entry whose exact comparison and glob reading agree. */
  predicate Faithful(entry: string) {
    HasMeta(entry) || '\\' !in entry
  }

  /** How the split treats a single entry. */
  ghost predicate EntryAllows(entry: string, requestOrigin: string) {
    if HasMeta(entry) then InLanguage(Tokens(entry), requestOrigin) else requestOrigin == entry
  }

  /** The split reads an entry as a glob, for every origin, exactly when the entry has a
      metacharacter or no backslash: an entry with backslashes only is compared literally. */
  lemma EntryIsGlobIff(entry: string)
    ensures (forall o :: EntryAllows(entry, o) <==> InLanguage(Tokens(entry), o)) <==> Faithful(entry)
  {
    if Faithful(entry) {
      forall o ensures EntryAllows(entry, o) <==> InLanguage(Tokens(entry), o) {
        if !HasMeta(entry) {
          PlainMatchesOnlyItself(entry, o);
        }
      }
    } else {
      EscapedNeverMatchesItself(entry);
      assert EntryAllows(entry, entry);
    }
  }

  /** The same on the entry's characters: the one kind of entry whose backslashes stand for themselves. */
  lemma EntryIsLiteralIff(entry: string)
    ensures (exists o :: EntryAllows(entry, o) && !InLanguage(Tokens(entry), o))
       <==> '\\' in entry && forall i :: 0 <= i < |entry| ==> entry[i] !in "*?["
    ensures (forall i :: 0 <= i < |entry| ==> entry[i] !in "*?[") ==> forall o :: EntryAllows(entry, o) <==> o == entry
  {
    MetaIff(entry);
    if HasMeta(entry) {
    } else if '\\' in entry {
      EscapedNeverMatchesItself(entry);
      assert EntryAllows(entry, entry);
    } else {
      forall o ensures EntryAllows(entry, o) <==> InLanguage(Tokens(entry), o) {
        PlainMatchesOnlyItself(entry, o);
      }
    }
  }

  lemma MetaIff(entry: string)
    ensures HasMeta(entry) <==> exists i :: 0 <= i < |entry| && entry[i] in "*?["
  {
    assert "*?["[0] == '*' && "*?["[1] == '?' && "*?["[2] == '[';
  }

  /** From configuration to header, for every list.  When all entries are faithful an origin
      is echoed exactly when it is nonempty and some entry but the wildcard glob-matches it. */
  method HandleOrigin(origins: seq<string>, requestOrigin: string) returns (setup: Setup, d: Decision)
    ensures setup.NoOrigins? <==> origins == []
    ensures setup.Ready? ==> (d.AllowAny? <==> origins == [WILDCARD_ORIGIN])
    ensures setup.Ready? && origins != [WILDCARD_ORIGIN] ==>
      (d.Echo? <==> requestOrigin != "" && exists e :: Listed(origins, e) && EntryAllows(e, requestOrigin))
    ensures setup.Ready? && origins != [WILDCARD_ORIGIN] && (forall e :: e in origins ==> Faithful(e)) ==>
      (d.Echo? <==> GlobAllowed(origins, requestOrigin))
    ensures d.Echo? ==> d.origin == requestOrigin
  {
    setup := CreateCorsMiddleware(origins);
    d := NoHeader;
    if setup.Ready? {
      var mw := setup.middleware;
      d := Decide(mw, requestOrigin);
      forall e | Listed(origins, e)
        ensures if HasMeta(e) then e in mw.patterns else e in mw.exact
        ensures Faithful(e) ==> (EntryAllows(e, requestOrigin) <==> InLanguage(Tokens(e), requestOrigin))
      {
        EntryIsGlobIff(e);
      }
    }
  }
}
