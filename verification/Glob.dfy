/** The origin glob matcher of api/rest/cors.go.

    A pattern is read as a sequence of tokens, the tokens denote a language, and the
    backtracking byte-index matcher is proved to decide that language.  A `char` stands
    for one byte of a Go string; nothing below depends on how many characters there are. */
module Glob {

  /** One element of a character class: `a` or `a-z`. */
  datatype Item = Single(c: char) | Range(lo: char, hi: char)

  /** `Never` is a malformed tail (an unclosed class, a trailing backslash). */
  datatype Token =
    | Star
    | AnyOne
    | Literal(c: char)
    | Class(negated: bool, items: seq<Item>)
    | Never

  predicate Covers(item: Item, c: char) {
    match item
    case Single(d) => c == d
    case Range(lo, hi) => lo <= c <= hi
  }

  ghost predicate AnyCovers(items: seq<Item>, c: char) {
    exists item :: item in items && Covers(item, c)
  }

  /** The runs of text that one token stands for. */
  ghost predicate Derives(t: Token, piece: string) {
    match t
    case Star => true
    case AnyOne => |piece| == 1
    case Literal(c) => piece == [c]
    case Class(negated, items) =>
      |piece| == 1 && negated != AnyCovers(items, piece[0])
    case Never => false
  }

  ghost function Join(pieces: seq<string>): string {
    if pieces == [] then "" else pieces[0] + Join(pieces[1..])
  }

  ghost predicate Splits(ts: seq<Token>, text: string, pieces: seq<string>) {
    && |pieces| == |ts|
    && Join(pieces) == text
    && forall i :: 0 <= i < |ts| ==> Derives(ts[i], pieces[i])
  }

  /** The language of a token sequence: the text can be cut into one piece per token. */
  ghost predicate InLanguage(ts: seq<Token>, text: string) {
    exists pieces :: Splits(ts, text, pieces)
  }

  // ---- Reading a pattern ----

  datatype ClassBody = Unclosed | Closed(items: seq<Item>, rest: string)

  /** What follows `[` or `[^`.  A range is taken whenever the second character is `-`
      and a third one exists, even when that third one is `]`. */
  function ParseClass(p: string): (body: ClassBody)
    ensures body.Closed? ==> |body.rest| < |p|
  {
    if p == "" then Unclosed
    else if p[0] == ']' then Closed([], p[1..])
    else
      var (item, tail) := if |p| > 2 && p[1] == '-' then (Range(p[0], p[2]), p[3..]) else (Single(p[0]), p[1..]);
      match ParseClass(tail)
      case Unclosed => Unclosed
      case Closed(items, rest) => Closed([item] + items, rest)
  }

  function Tokens(p: string): seq<Token>
    decreases |p|
  {
    if p == "" then []
    else if p[0] == '*' then [Star] + Tokens(p[1..])
    else if p[0] == '?' then [AnyOne] + Tokens(p[1..])
    else if p[0] == '[' then
      var negated := |p| > 1 && p[1] == '^';
      match ParseClass(if negated then p[2..] else p[1..])
      case Unclosed => [Never]
      case Closed(items, rest) => [Class(negated, items)] + Tokens(rest)
    else if p[0] == '\\' then
      if |p| == 1 then [Never] else [Literal(p[1])] + Tokens(p[2..])
    else [Literal(p[0])] + Tokens(p[1..])
  }

  // ---- An unfolding of the language, one token at a time ----

  ghost predicate Matches(ts: seq<Token>, text: string)
    decreases |ts|, 0
  {
    if ts == [] then text == ""
    else if ts[0] == Star then SomeSuffix(ts[1..], text, 0)
    else text != "" && Derives(ts[0], text[..1]) && Matches(ts[1..], text[1..])
  }

  ghost predicate SomeSuffix(ts: seq<Token>, text: string, from: nat)
    decreases |ts|, 1
  {
    exists k :: from <= k <= |text| && Matches(ts, text[k..])
  }

  /** The unfolding denotes exactly the declarative language. */
  lemma {:induction false} MatchesIsLanguage(ts: seq<Token>, text: string)
    ensures Matches(ts, text) <==> InLanguage(ts, text)
    decreases |ts|
  {
    if ts == [] {
      assert InLanguage(ts, text) ==> text == "";
      if text == "" {
        assert Splits(ts, text, []);
      }
    } else {
      if Matches(ts, text) {
        var k := 1;
        if ts[0] == Star {
          assert SomeSuffix(ts[1..], text, 0);
          k :| 0 <= k <= |text| && Matches(ts[1..], text[k..]);
        }
        MatchesIsLanguage(ts[1..], text[k..]);
        var rest :| Splits(ts[1..], text[k..], rest);
        PrependPiece(ts, text, k, rest);
      }
      if InLanguage(ts, text) {
        var pieces :| Splits(ts, text, pieces);
        var k := |pieces[0]|;
        assert text[..k] == pieces[0] && text[k..] == Join(pieces[1..]);
        assert Splits(ts[1..], text[k..], pieces[1..]);
        MatchesIsLanguage(ts[1..], text[k..]);
        assert Derives(ts[0], pieces[0]);
        assert ts[0] != Star ==> k == 1;
      }
    }
  }

  lemma PrependPiece(ts: seq<Token>, text: string, k: nat, rest: seq<string>)
    requires ts != [] && k <= |text| && Derives(ts[0], text[..k]) && Splits(ts[1..], text[k..], rest)
    ensures InLanguage(ts, text)
  {
    var pieces := [text[..k]] + rest;
    assert pieces[1..] == rest;
    assert Join(pieces) == text[..k] + text[k..] == text;
    forall i | 0 <= i < |ts| ensures Derives(ts[i], pieces[i]) {
      if i > 0 {
        assert ts[i] == ts[1..][i - 1] && pieces[i] == rest[i - 1];
      }
    }
    assert Splits(ts, text, pieces);
  }

  /** A run of stars matches what one star matches. */
  lemma StarRun(ts: seq<Token>, text: string, from: nat)
    ensures SomeSuffix([Star] + ts, text, from) <==> SomeSuffix(ts, text, from)
  {
    var starred := [Star] + ts;
    assert starred[1..] == ts;
    if SomeSuffix(starred, text, from) {
      var k :| from <= k <= |text| && Matches(starred, text[k..]);
      assert SomeSuffix(starred[1..], text[k..], 0);
      var j :| 0 <= j <= |text[k..]| && Matches(ts, text[k..][j..]);
      assert text[k..][j..] == text[k + j..];
      assert from <= k + j <= |text| && Matches(ts, text[k + j..]);
    }
    if SomeSuffix(ts, text, from) {
      var k :| from <= k <= |text| && Matches(ts, text[k..]);
      assert text[k..][0..] == text[k..];
      assert SomeSuffix(ts, text[k..], 0);
      assert Matches(starred, text[k..]);
    }
  }

  /** A leading star may swallow any prefix. */
  lemma StarUnfold(ts: seq<Token>, text: string, from: nat)
    requires from <= |text|
    ensures Matches([Star] + ts, text[from..]) <==> SomeSuffix(ts, text, from)
  {
    assert ([Star] + ts)[1..] == ts;
    var t := text[from..];
    if SomeSuffix(ts, t, 0) {
      var k :| 0 <= k <= |t| && Matches(ts, t[k..]);
      assert t[k..] == text[from + k..];
      assert from <= from + k <= |text| && Matches(ts, text[from + k..]);
    }
    if SomeSuffix(ts, text, from) {
      var k :| from <= k <= |text| && Matches(ts, text[k..]);
      assert t[k - from..] == text[k..];
      assert 0 <= k - from <= |t| && Matches(ts, t[k - from..]);
    }
  }

  // ---- The matcher ----

  lemma CoversFirst(item: Item, items: seq<Item>, c: char)
    ensures AnyCovers([item] + items, c) <==> Covers(item, c) || AnyCovers(items, c)
  {
    assert forall i :: i in [item] + items <==> i == item || i in items;
  }

  /** The body with its first item behind `size` bytes, as seen from a character that it covers or not. */
  lemma ClassItem(p: string, item: Item, size: nat, c: char)
    requires p != "" && p[0] != ']'
    requires if |p| > 2 && p[1] == '-' then item == Range(p[0], p[2]) && size == 3
      else item == Single(p[0]) && size == 1
    ensures var body, tail := ParseClass(p), ParseClass(p[size..]);
      && (body.Closed? <==> tail.Closed?)
      && (body.Closed? ==>
            && body.rest == tail.rest
            && (AnyCovers(body.items, c) <==> Covers(item, c) || AnyCovers(tail.items, c)))
  {
    if ParseClass(p[size..]).Closed? {
      CoversFirst(item, ParseClass(p[size..]).items, c);
    }
  }

  lemma ClassEnd(p: string, c: char)
    requires p == "" || p[0] == ']'
    ensures ParseClass(p) == if p == "" then Unclosed else Closed([], p[1..])
    ensures !AnyCovers([], c)
  {
  }

  /** The class-scanning loop: `next` is just behind the closing bracket. */
  method ScanClass(pattern: string, start: nat, c: char) returns (closed: bool, next: nat, matched: bool)
    requires start <= |pattern|
    ensures closed <==> ParseClass(pattern[start..]).Closed?
    ensures closed ==> start < next <= |pattern| && pattern[next..] == ParseClass(pattern[start..]).rest
    ensures closed ==> (matched <==> AnyCovers(ParseClass(pattern[start..]).items, c))
  {
    hide ParseClass, AnyCovers;
    var pi := start;
    matched := false;
    ghost var body := ParseClass(pattern[start..]);
    while pi < |pattern| && pattern[pi] != ']'
      invariant start <= pi <= |pattern|
      invariant body.Closed? <==> ParseClass(pattern[pi..]).Closed?
      invariant body.Closed? ==> body.rest == ParseClass(pattern[pi..]).rest
      invariant body.Closed? ==>
        (AnyCovers(body.items, c) <==> matched || AnyCovers(ParseClass(pattern[pi..]).items, c))
      decreases |pattern| - pi
    {
      ghost var p := pattern[pi..];
      if pi + 2 < |pattern| && pattern[pi + 1] == '-' {
        if c >= pattern[pi] && c <= pattern[pi + 2] {
          matched := true;
        }
        pi := pi + 3;
        assert p[3..] == pattern[pi..];
        ClassItem(p, Range(p[0], p[2]), 3, c);
      } else {
        if c == pattern[pi] {
          matched := true;
        }
        pi := pi + 1;
        assert p[1..] == pattern[pi..];
        ClassItem(p, Single(p[0]), 1, c);
      }
    }
    ClassEnd(pattern[pi..], c);
    assert pi < |pattern| ==> pattern[pi..][1..] == pattern[pi + 1..];
    closed, next := pi < |pattern|, pi + 1;
  }

  /** The pattern from `pi` on matches the text from `ti` on. */
  ghost predicate At(pattern: string, pi: nat, text: string, ti: nat)
    requires pi <= |pattern| && ti <= |text|
  {
    Matches(Tokens(pattern[pi..]), text[ti..])
  }

  /** A token other than a star consumes exactly one character it accepts. */
  lemma OneCharacter(pattern: string, pi: nat, next: nat, t: Token, text: string, ti: nat)
    requires pi < next <= |pattern| && ti <= |text| && t != Star
    requires Tokens(pattern[pi..]) == [t] + Tokens(pattern[next..])
    ensures At(pattern, pi, text, ti) <==> ti < |text| && Derives(t, [text[ti]]) && At(pattern, next, text, ti + 1)
  {
    var ts, tail := Tokens(pattern[pi..]), text[ti..];
    assert ts[1..] == Tokens(pattern[next..]);
    if ti < |text| {
      assert tail[..1] == [text[ti]] && tail[1..] == text[ti + 1..];
    }
  }

  lemma NeverAt(pattern: string, pi: nat, text: string, ti: nat)
    requires pi <= |pattern| && ti <= |text| && Tokens(pattern[pi..]) == [Never]
    ensures !At(pattern, pi, text, ti)
  {
  }

  /** How the tokens of a pattern begin when the next character is not a star. */
  lemma PlainHead(pattern: string, pi: nat, text: string, ti: nat)
    requires pi < |pattern| && ti <= |text| && pattern[pi] !in {'*', '[', '\\'}
    ensures var t := if pattern[pi] == '?' then AnyOne else Literal(pattern[pi]);
      At(pattern, pi, text, ti) <==> ti < |text| && Derives(t, [text[ti]]) && At(pattern, pi + 1, text, ti + 1)
  {
    assert pattern[pi..][1..] == pattern[pi + 1..];
    OneCharacter(pattern, pi, pi + 1, if pattern[pi] == '?' then AnyOne else Literal(pattern[pi]), text, ti);
  }

  lemma EscapeHead(pattern: string, pi: nat, text: string, ti: nat)
    requires pi < |pattern| && ti <= |text| && pattern[pi] == '\\'
    ensures At(pattern, pi, text, ti) <==>
      pi + 1 < |pattern| && ti < |text| && text[ti] == pattern[pi + 1] && At(pattern, pi + 2, text, ti + 1)
  {
    if pi + 1 < |pattern| {
      assert pattern[pi..][2..] == pattern[pi + 2..];
      OneCharacter(pattern, pi, pi + 2, Literal(pattern[pi + 1]), text, ti);
    }
  }

  ghost predicate NegatedAt(pattern: string, pi: nat) {
    pi + 1 < |pattern| && pattern[pi + 1] == '^'
  }

  ghost function BodyAt(pattern: string, pi: nat): ClassBody
    requires pi < |pattern|
  {
    ParseClass(pattern[if NegatedAt(pattern, pi) then pi + 2 else pi + 1..])
  }

  lemma ClassHead(pattern: string, pi: nat, next: nat, text: string, ti: nat)
    requires pi < |pattern| && ti <= |text| && pattern[pi] == '['
    requires BodyAt(pattern, pi).Closed? ==> pi < next <= |pattern| && pattern[next..] == BodyAt(pattern, pi).rest
    ensures At(pattern, pi, text, ti) <==>
      var body := BodyAt(pattern, pi);
      && body.Closed? && ti < |text|
      && NegatedAt(pattern, pi) != AnyCovers(body.items, text[ti])
      && At(pattern, next, text, ti + 1)
  {
    var p := pattern[pi..];
    assert p[1..] == pattern[pi + 1..] && (NegatedAt(pattern, pi) ==> p[2..] == pattern[pi + 2..]);
    match BodyAt(pattern, pi)
    case Unclosed => NeverAt(pattern, pi, text, ti);
    case Closed(items, rest) =>
      OneCharacter(pattern, pi, next, Class(NegatedAt(pattern, pi), items), text, ti);
  }

  lemma NoTextLeft(pattern: string, pi: nat, text: string)
    requires pi < |pattern| && pattern[pi] == '['
    ensures !At(pattern, pi, text, |text|)
  {
    assert Tokens(pattern[pi..])[0] != Star;
  }

  lemma EndOfPattern(pattern: string, text: string, ti: nat)
    requires ti <= |text|
    ensures At(pattern, |pattern|, text, ti) <==> ti == |text|
  {
  }

  /** The whole matcher.  `pi` and `ti` index bytes of the pattern and of the text. */
  method MatchGlobRecursive(pattern: string, text: string, pi0: nat, ti0: nat) returns (b: bool)
    requires pi0 <= |pattern| && ti0 <= |text|
    ensures b <==> At(pattern, pi0, text, ti0)
    decreases |pattern| - pi0
  {
    hide At;
    var pi: nat, ti: nat := pi0, ti0;
    while pi < |pattern|
      invariant pi0 <= pi <= |pattern| && ti <= |text|
      invariant At(pattern, pi0, text, ti0) <==> At(pattern, pi, text, ti)
      decreases |pattern| - pi
    {
      if pattern[pi] == '*' {
        b := MatchStar(pattern, text, pi, ti);
        return;
      } else if pattern[pi] == '?' {
        PlainHead(pattern, pi, text, ti);
        if ti >= |text| {
          return false;
        }
        pi, ti := pi + 1, ti + 1;
      } else if pattern[pi] == '[' {
        var matches, next := MatchClass(pattern, text, pi, ti);
        if !matches {
          return false;
        }
        pi, ti := next, ti + 1;
      } else if pattern[pi] == '\\' {
        EscapeHead(pattern, pi, text, ti);
        pi := pi + 1;
        if pi >= |pattern| {
          return false;
        }
        if ti >= |text| || text[ti] != pattern[pi] {
          return false;
        }
        pi, ti := pi + 1, ti + 1;
      } else {
        PlainHead(pattern, pi, text, ti);
        if ti >= |text| || text[ti] != pattern[pi] {
          return false;
        }
        pi, ti := pi + 1, ti + 1;
      }
    }
    EndOfPattern(pattern, text, ti);
    return ti == |text|;
  }

  /** The class case: `false` when the text is used up, the class is unclosed or it rejects. */
  method MatchClass(pattern: string, text: string, pi0: nat, ti: nat) returns (matched: bool, next: nat)
    requires pi0 < |pattern| && ti <= |text| && pattern[pi0] == '['
    ensures matched ==> pi0 < next <= |pattern| && ti < |text|
    ensures At(pattern, pi0, text, ti) <==> matched && At(pattern, next, text, ti + 1)
  {
    if ti >= |text| {
      NoTextLeft(pattern, pi0, text);
      return false, pi0;
    }
    var pi: nat := pi0 + 1;
    var negated := false;
    if pi < |pattern| && pattern[pi] == '^' {
      negated := true;
      pi := pi + 1;
    }
    var closed;
    closed, next, matched := ScanClass(pattern, pi, text[ti]);
    ClassHead(pattern, pi0, next, text, ti);
    if !closed {
      return false, pi0;
    }
    if negated {
      matched := !matched;
    }
  }

  ghost predicate SomewhereFrom(pattern: string, pi: nat, text: string, ti: nat)
    requires pi <= |pattern|
  {
    SomeSuffix(Tokens(pattern[pi..]), text, ti)
  }

  lemma StarHead(pattern: string, pi: nat, text: string, ti: nat)
    requires pi < |pattern| && pattern[pi] == '*' && ti <= |text|
    ensures At(pattern, pi, text, ti) <==> SomewhereFrom(pattern, pi + 1, text, ti)
    ensures SomewhereFrom(pattern, pi, text, ti) <==> SomewhereFrom(pattern, pi + 1, text, ti)
  {
    assert pattern[pi..][1..] == pattern[pi + 1..];
    StarUnfold(Tokens(pattern[pi + 1..]), text, ti);
    StarRun(Tokens(pattern[pi + 1..]), text, ti);
  }

  lemma EndSomewhere(pattern: string, text: string, ti: nat)
    requires ti <= |text|
    ensures SomewhereFrom(pattern, |pattern|, text, ti)
  {
    EndOfPattern(pattern, text, |text|);
    assert Matches(Tokens(pattern[|pattern|..]), text[|text|..]);
  }

  lemma NextStart(pattern: string, pi: nat, text: string, ti: nat)
    requires pi <= |pattern| && ti <= |text|
    ensures SomewhereFrom(pattern, pi, text, ti) <==>
      At(pattern, pi, text, ti) || SomewhereFrom(pattern, pi, text, ti + 1)
  {
  }

  /** The star case: skip the run of stars, then try every remaining start. */
  method MatchStar(pattern: string, text: string, pi0: nat, ti0: nat) returns (b: bool)
    requires pi0 < |pattern| && ti0 <= |text| && pattern[pi0] == '*'
    ensures b <==> At(pattern, pi0, text, ti0)
    decreases |pattern| - pi0, 0
  {
    hide At;
    var pi: nat, ti: nat := pi0, ti0;
    StarHead(pattern, pi0, text, ti0);
    while pi < |pattern| && pattern[pi] == '*'
      invariant pi0 <= pi <= |pattern|
      invariant At(pattern, pi0, text, ti0) <==> SomewhereFrom(pattern, pi, text, ti0)
    {
      StarHead(pattern, pi, text, ti0);
      pi := pi + 1;
    }
    if pi == |pattern| {
      EndSomewhere(pattern, text, ti0);
      return true;
    }
    while ti <= |text|
      invariant ti0 <= ti <= |text| + 1
      invariant At(pattern, pi0, text, ti0) <==> SomewhereFrom(pattern, pi, text, ti)
    {
      NextStart(pattern, pi, text, ti);
      b := MatchGlobRecursive(pattern, text, pi, ti);
      if b {
        return;
      }
      ti := ti + 1;
    }
    return false;
  }

  method MatchGlob(pattern: string, text: string) returns (b: bool)
    ensures b <==> InLanguage(Tokens(pattern), text)
  {
    assert pattern[0..] == pattern && text[0..] == text;
    b := MatchGlobRecursive(pattern, text, 0, 0);
    MatchesIsLanguage(Tokens(pattern), text);
  }

  // ---- Patterns that are plain text ----

  predicate HasMeta(p: string) {
    '*' in p || '?' in p || '[' in p
  }

  /** Without metacharacters and backslashes a pattern matches itself and nothing else. */
  lemma {:induction false} PlainMatchesOnlyItself(p: string, text: string)
    requires !HasMeta(p) && '\\' !in p
    ensures InLanguage(Tokens(p), text) <==> text == p
  {
    PlainUnfold(p, text);
    MatchesIsLanguage(Tokens(p), text);
  }

  lemma PlainTokens(p: string)
    requires p != "" && !HasMeta(p) && '\\' !in p
    ensures !HasMeta(p[1..]) && '\\' !in p[1..]
    ensures Tokens(p) != [] && Tokens(p)[0] == Literal(p[0]) && Tokens(p)[1..] == Tokens(p[1..])
  {
    assert p[0] in p && forall c :: c in p[1..] ==> c in p;
    assert Tokens(p) == [Literal(p[0])] + Tokens(p[1..]);
  }

  lemma {:induction false} PlainUnfold(p: string, text: string)
    requires !HasMeta(p) && '\\' !in p
    ensures Matches(Tokens(p), text) <==> text == p
  {
    if p != "" {
      hide Tokens, HasMeta;
      PlainTokens(p);
      if text != "" {
        PlainUnfold(p[1..], text[1..]);
        assert text == [text[0]] + text[1..] && p == [p[0]] + p[1..];
      }
    }
  }

  /** A text of its own shape is shorter than the pattern as soon as an escape is used,
      so an escaped pattern never matches itself. */
  lemma {:induction false} EscapedNeverMatchesItself(p: string)
    requires !HasMeta(p) && '\\' in p
    ensures !InLanguage(Tokens(p), p)
  {
    MatchesIsLanguage(Tokens(p), p);
    if Matches(Tokens(p), p) {
      EscapedShorter(p, p);
    }
  }

  lemma {:induction false} EscapedShorter(p: string, text: string)
    requires !HasMeta(p) && Matches(Tokens(p), text)
    ensures |text| <= |p| && ('\\' in p ==> |text| < |p|)
    decreases |p|
  {
    if p != "" {
      assert p[0] in p;
      var skip := if p[0] == '\\' then 2 else 1;
      if skip <= |p| {
        assert forall c :: c in p[skip..] ==> c in p;
        assert Tokens(p)[1..] == Tokens(p[skip..]);
        EscapedShorter(p[skip..], text[1..]);
        assert p == p[..skip] + p[skip..];
        assert p[0] != '\\' && '\\' in p ==> '\\' in p[skip..];
      }
    }
  }
}
