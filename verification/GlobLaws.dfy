/** What a glob pattern of api/rest/cors.go means, read off its text: one law for each way in which
    a pattern can begin. */
module GlobLaws {
  import opened Glob

  ghost predicate Accepts(pattern: string, text: string) { InLanguage(Tokens(pattern), text) }

  lemma AcceptsIsMatches(pattern: string, text: string)
    ensures Accepts(pattern, text) <==> Matches(Tokens(pattern), text)
  {
    MatchesIsLanguage(Tokens(pattern), text);
  }

  lemma EmptyLaw(text: string)
    ensures Accepts("", text) <==> text == ""
  {
    AcceptsIsMatches("", text);
  }

  lemma StarLaw(p: string, text: string)
    ensures Accepts("*" + p, text) <==> exists k :: 0 <= k <= |text| && Accepts(p, text[k..])
  {
    hide Accepts;
    AcceptsIsMatches("*" + p, text);
    assert ("*" + p)[1..] == p;
    assert Tokens("*" + p) == [Star] + Tokens(p);
    StarUnfold(Tokens(p), text, 0);
    assert text[0..] == text;
    forall k | 0 <= k <= |text| ensures Accepts(p, text[k..]) <==> Matches(Tokens(p), text[k..]) {
      AcceptsIsMatches(p, text[k..]);
    }
  }

  /** A token other than a star takes the first character if it accepts it. */
  lemma OneToken(pattern: string, t: Token, p: string, text: string)
    requires Tokens(pattern) == [t] + Tokens(p) && t != Star
    ensures Accepts(pattern, text) <==> text != "" && Derives(t, [text[0]]) && Accepts(p, text[1..])
  {
    hide Accepts, Derives, Tokens;
    AcceptsIsMatches(pattern, text);
    assert ([t] + Tokens(p))[1..] == Tokens(p);
    if text != "" {
      assert text[..1] == [text[0]];
      AcceptsIsMatches(p, text[1..]);
    }
  }

  lemma AnyOneLaw(p: string, text: string)
    ensures Accepts("?" + p, text) <==> text != "" && Accepts(p, text[1..])
  {
    hide Accepts;
    assert ("?" + p)[1..] == p;
    OneToken("?" + p, AnyOne, p, text);
  }

  lemma PlainLaw(c: char, p: string, text: string)
    requires c !in {'*', '?', '[', '\\'}
    ensures Accepts([c] + p, text) <==> text != "" && text[0] == c && Accepts(p, text[1..])
  {
    hide Accepts;
    assert ([c] + p)[1..] == p;
    OneToken([c] + p, Literal(c), p, text);
  }

  /** A backslash takes the next character as it is, and nothing when it is the last one. */
  lemma EscapeLaw(c: char, p: string, text: string)
    ensures Accepts("\\" + [c] + p, text) <==> text != "" && text[0] == c && Accepts(p, text[1..])
    ensures !Accepts("\\", text)
  {
    hide Accepts;
    assert ("\\" + [c] + p)[2..] == p;
    OneToken("\\" + [c] + p, Literal(c), p, text);
    assert Tokens("\\") == [Never];
    AcceptsIsMatches("\\", text);
  }

  // ---- Classes ----

  /** The pieces of a class body: single characters and ranges `a-z`.  A piece does not begin with
      the closing bracket, and a single character is not followed by a dash. */
  predicate Written(pieces: seq<string>) {
    && (forall i :: 0 <= i < |pieces| ==>
          (|pieces[i]| == 1 || (|pieces[i]| == 3 && pieces[i][1] == '-')) && pieces[i][0] != ']')
    && (forall i :: 0 <= i < |pieces| - 1 && |pieces[i]| == 1 ==> pieces[i + 1][0] != '-')
  }

  predicate Within(piece: string, c: char)
    requires |piece| == 1 || |piece| == 3
  {
    if |piece| == 1 then c == piece[0] else piece[0] <= c <= piece[2]
  }

  /** Some piece names the character or spans it, both ends included. */
  ghost predicate InClass(pieces: seq<string>, c: char)
    requires Written(pieces)
  {
    exists i :: 0 <= i < |pieces| && Within(pieces[i], c)
  }

  lemma WrittenRest(pieces: seq<string>, c: char)
    requires Written(pieces) && pieces != []
    ensures Written(pieces[1..])
    ensures InClass(pieces, c) <==> Within(pieces[0], c) || InClass(pieces[1..], c)
  {
    var rest := pieces[1..];
    assert forall i :: 0 <= i < |rest| ==> rest[i] == pieces[i + 1];
    if InClass(pieces, c) && !Within(pieces[0], c) {
      var i :| 0 <= i < |pieces| && Within(pieces[i], c);
      assert Within(rest[i - 1], c);
    }
    if InClass(rest, c) {
      var i :| 0 <= i < |rest| && Within(rest[i], c);
      assert Within(pieces[i + 1], c);
    }
  }

  /** Written pieces are read back: the body ends at the bracket behind them. */
  lemma {:induction false} PiecesAreRead(pieces: seq<string>, p: string, c: char)
    requires Written(pieces)
    ensures var body := ParseClass(Join(pieces) + "]" + p);
      body.Closed? && body.rest == p && (AnyCovers(body.items, c) <==> InClass(pieces, c))
  {
    var s := Join(pieces) + "]" + p;
    if pieces == [] {
      assert s[1..] == p;
      ClassEnd(s, c);
    } else {
      var first, rest := pieces[0], pieces[1..];
      WrittenRest(pieces, c);
      PiecesAreRead(rest, p, c);
      var tail := Join(rest) + "]" + p;
      assert s == first + tail;
      assert s[|first|..] == tail;
      if |first| == 1 {
        assert rest != [] ==> tail[0] == rest[0][0];
        assert s[1] == tail[0] != '-';
        ClassItem(s, Single(first[0]), 1, c);
      } else {
        assert s[0] == first[0] && s[1] == first[1] && s[2] == first[2];
        ClassItem(s, Range(first[0], first[2]), 3, c);
      }
    }
  }

  /** The text of a class: what stands between its brackets, and the pattern behind it. */
  ghost function ClassText(negated: bool, pieces: seq<string>): string {
    "[" + (if negated then "^" else "") + Join(pieces) + "]"
  }

  /** The pattern begins with that class, and `p` follows. */
  ghost predicate BeginsWith(pattern: string, negated: bool, pieces: seq<string>, p: string) {
    && Written(pieces) && (!negated && pieces != [] ==> pieces[0][0] != '^')
    && pattern == ClassText(negated, pieces) + p
  }

  /** A class takes one character that it names or spans, or one that it does not when negated. */
  lemma ClassLaw(pattern: string, negated: bool, pieces: seq<string>, p: string, text: string)
    requires BeginsWith(pattern, negated, pieces, p)
    ensures Accepts(pattern, text) <==>
      text != "" && negated != InClass(pieces, text[0]) && Accepts(p, text[1..])
  {
    hide Accepts, InClass, Written, ClassText;
    var body := Join(pieces) + "]" + p;
    ReadsClass(pattern, negated, pieces, p);
    OneToken(pattern, Class(negated, ParseClass(body).items), p, text);
    if text != "" {
      PiecesAreRead(pieces, p, text[0]);
    }
  }

  lemma BodyStarts(pieces: seq<string>, p: string)
    requires Written(pieces)
    ensures var body := Join(pieces) + "]" + p; body[0] == if pieces == [] then ']' else pieces[0][0]
    ensures pieces != [] ==> Join(pieces) != ""
  {
  }

  lemma BehindBracket(negated: bool, pieces: seq<string>, p: string)
    ensures var pattern, body := ClassText(negated, pieces) + p, Join(pieces) + "]" + p;
      && |pattern| > 1 && pattern[0] == '['
      && (if negated then pattern[1] == '^' && pattern[2..] == body else pattern[1..] == body)
  {
    hide Join;
    var body := Join(pieces) + "]" + p;
    if negated {
      assert ClassText(negated, pieces) + p == "[^" + body;
    } else {
      assert ClassText(negated, pieces) + p == "[" + body;
    }
  }

  lemma ReadsClass(pattern: string, negated: bool, pieces: seq<string>, p: string)
    requires BeginsWith(pattern, negated, pieces, p)
    ensures var body := ParseClass(Join(pieces) + "]" + p);
      body.Closed? && Tokens(pattern) == [Class(negated, body.items)] + Tokens(p)
  {
    hide Written, ClassText, ParseClass, Join;
    PiecesAreRead(pieces, p, 'a');
    BehindBracket(negated, pieces, p);
    BodyStarts(pieces, p);
    var body := Join(pieces) + "]" + p;
    if negated {
      assert pattern[1] == '^' && pattern[2..] == body;
    } else {
      assert pattern[1..] == body && |body| > 0;
      assert pattern[1] == body[0];
    }
  }

  lemma OnePieceMore(first: string, rest: seq<string>)
    requires Written(rest) && (|first| == 1 || (|first| == 3 && first[1] == '-')) && first[0] != ']'
    requires |first| == 1 && rest != [] ==> rest[0][0] != '-'
    ensures Written([first] + rest)
  {
    var pieces := [first] + rest;
    forall i | 0 <= i < |pieces| ensures pieces[i] == if i == 0 then first else rest[i - 1] {}
  }

  lemma JoinFirst(first: string, rest: seq<string>, tail: string)
    ensures Join([first] + rest) + tail == first + (Join(rest) + tail)
  {
    assert ([first] + rest)[1..] == rest;
  }

  function FirstPiece(s: string): nat { if |s| > 2 && s[1] == '-' then 3 else 1 }

  lemma BehindFirst(s: string)
    requires ParseClass(s).Closed? && s[0] != ']'
    ensures var t := ParseClass(s[FirstPiece(s)..]); t.Closed? && t.rest == ParseClass(s).rest
  {
    var size := FirstPiece(s);
    ClassItem(s, if size == 3 then Range(s[0], s[2]) else Single(s[0]), size, 'a');
  }

  lemma ClosedStarts(s: string)
    requires ParseClass(s).Closed?
    ensures s != "" && (s[0] == ']' ==> ParseClass(s).rest == s[1..])
  {
  }

  /** The first piece of a text, in front of pieces that are written behind it. */
  lemma PieceAdded(s: string, rest: seq<string>, p: string)
    requires s != "" && s[0] != ']' && Written(rest) && s[FirstPiece(s)..] == Join(rest) + "]" + p
    ensures var pieces := [s[..FirstPiece(s)]] + rest; Written(pieces) && s == Join(pieces) + "]" + p
  {
    hide Written, Join;
    var first, t := s[..FirstPiece(s)], s[FirstPiece(s)..];
    BodyStarts(rest, p);
    if |first| == 1 && rest != [] {
      assert t[0] == s[1] && |t| >= 2;
    }
    OnePieceMore(first, rest);
    JoinFirst(first, rest, "]" + p);
    assert s == first + t;
    Regroup(Join(rest), "]", p);
    Regroup(Join([first] + rest), "]", p);
  }

  lemma Regroup(a: string, b: string, c: string)
    ensures a + b + c == a + (b + c)
  {
  }

  /** A body that is closed is made of such pieces. */
  lemma {:induction false} ClosedIsWritten(s: string) returns (pieces: seq<string>)
    requires ParseClass(s).Closed?
    ensures Written(pieces) && s == Join(pieces) + "]" + ParseClass(s).rest
  {
    hide ParseClass;
    ClosedStarts(s);
    if s[0] == ']' {
      pieces := [];
      assert s == "]" + s[1..];
    } else {
      hide Written, Join;
      BehindFirst(s);
      var rest := ClosedIsWritten(s[FirstPiece(s)..]);
      PieceAdded(s, rest, ParseClass(s).rest);
      pieces := [s[..FirstPiece(s)]] + rest;
    }
  }

  lemma ClosedBegins(pattern: string) returns (pieces: seq<string>, p: string)
    requires pattern != "" && pattern[0] == '['
    requires var negated := |pattern| > 1 && pattern[1] == '^';
      ParseClass(if negated then pattern[2..] else pattern[1..]).Closed?
    ensures BeginsWith(pattern, |pattern| > 1 && pattern[1] == '^', pieces, p)
  {
    hide Written, Join, ParseClass;
    var negated := |pattern| > 1 && pattern[1] == '^';
    var body := if negated then pattern[2..] else pattern[1..];
    pieces := ClosedIsWritten(body);
    p := ParseClass(body).rest;
    BodyStarts(pieces, p);
    BehindBracket(negated, pieces, p);
    assert pattern == (if negated then "[^" else "[") + body;
    assert ClassText(negated, pieces) + p == (if negated then "[^" else "[") + body;
  }

  /** A bracket behind which no class closes lets nothing match. */
  lemma UnclosedLaw(pattern: string, text: string)
    requires pattern != "" && pattern[0] == '['
    requires forall negated, pieces, p :: !BeginsWith(pattern, negated, pieces, p)
    ensures !Accepts(pattern, text)
  {
    hide BeginsWith, Accepts;
    var body := ParseClass(if |pattern| > 1 && pattern[1] == '^' then pattern[2..] else pattern[1..]);
    if body.Closed? {
      var pieces, p := ClosedBegins(pattern);
      assert false;
    }
    assert Tokens(pattern) == [Never];
    AcceptsIsMatches(pattern, text);
  }

  // ---- Two common classes ----

  lemma OnlyClass(pattern: string, negated: bool, pieces: seq<string>, c: char)
    requires BeginsWith(pattern, negated, pieces, "")
    ensures Accepts(pattern, [c]) <==> negated != InClass(pieces, c)
  {
    hide Accepts, BeginsWith, InClass;
    ClassLaw(pattern, negated, pieces, "", [c]);
    EmptyLaw([c][1..]);
  }

  /** `[a-z]` takes its two ends and what lies between them; `[^a-z]` everything else. */
  lemma RangeLaw(negated: bool, lo: char, hi: char, c: char)
    requires lo != ']' && (negated || lo != '^')
    ensures Accepts((if negated then "[^" else "[") + [lo, '-', hi, ']'], [c]) <==> negated != (lo <= c <= hi)
  {
    hide Accepts;
    var piece := [lo, '-', hi];
    var pieces := [piece];
    assert Join(pieces) == piece + Join([]) == piece;
    assert (if negated then "[^" else "[") + [lo, '-', hi, ']'] == ClassText(negated, pieces) + "";
    OnlyClass(ClassText(negated, pieces) + "", negated, pieces, c);
    assert InClass(pieces, c) <==> Within(pieces[0], c);
  }

  function Singles(s: string): seq<string> { seq(|s|, i requires 0 <= i < |s| => [s[i]]) }

  lemma {:induction false} JoinSingles(s: string)
    ensures Join(Singles(s)) == s
  {
    if s != "" {
      JoinSingles(s[1..]);
      assert Singles(s)[1..] == Singles(s[1..]);
    }
  }

  /** `[abc]` takes the characters it lists. */
  lemma SinglesLaw(negated: bool, s: string, c: char)
    requires ']' !in s && '-' !in s && (!negated && s != "" ==> s[0] != '^')
    ensures Accepts((if negated then "[^" else "[") + s + "]", [c]) <==> negated != (c in s)
  {
    hide Accepts, ClassText;
    var pieces := Singles(s);
    JoinSingles(s);
    assert (if negated then "[^" else "[") + s + "]" == ClassText(negated, pieces) + "" by {
      SinglesText(negated, s);
    }
    OnlyClass(ClassText(negated, pieces) + "", negated, pieces, c);
    if c in s {
      var i :| 0 <= i < |s| && s[i] == c;
      assert Within(pieces[i], c);
    }
  }

  lemma SinglesText(negated: bool, s: string)
    ensures (if negated then "[^" else "[") + s + "]" == ClassText(negated, Singles(s)) + ""
  {
    JoinSingles(s);
  }

  /** A lone question mark takes any one character. */
  lemma QuestionLaw(text: string)
    ensures Accepts("?", text) <==> |text| == 1
  {
    hide Accepts;
    AnyOneLaw("", text);
    assert "?" + "" == "?";
    if text != "" {
      EmptyLaw(text[1..]);
    }
  }
}
