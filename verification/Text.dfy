/** Searching and cutting strings, as the Go library calls do it. */
module Text {

  predicate OccursAt(s: string, p: string, i: nat) {
    i + |p| <= |s| && s[i..i + |p|] == p
  }

  ghost predicate Contains(s: string, p: string) {
    exists i: nat :: OccursAt(s, p, i)
  }

  /** strings.Index: the least position at which `p` occurs, or -1. */
  function Index(s: string, p: string): (r: int)
    ensures r == -1 || 0 <= r <= |s| - |p|
  {
    IndexFrom(s, p, 0)
  }

  function IndexFrom(s: string, p: string, from: nat): (r: int)
    ensures r == -1 || from <= r <= |s| - |p|
    decreases |s| - from
  {
    if OccursAt(s, p, from) then from
    else if from >= |s| then -1
    else IndexFrom(s, p, from + 1)
  }

  lemma {:induction false} IndexFromIsLeast(s: string, p: string, from: nat)
    ensures var r := IndexFrom(s, p, from);
      if r == -1 then forall i: nat :: i >= from ==> !OccursAt(s, p, i)
      else OccursAt(s, p, r) && forall i: nat :: from <= i < r ==> !OccursAt(s, p, i)
    decreases |s| - from
  {
    if !OccursAt(s, p, from) && from < |s| {
      IndexFromIsLeast(s, p, from + 1);
    }
  }

  lemma IndexIsLeast(s: string, p: string)
    ensures var r := Index(s, p);
      if r == -1 then !Contains(s, p)
      else OccursAt(s, p, r) && forall i: nat :: i < r ==> !OccursAt(s, p, i)
  {
    IndexFromIsLeast(s, p, 0);
  }

  /** The least position is unique. */
  lemma IndexIs(s: string, p: string, r: nat)
    requires OccursAt(s, p, r) && forall i: nat :: i < r ==> !OccursAt(s, p, i)
    ensures Index(s, p) == r
  {
    IndexIsLeast(s, p);
  }

  /** strings.Cut: what lies before and behind the first separator. */
  function Cut(s: string, sep: string): (string, string, bool) {
    var i := Index(s, sep);
    if i == -1 then (s, "", false) else (s[..i], s[i + |sep|..], true)
  }

  lemma CutParts(s: string, sep: string)
    ensures var (before, behind, found) := Cut(s, sep);
      if found then s == before + sep + behind else before == s && !Contains(s, sep)
  {
    IndexIsLeast(s, sep);
  }

  predicate HasPrefix(s: string, p: string) { OccursAt(s, p, 0) }

  lemma SingleOccurs(s: string, c: char, i: nat)
    ensures OccursAt(s, [c], i) <==> i < |s| && s[i] == c
  {
  }

  /** What a search for one character says of the characters. */
  lemma FirstOfChar(s: string, c: char)
    ensures var r := Index(s, [c]);
      if r == -1 then c !in s else r < |s| && s[r] == c && c !in s[..r]
  {
    hide Index;
    IndexIsLeast(s, [c]);
    var r := Index(s, [c]);
    forall i: nat | i < |s| && (r == -1 || i < r) ensures s[i] != c {
      SingleOccurs(s, c, i);
    }
    if r != -1 {
      SingleOccurs(s, c, r);
    }
  }

  /** A one-character separator is found at the first such character. */
  lemma IndexOfChar(before: string, c: char, behind: string)
    requires c !in before
    ensures Index(before + [c] + behind, [c]) == |before|
  {
    var s := before + [c] + behind;
    SingleOccurs(s, c, |before|);
    forall i: nat | i < |before| ensures !OccursAt(s, [c], i) {
      SingleOccurs(s, c, i);
      assert s[i] == before[i];
    }
    IndexIs(s, [c], |before|);
  }

  lemma IndexOfAbsentChar(s: string, c: char)
    ensures Index(s, [c]) == -1 <==> c !in s
  {
    IndexIsLeast(s, [c]);
    if c in s {
      var i :| 0 <= i < |s| && s[i] == c;
      SingleOccurs(s, c, i);
    } else if Index(s, [c]) != -1 {
      SingleOccurs(s, c, Index(s, [c]));
    }
  }
}
