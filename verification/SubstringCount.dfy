/** Counting spans in raw OTLP JSON (internal/handlers/base.go). */
module SubstringCount {
  import opened Text

  const TRACE_ID_KEY := "\"traceId\""

  /** Least match or -1, comparing the first byte before the rest. */
  method FindInString(s: string, substr: string) returns (r: int)
    ensures r == -1 ==> !Contains(s, substr)
    ensures r != -1 ==> 0 <= r && OccursAt(s, substr, r) && forall i: nat :: i < r ==> !OccursAt(s, substr, i)
  {
    if |substr| == 0 {
      return 0;
    }
    if |substr| > |s| {
      return -1;
    }
    var i := 0;
    while i <= |s| - |substr|
      invariant 0 <= i <= |s| - |substr| + 1
      invariant forall k: nat :: k < i ==> !OccursAt(s, substr, k)
    {
      if s[i] == substr[0] {
        var match_ := true;
        var j := 1;
        while j < |substr|
          invariant 1 <= j <= |substr| && match_
          invariant forall k :: 0 <= k < j ==> s[i + k] == substr[k]
        {
          if i + j >= |s| || s[i + j] != substr[j] {
            Mismatch(s, substr, i, j);
            match_ := false;
            break;
          }
          j := j + 1;
        }
        if match_ {
          assert s[i..i + |substr|] == substr;
          return i;
        }
      } else {
        assert s[i] == s[i..i + |substr|][0];
      }
      i := i + 1;
    }
    return -1;
  }

  lemma Mismatch(s: string, p: string, i: nat, k: nat)
    requires i + |p| <= |s| && k < |p| && s[i + k] != p[k]
    ensures !OccursAt(s, p, i)
  {
    assert s[i..i + |p|][k] == s[i + k];
  }

  /** From `start` on, take the first occurrence and go on behind it. */
  function Greedy(s: string, key: string, start: nat): nat
    requires key != ""
    decreases |s| - start
  {
    var i := IndexFrom(s, key, start);
    if i == -1 then 0 else 1 + Greedy(s, key, i + |key|)
  }

  /** Dropping a prefix of the text shifts the occurrences behind it. */
  lemma ShiftOccurrence(s: string, key: string, start: nat, i: nat)
    requires start <= |s|
    ensures OccursAt(s[start..], key, i) <==> OccursAt(s, key, start + i)
  {
    if start + i + |key| <= |s| {
      assert s[start..][i..i + |key|] == s[start + i..start + i + |key|];
    }
  }

  /** What a search of the rest of the text finds, as a position in the text. */
  lemma SearchRest(s: string, key: string, start: nat, r: int)
    requires start <= |s| && r >= -1
    requires r == -1 ==> !Contains(s[start..], key)
    requires r != -1 ==> OccursAt(s[start..], key, r) && forall i: nat :: i < r ==> !OccursAt(s[start..], key, i)
    ensures IndexFrom(s, key, start) == if r == -1 then -1 else start + r
  {
    IndexFromIsLeast(s, key, start);
    var i := IndexFrom(s, key, start);
    if i != -1 {
      ShiftOccurrence(s, key, start, i - start);
    }
    if r != -1 {
      ShiftOccurrence(s, key, start, r);
    }
  }

  /** The scanning loop, for any key. */
  method CountKey(s: string, key: string) returns (count: nat)
    requires key != ""
    ensures count == Greedy(s, key, 0)
  {
    count := 0;
    var searchStart := 0;
    while true
      invariant 0 <= searchStart <= |s|
      invariant count + Greedy(s, key, searchStart) == Greedy(s, key, 0)
      decreases |s| - searchStart
    {
      var idx := FindInString(s[searchStart..], key);
      SearchRest(s, key, searchStart, idx);
      if idx == -1 {
        break;
      }
      count := count + 1;
      searchStart := searchStart + idx + |key|;
    }
  }

  /** The number of spans is the largest number of disjoint places at which the key stands. */
  method CountSpansInOTLP(s: string) returns (count: nat)
    ensures exists ps :: DisjointOccurrences(s, TRACE_ID_KEY, ps) && |ps| == count
    ensures forall ps :: DisjointOccurrences(s, TRACE_ID_KEY, ps) ==> |ps| <= count
  {
    count := CountKey(s, TRACE_ID_KEY);
    GreedyIsOptimal(s, TRACE_ID_KEY);
  }

  /** Occurrences of the key, from left to right, no two of which overlap. */
  ghost predicate DisjointOccurrences(s: string, key: string, ps: seq<nat>) {
    && (forall i :: 0 <= i < |ps| ==> OccursAt(s, key, ps[i]))
    && (forall i, j :: 0 <= i < j < |ps| ==> ps[i] + |key| <= ps[j])
  }

  /** No family of disjoint occurrences is larger than the greedy one. */
  lemma {:induction false} GreedyIsMaximal(s: string, key: string, start: nat, ps: seq<nat>)
    requires key != "" && DisjointOccurrences(s, key, ps)
    requires forall i :: 0 <= i < |ps| ==> start <= ps[i]
    ensures |ps| <= Greedy(s, key, start)
    decreases |ps|
  {
    if ps != [] {
      IndexFromIsLeast(s, key, start);
      assert OccursAt(s, key, ps[0]);
      GreedyIsMaximal(s, key, IndexFrom(s, key, start) + |key|, ps[1..]);
    }
  }

  lemma {:induction false} GreedyIsAchieved(s: string, key: string, start: nat) returns (ps: seq<nat>)
    requires key != ""
    ensures DisjointOccurrences(s, key, ps) && |ps| == Greedy(s, key, start)
    ensures forall i :: 0 <= i < |ps| ==> start <= ps[i]
    decreases |s| - start
  {
    IndexFromIsLeast(s, key, start);
    var i := IndexFrom(s, key, start);
    if i == -1 {
      ps := [];
    } else {
      var rest := GreedyIsAchieved(s, key, i + |key|);
      ps := [i as nat] + rest;
    }
  }

  /** The count is the largest number of pairwise disjoint occurrences of the key. */
  lemma GreedyIsOptimal(s: string, key: string)
    requires key != ""
    ensures exists ps :: DisjointOccurrences(s, key, ps) && |ps| == Greedy(s, key, 0)
    ensures forall ps :: DisjointOccurrences(s, key, ps) ==> |ps| <= Greedy(s, key, 0)
  {
    var ps := GreedyIsAchieved(s, key, 0);
    forall qs | DisjointOccurrences(s, key, qs) ensures |qs| <= Greedy(s, key, 0) {
      GreedyIsMaximal(s, key, 0, qs);
    }
  }
}
