/** How broadcasts reach one subscriber (internal/config/manager.go): each is issued in its own
    goroutine and handled in another, so a later one may overtake. */
module Delivery {

  /** `seen` are the broadcasts handled so far, by the order of their issue. */
  datatype State = State(issued: nat, pending: set<nat>, seen: seq<nat>)

  datatype Step = Issue | Handle(broadcast: nat)

  function Init(): State { State(0, {}, []) }

  predicate Possible(s: State, x: Step) { x.Handle? ==> x.broadcast in s.pending }

  function Next(s: State, x: Step): State {
    match x
    case Issue => State(s.issued + 1, s.pending + {s.issued}, s.seen)
    case Handle(b) => State(s.issued, s.pending - {b}, s.seen + [b])
  }

  ghost predicate Trace(ws: seq<State>, xs: seq<Step>) {
    && |ws| == |xs| + 1 && ws[0] == Init()
    && forall i {:trigger xs[i]} :: 0 <= i < |xs| ==> Possible(ws[i], xs[i]) && ws[i + 1] == Next(ws[i], xs[i])
  }

  /** Every broadcast issued is handled once or still pending. */
  ghost predicate Complete(s: State) {
    && (forall b :: b in s.seen || b in s.pending <==> 0 <= b < s.issued)
    && (forall b :: b in s.seen ==> b !in s.pending)
    && (forall i, j :: 0 <= i < j < |s.seen| ==> s.seen[i] != s.seen[j])
  }

  lemma {:induction false} DeliveredOnce(ws: seq<State>, xs: seq<Step>, n: nat)
    requires Trace(ws, xs) && n <= |xs|
    ensures Complete(ws[n])
  {
    if n > 0 {
      DeliveredOnce(ws, xs, n - 1);
      var s, x := ws[n - 1], xs[n - 1];
      if x.Handle? {
        assert forall b :: b in s.seen + [x.broadcast] <==> b in s.seen || b == x.broadcast;
      }
    }
  }

  /** The chain is seen in order and without gaps. */
  predicate InOrder(s: State) { forall k :: 0 <= k < |s.seen| ==> s.seen[k] == k }

  /** The handled broadcast is the oldest pending one. */
  ghost predicate OldestFirst(s: State, x: Step) {
    x.Handle? ==> forall b :: b in s.pending ==> x.broadcast <= b
  }

  /** What was handled in order are the first broadcasts. */
  lemma HandledFirst(s: State, b: nat)
    requires InOrder(s)
    ensures b in s.seen <==> b < |s.seen|
  {
    if b < |s.seen| {
      assert s.seen[b] == b;
    }
  }

  lemma StepInOrder(s: State, x: Step)
    requires Complete(s) && InOrder(s) && Possible(s, x)
    ensures InOrder(Next(s, x)) <==> OldestFirst(s, x)
  {
    if x.Handle? {
      var m, t := |s.seen|, Next(s, x);
      forall b: nat ensures b in s.seen <==> b < m {
        HandledFirst(s, b);
      }
      assert m <= x.broadcast < s.issued;
      assert m in s.pending;
      assert t.seen[m] == x.broadcast;
    }
  }

  lemma StaysOutOfOrder(s: State, x: Step)
    requires !InOrder(s)
    ensures !InOrder(Next(s, x))
  {
    var k :| 0 <= k < |s.seen| && s.seen[k] != k;
    assert Next(s, x).seen[k] != k;
  }

  /** No broadcast overtook an older one among the first `n` steps. */
  ghost predicate NoneOvertook(ws: seq<State>, xs: seq<Step>, n: nat)
    requires n <= |xs| < |ws|
  {
    forall i :: 0 <= i < n ==> OldestFirst(ws[i], xs[i])
  }

  lemma OneStepMore(ws: seq<State>, xs: seq<Step>, n: nat)
    requires n < |xs| < |ws|
    ensures NoneOvertook(ws, xs, n + 1) <==> NoneOvertook(ws, xs, n) && OldestFirst(ws[n], xs[n])
  {
  }

  lemma StepOrder(s: State, x: Step)
    requires Complete(s) && Possible(s, x)
    ensures InOrder(Next(s, x)) <==> InOrder(s) && OldestFirst(s, x)
  {
    if InOrder(s) {
      StepInOrder(s, x);
    } else {
      StaysOutOfOrder(s, x);
    }
  }

  /** A subscriber sees the chain of snapshots in order exactly when no broadcast overtakes an older one. */
  lemma {:induction false} SeenInOrderIff(ws: seq<State>, xs: seq<Step>, n: nat)
    requires Trace(ws, xs) && n <= |xs|
    ensures InOrder(ws[n]) <==> NoneOvertook(ws, xs, n)
  {
    if n > 0 {
      var s, x := ws[n - 1], xs[n - 1];
      SeenInOrderIff(ws, xs, n - 1);
      DeliveredOnce(ws, xs, n - 1);
      StepOrder(s, x);
      OneStepMore(ws, xs, n - 1);
    }
  }

  /** Two broadcasts are issued and the later one is handled first. */
  lemma Overtaken()
    ensures var a, b := Next(Init(), Issue), Next(Next(Init(), Issue), Issue);
      var c := Next(b, Handle(1));
      && Trace([Init(), a, b, c], [Issue, Issue, Handle(1)])
      && c.seen == [1] && !InOrder(c)
  {
    var a, b := Next(Init(), Issue), Next(Next(Init(), Issue), Issue);
    var c := Next(b, Handle(1));
    var ws, xs := [Init(), a, b, c], [Issue, Issue, Handle(1)];
    assert 1 in b.pending;
    assert c.seen[0] == 1;
    forall i | 0 <= i < |xs| ensures Possible(ws[i], xs[i]) && ws[i + 1] == Next(ws[i], xs[i]) {
      assert i == 0 || i == 1 || i == 2;
    }
  }
}
