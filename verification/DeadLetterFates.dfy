/** What one receipt and one whole life of a message in the dead letter queue come to
    (internal/resilience/dead_letter_queue.go), in terms of the bodies and of what the processor and
    the queue service answer. */
module DeadLetterFates {
  import opened DeadLetterQueue

  /** `r` is `q` without message `i`; the others keep their order. */
  predicate Without(q: seq<Message>, i: nat, r: seq<Message>)
    requires i < |q|
  {
    && |r| == |q| - 1
    && (forall k :: 0 <= k < i ==> r[k] == q[k])
    && forall k :: i <= k < |r| ==> r[k] == q[k + 1]
  }

  /** The received message leaves the queue exactly when its delete goes through. */
  ghost predicate Rest(q: seq<Message>, i: nat, deleted: bool, r: seq<Message>)
    requires i < |q|
  {
    if deleted then Without(q, i, r) else r == q
  }

  /** The queue behind a receipt after which nothing is sent again. */
  lemma ReceiptWithoutSend(s: World, i: nat, w: Weather, p: Protocol)
    requires i < |s.queue|
    requires match s.queue[i]
      case Garbage => true
      case Body(f, readable) => !readable || w.processed || !w.sent || f.retryCount >= p.maxRetries
    ensures Rest(s.queue, i, w.deleted, Next(s, i, w, p).queue)
  {
    hide Judge;
    assert Again(s.queue[i], w, p) == [];
    assert Next(s, i, w, p).queue == (if w.deleted then Removed(s.queue, i) else s.queue) by {
      var left := if w.deleted then Removed(s.queue, i) else s.queue;
      NextQueue(s, i, w, p);
      assert left + [] == left;
    }
  }

  lemma NextQueue(s: World, i: nat, w: Weather, p: Protocol)
    requires i < |s.queue|
    ensures Next(s, i, w, p).queue == (if w.deleted then Removed(s.queue, i) else s.queue) + Again(s.queue[i], w, p)
  {
  }

  /** A retry stands at the end of the queue: the same event, its count one higher. */
  lemma ReceiptWithSend(s: World, i: nat, w: Weather, p: Protocol)
    requires i < |s.queue| && s.queue[i].Body? && s.queue[i].readable
    requires !w.processed && w.sent && s.queue[i].failed.retryCount < p.maxRetries
    ensures var t := Next(s, i, w, p).queue;
      var f := FailedEvent(s.queue[i].failed.event, s.queue[i].failed.retryCount + 1);
      && |t| > 0 && Rest(s.queue, i, w.deleted, t[..|t| - 1])
      && t[|t| - 1] == Body(f, p.decodes(f))
  {
    hide Judge;
    NextQueue(s, i, w, p);
    var left := if w.deleted then Removed(s.queue, i) else s.queue;
    var t := Next(s, i, w, p).queue;
    assert t[..|t| - 1] == left;
  }

  /** In every run, what is recorded of a received message depends on its body, on the processor, on
      the retries it has used up and on the send, in this order. */
  lemma FatesAre(ws: seq<World>, ss: seq<Step>, n: nat, p: Protocol)
    requires Trace(ws, ss, p) && n < |ss|
    ensures var m, w, log := ws[n].queue[ss[n].index], ss[n].weather, ws[n + 1].log;
      && |log| == |ws[n].log| + 1 && log[..|ws[n].log|] == ws[n].log
      && var fate := log[|ws[n].log|];
      && (fate == Invalid <==> m == Garbage)
      && (fate.Undecoded? <==> m.Body? && !m.readable)
      && (fate.Tried? <==> m.Body? && m.readable)
      && (m.Body? ==> fate.failed == m.failed)
      && (fate.Tried? ==>
            && (fate.verdict == Succeeded <==> w.processed)
            && (fate.verdict == Exhausted <==> !w.processed && m.failed.retryCount >= p.maxRetries)
            && (fate.verdict == Requeued <==> !w.processed && m.failed.retryCount < p.maxRetries && w.sent)
            && (fate.verdict == SendFailed <==> !w.processed && m.failed.retryCount < p.maxRetries && !w.sent))
  {
    var step := ss[n];
    assert step.index < |ws[n].queue|;
  }

  // ---- The life of one event ----

  /** Every attempt before number `n` fails and is sent again. */
  predicate FailsUntil(ss: seq<Step>, n: nat) {
    n <= |ss| && forall i :: 0 <= i < n ==> !ss[i].weather.processed && ss[i].weather.sent
  }

  /** The record of the first `n` attempts, all sent again. */
  predicate Retried(log: seq<Fate>, e: EventID, n: nat) {
    |log| == n && forall i :: 0 <= i < n ==> log[i] == Tried(FailedEvent(e, i), Requeued)
  }

  /** The queue an event is alone in right after SendToDLQ, when every body the code writes decodes. */
  ghost predicate AloneAndReadable(s: World, e: EventID, p: Protocol) {
    s == World([Body(FailedEvent(e, 0), true)], []) && forall f :: p.decodes(f)
  }

  lemma {:induction false} StillRetried(ws: seq<World>, ss: seq<Step>, n: nat, p: Protocol, e: EventID)
    requires Trace(ws, ss, p) && DeletesWork(ss) && AloneAndReadable(ws[0], e, p)
    requires n <= p.maxRetries && FailsUntil(ss, n)
    ensures ws[n].queue == [Body(FailedEvent(e, n), true)] && Retried(ws[n].log, e, n)
  {
    if n > 0 {
      StillRetried(ws, ss, n - 1, p, e);
      var last := ss[n - 1];
      FatesAre(ws, ss, n - 1, p);
      ReceiptWithSend(ws[n - 1], last.index, last.weather, p);
      hide Next, Judge;
      assert ws[n].queue[0] == Body(FailedEvent(e, n), p.decodes(FailedEvent(e, n)));
    }
  }

  /** While attempts fail the event is queued with their number, up to maxRetries of them; the one after
      that is the last. An attempt that succeeds takes the event out of the queue. */
  lemma LifeOfAnEvent(ws: seq<World>, ss: seq<Step>, n: nat, p: Protocol, e: EventID)
    requires Trace(ws, ss, p) && DeletesWork(ss) && AloneAndReadable(ws[0], e, p)
    requires n <= p.maxRetries && n < |ss| && FailsUntil(ss, n)
    ensures ws[n].queue == [Body(FailedEvent(e, n), true)] && Retried(ws[n].log, e, n)
    ensures ss[n].weather.processed ==>
      ws[n + 1] == World([], ws[n].log + [Tried(FailedEvent(e, n), Succeeded)])
    ensures !ss[n].weather.processed && n == p.maxRetries ==>
      ws[n + 1] == World([], ws[n].log + [Tried(FailedEvent(e, n), Exhausted)])
    ensures !ss[n].weather.processed && n < p.maxRetries && !ss[n].weather.sent ==>
      ws[n + 1] == World([], ws[n].log + [Tried(FailedEvent(e, n), SendFailed)])
  {
    StillRetried(ws, ss, n, p, e);
    FatesAre(ws, ss, n, p);
    var s, t, last := ws[n], ws[n + 1], ss[n];
    assert t.log == t.log[..|s.log|] + [t.log[|s.log|]];
    if last.weather.processed || !last.weather.sent || n == p.maxRetries {
      ReceiptWithoutSend(s, last.index, last.weather, p);
      assert t.queue == [];
    }
  }
}
