/** What a flush and a BufferEvent call of internal/resilience/kinesis_buffer.go come to, in terms of
    the events and of which sends succeed. */
module KinesisOutcomes {
  import opened KinesisBuffer

  lemma Ordered(a: nat, b: nat, size: nat)
    requires a <= b
    ensures a * size <= b * size
  {
    assert b * size == a * size + (b - a) * size;
  }

  /** Batch `k` of these events, each of `size` events but the last. */
  function Piece(events: seq<Event>, size: nat, k: nat): seq<Event>
    requires k * size <= |events|
  {
    events[k * size..Min(k * size + size, |events|)]
  }

  /** A flush that begins with batch `from`: it fails with the first send that does, or all of its
      batches are sent. */
  predicate EndsAs(r: Job, events: seq<Event>, size: nat, sends: nat -> bool, from: nat) {
    && r.events == events && from <= r.sent && (forall i :: from <= i < r.sent ==> sends(i))
    && if r.failed then r.sent * size < |events| && !sends(r.sent) && r.done == r.sent * size
       else r.done == |events| <= r.sent * size && (r.sent > from ==> (r.sent - 1) * size < |events|)
  }

  lemma EndsSooner(r: Job, events: seq<Event>, size: nat, sends: nat -> bool, k: nat)
    requires EndsAs(r, events, size, sends, k + 1) && sends(k) && k * size < |events|
    ensures EndsAs(r, events, size, sends, k)
  {
    hide Min;
  }

  lemma EndsNow(events: seq<Event>, size: nat, sends: nat -> bool, k: nat)
    requires k * size < |events| && !sends(k)
    ensures EndsAs(Job(events, k * size, k, true), events, size, sends, k)
  {
  }

  lemma EndsDone(events: seq<Event>, size: nat, sends: nat -> bool, k: nat)
    requires |events| <= k * size
    ensures EndsAs(Job(events, |events|, k, false), events, size, sends, k)
  {
  }

  lemma {:induction false} SettleFrom(cfg: Config, events: seq<Event>, sends: nat -> bool, k: nat)
    requires cfg.Valid() && (k > 0 ==> (k - 1) * cfg.maxBatchSize < |events|)
    ensures var size := cfg.maxBatchSize;
      EndsAs(Settle(cfg, Job(events, Min(k * size, |events|), k, false), sends, k), events, size, sends, k)
    decreases |events| - Min(k * cfg.maxBatchSize, |events|)
  {
    hide Settle, EndsAs;
    var size := cfg.maxBatchSize;
    var done := Min(k * size, |events|);
    SettleNext(cfg, events, done, k, sends);
    if done == |events| {
      EndsDone(events, size, sends, k);
    } else if sends(k) {
      assert (k + 1) * size == k * size + size;
      SettleFrom(cfg, events, sends, k + 1);
      EndsSooner(Settle(cfg, Job(events, Min((k + 1) * size, |events|), k + 1, false), sends, k + 1),
                 events, size, sends, k);
    } else {
      EndsNow(events, size, sends, k);
    }
  }

  /** The flush of a buffer. */
  lemma FlushEnds(cfg: Config, events: seq<Event>, sends: nat -> bool)
    requires cfg.Valid()
    ensures EndsAs(Settle(cfg, NewJob(events), sends, 0), events, cfg.maxBatchSize, sends, 0)
  {
    assert 0 * cfg.maxBatchSize == 0;
    SettleFrom(cfg, events, sends, 0);
  }

  /** It succeeds exactly when every batch is sent, and otherwise dead-letters the first that is not. */
  lemma FlushSucceedsIff(cfg: Config, events: seq<Event>, sends: nat -> bool)
    requires cfg.Valid()
    ensures var r, size := Settle(cfg, NewJob(events), sends, 0), cfg.maxBatchSize;
      && (!r.failed <==> forall k: nat :: k * size < |events| ==> sends(k))
      && (r.failed ==>
            && r.sent * size < |events| && !sends(r.sent) && (forall i :: 0 <= i < r.sent ==> sends(i))
            && Published(r) == events[..r.sent * size] && DeadLettered(cfg, r) == Piece(events, size, r.sent))
      && (!r.failed ==> Published(r) == events && DeadLettered(cfg, r) == [])
  {
    hide Settle;
    var r, size := Settle(cfg, NewJob(events), sends, 0), cfg.maxBatchSize;
    FlushEnds(cfg, events, sends);
    if !r.failed {
      forall k: nat | k * size < |events| ensures sends(k) {
        if k >= r.sent {
          Ordered(r.sent, k, size);
        }
      }
    }
  }

  // ---- One BufferEvent call ----

  /** A throttled event changes nothing but the count of dropped events. */
  lemma ThrottledCall(cfg: Config, v: View, r: Request)
    requires cfg.Valid() && !r.allowed
    ensures ReplyTo(cfg, v, r) == Throttled
    ensures var u, h := Served(cfg, v, r), v.health;
      && u.buffers == v.buffers && u.deadLetters == v.deadLetters
      && u.health == Health(h.buffered, h.dropped + 1, h.processed, h.batchesSent, h.batchesFailed)
  {
  }

  /** Where there is room the event joins the others. */
  lemma RoomCall(cfg: Config, v: View, r: Request)
    requires cfg.Valid() && r.allowed && |Before(v, r.tenant)| < cfg.maxTenantBuffer
    ensures ReplyTo(cfg, v, r) == Accepted
    ensures var u, h := Served(cfg, v, r), v.health;
      && u.buffers == v.buffers[r.tenant := Before(v, r.tenant) + [r.event]] && u.deadLetters == v.deadLetters
      && u.health == Health(h.buffered + 1, h.dropped, h.processed, h.batchesSent, h.batchesFailed)
  {
    hide Settle;
    assert v.deadLetters + [] == v.deadLetters;
  }

  /** A full buffer whose batches are all sent is empty for the event, which finds room unless there
      never is any. */
  lemma FlushedCall(cfg: Config, v: View, r: Request) returns (batches: nat)
    requires cfg.Valid() && r.allowed && |Before(v, r.tenant)| >= cfg.maxTenantBuffer
    requires forall k: nat :: k * cfg.maxBatchSize < |Before(v, r.tenant)| ==> r.sends(k)
    ensures var n, size := |Before(v, r.tenant)|, cfg.maxBatchSize;
      n <= batches * size && (batches > 0 ==> (batches - 1) * size < n)
    ensures var fits := cfg.maxTenantBuffer > 0;
      && ReplyTo(cfg, v, r) == (if fits then Accepted else BufferFull)
      && var u, h := Served(cfg, v, r), v.health;
      && u.buffers == v.buffers[r.tenant := if fits then [r.event] else []] && u.deadLetters == v.deadLetters
      && u.health == Health(h.buffered + (if fits then 1 else 0), h.dropped + (if fits then 0 else 1),
                            h.processed + |Before(v, r.tenant)|, h.batchesSent + batches, h.batchesFailed)
  {
    var was := Before(v, r.tenant);
    FlushSucceedsIff(cfg, was, r.sends);
    FlushEnds(cfg, was, r.sends);
    hide Settle;
    batches := Settle(cfg, NewJob(was), r.sends, 0).sent;
    var none: seq<Event> := [];
    assert none + [r.event] == [r.event] && none + none == none;
    assert v.deadLetters + [] == v.deadLetters;
  }

  /** When batch `k` is the first that is not sent, its events and then the event itself are handed to
      the dead letter queue, the ones behind them are gone, and the caller is told. */
  lemma FailedCall(cfg: Config, v: View, r: Request, k: nat)
    requires cfg.Valid() && r.allowed && |Before(v, r.tenant)| >= cfg.maxTenantBuffer
    requires k * cfg.maxBatchSize < |Before(v, r.tenant)| && !r.sends(k) && forall i :: 0 <= i < k ==> r.sends(i)
    ensures ReplyTo(cfg, v, r) == FlushFailed
    ensures var u, h := Served(cfg, v, r), v.health;
      var given := Piece(Before(v, r.tenant), cfg.maxBatchSize, k) + [r.event];
      && u.buffers == v.buffers[r.tenant := []]
      && |u.deadLetters| == |v.deadLetters| + |given| && u.deadLetters[..|v.deadLetters|] == v.deadLetters
      && (forall i :: 0 <= i < |given| ==> u.deadLetters[|v.deadLetters| + i] == (r.tenant, given[i]))
      && u.health == Health(h.buffered, h.dropped + 1, h.processed + k * cfg.maxBatchSize,
                            h.batchesSent + k, h.batchesFailed + 1)
  {
    var was, size := Before(v, r.tenant), cfg.maxBatchSize;
    FlushSucceedsIff(cfg, was, r.sends);
    FlushEnds(cfg, was, r.sends);
    hide Settle;
    var j := Settle(cfg, NewJob(was), r.sends, 0);
    FirstFailure(r.sends, k, j.sent);
  }

  lemma FirstFailure(sends: nat -> bool, k: nat, j: nat)
    requires !sends(k) && (forall i :: 0 <= i < k ==> sends(i)) && !sends(j) && forall i :: 0 <= i < j ==> sends(i)
    ensures j == k
  {
  }
}
