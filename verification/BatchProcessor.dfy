/** One stream of the asynchronous batch processor (internal/streaming/batch_processor.go). */
module BatchProcessor {

  datatype Event = Event(traceID: string, serviceName: string, payload: nat)

  const MAX_RETRY_ATTEMPTS: nat := 3
  const MAX_CHANNEL_BUFFER_SIZE: nat := 10000

  // ---- One flush with retries ----

  /** How a flush went: whether the k-th try succeeds, and whether the wait after it is cancelled. */
  datatype Weather = Weather(tries: nat -> bool, cancelled: nat -> bool)

  datatype Flush = Flush(attempts: nat, delivered: bool)

  function FlushFrom(w: Weather, attempt: nat): Flush
    decreases MAX_RETRY_ATTEMPTS - attempt
  {
    if attempt >= MAX_RETRY_ATTEMPTS then Flush(attempt, false)
    else if w.tries(attempt) then Flush(attempt + 1, true)
    else if attempt < MAX_RETRY_ATTEMPTS - 1 && w.cancelled(attempt) then Flush(attempt + 1, false)
    else FlushFrom(w, attempt + 1)
  }

  /** Try `k` is made exactly when no earlier one succeeded or was cut short. */
  ghost predicate Tried(w: Weather, k: nat) {
    k < MAX_RETRY_ATTEMPTS && forall i :: 0 <= i < k ==> !w.tries(i) && !w.cancelled(i)
  }

  lemma FlushMeaning(w: Weather)
    ensures var f := FlushFrom(w, 0);
      && 1 <= f.attempts <= MAX_RETRY_ATTEMPTS
      && (forall k: nat :: k < f.attempts <==> Tried(w, k))
      && (f.delivered <==> exists k: nat :: Tried(w, k) && w.tries(k))
  {
    var f := FlushFrom(w, 0);
    forall k: nat ensures k < f.attempts <==> Tried(w, k) {
      assert Tried(w, k) ==> k < 3;
    }
    if f.delivered {
      assert Tried(w, f.attempts - 1) && w.tries(f.attempts - 1);
    }
  }

  // ---- Runs of one stream ----

  datatype Batch = Batch(events: seq<Event>, attempts: nat, delivered: bool)

  /** `settled` batches were handed to a flush, successful or not; `channel` waits to be received. */
  datatype Stream = Stream(channel: seq<Event>, buffer: seq<Event>, settled: seq<Batch>, exited: bool)

  datatype Signal =
    | Publish(event: Event)
    | Receive(weather: Weather)
    | Tick(weather: Weather)
    | Quit(ok: bool)  // shutdown signal, cancelled context or closed channel; one last try

  function Settle(s: Stream, f: Flush): Stream {
    s.(buffer := [], settled := s.settled + [Batch(s.buffer, f.attempts, f.delivered)])
  }

  predicate Enabled(s: Stream, x: Signal) {
    match x
    case Publish(_) => true
    case Receive(_) => !s.exited && s.channel != []
    case Tick(_) => !s.exited
    case Quit(_) => !s.exited
  }

  predicate Fits(batchSize: nat, s: Stream) { |s.channel| < batchSize }

  function Next(batchSize: nat, s: Stream, x: Signal): Stream
    requires Enabled(s, x)
  {
    match x
    case Publish(e) => if Fits(batchSize, s) then s.(channel := s.channel + [e]) else s
    case Receive(w) =>
      var t := s.(channel := s.channel[1..], buffer := s.buffer + [s.channel[0]]);
      if |t.buffer| >= batchSize then Settle(t, FlushFrom(w, 0)) else t
    case Tick(w) => if s.buffer == [] then s else Settle(s, FlushFrom(w, 0))
    case Quit(ok) => (if s.buffer == [] then s else Settle(s, Flush(1, ok))).(exited := true)
  }

  predicate Feasible(batchSize: nat, s: Stream, xs: seq<Signal>)
    decreases |xs|
  {
    xs == [] || (Enabled(s, xs[0]) && Feasible(batchSize, Next(batchSize, s, xs[0]), xs[1..]))
  }

  function Run(batchSize: nat, s: Stream, xs: seq<Signal>): Stream
    requires Feasible(batchSize, s, xs)
    decreases |xs|
  {
    if xs == [] then s else Run(batchSize, Next(batchSize, s, xs[0]), xs[1..])
  }

  /** The published events that were not refused for lack of room, in order. */
  function Accepted(batchSize: nat, s: Stream, xs: seq<Signal>): seq<Event>
    requires Feasible(batchSize, s, xs)
    decreases |xs|
  {
    if xs == [] then []
    else
      (if xs[0].Publish? && Fits(batchSize, s) then [xs[0].event] else [])
      + Accepted(batchSize, Next(batchSize, s, xs[0]), xs[1..])
  }

  function Flatten(bs: seq<Batch>): seq<Event> {
    if bs == [] then [] else Flatten(bs[..|bs| - 1]) + bs[|bs| - 1].events
  }

  /** Everything the stream has taken in, oldest first. */
  function History(s: Stream): seq<Event> { Flatten(s.settled) + s.buffer + s.channel }

  predicate BatchOk(batchSize: nat, b: Batch) {
    1 <= |b.events| <= batchSize && 1 <= b.attempts <= MAX_RETRY_ATTEMPTS
  }

  ghost predicate Valid(batchSize: nat, s: Stream) {
    && |s.buffer| < batchSize && |s.channel| <= batchSize
    && (forall i :: 0 <= i < |s.settled| ==> BatchOk(batchSize, s.settled[i]))
    && (s.exited ==> s.buffer == [])
  }

  const EMPTY := Stream([], [], [], false)

  lemma SettleOk(batchSize: nat, s: Stream, f: Flush)
    requires 1 <= |s.buffer| <= batchSize && |s.channel| <= batchSize && 1 <= f.attempts <= MAX_RETRY_ATTEMPTS
    requires forall i :: 0 <= i < |s.settled| ==> BatchOk(batchSize, s.settled[i])
    ensures Valid(batchSize, Settle(s, f)) && History(Settle(s, f)) == History(s)
  {
    var b := Batch(s.buffer, f.attempts, f.delivered);
    assert (s.settled + [b])[..|s.settled|] == s.settled;
  }

  lemma NextOk(batchSize: nat, s: Stream, x: Signal)
    requires batchSize > 0 && Valid(batchSize, s) && Enabled(s, x)
    ensures var t := Next(batchSize, s, x);
      && Valid(batchSize, t)
      && History(t) == History(s) + if x.Publish? && Fits(batchSize, s) then [x.event] else []
  {
    hide FlushFrom, Flatten, BatchOk;
    match x
    case Publish(e) =>
    case Receive(w) =>
      FlushMeaning(w);
      var t := s.(channel := s.channel[1..], buffer := s.buffer + [s.channel[0]]);
      assert s.channel == [s.channel[0]] + s.channel[1..];
      assert History(t) == History(s);
      if |t.buffer| >= batchSize {
        SettleOk(batchSize, t, FlushFrom(w, 0));
      }
    case Tick(w) =>
      FlushMeaning(w);
      if s.buffer != [] {
        SettleOk(batchSize, s, FlushFrom(w, 0));
      }
    case Quit(ok) =>
      if s.buffer != [] {
        SettleOk(batchSize, s, Flush(1, ok));
      }
  }

  lemma {:induction false} RunFrom(batchSize: nat, s: Stream, xs: seq<Signal>)
    requires batchSize > 0 && Valid(batchSize, s) && Feasible(batchSize, s, xs)
    ensures Valid(batchSize, Run(batchSize, s, xs))
    ensures History(Run(batchSize, s, xs)) == History(s) + Accepted(batchSize, s, xs)
    decreases |xs|
  {
    if xs != [] {
      NextOk(batchSize, s, xs[0]);
      RunFrom(batchSize, Next(batchSize, s, xs[0]), xs[1..]);
    }
  }

  /** In every run the accepted events are the settled batches, then the buffer, then the
      channel; batches are never empty nor oversized and never tried more than three times;
      once the processor has exited only the channel is left unsettled. */
  lemma NothingIsLostOrReordered(batchSize: nat, xs: seq<Signal>)
    requires batchSize > 0 && Feasible(batchSize, EMPTY, xs)
    ensures var s := Run(batchSize, EMPTY, xs);
      && Accepted(batchSize, EMPTY, xs) == Flatten(s.settled) + s.buffer + s.channel
      && |s.buffer| < batchSize
      && (forall i :: 0 <= i < |s.settled| ==>
            1 <= |s.settled[i].events| <= batchSize && 1 <= s.settled[i].attempts <= 3)
      && (s.exited ==> Accepted(batchSize, EMPTY, xs) == Flatten(s.settled) + s.channel)
  {
    RunFrom(batchSize, EMPTY, xs);
    var s := Run(batchSize, EMPTY, xs);
    assert forall i :: 0 <= i < |s.settled| ==> BatchOk(batchSize, s.settled[i]);
  }

  /** Shutdown does not drain the channel: an event can be accepted and then left behind. */
  lemma ShutdownLeavesChannel(batchSize: nat, e: Event)
    requires batchSize > 0
    ensures var xs := [Publish(e), Quit(true)];
      && Feasible(batchSize, EMPTY, xs)
      && Run(batchSize, EMPTY, xs) == Stream([e], [], [], true)
  {
    var s := Next(batchSize, EMPTY, Publish(e));
    assert [Publish(e), Quit(true)][1..] == [Quit(true)] && [Quit(true)][1..] == [];
    assert s.channel == [e];
    assert Feasible(batchSize, s, [Quit(true)]);
    assert Run(batchSize, s, [Quit(true)]) == Stream([e], [], [], true);
  }

  /** Once the processor has exited nothing is settled any more: what is still accepted fills the channel. */
  lemma {:induction false} ExitedSettlesNothing(batchSize: nat, s: Stream, xs: seq<Signal>)
    requires s.exited && |s.channel| <= batchSize && Feasible(batchSize, s, xs)
    ensures Run(batchSize, s, xs) == s.(channel := s.channel + Accepted(batchSize, s, xs))
    ensures |s.channel + Accepted(batchSize, s, xs)| <= batchSize
    decreases |xs|
  {
    if xs == [] {
      assert s.channel + [] == s.channel;
    } else {
      ExitedSettlesNothing(batchSize, Next(batchSize, s, xs[0]), xs[1..]);
    }
  }

  // ---- What one more signal does to a stream ----

  /** The batch of a flush: tried until a try succeeds, the wait behind it is cut short or the third
      try is over. */
  predicate FlushedAs(b: Batch, events: seq<Event>, w: Weather) {
    && b.events == events && 1 <= b.attempts <= 3
    && (forall k :: 0 <= k < b.attempts - 1 ==> !w.tries(k) && !w.cancelled(k))
    && (b.delivered <==> w.tries(b.attempts - 1))
    && (!b.delivered ==> b.attempts == 3 || w.cancelled(b.attempts - 1))
  }

  lemma FlushIs(events: seq<Event>, w: Weather)
    ensures var f := FlushFrom(w, 0); FlushedAs(Batch(events, f.attempts, f.delivered), events, w)
  {
    assert FlushFrom(w, 3) == Flush(3, false);
  }

  lemma {:induction false} RunOneMore(batchSize: nat, s: Stream, xs: seq<Signal>, x: Signal)
    requires Feasible(batchSize, s, xs) && Enabled(Run(batchSize, s, xs), x)
    ensures Feasible(batchSize, s, xs + [x])
    ensures Run(batchSize, s, xs + [x]) == Next(batchSize, Run(batchSize, s, xs), x)
    decreases |xs|
  {
    if xs == [] {
      assert xs + [x] == [x] && [x][1..] == [];
    } else {
      assert (xs + [x])[1..] == xs[1..] + [x] && (xs + [x])[0] == xs[0];
      RunOneMore(batchSize, Next(batchSize, s, xs[0]), xs[1..], x);
    }
  }

  /** A tick settles whatever has been received, and leaves an empty buffer as it is. */
  lemma TickFlushes(batchSize: nat, xs: seq<Signal>, w: Weather)
    requires batchSize > 0 && Feasible(batchSize, EMPTY, xs) && !Run(batchSize, EMPTY, xs).exited
    ensures Feasible(batchSize, EMPTY, xs + [Tick(w)])
    ensures var s, t := Run(batchSize, EMPTY, xs), Run(batchSize, EMPTY, xs + [Tick(w)]);
      && t.buffer == [] && t.channel == s.channel && !t.exited
      && if s.buffer == [] then t.settled == s.settled
         else exists b :: t.settled == s.settled + [b] && FlushedAs(b, s.buffer, w)
  {
    var s := Run(batchSize, EMPTY, xs);
    RunOneMore(batchSize, EMPTY, xs, Tick(w));
    var f := FlushFrom(w, 0);
    hide FlushFrom, FlushedAs;
    FlushIs(s.buffer, w);
    assert s.buffer != [] ==> Settle(s, f).settled == s.settled + [Batch(s.buffer, f.attempts, f.delivered)];
  }

  /** A received event joins the buffer, and the batch is settled as soon as it is full. */
  lemma ReceiveFillsBatch(batchSize: nat, xs: seq<Signal>, w: Weather)
    requires batchSize > 0 && Feasible(batchSize, EMPTY, xs) && Enabled(Run(batchSize, EMPTY, xs), Receive(w))
    ensures Feasible(batchSize, EMPTY, xs + [Receive(w)])
    ensures var s, t := Run(batchSize, EMPTY, xs), Run(batchSize, EMPTY, xs + [Receive(w)]);
      var events := s.buffer + [s.channel[0]];
      && t.channel == s.channel[1..] && !t.exited && |events| <= batchSize
      && if |events| < batchSize then t.buffer == events && t.settled == s.settled
         else t.buffer == [] && exists b :: t.settled == s.settled + [b] && FlushedAs(b, events, w)
  {
    var s := Run(batchSize, EMPTY, xs);
    RunFrom(batchSize, EMPTY, xs);
    RunOneMore(batchSize, EMPTY, xs, Receive(w));
    var f := FlushFrom(w, 0);
    hide FlushFrom, FlushedAs, Run, Feasible;
    var events := s.buffer + [s.channel[0]];
    FlushIs(events, w);
    var b := Batch(events, f.attempts, f.delivered);
    assert |events| >= batchSize ==>
      Run(batchSize, EMPTY, xs + [Receive(w)]).settled == s.settled + [b];
  }

  /** A published event waits at the end of the channel, or is refused when that is full. */
  lemma PublishWaits(batchSize: nat, xs: seq<Signal>, e: Event)
    requires batchSize > 0 && Feasible(batchSize, EMPTY, xs)
    ensures Feasible(batchSize, EMPTY, xs + [Publish(e)])
    ensures var s, t := Run(batchSize, EMPTY, xs), Run(batchSize, EMPTY, xs + [Publish(e)]);
      t == s.(channel := if |s.channel| < batchSize then s.channel + [e] else s.channel)
  {
    RunOneMore(batchSize, EMPTY, xs, Publish(e));
  }

  /** On a quit signal what has been received gets one last try, and the loop is over. */
  lemma QuitTriesOnce(batchSize: nat, xs: seq<Signal>, ok: bool)
    requires batchSize > 0 && Feasible(batchSize, EMPTY, xs) && !Run(batchSize, EMPTY, xs).exited
    ensures Feasible(batchSize, EMPTY, xs + [Quit(ok)])
    ensures var s, t := Run(batchSize, EMPTY, xs), Run(batchSize, EMPTY, xs + [Quit(ok)]);
      t == Stream(s.channel, [], s.settled + (if s.buffer == [] then [] else [Batch(s.buffer, 1, ok)]), true)
  {
    RunOneMore(batchSize, EMPTY, xs, Quit(ok));
    var s := Run(batchSize, EMPTY, xs);
    assert s.settled + [] == s.settled;
  }

  // ---- Partitioning ----

  const DEFAULT_PARTITION_KEY := "unknown"

  /** The identifier in use: the trace, else the service, else the default. */
  function DeterminePartitionKey(e: Event): (key: string)
    ensures key != ""
    ensures key == e.traceID
      || (e.traceID == "" && (key == e.serviceName || (e.serviceName == "" && key == "unknown")))
  {
    if e.traceID != "" then e.traceID
    else if e.serviceName != "" then e.serviceName
    else DEFAULT_PARTITION_KEY
  }

  /** What a traceless event is known by. */
  function ServiceOrDefault(e: Event): string {
    if e.serviceName == "" then "unknown" else e.serviceName
  }

  /** Exactly when two events share a partition.  Events of one trace do; a traceless event also shares
      with a trace that is named like its service. */
  lemma SharePartitionIff(e: Event, f: Event)
    ensures DeterminePartitionKey(e) == DeterminePartitionKey(f) <==>
      if e.traceID == f.traceID then e.traceID != "" || ServiceOrDefault(e) == ServiceOrDefault(f)
      else
        || (e.traceID == "" && f.traceID == ServiceOrDefault(e))
        || (f.traceID == "" && e.traceID == ServiceOrDefault(f))
  {
  }

  // ---- The processor ----

  class StreamProcessor {
    const batchSize: nat
    var channel: seq<Event>
    var eventBuffer: seq<Event>
    var exited: bool
    ghost var settled: seq<Batch>

    ghost function View(): Stream
      reads this
    {
      Stream(channel, eventBuffer, settled, exited)
    }

    constructor (batchSize: nat)
      requires 1 <= batchSize <= MAX_CHANNEL_BUFFER_SIZE
      ensures this.batchSize == batchSize && View() == EMPTY
    {
      this.batchSize := batchSize;
      channel, eventBuffer, exited := [], [], false;
      settled := [];
    }

    /** The send that never blocks: a full channel refuses the event. */
    method Send(e: Event) returns (ok: bool)
      modifies this`channel
      ensures ok <==> Fits(batchSize, old(View()))
      ensures View() == Next(batchSize, old(View()), Publish(e))
    {
      ok := |channel| < batchSize;
      if ok {
        channel := channel + [e];
      }
    }

    /** Up to MAX_RETRY_ATTEMPTS tries, with a cancellable wait between them. */
    method FlushBatchSafely(events: seq<Event>, w: Weather) returns (flushed: nat)
      modifies this`settled
      ensures var f := FlushFrom(w, 0);
        && flushed == (if f.delivered then |events| else 0)
        && settled == old(settled) + if events == [] then [] else [Batch(events, f.attempts, f.delivered)]
    {
      if |events| == 0 {
        return 0;
      }
      var attempt := 0;
      while attempt < MAX_RETRY_ATTEMPTS
        invariant 0 <= attempt <= MAX_RETRY_ATTEMPTS && settled == old(settled)
        invariant FlushFrom(w, 0) == FlushFrom(w, attempt)
      {
        if w.tries(attempt) {
          settled := settled + [Batch(events, attempt + 1, true)];
          return |events|;
        }
        if attempt < MAX_RETRY_ATTEMPTS - 1 && w.cancelled(attempt) {
          settled := settled + [Batch(events, attempt + 1, false)];
          return 0;
        }
        attempt := attempt + 1;
      }
      settled := settled + [Batch(events, attempt, false)];
      return 0;
    }

    method HandleGracefulShutdown(ok: bool)
      modifies this`settled
      ensures settled == old(settled) + if eventBuffer == [] then [] else [Batch(eventBuffer, 1, ok)]
    {
      if |eventBuffer| == 0 {
        return;
      }
      settled := settled + [Batch(eventBuffer, 1, ok)];
    }

    /** The event loop.  The script says which case of the select fires next, and when other
        goroutines publish; the loop ends with the script or with a quit signal. */
    method ProcessBatch(script: seq<Signal>)
      requires !exited && Feasible(batchSize, View(), script)
      modifies this
      ensures View() == Run(batchSize, old(View()), script)
    {
      var i := 0;
      while i < |script|
        invariant 0 <= i <= |script|
        invariant Feasible(batchSize, View(), script[i..])
        invariant Run(batchSize, View(), script[i..]) == Run(batchSize, old(View()), script)
      {
        assert script[i..][1..] == script[i + 1..];
        ghost var before := View();
        match script[i] {
          case Publish(e) =>
            var _ := Send(e);
          case Receive(w) =>
            eventBuffer := eventBuffer + [channel[0]];
            channel := channel[1..];
            if |eventBuffer| >= batchSize {
              assert eventBuffer != [];
              var _ := FlushBatchSafely(eventBuffer, w);
              eventBuffer := [];
            }
          case Tick(w) =>
            if |eventBuffer| > 0 {
              var _ := FlushBatchSafely(eventBuffer, w);
              eventBuffer := [];
            }
          case Quit(ok) =>
            HandleGracefulShutdown(ok);
            eventBuffer := [];
            exited := true;
        }
        assert View() == Next(batchSize, before, script[i]);
        i := i + 1;
      }
    }
  }
}
