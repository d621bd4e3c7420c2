/** Starting and stopping the batch processor (internal/streaming/batch_processor.go). */
module BatchLifecycle {

  import P = BatchProcessor

  /** The open channels by stream type, and whether the shutdown channel has been closed. */
  datatype Life = Life(isRunning: bool, shutdownClosed: bool, channels: map<string, seq<P.Event>>)

  datatype Call =
    | Start(streams: map<string, string>)  // stream type to stream name
    | Stop(inTime: bool)                   // whether the processors exit before the timeout
    | Publish(streamType: string, event: P.Event)
    | Receive(streamType: string)          // a processor takes the oldest event

  datatype Answer =
    | Started | AlreadyRunning | NoStreams | NoActiveStreams
    | Stopped | Idle | TimedOut | Panicked
    | Accepted | EmptyStreamType | NotRunning | NoChannel | ChannelFull
    | Received | Nothing

  function Init(): Life { Life(false, false, map[]) }

  function Active(streams: map<string, string>): set<string> { set t | t in streams && streams[t] != "" }

  /** New channels, in place of those of the same type. */
  function Fresh(types: set<string>): map<string, seq<P.Event>> { map t | t in types :: [] }

  function Reply(batchSize: nat, s: Life, c: Call): Answer {
    match c
    case Start(streams) =>
      if s.isRunning then AlreadyRunning
      else if streams == map[] then NoStreams
      else if Active(streams) == {} then NoActiveStreams
      else Started
    case Stop(inTime) =>
      if !s.isRunning then Idle
      else if s.shutdownClosed then Panicked  // closing a closed channel
      else if inTime then Stopped
      else TimedOut
    case Publish(t, _) =>
      if t == "" then EmptyStreamType
      else if !s.isRunning then NotRunning
      else if t !in s.channels then NoChannel
      else if |s.channels[t]| < batchSize then Accepted
      else ChannelFull
    case Receive(t) => if t in s.channels && s.channels[t] != [] then Received else Nothing
  }

  function Next(batchSize: nat, s: Life, c: Call): Life {
    match Reply(batchSize, s, c)
    case Started => s.(isRunning := true, channels := s.channels + Fresh(Active(c.streams)))
    case Stopped => Life(false, true, map[])
    case TimedOut => s.(shutdownClosed := true)
    case Accepted => s.(channels := s.channels[c.streamType := s.channels[c.streamType] + [c.event]])
    case Received => s.(channels := s.channels[c.streamType := s.channels[c.streamType][1..]])
    case _ => s
  }

  /** The states, calls and answers of a run. */
  ghost predicate Trace(batchSize: nat, ws: seq<Life>, cs: seq<Call>, answers: seq<Answer>) {
    && |ws| == |cs| + 1 && |answers| == |cs| && ws[0] == Init()
    && forall i {:trigger cs[i]} :: 0 <= i < |cs| ==>
      ws[i + 1] == Next(batchSize, ws[i], cs[i]) && answers[i] == Reply(batchSize, ws[i], cs[i])
  }

  /** A call that closed the shutdown channel. */
  predicate ShutsDown(a: Answer) { a == Stopped || a == TimedOut }

  lemma StepCloses(batchSize: nat, s: Life, c: Call)
    ensures Next(batchSize, s, c).shutdownClosed <==> s.shutdownClosed || ShutsDown(Reply(batchSize, s, c))
    ensures ShutsDown(Reply(batchSize, s, c)) ==> !s.shutdownClosed
    ensures s.shutdownClosed ==>
      (Next(batchSize, s, c).isRunning <==> s.isRunning || Reply(batchSize, s, c) == Started)
    ensures ShutsDown(Reply(batchSize, s, c)) ==>
      (Next(batchSize, s, c).isRunning <==> Reply(batchSize, s, c) == TimedOut)
  {
  }

  lemma {:induction false} ClosedOnce(
    batchSize: nat, ws: seq<Life>, cs: seq<Call>, answers: seq<Answer>, n: nat)
    requires Trace(batchSize, ws, cs, answers) && n <= |cs|
    ensures ws[n].shutdownClosed <==> exists i :: 0 <= i < n && ShutsDown(answers[i])
    ensures forall i, j :: 0 <= i < j < n && ShutsDown(answers[i]) ==> !ShutsDown(answers[j])
  {
    if n > 0 {
      ClosedOnce(batchSize, ws, cs, answers, n - 1);
      StepCloses(batchSize, ws[n - 1], cs[n - 1]);
    }
  }

  /** Stop panics exactly when the processor counts as running although an earlier Stop has closed
      the shutdown channel: that Stop timed out, or a Start came after it.  Only one Stop of a
      processor ever takes effect, in spite of the comment that Stop is idempotent. */
  lemma StopPanicsIff(
    batchSize: nat, ws: seq<Life>, cs: seq<Call>, answers: seq<Answer>, n: nat, inTime: bool)
    requires Trace(batchSize, ws, cs, answers) && n <= |cs|
    ensures Reply(batchSize, ws[n], Stop(inTime)) == Panicked
      <==> ws[n].isRunning && exists i :: 0 <= i < n && ShutsDown(answers[i])
  {
    ClosedOnce(batchSize, ws, cs, answers, n);
  }

  /** Started, stopped and started again: the next Stop panics. */
  lemma RestartedStopPanics(batchSize: nat, streams: map<string, string>, inTime: bool)
    requires Active(streams) != {}
    ensures var a := Next(batchSize, Init(), Start(streams));
      var b := Next(batchSize, a, Stop(true));
      var c := Next(batchSize, b, Start(streams));
      && Trace(batchSize, [Init(), a, b, c], [Start(streams), Stop(true), Start(streams)], [Started, Stopped, Started])
      && Reply(batchSize, c, Stop(inTime)) == Panicked
  {
    var a := Next(batchSize, Init(), Start(streams));
    var b := Next(batchSize, a, Stop(true));
    var c := Next(batchSize, b, Start(streams));
    var ws, cs := [Init(), a, b, c], [Start(streams), Stop(true), Start(streams)];
    var answers := [Started, Stopped, Started];
    forall i | 0 <= i < |cs|
      ensures ws[i + 1] == Next(batchSize, ws[i], cs[i]) && answers[i] == Reply(batchSize, ws[i], cs[i])
    {
      assert i == 0 || i == 1 || i == 2;
    }
  }

  /** A Start was accepted after call `i` and before call `n`. */
  predicate RestartedBetween(answers: seq<Answer>, i: nat, n: nat)
    requires n <= |answers|
  {
    exists j :: i < j < n && answers[j] == Started
  }

  lemma OneCallMore(answers: seq<Answer>, i: nat, n: nat)
    requires i < n < |answers|
    ensures RestartedBetween(answers, i, n + 1) <==> RestartedBetween(answers, i, n) || answers[n] == Started
  {
  }

  /** After a shutdown the processor counts as running exactly when that Stop had timed out or a
      later Start was accepted; every further Stop then panics. */
  lemma {:induction false} RunningAfterShutdown(
    batchSize: nat, ws: seq<Life>, cs: seq<Call>, answers: seq<Answer>, i: nat, n: nat)
    requires Trace(batchSize, ws, cs, answers) && i < n <= |cs| && ShutsDown(answers[i])
    ensures ws[n].shutdownClosed
    ensures ws[n].isRunning <==> answers[i] == TimedOut || RestartedBetween(answers, i, n)
  {
    StepCloses(batchSize, ws[n - 1], cs[n - 1]);
    if n - 1 > i {
      RunningAfterShutdown(batchSize, ws, cs, answers, i, n - 1);
      OneCallMore(answers, i, n - 1);
    }
  }

  /** Calls that publish `es` to one stream type. */
  predicate Publishes(cs: seq<Call>, from: nat, t: string, es: seq<P.Event>) {
    from + |es| <= |cs| && forall k :: 0 <= k < |es| ==> cs[from + k] == Publish(t, es[k])
  }

  lemma PublishOne(batchSize: nat, s: Life, t: string, e: P.Event)
    requires s.isRunning && t != "" && t in s.channels && |s.channels[t]| < batchSize
    ensures Reply(batchSize, s, Publish(t, e)) == Accepted
    ensures var n := Next(batchSize, s, Publish(t, e));
      n.isRunning && t in n.channels && n.channels[t] == s.channels[t] + [e]
  {
  }

  lemma {:induction false} PublishingFills(
    batchSize: nat, ws: seq<Life>, cs: seq<Call>, answers: seq<Answer>, from: nat, t: string, es: seq<P.Event>, k: nat)
    requires Trace(batchSize, ws, cs, answers) && Publishes(cs, from, t, es) && k <= |es| <= batchSize && t != ""
    requires ws[from].isRunning && t in ws[from].channels && ws[from].channels[t] == []
    ensures ws[from + k].isRunning && t in ws[from + k].channels && ws[from + k].channels[t] == es[..k]
    ensures k < |es| ==> answers[from + k] == Accepted
  {
    if k > 0 {
      PublishingFills(batchSize, ws, cs, answers, from, t, es, k - 1);
      assert cs[from + (k - 1)] == Publish(t, es[k - 1]);
      PublishOne(batchSize, ws[from + k - 1], t, es[k - 1]);
      assert es[..k] == es[..k - 1] + [es[k - 1]];
    }
    if k < |es| {
      assert cs[from + k] == Publish(t, es[k]);
      PublishOne(batchSize, ws[from + k], t, es[k]);
    }
  }

  /** The signals of a stream whose processor finds the shutdown channel closed. */
  function QuitThenPublish(ok: bool, es: seq<P.Event>): seq<P.Signal> {
    [P.Quit(ok)] + seq(|es|, i requires 0 <= i < |es| => P.Publish(es[i]))
  }

  /** A stream that takes the quit case first leaves all that is published in its channel. */
  ghost predicate Strands(batchSize: nat, es: seq<P.Event>, ok: bool) {
    var xs := QuitThenPublish(ok, es);
    P.Feasible(batchSize, P.EMPTY, xs) && P.Run(batchSize, P.EMPTY, xs) == P.Stream(es, [], [], true)
  }

  lemma {:induction false} OnlyPublishing(batchSize: nat, s: P.Stream, es: seq<P.Event>, xs: seq<P.Signal>)
    requires |xs| == |es| && |s.channel| + |es| <= batchSize
    requires forall i :: 0 <= i < |es| ==> xs[i] == P.Publish(es[i])
    ensures P.Feasible(batchSize, s, xs) && P.Run(batchSize, s, xs) == s.(channel := s.channel + es)
    decreases |es|
  {
    if es == [] {
      assert s.channel + es == s.channel;
    } else {
      assert xs[0] == P.Publish(es[0]);
      OnlyPublishing(batchSize, P.Next(batchSize, s, xs[0]), es[1..], xs[1..]);
      assert s.channel + es == (s.channel + [es[0]]) + es[1..];
    }
  }

  lemma QuitStrands(batchSize: nat, ok: bool, es: seq<P.Event>)
    requires |es| <= batchSize
    ensures Strands(batchSize, es, ok)
  {
    var xs := QuitThenPublish(ok, es);
    var s := P.Next(batchSize, P.EMPTY, xs[0]);
    OnlyPublishing(batchSize, s, es, xs[1..]);
    assert s.channel + es == es;
  }

  lemma FreshHas(types: set<string>, was: map<string, seq<P.Event>>, t: string)
    requires t in types
    ensures t in was + Fresh(types) && (was + Fresh(types))[t] == []
  {
  }

  lemma RestartOpens(batchSize: nat, s: Life, c: Call, t: string)
    requires s.shutdownClosed && c.Start? && Reply(batchSize, s, c) == Started && t in Active(c.streams)
    ensures var n := Next(batchSize, s, c);
      n.shutdownClosed && n.isRunning && t in n.channels && n.channels[t] == []
  {
    FreshHas(Active(c.streams), s.channels, t);
  }

  /** After the restart everything published to stream `t` is accepted and waits in its channel. */
  lemma RestartAccepts(
    batchSize: nat, ws: seq<Life>, cs: seq<Call>, answers: seq<Answer>, i: nat, j: nat, t: string,
    es: seq<P.Event>, k: nat)
    requires Trace(batchSize, ws, cs, answers) && i < j < |cs| && ShutsDown(answers[i]) && answers[j] == Started
    requires cs[j].Start? && t != "" && t in Active(cs[j].streams)
    requires |es| <= batchSize && Publishes(cs, j + 1, t, es) && k <= |es|
    ensures ws[j + 1].shutdownClosed && ws[j + 1].isRunning
    ensures t in ws[j + 1 + k].channels && ws[j + 1 + k].channels[t] == es[..k]
    ensures k < |es| ==> answers[j + 1 + k] == Accepted
  {
    hide Next, Reply, Publishes;
    RunningAfterShutdown(batchSize, ws, cs, answers, i, j);
    RestartOpens(batchSize, ws[j], cs[j], t);
    PublishingFills(batchSize, ws, cs, answers, j + 1, t, es, k);
  }

  /** Call `i` shuts the processor down and call `j` starts it again: the shutdown channel is still
      closed, so the quit case of every new stream is ready.  Up to `batchSize` events published next
      are all accepted (the `k`-th, for any `k`), and the stream that takes that case strands them. */
  lemma RestartStrandsEvents(
    batchSize: nat, ws: seq<Life>, cs: seq<Call>, answers: seq<Answer>, i: nat, j: nat, t: string,
    es: seq<P.Event>, k: nat, ok: bool)
    requires Trace(batchSize, ws, cs, answers) && i < j < |cs| && ShutsDown(answers[i]) && answers[j] == Started
    requires cs[j].Start? && t != "" && t in Active(cs[j].streams)
    requires |es| <= batchSize && Publishes(cs, j + 1, t, es) && k < |es|
    ensures ws[j + 1].shutdownClosed && ws[j + 1].isRunning
    ensures answers[j + 1 + k] == Accepted
    ensures t in ws[j + 1 + |es|].channels && ws[j + 1 + |es|].channels[t] == es
    ensures Strands(batchSize, es, ok)
  {
    RestartAccepts(batchSize, ws, cs, answers, i, j, t, es, k);
    RestartAccepts(batchSize, ws, cs, answers, i, j, t, es, |es|);
    assert es[..|es|] == es;
    QuitStrands(batchSize, ok, es);
  }

  class BatchProcessor {
    const batchSize: nat
    var isRunning: bool
    var shutdownClosed: bool
    var batchChannels: map<string, seq<P.Event>>

    function State(): Life
      reads this
    {
      Life(isRunning, shutdownClosed, batchChannels)
    }

    constructor (batchSize: nat)
      requires 1 <= batchSize <= P.MAX_CHANNEL_BUFFER_SIZE
      ensures this.batchSize == batchSize && State() == Init()
    {
      this.batchSize := batchSize;
      isRunning, shutdownClosed, batchChannels := false, false, map[];
    }

    /** The loop over the configured streams. */
    method OpenChannels(streams: map<string, string>) returns (activeStreams: nat)
      modifies this`batchChannels
      ensures batchChannels == old(batchChannels) + Fresh(Active(streams)) && activeStreams == |Active(streams)|
    {
      activeStreams := 0;
      var todo := streams.Keys;
      ghost var made: set<string> := {};
      while todo != {}
        invariant todo <= streams.Keys
        invariant forall t :: t in made <==> t in streams && t !in todo && streams[t] != ""
        invariant batchChannels == old(batchChannels) + Fresh(made)
        invariant activeStreams == |made|
        decreases |todo|
      {
        var streamType :| streamType in todo;
        todo := todo - {streamType};
        if streams[streamType] != "" {
          FreshOneMore(old(batchChannels), made, streamType);
          batchChannels := batchChannels[streamType := []];
          made := made + {streamType};
          activeStreams := activeStreams + 1;
        }
      }
      assert made == Active(streams);
    }

    method Start(streams: map<string, string>) returns (answer: Answer)
      modifies this
      ensures answer == Reply(batchSize, old(State()), Call.Start(streams))
      ensures State() == Next(batchSize, old(State()), Call.Start(streams))
    {
      if isRunning {
        return AlreadyRunning;
      }
      if |streams| == 0 {
        assert streams == map[];
        return NoStreams;
      }
      var activeStreams := OpenChannels(streams);
      if activeStreams == 0 {
        assert batchChannels == old(batchChannels);
        return NoActiveStreams;
      }
      isRunning := true;
      return Started;
    }

    /** Never blocks. */
    method PublishAsync(streamType: string, event: P.Event) returns (answer: Answer)
      modifies this`batchChannels
      ensures answer == Reply(batchSize, old(State()), Call.Publish(streamType, event))
      ensures State() == Next(batchSize, old(State()), Call.Publish(streamType, event))
    {
      if streamType == "" {
        return EmptyStreamType;
      }
      if !isRunning {
        return NotRunning;
      }
      if streamType !in batchChannels {
        return NoChannel;
      }
      var ch := batchChannels[streamType];
      if |ch| < batchSize {
        batchChannels := batchChannels[streamType := ch + [event]];
        return Accepted;
      }
      return ChannelFull;
    }

    method Stop(inTime: bool) returns (answer: Answer)
      modifies this
      ensures answer == Reply(batchSize, old(State()), Call.Stop(inTime))
      ensures State() == Next(batchSize, old(State()), Call.Stop(inTime))
    {
      if !isRunning {
        return Idle;
      }
      if shutdownClosed {
        return Panicked;
      }
      shutdownClosed := true;
      if !inTime {
        return TimedOut;
      }
      while batchChannels != map[]
        invariant isRunning && shutdownClosed
        decreases |batchChannels|
      {
        var streamType :| streamType in batchChannels;
        OneFewer(batchChannels, streamType);
        batchChannels := batchChannels - {streamType};
      }
      isRunning := false;
      return Stopped;
    }
  }

  lemma FreshOneMore(was: map<string, seq<P.Event>>, made: set<string>, t: string)
    ensures was + Fresh(made + {t}) == (was + Fresh(made))[t := []]
  {
  }

  lemma OneFewer(m: map<string, seq<P.Event>>, t: string)
    requires t in m
    ensures |m - {t}| < |m|
  {
    assert (m - {t}).Keys == m.Keys - {t};
    assert |m.Keys - {t}| < |m.Keys|;
  }
}
