/** What the calls on a batch processor (internal/streaming/batch_processor.go) answer and leave behind,
    in terms of the calls before them. */
module LifecycleLaws {
  import opened BatchLifecycle
  import P = BatchProcessor

  /** A stream type that is configured with a stream name. */
  predicate Named(streams: map<string, string>, t: string) { t in streams && streams[t] != "" }

  /** No Stop took effect in time among these calls. */
  predicate NoneStopped(answers: seq<Answer>, from: nat, n: nat)
    requires n <= |answers|
  {
    forall j :: from <= j < n ==> answers[j] != Stopped
  }

  /** The processor runs since call `i`. */
  predicate RunsSince(answers: seq<Answer>, i: nat, n: nat)
    requires n <= |answers|
  {
    i < n && answers[i] == Started && NoneStopped(answers, i + 1, n)
  }

  // ---- When each call is accepted ----

  /** What every call answers. */
  lemma AnswersAre(batchSize: nat, ws: seq<Life>, cs: seq<Call>, answers: seq<Answer>, n: nat)
    requires Trace(batchSize, ws, cs, answers) && n < |cs|
    ensures var s, a := ws[n], answers[n];
      match cs[n]
      case Start(streams) =>
        && (a == Started <==> !s.isRunning && exists t :: Named(streams, t))
        && (a == AlreadyRunning <==> s.isRunning)
        && (a == NoStreams <==> !s.isRunning && streams == map[])
        && (a == NoActiveStreams <==> !s.isRunning && streams != map[] && forall t :: !Named(streams, t))
      case Stop(inTime) =>
        && (a == Idle <==> !s.isRunning)
        && (a == Panicked <==> s.isRunning && s.shutdownClosed)
        && (a == Stopped <==> s.isRunning && !s.shutdownClosed && inTime)
        && (a == TimedOut <==> s.isRunning && !s.shutdownClosed && !inTime)
      case Publish(t, _) =>
        && (a == Accepted <==> t != "" && s.isRunning && t in s.channels && |s.channels[t]| < batchSize)
        && (a == EmptyStreamType <==> t == "")
        && (a == NotRunning <==> t != "" && !s.isRunning)
        && (a == NoChannel <==> t != "" && s.isRunning && t !in s.channels)
        && (a == ChannelFull <==> t != "" && s.isRunning && t in s.channels && |s.channels[t]| >= batchSize)
      case Receive(t) =>
        && (a == Received <==> t in s.channels && |s.channels[t]| > 0)
        && (a == Nothing <==> !(t in s.channels && |s.channels[t]| > 0))
  {
    hide Next;
    var c := cs[n];
    if c.Start? {
      assert forall t :: Named(c.streams, t) <==> t in Active(c.streams);
      assert c.streams == map[] ==> Active(c.streams) == {};
    }
  }

  // ---- Which channels are open ----

  lemma StepRuns(batchSize: nat, s: Life, c: Call)
    ensures Next(batchSize, s, c).isRunning <==>
      Reply(batchSize, s, c) == Started || (s.isRunning && Reply(batchSize, s, c) != Stopped)
  {
  }

  /** The processor counts as running exactly since an accepted Start that no Stop in time followed. */
  lemma {:induction false} RunningIff(batchSize: nat, ws: seq<Life>, cs: seq<Call>, answers: seq<Answer>, n: nat)
    requires Trace(batchSize, ws, cs, answers) && n <= |cs|
    ensures ws[n].isRunning <==> exists i :: RunsSince(answers, i, n)
  {
    hide Next, Reply;
    if n > 0 {
      RunningIff(batchSize, ws, cs, answers, n - 1);
      StepRuns(batchSize, ws[n - 1], cs[n - 1]);
      forall i: nat | RunsSince(answers, i, n) && i < n - 1 ensures RunsSince(answers, i, n - 1) {
      }
      if ws[n].isRunning {
        if answers[n - 1] == Started {
          assert RunsSince(answers, n - 1, n);
        } else {
          var i :| RunsSince(answers, i, n - 1);
          assert RunsSince(answers, i, n);
        }
      }
    }
  }

  /** Call `i` is an accepted Start that opens a channel for the stream type. */
  predicate Opens(cs: seq<Call>, answers: seq<Answer>, i: nat, n: nat, t: string)
    requires n <= |cs| == |answers|
  {
    RunsSince(answers, i, n) && cs[i].Start? && Named(cs[i].streams, t)
  }

  lemma StepOpens(batchSize: nat, s: Life, c: Call, t: string)
    ensures var a := Reply(batchSize, s, c);
      && (a == Started ==> c.Start?)
      && (t in Next(batchSize, s, c).channels <==>
            (a == Started && Named(c.streams, t)) || (t in s.channels && a != Stopped))
  {
  }

  /** A stream type has a channel exactly when an accepted Start opened one and no Stop in time, which
      drops all channels, followed. */
  lemma {:induction false} OpenIff(
    batchSize: nat, ws: seq<Life>, cs: seq<Call>, answers: seq<Answer>, n: nat, t: string)
    requires Trace(batchSize, ws, cs, answers) && n <= |cs|
    ensures t in ws[n].channels <==> exists i :: Opens(cs, answers, i, n, t)
  {
    hide Next, Reply;
    if n > 0 {
      OpenIff(batchSize, ws, cs, answers, n - 1, t);
      StepOpens(batchSize, ws[n - 1], cs[n - 1], t);
      forall i: nat | Opens(cs, answers, i, n, t) && i < n - 1 ensures Opens(cs, answers, i, n - 1, t) {
      }
      if t in ws[n].channels {
        if answers[n - 1] == Started && Named(cs[n - 1].streams, t) {
          assert Opens(cs, answers, n - 1, n, t);
        } else {
          var i :| Opens(cs, answers, i, n - 1, t);
          assert Opens(cs, answers, i, n, t);
        }
      }
    }
  }

  // ---- What a channel holds ----

  /** The events accepted for a stream type by these calls, in order. */
  function AcceptedFor(cs: seq<Call>, answers: seq<Answer>, t: string, from: nat, n: nat): seq<P.Event>
    requires from <= n <= |cs| == |answers|
  {
    if from == n then []
    else
      var c, before := cs[n - 1], AcceptedFor(cs, answers, t, from, n - 1);
      if c.Publish? && c.streamType == t && answers[n - 1] == Accepted then before + [c.event] else before
  }

  /** How many of them the stream's processor took. */
  function Taken(cs: seq<Call>, answers: seq<Answer>, t: string, from: nat, n: nat): nat
    requires from <= n <= |cs| == |answers|
  {
    if from == n then 0
    else
      var c := cs[n - 1];
      Taken(cs, answers, t, from, n - 1)
      + (if c.Receive? && c.streamType == t && answers[n - 1] == Received then 1 else 0)
  }

  lemma StepHolds(batchSize: nat, s: Life, c: Call, t: string)
    requires s.isRunning && t in s.channels && Reply(batchSize, s, c) != Stopped
    ensures var a, u := Reply(batchSize, s, c), Next(batchSize, s, c);
      && t in u.channels
      && (c.Receive? && c.streamType == t && a == Received ==>
            |s.channels[t]| > 0 && u.channels[t] == s.channels[t][1..])
      && u.channels[t] ==
           if c.Publish? && c.streamType == t && a == Accepted then s.channels[t] + [c.event]
           else if c.Receive? && c.streamType == t && a == Received then s.channels[t][1..]
           else s.channels[t]
  {
  }

  lemma OpenedEmpty(batchSize: nat, s: Life, c: Call, t: string)
    requires c.Start? && Named(c.streams, t) && Reply(batchSize, s, c) == Started
    ensures var u := Next(batchSize, s, c);
      u.isRunning && t in u.channels && u.channels[t] == []
  {
    FreshHas(Active(c.streams), s.channels, t);
  }

  lemma TakeOneMore<T>(xs: seq<T>, k: nat)
    requires k < |xs|
    ensures xs[k..][1..] == xs[k + 1..]
  {
  }

  /** A channel holds what was accepted for it since it was opened, without what was taken from it,
      first come first served. */
  lemma {:induction false} ChannelHolds(
    batchSize: nat, ws: seq<Life>, cs: seq<Call>, answers: seq<Answer>, i: nat, n: nat, t: string)
    requires Trace(batchSize, ws, cs, answers) && n <= |cs| && Opens(cs, answers, i, n, t)
    ensures ws[n].isRunning && t in ws[n].channels
    ensures Taken(cs, answers, t, i + 1, n) <= |AcceptedFor(cs, answers, t, i + 1, n)|
    ensures ws[n].channels[t] == AcceptedFor(cs, answers, t, i + 1, n)[Taken(cs, answers, t, i + 1, n)..]
  {
    hide Next, Reply;
    if n == i + 1 {
      OpenedEmpty(batchSize, ws[i], cs[i], t);
    } else {
      assert Opens(cs, answers, i, n - 1, t);
      ChannelHolds(batchSize, ws, cs, answers, i, n - 1, t);
      var s, c := ws[n - 1], cs[n - 1];
      StepHolds(batchSize, s, c, t);
      StepRuns(batchSize, s, c);
      var had, taken := AcceptedFor(cs, answers, t, i + 1, n - 1), Taken(cs, answers, t, i + 1, n - 1);
      if c.Publish? && c.streamType == t && answers[n - 1] == Accepted {
        assert (had + [c.event])[taken..] == had[taken..] + [c.event];
      } else if c.Receive? && c.streamType == t && answers[n - 1] == Received {
        TakeOneMore(had, taken);
      }
    }
  }
}
