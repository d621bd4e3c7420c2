/** The dead letter queue: retries, the fallback buffer and the backoff
    (internal/resilience/dead_letter_queue.go). */
module DeadLetterQueue {
  import opened Sums

  type EventID = int

  datatype FailedEvent = FailedEvent(event: EventID, retryCount: int)

  /** A queued body: one that this code never wrote and cannot decode, or that of a failed event,
      which decodes or does not. */
  datatype Message = Garbage | Body(failed: FailedEvent, readable: bool)

  /** The retry limit, and which of the bodies the code writes it can decode again. */
  datatype Protocol = Protocol(maxRetries: int, decodes: FailedEvent -> bool)

  datatype Verdict = Succeeded | Requeued | SendFailed | Exhausted

  /** What became of one processed message. */
  datatype Fate = Invalid | Undecoded(failed: FailedEvent) | Tried(failed: FailedEvent, verdict: Verdict)

  /** What the processor and the queue service answer while one message is processed. */
  datatype Weather = Weather(processed: bool, sent: bool, deleted: bool)

  datatype World = World(queue: seq<Message>, log: seq<Fate>)

  /** sendToSQS: the body of a failed event. */
  function Written(f: FailedEvent, p: Protocol): Message { Body(f, p.decodes(f)) }

  function Bumped(f: FailedEvent): FailedEvent { f.(retryCount := f.retryCount + 1) }

  function Judge(m: Message, w: Weather, p: Protocol): Fate {
    match m
    case Garbage => Invalid
    case Body(f, readable) =>
      if !readable then Undecoded(f)
      else if w.processed then Tried(f, Succeeded)
      else if f.retryCount < p.maxRetries then Tried(f, if w.sent then Requeued else SendFailed)
      else Tried(f, Exhausted)
  }

  function Removed(q: seq<Message>, i: nat): seq<Message>
    requires i < |q|
  {
    q[..i] + q[i + 1..]
  }

  /** Processing message `i`: the new attempt is sent before the old message is deleted. */
  function Next(s: World, i: nat, w: Weather, p: Protocol): World
    requires i < |s.queue|
  {
    var fate := Judge(s.queue[i], w, p);
    var left := if w.deleted then Removed(s.queue, i) else s.queue;
    var again := if fate.Tried? && fate.verdict == Requeued then [Written(Bumped(fate.failed), p)] else [];
    World(left + again, s.log + [fate])
  }

  datatype Step = Step(index: nat, weather: Weather)

  /** A run without arrivals; messages are received in any order. */
  ghost predicate Trace(ws: seq<World>, ss: seq<Step>, p: Protocol) {
    && |ws| == |ss| + 1
    && forall i {:trigger ss[i]} :: 0 <= i < |ss| ==>
      ss[i].index < |ws[i].queue| && ws[i + 1] == Next(ws[i], ss[i].index, ss[i].weather, p)
  }

  predicate DeletesWork(ss: seq<Step>) { forall i :: 0 <= i < |ss| ==> ss[i].weather.deleted }

  // ---- Sums over queues and logs ----

  lemma SumAround(f: Message -> nat, before: seq<Message>, m: Message, behind: seq<Message>)
    ensures Sum(f, before + ([m] + behind)) == Sum(f, before + behind) + f(m)
  {
    SumAppend(f, before, [m] + behind);
    SumAppend(f, [m], behind);
    SumAppend(f, before, behind);
    SumOne(f, m);
  }

  lemma SumSplit(f: Message -> nat, q: seq<Message>, i: nat)
    requires i < |q|
    ensures Sum(f, q) == Sum(f, Removed(q, i)) + f(q[i])
  {
    SumAround(f, q[..i], q[i], q[i + 1..]);
    Parts(q, i);
  }

  lemma Parts(q: seq<Message>, i: nat)
    requires i < |q|
    ensures q == q[..i] + ([q[i]] + q[i + 1..])
  {
  }

  /** What is sent again while message `m` is processed. */
  function Again(m: Message, w: Weather, p: Protocol): seq<Message> {
    if m.Body? && m.readable && !w.processed && m.failed.retryCount < p.maxRetries && w.sent
    then [Written(Bumped(m.failed), p)] else []
  }

  /** One step's effect on any sum over the queue and any sum over the log. */
  lemma StepSums(s: World, i: nat, w: Weather, p: Protocol, f: Message -> nat, g: Fate -> nat)
    requires i < |s.queue|
    ensures var t, m := Next(s, i, w, p), s.queue[i];
      && Sum(f, t.queue) + (if w.deleted then f(m) else 0) == Sum(f, s.queue) + Sum(f, Again(m, w, p))
      && Sum(g, t.log) == Sum(g, s.log) + g(Judge(m, w, p))
  {
    var t, m := Next(s, i, w, p), s.queue[i];
    var left := if w.deleted then Removed(s.queue, i) else s.queue;
    assert t.queue == left + Again(m, w, p);
    SumAppend(f, left, Again(m, w, p));
    SumSplit(f, s.queue, i);
    SumAppend(g, s.log, [Judge(m, w, p)]);
    SumOne(g, Judge(m, w, p));
  }

  lemma AgainSum(f: Message -> nat, m: Message, w: Weather, p: Protocol)
    ensures Sum(f, Again(m, w, p)) == if Again(m, w, p) == [] then 0 else f(Written(Bumped(m.failed), p))
  {
    if Again(m, w, p) != [] {
      SumOne(f, Again(m, w, p)[0]);
    }
  }

  // ---- The queue drains ----

  /** How often a message can be received, with its successors, when every attempt fails. */
  function Receipts(m: Message, p: Protocol): nat
    decreases if m.Body? && m.failed.retryCount < p.maxRetries then p.maxRetries - m.failed.retryCount else 0
  {
    if m.Body? && m.readable && m.failed.retryCount < p.maxRetries
    then 1 + Receipts(Written(Bumped(m.failed), p), p) else 1
  }

  /** The retries left and the first attempt; equal when everything written decodes again. */
  lemma {:induction false} ReceiptsAre(m: Message, p: Protocol)
    requires m.Body? && m.failed.retryCount <= p.maxRetries
    ensures Receipts(m, p) <= p.maxRetries + 1 - m.failed.retryCount
    ensures m.readable && (forall f :: p.decodes(f)) ==> Receipts(m, p) == p.maxRetries + 1 - m.failed.retryCount
    decreases p.maxRetries - m.failed.retryCount
  {
    if m.failed.retryCount < p.maxRetries {
      ReceiptsAre(Written(Bumped(m.failed), p), p);
    }
  }

  function Weight(p: Protocol): Message -> nat { m => Receipts(m, p) }

  /** The measure strictly falls with a processed message exactly when its delete goes through. */
  lemma FallsIff(s: World, i: nat, w: Weather, p: Protocol)
    requires i < |s.queue|
    ensures Sum(Weight(p), Next(s, i, w, p).queue) < Sum(Weight(p), s.queue) <==> w.deleted
  {
    StepSums(s, i, w, p, Weight(p), f => 0);
    AgainSum(Weight(p), s.queue[i], w, p);
  }

  /** Every run with reliable deletes is at most as long as the initial measure. */
  lemma {:induction false} RunsAreBounded(ws: seq<World>, ss: seq<Step>, n: nat, p: Protocol)
    requires n <= |ss| && Trace(ws, ss, p) && DeletesWork(ss)
    ensures n + Sum(Weight(p), ws[n].queue) <= Sum(Weight(p), ws[0].queue)
  {
    hide Next, Sum, Weight;
    if n > 0 {
      var last := ss[n - 1];
      RunsAreBounded(ws, ss, n - 1, p);
      FallsIff(ws[n - 1], last.index, last.weather, p);
    }
  }

  lemma FailingStep(s: World, i: nat, w: Weather, p: Protocol)
    requires i < |s.queue| && w.deleted && w.sent && !w.processed
    ensures Sum(Weight(p), Next(s, i, w, p).queue) + 1 == Sum(Weight(p), s.queue)
  {
    hide Next;
    StepSums(s, i, w, p, Weight(p), f => 0);
    AgainSum(Weight(p), s.queue[i], w, p);
  }

  /** The bound is met: with a processor that always fails every queue takes exactly as many
      steps to drain as its measure says. */
  lemma {:induction false} FailingRunsAreTight(ws: seq<World>, ss: seq<Step>, n: nat, p: Protocol)
    requires n <= |ss| && Trace(ws, ss, p) && DeletesWork(ss)
    requires forall i :: 0 <= i < n ==> !ss[i].weather.processed && ss[i].weather.sent
    ensures n + Sum(Weight(p), ws[n].queue) == Sum(Weight(p), ws[0].queue)
  {
    hide Next, Sum, Weight;
    if n > 0 {
      var last := ss[n - 1];
      FailingRunsAreTight(ws, ss, n - 1, p);
      FailingStep(ws[n - 1], last.index, last.weather, p);
    }
  }

  lemma {:induction false} EveryoneWeighs(p: Protocol, q: seq<Message>)
    ensures |q| <= Sum(Weight(p), q)
  {
    if q != [] {
      EveryoneWeighs(p, q[..|q| - 1]);
    }
  }

  /** After as many processed messages as the initial measure the queue is empty. */
  lemma QueueDrains(ws: seq<World>, ss: seq<Step>, p: Protocol)
    requires Trace(ws, ss, p) && DeletesWork(ss)
    requires |ss| >= Sum(Weight(p), ws[0].queue)
    ensures ws[|ss|].queue == []
  {
    RunsAreBounded(ws, ss, |ss|, p);
    EveryoneWeighs(p, ws[|ss|].queue);
  }

  // ---- What becomes of an event ----

  predicate CarriesEvent(m: Message, e: EventID) { m.Body? && m.failed.event == e }

  predicate TriesEvent(f: Fate, e: EventID) { f.Tried? && f.failed.event == e }

  /** How many messages carry the event. */
  function Copies(e: EventID): Message -> nat { m => if CarriesEvent(m, e) then 1 else 0 }

  /** The attempts the retry count leaves a message; none if it does not decode. */
  function Attempts(m: Message, maxRetries: int): nat {
    if m.Garbage? || !m.readable then 0
    else if m.failed.retryCount <= maxRetries then maxRetries + 1 - m.failed.retryCount
    else 1
  }

  function Left(e: EventID, maxRetries: int): Message -> nat {
    m => if CarriesEvent(m, e) then Attempts(m, maxRetries) else 0
  }

  function Tries(e: EventID): Fate -> nat { f => if TriesEvent(f, e) then 1 else 0 }

  function Settled(e: EventID): Fate -> nat { f => if TriesEvent(f, e) && f.verdict != Requeued then 1 else 0 }

  function GivenUp(e: EventID): Fate -> nat { f => if TriesEvent(f, e) && f.verdict == Exhausted then 1 else 0 }

  function Unread(e: EventID): Fate -> nat { (f: Fate) => if f.Undecoded? && f.failed.event == e then 1 else 0 }

  lemma StepCopies(s: World, i: nat, w: Weather, p: Protocol, e: EventID)
    requires i < |s.queue| && w.deleted
    ensures var m, again := s.queue[i], Again(s.queue[i], w, p);
      Sum(Copies(e), Next(s, i, w, p).queue) + (if CarriesEvent(m, e) then 1 else 0)
      == Sum(Copies(e), s.queue) + (if CarriesEvent(m, e) then |again| else 0)
  {
    StepSums(s, i, w, p, Copies(e), f => 0);
    AgainSum(Copies(e), s.queue[i], w, p);
  }

  lemma StepLeft(s: World, i: nat, w: Weather, p: Protocol, e: EventID)
    requires i < |s.queue| && w.deleted
    ensures var m, again := s.queue[i], Again(s.queue[i], w, p);
      var left := Left(e, p.maxRetries);
      && Sum(left, Next(s, i, w, p).queue) + left(m) == Sum(left, s.queue) + Sum(left, again)
      && (Sum(left, again) == 0 || (CarriesEvent(m, e) && Sum(left, again) == Attempts(m, p.maxRetries) - 1))
      && (again == [] ==> Sum(left, again) == 0)
  {
    hide Next;
    StepSums(s, i, w, p, Left(e, p.maxRetries), f => 0);
    AgainSum(Left(e, p.maxRetries), s.queue[i], w, p);
  }

  lemma StepTried(s: World, i: nat, w: Weather, p: Protocol, e: EventID)
    requires i < |s.queue|
    ensures var m := s.queue[i];
      Sum(Tries(e), Next(s, i, w, p).log)
      == Sum(Tries(e), s.log) + (if CarriesEvent(m, e) && m.readable then 1 else 0)
  {
    hide Next;
    StepSums(s, i, w, p, m => 0, Tries(e));
  }

  /** A step in the numbers of one event. */
  lemma EventStep(s: World, i: nat, w: Weather, p: Protocol, e: EventID)
    requires i < |s.queue| && w.deleted
    ensures var t, m := Next(s, i, w, p), s.queue[i];
      var left, again := Left(e, p.maxRetries), Again(m, w, p);
      if CarriesEvent(m, e) then
        && Sum(Copies(e), t.queue) + 1 == Sum(Copies(e), s.queue) + |again|
        && Sum(left, t.queue) + Attempts(m, p.maxRetries) == Sum(left, s.queue) + Sum(left, again)
        && Sum(left, again) in {0, Attempts(m, p.maxRetries) - 1}
        && Sum(Tries(e), t.log) == Sum(Tries(e), s.log) + (if m.readable then 1 else 0)
      else
        && Sum(Copies(e), t.queue) == Sum(Copies(e), s.queue)
        && Sum(left, t.queue) == Sum(left, s.queue)
        && Sum(Tries(e), t.log) == Sum(Tries(e), s.log)
  {
    StepCopies(s, i, w, p, e);
    StepLeft(s, i, w, p, e);
    StepTried(s, i, w, p, e);
  }

  /** The log's side of a step. */
  lemma EventVerdict(s: World, i: nat, w: Weather, p: Protocol, e: EventID)
    requires i < |s.queue|
    ensures var t, m := Next(s, i, w, p), s.queue[i];
      var carried := CarriesEvent(m, e);
      var ended := carried && m.readable && Again(m, w, p) == [];
      var exhausted := ended && !w.processed && m.failed.retryCount >= p.maxRetries;
      && Sum(Settled(e), t.log) == Sum(Settled(e), s.log) + (if ended then 1 else 0)
      && Sum(GivenUp(e), t.log) == Sum(GivenUp(e), s.log) + (if exhausted then 1 else 0)
      && Sum(Unread(e), t.log) == Sum(Unread(e), s.log) + (if carried && !m.readable then 1 else 0)
  {
    StepSums(s, i, w, p, m => 0, Settled(e));
    StepSums(s, i, w, p, m => 0, GivenUp(e));
    StepSums(s, i, w, p, m => 0, Unread(e));
  }

  lemma StepTries(s: World, i: nat, w: Weather, p: Protocol, e: EventID)
    requires i < |s.queue| && w.deleted
    ensures var t, left := Next(s, i, w, p), Left(e, p.maxRetries);
      && Sum(Tries(e), t.log) + Sum(left, t.queue) <= Sum(Tries(e), s.log) + Sum(left, s.queue)
      && Sum(Tries(e), s.log) <= Sum(Tries(e), t.log)
      && (Sum(Tries(e), t.log) == Sum(Tries(e), s.log) ==> Sum(left, t.queue) == Sum(left, s.queue))
  {
    EventStep(s, i, w, p, e);
  }

  /** Settled, undecoded and queued copies of an event. */
  function Account(s: World, e: EventID): nat {
    Sum(Settled(e), s.log) + Sum(Unread(e), s.log) + Sum(Copies(e), s.queue)
  }

  lemma StepSettles(s: World, t: World, i: nat, w: Weather, p: Protocol, e: EventID)
    requires i < |s.queue| && w.deleted && t == Next(s, i, w, p)
    ensures Account(t, e) == Account(s, e)
  {
    EventStep(s, i, w, p, e);
    EventVerdict(s, i, w, p, e);
  }

  /** An event is handed to the processor at most once for each attempt its messages have left;
      until it is, no attempt is lost. */
  lemma {:induction false} TriesAreBounded(ws: seq<World>, ss: seq<Step>, n: nat, p: Protocol, e: EventID)
    requires n <= |ss| && Trace(ws, ss, p) && DeletesWork(ss)
    ensures var left := Left(e, p.maxRetries);
      && Sum(Tries(e), ws[n].log) + Sum(left, ws[n].queue) <= Sum(Tries(e), ws[0].log) + Sum(left, ws[0].queue)
      && Sum(Tries(e), ws[0].log) <= Sum(Tries(e), ws[n].log)
      && (Sum(Tries(e), ws[n].log) == Sum(Tries(e), ws[0].log) ==> Sum(left, ws[n].queue) == Sum(left, ws[0].queue))
  {
    hide Next, Sum;
    if n > 0 {
      var last := ss[n - 1];
      TriesAreBounded(ws, ss, n - 1, p, e);
      StepTries(ws[n - 1], last.index, last.weather, p, e);
    }
  }

  /** Every copy of an event is still queued, was deleted undecoded, or was settled once: the processor
      took it, its last attempt was used up, or sending it again failed. */
  lemma {:induction false} EventsAreAccountedFor(ws: seq<World>, ss: seq<Step>, n: nat, p: Protocol, e: EventID)
    requires n <= |ss| && Trace(ws, ss, p) && DeletesWork(ss)
    ensures Account(ws[n], e) == Account(ws[0], e)
  {
    hide Next, Sum;
    if n > 0 {
      var last := ss[n - 1];
      EventsAreAccountedFor(ws, ss, n - 1, p, e);
      StepSettles(ws[n - 1], ws[n], last.index, last.weather, p, e);
    }
  }

  lemma {:induction false} NoCopiesNoneLeft(q: seq<Message>, maxRetries: int, e: EventID)
    requires Sum(Copies(e), q) == 0
    ensures Sum(Left(e, maxRetries), q) == 0
  {
    if q != [] {
      NoCopiesNoneLeft(q[..|q| - 1], maxRetries, e);
    }
  }

  /** At most one message carries the event; as long as a readable one does, the tries made and the
      attempts left add up to `total`, and giving the event up takes all of them. */
  ghost predicate Budget(s: World, maxRetries: int, e: EventID, total: nat) {
    && Sum(Copies(e), s.queue) <= 1
    && (Sum(Copies(e), s.queue) == 1 ==> Sum(GivenUp(e), s.log) == 0)
    && (Sum(Left(e, maxRetries), s.queue) > 0 ==>
      Sum(Tries(e), s.log) + Sum(Left(e, maxRetries), s.queue) == total)
    && (Sum(GivenUp(e), s.log) > 0 ==> Sum(Tries(e), s.log) == total)
  }

  lemma StepBudget(s: World, i: nat, w: Weather, p: Protocol, e: EventID, total: nat)
    requires i < |s.queue| && w.deleted && Budget(s, p.maxRetries, e, total)
    ensures Budget(Next(s, i, w, p), p.maxRetries, e, total)
  {
    var t := Next(s, i, w, p);
    EventStep(s, i, w, p, e);
    EventVerdict(s, i, w, p, e);
    if Sum(Copies(e), t.queue) == 0 {
      NoCopiesNoneLeft(t.queue, p.maxRetries, e);
    }
    if CarriesEvent(s.queue[i], e) {
      OnlyCopy(s.queue, i, p.maxRetries, e);
    }
  }

  lemma OnlyCopy(q: seq<Message>, i: nat, maxRetries: int, e: EventID)
    requires i < |q| && CarriesEvent(q[i], e) && Sum(Copies(e), q) <= 1
    ensures Sum(Left(e, maxRetries), q) == Attempts(q[i], maxRetries)
  {
    SumSplit(Copies(e), q, i);
    SumSplit(Left(e, maxRetries), q, i);
    NoCopiesNoneLeft(Removed(q, i), maxRetries, e);
  }

  /** An event carried by one message is given up only after every attempt that message had left
      at the start. */
  lemma {:induction false} GivenUpAfterAllTries(ws: seq<World>, ss: seq<Step>, n: nat, p: Protocol, e: EventID)
    requires n <= |ss| && Trace(ws, ss, p) && DeletesWork(ss)
    requires ws[0].log == [] && Sum(Copies(e), ws[0].queue) == 1
    ensures Budget(ws[n], p.maxRetries, e, Sum(Left(e, p.maxRetries), ws[0].queue))
  {
    if n > 0 {
      var last := ss[n - 1];
      GivenUpAfterAllTries(ws, ss, n - 1, p, e);
      StepBudget(ws[n - 1], last.index, last.weather, p, e, Sum(Left(e, p.maxRetries), ws[0].queue));
    }
  }

  /** Without the delete, a failed attempt leaves the event in the queue twice. */
  lemma FailedDeleteDuplicates(s: World, i: nat, p: Protocol)
    requires i < |s.queue| && s.queue[i].Body? && s.queue[i].readable && s.queue[i].failed.retryCount < p.maxRetries
    ensures var e := s.queue[i].failed.event;
      Sum(Copies(e), Next(s, i, Weather(false, true, false), p).queue) == Sum(Copies(e), s.queue) + 1
  {
    var e, w := s.queue[i].failed.event, Weather(false, true, false);
    StepSums(s, i, w, p, Copies(e), Tries(e));
    AgainSum(Copies(e), s.queue[i], w, p);
  }

  // ---- Events that SendToDLQ queued ----

  /** The queue right after SendToDLQ queued event `e`, which no other message carries. */
  ghost predicate JustSent(s: World, e: EventID, p: Protocol) {
    && s.log == []
    && exists q :: s.queue == q + [Written(FailedEvent(e, 0), p)] && forall m :: m in q ==> !CarriesEvent(m, e)
  }

  lemma SentNumbers(s: World, e: EventID, p: Protocol)
    requires JustSent(s, e, p)
    ensures Sum(Copies(e), s.queue) == 1
    ensures Sum(Left(e, p.maxRetries), s.queue) == Attempts(Written(FailedEvent(e, 0), p), p.maxRetries)
  {
    var m := Written(FailedEvent(e, 0), p);
    var q :| s.queue == q + [m] && forall k :: k in q ==> !CarriesEvent(k, e);
    NoCopies(q, e);
    NoCopiesNoneLeft(q, p.maxRetries, e);
    SumSnoc(Copies(e), q, m);
    SumSnoc(Left(e, p.maxRetries), q, m);
  }

  /** An event that SendToDLQ queued once is tried at most maxRetries + 1 times, and given up only
      after exactly that many. */
  lemma FreshEventTries(ws: seq<World>, ss: seq<Step>, n: nat, p: Protocol, e: EventID)
    requires n <= |ss| && Trace(ws, ss, p) && DeletesWork(ss) && JustSent(ws[0], e, p) && p.maxRetries >= 0
    ensures Sum(Tries(e), ws[n].log) <= p.maxRetries + 1
    ensures Sum(GivenUp(e), ws[n].log) > 0 ==> Sum(Tries(e), ws[n].log) == p.maxRetries + 1
  {
    SentNumbers(ws[0], e, p);
    TriesAreBounded(ws, ss, n, p, e);
    GivenUpAfterAllTries(ws, ss, n, p, e);
    if !p.decodes(FailedEvent(e, 0)) {
      NeverGivenUp(ws, ss, n, p, e);
    }
  }

  /** Only an event that was tried is given up. */
  lemma {:induction false} NeverGivenUp(ws: seq<World>, ss: seq<Step>, n: nat, p: Protocol, e: EventID)
    requires n <= |ss| && Trace(ws, ss, p) && DeletesWork(ss) && ws[0].log == []
    ensures Sum(GivenUp(e), ws[n].log) <= Sum(Tries(e), ws[n].log)
  {
    hide Next;
    if n > 0 {
      var last := ss[n - 1];
      NeverGivenUp(ws, ss, n - 1, p, e);
      EventStep(ws[n - 1], last.index, last.weather, p, e);
      EventVerdict(ws[n - 1], last.index, last.weather, p, e);
    }
  }

  /** An event that SendToDLQ queued has been handed to the processor, once no message carries it any
      more, exactly when its body decodes; otherwise it was deleted undecoded. */
  lemma HandedOverIff(ws: seq<World>, ss: seq<Step>, n: nat, p: Protocol, e: EventID)
    requires n <= |ss| && Trace(ws, ss, p) && DeletesWork(ss) && JustSent(ws[0], e, p)
    requires Sum(Copies(e), ws[n].queue) == 0
    ensures Sum(Tries(e), ws[n].log) > 0 <==> p.decodes(FailedEvent(e, 0))
    ensures Sum(Tries(e), ws[n].log) == 0 ==> Sum(Unread(e), ws[n].log) == 1
  {
    SentNumbers(ws[0], e, p);
    TriesAreBounded(ws, ss, n, p, e);
    NoCopiesNoneLeft(ws[n].queue, p.maxRetries, e);
    EventsAreAccountedFor(ws, ss, n, p, e);
    SettledWasTried(ws[n].log, e);
  }

  lemma {:induction false} SettledWasTried(log: seq<Fate>, e: EventID)
    ensures Sum(Settled(e), log) <= Sum(Tries(e), log)
  {
    if log != [] {
      SettledWasTried(log[..|log| - 1], e);
    }
  }

  /** As the event's interface type leaves it: nothing the code writes decodes. */
  ghost predicate DecodesNothing(p: Protocol) { forall f :: !p.decodes(f) }

  ghost predicate AllUnreadable(q: seq<Message>) { forall m :: m in q ==> m.Garbage? || !m.readable }

  /** Then each message is gone after one receipt, and no event is handed to the processor. */
  lemma {:induction false} NothingIsRetried(ws: seq<World>, ss: seq<Step>, n: nat, p: Protocol)
    requires n <= |ss| && Trace(ws, ss, p) && DeletesWork(ss) && DecodesNothing(p) && AllUnreadable(ws[0].queue)
    ensures |ws[n].queue| == |ws[0].queue| - n && AllUnreadable(ws[n].queue)
    ensures |ws[n].log| == |ws[0].log| + n
    ensures forall i :: |ws[0].log| <= i < |ws[n].log| ==> !ws[n].log[i].Tried?
  {
    if n > 0 {
      NothingIsRetried(ws, ss, n - 1, p);
      var s, last := ws[n - 1], ss[n - 1];
      var m := s.queue[last.index];
      assert m in s.queue;
      assert ws[n].queue == Removed(s.queue, last.index);
      assert forall k :: k in Removed(s.queue, last.index) ==> k in s.queue;
    }
  }

  lemma {:induction false} NoCopies(q: seq<Message>, e: EventID)
    requires forall m :: m in q ==> !CarriesEvent(m, e)
    ensures Sum(Copies(e), q) == 0
  {
    if q != [] {
      NoCopies(q[..|q| - 1], e);
      assert q[|q| - 1] in q;
    }
  }

  // ---- The fallback buffer ----

  /** A full buffer loses its oldest event to the new one. */
  function Keep(b: seq<FailedEvent>, e: FailedEvent, size: nat): seq<FailedEvent>
    requires size >= 1
  {
    (if |b| >= size then b[1..] else b) + [e]
  }

  function AddAll(b: seq<FailedEvent>, es: seq<FailedEvent>, size: nat): seq<FailedEvent>
    requires size >= 1
  {
    if es == [] then b else Keep(AddAll(b, es[..|es| - 1], size), es[|es| - 1], size)
  }

  function Last(xs: seq<FailedEvent>, n: nat): seq<FailedEvent> {
    if |xs| <= n then xs else xs[|xs| - n..]
  }

  lemma KeepIsLast(xs: seq<FailedEvent>, e: FailedEvent, size: nat, bound: nat)
    requires 1 <= size <= bound && (bound > size ==> |xs| >= bound)
    ensures Keep(Last(xs, bound), e, size) == Last(xs + [e], bound)
  {
  }

  /** Between drains the buffer holds the most recent events, in order: as many as its size, or as
      many as a cancelled drain had left in it beyond that. */
  lemma {:induction false} BufferKeepsLast(b: seq<FailedEvent>, es: seq<FailedEvent>, size: nat)
    requires size >= 1
    ensures AddAll(b, es, size) == Last(b + es, if |b| <= size then size else |b|)
  {
    if es == [] {
      assert b + es == b;
    } else {
      var before, e := es[..|es| - 1], es[|es| - 1];
      BufferKeepsLast(b, before, size);
      KeepIsLast(b + before, e, size, if |b| <= size then size else |b|);
      assert b + es == (b + before) + [e];
    }
  }

  // ---- Backoff ----

  function Power(b: real, n: nat): real { if n == 0 then 1.0 else Power(b, n - 1) * b }

  /** A first power, and powers that multiply as their exponents add. */
  lemma {:induction false} PowerLaws(b: real, m: nat, n: nat)
    ensures Power(b, 1) == b
    ensures Power(b, m + n) == Power(b, m) * Power(b, n)
  {
    assert Power(b, 1) == Power(b, 0) * b;
    if n > 0 {
      PowerLaws(b, m, n - 1);
      TimesAgain(Power(b, m), Power(b, n - 1), b);
    }
  }

  lemma TimesAgain(x: real, y: real, z: real)
    ensures (x * y) * z == x * (y * z)
  {
  }

  /** The loop multiplies `int(exp)` factors, but never fewer than one unless the exponent is 0. */
  method Pow(b: real, exp: real) returns (result: real)
    ensures result ==
      if exp == 0.0 then 1.0 else if exp < 1.0 then b else Power(b, exp.Floor)
  {
    if exp == 0.0 {
      return 1.0;
    }
    result := b;
    assert Power(b, 1) == b;
    var i := 1;
    while i < exp.Floor
      invariant 1 <= i && (exp >= 1.0 ==> i <= exp.Floor)
      invariant result == Power(b, i) && (exp < 1.0 ==> i == 1)
    {
      result := result * b;
      i := i + 1;
    }
  }

  /** time.Duration(x): truncation toward zero. */
  function Truncate(x: real): int { if x >= 0.0 then x.Floor else -((-x).Floor) }

  function Min(a: int, b: int): int { if a < b then a else b }

  datatype Config = Config(
    localBufferSize: int, maxRetries: int, retryBaseDelay: int, retryMaxDelay: int, retryMultiplier: real)

  /** The delay before attempt `n + 1`, in nanoseconds. */
  function Delay(c: Config, n: nat): int { Min(Truncate(Uncapped(c, n)), c.retryMaxDelay) }

  function Uncapped(c: Config, n: nat): real { c.retryBaseDelay as real * Power(c.retryMultiplier, n) }

  lemma {:induction false} PowerGrows(b: real, n: nat, m: nat)
    requires b >= 1.0 && n <= m
    ensures 1.0 <= Power(b, n) <= Power(b, m)
  {
    if n < m {
      PowerGrows(b, n, m - 1);
      assert Power(b, m - 1) * b >= Power(b, m - 1) * 1.0;
    } else if n > 0 {
      PowerGrows(b, n - 1, m - 1);
      assert Power(b, n - 1) * b >= Power(b, n - 1) * 1.0;
    }
  }

  lemma Scaled(d: real, x: real, y: real)
    requires d >= 0.0 && x <= y
    ensures d * x <= d * y
  {
  }

  lemma CappedGrows(d: int, x: real, y: real, cap: int)
    requires 0 <= d <= cap && d as real <= x <= y
    ensures d <= Min(Truncate(x), cap) <= Min(Truncate(y), cap) <= cap
  {
  }

  lemma UncappedGrows(c: Config, n: nat, m: nat)
    requires c.retryMultiplier >= 1.0 && 0 <= c.retryBaseDelay && n <= m
    ensures c.retryBaseDelay as real <= Uncapped(c, n) <= Uncapped(c, m)
  {
    var d, b := c.retryBaseDelay as real, c.retryMultiplier;
    PowerGrows(b, n, m);
    Scaled(d, 1.0, Power(b, n));
    Scaled(d, Power(b, n), Power(b, m));
  }

  lemma FirstDelay(c: Config)
    requires c.retryBaseDelay <= c.retryMaxDelay
    ensures Delay(c, 0) == c.retryBaseDelay
  {
    assert Power(c.retryMultiplier, 0) == 1.0;
    assert c.retryBaseDelay as real * 1.0 == c.retryBaseDelay as real;
  }

  /** With a multiplier of at least one the delays never shrink, start at the base delay and stay
      below the cap. */
  lemma BackoffGrows(c: Config, n: nat, m: nat)
    requires c.retryMultiplier >= 1.0 && 0 <= c.retryBaseDelay <= c.retryMaxDelay && n <= m
    ensures c.retryBaseDelay == Delay(c, 0) <= Delay(c, n) <= Delay(c, m) <= c.retryMaxDelay
  {
    FirstDelay(c);
    UncappedGrows(c, n, m);
    CappedGrows(c.retryBaseDelay, Uncapped(c, n), Uncapped(c, m), c.retryMaxDelay);
  }

  /** The delay is the largest whole number of nanoseconds that exceeds neither the cap nor the base
      delay times the multiplier's power. */
  lemma DelayIsLargest(c: Config, n: nat, d: int)
    requires c.retryBaseDelay as real * Power(c.retryMultiplier, n) >= 0.0
    ensures d <= Delay(c, n) <==>
      d <= c.retryMaxDelay && d as real <= c.retryBaseDelay as real * Power(c.retryMultiplier, n)
  {
  }

  /** The delays of the default settings, in seconds: 5, 10, 20, 40, 80, 160, and then 300. */
  lemma DefaultDelays(c: Config, n: nat)
    requires c.retryBaseDelay == 5 * SECOND && c.retryMaxDelay == 300 * SECOND && c.retryMultiplier == 2.0
    ensures Delay(c, n) == (if n < 6 then [5, 10, 20, 40, 80, 160][n] else 300) * SECOND
  {
    DoublesTo(n);
    if n >= 6 {
      PowerGrows(2.0, 6, n);
      DoublesTo(6);
    }
  }

  lemma {:induction false} DoublesTo(n: nat)
    ensures n <= 6 ==> Power(2.0, n) == [1.0, 2.0, 4.0, 8.0, 16.0, 32.0, 64.0][n]
  {
    if 0 < n <= 6 {
      DoublesTo(n - 1);
    }
  }

  const SECOND := 1_000_000_000

  class DeadLetterQueue {
    var localBuffer: seq<FailedEvent>
    const config: Config
    const decodes: FailedEvent -> bool

    function Rules(): Protocol { Protocol(config.maxRetries, decodes) }

    /** The queue service's contents, and what was done with each message received. */
    var queue: seq<Message>
    ghost var log: seq<Fate>

    ghost predicate Valid()
      reads this
    {
      config.localBufferSize >= 1
    }

    /** A zero setting stands for the default; a negative buffer size makes the source panic. */
    constructor (c: Config, decodes: FailedEvent -> bool)
      requires c.localBufferSize >= 0
      ensures this.decodes == decodes && Valid() && localBuffer == [] && queue == [] && log == []
      ensures config.localBufferSize == if c.localBufferSize == 0 then 1000 else c.localBufferSize
      ensures config.maxRetries == if c.maxRetries == 0 then 3 else c.maxRetries
      ensures config.retryBaseDelay == if c.retryBaseDelay == 0 then 5 * SECOND else c.retryBaseDelay
      ensures config.retryMaxDelay == if c.retryMaxDelay == 0 then 300 * SECOND else c.retryMaxDelay
      ensures config.retryMultiplier == if c.retryMultiplier == 0.0 then 2.0 else c.retryMultiplier
    {
      var d := c;
      if d.localBufferSize == 0 {
        d := d.(localBufferSize := 1000);
      }
      if d.maxRetries == 0 {
        d := d.(maxRetries := 3);
      }
      if d.retryBaseDelay == 0 {
        d := d.(retryBaseDelay := 5 * SECOND);
      }
      if d.retryMaxDelay == 0 {
        d := d.(retryMaxDelay := 300 * SECOND);
      }
      if d.retryMultiplier == 0.0 {
        d := d.(retryMultiplier := 2.0);
      }
      config := d;
      this.decodes := decodes;
      localBuffer, queue, log := [], [], [];
    }

    method AddToLocalBuffer(failedEvent: FailedEvent)
      requires Valid()
      modifies this`localBuffer
      ensures Valid() && localBuffer == Keep(old(localBuffer), failedEvent, config.localBufferSize)
    {
      if |localBuffer| >= config.localBufferSize {
        localBuffer := localBuffer[1..];
      }
      localBuffer := localBuffer + [failedEvent];
    }

    /** A failed event goes to the queue, or to the buffer when the queue refuses it. */
    method SendToDLQ(event: EventID, sent: bool)
      requires Valid()
      modifies this`localBuffer, this`queue
      ensures Valid()
      ensures queue == if sent
        then old(queue) + [Body(FailedEvent(event, 0), decodes(FailedEvent(event, 0)))] else old(queue)
      ensures localBuffer == if sent then old(localBuffer)
        else Keep(old(localBuffer), FailedEvent(event, 0), config.localBufferSize)
    {
      var failedEvent := FailedEvent(event, 0);
      if !sent {
        AddToLocalBuffer(failedEvent);
      } else {
        queue := queue + [Written(failedEvent, Rules())];
      }
    }

    method DeleteMessage(i: nat, deleted: bool)
      requires i < |queue|
      modifies this`queue
      ensures queue == if deleted then Removed(old(queue), i) else old(queue)
    {
      if deleted {
        queue := queue[..i] + queue[i + 1..];
      }
    }

    method ProcessMessage(i: nat, w: Weather) returns (ok: bool)
      requires i < |queue|
      modifies this`queue, this`log
      ensures World(queue, log) == Next(World(old(queue), old(log)), i, w, Rules())
      ensures ok <==> old(queue)[i].Body? && old(queue)[i].readable && w.processed
    {
      var message := queue[i];
      ghost var before := queue;
      log := log + [Judge(message, w, Rules())];
      if message.Garbage? || !message.readable {
        DeleteMessage(i, w.deleted);
        return false;
      }
      var failedEvent := message.failed;
      if !w.processed {
        if failedEvent.retryCount < config.maxRetries {
          failedEvent := failedEvent.(retryCount := failedEvent.retryCount + 1);
          if w.sent {
            queue := queue + [Written(failedEvent, Rules())];
            assert Removed(queue, i) == Removed(before, i) + [Written(failedEvent, Rules())];
          }
        }
        DeleteMessage(i, w.deleted);
        return false;
      }
      DeleteMessage(i, w.deleted);
      return true;
    }

    /** Every buffered event is tried once, whatever comes of it, until the context is cancelled: then only
        the event at hand is put back.  Nothing is lost exactly when at most the last was not tried. */
    method ProcessLocalBuffer(cancelled: nat -> bool) returns (tried: seq<FailedEvent>)
      requires Valid()
      modifies this`localBuffer
      ensures Valid() && tried <= old(localBuffer)
      ensures forall i :: 0 <= i < |tried| ==> !cancelled(i)
      ensures |tried| < |old(localBuffer)| ==> cancelled(|tried|)
      ensures localBuffer == old(localBuffer)[|tried|..if |tried| < |old(localBuffer)| then |tried| + 1 else |tried|]
      ensures tried + localBuffer == old(localBuffer)
        <==> forall i :: 0 <= i < |old(localBuffer)| - 1 ==> !cancelled(i)
    {
      var eventsToProcess := localBuffer;
      localBuffer := [];
      tried := [];
      for i := 0 to |eventsToProcess|
        invariant tried == eventsToProcess[..i] && localBuffer == []
        invariant forall k :: 0 <= k < i ==> !cancelled(k)
      {
        if cancelled(i) {
          localBuffer := localBuffer + [eventsToProcess[i]];
          assert eventsToProcess[i..i + 1] == [eventsToProcess[i]];
          assert |tried + localBuffer| == i + 1;
          assert i + 1 == |eventsToProcess| ==> tried + localBuffer == eventsToProcess;
          return;
        }
        tried := tried + [eventsToProcess[i]];
      }
    }

    method CalculateRetryDelay(retryCount: nat) returns (delay: int)
      ensures delay == Delay(config, retryCount)
    {
      var p := Pow(config.retryMultiplier, retryCount as real);
      delay := Truncate(config.retryBaseDelay as real * p);
      if delay > config.retryMaxDelay {
        delay := config.retryMaxDelay;
      }
    }
  }
}
