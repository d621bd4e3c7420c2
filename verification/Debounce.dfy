/** The debounced reloader: provider signals, a one-place channel, a resettable timer and the
    goroutine that selects among them (internal/config/manager.go, StartWatchers). */
module Debounce {

  /** A timer and its one-place channel: running until the deadline, or fired, or neither. */
  datatype Timer = NoTimer | Timer(running: bool, deadline: nat, fired: bool)

  /** The variables of the goroutine and what they share with the watchers. */
  datatype Core = Core(
    events: bool,   // a token waits in the events channel
    timer: Timer,
    tick: bool,     // the tick channel is not nil
    busy: bool,     // inside Reload
    stopped: bool,
    now: nat)

  /** What has happened so far. */
  datatype History = History(
    owed: bool,      // a signal has not been followed by the start of a Reload
    notifies: nat,
    takes: nat,
    reloads: nat,
    lastTake: nat)

  datatype World = World(core: Core, past: History)

  /** Notify comes from any watcher at any time; Fire from the runtime; the rest is the goroutine. */
  datatype Op = Notify | Advance(dt: nat) | Fire | TakeEvent | TakeTick | ReloadEnds | Cancel

  function Init(): World { World(Core(false, NoTimer, false, false, false, 0), History(false, 0, 0, 0, 0)) }

  predicate Running(c: Core) { c.timer.Timer? && c.timer.running }

  predicate Fired(c: Core) { c.timer.Timer? && c.timer.fired }

  predicate Selecting(c: Core) { !c.busy && !c.stopped }

  predicate Enabled(c: Core, op: Op) {
    match op
    case Notify => true
    case Advance(_) => true
    case Fire => Running(c) && c.now >= c.timer.deadline
    case TakeEvent => Selecting(c) && c.events
    case TakeTick => Selecting(c) && c.tick && Fired(c)
    case ReloadEnds => c.busy
    case Cancel => Selecting(c)
  }

  /** arm: a running timer is stopped, a fired one drained, and it starts anew. */
  function Armed(c: Core, debounce: nat): Core {
    c.(timer := Timer(true, c.now + debounce, false), tick := true)
  }

  function Effect(c: Core, op: Op, debounce: nat): Core
    requires Enabled(c, op)
  {
    match op
    case Notify => c.(events := true)
    case Advance(dt) => c.(now := c.now + dt)
    case Fire => c.(timer := c.timer.(running := false, fired := true))
    case TakeEvent => Armed(c.(events := false), debounce)
    case TakeTick => c.(timer := c.timer.(fired := false), tick := false, busy := true)
    case ReloadEnds => c.(busy := false)
    case Cancel =>
      c.(timer := if c.timer.Timer? then c.timer.(running := false, fired := false) else NoTimer, stopped := true)
  }

  function Note(h: History, op: Op, now: nat): History {
    match op
    case Notify => h.(owed := true, notifies := h.notifies + 1)
    case TakeEvent => h.(takes := h.takes + 1, lastTake := now)
    case TakeTick => h.(owed := false, reloads := h.reloads + 1)
    case _ => h
  }

  function Next(s: World, op: Op, debounce: nat): World
    requires Enabled(s.core, op)
  {
    World(Effect(s.core, op, debounce), Note(s.past, op, s.core.now))
  }

  ghost predicate Trace(ws: seq<World>, ops: seq<Op>, debounce: nat) {
    && |ws| == |ops| + 1
    && forall i {:trigger ops[i]} :: 0 <= i < |ops| ==>
      Enabled(ws[i].core, ops[i]) && ws[i + 1] == Next(ws[i], ops[i], debounce)
  }

  ghost predicate Reachable(s: World, debounce: nat) {
    exists ws, ops :: Trace(ws, ops, debounce) && ws[0] == Init() && ws[|ops|] == s
  }

  // ---- What every step keeps ----

  /** The tick channel is selected on exactly while the timer runs or has fired. */
  predicate TickIsLive(c: Core) {
    && !(Running(c) && Fired(c))
    && (!c.stopped ==> (c.tick <==> Running(c) || Fired(c)))
    && (c.busy ==> !c.stopped)
  }

  predicate NothingLost(s: World) { s.past.owed && !s.core.stopped ==> s.core.events || s.core.tick }

  predicate Quiet(s: World, debounce: nat) {
    && (Running(s.core) ==> s.core.timer.deadline == s.past.lastTake + debounce)
    && (Fired(s.core) ==> s.core.now >= s.past.lastTake + debounce)
  }

  predicate Coalesced(s: World) {
    && s.past.reloads + (if s.core.tick then 1 else 0) <= s.past.takes
    && s.past.takes + (if s.core.events then 1 else 0) <= s.past.notifies
  }

  predicate Inv(s: World, debounce: nat) {
    TickIsLive(s.core) && NothingLost(s) && Quiet(s, debounce) && Coalesced(s)
  }

  lemma StepKeepsInv(s: World, op: Op, debounce: nat)
    requires Inv(s, debounce) && Enabled(s.core, op)
    ensures Inv(Next(s, op, debounce), debounce)
  {
  }

  lemma {:induction false} TraceKeepsInv(ws: seq<World>, ops: seq<Op>, debounce: nat, n: nat)
    requires Trace(ws, ops, debounce) && n <= |ops| && Inv(ws[0], debounce)
    ensures Inv(ws[n], debounce)
  {
    if n > 0 {
      TraceKeepsInv(ws, ops, debounce, n - 1);
      StepKeepsInv(ws[n - 1], ops[n - 1], debounce);
    }
  }

  lemma ReachableInv(s: World, debounce: nat)
    requires Reachable(s, debounce)
    ensures Inv(s, debounce)
  {
    var ws, ops :| Trace(ws, ops, debounce) && ws[0] == Init() && ws[|ops|] == s;
    TraceKeepsInv(ws, ops, debounce, |ops|);
  }

  // ---- No signal is lost ----

  /** Until the watcher is cancelled, a signal not yet followed by a Reload is a waiting token or a
      timer that runs or has fired with its channel selected on. */
  lemma NoSignalIsLost(s: World, debounce: nat)
    requires Reachable(s, debounce) && s.past.owed && !s.core.stopped
    ensures s.core.events || (s.core.tick && (Running(s.core) || Fired(s.core)))
  {
    ReachableInv(s, debounce);
  }

  /** Steps still to come before the goroutine is idle. */
  function Rank(c: Core): nat {
    (if c.events then 4 else 0) + (if Running(c) then 3 else if Fired(c) then 2 else 0) + (if c.busy then 1 else 0)
  }

  predicate Works(op: Op) { op.Fire? || op.TakeEvent? || op.TakeTick? || op.ReloadEnds? }

  /** The working steps among the first `n`. */
  function WorkDone(ops: seq<Op>, n: nat): nat
    requires n <= |ops|
  {
    if n == 0 then 0 else WorkDone(ops, n - 1) + if Works(ops[n - 1]) then 1 else 0
  }

  lemma StepWorks(s: World, op: Op, debounce: nat)
    requires Inv(s, debounce) && Enabled(s.core, op)
    ensures Works(op) ==> Rank(Next(s, op, debounce).core) < Rank(s.core)
    ensures op.Advance? ==> Rank(Next(s, op, debounce).core) == Rank(s.core)
  {
  }

  lemma {:induction false} WorkIsBounded(ws: seq<World>, ops: seq<Op>, debounce: nat, n: nat)
    requires Trace(ws, ops, debounce) && n <= |ops| && Inv(ws[0], debounce)
    requires forall i :: 0 <= i < n ==> Works(ops[i]) || ops[i].Advance?
    ensures Rank(ws[n].core) + WorkDone(ops, n) <= Rank(ws[0].core)
  {
    if n > 0 {
      var op := ops[n - 1];
      assert Works(op) || op.Advance?;
      WorkIsBounded(ws, ops, debounce, n - 1);
      TraceKeepsInv(ws, ops, debounce, n - 1);
      StepWorks(ws[n - 1], op, debounce);
    }
  }

  /** While a signal is owed some step is always possible, if only after waiting for the deadline. */
  function NextWork(c: Core): Op {
    if c.busy then ReloadEnds
    else if c.events then TakeEvent
    else if Fired(c) then TakeTick
    else Fire
  }

  function Wait(c: Core): nat { if Running(c) && c.timer.deadline > c.now then c.timer.deadline - c.now else 0 }

  /** Every owed signal is followed by a Reload: without further signals there are at most eight
      working steps before the goroutine is idle, it is not idle while a signal is owed, and its
      next step is possible once the timer's deadline has come. */
  lemma SignalIsServed(s: World, debounce: nat, ws: seq<World>, ops: seq<Op>)
    requires Reachable(s, debounce) && s.past.owed && !s.core.stopped
    requires Trace(ws, ops, debounce) && ws[0] == s
    requires forall i :: 0 <= i < |ops| ==> Works(ops[i]) || ops[i].Advance?
    ensures WorkDone(ops, |ops|) <= 8
    ensures var t := ws[|ops|];
      t.past.owed ==> Enabled(t.core.(now := t.core.now + Wait(t.core)), NextWork(t.core))
  {
    ReachableInv(s, debounce);
    WorkIsBounded(ws, ops, debounce, |ops|);
    TraceKeepsInv(ws, ops, debounce, |ops|);
    NotStopped(ws, ops, debounce, |ops|);
  }

  lemma {:induction false} NotStopped(ws: seq<World>, ops: seq<Op>, debounce: nat, n: nat)
    requires Trace(ws, ops, debounce) && n <= |ops| && !ws[0].core.stopped
    requires forall i :: 0 <= i < n ==> !ops[i].Cancel?
    ensures !ws[n].core.stopped
  {
    if n > 0 {
      NotStopped(ws, ops, debounce, n - 1);
      assert !ops[n - 1].Cancel?;
    }
  }

  // ---- What the flags say of the past ----

  type Kind = Op -> bool

  predicate NoneAfter(ops: seq<Op>, i: nat, n: nat, second: Kind)
    requires n <= |ops|
  {
    forall j :: i < j < n ==> !second(ops[j])
  }

  /** Some step of the first kind has come, and none of the second kind after it. */
  ghost predicate Since(ops: seq<Op>, n: nat, first: Kind, second: Kind)
    requires n <= |ops|
  {
    exists i :: 0 <= i < n && first(ops[i]) && NoneAfter(ops, i, n, second)
  }

  lemma SinceNext(ops: seq<Op>, n: nat, first: Kind, second: Kind)
    requires n < |ops|
    ensures Since(ops, n + 1, first, second) <==> first(ops[n]) || (Since(ops, n, first, second) && !second(ops[n]))
  {
    if first(ops[n]) {
      assert NoneAfter(ops, n, n + 1, second);
    } else if Since(ops, n + 1, first, second) {
      var i :| 0 <= i < n + 1 && first(ops[i]) && NoneAfter(ops, i, n + 1, second);
      assert NoneAfter(ops, i, n, second);
    } else if Since(ops, n, first, second) && !second(ops[n]) {
      var i :| 0 <= i < n && first(ops[i]) && NoneAfter(ops, i, n, second);
      assert NoneAfter(ops, i, n + 1, second);
    }
  }

  const NOTIFY: Kind := (op: Op) => op.Notify?
  const TAKE: Kind := (op: Op) => op.TakeEvent?
  const TICK: Kind := (op: Op) => op.TakeTick?
  const END: Kind := (op: Op) => op.ReloadEnds?
  const CANCEL: Kind := (op: Op) => op.Cancel?
  const NEVER: Kind := (op: Op) => false

  /** In every run a token waits since a signal came and none was taken after it; the tick channel is
      selected on since a signal was taken and no tick was; a Reload runs since a tick was taken and none
      has ended; and the watcher has stopped once it was cancelled. */
  lemma {:induction false} FlagsAre(ws: seq<World>, ops: seq<Op>, debounce: nat, n: nat)
    requires Trace(ws, ops, debounce) && ws[0] == Init() && n <= |ops|
    ensures var c := ws[n].core;
      && (c.events <==> Since(ops, n, NOTIFY, TAKE))
      && (c.tick <==> Since(ops, n, TAKE, TICK))
      && (c.busy <==> Since(ops, n, TICK, END))
      && (c.stopped <==> Since(ops, n, CANCEL, NEVER))
  {
    hide Since;
    if n == 0 {
      NothingYet(ops);
    } else {
      FlagsAre(ws, ops, debounce, n - 1);
      SinceNext(ops, n - 1, NOTIFY, TAKE);
      SinceNext(ops, n - 1, TAKE, TICK);
      SinceNext(ops, n - 1, TICK, END);
      SinceNext(ops, n - 1, CANCEL, NEVER);
      StepFlags(ws[n - 1], ops[n - 1], debounce);
    }
  }

  lemma NothingYet(ops: seq<Op>)
    ensures !Since(ops, 0, NOTIFY, TAKE) && !Since(ops, 0, TAKE, TICK)
    ensures !Since(ops, 0, TICK, END) && !Since(ops, 0, CANCEL, NEVER)
  {
  }

  lemma StepFlags(s: World, op: Op, debounce: nat)
    requires Enabled(s.core, op)
    ensures var c, d := s.core, Next(s, op, debounce).core;
      && (d.events <==> op.Notify? || (c.events && !op.TakeEvent?))
      && (d.tick <==> op.TakeEvent? || (c.tick && !op.TakeTick?))
      && (d.busy <==> op.TakeTick? || (c.busy && !op.ReloadEnds?))
      && (d.stopped <==> op.Cancel? || c.stopped)
  {
  }

  lemma {:induction false} StoppedForGood(ws: seq<World>, ops: seq<Op>, debounce: nat, i: nat, n: nat)
    requires Trace(ws, ops, debounce) && ws[0] == Init() && i < n <= |ops| && ops[i].Cancel?
    ensures ws[n].core.stopped && !Running(ws[n].core) && !Fired(ws[n].core) && !ws[n].core.busy
  {
    if n == i + 1 {
      assert Enabled(ws[i].core, ops[i]);
    } else {
      StoppedForGood(ws, ops, debounce, i, n - 1);
      assert Enabled(ws[n - 1].core, ops[n - 1]);
    }
  }

  /** After Cancel the goroutine and its timer do nothing; while a Reload runs the goroutine does nothing else. */
  lemma NothingElse(ws: seq<World>, ops: seq<Op>, debounce: nat, i: nat, n: nat)
    requires Trace(ws, ops, debounce) && ws[0] == Init() && i < n < |ops|
    ensures ops[i].Cancel? ==> ops[n].Notify? || ops[n].Advance?
    ensures ops[i].TakeTick? && (forall j :: i < j < n ==> !ops[j].ReloadEnds?) ==>
      !ops[n].TakeTick? && !ops[n].TakeEvent? && !ops[n].Cancel?
  {
    FlagsAre(ws, ops, debounce, n);
    assert Enabled(ws[n].core, ops[n]);
    if ops[i].Cancel? {
      StoppedForGood(ws, ops, debounce, i, n);
    } else if ops[i].TakeTick? && forall j :: i < j < n ==> !ops[j].ReloadEnds? {
      assert TICK(ops[i]) && NoneAfter(ops, i, n, END);
    }
  }

  // ---- Debouncing ----

  /** A Reload starts only when a full debounce interval has passed since the last signal taken. */
  lemma ReloadWaits(s: World, debounce: nat)
    requires Reachable(s, debounce) && Enabled(s.core, TakeTick)
    ensures s.core.now >= s.past.lastTake + debounce
  {
    ReachableInv(s, debounce);
  }

  /** Signals only coalesce: there are never more Reloads than signals taken, nor more of those
      than signals given. */
  lemma SignalsCoalesce(s: World, debounce: nat)
    requires Reachable(s, debounce)
    ensures s.past.reloads <= s.past.takes <= s.past.notifies
  {
    ReachableInv(s, debounce);
  }

  // ---- The goroutine's code ----

  class Watcher {
    var events: bool
    var timer: Timer
    var tick: bool
    var busy: bool
    var stopped: bool
    var now: nat
    const debounce: nat

    function State(): Core
      reads this
    {
      Core(events, timer, tick, busy, stopped, now)
    }

    constructor (interval: nat)
      ensures State() == Init().core && debounce == interval
    {
      events, timer, tick, busy, stopped, now := false, NoTimer, false, false, false, 0;
      debounce := interval;
    }

    /** The watchers' callback: a send that never blocks. */
    method Notify()
      modifies this
      ensures State() == Effect(old(State()), Op.Notify, debounce)
    {
      if !events {
        events := true;
      }
    }

    /** Stop; true if the timer was running. */
    method Stop() returns (wasRunning: bool)
      requires timer.Timer?
      modifies this`timer
      ensures wasRunning == old(timer).running && timer == old(timer).(running := false)
    {
      wasRunning := timer.running;
      timer := timer.(running := false);
    }

    method StopAndDrain()
      requires timer.Timer? && TickIsLive(State())
      modifies this`timer
      ensures timer == old(timer).(running := false, fired := false)
    {
      var wasRunning := Stop();
      if !wasRunning {
        if timer.fired {
          timer := timer.(fired := false);
        }
      }
    }

    method Arm()
      requires TickIsLive(State())
      modifies this`timer, this`tick
      ensures State() == Armed(old(State()), debounce)
    {
      if timer.NoTimer? {
        timer := Timer(true, now + debounce, false);
        tick := true;
        return;
      }
      StopAndDrain();
      timer := Timer(true, now + debounce, timer.fired);
      tick := true;
    }

    /** One turn of the select loop: the case chosen among those that are ready. */
    method Select(choice: Op)
      requires TickIsLive(State()) && (choice.TakeEvent? || choice.TakeTick? || choice.Cancel?)
      requires Enabled(State(), choice)
      modifies this
      ensures State() == Effect(old(State()), choice, debounce) && TickIsLive(State())
    {
      match choice
      case Cancel =>
        if !timer.NoTimer? {
          StopAndDrain();
        }
        stopped := true;
      case TakeEvent =>
        events := false;
        Arm();
      case TakeTick =>
        timer := timer.(fired := false);
        tick := false;
        busy := true;
    }
  }
}
