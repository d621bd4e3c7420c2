/** What every run of the circuit breaker guarantees (internal/resilience/circuit_breaker.go). */
module BreakerGuarantees {
  import opened CircuitBreaker

  /** Admitted calls are accounted for and none is outstanding while the breaker is open. */
  lemma CountsBalance(cfg: Config, w: World)
    requires cfg.Valid() && Reachable(cfg, w)
    ensures w.core.counts.requests == w.core.counts.successes + w.core.counts.failures + w.calls[w.core.generation]
    ensures w.core.state == Open ==> w.calls[w.core.generation] == 0
  {
    ReachableInv(cfg, w);
  }

  /** The result of a call from an older generation does what a mere poll would do. */
  lemma StaleResultsIgnored(cfg: Config, w: World, g: nat, outcome: Outcome, now: real)
    requires cfg.Valid() && Reachable(cfg, w) && Possible(w, Finish(g, outcome, now)) && g != w.core.generation
    ensures Step(cfg, w, Finish(g, outcome, now)).core == Step(cfg, w, Poll(now)).core
  {
    ReachableInv(cfg, w);
  }

  /** A half-open generation admits at most maxRequests calls, nothing is admitted within
      the timeout of a trip, and only the four legal transitions occur, each raising the generation. */
  lemma HistoryIsLegal(cfg: Config, w: World)
    requires cfg.Valid() && Reachable(cfg, w)
    ensures forall g :: Probes(w.log, g) <= cfg.maxRequests
    ensures forall i, j :: 0 <= i < j < |w.log| && IsTrip(w.log[i]) && w.log[j].Admitted? ==>
      w.log[j].at > w.log[i].at + cfg.timeout
    ensures forall e :: e in w.log && e.Changed? ==> e.before < e.after
    ensures forall e :: e in w.log && e.Changed? ==>
      (e.from, e.to) in {(Closed, Open), (Open, HalfOpen), (HalfOpen, Closed), (HalfOpen, Open)}
  {
    ReachableInv(cfg, w);
    forall e | e in w.log ensures Legal(e) {}
  }

  /** Between metric resets the per-state times add up to the time of the last change. */
  lemma TimesAddUp(cfg: Config, w: World)
    requires cfg.Valid() && Reachable(cfg, w) && w.since > 0.0
    ensures var m := w.core.metrics; m.closedTime + m.openTime + m.halfOpenTime == m.lastChange - w.since
  {
    ReachableInv(cfg, w);
  }
}
