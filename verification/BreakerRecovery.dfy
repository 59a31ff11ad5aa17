/** When a tripped breaker closes again, and when only calls from before the half-open episode can make it. */
module BreakerRecovery {
  import opened B = CircuitBreaker

  /** The run ends with the breaker closing. */
  ghost predicate Recovers(cfg: Config, start: int, es: seq<Event>) {
    && es != [] && Orderly(cfg, start, es)
    && Closes(At(cfg, start, es, |es| - 1), At(cfg, start, es, |es|))
  }

  /** An outcome of a running call that is the last success needed. */
  lemma LastSuccess(cfg: Config, start: int, es: seq<Event>, b: Breaker, l: Ledger, next: nat, now: int, id: nat)
    returns (more: seq<Event>)
    requires Valid(b) && Leads(cfg, start, es, b, l, next, now) && id in l.mine + l.others
    requires b.state.HalfOpen? && b.halfOpenSuccesses + 1 == Max1(cfg.successThreshold)
    ensures Recovers(cfg, start, more) && more == es + [Report(id, false, now, now)]
  {
    var e := Report(id, false, now, now);
    ClosingStep(cfg, b, id, now);
    Extend(cfg, start, es, b, l, next, now, e);
    RunCloses(cfg, start, es, b, l, next, now, e, LedgerStep(cfg, b, l, e));
    more := es + [e];
  }

  lemma ClosingStep(cfg: Config, b: Breaker, id: nat, now: int)
    requires Valid(b) && b.state.HalfOpen? && b.halfOpenSuccesses + 1 == Max1(cfg.successThreshold)
    ensures Closes(b, Step(cfg, b, Report(id, false, now, now)))
  {
  }

  lemma RunCloses(cfg: Config, start: int, es: seq<Event>, b: Breaker, l: Ledger, next: nat, now: int, e: Event,
                  m: Ledger)
    requires Valid(b) && Leads(cfg, start, es, b, l, next, now) && Closes(b, Step(cfg, b, e))
    requires Leads(cfg, start, es + [e], Step(cfg, b, e), m, next, now)
    ensures Recovers(cfg, start, es + [e])
  {
    PrefixLeads(cfg, start, es, e, |es|);
  }

  /** A success that is not the last one needed. */
  lemma OneSuccess(cfg: Config, start: int, es: seq<Event>, b: Breaker, l: Ledger, next: nat, now: int, id: nat)
    returns (more: seq<Event>, c: Breaker)
    requires Valid(b) && Leads(cfg, start, es, b, l, next, now) && id in l.mine + l.others
    requires b.state.HalfOpen? && b.halfOpenSuccesses + 1 < cfg.successThreshold
    ensures Valid(c)
    ensures Probing(c, b.halfOpenSuccesses + 1, if b.halfOpenInFlight > 0 then b.halfOpenInFlight - 1 else 0)
    ensures Leads(cfg, start, more, c, LedgerStep(cfg, b, l, Report(id, false, now, now)), next, now)
  {
    var e := Report(id, false, now, now);
    Extend(cfg, start, es, b, l, next, now, e);
    more, c := es + [e], Step(cfg, b, e);
  }

  // ---------------------------------------------------------------- with calls from before the episode

  /** The probe is running, and j of the k calls from before the episode have reported successes. */
  function StraysLedger(cfg: Config, k: nat, j: nat): Ledger {
    var n := Max1(cfg.minRequests);
    Ledger({n + k}, Upto(n + j, n + k), j)
  }

  lemma StrayLeaves(cfg: Config, k: nat, j: nat, b: Breaker, now: int)
    requires j < k && b.state.HalfOpen?
    ensures var id := Max1(cfg.minRequests) + j;
      && id in StraysLedger(cfg, k, j).others
      && LedgerStep(cfg, b, StraysLedger(cfg, k, j), Report(id, false, now, now)) == StraysLedger(cfg, k, j + 1)
  {
    UptoLess(Max1(cfg.minRequests) + j, Max1(cfg.minRequests) + k);
  }

  lemma NextStray(cfg: Config, start: int, k: nat, j: nat, es: seq<Event>, b: Breaker, now: int)
    returns (more: seq<Event>, c: Breaker)
    requires Valid(b) && 0 < j <= k && j < cfg.successThreshold && Probing(b, j - 1, 0)
    requires Leads(cfg, start, es, b, StraysLedger(cfg, k, j - 1), Max1(cfg.minRequests) + k + 1, now)
    ensures Valid(c) && Probing(c, j, 0)
    ensures Leads(cfg, start, more, c, StraysLedger(cfg, k, j), Max1(cfg.minRequests) + k + 1, now)
  {
    var n := Max1(cfg.minRequests);
    StrayLeaves(cfg, k, j - 1, b, now);
    more, c := OneSuccess(cfg, start, es, b, StraysLedger(cfg, k, j - 1), n + k + 1, now, n + j - 1);
  }

  lemma {:induction false} Strays(cfg: Config, start: int, k: nat, j: nat)
    returns (es: seq<Event>, b: Breaker, now: int)
    requires cfg.failureThreshold <= 1.0 && j <= k && j < Max1(cfg.successThreshold)
    ensures Valid(b) && Probing(b, j, 0)
    ensures Leads(cfg, start, es, b, StraysLedger(cfg, k, j), Max1(cfg.minRequests) + k + 1, now)
  {
    if j == 0 {
      es, b, now := Probe(cfg, start, k);
      FirstOfEpisode(cfg, k);
    } else {
      es, b, now := Strays(cfg, start, k, j - 1);
      es, b := NextStray(cfg, start, k, j, es, b, now);
    }
  }

  lemma StraysClose(cfg: Config) returns (es: seq<Event>)
    requires cfg.failureThreshold <= 1.0
    ensures Recovers(cfg, 0, es)
  {
    var n, k := Max1(cfg.minRequests), Max1(cfg.successThreshold);
    var front, b, now := Strays(cfg, 0, k, k - 1);
    assert n + k - 1 in StraysLedger(cfg, k, k - 1).others by { UptoHas(n + k - 1, n + k, n + k - 1); }
    es := LastSuccess(cfg, 0, front, b, StraysLedger(cfg, k, k - 1), n + k + 1, now, n + k - 1);
  }

  /** A breaker can trip and close again exactly when its failure threshold is one that failures can meet. */
  lemma RecoversIff(cfg: Config)
    ensures (exists start, es :: Recovers(cfg, start, es)) <==> cfg.failureThreshold <= 1.0
  {
    if start, es :| Recovers(cfg, start, es) {
      OnlyReachableThresholdsTrip(cfg, start, es, |es| - 1);
    }
    if cfg.failureThreshold <= 1.0 {
      var es := StraysClose(cfg);
    }
  }

  // ---------------------------------------------------------------- with the episode's own calls only

  /** The run ends with the breaker closing, and no call from before the episode has reported during it. */
  ghost predicate RecoversUnaided(cfg: Config, start: int, es: seq<Event>) {
    && Recovers(cfg, start, es) && es[|es| - 1].Report?
    && LedgerAt(cfg, start, es, |es| - 1).strays == 0 && es[|es| - 1].id in LedgerAt(cfg, start, es, |es| - 1).mine
  }

  /** With MaxRequests 0 only the probe and strays report successes. */
  lemma {:induction false} OnlyTheProbe(cfg: Config, start: int, es: seq<Event>, n: nat)
    requires n <= |es| && cfg.maxRequests == 0 && At(cfg, start, es, n).state.HalfOpen?
    ensures At(cfg, start, es, n).halfOpenSuccesses + |LedgerAt(cfg, start, es, n).mine|
         <= 1 + LedgerAt(cfg, start, es, n).strays
  {
    IntoHalfOpen(cfg, At(cfg, start, es, n - 1), es[n - 1]);
    if At(cfg, start, es, n - 1).state.HalfOpen? { OnlyTheProbe(cfg, start, es, n - 1); }
  }

  /** The one call of the episode that is running reports a success. */
  lemma OwnSuccess(cfg: Config, start: int, es: seq<Event>, b: Breaker, id: nat, now: int)
    returns (more: seq<Event>, c: Breaker)
    requires id > 0 && Valid(b) && Leads(cfg, start, es, b, Ledger({id - 1}, {}, 0), id, now)
    requires b.state.HalfOpen? && b.halfOpenInFlight <= 1 && b.halfOpenSuccesses + 1 < cfg.successThreshold
    ensures Valid(c) && Probing(c, b.halfOpenSuccesses + 1, 0)
    ensures Leads(cfg, start, more, c, Ledger({}, {}, 0), id, now)
  {
    assert {id - 1} - {id - 1} == {};
    more, c := OneSuccess(cfg, start, es, b, Ledger({id - 1}, {}, 0), id, now, id - 1);
  }

  /** j calls of the episode have reported, and the next one is running. */
  lemma {:induction false} InTurn(cfg: Config, start: int, j: nat) returns (es: seq<Event>, b: Breaker, now: int)
    requires cfg.failureThreshold <= 1.0 && j < Max1(cfg.successThreshold) && (j == 0 || cfg.maxRequests > 0)
    ensures Valid(b) && Probing(b, j, if j == 0 then 0 else 1)
    ensures var id := Max1(cfg.minRequests) + j; Leads(cfg, start, es, b, Ledger({id}, {}, 0), id + 1, now)
  {
    var id := Max1(cfg.minRequests) + j;
    if j == 0 {
      es, b, now := Probe(cfg, start, 0);
      FirstOfEpisode(cfg, 0);
    } else {
      es, b, now := InTurn(cfg, start, j - 1);
      es, b := OwnSuccess(cfg, start, es, b, id, now);
      es, b := NextProbe(cfg, start, es, b, id, now, j);
    }
  }

  lemma NextProbe(cfg: Config, start: int, es: seq<Event>, b: Breaker, id: nat, now: int, j: nat)
    returns (more: seq<Event>, c: Breaker)
    requires Valid(b) && Probing(b, j, 0) && cfg.maxRequests > 0
    requires Leads(cfg, start, es, b, Ledger({}, {}, 0), id, now)
    ensures Valid(c) && Probing(c, j, 1) && Leads(cfg, start, more, c, Ledger({id}, {}, 0), id + 1, now)
  {
    var e := Ask(id, now);
    Extend(cfg, start, es, b, Ledger({}, {}, 0), id, now, e);
    assert {} + {id} == {id};
    more, c := es + [e], Step(cfg, b, e);
  }

  lemma UnaidedNeeds(cfg: Config, start: int, es: seq<Event>)
    requires RecoversUnaided(cfg, start, es)
    ensures cfg.failureThreshold <= 1.0 && (cfg.maxRequests > 0 || cfg.successThreshold <= 1)
  {
    var n := |es| - 1;
    OnlyReachableThresholdsTrip(cfg, start, es, n);
    if cfg.maxRequests == 0 {
      OnlyTheProbe(cfg, start, es, n);
      var i := ClosingEpisode(cfg, start, es, n);
      var j := EpisodeOf(cfg, start, es, n);
      EpisodeIsUnique(cfg, start, es, i, j, n);
    }
  }

  lemma UnaidedHappens(cfg: Config) returns (es: seq<Event>)
    requires cfg.failureThreshold <= 1.0 && (cfg.maxRequests > 0 || cfg.successThreshold <= 1)
    ensures RecoversUnaided(cfg, 0, es)
  {
    var j := Max1(cfg.successThreshold) - 1;
    var id := Max1(cfg.minRequests) + j;
    var front, b, now := InTurn(cfg, 0, j);
    es := LastSuccess(cfg, 0, front, b, Ledger({id}, {}, 0), id + 1, now, id);
    ByItsOwn(cfg, 0, front, b, id, now);
  }

  lemma ByItsOwn(cfg: Config, start: int, es: seq<Event>, b: Breaker, id: nat, now: int)
    requires Leads(cfg, start, es, b, Ledger({id}, {}, 0), id + 1, now)
    requires Recovers(cfg, start, es + [Report(id, false, now, now)])
    ensures RecoversUnaided(cfg, start, es + [Report(id, false, now, now)])
  {
    PrefixLeads(cfg, start, es, Report(id, false, now, now), |es|);
  }

  /** Without help from calls admitted before the episode, a breaker can close again exactly when it can trip and
      there is a slot besides the probe or one success is enough: with MaxRequests 0 and a higher SuccessThreshold the
      probe is the only call the episode ever lets out. */
  lemma RecoversUnaidedIff(cfg: Config)
    ensures (exists start, es :: RecoversUnaided(cfg, start, es))
       <==> cfg.failureThreshold <= 1.0 && (cfg.maxRequests > 0 || cfg.successThreshold <= 1)
  {
    if start, es :| RecoversUnaided(cfg, start, es) { UnaidedNeeds(cfg, start, es); }
    if cfg.failureThreshold <= 1.0 && (cfg.maxRequests > 0 || cfg.successThreshold <= 1) {
      var es := UnaidedHappens(cfg);
    }
  }
}
