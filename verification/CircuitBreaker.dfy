/** The three-state circuit breaker driven by the sliding window, over whole runs of calls and outcomes. */
module CircuitBreaker {
  import W = SlidingWindow

  const WINDOW_SIZE: nat := 10
  const SECOND: int := 1_000_000_000

  datatype Config = Config(maxRequests: nat, minRequests: nat, interval: int, timeout: int,
                           failureThreshold: real, successThreshold: nat)

  datatype State = Closed | Open | HalfOpen

  datatype Breaker = Breaker(state: State, openTime: int, halfOpenSuccesses: nat, halfOpenInFlight: nat, window: W.Ring)

  datatype Verdict = Admitted | CircuitOpen | TooManyRequests

  function BucketTime(cfg: Config): (t: int)
    ensures t > 0
    ensures if cfg.interval < 10 then t == SECOND else 10 * t <= cfg.interval < 10 * (t + 1)
  {
    if cfg.interval / 10 <= 0 then SECOND else cfg.interval / 10
  }

  function New(start: int): Breaker {
    Breaker(Closed, 0, 0, 0, W.Fresh(WINDOW_SIZE, start))
  }

  ghost predicate Valid(b: Breaker) {
    |b.window.buckets| == WINDOW_SIZE && W.RingValid(b.window)
  }

  function Decide(cfg: Config, b: Breaker, now: int): Verdict {
    match b.state
    case Closed => Admitted
    case Open => if now - b.openTime > cfg.timeout then Admitted else CircuitOpen
    case HalfOpen => if b.halfOpenInFlight >= cfg.maxRequests then TooManyRequests else Admitted
  }

  /** beforeCall. */
  function Before(cfg: Config, b: Breaker, now: int): Breaker {
    if !Decide(cfg, b, now).Admitted? then b
    else match b.state
         case Closed => b
         case Open => b.(state := HalfOpen, halfOpenSuccesses := 0, halfOpenInFlight := 0)
         case HalfOpen => b.(halfOpenInFlight := b.halfOpenInFlight + 1)
  }

  function FailureRate(window: W.Ring): real {
    var bad := W.Sum(window.buckets, W.Failures) + W.Sum(window.buckets, W.Timeouts);
    var total := W.Sum(window.buckets, W.Totals);
    if total == 0 then 0.0 else bad as real / total as real
  }

  function OnFailure(cfg: Config, b: Breaker, stamp: int): Breaker {
    match b.state
    case Closed =>
      if W.Sum(b.window.buckets, W.Totals) < cfg.minRequests then b
      else if FailureRate(b.window) >= cfg.failureThreshold then b.(state := Open, openTime := stamp)
      else b
    case HalfOpen => b.(state := Open, openTime := stamp)
    case Open => b
  }

  function OnSuccess(cfg: Config, b: Breaker): Breaker {
    if b.state.HalfOpen? then
      var n := b.halfOpenSuccesses + 1;
      if n >= cfg.successThreshold then b.(state := Closed, halfOpenSuccesses := n, window := W.Reset(b.window))
      else b.(halfOpenSuccesses := n)
    else b
  }

  /** afterCall: the outcome is recorded at time `at`; a trip reads the clock again, at `stamp`. */
  function After(cfg: Config, b: Breaker, failed: bool, at: int, stamp: int): Breaker
    requires Valid(b)
  {
    var c := if b.state.HalfOpen? && b.halfOpenInFlight > 0 then b.(halfOpenInFlight := b.halfOpenInFlight - 1) else b;
    var d := c.(window := W.Record(c.window, BucketTime(cfg), at, if failed then W.Failure else W.Success));
    if failed then OnFailure(cfg, d, stamp) else OnSuccess(cfg, d)
  }

  // ---------------------------------------------------------------- runs

  /** A call asking to be admitted, or a finished call reporting its outcome. */
  datatype Event =
    | Ask(id: nat, now: int)
    | Report(id: nat, failed: bool, at: int, stamp: int)

  function Step(cfg: Config, b: Breaker, e: Event): (c: Breaker)
    requires Valid(b)
    ensures Valid(c)
  {
    match e
    case Ask(_, now) => Before(cfg, b, now)
    case Report(_, failed, at, stamp) => After(cfg, b, failed, at, stamp)
  }

  /** The breaker after the first n events. */
  function At(cfg: Config, start: int, es: seq<Event>, n: nat): (b: Breaker)
    requires n <= |es|
    ensures Valid(b)
  {
    if n == 0 then New(start) else Step(cfg, At(cfg, start, es, n - 1), es[n - 1])
  }

  predicate AdmittedAt(cfg: Config, start: int, es: seq<Event>, n: nat)
    requires n < |es|
  {
    es[n].Ask? && Decide(cfg, At(cfg, start, es, n), es[n].now).Admitted?
  }

  /** The breaker trips at event n. */
  predicate TripsAt(cfg: Config, start: int, es: seq<Event>, n: nat)
    requires n < |es|
  {
    !At(cfg, start, es, n).state.Open? && At(cfg, start, es, n + 1).state.Open?
  }

  // ---------------------------------------------------------------- an open breaker admits nobody before its timeout

  predicate AsksInOrder(es: seq<Event>) {
    forall i, j :: 0 <= i < j < |es| && es[i].Ask? && es[j].Ask? ==> es[i].now <= es[j].now
  }

  /** From a trip at event i until event n: still open since then, or a call has been admitted after the timeout. */
  lemma {:induction false} SinceTheTrip(cfg: Config, start: int, es: seq<Event>, i: nat, n: nat)
    requires i < n <= |es| && TripsAt(cfg, start, es, i)
    ensures var t := At(cfg, start, es, i + 1).openTime;
      || (At(cfg, start, es, n).state.Open? && At(cfg, start, es, n).openTime == t)
      || exists k :: i < k < n && es[k].Ask? && es[k].now > t + cfg.timeout
  {
    if n > i + 1 {
      SinceTheTrip(cfg, start, es, i, n - 1);
    }
  }

  /** Only a reported failure trips the breaker, closed or half-open, and its open time is when that happened. */
  lemma TripStamp(cfg: Config, start: int, es: seq<Event>, i: nat)
    requires i < |es| && TripsAt(cfg, start, es, i)
    ensures es[i].Report? && es[i].failed && At(cfg, start, es, i + 1).openTime == es[i].stamp
  {
  }

  /** After a trip no call is admitted until strictly more than Timeout after the failure that tripped it. */
  lemma NoAdmissionBeforeTimeout(cfg: Config, start: int, es: seq<Event>, i: nat, j: nat)
    requires i < j < |es| && TripsAt(cfg, start, es, i) && AdmittedAt(cfg, start, es, j) && AsksInOrder(es)
    ensures es[i].Report? && es[i].failed && es[j].now > es[i].stamp + cfg.timeout
  {
    TripStamp(cfg, start, es, i);
    SinceTheTrip(cfg, start, es, i, j);
  }

  /** An outcome reported while the breaker is open changes neither its state nor its open time, and only an
      admitted call ends the open state. */
  lemma OpenEndsOnlyByAdmission(cfg: Config, start: int, es: seq<Event>, n: nat)
    requires n < |es| && At(cfg, start, es, n).state.Open?
    ensures var b, c := At(cfg, start, es, n), At(cfg, start, es, n + 1);
      if AdmittedAt(cfg, start, es, n) then c.state.HalfOpen? else c.state.Open? && c.openTime == b.openTime
  {
  }

  // ---------------------------------------------------------------- closing takes one series of successes

  function Max1(n: nat): nat {
    if n < 1 then 1 else n
  }

  /** Outcomes reported by events lo..hi-1. */
  function Reports(es: seq<Event>, lo: nat, hi: nat): (r: nat)
    requires lo <= hi <= |es|
    ensures r <= hi - lo
  {
    if lo == hi then 0 else Reports(es, lo, hi - 1) + if es[hi - 1].Report? then 1 else 0
  }

  /** A half-open episode from the admission at event i up to event n. */
  ghost predicate Episode(cfg: Config, start: int, es: seq<Event>, i: nat, n: nat)
    requires i < n <= |es|
  {
    && es[i].Ask? && At(cfg, start, es, i).state.Open?
    && (forall k :: i < k <= n ==> At(cfg, start, es, k).state.HalfOpen?)
    && (forall k :: i <= k < n && es[k].Report? ==> !es[k].failed)
  }

  /** A half-open breaker has just been entered by an admission, or has seen nothing but successes since. */
  lemma IntoHalfOpen(cfg: Config, b: Breaker, e: Event)
    requires Valid(b) && Step(cfg, b, e).state.HalfOpen?
    ensures if b.state.HalfOpen? then
              && (e.Report? ==> !e.failed && b.halfOpenSuccesses + 1 < cfg.successThreshold)
              && Step(cfg, b, e).halfOpenSuccesses == b.halfOpenSuccesses + if e.Report? then 1 else 0
            else b.state.Open? && e.Ask? && Step(cfg, b, e).halfOpenSuccesses == 0
  {
  }

  lemma {:induction false} EpisodeOf(cfg: Config, start: int, es: seq<Event>, n: nat) returns (i: nat)
    requires n <= |es| && At(cfg, start, es, n).state.HalfOpen?
    ensures i < n && Episode(cfg, start, es, i, n)
    ensures At(cfg, start, es, n).halfOpenSuccesses == Reports(es, i, n) < Max1(cfg.successThreshold)
  {
    var b := At(cfg, start, es, n - 1);
    IntoHalfOpen(cfg, b, es[n - 1]);
    if b.state.HalfOpen? {
      i := EpisodeOf(cfg, start, es, n - 1);
    } else {
      i := n - 1;
    }
  }

  /** There is one episode at a time. */
  lemma EpisodeIsUnique(cfg: Config, start: int, es: seq<Event>, i: nat, j: nat, n: nat)
    requires i < n <= |es| && j < n && Episode(cfg, start, es, i, n) && Episode(cfg, start, es, j, n)
    ensures i == j
  {
  }

  /** All four sums over the window are zero. */
  ghost predicate CountsNothing(w: W.Ring) {
    forall k :: W.Sum(w.buckets, k) == 0
  }

  /** How a half-open episode goes on: the outcome that makes max(1, SuccessThreshold) successes closes the breaker
      with an empty window, a failure opens it again, and nothing else ends the episode. */
  lemma EpisodeGoesOn(cfg: Config, start: int, es: seq<Event>, i: nat, n: nat)
    requires i < n < |es| && Episode(cfg, start, es, i, n)
    ensures At(cfg, start, es, n + 1).state ==
      if !es[n].Report? then HalfOpen
      else if es[n].failed then Open
      else if Reports(es, i, n + 1) == Max1(cfg.successThreshold) then Closed
      else HalfOpen
    ensures At(cfg, start, es, n + 1).state.Closed? ==> CountsNothing(At(cfg, start, es, n + 1).window)
    ensures !At(cfg, start, es, n + 1).state.Open? ==>
      At(cfg, start, es, n + 1).halfOpenSuccesses == Reports(es, i, n + 1)
  {
    var j := EpisodeOf(cfg, start, es, n);
    EpisodeIsUnique(cfg, start, es, i, j, n);
    forall k ensures W.Sum(W.Cleared(WINDOW_SIZE), k) == 0 { NothingCleared(WINDOW_SIZE, k); }
  }

  lemma {:induction false} NothingCleared(n: nat, k: W.Column)
    ensures W.Sum(W.Cleared(n), k) == 0
  {
    if n > 0 {
      NothingCleared(n - 1, k);
      assert W.Cleared(n)[..n - 1] == W.Cleared(n - 1);
    }
  }

  /** The breaker closes only after exactly max(1, SuccessThreshold) outcomes reported in one half-open episode,
      all of them successes. */
  lemma ClosingEpisode(cfg: Config, start: int, es: seq<Event>, n: nat) returns (i: nat)
    requires n < |es| && !At(cfg, start, es, n).state.Closed? && At(cfg, start, es, n + 1).state.Closed?
    ensures i < n && Episode(cfg, start, es, i, n) && es[n].Report? && !es[n].failed
    ensures Reports(es, i, n + 1) == Max1(cfg.successThreshold)
  {
    i := EpisodeOf(cfg, start, es, n);
  }

  // ---------------------------------------------------------------- every verdict, told from the events

  /** An open breaker has been open since a trip, and its open time is when that happened. */
  lemma {:induction false} OpenSince(cfg: Config, start: int, es: seq<Event>, n: nat) returns (i: nat)
    requires n <= |es| && At(cfg, start, es, n).state.Open?
    ensures i < n && TripsAt(cfg, start, es, i) && es[i].Report? && At(cfg, start, es, n).openTime == es[i].stamp
    ensures forall k :: i < k <= n ==> At(cfg, start, es, k).state.Open?
  {
    if At(cfg, start, es, n - 1).state.Open? {
      i := OpenSince(cfg, start, es, n - 1);
      OpenEndsOnlyByAdmission(cfg, start, es, n - 1);
    } else {
      i := n - 1;
      TripStamp(cfg, start, es, i);
    }
  }

  /** The slots in use at event n of an episode begun at event i: each call takes one while there is one, each outcome
      gives one back, and the probe takes none. */
  function Slots(max: nat, es: seq<Event>, i: nat, n: nat): nat
    requires i < n <= |es|
  {
    if n == i + 1 then 0
    else
      var s := Slots(max, es, i, n - 1);
      if es[n - 1].Report? then (if s > 0 then s - 1 else 0) else if s < max then s + 1 else s
  }

  lemma {:induction false} EpisodeSlots(cfg: Config, start: int, es: seq<Event>, i: nat, n: nat)
    requires i < n <= |es| && Episode(cfg, start, es, i, n)
    ensures At(cfg, start, es, n).halfOpenInFlight == Slots(cfg.maxRequests, es, i, n)
  {
    if n > i + 1 {
      HalfOpenBound(cfg, start, es, n - 1);
      EpisodeSlots(cfg, start, es, i, n - 1);
    }
  }

  /** Over every run: a closed breaker admits every call and does not change, an open one admits the calls that come
      more than Timeout after the failure that opened it, a half-open one those that find a slot. */
  lemma EveryVerdict(cfg: Config, start: int, es: seq<Event>, n: nat) returns (i: nat)
    requires n < |es| && es[n].Ask?
    ensures var v := Decide(cfg, At(cfg, start, es, n), es[n].now);
      match At(cfg, start, es, n).state
      case Closed => v == Admitted && At(cfg, start, es, n + 1) == At(cfg, start, es, n)
      case Open =>
        && i < n && TripsAt(cfg, start, es, i) && es[i].Report?
        && (forall k :: i < k <= n ==> At(cfg, start, es, k).state.Open?)
        && v == if es[n].now > es[i].stamp + cfg.timeout then Admitted else CircuitOpen
      case HalfOpen =>
        && i < n && Episode(cfg, start, es, i, n)
        && v == if Slots(cfg.maxRequests, es, i, n) < cfg.maxRequests then Admitted else TooManyRequests
  {
    match At(cfg, start, es, n).state {
      case Closed => i := 0;
      case Open => i := OpenSince(cfg, start, es, n);
      case HalfOpen =>
        i := EpisodeOf(cfg, start, es, n);
        EpisodeSlots(cfg, start, es, i, n);
    }
  }

  // ---------------------------------------------------------------- tripping takes failures since the last close

  predicate Closes(b: Breaker, c: Breaker) {
    b.state.HalfOpen? && c.state.Closed?
  }

  /** Every outcome since the breaker last closed (or was made), after the first n events. */
  function LogAt(cfg: Config, start: int, es: seq<Event>, n: nat): W.Log
    requires n <= |es|
  {
    if n == 0 then W.Log([], 0, start)
    else
      var l := LogAt(cfg, start, es, n - 1);
      match es[n - 1]
      case Ask(_, _) => l
      case Report(_, failed, at, _) =>
        var m := W.LogRecord(l, BucketTime(cfg), at, if failed then W.Failure else W.Success);
        if Closes(At(cfg, start, es, n - 1), At(cfg, start, es, n)) then W.LogReset(m) else m
  }

  lemma StepWindow(cfg: Config, b: Breaker, e: Event)
    requires Valid(b)
    ensures var c := Step(cfg, b, e);
      match e
      case Ask(_, _) => c.window == b.window
      case Report(_, failed, at, _) =>
        var w := W.Record(b.window, BucketTime(cfg), at, if failed then W.Failure else W.Success);
        c.window == if Closes(b, c) then W.Reset(w) else w
  {
  }

  lemma {:induction false} WindowRefinesLog(cfg: Config, start: int, es: seq<Event>, n: nat)
    requires n <= |es|
    ensures W.Refines(At(cfg, start, es, n).window, LogAt(cfg, start, es, n))
  {
    if n > 0 {
      WindowRefinesLog(cfg, start, es, n - 1);
      var b, l := At(cfg, start, es, n - 1), LogAt(cfg, start, es, n - 1);
      StepWindow(cfg, b, es[n - 1]);
      match es[n - 1]
      case Ask(_, _) =>
      case Report(_, failed, at, _) =>
        var o := if failed then W.Failure else W.Success;
        W.RecordRefines(b.window, l, BucketTime(cfg), at, o);
        W.ResetRefines(W.Record(b.window, BucketTime(cfg), at, o), W.LogRecord(l, BucketTime(cfg), at, o));
    }
  }

  /** A closed breaker was closed before, and has logged what it was told, or has just closed with an empty log. */
  lemma IntoClosed(cfg: Config, start: int, es: seq<Event>, n: nat)
    requires 0 < n <= |es| && At(cfg, start, es, n).state.Closed?
    ensures if At(cfg, start, es, n - 1).state.Closed?
            then |LogAt(cfg, start, es, n).entries|
                 == |LogAt(cfg, start, es, n - 1).entries| + (if es[n - 1].Report? then 1 else 0)
            else Closes(At(cfg, start, es, n - 1), At(cfg, start, es, n)) && LogAt(cfg, start, es, n).entries == []
  {
  }

  /** Where a closed spell began, and that the log holds exactly the outcomes reported during it. */
  lemma {:induction false} ClosedSince(cfg: Config, start: int, es: seq<Event>, n: nat) returns (i: nat)
    requires n <= |es| && At(cfg, start, es, n).state.Closed?
    ensures i <= n && (i == 0 || Closes(At(cfg, start, es, i - 1), At(cfg, start, es, i)))
    ensures forall k :: i <= k <= n ==> At(cfg, start, es, k).state.Closed?
    ensures |LogAt(cfg, start, es, n).entries| == Reports(es, i, n)
  {
    if n == 0 {
      i := 0;
    } else {
      IntoClosed(cfg, start, es, n);
      if At(cfg, start, es, n - 1).state.Closed? {
        i := ClosedSince(cfg, start, es, n - 1);
      } else {
        i := n;
      }
    }
  }

  lemma {:induction false} LiveAtMostAll(entries: seq<W.Entry>, k: W.Column, slot: nat, size: nat)
    ensures W.LiveCount(entries, k, slot, size) <= |entries|
  {
    if entries != [] { LiveAtMostAll(entries[..|entries| - 1], k, slot, size); }
  }

  /** What a trip of a closed breaker has seen. */
  lemma TripWindow(cfg: Config, b: Breaker, e: Event)
    requires Valid(b) && b.state.Closed? && Step(cfg, b, e).state.Open?
    ensures e.Report? && e.failed
    ensures var w := Step(cfg, b, e).window;
      && w == W.Record(b.window, BucketTime(cfg), e.at, W.Failure)
      && W.Sum(w.buckets, W.Totals) >= cfg.minRequests && FailureRate(w) >= cfg.failureThreshold
  {
  }

  function LiveTotal(l: W.Log): nat {
    W.LiveCount(l.entries, W.Totals, l.slot, WINDOW_SIZE)
  }

  function LiveBad(l: W.Log): nat {
    W.LiveCount(l.entries, W.Failures, l.slot, WINDOW_SIZE) + W.LiveCount(l.entries, W.Timeouts, l.slot, WINDOW_SIZE)
  }

  lemma RateOfLog(w: W.Ring, l: W.Log, threshold: real)
    requires W.Refines(w, l) && |w.buckets| == WINDOW_SIZE && LiveTotal(l) >= 1 && FailureRate(w) >= threshold
    ensures LiveBad(l) as real / LiveTotal(l) as real >= threshold
  {
    W.StatsOfRefinement(w, l, W.Totals);
    W.StatsOfRefinement(w, l, W.Failures);
    W.StatsOfRefinement(w, l, W.Timeouts);
  }

  lemma RecordIsLive(l: W.Log, bucketTime: int, at: int, o: W.Outcome)
    requires bucketTime > 0
    ensures LiveTotal(W.LogRecord(l, bucketTime, at, o)) >= 1
    ensures |W.LogRecord(l, bucketTime, at, o).entries| == |l.entries| + 1
  {
  }

  lemma TripEvidence(cfg: Config, w: W.Ring, l: W.Log)
    requires W.Refines(w, l) && |w.buckets| == WINDOW_SIZE && LiveTotal(l) >= 1
    requires W.Sum(w.buckets, W.Totals) >= cfg.minRequests && FailureRate(w) >= cfg.failureThreshold
    ensures Max1(cfg.minRequests) <= LiveTotal(l) <= |l.entries|
    ensures LiveBad(l) as real / LiveTotal(l) as real >= cfg.failureThreshold
  {
    W.StatsOfRefinement(w, l, W.Totals);
    LiveAtMostAll(l.entries, W.Totals, l.slot, WINDOW_SIZE);
    RateOfLog(w, l, cfg.failureThreshold);
  }

  /** Trip spacing: when a closed breaker trips, at least max(1, MinRequests) outcomes have been reported since it
      last closed or was made, and among those still in the window the failures meet the threshold. */
  lemma TripSpacing(cfg: Config, start: int, es: seq<Event>, n: nat) returns (i: nat)
    requires n < |es| && At(cfg, start, es, n).state.Closed? && At(cfg, start, es, n + 1).state.Open?
    ensures i <= n && (i == 0 || Closes(At(cfg, start, es, i - 1), At(cfg, start, es, i)))
    ensures forall k :: i <= k <= n ==> At(cfg, start, es, k).state.Closed?
    ensures Max1(cfg.minRequests) <= LiveTotal(LogAt(cfg, start, es, n + 1)) <= Reports(es, i, n + 1)
    ensures LiveBad(LogAt(cfg, start, es, n + 1)) as real / LiveTotal(LogAt(cfg, start, es, n + 1)) as real
         >= cfg.failureThreshold
  {
    i := ClosedSince(cfg, start, es, n);
    var l, w := LogAt(cfg, start, es, n + 1), At(cfg, start, es, n + 1).window;
    TripWindow(cfg, At(cfg, start, es, n), es[n]);
    WindowRefinesLog(cfg, start, es, n + 1);
    RecordIsLive(LogAt(cfg, start, es, n), BucketTime(cfg), es[n].at, W.Failure);
    TripEvidence(cfg, w, l);
  }

  /** The outcomes still in the window are enough, and bad enough. */
  predicate MeetsThresholds(cfg: Config, l: W.Log) {
    && LiveTotal(l) > 0 && LiveTotal(l) >= cfg.minRequests
    && LiveBad(l) as real / LiveTotal(l) as real >= cfg.failureThreshold
  }

  lemma WindowMeetsThresholds(cfg: Config, w: W.Ring, l: W.Log)
    requires W.Refines(w, l) && |w.buckets| == WINDOW_SIZE && LiveTotal(l) >= 1
    ensures MeetsThresholds(cfg, l)
       <==> W.Sum(w.buckets, W.Totals) >= cfg.minRequests && FailureRate(w) >= cfg.failureThreshold
  {
    W.StatsOfRefinement(w, l, W.Totals);
    W.StatsOfRefinement(w, l, W.Failures);
    W.StatsOfRefinement(w, l, W.Timeouts);
  }

  /** A closed breaker trips exactly at a failure after which the logged outcomes still in the window meet MinRequests
      and FailureThreshold, and stays closed otherwise. */
  lemma TripIff(cfg: Config, start: int, es: seq<Event>, n: nat)
    requires n < |es| && At(cfg, start, es, n).state.Closed?
    ensures At(cfg, start, es, n + 1).state ==
      if es[n].Report? && es[n].failed && MeetsThresholds(cfg, LogAt(cfg, start, es, n + 1)) then Open else Closed
  {
    if es[n].Report? && es[n].failed {
      var b, l := At(cfg, start, es, n), LogAt(cfg, start, es, n + 1);
      var w := W.Record(b.window, BucketTime(cfg), es[n].at, W.Failure);
      WindowRefinesLog(cfg, start, es, n);
      W.RecordRefines(b.window, LogAt(cfg, start, es, n), BucketTime(cfg), es[n].at, W.Failure);
      RecordIsLive(LogAt(cfg, start, es, n), BucketTime(cfg), es[n].at, W.Failure);
      WindowMeetsThresholds(cfg, w, W.LogRecord(LogAt(cfg, start, es, n), BucketTime(cfg), es[n].at, W.Failure));
    }
  }

  /** The time of the last report among the first n events. */
  function ReportClock(start: int, es: seq<Event>, n: nat): int
    requires n <= |es|
  {
    if n == 0 then start else if es[n - 1].Report? then es[n - 1].at else ReportClock(start, es, n - 1)
  }

  predicate ReportsInOrder(start: int, es: seq<Event>) {
    forall i :: 0 <= i < |es| && es[i].Report? ==> ReportClock(start, es, i) <= es[i].at
  }

  lemma {:induction false} LogInStep(cfg: Config, start: int, es: seq<Event>, n: nat)
    requires n <= |es| && ReportsInOrder(start, es)
    ensures W.InStep(LogAt(cfg, start, es, n), BucketTime(cfg), ReportClock(start, es, n))
  {
    if n > 0 {
      LogInStep(cfg, start, es, n - 1);
      if es[n - 1].Report? {
        W.RecordStaysInStep(LogAt(cfg, start, es, n - 1), BucketTime(cfg), ReportClock(start, es, n - 1), es[n - 1].at,
                            if es[n - 1].failed then W.Failure else W.Success);
      }
    }
  }

  /** Whatever a report is judged on is recent: nothing older than 19 bucket times less 10 is counted, and everything
      reported since the last close within the last 9 bucket times is. */
  lemma EvidenceIsRecent(cfg: Config, start: int, es: seq<Event>, n: nat, e: W.Entry)
    requires n < |es| && es[n].Report? && ReportsInOrder(start, es) && e in LogAt(cfg, start, es, n + 1).entries
    ensures W.Live(e, LogAt(cfg, start, es, n + 1).slot, WINDOW_SIZE) ==> es[n].at - e.at <= 19 * BucketTime(cfg) - 10
    ensures es[n].at - e.at <= 9 * BucketTime(cfg) ==> W.Live(e, LogAt(cfg, start, es, n + 1).slot, WINDOW_SIZE)
  {
    LogInStep(cfg, start, es, n + 1);
    W.AgeOfLive(LogAt(cfg, start, es, n + 1), WINDOW_SIZE, BucketTime(cfg), es[n].at, e);
  }

  // ---------------------------------------------------------------- how many calls a half-open episode lets out

  /** Which admitted calls are still running: admitted in the current half-open episode, or before it; and how
      many of the latter have reported during the episode. */
  datatype Ledger = Ledger(mine: set<nat>, others: set<nat>, strays: nat)

  function LedgerStep(cfg: Config, b: Breaker, l: Ledger, e: Event): Ledger {
    match e
    case Ask(id, now) =>
      if !Decide(cfg, b, now).Admitted? then l
      else (match b.state
            case Closed => l.(others := l.others + {id})
            case Open => Ledger({id}, l.mine + l.others, 0)
            case HalfOpen => l.(mine := l.mine + {id}))
    case Report(id, _, _, _) =>
      if id in l.mine then l.(mine := l.mine - {id})
      else Ledger(l.mine, l.others - {id}, l.strays + if b.state.HalfOpen? then 1 else 0)
  }

  function LedgerAt(cfg: Config, start: int, es: seq<Event>, n: nat): Ledger
    requires n <= |es|
  {
    if n == 0 then Ledger({}, {}, 0)
    else LedgerStep(cfg, At(cfg, start, es, n - 1), LedgerAt(cfg, start, es, n - 1), es[n - 1])
  }

  /** Half-open admission bound: the in-flight counter stays within MaxRequests, and the calls admitted in the
      current episode and still running exceed it by at most the transition probe and the strays, each of which
      was one of the episode's successes; with MaxRequests 0 the probe runs alone. */
  lemma {:induction false} HalfOpenBound(cfg: Config, start: int, es: seq<Event>, n: nat)
    requires n <= |es|
    ensures At(cfg, start, es, n).halfOpenInFlight <= cfg.maxRequests
    ensures At(cfg, start, es, n).state.HalfOpen? ==>
      var b, l := At(cfg, start, es, n), LedgerAt(cfg, start, es, n);
      && |l.mine| <= b.halfOpenInFlight + 1 + l.strays
      && l.strays <= b.halfOpenSuccesses < Max1(cfg.successThreshold)
      && (cfg.maxRequests == 0 ==> |l.mine| <= 1)
  {
    if n > 0 { HalfOpenBound(cfg, start, es, n - 1); }
  }

  /** As long as no call from before the episode has reported during it, at most MaxRequests + 1 of its calls run. */
  lemma NoStraysNoExcess(cfg: Config, start: int, es: seq<Event>, n: nat)
    requires n <= |es| && At(cfg, start, es, n).state.HalfOpen? && LedgerAt(cfg, start, es, n).strays == 0
    ensures |LedgerAt(cfg, start, es, n).mine| <= cfg.maxRequests + 1
  {
    HalfOpenBound(cfg, start, es, n);
  }

  lemma {:induction false} BadAtMostTotal(entries: seq<W.Entry>, slot: nat, size: nat)
    ensures W.LiveCount(entries, W.Failures, slot, size) + W.LiveCount(entries, W.Timeouts, slot, size)
         <= W.LiveCount(entries, W.Totals, slot, size)
  {
    if entries != [] { BadAtMostTotal(entries[..|entries| - 1], slot, size); }
  }

  lemma RatioAtMostOne(bad: nat, total: nat)
    requires bad <= total && total > 0
    ensures bad as real / total as real <= 1.0
  {
  }

  /** A breaker whose threshold is above 1 never leaves the closed state. */
  lemma {:induction false} OnlyReachableThresholdsTrip(cfg: Config, start: int, es: seq<Event>, n: nat)
    requires n <= |es| && !At(cfg, start, es, n).state.Closed?
    ensures cfg.failureThreshold <= 1.0
  {
    if !At(cfg, start, es, n - 1).state.Closed? {
      OnlyReachableThresholdsTrip(cfg, start, es, n - 1);
    } else {
      var i := TripSpacing(cfg, start, es, n - 1);
      var l := LogAt(cfg, start, es, n);
      BadAtMostTotal(l.entries, l.slot, WINDOW_SIZE);
      RatioAtMostOne(LiveBad(l), LiveTotal(l));
    }
  }

  // ---------------------------------------------------------------- the bound is reached

  function TimeOf(e: Event): int {
    match e
    case Ask(_, now) => now
    case Report(_, _, at, _) => at
  }

  /** Calls ask once, under an ID of their own, and report once, after having been admitted; time does not run back. */
  ghost predicate Orderly(cfg: Config, start: int, es: seq<Event>) {
    es == [] ||
    var front, e := es[..|es| - 1], es[|es| - 1];
    var l := LedgerAt(cfg, start, front, |front|);
    && Orderly(cfg, start, front)
    && (if e.Ask? then forall i :: 0 <= i < |front| && front[i].Ask? ==> front[i].id != e.id
        else e.id in l.mine + l.others)
    && start <= TimeOf(e) && forall i :: 0 <= i < |front| ==> TimeOf(front[i]) <= TimeOf(e)
  }

  /** No event so far is later than `now`, and no call has used `next` or an ID above it. */
  ghost predicate Earlier(es: seq<Event>, next: nat, now: int) {
    forall i :: 0 <= i < |es| ==> TimeOf(es[i]) <= now && (es[i].Ask? ==> es[i].id < next)
  }

  /** A run under construction: where it leads, the next unused ID and the time it has reached. */
  ghost predicate Leads(cfg: Config, start: int, es: seq<Event>, b: Breaker, l: Ledger, next: nat, now: int) {
    && Orderly(cfg, start, es) && b == At(cfg, start, es, |es|) && l == LedgerAt(cfg, start, es, |es|) && start <= now
    && Earlier(es, next, now)
  }

  lemma {:induction false} PrefixLeads(cfg: Config, start: int, es: seq<Event>, e: Event, n: nat)
    requires n <= |es|
    ensures At(cfg, start, es + [e], n) == At(cfg, start, es, n)
    ensures LedgerAt(cfg, start, es + [e], n) == LedgerAt(cfg, start, es, n)
  {
    if n > 0 { PrefixLeads(cfg, start, es, e, n - 1); }
  }

  /** One more event of an orderly run. */
  lemma Extend(cfg: Config, start: int, es: seq<Event>, b: Breaker, l: Ledger, next: nat, now: int, e: Event)
    requires Valid(b) && Leads(cfg, start, es, b, l, next, now) && TimeOf(e) >= now
    requires if e.Ask? then e.id == next else e.id in l.mine + l.others
    ensures Leads(cfg, start, es + [e], Step(cfg, b, e), LedgerStep(cfg, b, l, e),
                  if e.Ask? then next + 1 else next, TimeOf(e))
  {
    var more := es + [e];
    PrefixLeads(cfg, start, es, e, |es|);
    assert more[..|more| - 1] == es && more[|es|] == e;
  }

  function Upto(lo: nat, hi: nat): set<nat> {
    if hi <= lo then {} else Upto(lo, hi - 1) + {hi - 1}
  }

  lemma {:induction false} UptoHas(lo: nat, hi: nat, i: nat)
    ensures i in Upto(lo, hi) <==> lo <= i < hi
  {
    if lo < hi { UptoHas(lo, hi - 1, i); }
  }

  lemma {:induction false} UptoSize(lo: nat, hi: nat)
    requires lo <= hi
    ensures |Upto(lo, hi)| == hi - lo
  {
    if lo < hi {
      UptoSize(lo, hi - 1);
      UptoHas(lo, hi - 1, hi - 1);
    }
  }

  /** The first of them leaves. */
  lemma {:induction false} UptoLess(lo: nat, hi: nat)
    requires lo < hi
    ensures lo in Upto(lo, hi) && Upto(lo, hi) - {lo} == Upto(lo + 1, hi)
  {
    UptoHas(lo, hi, lo);
    if lo + 1 < hi { UptoLess(lo, hi - 1); }
  }

  /** m calls are admitted by a new breaker. */
  lemma {:induction false} Crowd(cfg: Config, start: int, m: nat) returns (es: seq<Event>)
    ensures Leads(cfg, start, es, New(start), Ledger({}, Upto(0, m), 0), m, start)
  {
    if m == 0 {
      es := [];
    } else {
      es := Crowd(cfg, start, m - 1);
      Extend(cfg, start, es, New(start), Ledger({}, Upto(0, m - 1), 0), m - 1, start, Ask(m - 1, start));
      es := es + [Ask(m - 1, start)];
    }
  }

  /** The window after j failures in its first bucket. */
  function FailedWindow(start: int, j: nat): W.Ring {
    W.Ring([W.Bucket(0, j, 0, j)] + W.Cleared(WINDOW_SIZE - 1), 0, start)
  }

  lemma {:induction false} SumOfFirst(b: W.Bucket, n: nat, k: W.Column)
    ensures W.Sum([b] + W.Cleared(n), k) == W.Field(b, k)
  {
    if n > 0 {
      SumOfFirst(b, n - 1, k);
      assert ([b] + W.Cleared(n))[..n] == [b] + W.Cleared(n - 1);
    } else {
      assert ([b] + W.Cleared(0))[..0] == [];
    }
  }

  function Fallen(cfg: Config, start: int, j: nat): Breaker {
    if j < Max1(cfg.minRequests) then New(start).(window := FailedWindow(start, j))
    else New(start).(window := FailedWindow(start, j), state := Open, openTime := start)
  }

  lemma OneMoreFailure(cfg: Config, start: int, j: nat, id: nat)
    requires cfg.failureThreshold <= 1.0 && j < Max1(cfg.minRequests)
    ensures Valid(Fallen(cfg, start, j))
    ensures Step(cfg, Fallen(cfg, start, j), Report(id, true, start, start)) == Fallen(cfg, start, j + 1)
  {
    var w := W.Record(FailedWindow(start, j), BucketTime(cfg), start, W.Failure);
    assert w == FailedWindow(start, j + 1);
    forall k ensures W.Sum(w.buckets, k) == W.Field(W.Bucket(0, j + 1, 0, j + 1), k) {
      SumOfFirst(W.Bucket(0, j + 1, 0, j + 1), WINDOW_SIZE - 1, k);
    }
    assert FailureRate(w) == 1.0;
  }

  /** The first j of the crowd report failures; the breaker trips at the one that makes up MinRequests. */
  lemma {:induction false} Failures(cfg: Config, start: int, m: nat, j: nat) returns (es: seq<Event>)
    requires cfg.failureThreshold <= 1.0 && j <= Max1(cfg.minRequests) && j <= m
    ensures Leads(cfg, start, es, Fallen(cfg, start, j), Ledger({}, Upto(j, m), 0), m, start)
  {
    if j == 0 {
      es := Crowd(cfg, start, m);
      assert New(start).window.buckets == FailedWindow(start, 0).buckets;
    } else {
      es := Failures(cfg, start, m, j - 1);
      var e := Report(j - 1, true, start, start);
      OneMoreFailure(cfg, start, j - 1, j - 1);
      UptoLess(j - 1, m);
      Extend(cfg, start, es, Fallen(cfg, start, j - 1), Ledger({}, Upto(j - 1, m), 0), m, start, e);
      es := es + [e];
    }
  }

  /** A half-open breaker with these counters. */
  predicate Probing(b: Breaker, successes: nat, inFlight: nat) {
    b.state.HalfOpen? && b.halfOpenSuccesses == successes && b.halfOpenInFlight == inFlight
  }

  /** The ledger when the probe and m more calls of the episode are running, and k calls from before it. */
  function EpisodeLedger(cfg: Config, k: nat, m: nat): Ledger {
    var n := Max1(cfg.minRequests);
    Ledger(Upto(n + k, n + k + 1 + m), Upto(n, n + k), 0)
  }

  lemma FirstOfEpisode(cfg: Config, k: nat)
    ensures var n := Max1(cfg.minRequests);
      EpisodeLedger(cfg, k, 0) == Ledger({n + k}, {} + Upto(n, n + k), 0)
  {
    var n := Max1(cfg.minRequests);
    assert Upto(n + k, n + k) == {};
  }

  lemma HalfOpens(cfg: Config, start: int, es: seq<Event>, b: Breaker, l: Ledger, next: nat, before: int, now: int)
    returns (more: seq<Event>, c: Breaker)
    requires Valid(b) && Leads(cfg, start, es, b, l, next, before) && before <= now
    requires b.state.Open? && now - b.openTime > cfg.timeout
    ensures Valid(c) && Probing(c, 0, 0)
    ensures Leads(cfg, start, more, c, Ledger({next}, l.mine + l.others, 0), next + 1, now)
  {
    var e := Ask(next, now);
    Extend(cfg, start, es, b, l, next, before, e);
    more, c := es + [e], Step(cfg, b, e);
  }

  /** After the timeout the probe is admitted, while k of the crowd are still running. */
  lemma Probe(cfg: Config, start: int, k: nat) returns (es: seq<Event>, b: Breaker, now: int)
    requires cfg.failureThreshold <= 1.0
    ensures Valid(b) && Probing(b, 0, 0)
    ensures Leads(cfg, start, es, b, EpisodeLedger(cfg, k, 0), Max1(cfg.minRequests) + k + 1, now)
  {
    var n := Max1(cfg.minRequests);
    now := if cfg.timeout < 0 then start else start + cfg.timeout + 1;
    FirstOfEpisode(cfg, k);
    es := Failures(cfg, start, n + k, n);
    es, b := HalfOpens(cfg, start, es, Fallen(cfg, start, n), Ledger({}, Upto(n, n + k), 0), n + k, start, now);
  }

  lemma Admit(cfg: Config, start: int, es: seq<Event>, b: Breaker, l: Ledger, next: nat, now: int, m: nat)
    returns (more: seq<Event>, c: Breaker)
    requires Valid(b) && Probing(b, 0, m) && m < cfg.maxRequests && Leads(cfg, start, es, b, l, next, now)
    ensures Valid(c) && Probing(c, 0, m + 1)
    ensures Leads(cfg, start, more, c, l.(mine := l.mine + {next}), next + 1, now)
  {
    var e := Ask(next, now);
    Extend(cfg, start, es, b, l, next, now, e);
    more, c := es + [e], Step(cfg, b, e);
  }

  /** Then m more calls are admitted. */
  lemma {:induction false} Episodes(cfg: Config, start: int, k: nat, m: nat)
    returns (es: seq<Event>, b: Breaker, now: int)
    requires cfg.failureThreshold <= 1.0 && m <= cfg.maxRequests
    ensures Valid(b) && Probing(b, 0, m)
    ensures Leads(cfg, start, es, b, EpisodeLedger(cfg, k, m), Max1(cfg.minRequests) + k + 1 + m, now)
  {
    if m == 0 {
      es, b, now := Probe(cfg, start, k);
    } else {
      es, b, now := Episodes(cfg, start, k, m - 1);
      es, b := Admit(cfg, start, es, b, EpisodeLedger(cfg, k, m - 1), Max1(cfg.minRequests) + k + m, now, m - 1);
    }
  }

  /** A call from before the episode reports a success, and its slot goes to a new call. */
  lemma Swap(cfg: Config, start: int, es: seq<Event>, b: Breaker, l: Ledger, next: nat, now: int, id: nat)
    returns (more: seq<Event>, c: Breaker)
    requires Valid(b) && Probing(b, l.strays, cfg.maxRequests) && Leads(cfg, start, es, b, l, next, now)
    requires cfg.maxRequests > 0 && l.strays + 1 < cfg.successThreshold && id in l.others && id !in l.mine
    ensures Valid(c) && Probing(c, l.strays + 1, cfg.maxRequests)
    ensures Leads(cfg, start, more, c, Ledger(l.mine + {next}, l.others - {id}, l.strays + 1), next + 1, now)
  {
    var e, f := Report(id, false, now, now), Ask(next, now);
    Extend(cfg, start, es, b, l, next, now, e);
    c := Step(cfg, b, e);
    Extend(cfg, start, es + [e], c, LedgerStep(cfg, b, l, e), next, now, f);
    more, c := es + [e] + [f], Step(cfg, c, f);
  }

  /** The first ID not used when j of the k calls from before the episode have reported. */
  function NextId(cfg: Config, k: nat, j: nat): nat {
    Max1(cfg.minRequests) + k + 1 + cfg.maxRequests + j
  }

  function SwapLedger(cfg: Config, k: nat, j: nat): Ledger {
    var n := Max1(cfg.minRequests);
    Ledger(Upto(n + k, NextId(cfg, k, j)), Upto(n + j, n + k), j)
  }

  lemma SwapLedgerStep(cfg: Config, k: nat, j: nat, id: nat)
    requires j < k && id == Max1(cfg.minRequests) + j
    ensures var l := SwapLedger(cfg, k, j);
      && id in l.others && id !in l.mine
      && SwapLedger(cfg, k, j + 1) == Ledger(l.mine + {NextId(cfg, k, j)}, l.others - {id}, j + 1)
  {
    UptoLess(id, Max1(cfg.minRequests) + k);
    UptoHas(Max1(cfg.minRequests) + k, NextId(cfg, k, j), id);
  }

  lemma NextSwap(cfg: Config, start: int, k: nat, j: nat, es: seq<Event>, b: Breaker, now: int)
    returns (more: seq<Event>, c: Breaker)
    requires Valid(b) && cfg.maxRequests > 0 && 0 < j <= k && j < cfg.successThreshold
    requires Probing(b, j - 1, cfg.maxRequests)
    requires Leads(cfg, start, es, b, SwapLedger(cfg, k, j - 1), NextId(cfg, k, j - 1), now)
    ensures Valid(c) && Probing(c, j, cfg.maxRequests)
    ensures Leads(cfg, start, more, c, SwapLedger(cfg, k, j), NextId(cfg, k, j), now)
  {
    var id := Max1(cfg.minRequests) + j - 1;
    SwapLedgerStep(cfg, k, j - 1, id);
    more, c := Swap(cfg, start, es, b, SwapLedger(cfg, k, j - 1), NextId(cfg, k, j - 1), now, id);
  }

  lemma {:induction false} Swaps(cfg: Config, start: int, k: nat, j: nat) returns (es: seq<Event>, b: Breaker, now: int)
    requires cfg.failureThreshold <= 1.0 && j <= k && j < Max1(cfg.successThreshold) && (j == 0 || cfg.maxRequests > 0)
    ensures Valid(b) && Probing(b, j, cfg.maxRequests)
    ensures Leads(cfg, start, es, b, SwapLedger(cfg, k, j), NextId(cfg, k, j), now)
  {
    if j == 0 {
      es, b, now := Episodes(cfg, start, k, cfg.maxRequests);
      assert SwapLedger(cfg, k, 0) == EpisodeLedger(cfg, k, cfg.maxRequests);
    } else {
      es, b, now := Swaps(cfg, start, k, j - 1);
      es, b := NextSwap(cfg, start, k, j, es, b, now);
    }
  }

  /** An orderly run that ends half-open with k strays and MaxRequests + 1 + k calls of the episode running. */
  ghost predicate Exceeds(cfg: Config, start: int, es: seq<Event>, k: nat) {
    && Orderly(cfg, start, es) && At(cfg, start, es, |es|).state.HalfOpen?
    && LedgerAt(cfg, start, es, |es|).strays == k
    && |LedgerAt(cfg, start, es, |es|).mine| == cfg.maxRequests + 1 + k
  }

  lemma ExcessNeeds(cfg: Config, start: int, es: seq<Event>, k: nat)
    requires Exceeds(cfg, start, es, k)
    ensures cfg.failureThreshold <= 1.0 && k < Max1(cfg.successThreshold) && (k == 0 || cfg.maxRequests > 0)
  {
    HalfOpenBound(cfg, start, es, |es|);
    OnlyReachableThresholdsTrip(cfg, start, es, |es|);
  }

  lemma Arrived(cfg: Config, start: int, es: seq<Event>, b: Breaker, l: Ledger, next: nat, now: int)
    requires Leads(cfg, start, es, b, l, next, now) && b.state.HalfOpen? && |l.mine| == cfg.maxRequests + 1 + l.strays
    ensures Exceeds(cfg, start, es, l.strays)
  {
  }

  lemma ExcessHappens(cfg: Config, k: nat) returns (es: seq<Event>)
    requires cfg.failureThreshold <= 1.0 && k < Max1(cfg.successThreshold) && (k == 0 || cfg.maxRequests > 0)
    ensures Exceeds(cfg, 0, es, k)
  {
    assert |SwapLedger(cfg, k, k).mine| == cfg.maxRequests + 1 + k by {
      UptoSize(Max1(cfg.minRequests) + k, NextId(cfg, k, k));
    }
    var b, now;
    es, b, now := Swaps(cfg, 0, k, k);
    Arrived(cfg, 0, es, b, SwapLedger(cfg, k, k), NextId(cfg, k, k), now);
  }

  /** Exactly when the half-open bound is reached: for k strays if and only if the breaker can trip at all, k
      successes do not close it yet, and there is a slot for a stray to free. */
  lemma ExcessIff(cfg: Config, k: nat)
    ensures (exists start, es :: Exceeds(cfg, start, es, k))
       <==> cfg.failureThreshold <= 1.0 && k < Max1(cfg.successThreshold) && (k == 0 || cfg.maxRequests > 0)
  {
    if start, es :| Exceeds(cfg, start, es, k) { ExcessNeeds(cfg, start, es, k); }
    if cfg.failureThreshold <= 1.0 && k < Max1(cfg.successThreshold) && (k == 0 || cfg.maxRequests > 0) {
      var es := ExcessHappens(cfg, k);
    }
  }

  /** The breaker after m calls have asked at the same moment. */
  function Asked(cfg: Config, b: Breaker, now: int, m: nat): Breaker {
    if m == 0 then b else Before(cfg, Asked(cfg, b, now, m - 1), now)
  }

  /** An open breaker past its timeout lets out exactly MaxRequests + 1 calls of any burst in which none reports,
      the transition probe being the one that is not counted. */
  lemma {:induction false} BurstAdmissions(cfg: Config, b: Breaker, now: int, m: nat)
    requires b.state.Open? && now - b.openTime > cfg.timeout
    ensures Decide(cfg, Asked(cfg, b, now, m), now).Admitted? <==> m <= cfg.maxRequests
    ensures m > 0 ==> Asked(cfg, b, now, m).state.HalfOpen?
    ensures m > 0 ==>
      Asked(cfg, b, now, m).halfOpenInFlight == if m - 1 < cfg.maxRequests then m - 1 else cfg.maxRequests
  {
    if m > 0 { BurstAdmissions(cfg, b, now, m - 1); }
  }

  // ---------------------------------------------------------------- the code

  class CircuitBreaker {
    const config: Config
    const window: W.Window
    var state: State
    var openTime: int
    var halfOpenSuccesses: nat
    var halfOpenInFlight: nat

    ghost predicate Ok()
      reads this, window
    {
      window.Valid() && window.size == WINDOW_SIZE && window.bucketTime == BucketTime(config)
    }

    ghost function Value(): (b: Breaker)
      requires Ok()
      reads this, window, window.buckets
      ensures Valid(b)
    {
      Breaker(state, openTime, halfOpenSuccesses, halfOpenInFlight, window.State())
    }

    constructor (config: Config, now: int)
      ensures Ok() && this.config == config && Value() == New(now) && fresh(window) && fresh(window.buckets)
    {
      this.config := config;
      window := new W.Window(WINDOW_SIZE, BucketTime(config), now);
      state, openTime, halfOpenSuccesses, halfOpenInFlight := Closed, 0, 0, 0;
    }

    method BeforeCall(now: int) returns (v: Verdict)
      requires Ok()
      modifies this
      ensures Ok() && v == Decide(config, old(Value()), now) && Value() == Before(config, old(Value()), now)
    {
      match state {
        case Closed => v := Admitted;
        case Open =>
          if now - openTime > config.timeout {
            state, halfOpenSuccesses, halfOpenInFlight := HalfOpen, 0, 0;
            v := Admitted;
          } else {
            v := CircuitOpen;
          }
        case HalfOpen =>
          if halfOpenInFlight >= config.maxRequests {
            v := TooManyRequests;
          } else {
            halfOpenInFlight := halfOpenInFlight + 1;
            v := Admitted;
          }
      }
    }

    method HandleFailure(stamp: int)
      requires Ok()
      modifies this
      ensures Ok() && Value() == OnFailure(config, old(Value()), stamp)
      ensures old(state).HalfOpen? ==> state.Open?
      ensures !old(state).Open? && state.Open? ==> openTime == stamp
    {
      match state {
        case Closed =>
          var _, failure, timeout, total := window.Stats();
          if total < config.minRequests { return; }
          var rate := if total == 0 then 0.0 else (failure + timeout) as real / total as real;
          if rate >= config.failureThreshold { state, openTime := Open, stamp; }
        case HalfOpen => state, openTime := Open, stamp;
        case Open =>
      }
    }

    method HandleSuccess()
      requires Ok()
      modifies this, window, window.buckets
      ensures Ok() && Value() == OnSuccess(config, old(Value()))
      ensures old(state).HalfOpen? ==>
        if old(halfOpenSuccesses) + 1 < config.successThreshold then state.HalfOpen?
        else state.Closed? && CountsNothing(window.State())
    {
      if state.HalfOpen? {
        halfOpenSuccesses := halfOpenSuccesses + 1;
        if halfOpenSuccesses >= config.successThreshold {
          state := Closed;
          window.ResetBuckets();
          forall k ensures W.Sum(W.Cleared(WINDOW_SIZE), k) == 0 { NothingCleared(WINDOW_SIZE, k); }
        }
      }
    }

    method AfterCall(failed: bool, at: int, stamp: int)
      requires Ok()
      modifies this, window, window.buckets
      ensures Ok() && Value() == After(config, old(Value()), failed, at, stamp)
    {
      if state.HalfOpen? && halfOpenInFlight > 0 { halfOpenInFlight := halfOpenInFlight - 1; }
      if failed {
        window.RecordOutcome(at, W.Failure);
        HandleFailure(stamp);
      } else {
        window.RecordOutcome(at, W.Success);
        HandleSuccess();
      }
    }
  }
}
