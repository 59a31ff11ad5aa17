/** The token-bucket limiter: whole tokens plus a nanosecond remainder carried between refills. */
module TokenBucket {
  import opened Arithmetic

  const SECOND: int := 1_000_000_000
  const MICROSECOND: int := 1_000

  datatype Config = Config(rate: int, capacity: int)

  datatype Bucket = Bucket(tokens: int, nsRemainder: int, last: int)

  /** int64(time.Second) / rate, which truncates toward zero. */
  function NsPerToken(rate: int): int
    requires rate != 0
  {
    if rate > 0 then SECOND / rate else -(SECOND / -rate)
  }

  function Capped(cfg: Config, tokens: int): int {
    if tokens > cfg.capacity then cfg.capacity else tokens
  }

  function Refill(cfg: Config, b: Bucket, now: int): Bucket
    requires cfg.rate != 0
  {
    var elapsed := now - b.last;
    if elapsed <= 0 then b
    else
      var per := NsPerToken(cfg.rate);
      if per <= 0 then Bucket(cfg.capacity, 0, now)
      else
        var total := b.nsRemainder + elapsed;
        var add := total / per;
        Bucket(if add > 0 then Capped(cfg, b.tokens + add) else b.tokens, total % per, now)
  }

  /** One AllowN(n) at time now. */
  datatype Call = Call(now: int, n: int)

  predicate Grants(cfg: Config, b: Bucket, c: Call)
    requires cfg.rate != 0
  {
    c.n <= 0 || Refill(cfg, b, c.now).tokens >= c.n
  }

  function Allow(cfg: Config, b: Bucket, c: Call): Bucket
    requires cfg.rate != 0
  {
    if c.n <= 0 then b
    else
      var r := Refill(cfg, b, c.now);
      if r.tokens >= c.n then r.(tokens := r.tokens - c.n) else r
  }

  function Run(cfg: Config, b: Bucket, calls: seq<Call>): Bucket
    requires cfg.rate != 0
  {
    if calls == [] then b else Allow(cfg, Run(cfg, b, calls[..|calls| - 1]), calls[|calls| - 1])
  }

  /** Tokens handed out over a run. */
  function Granted(cfg: Config, b: Bucket, calls: seq<Call>): int
    requires cfg.rate != 0
  {
    if calls == [] then 0
    else
      var c := calls[|calls| - 1];
      Granted(cfg, b, calls[..|calls| - 1])
      + if c.n > 0 && Grants(cfg, Run(cfg, b, calls[..|calls| - 1]), c) then c.n else 0
  }

  /** The rates at which a token takes a whole number of nanoseconds, at least one. */
  predicate Metered(cfg: Config) {
    1 <= cfg.rate <= SECOND && cfg.capacity >= 0
  }

  predicate InRange(cfg: Config, b: Bucket)
    requires cfg.rate != 0
  {
    0 <= b.tokens <= cfg.capacity && 0 <= b.nsRemainder < NsPerToken(cfg.rate)
  }

  lemma PerIsPositive(cfg: Config)
    requires Metered(cfg)
    ensures NsPerToken(cfg.rate) >= 1
  {
    assert SECOND == cfg.rate * (SECOND / cfg.rate) + SECOND % cfg.rate;
  }

  // ---------------------------------------------------------------- rate bound

  /** Nanoseconds' worth of tokens in the bucket. */
  function Level(cfg: Config, b: Bucket): int
    requires cfg.rate != 0
  {
    b.tokens * NsPerToken(cfg.rate) + b.nsRemainder
  }

  /** Division with remainder, as the carry uses it. */
  lemma Carry(total: int, per: int)
    requires total >= 0 && per > 0
    ensures total / per >= 0 && 0 <= total % per < per && (total / per) * per + total % per == total
  {
  }

  /** Turning `total` nanoseconds into tokens loses nothing but what the cap cuts off. */
  lemma Exchange(tokens: int, total: int, refilled: int, per: int)
    requires total >= 0 && per > 0 && refilled <= tokens + total / per
    ensures refilled * per + total % per <= tokens * per + total
    ensures refilled == tokens + total / per ==> refilled * per + total % per == tokens * per + total
  {
    var add := total / per;
    Carry(total, per);
    assert (tokens + add) * per == tokens * per + add * per;
    Scale(refilled, tokens + add, per);
  }

  lemma RefillLevel(cfg: Config, b: Bucket, now: int)
    requires Metered(cfg) && InRange(cfg, b)
    ensures InRange(cfg, Refill(cfg, b, now))
    ensures Refill(cfg, b, now).last == if now > b.last then now else b.last
    ensures Level(cfg, Refill(cfg, b, now)) <= Level(cfg, b) + (Refill(cfg, b, now).last - b.last)
    ensures Refill(cfg, b, now).tokens < cfg.capacity ==>
      Level(cfg, Refill(cfg, b, now)) == Level(cfg, b) + (Refill(cfg, b, now).last - b.last)
  {
    PerIsPositive(cfg);
    if now > b.last {
      var per, total := NsPerToken(cfg.rate), b.nsRemainder + (now - b.last);
      Carry(total, per);
      Exchange(b.tokens, total, Refill(cfg, b, now).tokens, per);
    }
  }

  lemma AllowLevel(cfg: Config, b: Bucket, c: Call)
    requires Metered(cfg) && InRange(cfg, b)
    ensures var spent := if c.n > 0 && Grants(cfg, b, c) then c.n else 0;
      && InRange(cfg, Allow(cfg, b, c))
      && Allow(cfg, b, c).last >= b.last
      && spent * NsPerToken(cfg.rate) + Level(cfg, Allow(cfg, b, c)) <= Level(cfg, b) + (Allow(cfg, b, c).last - b.last)
      && (c.n > 0 && Refill(cfg, b, c.now).tokens < cfg.capacity ==>
            spent * NsPerToken(cfg.rate) + Level(cfg, Allow(cfg, b, c))
            == Level(cfg, b) + (Allow(cfg, b, c).last - b.last))
  {
    RefillLevel(cfg, b, c.now);
    if c.n > 0 {
      var r, per := Refill(cfg, b, c.now), NsPerToken(cfg.rate);
      assert (r.tokens - c.n) * per == r.tokens * per - c.n * per;
    }
  }

  /** Every call of the run asks for something and finds the bucket not full after its refill. */
  predicate NeverFull(cfg: Config, b: Bucket, calls: seq<Call>)
    requires cfg.rate != 0
  {
    calls == [] ||
    var m, c := Run(cfg, b, calls[..|calls| - 1]), calls[|calls| - 1];
    NeverFull(cfg, b, calls[..|calls| - 1]) && c.n > 0 && Refill(cfg, m, c.now).tokens < cfg.capacity
  }

  /** What a run hands out plus what it leaves is at most what it started with plus the time that passed, and
      exactly that when the bucket never fills up. */
  lemma {:induction false} RunLevel(cfg: Config, b: Bucket, calls: seq<Call>)
    requires Metered(cfg) && InRange(cfg, b)
    ensures InRange(cfg, Run(cfg, b, calls)) && Run(cfg, b, calls).last >= b.last
    ensures Granted(cfg, b, calls) * NsPerToken(cfg.rate) + Level(cfg, Run(cfg, b, calls))
         <= Level(cfg, b) + (Run(cfg, b, calls).last - b.last)
    ensures NeverFull(cfg, b, calls) ==>
      Granted(cfg, b, calls) * NsPerToken(cfg.rate) + Level(cfg, Run(cfg, b, calls))
      == Level(cfg, b) + (Run(cfg, b, calls).last - b.last)
  {
    if calls != [] {
      var front, c, per := calls[..|calls| - 1], calls[|calls| - 1], NsPerToken(cfg.rate);
      RunLevel(cfg, b, front);
      AllowLevel(cfg, Run(cfg, b, front), c);
      var spent := if c.n > 0 && Grants(cfg, Run(cfg, b, front), c) then c.n else 0;
      Distribute(Granted(cfg, b, front), spent, per);
    }
  }

  lemma {:induction false} RunLast(cfg: Config, b: Bucket, calls: seq<Call>, end: int)
    requires cfg.rate != 0 && b.last <= end && forall c :: c in calls ==> c.now <= end
    ensures Run(cfg, b, calls).last <= end
  {
    if calls != [] {
      assert calls[|calls| - 1] in calls;
      RunLast(cfg, b, calls[..|calls| - 1], end);
    }
  }

  /** Rate bound: over any run of calls, in any order of times up to `end`, the tokens handed out cost at most
      what was in the bucket plus the time that passed; tokens and remainder stay in range. */
  lemma RateBound(cfg: Config, b: Bucket, calls: seq<Call>, end: int)
    requires Metered(cfg) && InRange(cfg, b) && b.last <= end && forall c :: c in calls ==> c.now <= end
    ensures Granted(cfg, b, calls) * NsPerToken(cfg.rate)
         <= b.tokens * NsPerToken(cfg.rate) + b.nsRemainder + (end - b.last)
    ensures InRange(cfg, Run(cfg, b, calls))
  {
    RunLevel(cfg, b, calls);
    RunLast(cfg, b, calls, end);
    PerIsPositive(cfg);
    Scale(0, Run(cfg, b, calls).tokens, NsPerToken(cfg.rate));
  }

  // ---------------------------------------------------------------- exactly what is handed out

  function Min(a: int, b: int): int {
    if a < b then a else b
  }

  function Max(a: int, b: int): int {
    if a < b then b else a
  }

  lemma DivBetween(a: int, per: int, q: int)
    requires per > 0
    ensures q * per <= a <==> q <= a / per
  {
    assert a == (a / per) * per + a % per;
    if q <= a / per { Scale(q, a / per, per); } else { Scale(a / per + 1, q, per); }
  }

  /** A refill leaves the whole tokens that the level and the time since are worth, up to the capacity. */
  lemma RefilledTokens(cfg: Config, b: Bucket, now: int)
    requires Metered(cfg) && InRange(cfg, b)
    ensures NsPerToken(cfg.rate) > 0
    ensures Refill(cfg, b, now).tokens
         == Min(cfg.capacity, (Level(cfg, b) + (Max(now, b.last) - b.last)) / NsPerToken(cfg.rate))
  {
    var r, per, worth := Refill(cfg, b, now), NsPerToken(cfg.rate), Level(cfg, b) + (Max(now, b.last) - b.last);
    PerIsPositive(cfg);
    RefillLevel(cfg, b, now);
    DivBetween(worth, per, r.tokens);
    if r.tokens < cfg.capacity { DivIsUnique(worth, per, r.tokens, r.nsRemainder); }
  }

  /** Over every run a call is granted exactly when it asks for no more than the capacity, and for no more than the
      level before it and the time since are worth. */
  lemma GrantsIff(cfg: Config, b: Bucket, calls: seq<Call>, c: Call)
    requires Metered(cfg) && InRange(cfg, b) && c.n > 0
    ensures var m := Run(cfg, b, calls);
      Grants(cfg, m, c)
      <==> c.n <= cfg.capacity && c.n * NsPerToken(cfg.rate) <= Level(cfg, m) + (Max(c.now, m.last) - m.last)
  {
    var m := Run(cfg, b, calls);
    RunLevel(cfg, b, calls);
    RefilledTokens(cfg, m, c.now);
    DivBetween(Level(cfg, m) + (Max(c.now, m.last) - m.last), NsPerToken(cfg.rate), c.n);
  }

  function Ones(now: int, m: nat): (calls: seq<Call>)
    ensures |calls| == m
  {
    seq(m, _ => Call(now, 1))
  }

  /** Of any number of calls for one token at one instant, as many are granted as there are whole tokens. */
  lemma BurstOfOnes(cfg: Config, b: Bucket, now: int, m: nat)
    requires Metered(cfg) && InRange(cfg, b)
    ensures NsPerToken(cfg.rate) > 0
    ensures Granted(cfg, b, Ones(now, m))
         == Min(m, Min(cfg.capacity, (Level(cfg, b) + (Max(now, b.last) - b.last)) / NsPerToken(cfg.rate)))
  {
    RefilledTokens(cfg, b, now);
    OnesSpend(cfg, b, now, m);
  }

  lemma {:induction false} OnesSpend(cfg: Config, b: Bucket, now: int, m: nat)
    requires Metered(cfg) && InRange(cfg, b)
    ensures var r := Refill(cfg, b, now);
      && Granted(cfg, b, Ones(now, m)) == Min(m, r.tokens)
      && (m > 0 ==> Run(cfg, b, Ones(now, m)) == r.(tokens := r.tokens - Min(m, r.tokens)))
  {
    RefillLevel(cfg, b, now);
    if m > 0 {
      OnesSpend(cfg, b, now, m - 1);
      assert Ones(now, m)[..m - 1] == Ones(now, m - 1);
    }
  }

  /** The whole tokens the clock has brought by time t, counted from b. */
  function Ticks(cfg: Config, b: Bucket, t: int): int
    requires Metered(cfg)
  {
    PerIsPositive(cfg);
    (b.nsRemainder + (t - b.last)) / NsPerToken(cfg.rate)
  }

  /** A limiter to which the clock brings one token at each tick, kept as tokens and the time it was last asked. */
  datatype Meter = Meter(tokens: int, last: int)

  /** What the meter can hand out to a call. */
  function Ready(cfg: Config, b: Bucket, m: Meter, c: Call): int
    requires Metered(cfg)
  {
    Min(cfg.capacity, m.tokens + (Ticks(cfg, b, Max(c.now, m.last)) - Ticks(cfg, b, m.last)))
  }

  function Metering(cfg: Config, b: Bucket, calls: seq<Call>): Meter
    requires Metered(cfg)
  {
    if calls == [] then Meter(b.tokens, b.last)
    else
      var m, c := Metering(cfg, b, calls[..|calls| - 1]), calls[|calls| - 1];
      var ready := Ready(cfg, b, m, c);
      if c.n <= 0 then m
      else Meter(if c.n <= ready then ready - c.n else ready, Max(c.now, m.last))
  }

  /** The time since b that is not yet a whole token. */
  function Phase(cfg: Config, b: Bucket, t: int): int
    requires Metered(cfg)
  {
    PerIsPositive(cfg);
    (b.nsRemainder + (t - b.last)) % NsPerToken(cfg.rate)
  }

  lemma RefillFollowsTicks(cfg: Config, b: Bucket, m: Meter, now: int)
    requires Metered(cfg) && b.nsRemainder >= 0 && b.last <= m.last && m.tokens <= cfg.capacity
    ensures Refill(cfg, Bucket(m.tokens, Phase(cfg, b, m.last), m.last), now)
         == Bucket(Ready(cfg, b, m, Call(now, 1)), Phase(cfg, b, Max(now, m.last)), Max(now, m.last))
  {
    PerIsPositive(cfg);
    if now > m.last {
      var per, x, y := NsPerToken(cfg.rate), b.nsRemainder + (m.last - b.last), now - m.last;
      CarryTwice(x, y, per);
      Carry(x % per + y, per);
    }
  }

  /** Over every run the bucket is the meter, and its remainder the time passed modulo the time of a token, whether it
      was ever full or not. */
  lemma {:induction false} RunIsMetering(cfg: Config, b: Bucket, calls: seq<Call>)
    requires Metered(cfg) && InRange(cfg, b)
    ensures var m := Metering(cfg, b, calls);
      && Run(cfg, b, calls) == Bucket(m.tokens, Phase(cfg, b, m.last), m.last)
      && m.tokens <= cfg.capacity && b.last <= m.last
  {
    PerIsPositive(cfg);
    if calls == [] {
      DivIsUnique(b.nsRemainder, NsPerToken(cfg.rate), 0, b.nsRemainder);
    } else {
      var front, c := calls[..|calls| - 1], calls[|calls| - 1];
      RunIsMetering(cfg, b, front);
      RefillFollowsTicks(cfg, b, Metering(cfg, b, front), c.now);
    }
  }

  /** Over every run a call is granted exactly when the meter is ready for it. */
  lemma MeterGrants(cfg: Config, b: Bucket, calls: seq<Call>, c: Call)
    requires Metered(cfg) && InRange(cfg, b) && c.n > 0
    ensures Grants(cfg, Run(cfg, b, calls), c) <==> c.n <= Ready(cfg, b, Metering(cfg, b, calls), c)
  {
    RunIsMetering(cfg, b, calls);
    RefillFollowsTicks(cfg, b, Metering(cfg, b, calls), c.now);
  }

  // ---------------------------------------------------------------- the nominal rate

  /** A new limiter has handed out no more than its capacity and `rate` tokens a second. */
  ghost predicate WithinNominalRate(cfg: Config, start: int, calls: seq<Call>, end: int)
    requires cfg.rate != 0
  {
    Granted(cfg, Bucket(cfg.capacity, 0, start), calls) * SECOND
    <= cfg.capacity * SECOND + (end - start) * cfg.rate
  }

  ghost predicate KeepsNominalRate(cfg: Config)
    requires cfg.rate != 0
  {
    forall start, calls: seq<Call>, end ::
      start <= end && (forall c :: c in calls ==> c.now <= end) ==> WithinNominalRate(cfg, start, calls, end)
  }

  lemma ScaleUp(granted: int, capacity: int, elapsed: int, per: int, rate: int)
    requires rate > 0 && granted * per <= capacity * per + elapsed
    ensures granted * (per * rate) <= capacity * (per * rate) + elapsed * rate
  {
    Scale(granted * per, capacity * per + elapsed, rate);
    Distribute(capacity * per, elapsed, rate);
    assert (granted * per) * rate == granted * (per * rate) && (capacity * per) * rate == capacity * (per * rate);
  }

  lemma DividingRateIsKept(cfg: Config, start: int, calls: seq<Call>, end: int)
    requires 1 <= cfg.rate <= SECOND && SECOND % cfg.rate == 0 && cfg.capacity >= 0
    requires start <= end && forall c :: c in calls ==> c.now <= end
    ensures WithinNominalRate(cfg, start, calls, end)
  {
    var b, per := Bucket(cfg.capacity, 0, start), NsPerToken(cfg.rate);
    PerIsPositive(cfg);
    assert per * cfg.rate == SECOND;
    RateBound(cfg, b, calls, end);
    ScaleUp(Granted(cfg, b, calls), cfg.capacity, end - start, per, cfg.rate);
  }

  /** Above 10^9 tokens a second every nanosecond fills the bucket, and nothing else does. */
  lemma {:induction false} FilledOncePerNanosecond(cfg: Config, start: int, calls: seq<Call>)
    requires cfg.rate > SECOND && cfg.capacity >= 0
    ensures var b := Run(cfg, Bucket(cfg.capacity, 0, start), calls);
      && b.last >= start && 0 <= b.tokens <= cfg.capacity
      && Granted(cfg, Bucket(cfg.capacity, 0, start), calls) + b.tokens
         <= cfg.capacity + (b.last - start) * cfg.capacity
  {
    if calls != [] {
      var front, c := calls[..|calls| - 1], calls[|calls| - 1];
      FilledOncePerNanosecond(cfg, start, front);
      var b := Run(cfg, Bucket(cfg.capacity, 0, start), front);
      assert NsPerToken(cfg.rate) == 0;
      if c.n > 0 && c.now > b.last {
        Distribute(b.last - start, c.now - b.last, cfg.capacity);
        Multiple(c.now - b.last, cfg.capacity);
      }
    }
  }

  lemma Multiple(k: int, n: int)
    requires k >= 1 && n >= 0
    ensures k * n >= n
  {
  }

  lemma SmallBucketIsKept(cfg: Config, start: int, calls: seq<Call>, end: int)
    requires cfg.rate > SECOND && cfg.capacity >= 0 && cfg.capacity * SECOND <= cfg.rate
    requires start <= end && forall c :: c in calls ==> c.now <= end
    ensures WithinNominalRate(cfg, start, calls, end)
  {
    var b := Bucket(cfg.capacity, 0, start);
    FilledOncePerNanosecond(cfg, start, calls);
    RunLast(cfg, b, calls, end);
    FillsCost(Granted(cfg, b, calls), cfg.capacity, Run(cfg, b, calls).last - start, end - start, cfg.rate);
  }

  lemma FillsCost(granted: int, capacity: int, fills: int, elapsed: int, rate: int)
    requires 0 <= fills <= elapsed && capacity >= 0 && capacity * SECOND <= rate
    requires granted <= capacity + fills * capacity
    ensures granted * SECOND <= capacity * SECOND + elapsed * rate
  {
    assert granted * SECOND <= (capacity + fills * capacity) * SECOND;
    assert (capacity + fills * capacity) * SECOND == capacity * SECOND + fills * (capacity * SECOND);
    if elapsed > 0 {
      assert fills * (capacity * SECOND) <= elapsed * (capacity * SECOND) by {
        if capacity > 0 { Scale(fills, elapsed, capacity * SECOND); }
      }
      Scale(capacity * SECOND, rate, elapsed);
    }
  }

  /** Nothing is ever handed out of a bucket without capacity. */
  lemma {:induction false} EmptyBucketGrantsNothing(cfg: Config, start: int, calls: seq<Call>)
    requires cfg.rate != 0 && cfg.capacity == 0
    ensures Granted(cfg, Bucket(0, 0, start), calls) == 0 && Run(cfg, Bucket(0, 0, start), calls).tokens <= 0
  {
    if calls != [] { EmptyBucketGrantsNothing(cfg, start, calls[..|calls| - 1]); }
  }

  /** Emptying a new bucket at once, and again as soon as it has filled up. */
  lemma TwoHelpings(cfg: Config, t: int)
    requires cfg.rate != 0 && cfg.capacity > 0 && t > 0 && Refill(cfg, Bucket(0, 0, 0), t).tokens == cfg.capacity
    ensures Granted(cfg, Bucket(cfg.capacity, 0, 0), [Call(0, cfg.capacity), Call(t, cfg.capacity)]) == 2 * cfg.capacity
  {
    var n := cfg.capacity;
    var b, calls := Bucket(n, 0, 0), [Call(0, n), Call(t, n)];
    assert calls[..1] == [Call(0, n)] && calls[..1][..0] == [];
    assert Run(cfg, b, calls[..1]) == Bucket(0, 0, 0) && Granted(cfg, b, calls[..1]) == n;
  }

  /** A rate that does not divide 10^9 is broken by emptying the bucket twice, unless the bucket is too small for what
      a nanosecond is worth. */
  lemma OtherRatesAreBroken(cfg: Config)
    requires cfg.rate >= 1 && cfg.capacity >= 1 && SECOND % cfg.rate != 0 && cfg.capacity * SECOND > cfg.rate
    ensures !KeepsNominalRate(cfg)
  {
    var per, n := NsPerToken(cfg.rate), cfg.capacity;
    var t := if per > 0 then n * per else 1;
    assert SECOND == per * cfg.rate + SECOND % cfg.rate;
    if per > 0 {
      Scale(1, n, per);
      DivIsUnique(n * per, per, n, 0);
      Scale(per * cfg.rate + 1, SECOND, n);
      assert n * (per * cfg.rate) == (n * per) * cfg.rate;
    }
    TwoHelpings(cfg, t);
    var calls := [Call(0, n), Call(t, n)];
    assert forall c :: c in calls ==> c.now <= t;
    assert !WithinNominalRate(cfg, 0, calls, t);
  }

  /** The nanoseconds per token are rounded down. Over all its runs a limiter keeps its nominal rate exactly when it
      hands out nothing, or the rate divides a second, or a full bucket is worth no more than a nanosecond. */
  lemma NominalRateIff(cfg: Config)
    requires cfg.rate >= 1 && cfg.capacity >= 0
    ensures KeepsNominalRate(cfg)
       <==> cfg.capacity == 0 || SECOND % cfg.rate == 0 || cfg.capacity * SECOND <= cfg.rate
  {
    if cfg.capacity == 0 || SECOND % cfg.rate == 0 || cfg.capacity * SECOND <= cfg.rate {
      forall start, calls: seq<Call>, end | start <= end && forall c :: c in calls ==> c.now <= end
        ensures WithinNominalRate(cfg, start, calls, end) {
        if cfg.capacity == 0 {
          EmptyBucketGrantsNothing(cfg, start, calls);
        } else if SECOND % cfg.rate == 0 {
          DividingRateIsKept(cfg, start, calls, end);
        } else {
          Multiple(cfg.capacity, SECOND);
          SmallBucketIsKept(cfg, start, calls, end);
        }
      }
    } else {
      OtherRatesAreBroken(cfg);
    }
  }

  // ---------------------------------------------------------------- polling is invisible

  lemma CarryTwice(x: int, y: int, per: int)
    requires x >= 0 && y >= 0 && per > 0
    ensures x / per + (x % per + y) / per == (x + y) / per && (x % per + y) % per == (x + y) % per
  {
    Carry(x, per);
    Carry(x % per + y, per);
    var q, r := x / per + (x % per + y) / per, (x % per + y) % per;
    assert q * per == (x / per) * per + ((x % per + y) / per) * per;
    DivIsUnique(x + y, per, q, r);
  }

  /** Refilling at an intermediate time and then at t is refilling once at t, for every rate. */
  lemma RefillComposes(cfg: Config, b: Bucket, between: int, t: int)
    requires cfg.rate != 0 && b.nsRemainder >= 0 && between <= t
    ensures Refill(cfg, Refill(cfg, b, between), t) == Refill(cfg, b, t)
  {
    var per := NsPerToken(cfg.rate);
    if between > b.last && per > 0 {
      var x, y := b.nsRemainder + (between - b.last), t - between;
      CarryTwice(x, y, per);
      Carry(x, per);
      Carry(x % per + y, per);
    }
  }

  lemma RefillKeepsRemainder(cfg: Config, b: Bucket, now: int)
    requires cfg.rate != 0 && b.nsRemainder >= 0
    ensures Refill(cfg, b, now).nsRemainder >= 0
  {
  }

  /** Every call of the run is turned down. */
  predicate AllDenied(cfg: Config, b: Bucket, calls: seq<Call>)
    requires cfg.rate != 0
  {
    calls == [] || (AllDenied(cfg, b, calls[..|calls| - 1])
                    && !Grants(cfg, Run(cfg, b, calls[..|calls| - 1]), calls[|calls| - 1]))
  }

  /** Denied calls leave no trace: whoever calls later gets the same answer and the same bucket as if the denied
      calls had never been made. */
  lemma {:induction false} DeniedCallsAreInvisible(cfg: Config, b: Bucket, calls: seq<Call>, c: Call)
    requires cfg.rate != 0 && b.nsRemainder >= 0 && AllDenied(cfg, b, calls) && c.n > 0
    requires forall d :: d in calls ==> d.now <= c.now
    ensures Run(cfg, b, calls).nsRemainder >= 0
    ensures Refill(cfg, Run(cfg, b, calls), c.now) == Refill(cfg, b, c.now)
    ensures Grants(cfg, Run(cfg, b, calls), c) == Grants(cfg, b, c)
    ensures Allow(cfg, Run(cfg, b, calls), c) == Allow(cfg, b, c)
  {
    if calls != [] {
      var front, last := calls[..|calls| - 1], calls[|calls| - 1];
      assert last in calls;
      DeniedCallsAreInvisible(cfg, b, front, c);
      RefillComposes(cfg, Run(cfg, b, front), last.now, c.now);
      RefillKeepsRemainder(cfg, Run(cfg, b, front), last.now);
    }
  }

  // ---------------------------------------------------------------- waiting

  /** How long WaitN sleeps for n tokens. */
  function Sleep(cfg: Config, b: Bucket, n: int): int
    requires cfg.rate != 0
  {
    var ns := (n - b.tokens) * NsPerToken(cfg.rate);
    if ns < MICROSECOND then MICROSECOND else ns
  }

  lemma QuotientAtLeast(total: int, per: int, need: int)
    requires per > 0 && total >= need * per
    ensures total / per >= need
  {
    var rest := total - need * per;
    assert rest == (rest / per) * per + rest % per && rest / per >= 0;
    var q := need + rest / per;
    assert q * per == need * per + (rest / per) * per;
    DivIsUnique(total, per, q, rest % per);
  }

  /** One full sleep is enough when nobody else takes tokens. */
  lemma OneSleepSuffices(cfg: Config, b: Bucket, n: int, wake: int)
    requires cfg.rate != 0 && n <= cfg.capacity && b.tokens < n && b.nsRemainder >= 0
    requires wake - b.last >= Sleep(cfg, b, n)
    ensures Refill(cfg, b, wake).tokens >= n
  {
    var per := NsPerToken(cfg.rate);
    if per > 0 {
      var total, need := b.nsRemainder + (wake - b.last), n - b.tokens;
      assert total / per >= need by { QuotientAtLeast(total, per, need); }
    }
  }

  // ---------------------------------------------------------------- the code

  datatype WaitResult = Ok | InvalidRequest | ContextDone

  class Limiter {
    const cfg: Config
    var tokens: int
    var nsRemainder: int
    var lastUpdate: int

    function Value(): Bucket
      reads this
    {
      Bucket(tokens, nsRemainder, lastUpdate)
    }

    constructor (rate: int, capacity: int, now: int)
      ensures cfg == Config(rate, capacity) && Value() == Bucket(capacity, 0, now)
      ensures Metered(cfg) ==> InRange(cfg, Value())
    {
      cfg := Config(rate, capacity);
      tokens, nsRemainder, lastUpdate := capacity, 0, now;
      new;
      if Metered(cfg) { PerIsPositive(cfg); }
    }

    method DoRefill(now: int)
      requires cfg.rate != 0
      modifies this
      ensures Value() == Refill(cfg, old(Value()), now)
      ensures now > old(lastUpdate) && (cfg.rate < 0 || cfg.rate > SECOND) ==> Value() == Bucket(cfg.capacity, 0, now)
    {
      var elapsed := now - lastUpdate;
      if elapsed <= 0 { return; }
      lastUpdate := now;
      var per := NsPerToken(cfg.rate);
      if per <= 0 {
        tokens, nsRemainder := cfg.capacity, 0;
        return;
      }
      var total := nsRemainder + elapsed;
      var add := total / per;
      nsRemainder := total % per;
      if add > 0 {
        tokens := tokens + add;
        if tokens > cfg.capacity { tokens := cfg.capacity; }
      }
    }

    method AllowN(now: int, n: int) returns (ok: bool)
      requires cfg.rate != 0
      modifies this
      ensures ok == Grants(cfg, old(Value()), Call(now, n))
      ensures Value() == Allow(cfg, old(Value()), Call(now, n))
      ensures n <= 0 ==> ok && Value() == old(Value())
      ensures n > 0 ==>
        var b := Refill(cfg, old(Value()), now);
        ok == (b.tokens >= n) && Value() == if ok then b.(tokens := b.tokens - n) else b
    {
      if n <= 0 { return true; }
      DoRefill(now);
      if tokens >= n {
        tokens := tokens - n;
        return true;
      }
      return false;
    }

    /** WaitN with nobody else using the limiter. `wake` is when the lock is re-acquired after a sleep; the
        context is done during sleep number `patience` (counting from zero). */
    method WaitN(n: int, start: int, wake: (int, int) -> int, patience: nat) returns (r: WaitResult, sleeps: nat)
      requires cfg.rate != 0 && nsRemainder >= 0 && lastUpdate <= start
      requires forall t, ns :: wake(t, ns) >= t + ns
      modifies this
      ensures sleeps <= 1
      ensures n <= 0 ==> r == Ok && Value() == old(Value())
      ensures n > 0 && n > cfg.capacity ==> r == InvalidRequest && Value() == old(Value())
      ensures 0 < n <= cfg.capacity ==>
        var b := Refill(cfg, old(Value()), start);
        if b.tokens >= n then r == Ok && sleeps == 0 && Value() == b.(tokens := b.tokens - n)
        else if patience == 0 then r == ContextDone && sleeps == 0 && Value() == b
        else
          var c := Refill(cfg, old(Value()), wake(start, Sleep(cfg, b, n)));
          r == Ok && sleeps == 1 && c.tokens >= n && Value() == c.(tokens := c.tokens - n)
    {
      sleeps := 0;
      if n <= 0 { return Ok, 0; }
      if n > cfg.capacity { return InvalidRequest, 0; }
      var now := start;
      while true
        invariant sleeps <= 1
        invariant sleeps == 0 ==> now == start && Value() == old(Value())
        invariant sleeps == 1 ==> patience > 0 && Refill(cfg, Value(), now).tokens >= n > Value().tokens
        invariant sleeps == 1 ==> Value() == Refill(cfg, old(Value()), start)
        invariant sleeps == 1 ==> now == wake(start, Sleep(cfg, Value(), n))
        invariant sleeps == 1 ==> Refill(cfg, Value(), now) == Refill(cfg, old(Value()), now)
        decreases 1 - sleeps
      {
        DoRefill(now);
        if tokens >= n {
          tokens := tokens - n;
          return Ok, sleeps;
        }
        var per := NsPerToken(cfg.rate);
        var waitNs := (n - tokens) * per;
        if waitNs < MICROSECOND { waitNs := MICROSECOND; }
        if sleeps == patience { return ContextDone, sleeps; }
        ghost var b := Value();
        RefillKeepsRemainder(cfg, old(Value()), start);
        now := wake(now, waitNs);
        OneSleepSuffices(cfg, b, n, now);
        RefillComposes(cfg, old(Value()), start, now);
        sleeps := sleeps + 1;
      }
    }
  }
}
