/** Each pool operation, run alone, as the steps of the concurrent pool it takes. */
module PoolRuns {
  import opened Wrappers
  import opened PoolSteps

  const GETTER: Actor := Worker(0)

  /** One borrower and the two routines, nobody inside an operation. */
  const CREW: map<Actor, Phase> := map[GETTER := Rest, Cleaner := Rest, Medic := Rest]

  /** Only `a` is inside an operation, at phase p, with these connections in its hands. */
  predicate Alone(m: Pool, a: Actor, p: Phase, held: seq<Conn>) {
    a in CREW && m.actors == CREW[a := p] && m.holder == HeldBy(held, a)
  }

  function HeldBy(held: seq<Conn>, a: Actor): map<Conn, Actor> {
    if held == [] then map[] else HeldBy(held[1..], a)[held[0] := a]
  }

  lemma {:induction false} HeldByHas(held: seq<Conn>, a: Actor, c: Conn)
    ensures c in HeldBy(held, a) <==> c in held
    ensures c in HeldBy(held, a) ==> HeldBy(held, a)[c] == a
  {
    if held != [] {
      HeldByHas(held[1..], a, c);
      assert held == [held[0]] + held[1..];
    }
  }

  /** The hands receive c. */
  lemma HeldOneMore(held: seq<Conn>, a: Actor, c: Conn)
    ensures HeldBy(held + [c], a) == HeldBy(held, a)[c := a]
  {
    forall d ensures d in HeldBy(held + [c], a) <==> d in HeldBy(held, a)[c := a] {
      HeldByHas(held, a, d);
      HeldByHas(held + [c], a, d);
    }
    forall d | d in HeldBy(held + [c], a) ensures HeldBy(held + [c], a)[d] == HeldBy(held, a)[c := a][d] {
      HeldByHas(held, a, d);
      HeldByHas(held + [c], a, d);
    }
  }

  /** The hands lose the first connection. */
  lemma HeldOneLess(held: seq<Conn>, a: Actor, c: Conn)
    requires c !in held
    ensures HeldBy([c] + held, a) - {c} == HeldBy(held, a)
  {
    HeldByHas(held, a, c);
    assert ([c] + held)[1..] == held;
  }

  lemma HeldOne(a: Actor, c: Conn)
    ensures HeldBy([c], a) == map[c := a] && HeldBy([c], a) - {c} == map[] && HeldBy([], a)[c := a] == HeldBy([c], a)
  {
    assert [c][1..] == [];
  }

  function With(m: Pool, a: Actor, p: Phase, held: seq<Conn>): Pool {
    m.(actors := CREW[a := p], holder := HeldBy(held, a))
  }

  lemma AllRest(m: Pool, a: Actor, b: Actor)
    requires Alone(m, a, Rest, []) && b in CREW
    ensures Alone(m, b, Rest, [])
  {
    assert CREW[a := Rest] == CREW == CREW[b := Rest];
  }

  /** A pool that some run of the concurrent model leads to. */
  ghost predicate Reachable(m: Pool, cfg: Config) {
    exists s :: Opened(s, cfg) && Reaches(s, cfg, m)
  }

  /** A run of no steps. */
  lemma StandsStill(s: Pool, cfg: Config)
    ensures Reaches(s, cfg, s)
  {
    assert After(s, cfg, []) == Some(s);
  }

  lemma {:induction false} RunsJoin(s: Pool, cfg: Config, steps: seq<Step>, m: Pool, more: seq<Step>, t: Pool)
    requires After(s, cfg, steps) == Some(m) && After(m, cfg, more) == Some(t)
    ensures After(s, cfg, steps + more) == Some(t)
    decreases |more|
  {
    if more == [] {
      assert steps + more == steps;
    } else {
      var front, last := more[..|more| - 1], more[|more| - 1];
      RunsJoin(s, cfg, steps, m, front, After(m, cfg, front).value);
      AfterOneMore(s, cfg, steps + front, After(m, cfg, front).value, last);
      assert steps + front + [last] == steps + more;
    }
  }

  lemma StaysReachable(m: Pool, cfg: Config, t: Pool)
    requires Reachable(m, cfg) && Reaches(m, cfg, t)
    ensures Reachable(t, cfg)
  {
    var s :| Opened(s, cfg) && Reaches(s, cfg, m);
    var steps :| After(s, cfg, steps) == Some(m);
    var more :| After(m, cfg, more) == Some(t);
    RunsJoin(s, cfg, steps, m, more, t);
  }

  lemma SumOfOne(actors: map<Actor, Phase>, total: Total, a: Actor)
    requires a in actors && (forall b :: b in actors && b != a ==> actors[b].Rest?) && (total.Sized? || total.Open?)
    ensures Sum(actors, total) == Share(total, a, actors[a])
  {
    SumSplit(actors, total, a);
    SumOfNothing(actors - {a});
    SumMonotone(actors - {a}, total, Nothing);
    SumMonotone(actors - {a}, Nothing, total);
  }

  /** The accounts of a reachable pool in which only `a` is inside an operation. */
  lemma Accounts(m: Pool, cfg: Config, a: Actor, p: Phase, held: seq<Conn>)
    requires Reachable(m, cfg) && Alone(m, a, p, held)
    ensures Validate(cfg) && NoDup(m.idle + m.lent) && NoDup(Held(p))
    ensures !m.closed ==> m.size == |m.idle| + |m.lent| + Share(Sized, a, p)
    ensures m.createCount - m.closeCount == |m.idle| + |m.lent| + Share(Open, a, p)
  {
    assert Inv(m, cfg) by {
      var s :| Opened(s, cfg) && Reaches(s, cfg, m);
      var steps :| After(s, cfg, steps) == Some(m);
      OpenedIsSound(s, cfg);
      ReachableIsSound(s, cfg, steps, m);
    }
    SumOfOne(m.actors, Sized, a);
    SumOfOne(m.actors, Open, a);
    JoinApart(m.idle, m.lent);
    assert HandsOf(m.actors)(a) == Held(p);
  }

  // ---------------------------------------------------------------- Get

  lemma Takes(s: Pool, cfg: Config, m: Pool, p: Phase) returns (n: Pool)
    requires Reaches(s, cfg, m) && Alone(m, GETTER, p, []) && m.idle != []
    requires (p.Rest? && !m.closed) || p.Waiting?
    ensures n == With(m.(idle := m.idle[1..]), GETTER, Popped(m.idle[0]), [m.idle[0]]) && Reaches(s, cfg, n)
  {
    var step := Working(GETTER, if p.Rest? then Take else WaitTake);
    StepsTo(s, cfg, m, step);
    n := Do(m, cfg, step);
    assert n.actors == CREW[GETTER := Popped(m.idle[0])];
    HeldOne(GETTER, m.idle[0]);
  }

  lemma Keeps(s: Pool, cfg: Config, m: Pool, c: Conn) returns (n: Pool)
    requires Reaches(s, cfg, m) && Alone(m, GETTER, Popped(c), [c])
    ensures n == With(m.(lent := m.lent + [c]), GETTER, Rest, []) && Reaches(s, cfg, n)
  {
    StepsTo(s, cfg, m, Working(GETTER, Keep));
    n := Do(m, cfg, Working(GETTER, Keep));
    assert n.actors == CREW[GETTER := Rest];
    HeldOne(GETTER, c);
  }

  /** Where an actor that holds c first, and `rest` after it, goes when it gives c up. */
  predicate GivesUp(p: Phase, c: Conn, rest: seq<Conn>, next: Next) {
    || (p == Popped(c) && next == ToGate && rest == [])
    || (p == Returning(c) && next == ToRest && rest == [])
    || (p == Sorting([c] + rest) && next == ToSort(rest))
  }

  lemma Rejects(s: Pool, cfg: Config, m: Pool, a: Actor, p: Phase, c: Conn, rest: seq<Conn>, next: Next)
    returns (n: Pool)
    requires Reaches(s, cfg, m) && Alone(m, a, p, [c] + rest) && GivesUp(p, c, rest, next)
    ensures n == With(m, a, Retired(c, next), [c] + rest) && Reaches(s, cfg, n)
  {
    StepsTo(s, cfg, m, Discarding(a, Reject));
    n := Do(m, cfg, Discarding(a, Reject));
    assert n.actors == CREW[a := Retired(c, next)];
  }

  lemma Tallies(s: Pool, cfg: Config, m: Pool, a: Actor, c: Conn, held: seq<Conn>, next: Next) returns (n: Pool)
    requires Reaches(s, cfg, m) && Alone(m, a, Retired(c, next), held)
    ensures n == With(m.(closeCount := m.closeCount + 1), a, Tallied(c, next), held) && Reaches(s, cfg, n)
  {
    StepsTo(s, cfg, m, Discarding(a, TallyClose));
    n := Do(m, cfg, Discarding(a, TallyClose));
    assert n.actors == CREW[a := Tallied(c, next)];
  }

  lemma Shrinks(s: Pool, cfg: Config, m: Pool, a: Actor, c: Conn, rest: seq<Conn>, next: Next) returns (n: Pool)
    requires Reaches(s, cfg, m) && Alone(m, a, Tallied(c, next), [c] + rest) && c !in rest
    ensures n == With(m.(size := m.size - 1), a, Onward(next), rest) && Reaches(s, cfg, n)
  {
    StepsTo(s, cfg, m, Discarding(a, Shrink));
    n := Do(m, cfg, Discarding(a, Shrink));
    assert n.actors == CREW[a := Onward(next)];
    HeldOneLess(rest, a, c);
  }

  /** An unhealthy or expired connection, or one that does not fit, is closed and counted out. */
  lemma Discards(s: Pool, cfg: Config, m: Pool, a: Actor, p: Phase, c: Conn, rest: seq<Conn>, next: Next)
    returns (n: Pool)
    requires Reaches(s, cfg, m) && Alone(m, a, p, [c] + rest) && GivesUp(p, c, rest, next) && c !in rest
    ensures n == With(m.(size := m.size - 1, closeCount := m.closeCount + 1), a, Onward(next), rest)
    ensures Reaches(s, cfg, n)
  {
    n := Rejects(s, cfg, m, a, p, c, rest, next);
    n := Tallies(s, cfg, n, a, c, [c] + rest, next);
    n := Shrinks(s, cfg, n, a, c, rest, next);
  }

  /** A step of the getter that moves no connection. */
  lemma Turns(s: Pool, cfg: Config, m: Pool, p: Phase, work: Work, q: Phase) returns (n: Pool)
    requires Reaches(s, cfg, m) && Alone(m, GETTER, p, []) && CanWork(m, cfg, GETTER, work)
    requires (work == Miss && q == AtGate) || (work == GateFull && q == Waiting) || (work == GateOpen && q == Dialling)
          || (work == WaitOver && q == Rest) || (work == DialFails && q == Rest)
    ensures n == With(m, GETTER, q, []) && Reaches(s, cfg, n)
  {
    StepsTo(s, cfg, m, Working(GETTER, work));
    n := Do(m, cfg, Working(GETTER, work));
    assert n.actors == CREW[GETTER := q];
  }

  lemma Dials(s: Pool, cfg: Config, m: Pool) returns (n: Pool)
    requires Reaches(s, cfg, m) && Alone(m, GETTER, Dialling, [])
    ensures n == With(m.(unused := m.unused + 1), GETTER, Made(m.unused), [m.unused]) && Reaches(s, cfg, n)
  {
    StepsTo(s, cfg, m, Working(GETTER, Dial));
    n := Do(m, cfg, Working(GETTER, Dial));
    assert n.actors == CREW[GETTER := Made(m.unused)];
    HeldOne(GETTER, m.unused);
  }

  lemma Grows(s: Pool, cfg: Config, m: Pool, c: Conn) returns (n: Pool)
    requires Reaches(s, cfg, m) && Alone(m, GETTER, Made(c), [c])
    ensures n == With(m.(size := m.size + 1), GETTER, Grown(c), [c]) && Reaches(s, cfg, n)
  {
    StepsTo(s, cfg, m, Working(GETTER, Grow));
    n := Do(m, cfg, Working(GETTER, Grow));
    assert n.actors == CREW[GETTER := Grown(c)];
  }

  lemma Lends(s: Pool, cfg: Config, m: Pool, c: Conn) returns (n: Pool)
    requires Reaches(s, cfg, m) && Alone(m, GETTER, Grown(c), [c])
    ensures n == With(m.(lent := m.lent + [c], createCount := m.createCount + 1), GETTER, Rest, [])
    ensures Reaches(s, cfg, n)
  {
    StepsTo(s, cfg, m, Working(GETTER, Lend));
    n := Do(m, cfg, Working(GETTER, Lend));
    assert n.actors == CREW[GETTER := Rest];
    HeldOne(GETTER, c);
  }

  /** The getter behind the gate makes a connection and keeps it. */
  lemma Creates(s: Pool, cfg: Config, m: Pool) returns (n: Pool)
    requires Reaches(s, cfg, m) && Alone(m, GETTER, Dialling, [])
    ensures n == With(m.(lent := m.lent + [m.unused], size := m.size + 1, createCount := m.createCount + 1,
                         unused := m.unused + 1), GETTER, Rest, [])
    ensures Reaches(s, cfg, n)
  {
    n := Dials(s, cfg, m);
    n := Grows(s, cfg, n, m.unused);
    n := Lends(s, cfg, n, m.unused);
  }

  // ---------------------------------------------------------------- Put and Close

  lemma Returns(s: Pool, cfg: Config, m: Pool, i: nat) returns (n: Pool)
    requires Reaches(s, cfg, m) && Alone(m, GETTER, Rest, []) && !m.closed && i < |m.lent|
    ensures n == With(m.(lent := Without(m.lent, i)), GETTER, Returning(m.lent[i]), [m.lent[i]]) && Reaches(s, cfg, n)
  {
    StepsTo(s, cfg, m, Working(GETTER, PutStart(i)));
    n := Do(m, cfg, Working(GETTER, PutStart(i)));
    assert n.actors == CREW[GETTER := Returning(m.lent[i])];
    HeldOne(GETTER, m.lent[i]);
  }

  lemma Offers(s: Pool, cfg: Config, m: Pool, c: Conn) returns (n: Pool)
    requires Reaches(s, cfg, m) && Alone(m, GETTER, Returning(c), [c]) && |m.idle| < cfg.maxSize
    ensures n == With(m.(idle := m.idle + [c]), GETTER, Rest, []) && Reaches(s, cfg, n)
  {
    StepsTo(s, cfg, m, Working(GETTER, PutOffer));
    n := Do(m, cfg, Working(GETTER, PutOffer));
    assert n.actors == CREW[GETTER := Rest];
    HeldOne(GETTER, c);
  }

  // ---------------------------------------------------------------- the sweeps of cleanup and healthCheck

  lemma Starts(s: Pool, cfg: Config, m: Pool, a: Actor) returns (n: Pool)
    requires Reaches(s, cfg, m) && Alone(m, a, Rest, []) && IsSweeper(a) && !m.closed
    ensures n == With(m, a, Draining([]), []) && Reaches(s, cfg, n)
  {
    StepsTo(s, cfg, m, Sweeping(a, SweepStart));
    n := Do(m, cfg, Sweeping(a, SweepStart));
    assert n.actors == CREW[a := Draining([])];
  }

  lemma Drains(s: Pool, cfg: Config, m: Pool, a: Actor, batch: seq<Conn>) returns (n: Pool)
    requires Reaches(s, cfg, m) && Alone(m, a, Draining(batch), batch) && IsSweeper(a) && m.idle != []
    ensures n == With(m.(idle := m.idle[1..]), a, Draining(batch + [m.idle[0]]), batch + [m.idle[0]])
    ensures Reaches(s, cfg, n)
  {
    StepsTo(s, cfg, m, Sweeping(a, SweepTake));
    n := Do(m, cfg, Sweeping(a, SweepTake));
    assert n.actors == CREW[a := Draining(batch + [m.idle[0]])];
    HeldOneMore(batch, a, m.idle[0]);
  }

  lemma Sorts(s: Pool, cfg: Config, m: Pool, a: Actor, batch: seq<Conn>) returns (n: Pool)
    requires Reaches(s, cfg, m) && Alone(m, a, Draining(batch), batch) && IsSweeper(a) && m.idle == []
    ensures n == With(m, a, Sorting(batch), batch) && Reaches(s, cfg, n)
  {
    StepsTo(s, cfg, m, Sweeping(a, SweepSort));
    n := Do(m, cfg, Sweeping(a, SweepSort));
    assert n.actors == CREW[a := Sorting(batch)];
  }

  lemma PutsBack(s: Pool, cfg: Config, m: Pool, a: Actor, c: Conn, rest: seq<Conn>) returns (n: Pool)
    requires Reaches(s, cfg, m) && Alone(m, a, Sorting([c] + rest), [c] + rest) && IsSweeper(a) && c !in rest
    requires |m.idle| < cfg.maxSize
    ensures n == With(m.(idle := m.idle + [c]), a, Sorting(rest), rest) && Reaches(s, cfg, n)
  {
    StepsTo(s, cfg, m, Sweeping(a, SweepKeep));
    n := Do(m, cfg, Sweeping(a, SweepKeep));
    assert n.actors == CREW[a := Sorting(rest)];
    HeldOneLess(rest, a, c);
  }

  /** What cleanup still has to create when its sweep is over; healthCheck is done then. */
  function AfterSweep(m: Pool, cfg: Config, a: Actor): Phase {
    if a.Cleaner? && m.size < cfg.minSize then TopUp(cfg.minSize - m.size) else Rest
  }

  lemma Ends(s: Pool, cfg: Config, m: Pool, a: Actor) returns (n: Pool)
    requires Reaches(s, cfg, m) && Alone(m, a, Sorting([]), []) && IsSweeper(a)
    ensures n == With(m, a, AfterSweep(m, cfg, a), []) && Reaches(s, cfg, n)
  {
    StepsTo(s, cfg, m, Sweeping(a, SweepDone));
    n := Do(m, cfg, Sweeping(a, SweepDone));
    assert n.actors == CREW[a := AfterSweep(m, cfg, a)];
  }

  lemma TopDials(s: Pool, cfg: Config, m: Pool, left: nat) returns (n: Pool)
    requires Reaches(s, cfg, m) && Alone(m, Cleaner, TopUp(left), []) && left > 0 && |m.idle| < cfg.maxSize
    ensures n == With(m.(idle := m.idle + [m.unused], unused := m.unused + 1), Cleaner, TopSent(m.unused, left), [])
    ensures Reaches(s, cfg, n)
  {
    var c := m.unused;
    StepsTo(s, cfg, m, ToppingUp(TopDial));
    n := Do(m, cfg, ToppingUp(TopDial));
    assert n.actors == CREW[Cleaner := TopMade(c, left)];
    HeldOne(Cleaner, c);
    StepsTo(s, cfg, n, ToppingUp(TopSend));
    n := Do(n, cfg, ToppingUp(TopSend));
    assert n.actors == CREW[Cleaner := TopSent(c, left)];
  }

  lemma TopGrows(s: Pool, cfg: Config, m: Pool, c: Conn, left: nat) returns (n: Pool)
    requires Reaches(s, cfg, m) && Alone(m, Cleaner, TopSent(c, left), [])
    ensures n == With(m.(size := m.size + 1), Cleaner, TopGrown(c, left), []) && Reaches(s, cfg, n)
  {
    StepsTo(s, cfg, m, ToppingUp(TopGrow));
    n := Do(m, cfg, ToppingUp(TopGrow));
    assert n.actors == CREW[Cleaner := TopGrown(c, left)];
  }

  lemma TopTallies(s: Pool, cfg: Config, m: Pool, c: Conn, left: nat) returns (n: Pool)
    requires Reaches(s, cfg, m) && Alone(m, Cleaner, TopGrown(c, left), []) && left > 0
    ensures n == With(m.(createCount := m.createCount + 1), Cleaner, TopUp(left - 1), []) && Reaches(s, cfg, n)
  {
    StepsTo(s, cfg, m, ToppingUp(TopTally));
    n := Do(m, cfg, ToppingUp(TopTally));
    assert n.actors == CREW[Cleaner := TopUp(left - 1)];
  }

  /** Cleanup creates one connection, idle from the start. */
  lemma TopsUp(s: Pool, cfg: Config, m: Pool, left: nat) returns (n: Pool)
    requires Reaches(s, cfg, m) && Alone(m, Cleaner, TopUp(left), []) && left > 0 && |m.idle| < cfg.maxSize
    ensures n == With(m.(idle := m.idle + [m.unused], size := m.size + 1, createCount := m.createCount + 1,
                         unused := m.unused + 1), Cleaner, TopUp(left - 1), [])
    ensures Reaches(s, cfg, n)
  {
    n := TopDials(s, cfg, m, left);
    n := TopGrows(s, cfg, n, m.unused, left);
    n := TopTallies(s, cfg, n, m.unused, left);
  }

  /** The top-up is complete, or the factory fails. */
  lemma StopsToppingUp(s: Pool, cfg: Config, m: Pool, left: nat) returns (n: Pool)
    requires Reaches(s, cfg, m) && Alone(m, Cleaner, TopUp(left), [])
    ensures n == With(m, Cleaner, Rest, []) && Reaches(s, cfg, n)
  {
    var step := ToppingUp(if left == 0 then TopDone else TopDialFails);
    StepsTo(s, cfg, m, step);
    n := Do(m, cfg, step);
    assert n.actors == CREW[Cleaner := Rest];
  }
}
