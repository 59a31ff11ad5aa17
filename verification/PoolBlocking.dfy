/** When the sends by which a sweep puts connections back into the channel can block. */
module PoolBlocking {
  import opened PoolOvershoot
  import opened PoolSteps
  import opened Wrappers

  /** A sweep has a connection to put back and the channel is full. */
  ghost predicate SendBlocks(m: Pool, cfg: Config) {
    |m.idle| >= cfg.maxSize && exists a :: a in m.actors && m.actors[a].Sorting? && m.actors[a].batch != []
  }

  // ---------------------------------------------------------------- a blocked send means an overshoot

  /** Everybody but cleanup in the middle of a top-up counts for what they hold. */
  lemma SharesWithoutTopUp(actors: map<Actor, Phase>)
    requires forall b :: b in actors ==> !actors[b].TopSent?
    ensures Sum(actors, Sized) >= 0
  {
    SumOfNothing(actors);
    SumMonotone(actors, Nothing, Sized);
  }

  lemma SharesOfSweep(m: Pool, cfg: Config, a: Actor)
    requires Roles(m, cfg) && a in m.actors && m.actors[a].Sorting? && m.actors[a].batch != []
    ensures Sum(m.actors, Sized) >= if PhaseOf(m, Cleaner).TopSent? then 0 else 1
  {
    SumSplit(m.actors, Sized, a);
    var others := m.actors - {a};
    if PhaseOf(m, Cleaner).TopSent? {
      SumSplit(others, Sized, Cleaner);
      SharesWithoutTopUp(others - {Cleaner});
    } else {
      SharesWithoutTopUp(others);
    }
  }

  lemma BlockedMeansOvershoot(m: Pool, cfg: Config)
    requires Inv(m, cfg) && SendBlocks(m, cfg)
    ensures m.size > cfg.maxSize
  {
    var a :| a in m.actors && m.actors[a].Sorting? && m.actors[a].batch != [];
    SharesOfSweep(m, cfg, a);
  }

  // ---------------------------------------------------------------- an overshoot can block a send

  /** The sweeper b holds c and is about to put it back; everybody else is at rest. */
  ghost predicate HoldsOne(s: Pool, cfg: Config, m: Pool, b: Actor, c: Conn) {
    && Reaches(s, cfg, m) && m.actors.Keys == s.actors.Keys && !m.closed && b in m.actors && IsSweeper(b)
    && forall a :: a in m.actors ==> m.actors[a] == if a == b then Sorting([c]) else Rest
  }

  lemma LendsOne(s: Pool, cfg: Config, m: Pool, grown: set<Actor>, w: Actor) returns (n: Pool)
    requires Stage(s, cfg, m, {}, grown) && w in m.actors && w in grown
    ensures Stage(s, cfg, n, {}, grown - {w}) && n.size == m.size && n.idle == m.idle
  {
    var p := m.actors[w];
    assert w in {} + grown;
    assert m.actors[w := p] == m.actors;
    Goes(s, cfg, m, w, m, p, Working(w, Lend), Rest);
    n := Do(m, cfg, Working(w, Lend));
    Settles(s, cfg, m, w, n, Rest, {}, grown, {}, grown - {w});
  }

  lemma {:induction false} AllLend(s: Pool, cfg: Config, m: Pool, grown: set<Actor>) returns (n: Pool)
    requires Stage(s, cfg, m, {}, grown) && grown <= WorkerSet(s.actors)
    ensures Stage(s, cfg, n, {}, {}) && n.size == m.size && n.idle == m.idle
    decreases |grown|
  {
    n := m;
    if grown != {} {
      var w :| w in grown;
      assert w in s.actors.Keys;
      n := LendsOne(s, cfg, m, grown, w);
      n := AllLend(s, cfg, n, grown - {w});
    }
  }

  /** A getter puts its oldest loan back. */
  lemma PutsOne(s: Pool, cfg: Config, m: Pool, w: Actor) returns (n: Pool)
    requires Reaches(s, cfg, m) && !m.closed && w in m.actors && w.Worker? && m.actors[w].Rest?
    requires m.lent != [] && |m.idle| < cfg.maxSize
    ensures Alone(s, cfg, m, w, n, Rest) && |n.idle| == |m.idle| + 1 && |n.lent| == |m.lent| - 1
  {
    var c := m.lent[0];
    assert m.actors[w := Rest] == m.actors;
    Goes(s, cfg, m, w, m, Rest, Working(w, PutStart(0)), Returning(c));
    n := Do(m, cfg, Working(w, PutStart(0)));
    Goes(s, cfg, m, w, n, Returning(c), Working(w, PutOffer), Rest);
    n := Do(n, cfg, Working(w, PutOffer));
  }

  /** The sweeper takes the only idle connection and has drained the channel. */
  lemma TakesOne(s: Pool, cfg: Config, m: Pool, b: Actor) returns (n: Pool, c: Conn)
    requires Stage(s, cfg, m, {}, {}) && b in m.actors && IsSweeper(b) && |m.idle| == 1
    ensures HoldsOne(s, cfg, n, b, c) && n.idle == [] && n.lent == m.lent
  {
    c := m.idle[0];
    assert m.actors[b := Rest] == m.actors;
    Goes(s, cfg, m, b, m, Rest, Sweeping(b, SweepStart), Draining([]));
    n := Do(m, cfg, Sweeping(b, SweepStart));
    Goes(s, cfg, m, b, n, Draining([]), Sweeping(b, SweepTake), Draining([] + [c]));
    n := Do(n, cfg, Sweeping(b, SweepTake));
    Goes(s, cfg, m, b, n, Draining([] + [c]), Sweeping(b, SweepSort), Sorting([] + [c]));
    n := Do(n, cfg, Sweeping(b, SweepSort));
    assert [] + [c] == [c];
    assert n.actors.Keys == m.actors.Keys;
  }

  /** Meanwhile loans come back until the channel is full. */
  lemma {:induction false} FillsChannel(s: Pool, cfg: Config, m: Pool, w: Actor, b: Actor, c: Conn) returns (n: Pool)
    requires HoldsOne(s, cfg, m, b, c) && w in m.actors && w.Worker? && |m.idle| <= cfg.maxSize
    requires |m.idle| + |m.lent| >= cfg.maxSize
    ensures HoldsOne(s, cfg, n, b, c) && |n.idle| == cfg.maxSize
    decreases cfg.maxSize - |m.idle|
  {
    n := m;
    if |m.idle| < cfg.maxSize {
      n := PutsOne(s, cfg, m, w);
      assert n.actors == m.actors;
      n := FillsChannel(s, cfg, n, w, b, c);
    }
  }

  /** From the peak, with everything lent but one connection that the sweeper takes. */
  lemma OneIdleRestLent(s: Pool, cfg: Config) returns (n: Pool)
    requires Opened(s, cfg) && WorkerSet(s.actors) != {} && Peak(s, cfg) > cfg.maxSize
    ensures Stage(s, cfg, n, {}, {}) && |n.idle| == 1 && |n.lent| >= cfg.maxSize
  {
    n := SomeRunReachesThePeak(s, cfg);
    assert {} + WorkerSet(s.actors) == WorkerSet(s.actors);
    n := AllLend(s, cfg, n, WorkerSet(s.actors));
    AtRestCounts(s, cfg, n);
    if n.idle == [] {
      var w :| w in WorkerSet(s.actors);
      assert w in n.actors.Keys;
      var m := n;
      n := PutsOne(s, cfg, m, w);
      Settles(s, cfg, m, w, n, Rest, {}, {}, {}, {});
    }
  }

  lemma AtRestCounts(s: Pool, cfg: Config, m: Pool)
    requires Opened(s, cfg) && Stage(s, cfg, m, {}, {})
    ensures m.size == |m.idle| + |m.lent|
  {
    var steps :| After(s, cfg, steps) == Some(m);
    assert AllAtRest(m);
    PoolConserves(s, cfg, steps, m);
  }

  lemma SomeSendBlocks(s: Pool, cfg: Config, b: Actor) returns (n: Pool)
    requires Opened(s, cfg) && WorkerSet(s.actors) != {} && Peak(s, cfg) > cfg.maxSize
    requires b in s.actors && IsSweeper(b)
    ensures Reaches(s, cfg, n) && SendBlocks(n, cfg)
  {
    var w :| w in WorkerSet(s.actors);
    n := OneIdleRestLent(s, cfg);
    assert b in n.actors.Keys;
    var c;
    n, c := TakesOne(s, cfg, n, b);
    assert w in n.actors.Keys;
    n := FillsChannel(s, cfg, n, w, b, c);
    assert n.actors[b] == Sorting([c]);
  }

  // ---------------------------------------------------------------- exactly when

  ghost predicate NoSendBlocks(s: Pool, cfg: Config) {
    forall t :: Reaches(s, cfg, t) ==> !SendBlocks(t, cfg)
  }

  lemma WithinMaxSizeNeverBlocks(s: Pool, cfg: Config, t: Pool)
    requires Opened(s, cfg) && StaysWithinMaxSize(s, cfg) && Reaches(s, cfg, t)
    ensures !SendBlocks(t, cfg)
  {
    var steps :| After(s, cfg, steps) == Some(t);
    OpenedIsSound(s, cfg);
    ReachableIsSound(s, cfg, steps, t);
    if SendBlocks(t, cfg) { BlockedMeansOvershoot(t, cfg); }
  }

  lemma OvershootMeansGetters(s: Pool, cfg: Config)
    requires Opened(s, cfg) && !StaysWithinMaxSize(s, cfg)
    ensures WorkerSet(s.actors) != {} && Peak(s, cfg) > cfg.maxSize
  {
    var t :| Reaches(s, cfg, t) && t.size > cfg.maxSize;
    if WorkerSet(s.actors) == {} {
      WithoutGetters(s, cfg, t);
    } else {
      PeakIsTheMaximum(s, cfg);
    }
  }

  /** With a sweeper around, no put-back send ever blocks exactly when currentSize stays within MaxSize. */
  lemma NoSendBlocksIff(s: Pool, cfg: Config, b: Actor)
    requires Opened(s, cfg) && b in s.actors && IsSweeper(b)
    ensures NoSendBlocks(s, cfg) <==> StaysWithinMaxSize(s, cfg)
  {
    if StaysWithinMaxSize(s, cfg) {
      forall t | Reaches(s, cfg, t) ensures !SendBlocks(t, cfg) { WithinMaxSizeNeverBlocks(s, cfg, t); }
    } else {
      OvershootMeansGetters(s, cfg);
      var n := SomeSendBlocks(s, cfg, b);
    }
  }
}
