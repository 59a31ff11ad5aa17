/** How far currentSize exceeds MaxSize: the greatest value any run reaches, and exactly when none exceeds it. */
module PoolOvershoot {
  import opened Wrappers
  import opened PoolSteps

  ghost function WorkerSet(actors: map<Actor, Phase>): set<Actor> {
    set a | a in actors && a.Worker?
  }

  lemma WorkerSetSplit(actors: map<Actor, Phase>, a: Actor)
    requires a in actors
    ensures |WorkerSet(actors)| == |WorkerSet(actors - {a})| + if a.Worker? then 1 else 0
  {
    assert WorkerSet(actors) == WorkerSet(actors - {a}) + if a.Worker? then {a} else {};
  }

  lemma {:induction false} WorkersAreCounted(actors: map<Actor, Phase>)
    ensures Sum(actors, Workers) == |WorkerSet(actors)|
    decreases |actors|
  {
    if actors == map[] {
      assert WorkerSet(actors) == {};
    } else {
      var a :| a in actors;
      SumSplit(actors, Workers, a);
      WorkersAreCounted(actors - {a});
      WorkerSetSplit(actors, a);
    }
  }

  /** All getters are behind the gate at once, and cleanup tops a pool up to MaxSize only if MinSize is as large. */
  ghost function Peak(s: Pool, cfg: Config): int {
    cfg.maxSize + |WorkerSet(s.actors)| - if Cleaner in s.actors && cfg.minSize == cfg.maxSize then 0 else 1
  }

  // ---------------------------------------------------------------- no run exceeds the peak

  /** t differs from s in one actor's phase; the size with what that actor creates does not grow, or a getter has
      passed the gate below maxSize, or cleanup has raised the size to minSize at most. */
  predicate Rises(s: Pool, cfg: Config, a: Actor, t: Pool) {
    && a in s.actors && a in t.actors && t.actors == s.actors[a := t.actors[a]]
    && (|| t.size + Share(Creating, a, t.actors[a]) <= s.size + Share(Creating, a, s.actors[a])
        || t.size < cfg.maxSize
        || (a == Cleaner && t.size <= cfg.minSize))
  }

  lemma StepRises(s: Pool, cfg: Config, step: Step)
    requires Roles(s, cfg) && Can(s, cfg, step) && !step.PutAfterClose? && !step.Close?
    ensures Rises(s, cfg, Subject(step), Do(s, cfg, step))
  {
  }

  lemma RiseKeepsPeak(s: Pool, cfg: Config, a: Actor, t: Pool)
    requires Validate(cfg) && Rises(s, cfg, a, t) && Roles(t, cfg) && WorkerSet(s.actors) != {}
    requires s.size + Sum(s.actors, Creating) <= Peak(s, cfg)
    ensures t.size + Sum(t.actors, Creating) <= Peak(t, cfg) == Peak(s, cfg)
  {
    SumUpdate(s.actors, Creating, a, t.actors[a]);
    SumMonotone(t.actors, Creating, Workers);
    WorkersAreCounted(t.actors);
    assert WorkerSet(t.actors) == WorkerSet(s.actors);
  }

  lemma StepKeepsPeak(s: Pool, cfg: Config, step: Step)
    requires Roles(s, cfg) && Validate(cfg) && Can(s, cfg, step) && WorkerSet(s.actors) != {}
    requires s.size + Sum(s.actors, Creating) <= Peak(s, cfg)
    ensures var t := Do(s, cfg, step);
      t.size + Sum(t.actors, Creating) <= Peak(t, cfg) == Peak(s, cfg) && WorkerSet(t.actors) == WorkerSet(s.actors)
  {
    if !step.PutAfterClose? && !step.Close? {
      StepRises(s, cfg, step);
      StepKeepsRoles(s, cfg, step);
      RiseKeepsPeak(s, cfg, Subject(step), Do(s, cfg, step));
      assert WorkerSet(Do(s, cfg, step).actors) == WorkerSet(s.actors);
    }
  }

  /** With a getter around, no run takes currentSize and the creations in progress above the peak. */
  lemma {:induction false} NoRunExceedsThePeak(s: Pool, cfg: Config, steps: seq<Step>, t: Pool)
    requires Opened(s, cfg) && WorkerSet(s.actors) != {} && After(s, cfg, steps) == Some(t)
    ensures t.size + Sum(t.actors, Creating) <= Peak(s, cfg) == Peak(t, cfg)
    ensures WorkerSet(t.actors) == WorkerSet(s.actors)
    decreases |steps|
  {
    OpenedIsSound(s, cfg);
    if steps == [] {
      RestingSums(s);
      assert |WorkerSet(s.actors)| >= 1;
    } else {
      var m := After(s, cfg, steps[..|steps| - 1]).value;
      NoRunExceedsThePeak(s, cfg, steps[..|steps| - 1], m);
      ReachableIsSound(s, cfg, steps[..|steps| - 1], m);
      StepKeepsPeak(m, cfg, steps[|steps| - 1]);
    }
  }

  // ---------------------------------------------------------------- building runs

  /** Getters `dialling` are behind the gate, getters `grown` have been counted, everybody else is at rest. */
  ghost predicate Placed(m: Pool, dialling: set<Actor>, grown: set<Actor>) {
    && !m.closed
    && (forall a :: a in dialling + grown ==> a.Worker?)
    && (forall a :: a in m.actors ==>
          if a in dialling then m.actors[a].Dialling? else if a in grown then m.actors[a].Grown? else m.actors[a].Rest?)
  }

  /** A reachable pool in which nobody is inside an operation except for the getters behind the gate. */
  ghost predicate Stage(s: Pool, cfg: Config, m: Pool, dialling: set<Actor>, grown: set<Actor>) {
    Reaches(s, cfg, m) && m.actors.Keys == s.actors.Keys && Placed(m, dialling, grown)
  }

  /** One actor works alone from m on: n is reached, and only a's phase, now p, is other than in m. */
  ghost predicate Alone(s: Pool, cfg: Config, m: Pool, a: Actor, n: Pool, p: Phase) {
    Reaches(s, cfg, n) && a in m.actors && n.actors == m.actors[a := p] && !n.closed
  }

  lemma Goes(s: Pool, cfg: Config, m: Pool, a: Actor, n: Pool, p: Phase, step: Step, p': Phase)
    requires Alone(s, cfg, m, a, n, p) && Can(n, cfg, step) && !step.Close?
    requires Do(n, cfg, step).actors == n.actors[a := p']
    ensures Alone(s, cfg, m, a, Do(n, cfg, step), p')
  {
    StepsTo(s, cfg, n, step);
    assert m.actors[a := p][a := p'] == m.actors[a := p'];
  }

  lemma Settles(s: Pool, cfg: Config, m: Pool, a: Actor, n: Pool, p: Phase, dialling: set<Actor>, grown: set<Actor>,
                dialling': set<Actor>, grown': set<Actor>)
    requires Stage(s, cfg, m, dialling, grown) && Alone(s, cfg, m, a, n, p)
    requires forall b :: b != a ==> (b in dialling' <==> b in dialling) && (b in grown' <==> b in grown)
    requires if a in dialling' then p.Dialling? else if a in grown' then p.Grown? else p.Rest?
    requires a in dialling' + grown' ==> a.Worker?
    ensures Stage(s, cfg, n, dialling', grown')
  {
    assert n.actors.Keys == m.actors.Keys;
  }

  /** A getter takes the oldest idle connection, finds it unhealthy, and then fails to dial another. */
  lemma ThrowsOneAway(s: Pool, cfg: Config, m: Pool, w: Actor) returns (n: Pool)
    requires Stage(s, cfg, m, {}, {}) && w in m.actors && w.Worker? && m.idle != [] && m.size <= cfg.maxSize
    ensures Stage(s, cfg, n, {}, {}) && |n.idle| == |m.idle| - 1 && n.size == m.size - 1
  {
    var c := m.idle[0];
    assert m.actors[w := Rest] == m.actors;
    n := m;
    Goes(s, cfg, m, w, n, Rest, Working(w, Take), Popped(c));
    n := Do(n, cfg, Working(w, Take));
    Goes(s, cfg, m, w, n, Popped(c), Discarding(w, Reject), Retired(c, ToGate));
    n := Do(n, cfg, Discarding(w, Reject));
    Goes(s, cfg, m, w, n, Retired(c, ToGate), Discarding(w, TallyClose), Tallied(c, ToGate));
    n := Do(n, cfg, Discarding(w, TallyClose));
    Goes(s, cfg, m, w, n, Tallied(c, ToGate), Discarding(w, Shrink), AtGate);
    n := Do(n, cfg, Discarding(w, Shrink));
    Goes(s, cfg, m, w, n, AtGate, Working(w, GateOpen), Dialling);
    n := Do(n, cfg, Working(w, GateOpen));
    Goes(s, cfg, m, w, n, Dialling, Working(w, DialFails), Rest);
    n := Do(n, cfg, Working(w, DialFails));
    Settles(s, cfg, m, w, n, Rest, {}, {}, {}, {});
  }

  lemma {:induction false} ThrowsAllAway(s: Pool, cfg: Config, m: Pool, w: Actor) returns (n: Pool)
    requires Stage(s, cfg, m, {}, {}) && w in m.actors && w.Worker? && m.size <= cfg.maxSize
    ensures Stage(s, cfg, n, {}, {}) && n.idle == [] && n.size == m.size - |m.idle|
    decreases |m.idle|
  {
    n := m;
    if m.idle != [] {
      n := ThrowsOneAway(s, cfg, m, w);
      n := ThrowsAllAway(s, cfg, n, w);
    }
  }

  /** A getter creates a connection and keeps it. */
  lemma MakesOne(s: Pool, cfg: Config, m: Pool, w: Actor) returns (n: Pool)
    requires Stage(s, cfg, m, {}, {}) && w in m.actors && w.Worker? && m.idle == [] && m.size < cfg.maxSize
    ensures Stage(s, cfg, n, {}, {}) && n.idle == [] && n.size == m.size + 1
  {
    var c := m.unused;
    assert m.actors[w := Rest] == m.actors;
    n := m;
    Goes(s, cfg, m, w, n, Rest, Working(w, Miss), AtGate);
    n := Do(n, cfg, Working(w, Miss));
    Goes(s, cfg, m, w, n, AtGate, Working(w, GateOpen), Dialling);
    n := Do(n, cfg, Working(w, GateOpen));
    Goes(s, cfg, m, w, n, Dialling, Working(w, Dial), Made(c));
    n := Do(n, cfg, Working(w, Dial));
    Goes(s, cfg, m, w, n, Made(c), Working(w, Grow), Grown(c));
    n := Do(n, cfg, Working(w, Grow));
    Goes(s, cfg, m, w, n, Grown(c), Working(w, Lend), Rest);
    n := Do(n, cfg, Working(w, Lend));
    Settles(s, cfg, m, w, n, Rest, {}, {}, {}, {});
  }

  lemma {:induction false} FillsUp(s: Pool, cfg: Config, m: Pool, w: Actor) returns (n: Pool)
    requires Stage(s, cfg, m, {}, {}) && w in m.actors && w.Worker? && m.idle == [] && m.size < cfg.maxSize
    ensures Stage(s, cfg, n, {}, {}) && n.idle == [] && n.size == cfg.maxSize - 1
    decreases cfg.maxSize - m.size
  {
    n := m;
    if m.size < cfg.maxSize - 1 {
      n := MakesOne(s, cfg, m, w);
      n := FillsUp(s, cfg, n, w);
    }
  }

  /** One more getter finds nothing idle and passes the gate. */
  lemma PassesTheGate(s: Pool, cfg: Config, m: Pool, dialling: set<Actor>, w: Actor) returns (n: Pool)
    requires Stage(s, cfg, m, dialling, {}) && w in m.actors && w.Worker? && w !in dialling
    requires m.idle == [] && m.size < cfg.maxSize
    ensures Stage(s, cfg, n, dialling + {w}, {}) && n.idle == [] && n.size == m.size
  {
    assert m.actors[w := Rest] == m.actors;
    n := m;
    Goes(s, cfg, m, w, n, Rest, Working(w, Miss), AtGate);
    n := Do(n, cfg, Working(w, Miss));
    Goes(s, cfg, m, w, n, AtGate, Working(w, GateOpen), Dialling);
    n := Do(n, cfg, Working(w, GateOpen));
    Settles(s, cfg, m, w, n, Dialling, dialling, {}, dialling + {w}, {});
  }

  lemma {:induction false} AllPassTheGate(s: Pool, cfg: Config, m: Pool, dialling: set<Actor>) returns (n: Pool)
    requires Stage(s, cfg, m, dialling, {}) && m.idle == [] && m.size < cfg.maxSize && dialling <= WorkerSet(s.actors)
    ensures Stage(s, cfg, n, WorkerSet(s.actors), {}) && n.idle == [] && n.size == m.size
    decreases |WorkerSet(s.actors) - dialling|
  {
    n := m;
    if w :| w in WorkerSet(s.actors) && w !in dialling {
      n := PassesTheGate(s, cfg, m, dialling, w);
      assert WorkerSet(s.actors) - (dialling + {w}) == (WorkerSet(s.actors) - dialling) - {w};
      n := AllPassTheGate(s, cfg, n, dialling + {w});
    } else {
      assert dialling == WorkerSet(s.actors);
    }
  }

  /** Cleanup finds nothing to check. */
  lemma Sweeps(s: Pool, cfg: Config, m: Pool, dialling: set<Actor>) returns (n: Pool)
    requires Stage(s, cfg, m, dialling, {}) && Cleaner in m.actors && m.idle == [] && m.size < cfg.minSize
    ensures Alone(s, cfg, m, Cleaner, n, TopUp(cfg.minSize - m.size)) && n.idle == [] && n.size == m.size
  {
    assert Cleaner !in dialling + {};
    assert m.actors[Cleaner := Rest] == m.actors;
    n := m;
    Goes(s, cfg, m, Cleaner, n, Rest, Sweeping(Cleaner, SweepStart), Draining([]));
    n := Do(n, cfg, Sweeping(Cleaner, SweepStart));
    Goes(s, cfg, m, Cleaner, n, Draining([]), Sweeping(Cleaner, SweepSort), Sorting([]));
    n := Do(n, cfg, Sweeping(Cleaner, SweepSort));
    Goes(s, cfg, m, Cleaner, n, Sorting([]), Sweeping(Cleaner, SweepDone), TopUp(cfg.minSize - m.size));
    n := Do(n, cfg, Sweeping(Cleaner, SweepDone));
  }

  /** Cleanup adds the one connection missing to MinSize. */
  lemma TopsUp(s: Pool, cfg: Config, m: Pool, dialling: set<Actor>) returns (n: Pool)
    requires Stage(s, cfg, m, dialling, {}) && Validate(cfg) && Cleaner in m.actors
    requires m.idle == [] && m.size == cfg.minSize - 1
    ensures Stage(s, cfg, n, dialling, {}) && n.size == m.size + 1 && |n.idle| == 1
  {
    n := Sweeps(s, cfg, m, dialling);
    var c := n.unused;
    Goes(s, cfg, m, Cleaner, n, TopUp(1), ToppingUp(TopDial), TopMade(c, 1));
    n := Do(n, cfg, ToppingUp(TopDial));
    Goes(s, cfg, m, Cleaner, n, TopMade(c, 1), ToppingUp(TopSend), TopSent(c, 1));
    n := Do(n, cfg, ToppingUp(TopSend));
    Goes(s, cfg, m, Cleaner, n, TopSent(c, 1), ToppingUp(TopGrow), TopGrown(c, 1));
    n := Do(n, cfg, ToppingUp(TopGrow));
    Goes(s, cfg, m, Cleaner, n, TopGrown(c, 1), ToppingUp(TopTally), TopUp(0));
    n := Do(n, cfg, ToppingUp(TopTally));
    Goes(s, cfg, m, Cleaner, n, TopUp(0), ToppingUp(TopDone), Rest);
    n := Do(n, cfg, ToppingUp(TopDone));
    Settles(s, cfg, m, Cleaner, n, Rest, dialling, {}, dialling, {});
  }

  /** One of the getters behind the gate dials and is counted. */
  lemma GrowsOne(s: Pool, cfg: Config, m: Pool, dialling: set<Actor>, grown: set<Actor>, w: Actor) returns (n: Pool)
    requires Stage(s, cfg, m, dialling, grown) && w in m.actors && w in dialling
    ensures Stage(s, cfg, n, dialling - {w}, grown + {w}) && n.size == m.size + 1 && n.idle == m.idle
  {
    var c := m.unused;
    assert m.actors[w := Dialling] == m.actors;
    n := m;
    Goes(s, cfg, m, w, n, Dialling, Working(w, Dial), Made(c));
    n := Do(n, cfg, Working(w, Dial));
    Goes(s, cfg, m, w, n, Made(c), Working(w, Grow), Grown(c));
    n := Do(n, cfg, Working(w, Grow));
    Settles(s, cfg, m, w, n, Grown(c), dialling, grown, dialling - {w}, grown + {w});
  }

  lemma {:induction false} AllGrow(s: Pool, cfg: Config, m: Pool, dialling: set<Actor>, grown: set<Actor>)
    returns (n: Pool)
    requires Stage(s, cfg, m, dialling, grown) && dialling <= WorkerSet(s.actors)
    ensures Stage(s, cfg, n, {}, grown + dialling) && n.size == m.size + |dialling| && n.idle == m.idle
    decreases |dialling|
  {
    n := m;
    if dialling != {} {
      var w :| w in dialling;
      assert w in s.actors.Keys;
      n := GrowsOne(s, cfg, m, dialling, grown, w);
      n := AllGrow(s, cfg, n, dialling - {w}, grown + {w});
      assert grown + {w} + (dialling - {w}) == grown + dialling;
    } else {
      assert grown + dialling == grown;
    }
  }

  /** With a getter around, some run reaches the peak: empty the pool, lend all but one connection, let every getter
      pass the gate, let cleanup top up if it can, and let every getter finish. */
  lemma SomeRunReachesThePeak(s: Pool, cfg: Config) returns (t: Pool)
    requires Opened(s, cfg) && WorkerSet(s.actors) != {}
    ensures Stage(s, cfg, t, {}, {} + WorkerSet(s.actors)) && t.size == Peak(s, cfg) && |t.idle| <= 1
  {
    var w :| w in WorkerSet(s.actors);
    assert After(s, cfg, []) == Some(s);
    t := ThrowsAllAway(s, cfg, s, w);
    t := FillsUp(s, cfg, t, w);
    t := AllPassTheGate(s, cfg, t, {});
    if Cleaner in s.actors && cfg.minSize == cfg.maxSize {
      assert Cleaner in t.actors.Keys;
      t := TopsUp(s, cfg, t, WorkerSet(s.actors));
    }
    t := AllGrow(s, cfg, t, WorkerSet(s.actors), {});
  }

  // ---------------------------------------------------------------- exactly when MaxSize holds

  ghost predicate StaysWithinMaxSize(s: Pool, cfg: Config) {
    forall t :: Reaches(s, cfg, t) ==> t.size <= cfg.maxSize
  }

  lemma WithoutGetters(s: Pool, cfg: Config, t: Pool)
    requires Opened(s, cfg) && WorkerSet(s.actors) == {} && Reaches(s, cfg, t)
    ensures t.size <= cfg.maxSize
  {
    var steps :| After(s, cfg, steps) == Some(t);
    OvershootIsBounded(s, cfg, steps, t);
    SameActors(s, cfg, steps, t);
    WorkersAreCounted(t.actors);
    assert WorkerSet(t.actors) == {};
    SumOfNothing(t.actors);
    SumMonotone(t.actors, Nothing, Creating);
  }

  lemma {:induction false} SameActors(s: Pool, cfg: Config, steps: seq<Step>, t: Pool)
    requires After(s, cfg, steps) == Some(t)
    ensures t.actors.Keys == s.actors.Keys
    decreases |steps|
  {
    if steps != [] {
      var m, step := After(s, cfg, steps[..|steps| - 1]).value, steps[|steps| - 1];
      SameActors(s, cfg, steps[..|steps| - 1], m);
      StepKeepsActors(m, cfg, step);
    }
  }

  lemma StepKeepsActors(s: Pool, cfg: Config, step: Step)
    requires Can(s, cfg, step)
    ensures Do(s, cfg, step).actors.Keys == s.actors.Keys
  {
    match step {
      case Working(a, w) => WorkMatches(s, cfg, a, w);
      case Discarding(a, d) => DiscardMatches(s, a, d);
      case Sweeping(a, v) => SweepMatches(s, cfg, a, v);
      case ToppingUp(u) => TopUpMatches(s, cfg, u);
      case _ =>
    }
  }

  /** The greatest currentSize of any run is the peak. */
  lemma PeakIsTheMaximum(s: Pool, cfg: Config)
    requires Opened(s, cfg) && WorkerSet(s.actors) != {}
    ensures forall t :: Reaches(s, cfg, t) ==> t.size + Sum(t.actors, Creating) <= Peak(s, cfg)
    ensures forall t :: Reaches(s, cfg, t) ==> t.size <= Peak(s, cfg)
    ensures exists t :: Reaches(s, cfg, t) && t.size == Peak(s, cfg)
  {
    forall t | Reaches(s, cfg, t)
      ensures t.size + Sum(t.actors, Creating) <= Peak(s, cfg) && t.size <= Peak(s, cfg) {
      var steps :| After(s, cfg, steps) == Some(t);
      NoRunExceedsThePeak(s, cfg, steps, t);
      SumOfNothing(t.actors);
      SumMonotone(t.actors, Nothing, Creating);
    }
    var t := SomeRunReachesThePeak(s, cfg);
  }

  /** currentSize stays within MaxSize over every run exactly when there is no getter, or a single one that cleanup
      cannot get past: there is no cleanup, or MinSize is below MaxSize. */
  lemma WithinMaxSizeIff(s: Pool, cfg: Config)
    requires Opened(s, cfg)
    ensures StaysWithinMaxSize(s, cfg)
       <==> var workers := |WorkerSet(s.actors)|;
            workers == 0 || (workers == 1 && (Cleaner !in s.actors || cfg.minSize < cfg.maxSize))
  {
    if WorkerSet(s.actors) == {} {
      forall t | Reaches(s, cfg, t) ensures t.size <= cfg.maxSize { WithoutGetters(s, cfg, t); }
    } else {
      PeakIsTheMaximum(s, cfg);
    }
  }
}
