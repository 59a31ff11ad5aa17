/** The connection pool under concurrency: any number of goroutines calling Get and Put or only Put, the cleanup
    routine and the health-check routine, as atomic steps cut at the mutex, the idle channel and the atomic counters. */
module PoolSteps {
  import opened Wrappers

  type Conn = nat

  /** A goroutine that gets and puts, one that only puts, and the cleanup and health-check routines. */
  datatype Actor = Worker(n: nat) | Putter(n: nat) | Cleaner | Medic

  predicate IsSweeper(a: Actor) {
    a.Cleaner? || a.Medic?
  }

  /** Where an actor goes after it has discarded a connection. */
  datatype Next = ToGate | ToRest | ToSort(batch: seq<Conn>)

  datatype Phase =
    | Rest
    | Popped(conn: Conn)                      // Get: took an idle connection, health not yet checked
    | AtGate                                  // Get: about to compare currentSize with MaxSize
    | Waiting                                 // Get: pool full, waiting on the channel
    | Dialling                                // Get: passed the gate, connection not yet made
    | Made(conn: Conn)                        // Get: dialled, currentSize not yet raised
    | Grown(conn: Conn)                       // Get: currentSize raised, createCount not yet
    | Returning(conn: Conn)                   // Put: past the closed check
    | Retired(conn: Conn, next: Next)         // closed a connection, closeCount not yet raised
    | Tallied(conn: Conn, next: Next)         // closeCount raised, currentSize not yet lowered
    | Draining(batch: seq<Conn>)              // sweep: emptying the channel
    | Sorting(batch: seq<Conn>)               // sweep: checking what was drained
    | TopUp(left: nat)                        // cleanup: holds mu, connections left to create
    | TopMade(conn: Conn, left: nat)          // cleanup: dialled, not yet sent to the channel
    | TopSent(conn: Conn, left: nat)          // cleanup: sent, currentSize not yet raised
    | TopGrown(conn: Conn, left: nat)         // cleanup: raised, createCount not yet

  /** `holder` says which actor has a connection in its hands; `unused` is the next connection to be made. */
  datatype Pool = Pool(
    idle: seq<Conn>, lent: seq<Conn>, actors: map<Actor, Phase>, size: int, createCount: int, closeCount: int,
    closed: bool, unused: Conn, holder: map<Conn, Actor>)

  datatype Config = Config(minSize: int, maxSize: int)

  /** The size checks of DefaultPoolValidator. */
  predicate Validate(cfg: Config) {
    cfg.maxSize > 0 && cfg.minSize >= 0 && cfg.minSize <= cfg.maxSize
  }

  /** Get and Put. */
  datatype Work =
    | Take | Miss | Keep | GateOpen | GateFull | WaitTake | WaitOver | Dial | DialFails | Grow | Lend
    | PutStart(i: nat) | PutOffer

  /** Getting rid of a connection that is unhealthy, expired or does not fit. */
  datatype Discard = Reject | TallyClose | Shrink

  /** The drain-and-check loops of cleanup and healthCheck. */
  datatype Sweep = SweepStart | SweepTake | SweepSort | SweepKeep | SweepDone

  /** The part of cleanup that runs under mu. */
  datatype TopUpStep = TopDial | TopDialFails | TopSend | TopGrow | TopTally | TopDone

  datatype Step =
    | Working(a: Actor, work: Work)
    | Discarding(a: Actor, discard: Discard)
    | Sweeping(a: Actor, sweep: Sweep)
    | ToppingUp(top: TopUpStep)
    | PutAfterClose(i: nat)
    | Close

  function PhaseOf(s: Pool, a: Actor): Phase {
    if a in s.actors then s.actors[a] else Rest
  }

  /** The cleanup routine keeps mu for the whole top-up. */
  predicate MuFree(s: Pool) {
    var p := PhaseOf(s, Cleaner);
    !p.TopUp? && !p.TopMade? && !p.TopSent? && !p.TopGrown?
  }

  predicate AllAtRest(s: Pool) {
    forall a :: a in s.actors ==> s.actors[a].Rest?
  }

  predicate CanWork(s: Pool, cfg: Config, a: Actor, work: Work)
    requires a in s.actors
  {
    var p := s.actors[a];
    (a.Worker? || (a.Putter? && (work.PutStart? || work.PutOffer?))) &&
    match work
    case Take => p.Rest? && !s.closed && s.idle != []
    case Miss => p.Rest? && !s.closed && s.idle == []
    case Keep => p.Popped?
    case GateOpen => p.AtGate? && MuFree(s) && s.size < cfg.maxSize
    case GateFull => p.AtGate? && MuFree(s) && s.size >= cfg.maxSize
    case WaitTake => p.Waiting? && s.idle != []
    case WaitOver => p.Waiting?
    case Dial => p.Dialling?
    case DialFails => p.Dialling?
    case Grow => p.Made? && MuFree(s)
    case Lend => p.Grown?
    case PutStart(i) => p.Rest? && !s.closed && i < |s.lent|
    case PutOffer => p.Returning? && |s.idle| < cfg.maxSize
  }

  predicate CanDiscard(s: Pool, a: Actor, discard: Discard)
    requires a in s.actors
  {
    var p := s.actors[a];
    match discard
    case Reject => p.Popped? || p.Returning? || (p.Sorting? && p.batch != [])
    case TallyClose => p.Retired?
    case Shrink => p.Tallied? && MuFree(s)
  }

  predicate CanSweep(s: Pool, cfg: Config, a: Actor, sweep: Sweep)
    requires a in s.actors
  {
    var p := s.actors[a];
    IsSweeper(a) &&
    match sweep
    case SweepStart => p.Rest? && !s.closed
    case SweepTake => p.Draining? && s.idle != []
    case SweepSort => p.Draining? && s.idle == []
    case SweepKeep => p.Sorting? && p.batch != [] && |s.idle| < cfg.maxSize
    case SweepDone => p.Sorting? && p.batch == []
  }

  predicate CanTopUp(s: Pool, cfg: Config, top: TopUpStep)
    requires Cleaner in s.actors
  {
    var p := s.actors[Cleaner];
    match top
    case TopDial => p.TopUp? && p.left > 0
    case TopDialFails => p.TopUp? && p.left > 0
    case TopSend => p.TopMade? && |s.idle| < cfg.maxSize
    case TopGrow => p.TopSent?
    case TopTally => p.TopGrown? && p.left > 0
    case TopDone => p == TopUp(0)
  }

  predicate Can(s: Pool, cfg: Config, step: Step) {
    match step
    case Working(a, w) => a in s.actors && CanWork(s, cfg, a, w)
    case Discarding(a, d) => a in s.actors && CanDiscard(s, a, d)
    case Sweeping(a, v) => a in s.actors && CanSweep(s, cfg, a, v)
    case ToppingUp(u) => Cleaner in s.actors && CanTopUp(s, cfg, u)
    case PutAfterClose(i) => s.closed && i < |s.lent|
    case Close => !s.closed && AllAtRest(s)
  }

  function At(s: Pool, a: Actor, p: Phase): Pool {
    s.(actors := s.actors[a := p])
  }

  function Without<T>(s: seq<T>, i: nat): seq<T>
    requires i < |s|
  {
    s[..i] + s[i + 1..]
  }

  /** a receives the oldest idle connection. */
  function Pop(s: Pool, a: Actor, p: Phase): Pool
    requires s.idle != []
  {
    At(s, a, p).(idle := s.idle[1..], holder := s.holder[s.idle[0] := a])
  }

  /** a sends c to the idle channel. */
  function Push(s: Pool, a: Actor, p: Phase, c: Conn): Pool {
    At(s, a, p).(idle := s.idle + [c], holder := s.holder - {c})
  }

  /** a dials a new connection. */
  function New(s: Pool, a: Actor, p: Phase): Pool {
    At(s, a, p).(unused := s.unused + 1, holder := s.holder[s.unused := a])
  }

  function DoWork(s: Pool, cfg: Config, a: Actor, work: Work): Pool
    requires a in s.actors && CanWork(s, cfg, a, work)
  {
    match work
    case Take => Pop(s, a, Popped(s.idle[0]))
    case Miss => At(s, a, AtGate)
    case Keep => At(s, a, Rest).(lent := s.lent + [s.actors[a].conn], holder := s.holder - {s.actors[a].conn})
    case GateOpen => At(s, a, Dialling)
    case GateFull => At(s, a, Waiting)
    case WaitTake => Pop(s, a, Popped(s.idle[0]))
    case WaitOver => At(s, a, Rest)
    case Dial => New(s, a, Made(s.unused))
    case DialFails => At(s, a, Rest)
    case Grow => At(s, a, Grown(s.actors[a].conn)).(size := s.size + 1)
    case Lend =>
      At(s, a, Rest).(createCount := s.createCount + 1,
                      lent := s.lent + [s.actors[a].conn], holder := s.holder - {s.actors[a].conn})
    case PutStart(i) =>
      At(s, a, Returning(s.lent[i])).(lent := Without(s.lent, i), holder := s.holder[s.lent[i] := a])
    case PutOffer => Push(s, a, Rest, s.actors[a].conn)
  }

  function Onward(next: Next): Phase {
    match next
    case ToGate => AtGate
    case ToRest => Rest
    case ToSort(b) => Sorting(b)
  }

  function DoDiscard(s: Pool, a: Actor, discard: Discard): Pool
    requires a in s.actors && CanDiscard(s, a, discard)
  {
    var p := s.actors[a];
    match discard
    case Reject =>
      At(s, a, if p.Popped? then Retired(p.conn, ToGate)
               else if p.Returning? then Retired(p.conn, ToRest)
               else Retired(p.batch[0], ToSort(p.batch[1..])))
    case TallyClose =>
      At(s, a, Tallied(p.conn, p.next)).(closeCount := s.closeCount + 1)
    case Shrink =>
      At(s, a, Onward(p.next)).(size := s.size - 1, holder := s.holder - {p.conn})
  }

  function DoSweep(s: Pool, cfg: Config, a: Actor, sweep: Sweep): Pool
    requires a in s.actors && CanSweep(s, cfg, a, sweep)
  {
    var p := s.actors[a];
    match sweep
    case SweepStart => At(s, a, Draining([]))
    case SweepTake => Pop(s, a, Draining(p.batch + [s.idle[0]]))
    case SweepSort => At(s, a, Sorting(p.batch))
    case SweepKeep => Push(s, a, Sorting(p.batch[1..]), p.batch[0])
    case SweepDone => At(s, a, if a.Cleaner? && s.size < cfg.minSize then TopUp(cfg.minSize - s.size) else Rest)
  }

  function DoTopUp(s: Pool, cfg: Config, top: TopUpStep): Pool
    requires Cleaner in s.actors && CanTopUp(s, cfg, top)
  {
    var p := s.actors[Cleaner];
    match top
    case TopDial => New(s, Cleaner, TopMade(s.unused, p.left))
    case TopDialFails => At(s, Cleaner, Rest)
    case TopSend => Push(s, Cleaner, TopSent(p.conn, p.left), p.conn)
    case TopGrow => At(s, Cleaner, TopGrown(p.conn, p.left)).(size := s.size + 1)
    case TopTally => At(s, Cleaner, TopUp(p.left - 1)).(createCount := s.createCount + 1)
    case TopDone => At(s, Cleaner, Rest)
  }

  function Do(s: Pool, cfg: Config, step: Step): Pool
    requires Can(s, cfg, step)
  {
    match step
    case Working(a, w) => DoWork(s, cfg, a, w)
    case Discarding(a, d) => DoDiscard(s, a, d)
    case Sweeping(a, v) => DoSweep(s, cfg, a, v)
    case ToppingUp(u) => DoTopUp(s, cfg, u)
    case PutAfterClose(i) =>
      s.(lent := Without(s.lent, i), closeCount := s.closeCount + 1)
    case Close =>
      s.(closed := true, idle := [], closeCount := s.closeCount + |s.idle|)
  }

  // ---------------------------------------------------------------- exclusivity

  function Held(p: Phase): seq<Conn> {
    match p
    case Popped(c) => [c]
    case Made(c) => [c]
    case Grown(c) => [c]
    case Returning(c) => [c]
    case Retired(c, next) => [c] + (if next.ToSort? then next.batch else [])
    case Tallied(c, next) => [c] + (if next.ToSort? then next.batch else [])
    case Draining(b) => b
    case Sorting(b) => b
    case TopMade(c, _) => [c]
    case _ => []
  }

  predicate NoDup<T(==)>(s: seq<T>) {
    forall i, j :: 0 <= i < j < |s| ==> s[i] != s[j]
  }

  /** What is idle or lent is there once, and in nobody's hands. */
  ghost predicate Queues(idle: seq<Conn>, lent: seq<Conn>, held: set<Conn>, unused: Conn) {
    && NoDup(idle) && NoDup(lent)
    && (forall c :: c in idle ==> c !in lent && c !in held && c < unused)
    && (forall c :: c in lent ==> c !in held && c < unused)
  }

  function HandsOf(actors: map<Actor, Phase>): Actor -> seq<Conn> {
    a => if a in actors then Held(actors[a]) else []
  }

  /** `holder` says exactly whose hands each connection is in, once. */
  ghost predicate Hands(hands: Actor -> seq<Conn>, holder: map<Conn, Actor>, unused: Conn) {
    && (forall c :: c in holder ==> c < unused && c in hands(holder[c]))
    && (forall a :: NoDup(hands(a)))
    && (forall a, c :: c in hands(a) ==> c in holder && holder[c] == a)
  }

  /** Every connection is in one place: the idle channel, one borrower, or one actor's hands. */
  ghost predicate OnePlace(idle: seq<Conn>, lent: seq<Conn>, actors: map<Actor, Phase>, holder: map<Conn, Actor>,
                           unused: Conn) {
    Queues(idle, lent, holder.Keys, unused) && Hands(HandsOf(actors), holder, unused)
  }

  ghost predicate Exclusive(s: Pool) {
    OnePlace(s.idle, s.lent, s.actors, s.holder, s.unused)
  }

  lemma JoinApart(r: seq<Conn>, s: seq<Conn>)
    requires NoDup(r) && NoDup(s) && forall c :: c in r ==> c !in s
    ensures NoDup(r + s)
  {
    forall i, j | 0 <= i < j < |r + s| ensures (r + s)[i] != (r + s)[j] {
      if i < |r| <= j { assert r[i] in r; }
    }
  }

  /** Two states of everybody's hands that differ at most in a's. */
  ghost predicate OthersKeep(hands: Actor -> seq<Conn>, hands': Actor -> seq<Conn>, a: Actor) {
    forall b :: b != a ==> hands'(b) == hands(b)
  }

  lemma HandsPickUp(hands: Actor -> seq<Conn>, hands': Actor -> seq<Conn>, holder: map<Conn, Actor>, unused: Conn,
                    unused': Conn, a: Actor, c: Conn)
    requires Hands(hands, holder, unused) && OthersKeep(hands, hands', a) && hands'(a) == hands(a) + [c]
    requires c !in holder && c < unused' && unused <= unused'
    ensures Hands(hands', holder[c := a], unused')
  {
    JoinApart(hands(a), [c]);
  }

  /** An actor's hands receive c, which was idle or lent or does not exist yet. */
  lemma PickUp(idle: seq<Conn>, lent: seq<Conn>, actors: map<Actor, Phase>, holder: map<Conn, Actor>, unused: Conn,
               unused': Conn, a: Actor, p: Phase, c: Conn)
    requires OnePlace(idle, lent, actors, holder, unused)
    requires a in actors && Held(p) == Held(actors[a]) + [c]
    requires c !in idle && c !in lent && c !in holder && c < unused' && unused <= unused'
    ensures OnePlace(idle, lent, actors[a := p], holder[c := a], unused')
  {
    HandsPickUp(HandsOf(actors), HandsOf(actors[a := p]), holder, unused, unused', a, c);
  }

  lemma HeadIsApart(s: seq<Conn>, c: Conn, rest: seq<Conn>)
    requires NoDup(s) && s == [c] + rest
    ensures NoDup(rest) && c in s && c !in rest && forall d :: d in s ==> d == c || d in rest
  {
    assert forall i :: 0 <= i < |rest| ==> rest[i] == s[i + 1];
    assert s[0] == c;
  }

  lemma HandsPutDown(hands: Actor -> seq<Conn>, hands': Actor -> seq<Conn>, holder: map<Conn, Actor>, unused: Conn,
                     a: Actor, c: Conn)
    requires Hands(hands, holder, unused) && OthersKeep(hands, hands', a) && hands(a) == [c] + hands'(a)
    ensures c in holder && c < unused && Hands(hands', holder - {c}, unused)
  {
    HeadIsApart(hands(a), c, hands'(a));
  }

  /** An actor's hands lose c. */
  lemma PutDown(idle: seq<Conn>, lent: seq<Conn>, actors: map<Actor, Phase>, holder: map<Conn, Actor>, unused: Conn,
                a: Actor, p: Phase, c: Conn)
    requires OnePlace(idle, lent, actors, holder, unused)
    requires a in actors && Held(actors[a]) == [c] + Held(p)
    ensures c in holder && OnePlace(idle, lent, actors[a := p], holder - {c}, unused)
    ensures c !in idle && c !in lent && c < unused
  {
    HandsPutDown(HandsOf(actors), HandsOf(actors[a := p]), holder, unused, a, c);
  }

  lemma LeaveQueue(idle: seq<Conn>, i: nat)
    requires NoDup(idle) && i < |idle|
    ensures NoDup(Without(idle, i)) && idle[i] !in Without(idle, i)
    ensures forall c :: c in Without(idle, i) <==> c in idle && c != idle[i]
  {
  }

  lemma PickUpIdle(s: Pool, a: Actor, p: Phase)
    requires Exclusive(s) && s.idle != [] && a in s.actors && Held(p) == Held(s.actors[a]) + [s.idle[0]]
    ensures OnePlace(s.idle[1..], s.lent, s.actors[a := p], s.holder[s.idle[0] := a], s.unused)
  {
    LeaveQueue(s.idle, 0);
    assert Without(s.idle, 0) == s.idle[1..];
    PickUp(s.idle[1..], s.lent, s.actors, s.holder, s.unused, s.unused, a, p, s.idle[0]);
  }

  /** A connection nobody has joins the idle channel, or is lent. */
  lemma JoinQueue(idle: seq<Conn>, lent: seq<Conn>, actors: map<Actor, Phase>, holder: map<Conn, Actor>, unused: Conn,
                  c: Conn)
    requires OnePlace(idle, lent, actors, holder, unused)
    requires c !in idle && c !in lent && c !in holder && c < unused
    ensures OnePlace(idle + [c], lent, actors, holder, unused) && OnePlace(idle, lent + [c], actors, holder, unused)
  {
    JoinApart(idle, [c]);
    JoinApart(lent, [c]);
  }

  lemma PutDownIdle(s: Pool, a: Actor, p: Phase, c: Conn)
    requires Exclusive(s) && a in s.actors && Held(s.actors[a]) == [c] + Held(p)
    ensures OnePlace(s.idle + [c], s.lent, s.actors[a := p], s.holder - {c}, s.unused)
  {
    PutDown(s.idle, s.lent, s.actors, s.holder, s.unused, a, p, c);
    JoinQueue(s.idle, s.lent, s.actors[a := p], s.holder - {c}, s.unused, c);
  }

  lemma PutDownLent(s: Pool, a: Actor, p: Phase, c: Conn)
    requires Exclusive(s) && a in s.actors && Held(s.actors[a]) == [c] + Held(p)
    ensures OnePlace(s.idle, s.lent + [c], s.actors[a := p], s.holder - {c}, s.unused)
  {
    PutDown(s.idle, s.lent, s.actors, s.holder, s.unused, a, p, c);
    JoinQueue(s.idle, s.lent, s.actors[a := p], s.holder - {c}, s.unused, c);
  }

  lemma HandsSame(hands: Actor -> seq<Conn>, hands': Actor -> seq<Conn>, holder: map<Conn, Actor>, unused: Conn)
    requires Hands(hands, holder, unused) && forall b :: hands'(b) == hands(b)
    ensures Hands(hands', holder, unused)
  {
  }

  /** A step that changes what an actor is doing but not what it holds. */
  lemma SameHands(s: Pool, a: Actor, p: Phase)
    requires Exclusive(s) && a in s.actors && Held(p) == Held(s.actors[a])
    ensures OnePlace(s.idle, s.lent, s.actors[a := p], s.holder, s.unused)
  {
    HandsSame(HandsOf(s.actors), HandsOf(s.actors[a := p]), s.holder, s.unused);
  }

  lemma WorkKeepsExclusive(s: Pool, cfg: Config, a: Actor, work: Work)
    requires Exclusive(s) && a in s.actors && CanWork(s, cfg, a, work)
    ensures Exclusive(DoWork(s, cfg, a, work))
  {
    match work {
      case Take => PickUpIdle(s, a, Popped(s.idle[0]));
      case WaitTake => PickUpIdle(s, a, Popped(s.idle[0]));
      case Keep => PutDownLent(s, a, Rest, s.actors[a].conn);
      case Lend => PutDownLent(s, a, Rest, s.actors[a].conn);
      case PutOffer => PutDownIdle(s, a, Rest, s.actors[a].conn);
      case Dial => PickUp(s.idle, s.lent, s.actors, s.holder, s.unused, s.unused + 1, a, Made(s.unused), s.unused);
      case PutStart(i) =>
        LeaveQueue(s.lent, i);
        var c := s.lent[i];
        PickUp(s.idle, Without(s.lent, i), s.actors, s.holder, s.unused, s.unused, a, Returning(c), c);
      case _ => SameHands(s, a, DoWork(s, cfg, a, work).actors[a]);
    }
  }

  lemma DiscardKeepsExclusive(s: Pool, a: Actor, discard: Discard)
    requires Exclusive(s) && a in s.actors && CanDiscard(s, a, discard)
    ensures Exclusive(DoDiscard(s, a, discard))
  {
    if discard.Shrink? {
      PutDown(s.idle, s.lent, s.actors, s.holder, s.unused, a, Onward(s.actors[a].next), s.actors[a].conn);
    } else {
      SameHands(s, a, DoDiscard(s, a, discard).actors[a]);
    }
  }

  lemma SweepKeepsExclusive(s: Pool, cfg: Config, a: Actor, sweep: Sweep)
    requires Exclusive(s) && a in s.actors && CanSweep(s, cfg, a, sweep)
    ensures Exclusive(DoSweep(s, cfg, a, sweep))
  {
    match sweep {
      case SweepTake => PickUpIdle(s, a, Draining(s.actors[a].batch + [s.idle[0]]));
      case SweepKeep => PutDownIdle(s, a, Sorting(s.actors[a].batch[1..]), s.actors[a].batch[0]);
      case _ => SameHands(s, a, DoSweep(s, cfg, a, sweep).actors[a]);
    }
  }

  lemma TopUpKeepsExclusive(s: Pool, cfg: Config, top: TopUpStep)
    requires Exclusive(s) && Cleaner in s.actors && CanTopUp(s, cfg, top)
    ensures Exclusive(DoTopUp(s, cfg, top))
  {
    var p := s.actors[Cleaner];
    match top {
      case TopSend => PutDownIdle(s, Cleaner, TopSent(p.conn, p.left), p.conn);
      case TopDial =>
        var c := s.unused;
        PickUp(s.idle, s.lent, s.actors, s.holder, c, c + 1, Cleaner, TopMade(c, p.left), c);
      case _ => SameHands(s, Cleaner, DoTopUp(s, cfg, top).actors[Cleaner]);
    }
  }

  lemma StepKeepsExclusive(s: Pool, cfg: Config, step: Step)
    requires Exclusive(s) && Can(s, cfg, step)
    ensures Exclusive(Do(s, cfg, step))
  {
    match step {
      case Working(a, w) => WorkKeepsExclusive(s, cfg, a, w);
      case Discarding(a, d) => DiscardKeepsExclusive(s, a, d);
      case Sweeping(a, v) => SweepKeepsExclusive(s, cfg, a, v);
      case ToppingUp(u) => TopUpKeepsExclusive(s, cfg, u);
      case PutAfterClose(i) => LeaveQueue(s.lent, i);
      case Close =>
    }
  }

  // ---------------------------------------------------------------- accounting

  /** What one actor contributes to a total. */
  datatype Total =
    | Sized       // connections in its hands that currentSize counts; a top-up send owes one
    | Open        // connections in its hands that createCount - closeCount counts
    | Creating    // connections being created behind the gate, not yet in currentSize
    | Workers     // goroutines that may call Get
    | Nothing

  function Share(total: Total, a: Actor, p: Phase): int {
    match total
    case Sized => if p.Made? || p.TopMade? then 0 else if p.TopSent? then -1 else |Held(p)|
    case Open =>
      if p.Made? || p.TopMade? || p.Grown? then 0
      else if p.TopSent? || p.TopGrown? then -1
      else if p.Tallied? then |Held(p)| - 1
      else |Held(p)|
    case Creating => if p.Dialling? || p.Made? then 1 else 0
    case Workers => if a.Worker? then 1 else 0
    case Nothing => 0
  }

  ghost function Sum(actors: map<Actor, Phase>, total: Total): int
    decreases |actors|
  {
    if actors == map[] then 0
    else
      var a :| a in actors;
      Share(total, a, actors[a]) + Sum(actors - {a}, total)
  }

  lemma {:induction false} SumSplit(actors: map<Actor, Phase>, total: Total, a: Actor)
    requires a in actors
    ensures Sum(actors, total) == Share(total, a, actors[a]) + Sum(actors - {a}, total)
    decreases |actors|
  {
    var b :| b in actors && Sum(actors, total) == Share(total, b, actors[b]) + Sum(actors - {b}, total);
    if a != b {
      SumSplit(actors - {b}, total, a);
      SumSplit(actors - {a}, total, b);
      assert actors - {b} - {a} == actors - {a} - {b};
    }
  }

  /** Only the acting actor's own share changes. */
  lemma SumUpdate(actors: map<Actor, Phase>, total: Total, a: Actor, p: Phase)
    requires a in actors
    ensures Sum(actors[a := p], total) == Sum(actors, total) - Share(total, a, actors[a]) + Share(total, a, p)
  {
    SumSplit(actors, total, a);
    SumSplit(actors[a := p], total, a);
    assert actors[a := p] - {a} == actors - {a};
  }

  lemma {:induction false} SumMonotone(actors: map<Actor, Phase>, v: Total, w: Total)
    requires forall a :: a in actors ==> Share(v, a, actors[a]) <= Share(w, a, actors[a])
    ensures Sum(actors, v) <= Sum(actors, w)
    decreases |actors|
  {
    if actors != map[] {
      var a :| a in actors;
      SumSplit(actors, v, a);
      SumSplit(actors, w, a);
      SumMonotone(actors - {a}, v, w);
    }
  }

  lemma {:induction false} SumOfNothing(actors: map<Actor, Phase>)
    ensures Sum(actors, Nothing) == 0
    decreases |actors|
  {
    if actors != map[] {
      var a :| a in actors;
      SumSplit(actors, Nothing, a);
      SumOfNothing(actors - {a});
    }
  }

  predicate InTopUp(p: Phase) {
    p.TopUp? || p.TopMade? || p.TopSent? || p.TopGrown?
  }

  /** The top-up keeps a fixed target of minSize: currentSize and what is left to create always add up to it. */
  predicate TopUpFits(s: Pool, cfg: Config) {
    var p := PhaseOf(s, Cleaner);
    && (p.TopUp? ==> s.size + p.left == cfg.minSize)
    && (p.TopMade? || p.TopSent? ==> p.left > 0 && s.size + p.left == cfg.minSize)
    && (p.TopGrown? ==> p.left > 0 && s.size + p.left - 1 == cfg.minSize)
  }

  /** Who may do what: only cleanup tops up, only workers create behind the gate, nobody works on a closed pool; and
      nobody puts more into the channel than it holds. */
  ghost predicate Roles(s: Pool, cfg: Config) {
    && (forall a :: a in s.actors && InTopUp(s.actors[a]) ==> a == Cleaner)
    && (forall a :: a in s.actors && Share(Creating, a, s.actors[a]) == 1 ==> a.Worker?)
    && (s.closed ==> AllAtRest(s))
    && TopUpFits(s, cfg) && |s.idle| <= cfg.maxSize
  }

  ghost predicate Balanced(s: Pool) {
    && (!s.closed ==> s.size == |s.idle| + |s.lent| + Sum(s.actors, Sized))
    && s.createCount - s.closeCount == |s.idle| + |s.lent| + Sum(s.actors, Open)
  }

  ghost predicate Bounded(s: Pool, cfg: Config) {
    s.size + Sum(s.actors, Creating) <= cfg.maxSize + Sum(s.actors, Workers)
  }

  lemma WorkKeepsRoles(s: Pool, cfg: Config, a: Actor, work: Work)
    requires Roles(s, cfg) && a in s.actors && CanWork(s, cfg, a, work)
    ensures Roles(DoWork(s, cfg, a, work), cfg)
  {
  }

  lemma DiscardKeepsRoles(s: Pool, cfg: Config, a: Actor, discard: Discard)
    requires Roles(s, cfg) && a in s.actors && CanDiscard(s, a, discard)
    ensures Roles(DoDiscard(s, a, discard), cfg)
  {
  }

  lemma SweepKeepsRoles(s: Pool, cfg: Config, a: Actor, sweep: Sweep)
    requires Roles(s, cfg) && a in s.actors && CanSweep(s, cfg, a, sweep)
    ensures Roles(DoSweep(s, cfg, a, sweep), cfg)
  {
  }

  lemma TopUpKeepsRoles(s: Pool, cfg: Config, top: TopUpStep)
    requires Roles(s, cfg) && Cleaner in s.actors && CanTopUp(s, cfg, top)
    ensures Roles(DoTopUp(s, cfg, top), cfg)
  {
  }

  lemma StepKeepsRoles(s: Pool, cfg: Config, step: Step)
    requires Roles(s, cfg) && Can(s, cfg, step)
    ensures Roles(Do(s, cfg, step), cfg)
  {
    match step {
      case Working(a, w) => WorkKeepsRoles(s, cfg, a, w);
      case Discarding(a, d) => DiscardKeepsRoles(s, cfg, a, d);
      case Sweeping(a, v) => SweepKeepsRoles(s, cfg, a, v);
      case ToppingUp(u) => TopUpKeepsRoles(s, cfg, u);
      case PutAfterClose(i) =>
      case Close =>
    }
  }

  /** The actor whose phase a step changes. */
  function Subject(step: Step): Actor {
    match step
    case Working(a, _) => a
    case Discarding(a, _) => a
    case Sweeping(a, _) => a
    case _ => Cleaner
  }

  /** t differs from s in one actor's phase, and its shares shift exactly as the counters and queues do. */
  predicate Matches(s: Pool, a: Actor, t: Pool) {
    && a in s.actors && a in t.actors && t.actors == s.actors[a := t.actors[a]] && t.closed == s.closed
    && t.size - |t.idle| - |t.lent| - Share(Sized, a, t.actors[a])
       == s.size - |s.idle| - |s.lent| - Share(Sized, a, s.actors[a])
    && t.createCount - t.closeCount - |t.idle| - |t.lent| - Share(Open, a, t.actors[a])
       == s.createCount - s.closeCount - |s.idle| - |s.lent| - Share(Open, a, s.actors[a])
  }

  lemma WorkMatches(s: Pool, cfg: Config, a: Actor, work: Work)
    requires a in s.actors && CanWork(s, cfg, a, work)
    ensures Matches(s, a, DoWork(s, cfg, a, work))
  {
  }

  lemma DiscardMatches(s: Pool, a: Actor, discard: Discard)
    requires a in s.actors && CanDiscard(s, a, discard)
    ensures Matches(s, a, DoDiscard(s, a, discard))
  {
  }

  lemma SweepMatches(s: Pool, cfg: Config, a: Actor, sweep: Sweep)
    requires a in s.actors && CanSweep(s, cfg, a, sweep)
    ensures Matches(s, a, DoSweep(s, cfg, a, sweep))
  {
  }

  lemma TopUpMatches(s: Pool, cfg: Config, top: TopUpStep)
    requires Cleaner in s.actors && CanTopUp(s, cfg, top)
    ensures Matches(s, Cleaner, DoTopUp(s, cfg, top))
  {
  }

  lemma MatchKeepsBalance(s: Pool, a: Actor, t: Pool)
    requires Balanced(s) && Matches(s, a, t)
    ensures Balanced(t)
  {
    SumUpdate(s.actors, Sized, a, t.actors[a]);
    SumUpdate(s.actors, Open, a, t.actors[a]);
  }

  lemma StepKeepsBalance(s: Pool, cfg: Config, step: Step)
    requires Roles(s, cfg) && Balanced(s) && Can(s, cfg, step)
    ensures Balanced(Do(s, cfg, step))
  {
    match step {
      case Working(a, w) => WorkMatches(s, cfg, a, w); MatchKeepsBalance(s, a, DoWork(s, cfg, a, w));
      case Discarding(a, d) => DiscardMatches(s, a, d); MatchKeepsBalance(s, a, DoDiscard(s, a, d));
      case Sweeping(a, v) => SweepMatches(s, cfg, a, v); MatchKeepsBalance(s, a, DoSweep(s, cfg, a, v));
      case ToppingUp(u) => TopUpMatches(s, cfg, u); MatchKeepsBalance(s, Cleaner, DoTopUp(s, cfg, u));
      case PutAfterClose(i) =>
      case Close =>
    }
  }

  /** t differs from s in one actor's phase; either the size with what that actor is creating does not grow, or it
      grows while it is within maxSize. */
  predicate Restrained(s: Pool, cfg: Config, a: Actor, t: Pool) {
    && a in s.actors && a in t.actors && t.actors == s.actors[a := t.actors[a]]
    && (|| t.size + Share(Creating, a, t.actors[a]) <= s.size + Share(Creating, a, s.actors[a])
        || (t.size + Share(Creating, a, t.actors[a]) <= cfg.maxSize && !t.actors[a].Rest?))
  }

  lemma WorkIsRestrained(s: Pool, cfg: Config, a: Actor, work: Work)
    requires a in s.actors && CanWork(s, cfg, a, work)
    ensures Restrained(s, cfg, a, DoWork(s, cfg, a, work))
  {
  }

  lemma StepIsRestrained(s: Pool, cfg: Config, step: Step)
    requires Roles(s, cfg) && Validate(cfg) && Can(s, cfg, step) && !step.PutAfterClose? && !step.Close?
    ensures Restrained(s, cfg, Subject(step), Do(s, cfg, step))
  {
    if step.Working? { WorkIsRestrained(s, cfg, step.a, step.work); }
  }

  lemma RestrainedKeepsBound(s: Pool, cfg: Config, a: Actor, t: Pool)
    requires Bounded(s, cfg) && Restrained(s, cfg, a, t) && Roles(t, cfg)
    ensures Bounded(t, cfg)
  {
    SumUpdate(s.actors, Creating, a, t.actors[a]);
    SumUpdate(s.actors, Workers, a, t.actors[a]);
    SumMonotone(t.actors, Creating, Workers);
  }

  lemma StepKeepsBound(s: Pool, cfg: Config, step: Step)
    requires Roles(s, cfg) && Bounded(s, cfg) && Validate(cfg) && Can(s, cfg, step)
    ensures Bounded(Do(s, cfg, step), cfg)
  {
    if !step.PutAfterClose? && !step.Close? {
      StepKeepsRoles(s, cfg, step);
      StepIsRestrained(s, cfg, step);
      RestrainedKeepsBound(s, cfg, Subject(step), Do(s, cfg, step));
    }
  }

  // ---------------------------------------------------------------- runs

  /** The state NewConnectionPool leaves behind: some connections pre-created, no more than minSize. */
  ghost predicate Opened(s: Pool, cfg: Config) {
    && Validate(cfg) && !s.closed && s.lent == [] && s.holder == map[] && AllAtRest(s)
    && |s.idle| <= cfg.minSize && s.size == s.createCount == |s.idle| && s.closeCount == 0
    && s.unused == |s.idle| && (forall i :: 0 <= i < |s.idle| ==> s.idle[i] == i)
  }

  function After(s: Pool, cfg: Config, steps: seq<Step>): (r: Option<Pool>)
    decreases |steps|
  {
    if steps == [] then Some(s)
    else
      match After(s, cfg, steps[..|steps| - 1])
      case None => None
      case Some(m) => if Can(m, cfg, steps[|steps| - 1]) then Some(Do(m, cfg, steps[|steps| - 1])) else None
  }

  ghost predicate Inv(s: Pool, cfg: Config) {
    Validate(cfg) && Exclusive(s) && Roles(s, cfg) && Balanced(s) && Bounded(s, cfg)
  }

  /** With everybody at rest nothing is in anyone's hands and every sum is zero. */
  lemma RestingSums(s: Pool)
    requires AllAtRest(s)
    ensures Sum(s.actors, Sized) == Sum(s.actors, Open) == Sum(s.actors, Creating) == 0
    ensures Sum(s.actors, Workers) >= 0
  {
    SumOfNothing(s.actors);
    SumMonotone(s.actors, Sized, Nothing);
    SumMonotone(s.actors, Nothing, Sized);
    SumMonotone(s.actors, Open, Nothing);
    SumMonotone(s.actors, Nothing, Open);
    SumMonotone(s.actors, Creating, Nothing);
    SumMonotone(s.actors, Nothing, Creating);
    SumMonotone(s.actors, Nothing, Workers);
  }

  lemma OpenedIsSound(s: Pool, cfg: Config)
    requires Opened(s, cfg)
    ensures Inv(s, cfg)
  {
    RestingSums(s);
  }

  lemma {:induction false} ReachableIsSound(s: Pool, cfg: Config, steps: seq<Step>, t: Pool)
    requires Inv(s, cfg) && After(s, cfg, steps) == Some(t)
    ensures Inv(t, cfg)
    decreases |steps|
  {
    if steps != [] {
      var m := After(s, cfg, steps[..|steps| - 1]).value;
      ReachableIsSound(s, cfg, steps[..|steps| - 1], m);
      StepKeepsExclusive(m, cfg, steps[|steps| - 1]);
      StepKeepsRoles(m, cfg, steps[|steps| - 1]);
      StepKeepsBalance(m, cfg, steps[|steps| - 1]);
      StepKeepsBound(m, cfg, steps[|steps| - 1]);
    }
  }

  // ---------------------------------------------------------------- main results

  /** Conservation: whenever no operation is in progress, created minus closed is what is idle plus what is
      lent, before and after Close, and while the pool is open that is also currentSize. */
  lemma PoolConserves(s: Pool, cfg: Config, steps: seq<Step>, t: Pool)
    requires Opened(s, cfg) && After(s, cfg, steps) == Some(t) && AllAtRest(t)
    ensures t.createCount - t.closeCount == |t.idle| + |t.lent|
    ensures !t.closed ==> t.size == |t.idle| + |t.lent|
  {
    OpenedIsSound(s, cfg);
    ReachableIsSound(s, cfg, steps, t);
    RestingSums(t);
  }

  /** Exclusivity: at every moment of every run no connection is in two places. */
  lemma NoConnectionIsShared(s: Pool, cfg: Config, steps: seq<Step>, t: Pool)
    requires Opened(s, cfg) && After(s, cfg, steps) == Some(t)
    ensures NoDup(t.idle + t.lent)
    ensures forall a, c :: a in t.actors && c in Held(t.actors[a]) ==> c !in t.idle && c !in t.lent
    ensures forall a, b, c ::
      a in t.actors && b in t.actors && c in Held(t.actors[a]) && c in Held(t.actors[b]) ==> a == b
  {
    assert Exclusive(t) by {
      OpenedIsSound(s, cfg);
      ReachableIsSound(s, cfg, steps, t);
    }
    JoinApart(t.idle, t.lent);
    assert forall a :: a in t.actors ==> HandsOf(t.actors)(a) == Held(t.actors[a]);
    forall a, b, c | a in t.actors && b in t.actors && c in Held(t.actors[a]) && c in Held(t.actors[b])
      ensures a == b {
      assert t.holder[c] == a;
    }
  }

  /** Overshoot: currentSize plus creations in progress exceeds maxSize by at most the number of workers. */
  lemma OvershootIsBounded(s: Pool, cfg: Config, steps: seq<Step>, t: Pool)
    requires Opened(s, cfg) && After(s, cfg, steps) == Some(t)
    ensures t.size + Sum(t.actors, Creating) <= cfg.maxSize + Sum(t.actors, Workers)
  {
    OpenedIsSound(s, cfg);
    ReachableIsSound(s, cfg, steps, t);
  }

  lemma TopUpHasRoom(s: Pool, cfg: Config)
    requires Inv(s, cfg) && PhaseOf(s, Cleaner).TopMade?
    ensures |s.idle| < cfg.minSize
  {
    SumOfNothing(s.actors);
    SumMonotone(s.actors, Nothing, Sized);
  }

  /** The send cleanup makes while it holds mu always finds room in the channel. */
  lemma TopUpNeverBlocks(s: Pool, cfg: Config, steps: seq<Step>, t: Pool)
    requires Opened(s, cfg) && After(s, cfg, steps) == Some(t) && PhaseOf(t, Cleaner).TopMade?
    ensures Can(t, cfg, ToppingUp(TopSend))
  {
    OpenedIsSound(s, cfg);
    ReachableIsSound(s, cfg, steps, t);
    TopUpHasRoom(t, cfg);
  }

  /** While cleanup tops up, nobody else changes currentSize or is let through the gate. */
  lemma TopUpIsExclusive(s: Pool, cfg: Config, step: Step)
    requires Can(s, cfg, step) && !MuFree(s) && !step.ToppingUp?
    ensures Do(s, cfg, step).size == s.size
    ensures forall a :: a in s.actors && s.actors[a].AtGate? ==> Do(s, cfg, step).actors[a].AtGate?
  {
  }

  /** In every reachable state the channel holds at most maxSize connections, and a top-up that has nothing left to
      create has brought currentSize to exactly minSize. */
  lemma ChannelAndTopUp(s: Pool, cfg: Config, steps: seq<Step>, t: Pool)
    requires Opened(s, cfg) && After(s, cfg, steps) == Some(t)
    ensures |t.idle| <= cfg.maxSize
    ensures PhaseOf(t, Cleaner) == TopUp(0) ==> t.size == cfg.minSize
  {
    OpenedIsSound(s, cfg);
    ReachableIsSound(s, cfg, steps, t);
  }

  // ---------------------------------------------------------------- one operation at a time

  ghost predicate OneAtATime(s: Pool) {
    forall a, b :: a in s.actors && b in s.actors && !s.actors[a].Rest? && !s.actors[b].Rest? ==> a == b
  }

  /** At every point of the run at most one operation is in progress. */
  ghost predicate Serial(s: Pool, cfg: Config, steps: seq<Step>)
    decreases |steps|
  {
    && After(s, cfg, steps).Some? && OneAtATime(After(s, cfg, steps).value)
    && (steps == [] || Serial(s, cfg, steps[..|steps| - 1]))
  }

  lemma OnlyOneShare(s: Pool, a: Actor)
    requires OneAtATime(s) && a in s.actors && !s.actors[a].Rest?
    ensures Sum(s.actors, Creating) == Share(Creating, a, s.actors[a])
  {
    SumSplit(s.actors, Creating, a);
    SumOfNothing(s.actors - {a});
    SumMonotone(s.actors - {a}, Creating, Nothing);
    SumMonotone(s.actors - {a}, Nothing, Creating);
  }

  lemma SerialRestraint(s: Pool, cfg: Config, a: Actor, t: Pool)
    requires s.size + Sum(s.actors, Creating) <= cfg.maxSize && Restrained(s, cfg, a, t) && OneAtATime(t)
    ensures t.size + Sum(t.actors, Creating) <= cfg.maxSize
  {
    SumUpdate(s.actors, Creating, a, t.actors[a]);
    if !t.actors[a].Rest? { OnlyOneShare(t, a); }
  }

  lemma SerialStep(s: Pool, cfg: Config, step: Step)
    requires Roles(s, cfg) && Validate(cfg) && Can(s, cfg, step) && OneAtATime(Do(s, cfg, step))
    requires s.size + Sum(s.actors, Creating) <= cfg.maxSize
    ensures Do(s, cfg, step).size + Sum(Do(s, cfg, step).actors, Creating) <= cfg.maxSize
  {
    if !step.PutAfterClose? && !step.Close? {
      StepIsRestrained(s, cfg, step);
      SerialRestraint(s, cfg, Subject(step), Do(s, cfg, step));
    }
  }

  /** When operations do not overlap, currentSize never exceeds maxSize. */
  lemma {:induction false} SerialNeverOvershoots(s: Pool, cfg: Config, steps: seq<Step>, t: Pool)
    requires Opened(s, cfg) && Serial(s, cfg, steps) && After(s, cfg, steps) == Some(t)
    ensures t.size + Sum(t.actors, Creating) <= cfg.maxSize
    decreases |steps|
  {
    OpenedIsSound(s, cfg);
    if steps == [] {
      RestingSums(s);
    } else {
      var m := After(s, cfg, steps[..|steps| - 1]).value;
      SerialNeverOvershoots(s, cfg, steps[..|steps| - 1], m);
      ReachableIsSound(s, cfg, steps[..|steps| - 1], m);
      SerialStep(m, cfg, steps[|steps| - 1]);
    }
  }

  // ---------------------------------------------------------------- what a run can reach

  lemma AfterOneMore(s: Pool, cfg: Config, steps: seq<Step>, m: Pool, step: Step)
    requires After(s, cfg, steps) == Some(m) && Can(m, cfg, step)
    ensures After(s, cfg, steps + [step]) == Some(Do(m, cfg, step))
  {
    assert (steps + [step])[..|steps + [step]| - 1] == steps;
  }

  ghost predicate Reaches(s: Pool, cfg: Config, t: Pool) {
    exists steps :: After(s, cfg, steps) == Some(t)
  }

  lemma StepsTo(s: Pool, cfg: Config, m: Pool, step: Step)
    requires Reaches(s, cfg, m) && Can(m, cfg, step)
    ensures Reaches(s, cfg, Do(m, cfg, step))
  {
    var steps :| After(s, cfg, steps) == Some(m);
    AfterOneMore(s, cfg, steps, m, step);
  }
}
