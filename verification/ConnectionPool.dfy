/** The connection pool as its methods run one at a time: FIFO channel, counters, drain-and-refill loops. Every method
    is a run of the concurrent pool, so what holds of all runs holds of it. */
module ConnectionPool {
  import opened PoolRuns
  import opened PoolSteps
  import opened Wrappers

  /** The connections of s that pass, in order. */
  function Kept(s: seq<Conn>, passes: Conn -> bool): (r: seq<Conn>)
    ensures |r| <= |s|
  {
    if s == [] then []
    else Kept(s[..|s| - 1], passes) + (if passes(s[|s| - 1]) then [s[|s| - 1]] else [])
  }

  lemma {:induction false} KeptIsPart(s: seq<Conn>, passes: Conn -> bool)
    ensures forall c :: c in Kept(s, passes) <==> c in s && passes(c)
    ensures NoDup(s) ==> NoDup(Kept(s, passes))
  {
    if s != [] {
      var front, last := s[..|s| - 1], s[|s| - 1];
      KeptIsPart(front, passes);
      assert s == front + [last];
      assert NoDup(s) ==> last !in front && NoDup(front);
    }
  }

  /** n connections, numbered on from the first. */
  function Numbered(first: Conn, n: nat): (s: seq<Conn>)
    ensures |s| == n
  {
    seq(n, k requires 0 <= k => first + k)
  }

  function Fewer(a: nat, b: nat): nat {
    if a < b then a else b
  }

  /** How many connections are missing to minSize. */
  function Missing(cfg: Config, size: int): nat {
    if size < cfg.minSize then cfg.minSize - size else 0
  }

  lemma NumberedOneMore(idle: seq<Conn>, first: Conn, n: nat)
    ensures idle + Numbered(first, n) + [first + n] == idle + Numbered(first, n + 1)
  {
  }

  class BoundedPool {
    const cfg: Config
    var idle: seq<Conn>         // the channel
    var lent: seq<Conn>         // what callers have not put back
    var currentSize: int
    var closed: bool
    var createCount: int
    var closeCount: int
    var unused: Conn            // names the next connection the factory makes

    /** The accounts balance, no connection is in two places, and the concurrent model reaches this state. */
    ghost predicate Valid()
      reads this
    {
      && Validate(cfg) && NoDup(idle + lent)
      && createCount - closeCount == |idle| + |lent|
      && (!closed ==> currentSize == |idle| + |lent|)
      && currentSize <= cfg.maxSize
      && (closed ==> idle == [])
      && Reachable(Value(), cfg)
    }

    /** The pool as the concurrent model sees it, with `a` inside an operation. */
    ghost function Snapshot(a: Actor, p: Phase, held: seq<Conn>): Pool
      reads this
    {
      Pool(idle, lent, CREW[a := p], currentSize, createCount, closeCount, closed, unused, HeldBy(held, a))
    }

    /** The same, with nobody inside an operation. */
    ghost function Value(): Pool
      reads this
    {
      Snapshot(GETTER, Rest, [])
    }

    /** The acting actor stands at phase p of a run from `start`, with these connections in its hands. */
    ghost predicate Stands(start: Pool, a: Actor, p: Phase, held: seq<Conn>)
      reads this
    {
      a in CREW && Reachable(start, cfg) && Reaches(start, cfg, Snapshot(a, p, held)) && currentSize <= cfg.maxSize
    }

    /** What the run says about the accounts. */
    lemma Balances(start: Pool, a: Actor, p: Phase, held: seq<Conn>)
      requires Stands(start, a, p, held)
      ensures Reachable(Snapshot(a, p, held), cfg) && Validate(cfg) && NoDup(idle + lent) && NoDup(Held(p))
      ensures !closed ==> currentSize == |idle| + |lent| + Share(Sized, a, p)
      ensures createCount - closeCount == |idle| + |lent| + Share(Open, a, p)
    {
      StaysReachable(start, cfg, Snapshot(a, p, held));
      Accounts(Snapshot(a, p, held), cfg, a, p, held);
    }

    lemma HoldsOnce(start: Pool, a: Actor, p: Phase, conn: Conn, rest: seq<Conn>, next: Next)
      requires Stands(start, a, p, [conn] + rest) && GivesUp(p, conn, rest, next)
      ensures conn !in rest
    {
      if p.Sorting? {
        assert NoDup(Held(p)) by { Balances(start, a, p, [conn] + rest); }
        HeadIsApart([conn] + rest, conn, rest);
      }
    }

    /** The end of an operation. */
    lemma Settles(start: Pool)
      requires Stands(start, GETTER, Rest, []) && (closed ==> idle == [])
      ensures Valid()
    {
      Balances(start, GETTER, Rest, []);
    }

    /** NewConnectionPool with a validated configuration; the factory succeeds `dials` times. */
    constructor (cfg: Config, dials: nat)
      requires 0 <= cfg.minSize <= cfg.maxSize && 0 < cfg.maxSize
      ensures Valid() && this.cfg == cfg && !closed && lent == [] && Opened(Value(), cfg)
      ensures |idle| == createCount == if dials < cfg.minSize then dials else cfg.minSize
    {
      this.cfg := cfg;
      idle, lent, currentSize, closed, createCount, closeCount, unused := [], [], 0, false, 0, 0, 0;
      new;
      for i := 0 to cfg.minSize
        invariant |idle| == currentSize == createCount == unused == i <= dials
        invariant lent == [] && !closed && closeCount == 0
        invariant forall k :: 0 <= k < |idle| ==> idle[k] == k
      {
        if i == dials { break; }
        assert |idle| < cfg.maxSize;
        idle, unused := idle + [unused], unused + 1;
        currentSize := currentSize + 1;
        createCount := createCount + 1;
      }
      StandsStill(Value(), cfg);
      Settles(Value());
    }

    /** Receiving from the channel. */
    method TakeIdle(ghost start: Pool, ghost p: Phase) returns (conn: Conn)
      requires Stands(start, GETTER, p, []) && idle != [] && ((p.Rest? && !closed) || p.Waiting?)
      modifies `idle
      ensures Stands(start, GETTER, Popped(conn), [conn])
      ensures conn == old(idle)[0] && idle == old(idle)[1..]
    {
      ghost var n := Takes(start, cfg, Snapshot(GETTER, p, []), p);
      conn := idle[0];
      idle := idle[1..];
      assert n == Snapshot(GETTER, Popped(conn), [conn]);
    }

    /** Returning a connection to the caller. */
    method LendOut(conn: Conn, ghost start: Pool)
      requires Stands(start, GETTER, Popped(conn), [conn])
      modifies `lent
      ensures Stands(start, GETTER, Rest, []) && lent == old(lent) + [conn]
    {
      ghost var n := Keeps(start, cfg, Snapshot(GETTER, Popped(conn), [conn]), conn);
      lent := lent + [conn];
      assert n == Value();
    }

    /** conn.Close and both counters. */
    method ThrowOut(conn: Conn, ghost start: Pool, ghost a: Actor, ghost p: Phase, ghost rest: seq<Conn>,
                    ghost next: Next)
      requires Stands(start, a, p, [conn] + rest) && GivesUp(p, conn, rest, next) && !closed
      modifies `currentSize, `closeCount
      ensures Stands(start, a, Onward(next), rest)
      ensures currentSize == old(currentSize) - 1 && closeCount == old(closeCount) + 1
    {
      HoldsOnce(start, a, p, conn, rest, next);
      ghost var n := Discards(start, cfg, Snapshot(a, p, [conn] + rest), a, p, conn, rest, next);
      closeCount := closeCount + 1;
      currentSize := currentSize - 1;
      assert n == Snapshot(a, Onward(next), rest);
    }

    /** Creating a connection behind the gate and returning it to the caller. */
    method MakeNew(ghost start: Pool) returns (conn: Conn)
      requires Stands(start, GETTER, Dialling, []) && !closed && currentSize < cfg.maxSize
      modifies `lent, `currentSize, `createCount, `unused
      ensures Stands(start, GETTER, Rest, []) && conn == old(unused) && lent == old(lent) + [conn]
      ensures createCount == old(createCount) + 1
    {
      ghost var n := Creates(start, cfg, Snapshot(GETTER, Dialling, []));
      conn := unused;
      unused := unused + 1;
      currentSize := currentSize + 1;
      createCount := createCount + 1;
      lent := lent + [conn];
      assert n == Value();
    }

    /** createNewConnectionWithContext with no other operation in progress: below the limit it creates; a full pool
        hands out the oldest idle connection, or discards it and creates; with nothing idle it ends in the wait
        timeout. */
    method CreateNew(passes: Conn -> bool, dials: bool, ghost start: Pool) returns (r: Option<Conn>)
      requires Stands(start, GETTER, AtGate, []) && !closed
      modifies this
      ensures Stands(start, GETTER, Rest, []) && !closed
      ensures var full := old(currentSize) >= cfg.maxSize;
        if full && old(idle) == [] then r == None && idle == [] && createCount == old(createCount)
        else if full && passes(old(idle)[0]) then
          r == Some(old(idle)[0]) && idle == old(idle)[1..] && createCount == old(createCount)
        else
          && r == (if dials then Some(old(unused)) else None)
          && createCount == old(createCount) + (if dials then 1 else 0)
          && idle == if full then old(idle)[1..] else old(idle)
      ensures lent == if r.Some? then old(lent) + [r.value] else old(lent)
    {
      while currentSize >= cfg.maxSize
        invariant Stands(start, GETTER, AtGate, []) && !closed && lent == old(lent) && unused == old(unused)
        invariant createCount == old(createCount)
        invariant || (currentSize == old(currentSize) && idle == old(idle))
                  || (currentSize < cfg.maxSize <= old(currentSize) && old(idle) != [] && !passes(old(idle)[0])
                      && idle == old(idle)[1..])
        decreases |idle|
      {
        ghost var n := Turns(start, cfg, Snapshot(GETTER, AtGate, []), AtGate, GateFull, Waiting);
        if idle == [] {
          n := Turns(start, cfg, n, Waiting, WaitOver, Rest);
          return None;
        }
        var conn := TakeIdle(start, Waiting);
        if passes(conn) {
          LendOut(conn, start);
          return Some(conn);
        }
        assert [conn] + [] == [conn];
        ThrowOut(conn, start, GETTER, Popped(conn), [], ToGate);
      }
      ghost var n := Turns(start, cfg, Snapshot(GETTER, AtGate, []), AtGate, GateOpen, Dialling);
      if !dials {
        n := Turns(start, cfg, n, Dialling, DialFails, Rest);
        return None;
      }
      var conn := MakeNew(start);
      r := Some(conn);
    }

    /** GetWithContext: the oldest idle connection if it passes, otherwise a new one in its place; with nothing idle, a
        new one below the limit. */
    method Get(passes: Conn -> bool, dials: bool) returns (r: Option<Conn>)
      requires Valid()
      modifies this
      ensures Valid() && closed == old(closed) && Reaches(old(Value()), cfg, Value())
      ensures lent == if r.Some? then old(lent) + [r.value] else old(lent)
      ensures closed ==> r == None && idle == old(idle) && createCount == old(createCount)
      ensures !closed ==>
        if old(idle) != [] && passes(old(idle)[0]) then
          r == Some(old(idle)[0]) && idle == old(idle)[1..] && createCount == old(createCount)
        else if old(idle) == [] && old(currentSize) >= cfg.maxSize then
          r == None && idle == [] && createCount == old(createCount)
        else
          && r == (if dials then Some(old(unused)) else None)
          && createCount == old(createCount) + (if dials then 1 else 0)
          && idle == if old(idle) == [] then [] else old(idle)[1..]
    {
      ghost var start := Value();
      StandsStill(start, cfg);
      if closed { return None; }
      if idle != [] {
        var conn := TakeIdle(start, Rest);
        if passes(conn) {
          LendOut(conn, start);
          Settles(start);
          return Some(conn);
        }
        assert [conn] + [] == [conn];
        ThrowOut(conn, start, GETTER, Popped(conn), [], ToGate);
      } else {
        ghost var n := Turns(start, cfg, start, Rest, Miss, AtGate);
      }
      r := CreateNew(passes, dials, start);
      Settles(start);
    }

    /** The open pool's part of Put: the loan is in the caller's hands. */
    method TakeBack(i: nat, ghost start: Pool) returns (conn: Conn)
      requires Stands(start, GETTER, Rest, []) && !closed && i < |lent|
      modifies `lent
      ensures Stands(start, GETTER, Returning(conn), [conn])
      ensures conn == old(lent)[i] && lent == Without(old(lent), i)
    {
      ghost var n := Returns(start, cfg, Snapshot(GETTER, Rest, []), i);
      conn := lent[i];
      lent := Without(lent, i);
      assert n == Snapshot(GETTER, Returning(conn), [conn]);
    }

    /** The send of Put, when the channel has room. */
    method Offer(conn: Conn, ghost start: Pool)
      requires Stands(start, GETTER, Returning(conn), [conn]) && |idle| < cfg.maxSize
      modifies `idle
      ensures Stands(start, GETTER, Rest, []) && idle == old(idle) + [conn]
    {
      ghost var n := Offers(start, cfg, Snapshot(GETTER, Returning(conn), [conn]), conn);
      idle := idle + [conn];
      assert n == Snapshot(GETTER, Rest, []);
    }

    /** Put on a closed pool closes the connection. */
    method PutLate(i: nat, ghost start: Pool)
      requires Valid() && closed && i < |lent| && start == Value() && Reaches(start, cfg, start)
      modifies `lent, `closeCount
      ensures Valid() && lent == Without(old(lent), i) && closeCount == old(closeCount) + 1
      ensures Reaches(start, cfg, Value())
    {
      StepsTo(start, cfg, start, PutAfterClose(i));
      lent := Without(lent, i);
      closeCount := closeCount + 1;
      Settles(start);
    }

    /** Put of the i-th outstanding loan. */
    method Put(i: nat, passes: Conn -> bool)
      requires Valid() && i < |lent|
      modifies this
      ensures Valid() && closed == old(closed) && lent == Without(old(lent), i) && Reaches(old(Value()), cfg, Value())
      ensures createCount == old(createCount)
      ensures idle == old(idle) + if !closed && passes(old(lent)[i]) then [old(lent)[i]] else []
    {
      ghost var start := Value();
      StandsStill(start, cfg);
      if closed {
        PutLate(i, start);
        return;
      }
      var conn := TakeBack(i, start);
      if passes(conn) && |idle| < cfg.maxSize {
        Offer(conn, start);
      } else {
        assert [conn] + [] == [conn];
        ThrowOut(conn, start, GETTER, Returning(conn), [], ToRest);
      }
      Settles(start);
    }

    /** One round of the draining loop. */
    method DrainOne(ghost start: Pool, ghost a: Actor, ghost batch: seq<Conn>) returns (conn: Conn)
      requires Stands(start, a, Draining(batch), batch) && IsSweeper(a) && idle != []
      modifies `idle
      ensures conn == old(idle)[0] && idle == old(idle)[1..]
      ensures Stands(start, a, Draining(batch + [conn]), batch + [conn])
    {
      ghost var n := Drains(start, cfg, Snapshot(a, Draining(batch), batch), a, batch);
      conn, idle := idle[0], idle[1..];
      assert n == Snapshot(a, Draining(batch + [conn]), batch + [conn]);
    }

    /** The draining loop ends at an empty channel. */
    lemma TurnsToSorting(start: Pool, a: Actor, batch: seq<Conn>)
      requires Stands(start, a, Draining(batch), batch) && IsSweeper(a) && idle == []
      ensures Stands(start, a, Sorting(batch), batch)
    {
      var n := Sorts(start, cfg, Snapshot(a, Draining(batch), batch), a, batch);
      assert n == Snapshot(a, Sorting(batch), batch);
    }

    /** The first loop of cleanup and healthCheck: empty the channel. */
    method DrainIdle(ghost start: Pool, ghost a: Actor) returns (toCheck: seq<Conn>)
      requires Stands(start, a, Draining([]), []) && IsSweeper(a)
      modifies `idle
      ensures toCheck == old(idle) && idle == [] && Stands(start, a, Sorting(toCheck), toCheck)
    {
      toCheck := [];
      while idle != []
        invariant |toCheck| <= |old(idle)| && toCheck == old(idle)[..|toCheck|] && idle == old(idle)[|toCheck|..]
        invariant Stands(start, a, Draining(toCheck), toCheck)
        decreases |idle|
      {
        var conn := DrainOne(start, a, toCheck);
        toCheck := toCheck + [conn];
      }
      TurnsToSorting(start, a, toCheck);
    }

    /** Sending a connection back to the channel. */
    method SendBack(conn: Conn, ghost start: Pool, ghost a: Actor, ghost rest: seq<Conn>)
      requires Stands(start, a, Sorting([conn] + rest), [conn] + rest) && IsSweeper(a) && !closed
      modifies `idle
      ensures Stands(start, a, Sorting(rest), rest) && idle == old(idle) + [conn]
    {
      Balances(start, a, Sorting([conn] + rest), [conn] + rest);
      HoldsOnce(start, a, Sorting([conn] + rest), conn, rest, ToSort(rest));
      ghost var n := PutsBack(start, cfg, Snapshot(a, Sorting([conn] + rest), [conn] + rest), a, conn, rest);
      idle := idle + [conn];
      assert n == Snapshot(a, Sorting(rest), rest);
    }

    /** One round of the checking loop. */
    method CheckOne(conn: Conn, passes: Conn -> bool, ghost start: Pool, ghost a: Actor, ghost rest: seq<Conn>)
      requires Stands(start, a, Sorting([conn] + rest), [conn] + rest) && IsSweeper(a) && !closed
      modifies `idle, `currentSize, `closeCount
      ensures Stands(start, a, Sorting(rest), rest) && idle == old(idle) + if passes(conn) then [conn] else []
      ensures currentSize == old(currentSize) - if passes(conn) then 0 else 1
      ensures closeCount == old(closeCount) + if passes(conn) then 0 else 1
    {
      if passes(conn) {
        SendBack(conn, start, a, rest);
      } else {
        ThrowOut(conn, start, a, Sorting([conn] + rest), rest, ToSort(rest));
      }
    }

    /** The second loop: put back what passes (not expired, or healthy), discard the rest. */
    method PutBack(toCheck: seq<Conn>, passes: Conn -> bool, ghost start: Pool, ghost a: Actor)
      requires idle == [] && !closed && IsSweeper(a) && Stands(start, a, Sorting(toCheck), toCheck)
      modifies `idle, `currentSize, `closeCount
      ensures idle == Kept(toCheck, passes) && Stands(start, a, Sorting([]), [])
      ensures currentSize == old(currentSize) - (|toCheck| - |idle|)
      ensures closeCount == old(closeCount) + (|toCheck| - |idle|)
    {
      assert toCheck[0..] == toCheck;
      for i := 0 to |toCheck|
        invariant idle == Kept(toCheck[..i], passes) && Stands(start, a, Sorting(toCheck[i..]), toCheck[i..])
        invariant currentSize == old(currentSize) - (i - |idle|) && closeCount == old(closeCount) + (i - |idle|)
      {
        assert toCheck[..i + 1][..i] == toCheck[..i];
        assert toCheck[i..] == [toCheck[i]] + toCheck[i + 1..];
        CheckOne(toCheck[i], passes, start, a, toCheck[i + 1..]);
      }
      assert toCheck[..|toCheck|] == toCheck && toCheck[|toCheck|..] == [];
    }

    method SweepIdle(passes: Conn -> bool, ghost start: Pool, ghost a: Actor)
      requires Stands(start, a, Rest, []) && IsSweeper(a) && !closed
      modifies `idle, `currentSize, `closeCount
      ensures idle == Kept(old(idle), passes) && Stands(start, a, Sorting([]), [])
    {
      ghost var n := Starts(start, cfg, Snapshot(a, Rest, []), a);
      var toCheck := DrainIdle(start, a);
      PutBack(toCheck, passes, start, a);
    }

    /** healthCheck. */
    method HealthCheck(healthy: Conn -> bool)
      requires Valid() && !closed
      modifies this
      ensures Valid() && !closed && lent == old(lent) && idle == Kept(old(idle), healthy)
      ensures createCount == old(createCount)
      ensures Reaches(old(Value()), cfg, Value())
    {
      ghost var start := Value();
      StandsStill(start, cfg);
      AllRest(start, GETTER, Medic);
      SweepIdle(healthy, start, Medic);
      ghost var n := Ends(start, cfg, Snapshot(Medic, Sorting([]), []), Medic);
      AllRest(n, Medic, GETTER);
      Settles(start);
    }

    /** One connection made and sent to the channel under the mutex. */
    method AddIdle(ghost start: Pool, ghost left: nat)
      requires Stands(start, Cleaner, TopUp(left), []) && left > 0 && !closed && currentSize < cfg.maxSize
      modifies `idle, `currentSize, `createCount, `unused
      ensures Stands(start, Cleaner, TopUp(left - 1), [])
      ensures idle == old(idle) + [old(unused)] && currentSize == old(currentSize) + 1 && unused == old(unused) + 1
      ensures createCount == old(createCount) + 1
    {
      Balances(start, Cleaner, TopUp(left), []);
      ghost var n := TopsUp(start, cfg, Snapshot(Cleaner, TopUp(left), []), left);
      idle, unused := idle + [unused], unused + 1;
      currentSize := currentSize + 1;
      createCount := createCount + 1;
      assert n == Snapshot(Cleaner, TopUp(left - 1), []);
    }

    /** The end of the top-up loop. */
    lemma LeavesTopUp(start: Pool, left: nat)
      requires Stands(start, Cleaner, TopUp(left), [])
      ensures Stands(start, Cleaner, Rest, [])
    {
      var n := StopsToppingUp(start, cfg, Snapshot(Cleaner, TopUp(left), []), left);
      assert n == Snapshot(Cleaner, Rest, []);
    }

    /** One round of the top-up loop, the i-th. */
    method AddNext(ghost start: Pool, ghost left: nat, ghost before: seq<Conn>, ghost first: Conn, ghost i: nat)
      requires Stands(start, Cleaner, TopUp(left), []) && left > 0 && !closed && currentSize < cfg.maxSize
      requires idle == before + Numbered(first, i) && unused == first + i
      modifies `idle, `currentSize, `createCount, `unused
      ensures Stands(start, Cleaner, TopUp(left - 1), [])
      ensures idle == before + Numbered(first, i + 1) && unused == first + i + 1
      ensures currentSize == old(currentSize) + 1 && createCount == old(createCount) + 1
    {
      AddIdle(start, left);
      NumberedOneMore(before, first, i);
    }

    /** The loop that tops up to minSize, as far as the factory delivers. */
    method TopUpIdle(toCreate: nat, dials: nat, ghost start: Pool)
      requires Stands(start, Cleaner, TopUp(toCreate), []) && !closed
      requires currentSize + toCreate == cfg.minSize <= cfg.maxSize
      modifies `idle, `currentSize, `createCount, `unused
      ensures Stands(start, Cleaner, Rest, [])
      ensures idle == old(idle) + Numbered(old(unused), Fewer(dials, toCreate))
      ensures createCount == old(createCount) + Fewer(dials, toCreate)
    {
      var i := 0;
      assert idle == idle + Numbered(unused, 0);
      while i < toCreate && i < dials
        invariant i <= toCreate && i <= dials && Stands(start, Cleaner, TopUp(toCreate - i), [])
        invariant idle == old(idle) + Numbered(old(unused), i) && unused == old(unused) + i
        invariant currentSize == old(currentSize) + i && createCount == old(createCount) + i
      {
        AddNext(start, toCreate - i, old(idle), old(unused), i);
        i := i + 1;
      }
      LeavesTopUp(start, toCreate - i);
    }

    /** The end of cleanup's sweep. */
    lemma ComparesSize(start: Pool)
      requires Stands(start, Cleaner, Sorting([]), [])
      ensures Stands(start, Cleaner, if currentSize < cfg.minSize then TopUp(cfg.minSize - currentSize) else Rest, [])
    {
      var m := Snapshot(Cleaner, Sorting([]), []);
      var n := Ends(start, cfg, m, Cleaner);
      assert n == Snapshot(Cleaner, AfterSweep(m, cfg, Cleaner), []);
    }

    /** The two loops of cleanup, and its comparison of the size with minSize under the mutex. */
    method DropExpired(unexpired: Conn -> bool, ghost start: Pool)
      requires Stands(start, Cleaner, Rest, []) && !closed
      modifies `idle, `currentSize, `closeCount
      ensures idle == Kept(old(idle), unexpired) && currentSize == |idle| + |lent|
      ensures Stands(start, Cleaner, if currentSize < cfg.minSize then TopUp(cfg.minSize - currentSize) else Rest, [])
    {
      SweepIdle(unexpired, start, Cleaner);
      Balances(start, Cleaner, Sorting([]), []);
      ComparesSize(start);
    }

    /** The part of cleanup that tops up, if anything is missing. */
    method RefillIdle(dials: nat, ghost start: Pool)
      requires Validate(cfg) && !closed
      requires Stands(start, Cleaner, if currentSize < cfg.minSize then TopUp(cfg.minSize - currentSize) else Rest, [])
      modifies `idle, `currentSize, `createCount, `unused
      ensures Stands(start, Cleaner, Rest, [])
      ensures var made := Fewer(dials, Missing(cfg, old(currentSize)));
        idle == old(idle) + Numbered(old(unused), made) && createCount == old(createCount) + made
    {
      if currentSize < cfg.minSize {
        TopUpIdle(cfg.minSize - currentSize, dials, start);
      } else {
        assert idle == idle + Numbered(unused, 0);
      }
    }

    /** cleanup: drop the expired, then top up to minSize as far as the factory delivers. */
    method Cleanup(unexpired: Conn -> bool, dials: nat)
      requires Valid() && !closed
      modifies this
      ensures Valid() && !closed && lent == old(lent) && Reaches(old(Value()), cfg, Value())
      ensures var kept := Kept(old(idle), unexpired);
        var made := Fewer(dials, Missing(cfg, |kept| + |lent|));
        idle == kept + Numbered(old(unused), made) && createCount == old(createCount) + made
    {
      ghost var start := Value();
      StandsStill(start, cfg);
      AllRest(start, GETTER, Cleaner);
      DropExpired(unexpired, start);
      RefillIdle(dials, start);
      AllRest(Snapshot(Cleaner, Rest, []), Cleaner, GETTER);
      Settles(start);
    }

    /** Close: everything idle is closed, loans are closed when they come back. */
    method Close()
      requires Valid()
      modifies this
      ensures Valid() && closed && idle == [] && lent == old(lent) && Reaches(old(Value()), cfg, Value())
      ensures closeCount == old(closeCount) + |old(idle)| && currentSize == old(currentSize)
    {
      ghost var start := Value();
      StandsStill(start, cfg);
      if closed { return; }
      assert AllAtRest(start);
      StepsTo(start, cfg, start, PoolSteps.Close);
      closed := true;
      while idle != []
        invariant closed && lent == old(lent) && createCount == old(createCount) && unused == old(unused)
        invariant closeCount + |idle| == old(closeCount) + |old(idle)| && currentSize == old(currentSize)
        decreases |idle|
      {
        idle := idle[1..];
        closeCount := closeCount + 1;
      }
      Settles(start);
    }
  }
}
