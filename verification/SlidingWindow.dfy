/** The circuit breaker's bucketed ring of outcome counters, and the unbounded event log it stands for. */
module SlidingWindow {
  import opened Arithmetic

  datatype Outcome = Success | Failure | Timeout

  datatype Bucket = Bucket(success: nat, failure: nat, timeout: nat, total: nat)

  const EMPTY := Bucket(0, 0, 0, 0)

  /** The bucket after one more outcome. */
  function Add(b: Bucket, o: Outcome): Bucket {
    match o
    case Success => b.(success := b.success + 1, total := b.total + 1)
    case Failure => b.(failure := b.failure + 1, total := b.total + 1)
    case Timeout => b.(timeout := b.timeout + 1, total := b.total + 1)
  }

  /** The four counters of a bucket, and which outcomes each one counts. */
  datatype Column = Successes | Failures | Timeouts | Totals

  function Field(b: Bucket, k: Column): nat {
    match k
    case Successes => b.success
    case Failures => b.failure
    case Timeouts => b.timeout
    case Totals => b.total
  }

  predicate Counts(k: Column, o: Outcome) {
    match k
    case Successes => o.Success?
    case Failures => o.Failure?
    case Timeouts => o.Timeout?
    case Totals => true
  }

  // ---------------------------------------------------------------- the ring, as the code keeps it

  datatype Ring = Ring(buckets: seq<Bucket>, index: nat, last: int)

  ghost predicate RingValid(r: Ring) {
    r.index < |r.buckets|
  }

  /** The inner loop of updateBuckets: move to the next bucket and clear it, n times. */
  function Advance(r: Ring, n: nat): (q: Ring)
    requires RingValid(r)
    ensures RingValid(q) && |q.buckets| == |r.buckets| && q.last == r.last
  {
    if n == 0 then r
    else
      var q := Advance(r, n - 1);
      var i := (q.index + 1) % |q.buckets|;
      q.(index := i, buckets := q.buckets[i := EMPTY])
  }

  function Cleared(n: nat): (s: seq<Bucket>)
    ensures |s| == n && forall i :: 0 <= i < n ==> s[i] == EMPTY
  {
    seq(n, _ => EMPTY)
  }

  function Tick(r: Ring, bucketTime: int, now: int): (q: Ring)
    requires RingValid(r) && bucketTime > 0
    ensures RingValid(q) && |q.buckets| == |r.buckets|
  {
    if now - r.last < bucketTime then r
    else
      var n := (now - r.last) / bucketTime;
      if n >= |r.buckets| then Ring(Cleared(|r.buckets|), 0, now) else Advance(r, n).(last := now)
  }

  function Record(r: Ring, bucketTime: int, now: int, o: Outcome): (q: Ring)
    requires RingValid(r) && bucketTime > 0
    ensures RingValid(q) && |q.buckets| == |r.buckets|
  {
    var q := Tick(r, bucketTime, now);
    q.(buckets := q.buckets[q.index := Add(q.buckets[q.index], o)])
  }

  function Reset(r: Ring): Ring {
    r.(buckets := Cleared(|r.buckets|))
  }

  function Sum(buckets: seq<Bucket>, k: Column): nat {
    if buckets == [] then 0 else Sum(buckets[..|buckets| - 1], k) + Field(buckets[|buckets| - 1], k)
  }

  // ---------------------------------------------------------------- the log: every event since the last reset

  /** An event and the number of bucket advances that had happened when it was recorded. */
  datatype Entry = Entry(at: int, outcome: Outcome, slot: nat)

  datatype Log = Log(entries: seq<Entry>, slot: nat, last: int)

  function LogTick(l: Log, bucketTime: int, now: int): Log
    requires bucketTime > 0
  {
    if now - l.last < bucketTime then l
    else l.(slot := l.slot + (now - l.last) / bucketTime, last := now)
  }

  function LogRecord(l: Log, bucketTime: int, now: int, o: Outcome): Log
    requires bucketTime > 0
  {
    var m := LogTick(l, bucketTime, now);
    m.(entries := m.entries + [Entry(now, o, m.slot)])
  }

  function LogReset(l: Log): Log {
    l.(entries := [])
  }

  /** The event's bucket has been advanced past fewer than `size` times. */
  predicate Live(e: Entry, slot: nat, size: nat) {
    e.slot <= slot < e.slot + size
  }

  /** How many live events the column counts. */
  function LiveCount(entries: seq<Entry>, k: Column, slot: nat, size: nat): nat {
    if entries == [] then 0
    else
      var e := entries[|entries| - 1];
      LiveCount(entries[..|entries| - 1], k, slot, size) + if Counts(k, e.outcome) && Live(e, slot, size) then 1 else 0
  }

  // ---------------------------------------------------------------- ring refines log

  /** The bucket position of an event recorded `age` advances ago. */
  function Home(index: nat, age: nat, size: nat): int {
    if age <= index then index - age else index - age + size
  }

  /** The event is live and its bucket position is in lo <= position < hi. */
  predicate Between(e: Entry, slot: nat, size: nat, index: nat, lo: int, hi: int) {
    Live(e, slot, size) && lo <= Home(index, slot - e.slot, size) < hi
  }

  function CountBetween(entries: seq<Entry>, k: Column, slot: nat, size: nat, index: nat, lo: int, hi: int): nat {
    if entries == [] then 0
    else
      var e := entries[|entries| - 1];
      CountBetween(entries[..|entries| - 1], k, slot, size, index, lo, hi)
      + if Counts(k, e.outcome) && Between(e, slot, size, index, lo, hi) then 1 else 0
  }

  ghost predicate Refines(r: Ring, l: Log) {
    && RingValid(r) && r.last == l.last
    && (forall e :: e in l.entries ==> e.slot <= l.slot)
    && forall i, k :: 0 <= i < |r.buckets| ==>
         Field(r.buckets[i], k) == CountBetween(l.entries, k, l.slot, |r.buckets|, r.index, i, i + 1)
  }

  lemma {:induction false} CountSplits(entries: seq<Entry>, k: Column, slot: nat, size: nat, index: nat,
                                       lo: int, mid: int, hi: int)
    requires lo <= mid <= hi
    ensures CountBetween(entries, k, slot, size, index, lo, hi)
         == CountBetween(entries, k, slot, size, index, lo, mid) + CountBetween(entries, k, slot, size, index, mid, hi)
  {
    if entries != [] { CountSplits(entries[..|entries| - 1], k, slot, size, index, lo, mid, hi); }
  }

  lemma {:induction false} CountNone(entries: seq<Entry>, k: Column, slot: nat, size: nat, index: nat, lo: int)
    ensures CountBetween(entries, k, slot, size, index, lo, lo) == 0
  {
    if entries != [] { CountNone(entries[..|entries| - 1], k, slot, size, index, lo); }
  }

  lemma {:induction false} CountAll(entries: seq<Entry>, k: Column, slot: nat, size: nat, index: nat)
    requires index < size
    ensures CountBetween(entries, k, slot, size, index, 0, size) == LiveCount(entries, k, slot, size)
  {
    if entries != [] { CountAll(entries[..|entries| - 1], k, slot, size, index); }
  }

  lemma {:induction false} PrefixSum(r: Ring, l: Log, k: Column, n: nat)
    requires Refines(r, l) && n <= |r.buckets|
    ensures Sum(r.buckets[..n], k) == CountBetween(l.entries, k, l.slot, |r.buckets|, r.index, 0, n)
  {
    if n == 0 {
      CountNone(l.entries, k, l.slot, |r.buckets|, r.index, 0);
    } else {
      PrefixSum(r, l, k, n - 1);
      CountSplits(l.entries, k, l.slot, |r.buckets|, r.index, 0, n - 1, n);
      assert r.buckets[..n][..n - 1] == r.buckets[..n - 1];
    }
  }

  /** Stats over the ring is the count of the log's live events. */
  lemma StatsOfRefinement(r: Ring, l: Log, k: Column)
    requires Refines(r, l)
    ensures Sum(r.buckets, k) == LiveCount(l.entries, k, l.slot, |r.buckets|)
  {
    PrefixSum(r, l, k, |r.buckets|);
    CountAll(l.entries, k, l.slot, |r.buckets|, r.index);
    assert r.buckets[..|r.buckets|] == r.buckets;
  }

  /** One advance expires exactly the events in the bucket that is cleared, and moves no other event. */
  lemma {:induction false} AdvanceOneCount(entries: seq<Entry>, k: Column, slot: nat, size: nat, index: nat, i: nat)
    requires index < size && i < size && forall e :: e in entries ==> e.slot <= slot
    ensures var next := if index + 1 == size then 0 else index + 1;
      CountBetween(entries, k, slot + 1, size, next, i, i + 1)
      == if i == next then 0 else CountBetween(entries, k, slot, size, index, i, i + 1)
  {
    if entries != [] {
      assert entries[|entries| - 1] in entries;
      AdvanceOneCount(entries[..|entries| - 1], k, slot, size, index, i);
    }
  }

  lemma {:induction false} AdvanceRefines(r: Ring, l: Log, n: nat)
    requires Refines(r, l)
    ensures Refines(Advance(r, n), l.(slot := l.slot + n))
  {
    if n > 0 {
      AdvanceRefines(r, l, n - 1);
      var q, p := Advance(r, n - 1), Advance(r, n);
      NextIndex(q.index, |q.buckets|);
      forall i, k | 0 <= i < |p.buckets|
        ensures Field(p.buckets[i], k) == CountBetween(l.entries, k, l.slot + n, |p.buckets|, p.index, i, i + 1) {
        AdvanceOneCount(l.entries, k, l.slot + n - 1, |q.buckets|, q.index, i);
      }
    }
  }

  lemma {:induction false} CountExpired(entries: seq<Entry>, k: Column, slot: nat, size: nat, index: nat, i: int)
    requires forall e :: e in entries ==> e.slot + size <= slot
    ensures CountBetween(entries, k, slot, size, index, i, i + 1) == 0
  {
    if entries != [] {
      assert entries[|entries| - 1] in entries;
      CountExpired(entries[..|entries| - 1], k, slot, size, index, i);
    }
  }

  lemma TickRefines(r: Ring, l: Log, bucketTime: int, now: int)
    requires Refines(r, l) && bucketTime > 0
    ensures Refines(Tick(r, bucketTime, now), LogTick(l, bucketTime, now))
  {
    if now - r.last >= bucketTime {
      var n: nat := (now - r.last) / bucketTime;
      if n >= |r.buckets| {
        var clear := Cleared(|r.buckets|);
        forall i, k | 0 <= i < |clear|
          ensures Field(clear[i], k) == CountBetween(l.entries, k, l.slot + n, |clear|, 0, i, i + 1) {
          CountExpired(l.entries, k, l.slot + n, |clear|, 0, i);
        }
      } else {
        AdvanceRefines(r, l, n);
      }
    }
  }

  lemma RecordRefines(r: Ring, l: Log, bucketTime: int, now: int, o: Outcome)
    requires Refines(r, l) && bucketTime > 0
    ensures Refines(Record(r, bucketTime, now, o), LogRecord(l, bucketTime, now, o))
  {
    TickRefines(r, l, bucketTime, now);
    var q, m := Tick(r, bucketTime, now), LogTick(l, bucketTime, now);
    var q', m' := Record(r, bucketTime, now, o), LogRecord(l, bucketTime, now, o);
    assert m'.entries[..|m.entries|] == m.entries;
    forall i, k | 0 <= i < |q'.buckets|
      ensures Field(q'.buckets[i], k) == CountBetween(m'.entries, k, m'.slot, |q'.buckets|, q'.index, i, i + 1) {
      assert Field(q.buckets[i], k) == CountBetween(m.entries, k, m.slot, |q.buckets|, q.index, i, i + 1);
    }
  }

  lemma ResetRefines(r: Ring, l: Log)
    requires Refines(r, l)
    ensures Refines(Reset(r), LogReset(l))
  {
  }

  lemma {:induction false} TotalsAddUp(entries: seq<Entry>, slot: nat, size: nat, index: nat, lo: int, hi: int)
    ensures CountBetween(entries, Totals, slot, size, index, lo, hi)
         == CountBetween(entries, Successes, slot, size, index, lo, hi)
          + CountBetween(entries, Failures, slot, size, index, lo, hi)
          + CountBetween(entries, Timeouts, slot, size, index, lo, hi)
  {
    if entries != [] { TotalsAddUp(entries[..|entries| - 1], slot, size, index, lo, hi); }
  }

  // ---------------------------------------------------------------- whole runs

  datatype Op = RecordAt(now: int, outcome: Outcome) | ResetAll

  function Fresh(size: nat, start: int): Ring {
    Ring(Cleared(size), 0, start)
  }

  function RingAfter(size: nat, bucketTime: int, start: int, ops: seq<Op>): (r: Ring)
    requires size > 0 && bucketTime > 0
    ensures RingValid(r) && |r.buckets| == size
  {
    if ops == [] then Fresh(size, start)
    else
      var r := RingAfter(size, bucketTime, start, ops[..|ops| - 1]);
      match ops[|ops| - 1]
      case RecordAt(now, o) => Record(r, bucketTime, now, o)
      case ResetAll => Reset(r)
  }

  function LogAfter(bucketTime: int, start: int, ops: seq<Op>): Log
    requires bucketTime > 0
  {
    if ops == [] then Log([], 0, start)
    else
      var l := LogAfter(bucketTime, start, ops[..|ops| - 1]);
      match ops[|ops| - 1]
      case RecordAt(now, o) => LogRecord(l, bucketTime, now, o)
      case ResetAll => LogReset(l)
  }

  lemma {:induction false} RunRefines(size: nat, bucketTime: int, start: int, ops: seq<Op>)
    requires size > 0 && bucketTime > 0
    ensures Refines(RingAfter(size, bucketTime, start, ops), LogAfter(bucketTime, start, ops))
  {
    if ops != [] {
      var before := ops[..|ops| - 1];
      RunRefines(size, bucketTime, start, before);
      var r, l := RingAfter(size, bucketTime, start, before), LogAfter(bucketTime, start, before);
      match ops[|ops| - 1]
      case RecordAt(now, o) => RecordRefines(r, l, bucketTime, now, o);
      case ResetAll => ResetRefines(r, l);
    }
  }

  lemma TotalsOfRefinement(r: Ring, l: Log, i: nat)
    requires Refines(r, l) && i < |r.buckets|
    ensures r.buckets[i].total == r.buckets[i].success + r.buckets[i].failure + r.buckets[i].timeout
  {
    TotalsAddUp(l.entries, l.slot, |r.buckets|, r.index, i, i + 1);
    assert Field(r.buckets[i], Totals) == Field(r.buckets[i], Successes) + Field(r.buckets[i], Failures)
                                        + Field(r.buckets[i], Timeouts);
  }

  /** Ring refines log: after any sequence of records and resets, at any times, Stats counts exactly the events
      since the last reset whose bucket has been advanced past fewer than `size` times; totals add up. */
  lemma RingRefinesLog(size: nat, bucketTime: int, start: int, ops: seq<Op>)
    requires size > 0 && bucketTime > 0
    ensures var r, l := RingAfter(size, bucketTime, start, ops), LogAfter(bucketTime, start, ops);
      && (forall k :: Sum(r.buckets, k) == LiveCount(l.entries, k, l.slot, size))
      && (forall i :: 0 <= i < size ==>
            r.buckets[i].total == r.buckets[i].success + r.buckets[i].failure + r.buckets[i].timeout)
  {
    RunRefines(size, bucketTime, start, ops);
    var r, l := RingAfter(size, bucketTime, start, ops), LogAfter(bucketTime, start, ops);
    forall k ensures Sum(r.buckets, k) == LiveCount(l.entries, k, l.slot, size) { StatsOfRefinement(r, l, k); }
    forall i | 0 <= i < size
      ensures r.buckets[i].total == r.buckets[i].success + r.buckets[i].failure + r.buckets[i].timeout {
      TotalsOfRefinement(r, l, i);
    }
  }

  // ---------------------------------------------------------------- how old a counted event can be

  /** The clock of a run: the time of its last record. */
  function Clock(start: int, ops: seq<Op>): int {
    if ops == [] then start
    else match ops[|ops| - 1]
         case RecordAt(now, _) => now
         case ResetAll => Clock(start, ops[..|ops| - 1])
  }

  /** Time never runs backwards. */
  predicate Timely(start: int, ops: seq<Op>) {
    ops == [] || (Timely(start, ops[..|ops| - 1])
                  && (ops[|ops| - 1].RecordAt? ==> Clock(start, ops[..|ops| - 1]) <= ops[|ops| - 1].now))
  }

  /** Between an event and now, a advances took more than (a-1) bucket times and at most a * (2 * bucketTime - 1). */
  predicate Drift(e: Entry, l: Log, bucketTime: int) {
    && e.slot <= l.slot
    && (l.slot - e.slot) * bucketTime < (l.last - e.at) + bucketTime
    && l.last - e.at <= 2 * ((l.slot - e.slot) * bucketTime) - (l.slot - e.slot)
  }

  /** One update advances n >= 1 buckets and drops less than a bucket time. */
  lemma Advances(elapsed: int, bucketTime: int, n: int)
    requires elapsed >= bucketTime > 0 && n == elapsed / bucketTime
    ensures n >= 1 && n * bucketTime <= elapsed <= 2 * (n * bucketTime) - n
  {
    assert n * bucketTime <= elapsed < n * bucketTime + bucketTime;
    assert n >= 1;
    if bucketTime > 1 { Scale(1, n, bucketTime - 1); }
    assert n * (bucketTime - 1) == n * bucketTime - n;
  }

  lemma DriftGrows(e: Entry, l: Log, bucketTime: int, now: int)
    requires bucketTime > 0 && Drift(e, l, bucketTime) && now - l.last >= bucketTime
    ensures Drift(e, LogTick(l, bucketTime, now), bucketTime)
  {
    var n := (now - l.last) / bucketTime;
    Advances(now - l.last, bucketTime, n);
    Distribute(l.slot - e.slot, n, bucketTime);
  }

  /** Every event is past and within its drift, and the ring was advanced less than a bucket time ago. */
  ghost predicate InStep(l: Log, bucketTime: int, clock: int) {
    && 0 <= clock - l.last < bucketTime
    && forall e :: e in l.entries ==> e.at <= clock && Drift(e, l, bucketTime)
  }

  lemma RecordStaysInStep(l: Log, bucketTime: int, clock: int, now: int, o: Outcome)
    requires bucketTime > 0 && InStep(l, bucketTime, clock) && clock <= now
    ensures InStep(LogRecord(l, bucketTime, now, o), bucketTime, now)
  {
    var m := LogTick(l, bucketTime, now);
    forall e | e in l.entries ensures e.at <= now && Drift(e, m, bucketTime) {
      if now - l.last >= bucketTime { DriftGrows(e, l, bucketTime, now); }
    }
    assert Drift(Entry(now, o, m.slot), m, bucketTime);
    assert forall e :: Drift(e, m, bucketTime) ==> Drift(e, LogRecord(l, bucketTime, now, o), bucketTime);
  }

  lemma {:induction false} RunStaysInStep(bucketTime: int, start: int, ops: seq<Op>)
    requires bucketTime > 0 && Timely(start, ops)
    ensures InStep(LogAfter(bucketTime, start, ops), bucketTime, Clock(start, ops))
  {
    if ops != [] {
      var before := ops[..|ops| - 1];
      RunStaysInStep(bucketTime, start, before);
      if ops[|ops| - 1].RecordAt? {
        RecordStaysInStep(LogAfter(bucketTime, start, before), bucketTime, Clock(start, before),
                          ops[|ops| - 1].now, ops[|ops| - 1].outcome);
      }
    }
  }

  /** The age every younger or equally old event is still counted at. */
  function SureAge(size: nat, bucketTime: int): int {
    (size - 1) * bucketTime
  }

  /** The greatest age at which an event can still be counted. */
  function GreatestAge(size: nat, bucketTime: int): int {
    (2 * size - 1) * bucketTime - size
  }

  lemma Spread(size: nat, bucketTime: int)
    ensures size * bucketTime == SureAge(size, bucketTime) + bucketTime
    ensures GreatestAge(size, bucketTime) == 2 * SureAge(size, bucketTime) + bucketTime - size
    ensures GreatestAge(size, bucketTime) == (size - 1) * (2 * bucketTime - 1) + bucketTime - 1
  {
  }

  lemma DriftLimit(a: int, b: int, bucketTime: int)
    requires a <= b && bucketTime > 0
    ensures 2 * (a * bucketTime) - a <= 2 * (b * bucketTime) - b
  {
    Scale(a, b, 2 * bucketTime - 1);
    assert a * (2 * bucketTime - 1) == 2 * (a * bucketTime) - a;
    assert b * (2 * bucketTime - 1) == 2 * (b * bucketTime) - b;
  }

  lemma AgeOfLive(l: Log, size: nat, bucketTime: int, clock: int, e: Entry)
    requires size > 0 && bucketTime > 0 && 0 <= clock - l.last < bucketTime && Drift(e, l, bucketTime)
    ensures clock - e.at <= SureAge(size, bucketTime) ==> Live(e, l.slot, size)
    ensures Live(e, l.slot, size) ==> clock - e.at <= GreatestAge(size, bucketTime)
  {
    var a, p, q := l.slot - e.slot, (l.slot - e.slot) * bucketTime, SureAge(size, bucketTime);
    Spread(size, bucketTime);
    if a >= size {
      assert p >= q + bucketTime by { Scale(size, a, bucketTime); }
    } else {
      DriftLimit(a, size - 1, bucketTime);
    }
  }

  /** Window age bound: right after a record, every event since the last reset of age at most
      (size-1) * bucketTime is counted, and no counted event is older than (2*size-1) * bucketTime - size. */
  lemma WindowAgeBound(size: nat, bucketTime: int, start: int, ops: seq<Op>, l: Log, e: Entry)
    requires size > 0 && bucketTime > 0 && Timely(start, ops) && l == LogAfter(bucketTime, start, ops) && e in l.entries
    ensures Clock(start, ops) - e.at <= SureAge(size, bucketTime) ==> Live(e, l.slot, size)
    ensures Live(e, l.slot, size) ==> Clock(start, ops) - e.at <= GreatestAge(size, bucketTime)
  {
    RunStaysInStep(bucketTime, start, ops);
    AgeOfLive(l, size, bucketTime, Clock(start, ops), e);
  }

  // ---------------------------------------------------------------- which ages are really counted and missed

  /** At the end of this timely run the event e, recorded since the last reset, is `age` old. */
  ghost predicate Shows(bucketTime: int, start: int, ops: seq<Op>, e: Entry, age: int)
    requires bucketTime > 0
  {
    Timely(start, ops) && e in LogAfter(bucketTime, start, ops).entries && Clock(start, ops) - e.at == age
  }

  ghost predicate SomeRunCounts(size: nat, bucketTime: int, age: int)
    requires bucketTime > 0
  {
    exists start, ops, e ::
      Shows(bucketTime, start, ops, e, age) && Live(e, LogAfter(bucketTime, start, ops).slot, size)
  }

  ghost predicate SomeRunMisses(size: nat, bucketTime: int, age: int)
    requires bucketTime > 0
  {
    exists start, ops, e ::
      Shows(bucketTime, start, ops, e, age) && !Live(e, LogAfter(bucketTime, start, ops).slot, size)
  }

  lemma OneMoreOp(bucketTime: int, start: int, ops: seq<Op>, now: int, o: Outcome)
    requires bucketTime > 0 && Timely(start, ops) && Clock(start, ops) <= now
    ensures Timely(start, ops + [RecordAt(now, o)]) && Clock(start, ops + [RecordAt(now, o)]) == now
    ensures LogAfter(bucketTime, start, ops + [RecordAt(now, o)])
         == LogRecord(LogAfter(bucketTime, start, ops), bucketTime, now, o)
  {
    assert (ops + [RecordAt(now, o)])[..|ops + [RecordAt(now, o)]| - 1] == ops;
  }

  /** The event every run below is about. */
  const EVENT := Entry(0, Failure, 0)

  /** Records spaced so that each one advances a single bucket and drops as much time as possible. */
  function Ladder(bucketTime: int, rungs: nat): seq<Op> {
    if rungs == 0 then [RecordAt(0, Failure)]
    else Ladder(bucketTime, rungs - 1) + [RecordAt(rungs * (2 * bucketTime - 1), Success)]
  }

  lemma {:induction false} LadderLog(bucketTime: int, rungs: nat)
    requires bucketTime > 0
    ensures var l := LogAfter(bucketTime, 0, Ladder(bucketTime, rungs));
      EVENT in l.entries && l.slot == rungs && l.last == rungs * (2 * bucketTime - 1)
    ensures Timely(0, Ladder(bucketTime, rungs))
    ensures Clock(0, Ladder(bucketTime, rungs)) == rungs * (2 * bucketTime - 1)
  {
    if rungs == 0 {
      OneMoreOp(bucketTime, 0, [], 0, Failure);
      assert Ladder(bucketTime, 0) == [] + [RecordAt(0, Failure)];
    } else {
      var step, ops := 2 * bucketTime - 1, Ladder(bucketTime, rungs - 1);
      LadderLog(bucketTime, rungs - 1);
      assert rungs * step == (rungs - 1) * step + step;
      OneMoreOp(bucketTime, 0, ops, rungs * step, Success);
      assert step / bucketTime == 1;
    }
  }

  /** One record on top of the ladder, less than a rung later. */
  lemma LadderTop(bucketTime: int, rungs: nat, r: int, now: int)
    requires 0 <= r < 2 * bucketTime - 1 && now == rungs * (2 * bucketTime - 1) + r
    ensures Shows(bucketTime, 0, Ladder(bucketTime, rungs) + [RecordAt(now, Success)], EVENT, now)
    ensures LogAfter(bucketTime, 0, Ladder(bucketTime, rungs) + [RecordAt(now, Success)]).slot
         == rungs + if r < bucketTime then 0 else 1
  {
    LadderLog(bucketTime, rungs);
    OneMoreOp(bucketTime, 0, Ladder(bucketTime, rungs), now, Success);
    assert r >= bucketTime ==> r / bucketTime == 1;
  }

  lemma RungsFit(size: nat, bucketTime: int, rungs: nat, r: int)
    requires size > 0 && 0 <= r < 2 * bucketTime - 1
    requires rungs * (2 * bucketTime - 1) + r <= GreatestAge(size, bucketTime)
    ensures rungs + (if r < bucketTime then 0 else 1) < size
  {
    var step := 2 * bucketTime - 1;
    Spread(size, bucketTime);
    assert size * step == (size - 1) * step + step;
    if rungs >= size { Scale(size, rungs, step); }
  }

  /** Climb the ladder as far as the age allows, then record once more. */
  lemma AgeIsCounted(size: nat, bucketTime: int, age: int)
    requires size > 0 && bucketTime > 0 && 0 <= age <= GreatestAge(size, bucketTime)
    ensures SomeRunCounts(size, bucketTime, age)
  {
    var q, r := age / (2 * bucketTime - 1), age % (2 * bucketTime - 1);
    assert age == q * (2 * bucketTime - 1) + r;
    LadderTop(bucketTime, q, r, age);
    RungsFit(size, bucketTime, q, r);
  }

  /** Record the event just before an advance falls due, then once more. */
  lemma AgeIsMissed(size: nat, bucketTime: int, age: int)
    requires size > 0 && bucketTime > 0 && age > SureAge(size, bucketTime)
    ensures SomeRunMisses(size, bucketTime, age)
  {
    var start, none: seq<Op> := 1 - bucketTime, [];
    var one := none + [RecordAt(0, Failure)];
    assert age > 0 by { Scale(0, size - 1, bucketTime); }
    OneMoreOp(bucketTime, start, none, 0, Failure);
    OneMoreOp(bucketTime, start, one, age, Success);
    var l := LogAfter(bucketTime, start, one + [RecordAt(age, Success)]);
    assert l.slot >= size by {
      Spread(size, bucketTime);
      var elapsed := age + bucketTime - 1;
      Advances(elapsed, bucketTime, elapsed / bucketTime);
      if elapsed / bucketTime < size { Scale(elapsed / bucketTime + 1, size, bucketTime); }
    }
    assert Shows(bucketTime, start, one + [RecordAt(age, Success)], EVENT, age);
  }

  /** Exactly which ages can be counted, and exactly which can be missed. */
  lemma AgesCountedAndMissed(size: nat, bucketTime: int, age: int)
    requires size > 0 && bucketTime > 0
    ensures SomeRunCounts(size, bucketTime, age) <==> 0 <= age <= GreatestAge(size, bucketTime)
    ensures SomeRunMisses(size, bucketTime, age) <==> age > SureAge(size, bucketTime)
  {
    if SomeRunCounts(size, bucketTime, age) {
      var start, ops, e :|
        Shows(bucketTime, start, ops, e, age) && Live(e, LogAfter(bucketTime, start, ops).slot, size);
      RunStaysInStep(bucketTime, start, ops);
      WindowAgeBound(size, bucketTime, start, ops, LogAfter(bucketTime, start, ops), e);
    }
    if SomeRunMisses(size, bucketTime, age) {
      var start, ops, e :|
        Shows(bucketTime, start, ops, e, age) && !Live(e, LogAfter(bucketTime, start, ops).slot, size);
      WindowAgeBound(size, bucketTime, start, ops, LogAfter(bucketTime, start, ops), e);
    }
    if 0 <= age <= GreatestAge(size, bucketTime) { AgeIsCounted(size, bucketTime, age); }
    if age > SureAge(size, bucketTime) { AgeIsMissed(size, bucketTime, age); }
  }

  /** The nominal length: no run counts an event of age size * bucketTime or more exactly when there is one bucket or
      the bucket time is the clock's unit; every run counts every younger event exactly in the latter case. */
  lemma NominalLengthIff(size: nat, bucketTime: int)
    requires size > 0 && bucketTime > 0
    ensures (forall age :: age >= size * bucketTime ==> !SomeRunCounts(size, bucketTime, age))
       <==> size == 1 || bucketTime == 1
    ensures (forall age :: 0 <= age < size * bucketTime ==> !SomeRunMisses(size, bucketTime, age)) <==> bucketTime == 1
  {
    forall age
      ensures SomeRunCounts(size, bucketTime, age) <==> 0 <= age <= GreatestAge(size, bucketTime)
      ensures SomeRunMisses(size, bucketTime, age) <==> age > SureAge(size, bucketTime) {
      AgesCountedAndMissed(size, bucketTime, age);
    }
    Spread(size, bucketTime);
    if size > 1 && bucketTime > 1 {
      Scale(size - 1, size - 1, bucketTime);
      Scale(2, bucketTime, size - 1);
      assert size * bucketTime <= GreatestAge(size, bucketTime);
      assert SomeRunCounts(size, bucketTime, size * bucketTime);
    }
    if bucketTime > 1 {
      Scale(0, size - 1, bucketTime);
      assert SomeRunMisses(size, bucketTime, SureAge(size, bucketTime) + 1);
    }
  }

  // ---------------------------------------------------------------- the code

  class Window {
    const size: nat
    const bucketTime: int
    const buckets: array<Bucket>
    var currentIndex: nat
    var lastUpdate: int

    ghost predicate Valid()
      reads this
    {
      size > 0 && bucketTime > 0 && buckets.Length == size && currentIndex < size
    }

    ghost function State(): (r: Ring)
      requires Valid()
      reads this, buckets
      ensures RingValid(r) && |r.buckets| == size
    {
      Ring(buckets[..], currentIndex, lastUpdate)
    }

    constructor (size: nat, bucketTime: int, now: int)
      requires size > 0 && bucketTime > 0
      ensures Valid() && this.size == size && this.bucketTime == bucketTime && fresh(buckets)
      ensures State() == Fresh(size, now)
    {
      this.size, this.bucketTime := size, bucketTime;
      buckets := new Bucket[size](_ => EMPTY);
      currentIndex, lastUpdate := 0, now;
      new;
      assert buckets[..] == Cleared(size);
    }

    /** The two clearing loops, in updateBuckets and in Reset. */
    method ClearAll()
      requires Valid()
      modifies buckets
      ensures buckets[..] == Cleared(size)
    {
      for i := 0 to size
        invariant forall j :: 0 <= j < i ==> buckets[j] == EMPTY
      {
        buckets[i] := EMPTY;
      }
    }

    method UpdateBuckets(now: int)
      requires Valid()
      modifies this, buckets
      ensures Valid() && State() == Tick(old(State()), bucketTime, now)
    {
      var elapsed := now - lastUpdate;
      if elapsed < bucketTime { return; }
      var bucketsToAdvance := elapsed / bucketTime;
      if bucketsToAdvance >= size {
        ClearAll();
        currentIndex := 0;
      } else {
        for i := 0 to bucketsToAdvance
          invariant Valid() && State() == Advance(old(State()), i)
        {
          currentIndex := (currentIndex + 1) % size;
          buckets[currentIndex] := EMPTY;
        }
      }
      lastUpdate := now;
    }

    /** RecordSuccess, RecordFailure and RecordTimeout. */
    method RecordOutcome(now: int, o: Outcome)
      requires Valid()
      modifies this, buckets
      ensures Valid() && State() == Record(old(State()), bucketTime, now, o)
    {
      UpdateBuckets(now);
      buckets[currentIndex] := Add(buckets[currentIndex], o);
    }

    method Stats() returns (success: nat, failure: nat, timeout: nat, total: nat)
      requires Valid()
      ensures success == Sum(State().buckets, Successes) && failure == Sum(State().buckets, Failures)
      ensures timeout == Sum(State().buckets, Timeouts) && total == Sum(State().buckets, Totals)
    {
      success, failure, timeout, total := 0, 0, 0, 0;
      for i := 0 to size
        invariant success == Sum(buckets[..i], Successes) && failure == Sum(buckets[..i], Failures)
        invariant timeout == Sum(buckets[..i], Timeouts) && total == Sum(buckets[..i], Totals)
      {
        assert buckets[..i + 1][..i] == buckets[..i];
        success := success + buckets[i].success;
        failure := failure + buckets[i].failure;
        timeout := timeout + buckets[i].timeout;
        total := total + buckets[i].total;
      }
      assert buckets[..size] == buckets[..];
    }

    method ResetBuckets()
      requires Valid()
      modifies buckets
      ensures Valid() && State() == Reset(old(State()))
    {
      ClearAll();
    }
  }
}
