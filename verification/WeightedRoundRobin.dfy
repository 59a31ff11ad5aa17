/** Weighted round-robin: a cached schedule that repeats each instance by its weight. */
module WeightedRoundRobin {
  import opened Arithmetic
  import opened Instances
  import opened Wrappers

  const DEFAULT_WEIGHT: int := 100

  function Weight(inst: Instance): (w: nat)
    ensures w > 0
  {
    if inst.weight <= 0 then DEFAULT_WEIGHT else inst.weight
  }

  function Copies(i: nat, n: nat): (s: seq<nat>)
    ensures |s| == n && forall k :: 0 <= k < n ==> s[k] == i
  {
    seq(n, _ => i)
  }

  /** Instance positions, each repeated by its effective weight. */
  function Schedule(instances: seq<Instance>): (s: seq<nat>)
    ensures |s| >= |instances|
  {
    if instances == [] then []
    else
      var n := |instances| - 1;
      Schedule(instances[..n]) + Copies(n, Weight(instances[n]))
  }

  lemma {:induction false} ScheduleNames(instances: seq<Instance>)
    ensures forall k :: 0 <= k < |Schedule(instances)| ==> Schedule(instances)[k] < |instances|
  {
    if instances != [] { ScheduleNames(instances[..|instances| - 1]); }
  }

  datatype Balancer = Balancer(instances: seq<Instance>, schedule: seq<nat>, current: int)

  ghost predicate Valid(b: Balancer) {
    b.schedule == Schedule(b.instances) && -1 <= b.current && (b.instances != [] ==> b.current < |b.schedule|)
  }

  predicate Same(cached: seq<Instance>, given: seq<Instance>) {
    && |given| == |cached|
    && forall i :: 0 <= i < |given| ==> given[i].id == cached[i].id && given[i].weight == cached[i].weight
  }

  /** The balancer a pick works on: rebuilt when the list changed. */
  function Current(b: Balancer, given: seq<Instance>): Balancer {
    if Same(b.instances, given) then b else Balancer(given, Schedule(given), -1)
  }

  function Next(b: Balancer, given: seq<Instance>): Balancer
    requires Valid(b) && given != []
  {
    var c := Current(b, given);
    c.(current := if c.current + 1 == |c.schedule| then 0 else c.current + 1)
  }

  lemma NextIsValid(b: Balancer, given: seq<Instance>)
    requires Valid(b) && given != []
    ensures Valid(Next(b, given)) && Same(Next(b, given).instances, given) && 0 <= Next(b, given).current
  {
  }

  /** The balancer after n picks from the same list. */
  function AfterPicks(b: Balancer, given: seq<Instance>, n: nat): (c: Balancer)
    requires Valid(b) && given != []
    ensures Valid(c)
  {
    if n == 0 then b
    else
      var m := AfterPicks(b, given, n - 1);
      NextIsValid(m, given);
      Next(m, given)
  }

  /** The position chosen after k picks from the same list. */
  function PickNo(b: Balancer, given: seq<Instance>, k: nat): nat
    requires Valid(b) && given != []
  {
    NextIsValid(AfterPicks(b, given, k), given);
    var c := AfterPicks(b, given, k + 1);
    c.schedule[c.current]
  }

  function Picks(b: Balancer, given: seq<Instance>, n: nat): seq<nat>
    requires Valid(b) && given != []
  {
    seq(n, k requires 0 <= k => PickNo(b, given, k))
  }

  function Occurrences(s: seq<nat>, i: nat): nat {
    if s == [] then 0 else Occurrences(s[..|s| - 1], i) + if s[|s| - 1] == i then 1 else 0
  }

  lemma {:induction false} OccurrencesConcat(s: seq<nat>, t: seq<nat>, i: nat)
    ensures Occurrences(s + t, i) == Occurrences(s, i) + Occurrences(t, i)
  {
    if t == [] {
      assert s + t == s;
    } else {
      OccurrencesConcat(s, t[..|t| - 1], i);
      assert (s + t)[..|s + t| - 1] == s + t[..|t| - 1];
    }
  }

  lemma {:induction false} OccurrencesCopies(j: nat, n: nat, i: nat)
    ensures Occurrences(Copies(j, n), i) == if i == j then n else 0
  {
    if n > 0 {
      OccurrencesCopies(j, n - 1, i);
      assert Copies(j, n)[..n - 1] == Copies(j, n - 1);
    }
  }

  lemma {:induction false} OccurrencesNone(s: seq<nat>, i: nat)
    requires forall k :: 0 <= k < |s| ==> s[k] < i
    ensures Occurrences(s, i) == 0
  {
    if s != [] { OccurrencesNone(s[..|s| - 1], i); }
  }

  /** The schedule names each instance exactly its weight times, 100 times if it has none. */
  lemma {:induction false} ScheduleIsWeighted(instances: seq<Instance>, i: nat)
    requires i < |instances|
    ensures Occurrences(Schedule(instances), i) == if instances[i].weight > 0 then instances[i].weight else 100
  {
    var n := |instances| - 1;
    OccurrencesConcat(Schedule(instances[..n]), Copies(n, Weight(instances[n])), i);
    OccurrencesCopies(n, Weight(instances[n]), i);
    if i < n {
      ScheduleIsWeighted(instances[..n], i);
    } else {
      ScheduleNames(instances[..n]);
      OccurrencesNone(Schedule(instances[..n]), n);
    }
  }

  function TotalWeight(instances: seq<Instance>): nat {
    if instances == [] then 0 else TotalWeight(instances[..|instances| - 1]) + Weight(instances[|instances| - 1])
  }

  lemma {:induction false} ScheduleLength(instances: seq<Instance>)
    ensures |Schedule(instances)| == TotalWeight(instances)
  {
    if instances != [] { ScheduleLength(instances[..|instances| - 1]); }
  }

  lemma {:induction false} SameSchedule(cached: seq<Instance>, given: seq<Instance>)
    requires Same(cached, given)
    ensures Schedule(cached) == Schedule(given)
  {
    if given != [] { SameSchedule(cached[..|given| - 1], given[..|given| - 1]); }
  }

  function Wrapped(p: nat, w: nat): int {
    if p < w then p else p - w
  }

  /** `picks` is the schedule read from position s on, wrapping around once. */
  ghost predicate Cyclic(picks: seq<nat>, schedule: seq<nat>, s: nat) {
    && s < |schedule| == |picks|
    && forall k :: 0 <= k < |picks| ==> picks[k] == schedule[Wrapped(s + k, |schedule|)]
  }

  lemma ReadingKeepsOccurrences(picks: seq<nat>, schedule: seq<nat>, s: nat, i: nat)
    requires Cyclic(picks, schedule, s)
    ensures Occurrences(picks, i) == Occurrences(schedule, i)
  {
    assert picks == schedule[s..] + schedule[..s];
    OccurrencesConcat(schedule[s..], schedule[..s], i);
    OccurrencesConcat(schedule[..s], schedule[s..], i);
    assert schedule[..s] + schedule[s..] == schedule;
  }

  /** Where the first pick lands. */
  function Start(b: Balancer, given: seq<Instance>): (s: nat)
    requires Valid(b) && given != []
    ensures s < |Schedule(given)|
  {
    NextIsValid(b, given);
    SameSchedule(Next(b, given).instances, given);
    Next(b, given).current
  }

  lemma {:induction false} PositionAfter(b: Balancer, given: seq<Instance>, n: nat)
    requires Valid(b) && given != [] && 0 < n <= |Schedule(given)|
    ensures AfterPicks(b, given, n).schedule == Schedule(given) && Same(AfterPicks(b, given, n).instances, given)
    ensures AfterPicks(b, given, n).current == Wrapped(Start(b, given) + n - 1, |Schedule(given)|)
  {
    var m, c := AfterPicks(b, given, n - 1), AfterPicks(b, given, n);
    NextIsValid(m, given);
    SameSchedule(c.instances, given);
    if n > 1 { PositionAfter(b, given, n - 1); }
  }

  lemma PickAt(b: Balancer, given: seq<Instance>, k: nat)
    requires Valid(b) && given != [] && k < |Schedule(given)|
    ensures PickNo(b, given, k) == Schedule(given)[Wrapped(Start(b, given) + k, |Schedule(given)|)]
  {
    PositionAfter(b, given, k + 1);
  }

  /** One full turn of picks reads the schedule cyclically from Start. */
  lemma PicksReadTheSchedule(b: Balancer, given: seq<Instance>)
    requires Valid(b) && given != []
    ensures Cyclic(Picks(b, given, |Schedule(given)|), Schedule(given), Start(b, given))
  {
    forall k | 0 <= k < |Schedule(given)|
      ensures PickNo(b, given, k) == Schedule(given)[Wrapped(Start(b, given) + k, |Schedule(given)|)] {
      PickAt(b, given, k);
    }
  }

  /** Fairness: from any position of any valid balancer, and across the wrap, as many picks in a row as the sum of
      the effective weights return each instance exactly its effective weight times. */
  lemma WeightedFairness(b: Balancer, given: seq<Instance>, i: nat)
    requires Valid(b) && i < |given|
    ensures Occurrences(Picks(b, given, TotalWeight(given)), i) == if given[i].weight > 0 then given[i].weight else 100
  {
    ScheduleLength(given);
    PicksReadTheSchedule(b, given);
    ReadingKeepsOccurrences(Picks(b, given, TotalWeight(given)), Schedule(given), Start(b, given), i);
    ScheduleIsWeighted(given, i);
  }

  // ---------------------------------------------------------------- exactly which instance each pick returns

  /** The schedule lists the instances in order, each in one block as long as its effective weight. */
  lemma {:induction false} ScheduleAt(instances: seq<Instance>, k: nat, i: nat)
    requires k < |Schedule(instances)| && i < |instances|
    ensures Schedule(instances)[k] == i <==> TotalWeight(instances[..i]) <= k < TotalWeight(instances[..i + 1])
  {
    var n := |instances| - 1;
    ScheduleLength(instances[..n]);
    TotalWeightGrows(instances, i);
    assert instances[..n + 1] == instances;
    assert instances[..i + 1][..i] == instances[..i];
    if k < |Schedule(instances[..n])| {
      ScheduleNames(instances[..n]);
      if i < n {
        assert instances[..n][..i] == instances[..i] && instances[..n][..i + 1] == instances[..i + 1];
        ScheduleAt(instances[..n], k, i);
      }
    } else {
      assert Schedule(instances)[k] == n;
      ScheduleLength(instances);
    }
  }

  /** An earlier block ends where the last one begins, or before. */
  lemma {:induction false} TotalWeightGrows(instances: seq<Instance>, i: nat)
    requires i < |instances|
    ensures i < |instances| - 1 ==> TotalWeight(instances[..i + 1]) <= TotalWeight(instances[..|instances| - 1])
  {
    var n := |instances| - 1;
    if i < n - 1 {
      TotalWeightGrows(instances[..n], i);
      assert instances[..n][..i + 1] == instances[..i + 1] && instances[..n][..n - 1] == instances[..n - 1];
      assert instances[..n][..|instances[..n]| - 1] == instances[..n - 1];
    }
  }

  /** The place in the schedule the first pick reads: the start after a change of the list, else the next one. */
  function Origin(b: Balancer, given: seq<Instance>): int {
    if Same(b.instances, given) then b.current + 1 else 0
  }

  /** The place pick number k reads. */
  function Place(b: Balancer, given: seq<Instance>, k: nat): (p: nat)
    requires given != []
    ensures p < |Schedule(given)|
  {
    (Origin(b, given) + k) % |Schedule(given)|
  }

  lemma OneFurther(x: int, w: int)
    requires w > 0
    ensures (x + 1) % w == if x % w + 1 == w then 0 else x % w + 1
  {
    var q, r := x / w, x % w;
    assert x == q * w + r;
    if r + 1 == w {
      Distribute(q, 1, w);
      DivIsUnique(x + 1, w, q + 1, 0);
    } else {
      DivIsUnique(x + 1, w, q, r + 1);
    }
  }

  lemma NextPlace(m: Balancer, given: seq<Instance>)
    requires Valid(m) && given != [] && Same(m.instances, given)
    ensures var n := Next(m, given);
      && n.schedule == Schedule(given) && Same(n.instances, given)
      && n.current == if m.current + 1 == |Schedule(given)| then 0 else m.current + 1
  {
    SameSchedule(m.instances, given);
  }

  lemma FirstPlace(b: Balancer, given: seq<Instance>)
    requires Valid(b) && given != []
    ensures var n, w := Next(b, given), |Schedule(given)|;
      n.schedule == Schedule(given) && Same(n.instances, given) && n.current == Origin(b, given) % w
  {
    if Same(b.instances, given) {
      NextPlace(b, given);
      NextIndex(b.current, |Schedule(given)|);
    } else {
      NextIndex(-1, |Schedule(given)|);
    }
  }

  lemma {:induction false} PlaceAfter(b: Balancer, given: seq<Instance>, n: nat)
    requires Valid(b) && given != [] && n > 0
    ensures AfterPicks(b, given, n).schedule == Schedule(given) && Same(AfterPicks(b, given, n).instances, given)
    ensures AfterPicks(b, given, n).current == Place(b, given, n - 1)
  {
    if n > 1 {
      PlaceAfter(b, given, n - 1);
      NextPlace(AfterPicks(b, given, n - 1), given);
      OneFurther(Origin(b, given) + n - 2, |Schedule(given)|);
    } else {
      FirstPlace(b, given);
    }
  }

  /** Every pick of any number in a row, told from where the balancer stood and whether the list had changed. */
  lemma EveryPick(b: Balancer, given: seq<Instance>, k: nat)
    requires Valid(b) && given != []
    ensures PickNo(b, given, k) == Schedule(given)[Place(b, given, k)]
  {
    PlaceAfter(b, given, k + 1);
  }

  /** After a change of the list the first pick is its first instance. */
  lemma FirstAnswer(b: Balancer, given: seq<Instance>)
    requires Valid(b) && given != [] && !Same(b.instances, given)
    ensures Answer(b, given) == given[0]
  {
    PlaceAfter(b, given, 1);
    NextIsValid(b, given);
    assert TotalWeight(given[..1]) == Weight(given[0]) by { assert given[..1][..0] == []; }
    ScheduleAt(given, 0, 0);
  }

  // ---------------------------------------------------------------- when the answer is one of the given instances

  /** The instance a pick answers with. */
  function Answer(b: Balancer, given: seq<Instance>): Instance
    requires Valid(b) && given != []
  {
    NextIsValid(b, given);
    var c := Next(b, given);
    ScheduleNames(c.instances);
    c.instances[c.schedule[c.current]]
  }

  /** A balancer that has this list cached and has picked from it, k places into its schedule. */
  function Cached(cached: seq<Instance>, k: nat): Balancer {
    Balancer(cached, Schedule(cached), k)
  }

  /** Wherever the balancer stands, the pick's answer is one of the instances given to it. */
  ghost predicate AnswersFromGiven(cached: seq<Instance>, given: seq<Instance>)
    requires given != []
  {
    forall k: nat :: Valid(Cached(cached, k)) ==> Answer(Cached(cached, k), given) in given
  }

  lemma {:induction false} ScheduleHas(instances: seq<Instance>, i: nat) returns (k: nat)
    requires i < |instances|
    ensures k < |Schedule(instances)| && Schedule(instances)[k] == i
  {
    var n := |instances| - 1;
    if i < n {
      k := ScheduleHas(instances[..n], i);
    } else {
      k := |Schedule(instances[..n])|;
    }
  }

  /** A pick answers with the instance at some position of the list it works on. */
  lemma AnswerIsListed(b: Balancer, given: seq<Instance>)
    requires Valid(b) && given != []
    ensures Answer(b, given) in Current(b, given).instances
  {
    NextIsValid(b, given);
    ScheduleNames(Current(b, given).instances);
  }

  /** Each position of a reused list is answered with from some place. */
  lemma EveryPositionAnswers(cached: seq<Instance>, given: seq<Instance>, i: nat) returns (k: nat)
    requires Same(cached, given) && i < |cached|
    ensures Valid(Cached(cached, k)) && Answer(Cached(cached, k), given) == cached[i]
  {
    var at := ScheduleHas(cached, i);
    k := if at == 0 then |Schedule(cached)| - 1 else at - 1;
  }

  /** The answer is always one of the given instances exactly when the schedule is rebuilt or every cached instance is
      given unchanged; only IDs and weights decide whether it is rebuilt. */
  lemma AnswersFromGivenIff(cached: seq<Instance>, given: seq<Instance>)
    requires given != []
    ensures AnswersFromGiven(cached, given)
       <==> !Same(cached, given) || forall i :: 0 <= i < |cached| ==> cached[i] in given
  {
    if !Same(cached, given) || forall i :: 0 <= i < |cached| ==> cached[i] in given {
      forall k: nat | Valid(Cached(cached, k)) ensures Answer(Cached(cached, k), given) in given {
        AnswerIsListed(Cached(cached, k), given);
      }
    } else {
      var i :| 0 <= i < |cached| && cached[i] !in given;
      var k := EveryPositionAnswers(cached, given, i);
    }
  }

  /** An address changed under the same ID and weight: the pick answers with the instance as it was. */
  lemma StaleAnswer()
    ensures var cached, given := [Instance("a", 1, "old")], [Instance("a", 1, "new")];
      && Valid(Cached(cached, 0)) && Same(cached, given)
      && Answer(Cached(cached, 0), given) == cached[0] && cached[0] !in given
  {
    var cached, given := [Instance("a", 1, "old")], [Instance("a", 1, "new")];
    AnswerIsListed(Cached(cached, 0), given);
  }

  // ---------------------------------------------------------------- the code

  lemma OneMoreCopy(i: nat, n: nat)
    ensures Copies(i, n + 1) == Copies(i, n) + [i]
  {
  }

  lemma ScheduleOneMore(given: seq<Instance>, n: nat)
    requires n < |given|
    ensures Schedule(given[..n + 1]) == Schedule(given[..n]) + Copies(n, Weight(given[n]))
  {
    assert given[..n + 1][..n] == given[..n];
  }

  class Wrr {
    var instances: seq<Instance>
    var weights: seq<nat>
    var current: int

    function Value(): Balancer
      reads this
    {
      Balancer(instances, weights, current)
    }

    constructor ()
      ensures Value() == Balancer([], [], 0) && Valid(Value())
    {
      instances, weights, current := [], [], 0;
    }

    method IsSameInstances(given: seq<Instance>) returns (same: bool)
      ensures same == Same(instances, given)
    {
      if |given| != |instances| { return false; }
      for i := 0 to |given|
        invariant forall k :: 0 <= k < i ==> given[k].id == instances[k].id && given[k].weight == instances[k].weight
      {
        if given[i].id != instances[i].id { return false; }
        if given[i].weight != instances[i].weight { return false; }
      }
      return true;
    }

    method Rebuild(given: seq<Instance>)
      modifies this
      ensures Value() == Balancer(given, Schedule(given), -1)
    {
      instances, weights := given, [];
      for i := 0 to |given|
        invariant weights == Schedule(given[..i]) && instances == given
      {
        var weight := given[i].weight;
        if weight <= 0 { weight := 100; }
        ghost var before := weights;
        for j := 0 to weight
          invariant weights == before + Copies(i, j) && instances == given
        {
          weights := weights + [i];
          OneMoreCopy(i, j);
        }
        ScheduleOneMore(given, i);
      }
      assert given[..|given|] == given;
      current := -1;
    }

    /** Pick; None is ErrNoInstances. The schedule is never empty after a rebuild. */
    method Pick(given: seq<Instance>) returns (r: Option<Instance>)
      requires Valid(Value())
      modifies this
      ensures Valid(Value())
      ensures given == [] ==> r.None? && Value() == old(Value())
      ensures given != [] ==> Value() == Next(old(Value()), given)
      ensures given != [] ==> 0 <= current < |weights| && weights[current] < |instances| == |given|
      ensures given != [] ==> r == Some(instances[weights[current]]) && r.value == Answer(old(Value()), given)
      ensures given != [] && !Same(old(instances), given) ==> r == Some(given[0])
      ensures given != [] ==> r.value.id == given[weights[current]].id
      ensures given != [] ==> r.value.weight == given[weights[current]].weight
    {
      if given == [] { return None; }
      var same := IsSameInstances(given);
      if !same { Rebuild(given); }
      NextIndex(current, |weights|);
      current := (current + 1) % |weights|;
      NextIsValid(old(Value()), given);
      if !same { FirstAnswer(old(Value()), given); }
      ScheduleNames(instances);
      r := Some(instances[weights[current]]);
    }
  }
}
