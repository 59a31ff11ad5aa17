/** Consistent-hash picks that overlap: a pick refreshes the cached ring under the write lock, lets go of it, and looks
    its key up under the read lock, so other picks may refresh in between. */
module OverlappingPicks {
  import opened ConsistentHash
  import opened Instances
  import opened Wrappers

  datatype Phase = Asked | Refreshed | Answered(from: seq<Instance>)

  /** `cached` is the list the ring was built from; each pick stands at its phase. */
  datatype State = State(cached: seq<Instance>, phases: seq<Phase>)

  datatype Step = Refresh(i: nat) | LookUp(i: nat)

  /** Pick i works on lists[i]; a pick from an empty list fails before its first section. */
  predicate Can(lists: seq<seq<Instance>>, s: State, step: Step) {
    && step.i < |lists| && step.i < |s.phases| && lists[step.i] != []
    && match step
       case Refresh(i) => s.phases[i].Asked?
       case LookUp(i) => s.phases[i].Refreshed?
  }

  function Do(lists: seq<seq<Instance>>, s: State, step: Step): State
    requires Can(lists, s, step)
  {
    match step
    case Refresh(i) => State(Consulted(s.cached, lists[i]), s.phases[i := Refreshed])
    case LookUp(i) => s.(phases := s.phases[i := Answered(s.cached)])
  }

  function After(lists: seq<seq<Instance>>, s: State, steps: seq<Step>): Option<State>
    decreases |steps|
  {
    if steps == [] then Some(s)
    else
      match After(lists, s, steps[..|steps| - 1])
      case None => None
      case Some(m) =>
        if Can(lists, m, steps[|steps| - 1]) then Some(Do(lists, m, steps[|steps| - 1])) else None
  }

  function Start(lists: seq<seq<Instance>>, cached: seq<Instance>): State {
    State(cached, seq(|lists|, _ => Asked))
  }

  /** In some interleaving pick i looks its key up in the ring of `from`. */
  ghost predicate CanAnswerFrom(lists: seq<seq<Instance>>, cached: seq<Instance>, i: nat, from: seq<Instance>) {
    exists steps, t :: AnswersFrom(lists, cached, i, from, steps, t)
  }

  ghost predicate AnswersFrom(lists: seq<seq<Instance>>, cached: seq<Instance>, i: nat, from: seq<Instance>,
                              steps: seq<Step>, t: State) {
    After(lists, Start(lists, cached), steps) == Some(t) && i < |t.phases| && t.phases[i] == Answered(from)
  }

  lemma OneMore(lists: seq<seq<Instance>>, s: State, steps: seq<Step>, m: State, step: Step) returns (more: seq<Step>)
    requires After(lists, s, steps) == Some(m) && Can(lists, m, step)
    ensures After(lists, s, more) == Some(Do(lists, m, step))
  {
    more := steps + [step];
    assert more[..|more| - 1] == steps;
  }

  // ---------------------------------------------------------------- what every step keeps

  /** Once some pick has refreshed there is a ring, and whoever has answered had one. */
  ghost predicate RingExists(lists: seq<seq<Instance>>, s: State) {
    && |s.phases| == |lists|
    && forall i :: 0 <= i < |s.phases| ==>
      match s.phases[i]
      case Asked => true
      case Refreshed => s.cached != []
      case Answered(from) => s.cached != [] && from != []
  }

  lemma {:induction false} RunKeepsRing(lists: seq<seq<Instance>>, cached: seq<Instance>, steps: seq<Step>, t: State)
    requires After(lists, Start(lists, cached), steps) == Some(t)
    ensures RingExists(lists, t)
    decreases |steps|
  {
    if steps != [] {
      RunKeepsRing(lists, cached, steps[..|steps| - 1], After(lists, Start(lists, cached), steps[..|steps| - 1]).value);
    }
  }

  lemma AnswersFromSomething(lists: seq<seq<Instance>>, cached: seq<Instance>, i: nat, from: seq<Instance>)
    requires CanAnswerFrom(lists, cached, i, from)
    ensures from != []
  {
    var steps, t :| AnswersFrom(lists, cached, i, from, steps, t);
    RunKeepsRing(lists, cached, steps, t);
  }

  // ---------------------------------------------------------------- answers from the pick's own list

  /** In every interleaving, for every hash and key, pick i answers with one of the instances given to it. */
  ghost predicate AlwaysAnswersFromGiven(v: nat, lists: seq<seq<Instance>>, cached: seq<Instance>, i: nat)
    requires v > 0 && i < |lists|
  {
    forall from, hash: Hash, q ::
      CanAnswerFrom(lists, cached, i, from) && from != [] ==> Owner(hash, v, from, q) in lists[i]
  }

  /** Every instance of the list that can own a key is one of the given. */
  ghost predicate OwnersGiven(from: seq<Instance>, given: seq<Instance>) {
    forall k :: LastOfItsId(from, k) ==> from[k] in given
  }

  /** Over every interleaving: a pick always answers from its own list exactly when every list whose ring it may find at
      its lookup has all its owners in that list. */
  lemma AlwaysFromGivenIff(v: nat, lists: seq<seq<Instance>>, cached: seq<Instance>, i: nat)
    requires v > 0 && i < |lists|
    ensures AlwaysAnswersFromGiven(v, lists, cached, i)
       <==> forall from :: CanAnswerFrom(lists, cached, i, from) ==> OwnersGiven(from, lists[i])
  {
    if AlwaysAnswersFromGiven(v, lists, cached, i) {
      forall from, k | CanAnswerFrom(lists, cached, i, from) && LastOfItsId(from, k) ensures from[k] in lists[i] {
        EveryLastOwns(v, from, k);
      }
    }
    if forall from :: CanAnswerFrom(lists, cached, i, from) ==> OwnersGiven(from, lists[i]) {
      forall from, hash: Hash, q | CanAnswerFrom(lists, cached, i, from) && from != []
        ensures Owner(hash, v, from, q) in lists[i] {
        var k := OwnerIsLast(hash, v, from, q);
      }
    }
  }

  // ---------------------------------------------------------------- which rings a lookup may find

  ghost predicate AllDistinct(lists: seq<seq<Instance>>, cached: seq<Instance>) {
    DistinctIds(cached) && forall j :: 0 <= j < |lists| ==> DistinctIds(lists[j])
  }

  /** Pick j has a list, and its IDs are not those of `ids`. */
  predicate Differs(lists: seq<seq<Instance>>, j: nat, ids: set<string>) {
    j < |lists| && lists[j] != [] && Ids(lists[j]) != ids
  }

  /** Some pick replaces the ring that was there before. */
  ghost predicate Replaced(lists: seq<seq<Instance>>, cached: seq<Instance>) {
    cached == [] || exists j: nat :: Differs(lists, j, Ids(cached))
  }

  /** The ring that was there before, if the pick may reuse it; or that of any pick, if the old one is ever replaced. */
  ghost predicate MayFind(lists: seq<seq<Instance>>, cached: seq<Instance>, i: nat, from: seq<Instance>)
    requires i < |lists|
  {
    || (from == cached && cached != [] && Ids(cached) == Ids(lists[i]))
    || (Replaced(lists, cached) && from != [] && from in lists)
  }

  /** What is cached is the first list, reused by everybody so far, or the list of one of the picks. */
  ghost predicate Traced(lists: seq<seq<Instance>>, cached: seq<Instance>, s: State) {
    && |s.phases| == |lists|
    && (|| (s.cached == cached
            && forall j :: 0 <= j < |lists| && s.phases[j].Refreshed? ==> cached != [] && Ids(cached) == Ids(lists[j]))
        || (Replaced(lists, cached) && s.cached != [] && s.cached in lists))
    && DistinctIds(s.cached)
    && forall j :: 0 <= j < |lists| && s.phases[j].Answered? ==> MayFind(lists, cached, j, s.phases[j].from)
  }

  lemma StepKeepsTrace(lists: seq<seq<Instance>>, cached: seq<Instance>, s: State, step: Step)
    requires AllDistinct(lists, cached) && Traced(lists, cached, s) && Can(lists, s, step)
    ensures Traced(lists, cached, Do(lists, s, step))
  {
    if step.Refresh? {
      if Reuses(s.cached, lists[step.i]) {
        ReuseIsSound(s.cached, lists[step.i]);
      } else {
        assert lists[step.i] in lists;
        if s.cached == cached && cached != [] {
          ReuseIffSameIds(cached, lists[step.i]);
          assert Differs(lists, step.i, Ids(cached));
        }
      }
    }
  }

  lemma {:induction false} RunIsTraced(lists: seq<seq<Instance>>, cached: seq<Instance>, steps: seq<Step>, t: State)
    requires AllDistinct(lists, cached) && After(lists, Start(lists, cached), steps) == Some(t)
    ensures Traced(lists, cached, t)
    decreases |steps|
  {
    if steps != [] {
      var m := After(lists, Start(lists, cached), steps[..|steps| - 1]).value;
      RunIsTraced(lists, cached, steps[..|steps| - 1], m);
      StepKeepsTrace(lists, cached, m, steps[|steps| - 1]);
    }
  }

  // ---------------------------------------------------------------- the runs that find them

  /** A run of refreshes, each pick at most once, and the ring it leaves. */
  ghost predicate Leaves(lists: seq<seq<Instance>>, cached: seq<Instance>, order: seq<nat>, steps: seq<Step>,
                         m: State) {
    && After(lists, Start(lists, cached), steps) == Some(m) && |m.phases| == |lists|
    && (forall j :: 0 <= j < |lists| ==> m.phases[j] == if j in order then Refreshed else Asked)
  }

  lemma NobodyYet(lists: seq<seq<Instance>>, cached: seq<Instance>)
    ensures Leaves(lists, cached, [], [], Start(lists, cached))
  {
  }

  lemma RefreshNext(lists: seq<seq<Instance>>, cached: seq<Instance>, order: seq<nat>, steps: seq<Step>, m: State,
                    j: nat)
    returns (more: seq<Step>, n: State)
    requires Leaves(lists, cached, order, steps, m) && j < |lists| && j !in order && lists[j] != []
    ensures Leaves(lists, cached, order + [j], more, n) && n.cached == Consulted(m.cached, lists[j])
  {
    more := OneMore(lists, Start(lists, cached), steps, m, Refresh(j));
    n := Do(lists, m, Refresh(j));
  }

  lemma LooksUp(lists: seq<seq<Instance>>, cached: seq<Instance>, order: seq<nat>, steps: seq<Step>, m: State, i: nat)
    requires Leaves(lists, cached, order, steps, m) && i < |lists| && i in order && lists[i] != []
    ensures CanAnswerFrom(lists, cached, i, m.cached)
  {
    var more := OneMore(lists, Start(lists, cached), steps, m, LookUp(i));
    assert AnswersFrom(lists, cached, i, m.cached, more, Do(lists, m, LookUp(i)));
  }

  /** Lists of different IDs are never taken for each other. */
  lemma NotReused(a: seq<Instance>, b: seq<Instance>)
    requires DistinctIds(a) && (a == [] || Ids(a) != Ids(b))
    ensures !Reuses(a, b)
  {
    if Reuses(a, b) { ReuseIsSound(a, b); }
  }

  lemma IsReused(a: seq<Instance>, b: seq<Instance>)
    requires a != [] && DistinctIds(a) && DistinctIds(b) && Ids(a) == Ids(b)
    ensures Reuses(a, b)
  {
    ReuseIffSameIds(a, b);
  }

  lemma ConsultedIds(a: seq<Instance>, b: seq<Instance>)
    requires DistinctIds(a) && DistinctIds(b) && b != []
    ensures Ids(Consulted(a, b)) == Ids(b) && DistinctIds(Consulted(a, b)) && Consulted(a, b) != []
  {
    if Reuses(a, b) { ReuseIsSound(a, b); }
  }

  /** The pick refreshes first, and then a pick of other IDs does. */
  lemma OvertakenBy(lists: seq<seq<Instance>>, cached: seq<Instance>, i: nat, j: nat)
    requires AllDistinct(lists, cached) && i < |lists| && lists[i] != [] && Differs(lists, j, Ids(lists[i]))
    ensures CanAnswerFrom(lists, cached, i, lists[j])
  {
    NobodyYet(lists, cached);
    var steps, m := RefreshNext(lists, cached, [], [], Start(lists, cached), i);
    ConsultedIds(cached, lists[i]);
    NotReused(m.cached, lists[j]);
    steps, m := RefreshNext(lists, cached, [] + [i], steps, m, j);
    LooksUp(lists, cached, [] + [i] + [j], steps, m, i);
  }

  /** A pick of the same IDs refreshes first, from a list it does not reuse, and this pick reuses its ring. */
  lemma ReusedFrom(lists: seq<seq<Instance>>, cached: seq<Instance>, order: seq<nat>, steps: seq<Step>, m: State,
                   i: nat, j: nat)
    requires AllDistinct(lists, cached) && Leaves(lists, cached, order, steps, m) && DistinctIds(m.cached)
    requires i < |lists| && j < |lists| && i !in order && j !in order
    requires lists[i] != [] && lists[j] != [] && Ids(lists[j]) == Ids(lists[i])
    requires m.cached == [] || Ids(m.cached) != Ids(lists[i])
    ensures CanAnswerFrom(lists, cached, i, lists[j])
  {
    NotReused(m.cached, lists[j]);
    var more, n := RefreshNext(lists, cached, order, steps, m, j);
    if i != j {
      IsReused(lists[j], lists[i]);
      more, n := RefreshNext(lists, cached, order + [j], more, n, i);
      LooksUp(lists, cached, order + [j] + [i], more, n, i);
    } else {
      LooksUp(lists, cached, order + [j], more, n, i);
    }
  }

  lemma FindsOwnIds(lists: seq<seq<Instance>>, cached: seq<Instance>, i: nat, j: nat)
    requires AllDistinct(lists, cached) && Replaced(lists, cached) && i < |lists| && j < |lists|
    requires lists[i] != [] && lists[j] != [] && Ids(lists[j]) == Ids(lists[i])
    ensures CanAnswerFrom(lists, cached, i, lists[j])
  {
    NobodyYet(lists, cached);
    if cached == [] || Ids(cached) != Ids(lists[i]) {
      ReusedFrom(lists, cached, [], [], Start(lists, cached), i, j);
    } else {
      var k: nat :| Differs(lists, k, Ids(cached));
      var steps, m := RefreshNext(lists, cached, [], [], Start(lists, cached), k);
      ConsultedIds(cached, lists[k]);
      ReusedFrom(lists, cached, [] + [k], steps, m, i, j);
    }
  }

  lemma FindsTheOldRing(lists: seq<seq<Instance>>, cached: seq<Instance>, i: nat)
    requires AllDistinct(lists, cached) && i < |lists| && lists[i] != [] && cached != [] && Ids(cached) == Ids(lists[i])
    ensures CanAnswerFrom(lists, cached, i, cached)
  {
    NobodyYet(lists, cached);
    var steps, m := RefreshNext(lists, cached, [], [], Start(lists, cached), i);
    IsReused(cached, lists[i]);
    LooksUp(lists, cached, [] + [i], steps, m, i);
  }

  /** For duplicate-free lists, exactly which rings a pick may find at its lookup. */
  lemma MayFindIff(lists: seq<seq<Instance>>, cached: seq<Instance>, i: nat, from: seq<Instance>)
    requires AllDistinct(lists, cached) && i < |lists| && lists[i] != []
    ensures CanAnswerFrom(lists, cached, i, from) <==> MayFind(lists, cached, i, from)
  {
    if CanAnswerFrom(lists, cached, i, from) {
      var steps, t :| AnswersFrom(lists, cached, i, from, steps, t);
      RunIsTraced(lists, cached, steps, t);
    }
    if from == cached && cached != [] && Ids(cached) == Ids(lists[i]) {
      FindsTheOldRing(lists, cached, i);
    } else if Replaced(lists, cached) && from != [] && from in lists {
      var j :| 0 <= j < |lists| && lists[j] == from;
      if Ids(lists[j]) == Ids(lists[i]) {
        FindsOwnIds(lists, cached, i, j);
      } else {
        OvertakenBy(lists, cached, i, j);
      }
    }
  }

  lemma DistinctOwners(from: seq<Instance>, given: seq<Instance>)
    requires DistinctIds(from)
    ensures OwnersGiven(from, given) <==> forall x :: x in from ==> x in given
  {
    forall k | 0 <= k < |from| ensures LastOfItsId(from, k) { }
    if OwnersGiven(from, given) {
      forall x | x in from ensures x in given {
        var k :| 0 <= k < |from| && from[k] == x;
        assert LastOfItsId(from, k);
      }
    }
  }

  /** For duplicate-free lists a caller can tell from the lists alone: a pick always answers from its own list exactly
      when every instance is in it of the list cached before, if the pick may reuse that, and of every overlapping
      pick's list, if the list cached before is ever replaced. */
  lemma AlwaysFromGivenIffListed(v: nat, lists: seq<seq<Instance>>, cached: seq<Instance>, i: nat)
    requires v > 0 && AllDistinct(lists, cached) && i < |lists| && lists[i] != []
    ensures AlwaysAnswersFromGiven(v, lists, cached, i)
       <==> forall from, x :: MayFind(lists, cached, i, from) && x in from ==> x in lists[i]
  {
    AlwaysFromGivenIff(v, lists, cached, i);
    forall from
      ensures CanAnswerFrom(lists, cached, i, from) <==> MayFind(lists, cached, i, from)
      ensures MayFind(lists, cached, i, from) ==>
        (OwnersGiven(from, lists[i]) <==> forall x :: x in from ==> x in lists[i]) {
      MayFindIff(lists, cached, i, from);
      if MayFind(lists, cached, i, from) { DistinctOwners(from, lists[i]); }
    }
  }

  /** Two picks from different lists on an empty balancer: the first answers with the other's instance, although without
      the overlap it would answer from its own list. */
  lemma OvertakenPick(v: nat, a: Instance, b: Instance, hash: Hash, q: nat)
    requires v > 0 && a.id != b.id
    ensures AnswersFromGiven(v, [], [a])
    ensures CanAnswerFrom([[a], [b]], [], 0, [b]) && Owner(hash, v, [b], q) == b && b !in [a]
  {
    AnswersFromGivenIff(v, [], [a]);
    var lists := [[a], [b]];
    assert [a][0].id in Ids(lists[0]) && a.id !in Ids(lists[1]);
    OvertakenBy(lists, [], 0, 1);
    var k := OwnerIsLast(hash, v, [b], q);
  }

  // ---------------------------------------------------------------- the same ID whatever overlaps

  const CHARS: nat := 0x11_0000

  /** A number for every string, never 0. */
  function Code(s: string): (n: nat)
    ensures n > 0
  {
    if s == [] then 1 else CHARS * Code(s[..|s| - 1]) + s[|s| - 1] as int
  }

  lemma {:induction false} CodeTells(s: string, t: string)
    requires Code(s) == Code(t)
    ensures s == t
    decreases |s| + |t|
  {
    if s != [] && t != [] {
      SplitCode(Code(s[..|s| - 1]), s[|s| - 1] as int, Code(t[..|t| - 1]), t[|t| - 1] as int);
      CodeTells(s[..|s| - 1], t[..|t| - 1]);
      assert s == s[..|s| - 1] + [s[|s| - 1]] && t == t[..|t| - 1] + [t[|t| - 1]];
    }
  }

  lemma SplitCode(m: nat, c: int, n: nat, d: int)
    requires 0 <= c < CHARS && 0 <= d < CHARS && CHARS * m + c == CHARS * n + d
    ensures m == n && c == d
  {
  }

  /** A collision-free hash that puts one ID's first virtual node at 0. */
  function Pointed(id: string): Hash {
    key => if key == NodeKey(id, 0) then 0 else Code(key)
  }

  lemma PointedTells(id: string, s: string, t: string)
    requires Pointed(id)(s) == Pointed(id)(t)
    ensures s == t
  {
    if s != NodeKey(id, 0) && t != NodeKey(id, 0) { CodeTells(s, t); }
  }

  lemma SharedPoint(hash: Hash, v: nat, a: string, b: string, p: nat) returns (i: nat, j: nat)
    requires p in VirtualNodes(hash, a, v) && p in VirtualNodes(hash, b, v)
    ensures hash(NodeKey(a, i)) == p == hash(NodeKey(b, j))
  {
    i :| 0 <= i < |VirtualNodes(hash, a, v)| && VirtualNodes(hash, a, v)[i] == p;
    j :| 0 <= j < |VirtualNodes(hash, b, v)| && VirtualNodes(hash, b, v)[j] == p;
    VirtualNodeAt(hash, a, v, i);
    VirtualNodeAt(hash, b, v, j);
  }

  lemma PointedIsCollisionFree(id: string, v: nat, ids: set<string>)
    ensures NoCollisions(Pointed(id), v, ids)
  {
    var hash := Pointed(id);
    forall a, b, p | a in ids && b in ids && p in VirtualNodes(hash, a, v) && p in VirtualNodes(hash, b, v)
      ensures a == b {
      var i, j := SharedPoint(hash, v, a, b, p);
      PointedTells(id, NodeKey(a, i), NodeKey(b, j));
      NodeKeysTellIds(a, i, b, j);
    }
  }

  /** Under that hash key 0 belongs to the ID if the list has it. */
  lemma PointedOwner(v: nat, insts: seq<Instance>, id: string)
    requires v > 0 && insts != []
    ensures Owner(Pointed(id), v, insts, 0).id == id <==> id in Ids(insts)
  {
    var hash := Pointed(id);
    var i := OwnerIsLast(hash, v, insts, 0);
    assert insts[i].id in Ids(insts);
    if id in Ids(insts) {
      PointsExist(hash, v, insts);
      VirtualNodeAt(hash, id, v, 0);
      assert 0 in VirtualNodes(hash, id, v);
      NodeHasPoint(hash, v, insts, 0, id);
      PointsAreNodes(hash, v, insts, 0);
      LandingIsUnique(Points(hash, v, insts), 0, 0);
      PointedIsCollisionFree(id, v, Ids(insts));
    }
  }

  function AllIds(lists: seq<seq<Instance>>): set<string> {
    set j, k | 0 <= j < |lists| && 0 <= k < |lists[j]| :: lists[j][k].id
  }

  /** In every interleaving, for every collision-free hash and every key, pick i answers with the ID it would answer
      with alone on a fresh balancer. */
  ghost predicate OverlapIsInvisible(v: nat, lists: seq<seq<Instance>>, cached: seq<Instance>, i: nat)
    requires v > 0 && i < |lists| && lists[i] != []
  {
    forall from, hash: Hash, q ::
      CanAnswerFrom(lists, cached, i, from) && from != [] && NoCollisions(hash, v, AllIds(lists)) ==>
        Owner(hash, v, from, q).id == Owner(hash, v, lists[i], q).id
  }

  lemma ListIdsAreAmongAll(lists: seq<seq<Instance>>, i: nat)
    requires i < |lists|
    ensures Ids(lists[i]) <= AllIds(lists)
  {
    forall id | id in Ids(lists[i]) ensures id in AllIds(lists) {
      var k :| 0 <= k < |lists[i]| && lists[i][k].id == id;
    }
  }

  lemma SameIdsAnswerTheSame(v: nat, lists: seq<seq<Instance>>, cached: seq<Instance>, i: nat, from: seq<Instance>,
                             hash: Hash, q: nat)
    requires v > 0 && AllDistinct(lists, cached) && i < |lists| && lists[i] != []
    requires forall j: nat :: !Differs(lists, j, Ids(lists[i]))
    requires CanAnswerFrom(lists, cached, i, from) && from != [] && NoCollisions(hash, v, AllIds(lists))
    ensures Owner(hash, v, from, q).id == Owner(hash, v, lists[i], q).id
  {
    MayFindIff(lists, cached, i, from);
    assert Ids(from) == Ids(lists[i]) by {
      if from in lists {
        var j :| 0 <= j < |lists| && lists[j] == from;
        assert !Differs(lists, j, Ids(lists[i]));
      }
    }
    ListIdsAreAmongAll(lists, i);
    OrderDoesNotMatter(hash, v, from, lists[i], q);
  }

  lemma OtherIdsShow(v: nat, lists: seq<seq<Instance>>, cached: seq<Instance>, i: nat, j: nat)
    requires v > 0 && AllDistinct(lists, cached) && i < |lists| && lists[i] != [] && Differs(lists, j, Ids(lists[i]))
    ensures !OverlapIsInvisible(v, lists, cached, i)
  {
    OvertakenBy(lists, cached, i, j);
    var id := DifferentId(Ids(lists[i]), Ids(lists[j]));
    PointedIsCollisionFree(id, v, AllIds(lists));
    PointedOwner(v, lists[i], id);
    PointedOwner(v, lists[j], id);
  }

  lemma DifferentId(a: set<string>, b: set<string>) returns (id: string)
    requires a != b
    ensures id in a <==> id !in b
  {
    if x :| x in a && x !in b {
      id := x;
    } else {
      assert a < b;
      id :| id in b && id !in a;
    }
  }

  /** For duplicate-free lists: overlapping picks never change the answered ID exactly when they all have the same set
      of IDs. */
  lemma OverlapIsInvisibleIff(v: nat, lists: seq<seq<Instance>>, cached: seq<Instance>, i: nat)
    requires v > 0 && AllDistinct(lists, cached) && i < |lists| && lists[i] != []
    ensures OverlapIsInvisible(v, lists, cached, i) <==> forall j: nat :: !Differs(lists, j, Ids(lists[i]))
  {
    if forall j: nat :: !Differs(lists, j, Ids(lists[i])) {
      forall from, hash: Hash, q
        | CanAnswerFrom(lists, cached, i, from) && from != [] && NoCollisions(hash, v, AllIds(lists))
        ensures Owner(hash, v, from, q).id == Owner(hash, v, lists[i], q).id {
        SameIdsAnswerTheSame(v, lists, cached, i, from, hash, q);
      }
    } else {
      var j: nat :| Differs(lists, j, Ids(lists[i]));
      OtherIdsShow(v, lists, cached, i, j);
    }
  }
}
