/** Consistent hashing over a ring of virtual nodes, with the ring cached between picks. The hash is any function. */
module ConsistentHash {
  import opened Arithmetic
  import opened Instances
  import opened Wrappers

  type Hash = string -> nat

  // ---------------------------------------------------------------- who owns a key, from the instance list alone

  function Digits(n: nat): string {
    (if n < 10 then "" else Digits(n / 10)) + ["0123456789"[n % 10]]
  }

  /** fmt.Sprintf("%s-%d", id, i) */
  function NodeKey(id: string, i: nat): string {
    id + "-" + Digits(i)
  }

  /** The hashes of an instance's virtual nodes. */
  function VirtualNodes(hash: Hash, id: string, n: nat): (s: seq<nat>)
    ensures |s| == n
  {
    if n == 0 then [] else VirtualNodes(hash, id, n - 1) + [hash(NodeKey(id, n - 1))]
  }

  lemma {:induction false} VirtualNodeAt(hash: Hash, id: string, n: nat, i: nat)
    requires i < n
    ensures VirtualNodes(hash, id, n)[i] == hash(NodeKey(id, i))
  {
    if i < n - 1 { VirtualNodeAt(hash, id, n - 1, i); }
  }

  function Points(hash: Hash, v: nat, insts: seq<Instance>): seq<nat> {
    if insts == [] then []
    else Points(hash, v, insts[..|insts| - 1]) + VirtualNodes(hash, insts[|insts| - 1].id, v)
  }

  /** The instance at a point of the ring: where several collide, the last of the list. */
  function NodeAt(hash: Hash, v: nat, insts: seq<Instance>, p: nat): Option<Instance> {
    if insts == [] then None
    else if p in VirtualNodes(hash, insts[|insts| - 1].id, v) then Some(insts[|insts| - 1])
    else NodeAt(hash, v, insts[..|insts| - 1], p)
  }

  /** The least point at or after lo. */
  function Least(points: seq<nat>, lo: nat): (r: Option<nat>)
    ensures r.None? ==> forall p :: p in points ==> p < lo
    ensures r.Some? ==> r.value in points && lo <= r.value && forall p :: p in points && lo <= p ==> r.value <= p
  {
    if points == [] then None
    else
      var front, last := points[..|points| - 1], points[|points| - 1];
      assert points == front + [last];
      var r := Least(front, lo);
      if last >= lo && (r.None? || last < r.value) then Some(last) else r
  }

  /** p is where a key hashed to q lands: the next point clockwise, wrapping to the smallest. */
  ghost predicate Lands(points: seq<nat>, q: nat, p: nat) {
    && p in points
    && (if exists x :: x in points && q <= x
        then q <= p && forall x :: x in points && q <= x ==> p <= x
        else forall x :: x in points ==> p <= x)
  }

  function Landing(points: seq<nat>, q: nat): (p: nat)
    requires points != []
    ensures Lands(points, q, p)
  {
    match Least(points, q)
    case Some(p) => p
    case None => assert points[0] in points; Least(points, 0).value
  }

  lemma LandingIsUnique(points: seq<nat>, q: nat, p: nat)
    requires points != [] && Lands(points, q, p)
    ensures p == Landing(points, q)
  {
  }

  lemma {:induction false} PointsAreNodes(hash: Hash, v: nat, insts: seq<Instance>, p: nat)
    ensures p in Points(hash, v, insts) <==> NodeAt(hash, v, insts, p).Some?
  {
    if insts != [] { PointsAreNodes(hash, v, insts[..|insts| - 1], p); }
  }

  lemma PointsExist(hash: Hash, v: nat, insts: seq<Instance>)
    requires insts != [] && v > 0
    ensures Points(hash, v, insts) != []
  {
  }

  /** The instance that serves a key hashed to q. */
  function Owner(hash: Hash, v: nat, insts: seq<Instance>, q: nat): Instance
    requires insts != [] && v > 0
  {
    PointsExist(hash, v, insts);
    var p := Landing(Points(hash, v, insts), q);
    PointsAreNodes(hash, v, insts, p);
    NodeAt(hash, v, insts, p).value
  }

  // ---------------------------------------------------------------- minimal disruption

  lemma LastNode(hash: Hash, v: nat, a: seq<Instance>, b: seq<Instance>, p: nat)
    requires b != []
    ensures NodeAt(hash, v, a + b, p) == if p in VirtualNodes(hash, b[|b| - 1].id, v) then Some(b[|b| - 1])
                                         else NodeAt(hash, v, a + b[..|b| - 1], p)
  {
    assert (a + b)[..|a + b| - 1] == a + b[..|b| - 1];
  }

  lemma {:induction false} NodeAfterInsert(hash: Hash, v: nat, a: seq<Instance>, x: Instance, b: seq<Instance>, p: nat)
    ensures NodeAt(hash, v, a + [x] + b, p) == NodeAt(hash, v, a + b, p)
         || (NodeAt(hash, v, a + [x] + b, p) == Some(x))
    ensures NodeAt(hash, v, a + b, p).Some? ==> NodeAt(hash, v, a + [x] + b, p).Some?
  {
    if b == [] {
      assert a + b == a && a + [x] + b == a + [x] && (a + [x])[..|a|] == a;
    } else {
      NodeAfterInsert(hash, v, a, x, b[..|b| - 1], p);
      LastNode(hash, v, a, b, p);
      LastNode(hash, v, a + [x], b, p);
    }
  }

  /** Inserting an instance anywhere in the list leaves the owner of every key unchanged or moves the key to the
      new instance, whatever the hash, collisions included. */
  lemma MinimalDisruption(hash: Hash, v: nat, a: seq<Instance>, x: Instance, b: seq<Instance>, q: nat)
    requires a + b != [] && v > 0
    ensures Owner(hash, v, a + [x] + b, q) == Owner(hash, v, a + b, q) || Owner(hash, v, a + [x] + b, q) == x
  {
    PointsExist(hash, v, a + b);
    PointsExist(hash, v, a + [x] + b);
    var old', new' := Points(hash, v, a + b), Points(hash, v, a + [x] + b);
    forall p ensures p in old' ==> p in new' {
      PointsAreNodes(hash, v, a + b, p);
      PointsAreNodes(hash, v, a + [x] + b, p);
      NodeAfterInsert(hash, v, a, x, b, p);
    }
    var p := Landing(new', q);
    NodeAfterInsert(hash, v, a, x, b, p);
    PointsAreNodes(hash, v, a + b, p);
    PointsAreNodes(hash, v, a + [x] + b, p);
    if p in old' { LandingIsUnique(old', q, p); }
  }

  // ---------------------------------------------------------------- the owner depends on the set of IDs only

  function Ids(insts: seq<Instance>): set<string> {
    set i | 0 <= i < |insts| :: insts[i].id
  }

  /** No point is shared by instances of different ID. */
  ghost predicate NoCollisions(hash: Hash, v: nat, ids: set<string>) {
    forall a, b, p :: a in ids && b in ids && p in VirtualNodes(hash, a, v) && p in VirtualNodes(hash, b, v) ==> a == b
  }

  lemma IdsOneMore(insts: seq<Instance>, id: string)
    requires insts != []
    ensures id in Ids(insts) <==> id == insts[|insts| - 1].id || id in Ids(insts[..|insts| - 1])
  {
    if id in Ids(insts[..|insts| - 1]) {
      var i :| 0 <= i < |insts| - 1 && insts[..|insts| - 1][i].id == id;
      assert insts[i].id == id;
    }
  }

  lemma {:induction false} NodeHasPoint(hash: Hash, v: nat, insts: seq<Instance>, p: nat, id: string)
    ensures NodeAt(hash, v, insts, p).Some? ==>
      NodeAt(hash, v, insts, p).value.id in Ids(insts) && p in VirtualNodes(hash, NodeAt(hash, v, insts, p).value.id, v)
    ensures NodeAt(hash, v, insts, p).None? && id in Ids(insts) ==> p !in VirtualNodes(hash, id, v)
  {
    if insts != [] {
      var front := insts[..|insts| - 1];
      NodeHasPoint(hash, v, front, p, id);
      IdsOneMore(insts, id);
      if NodeAt(hash, v, insts, p).Some? { IdsOneMore(insts, NodeAt(hash, v, insts, p).value.id); }
    }
  }

  lemma SameIdsSameNode(hash: Hash, v: nat, a: seq<Instance>, b: seq<Instance>, p: nat)
    requires Ids(a) == Ids(b) && NoCollisions(hash, v, Ids(a))
    ensures NodeAt(hash, v, a, p).Some? <==> NodeAt(hash, v, b, p).Some?
    ensures NodeAt(hash, v, a, p).Some? ==> NodeAt(hash, v, a, p).value.id == NodeAt(hash, v, b, p).value.id
  {
    var x, y := NodeAt(hash, v, a, p), NodeAt(hash, v, b, p);
    NodeHasPoint(hash, v, a, p, if y.Some? then y.value.id else "");
    NodeHasPoint(hash, v, b, p, if x.Some? then x.value.id else "");
  }

  /** Without collisions between distinct instances, the owner's ID depends on the set of IDs and the key, not on
      the order of the list. */
  lemma OrderDoesNotMatter(hash: Hash, v: nat, a: seq<Instance>, b: seq<Instance>, q: nat)
    requires a != [] && b != [] && v > 0 && Ids(a) == Ids(b) && NoCollisions(hash, v, Ids(a))
    ensures Owner(hash, v, a, q).id == Owner(hash, v, b, q).id
  {
    PointsExist(hash, v, a);
    PointsExist(hash, v, b);
    var pa, pb := Points(hash, v, a), Points(hash, v, b);
    forall p: nat ensures p in pa <==> p in pb {
      PointsAreNodes(hash, v, a, p);
      PointsAreNodes(hash, v, b, p);
      SameIdsSameNode(hash, v, a, b, p);
    }
    var p := Landing(pa, q);
    LandingIsUnique(pb, q, p);
    PointsAreNodes(hash, v, a, p);
    SameIdsSameNode(hash, v, a, b, p);
  }

  // ---------------------------------------------------------------- when the cached ring may be reused

  /** isSameInstances. */
  predicate Reuses(cached: seq<Instance>, given: seq<Instance>) {
    cached != [] && |given| == |cached| && forall i :: 0 <= i < |cached| ==> cached[i].id in Ids(given)
  }

  predicate DistinctIds(insts: seq<Instance>) {
    forall i, j :: 0 <= i < j < |insts| ==> insts[i].id != insts[j].id
  }

  lemma {:induction false} IdCount(insts: seq<Instance>)
    ensures |Ids(insts)| <= |insts|
    ensures DistinctIds(insts) ==> |Ids(insts)| == |insts|
  {
    if insts != [] {
      var front, last := insts[..|insts| - 1], insts[|insts| - 1];
      IdCount(front);
      assert Ids(insts) == Ids(front) + {last.id} by {
        assert forall i :: 0 <= i < |front| ==> front[i] == insts[i];
      }
    }
  }

  lemma SubsetOfEqualSize(a: set<string>, b: set<string>)
    requires a <= b && |b| <= |a|
    ensures a == b
  {
    assert b == a + (b - a);
    assert |b| == |a| + |b - a|;
  }

  /** For duplicate-free lists the ring is reused exactly when the ID sets are equal. */
  lemma ReuseIffSameIds(cached: seq<Instance>, given: seq<Instance>)
    requires cached != [] && DistinctIds(cached) && DistinctIds(given)
    ensures Reuses(cached, given) <==> Ids(cached) == Ids(given)
  {
    IdCount(cached);
    IdCount(given);
    if Reuses(cached, given) { SubsetOfEqualSize(Ids(cached), Ids(given)); }
  }

  lemma ReuseIsSound(cached: seq<Instance>, given: seq<Instance>)
    requires DistinctIds(cached) && Reuses(cached, given)
    ensures Ids(cached) == Ids(given)
  {
    IdCount(cached);
    IdCount(given);
    SubsetOfEqualSize(Ids(cached), Ids(given));
  }

  lemma {:induction false} FreshId(insts: seq<Instance>) returns (id: string)
    ensures forall i :: 0 <= i < |insts| ==> |insts[i].id| < |id|
  {
    if insts == [] {
      id := "";
    } else {
      var shorter := FreshId(insts[..|insts| - 1]);
      id := shorter + insts[|insts| - 1].id + "x";
    }
  }

  /** The cache check is sound for every list exactly when the cached list has no duplicate IDs: with a duplicate,
      some list of other instances is taken for the cached one. */
  lemma ReuseSoundIffDistinct(cached: seq<Instance>)
    requires cached != []
    ensures (forall given :: Reuses(cached, given) ==> Ids(given) == Ids(cached)) <==> DistinctIds(cached)
  {
    if DistinctIds(cached) {
      forall given | Reuses(cached, given) ensures Ids(given) == Ids(cached) { ReuseIsSound(cached, given); }
    } else {
      var i, j :| 0 <= i < j < |cached| && cached[i].id == cached[j].id;
      var id := FreshId(cached);
      var given := cached[j := Instance(id, 0, "")];
      assert given[j].id in Ids(given);
      forall k | 0 <= k < |cached| ensures cached[k].id in Ids(given) {
        if k == j { assert given[i].id == cached[k].id; } else { assert given[k].id == cached[k].id; }
      }
      assert Reuses(cached, given) && id !in Ids(cached);
    }
  }

  /** What a pick answers, given what is cached: duplicate-free caches and collision-free hashes make the reuse
      invisible. */
  lemma ReuseAnswersTheSame(hash: Hash, v: nat, cached: seq<Instance>, given: seq<Instance>, q: nat)
    requires v > 0 && Reuses(cached, given) && DistinctIds(cached) && NoCollisions(hash, v, Ids(given))
    ensures given != [] && Owner(hash, v, cached, q).id == Owner(hash, v, given, q).id
  {
    ReuseIsSound(cached, given);
    OrderDoesNotMatter(hash, v, cached, given, q);
  }

  /** The list a pick answers from: the cached one when it is reused, the given one otherwise. */
  function Consulted(cached: seq<Instance>, given: seq<Instance>): seq<Instance> {
    if Reuses(cached, given) then cached else given
  }

  /** The cached list after a history of picks; a pick from an empty list fails and changes nothing. */
  function CachedAfter(history: seq<seq<Instance>>): seq<Instance> {
    if history == [] then []
    else
      var cached, given := CachedAfter(history[..|history| - 1]), history[|history| - 1];
      if given == [] then cached else Consulted(cached, given)
  }

  lemma {:induction false} CacheIsDistinct(history: seq<seq<Instance>>)
    requires forall i :: 0 <= i < |history| ==> DistinctIds(history[i])
    ensures DistinctIds(CachedAfter(history))
  {
    if history != [] { CacheIsDistinct(history[..|history| - 1]); }
  }

  /** Earlier picks do not matter: after any history of picks from duplicate-free lists, a pick answers with the
      instance ID that a balancer without a history would answer with. */
  lemma EarlierPicksDoNotMatter(hash: Hash, v: nat, history: seq<seq<Instance>>, given: seq<Instance>, q: nat)
    requires v > 0 && given != [] && NoCollisions(hash, v, Ids(given))
    requires forall i :: 0 <= i < |history| ==> DistinctIds(history[i])
    ensures var answering := Consulted(CachedAfter(history), given);
      answering != [] && Owner(hash, v, answering, q).id == Owner(hash, v, given, q).id
  {
    CacheIsDistinct(history);
    if Reuses(CachedAfter(history), given) { ReuseAnswersTheSame(hash, v, CachedAfter(history), given, q); }
  }

  // ---------------------------------------------------------------- when the answer is one of the given instances

  /** Instance i is the last of the list with its ID. */
  predicate LastOfItsId(insts: seq<Instance>, i: int) {
    0 <= i < |insts| && forall j :: i < j < |insts| ==> insts[j].id != insts[i].id
  }

  /** Where a point's instance stands. */
  lemma {:induction false} NodeIndex(hash: Hash, v: nat, insts: seq<Instance>, p: nat) returns (i: nat)
    requires NodeAt(hash, v, insts, p).Some?
    ensures LastOfItsId(insts, i) && NodeAt(hash, v, insts, p) == Some(insts[i])
    ensures p in VirtualNodes(hash, insts[i].id, v)
  {
    var n := |insts| - 1;
    if p in VirtualNodes(hash, insts[n].id, v) {
      i := n;
    } else {
      i := NodeIndex(hash, v, insts[..n], p);
      assert forall j :: i < j < n ==> insts[..n][j] == insts[j];
    }
  }

  /** The owner of a key is the last instance of its ID. */
  lemma OwnerIsLast(hash: Hash, v: nat, insts: seq<Instance>, q: nat) returns (i: nat)
    requires insts != [] && v > 0
    ensures LastOfItsId(insts, i) && Owner(hash, v, insts, q) == insts[i]
  {
    PointsExist(hash, v, insts);
    var p := Landing(Points(hash, v, insts), q);
    PointsAreNodes(hash, v, insts, p);
    i := NodeIndex(hash, v, insts, p);
  }

  lemma {:induction false} NoDash(n: nat, i: nat)
    requires i < |Digits(n)|
    ensures Digits(n)[i] != '-'
  {
    if n >= 10 && i < |Digits(n)| - 1 { NoDash(n / 10, i); }
  }

  /** The last dash separates the ID from the number. */
  lemma NodeKeysTellIds(id: string, i: nat, id': string, i': nat)
    requires NodeKey(id, i) == NodeKey(id', i')
    ensures id == id'
  {
    var key := NodeKey(id, i);
    assert key[|id|] == '-' && key[|id'|] == '-';
    if |id| < |id'| {
      NoDash(i, |id'| - |id| - 1);
    } else if |id'| < |id| {
      NoDash(i', |id| - |id'| - 1);
    }
    assert id == key[..|id|] && id' == key[..|id'|];
  }

  predicate IsDigit(c: char) {
    '0' <= c <= '9'
  }

  /** The number a string of decimal digits stands for. */
  function Value(s: string): int {
    if s == [] then 0 else 10 * Value(s[..|s| - 1]) + (s[|s| - 1] as int - '0' as int)
  }

  /** Digits is the decimal numeral: digits only, worth n, without a leading zero. */
  lemma {:induction false} DigitsReadBack(n: nat)
    ensures forall c :: c in Digits(n) ==> IsDigit(c)
    ensures Value(Digits(n)) == n && |Digits(n)| >= 1 && (n > 0 ==> Digits(n)[0] != '0')
  {
    if n < 10 {
      assert Digits(n) == ["0123456789"[n]] && Digits(n)[..0] == [];
    } else {
      DigitsReadBack(n / 10);
      assert Digits(n)[..|Digits(n)| - 1] == Digits(n / 10);
    }
  }

  /** A node key is the ID, a dash and the node's number in decimal. */
  lemma NodeKeyReads(id: string, i: nat)
    ensures var key := NodeKey(id, i);
      && |key| >= |id| + 2 && key[..|id|] == id && key[|id|] == '-'
      && Value(key[|id| + 1..]) == i && (forall c :: c in key[|id| + 1..] ==> IsDigit(c))
      && (i > 0 ==> key[|id| + 1] != '0')
  {
    DigitsReadBack(i);
    assert NodeKey(id, i)[|id| + 1..] == Digits(i);
  }

  /** Node keys tell instances and their virtual nodes apart. */
  lemma NodeKeysTellNodes(id: string, i: nat, id': string, i': nat)
    requires NodeKey(id, i) == NodeKey(id', i')
    ensures id == id' && i == i'
  {
    NodeKeysTellIds(id, i, id', i');
    assert Digits(i) == NodeKey(id, i)[|id| + 1..] == Digits(i');
    assert Value(Digits(i)) == i by { DigitsReadBack(i); }
    assert Value(Digits(i')) == i' by { DigitsReadBack(i'); }
  }

  // ---------------------------------------------------------------- the points of the ring

  lemma RowSplits(v: nat, n: nat)
    requires n > 0
    ensures v * n == v * (n - 1) + v
  {
  }

  /** Instance j has point i of its row, for each of its v virtual nodes. */
  lemma {:induction false} PointAt(hash: Hash, v: nat, insts: seq<Instance>, j: nat, i: nat)
    requires j < |insts| && i < v
    ensures 0 <= v * j + i < |Points(hash, v, insts)| == v * |insts|
    ensures Points(hash, v, insts)[v * j + i] == hash(NodeKey(insts[j].id, i))
  {
    var n := |insts|;
    PointCount(hash, v, insts);
    PointCount(hash, v, insts[..n - 1]);
    RowSplits(v, n);
    if j == n - 1 {
      VirtualNodeAt(hash, insts[j].id, v, i);
    } else {
      PointAt(hash, v, insts[..n - 1], j, i);
    }
  }

  lemma {:induction false} PointCount(hash: Hash, v: nat, insts: seq<Instance>)
    ensures |Points(hash, v, insts)| == v * |insts|
  {
    if insts != [] {
      PointCount(hash, v, insts[..|insts| - 1]);
      RowSplits(v, |insts|);
    }
  }

  ghost predicate Injective(hash: Hash) {
    forall s, t :: hash(s) == hash(t) ==> s == t
  }

  lemma RowOf(v: nat, n: nat, a: nat) returns (j: nat, i: nat)
    requires a < v * n
    ensures j < n && i < v && a == v * j + i
  {
    assert v != 0;
    j, i := a / v, a % v;
    assert a == v * (a / v) + a % v;
    assert j < n by { if j >= n { Scale(n, j, v); } }
  }

  /** Under an injective hash the ring of a duplicate-free list has v points for each instance, all different. */
  lemma PointsAreDistinct(hash: Hash, v: nat, insts: seq<Instance>)
    requires Injective(hash) && DistinctIds(insts)
    ensures |Points(hash, v, insts)| == v * |insts|
    ensures var points := Points(hash, v, insts);
      forall a, b :: 0 <= a < b < |points| ==> points[a] != points[b]
  {
    PointCount(hash, v, insts);
    var points := Points(hash, v, insts);
    forall a: nat, b: nat | a < b < |points| ensures points[a] != points[b] {
      var j, i := RowOf(v, |insts|, a);
      var j', i' := RowOf(v, |insts|, b);
      PointAt(hash, v, insts, j, i);
      PointAt(hash, v, insts, j', i');
      if points[a] == points[b] { NodeKeysTellNodes(insts[j].id, i, insts[j'].id, i'); }
    }
  }

  /** The point belongs to instance j: it is one of its nodes and of no later instance's. */
  ghost predicate LastToTake(hash: Hash, v: nat, insts: seq<Instance>, p: nat, j: nat) {
    && j < |insts| && p in VirtualNodes(hash, insts[j].id, v)
    && forall k :: j < k < |insts| ==> p !in VirtualNodes(hash, insts[k].id, v)
  }

  /** A point where several instances collide belongs to the last of them in the list. */
  lemma {:induction false} NodeIsLastToTake(hash: Hash, v: nat, insts: seq<Instance>, p: nat, j: nat)
    requires LastToTake(hash, v, insts, p, j)
    ensures NodeAt(hash, v, insts, p) == Some(insts[j])
  {
    var n := |insts|;
    if j < n - 1 {
      assert p !in VirtualNodes(hash, insts[n - 1].id, v);
      NodeIsLastToTake(hash, v, insts[..n - 1], p, j);
    }
  }

  /** A hash that puts one instance's first virtual node at 0 and everything else at 1. */
  function Aimed(id: string): Hash {
    key => if key == NodeKey(id, 0) then 0 else 1
  }

  lemma AimedAt(v: nat, id: string, other: string)
    requires v > 0
    ensures 0 in VirtualNodes(Aimed(id), other, v) <==> other == id
  {
    var nodes := VirtualNodes(Aimed(id), other, v);
    if 0 in nodes {
      var i :| 0 <= i < |nodes| && nodes[i] == 0;
      VirtualNodeAt(Aimed(id), other, v, i);
      NodeKeysTellIds(other, i, id, 0);
    }
    VirtualNodeAt(Aimed(id), other, v, 0);
  }

  lemma {:induction false} AimedNode(v: nat, insts: seq<Instance>, i: nat)
    requires v > 0 && LastOfItsId(insts, i)
    ensures NodeAt(Aimed(insts[i].id), v, insts, 0) == Some(insts[i])
  {
    var n := |insts| - 1;
    AimedAt(v, insts[i].id, insts[n].id);
    if i < n { AimedNode(v, insts[..n], i); }
  }

  /** Every instance that is the last of its ID owns some key under some hash. */
  lemma EveryLastOwns(v: nat, insts: seq<Instance>, i: nat)
    requires v > 0 && LastOfItsId(insts, i)
    ensures Owner(Aimed(insts[i].id), v, insts, 0) == insts[i]
  {
    var hash := Aimed(insts[i].id);
    AimedNode(v, insts, i);
    PointsExist(hash, v, insts);
    PointsAreNodes(hash, v, insts, 0);
    LandingIsUnique(Points(hash, v, insts), 0, 0);
  }

  /** Whatever the hash and the key, the pick's answer is one of the instances given to it. */
  ghost predicate AnswersFromGiven(v: nat, cached: seq<Instance>, given: seq<Instance>)
    requires v > 0 && given != []
  {
    forall hash: Hash, q :: Owner(hash, v, Consulted(cached, given), q) in given
  }

  /** The answer is always one of the given instances exactly when the ring is rebuilt, or every cached instance
      that is the last of its ID is given unchanged. */
  lemma AnswersFromGivenIff(v: nat, cached: seq<Instance>, given: seq<Instance>)
    requires v > 0 && given != []
    ensures AnswersFromGiven(v, cached, given)
       <==> !Reuses(cached, given) || forall i :: LastOfItsId(cached, i) ==> cached[i] in given
  {
    if !Reuses(cached, given) || forall i :: LastOfItsId(cached, i) ==> cached[i] in given {
      forall hash: Hash, q ensures Owner(hash, v, Consulted(cached, given), q) in given {
        var i := OwnerIsLast(hash, v, Consulted(cached, given), q);
      }
    } else {
      var i :| LastOfItsId(cached, i) && cached[i] !in given;
      EveryLastOwns(v, cached, i);
      assert Owner(Aimed(cached[i].id), v, Consulted(cached, given), 0) !in given;
    }
  }

  /** An address changed under the same ID: the pick answers with the instance as it was. */
  lemma StaleAnswer(hash: Hash, v: nat, q: nat)
    requires v > 0
    ensures var cached, given := [Instance("a", 1, "old")], [Instance("a", 1, "new")];
      && Reuses(cached, given) && Owner(hash, v, Consulted(cached, given), q) == cached[0]
      && cached[0] !in given
  {
    var cached, given := [Instance("a", 1, "old")], [Instance("a", 1, "new")];
    assert given[0].id in Ids(given);
    var i := OwnerIsLast(hash, v, cached, q);
  }

  // ---------------------------------------------------------------- the code

  predicate Sorted(s: seq<nat>) {
    forall i, j :: 0 <= i < j < |s| ==> s[i] <= s[j]
  }

  /** Where x goes in a sorted sequence. */
  function Place(s: seq<nat>, x: nat): (k: nat)
    requires Sorted(s)
    ensures k <= |s|
    ensures forall i :: 0 <= i < k ==> s[i] <= x
    ensures forall i :: k <= i < |s| ==> x < s[i]
  {
    if s == [] || s[|s| - 1] <= x then |s| else Place(s[..|s| - 1], x)
  }

  function Insert(s: seq<nat>, x: nat): (r: seq<nat>)
    requires Sorted(s)
    ensures Sorted(r) && multiset(r) == multiset(s) + multiset{x}
  {
    var k := Place(s, x);
    assert s == s[..k] + s[k..];
    s[..k] + [x] + s[k..]
  }

  /** sort.Slice. */
  function Sort(s: seq<nat>): (r: seq<nat>)
    ensures Sorted(r) && multiset(r) == multiset(s)
  {
    if s == [] then []
    else
      assert s == s[..|s| - 1] + [s[|s| - 1]];
      Insert(Sort(s[..|s| - 1]), s[|s| - 1])
  }

  /** sort.Search over the sorted ring. */
  method Search(ring: seq<nat>, q: nat) returns (idx: nat)
    requires Sorted(ring)
    ensures idx <= |ring|
    ensures forall i :: 0 <= i < idx ==> ring[i] < q
    ensures forall i :: idx <= i < |ring| ==> ring[i] >= q
  {
    var lo, hi := 0, |ring|;
    while lo < hi
      invariant 0 <= lo <= hi <= |ring|
      invariant forall i :: 0 <= i < lo ==> ring[i] < q
      invariant forall i :: hi <= i < |ring| ==> ring[i] >= q
    {
      var mid := (lo + hi) / 2;
      if ring[mid] >= q { hi := mid; } else { lo := mid + 1; }
    }
    idx := lo;
  }

  /** The ring entry the code picks is where the key lands. */
  lemma SearchLands(ring: seq<nat>, points: seq<nat>, q: nat, idx: nat)
    requires Sorted(ring) && ring != [] && (forall p :: p in ring <==> p in points) && idx <= |ring|
    requires (forall i :: 0 <= i < idx ==> ring[i] < q) && (forall i :: idx <= i < |ring| ==> ring[i] >= q)
    ensures points != [] && Landing(points, q) == ring[if idx == |ring| then 0 else idx]
  {
    var k := if idx == |ring| then 0 else idx;
    assert ring[k] in points;
    forall x | x in points ensures exists i :: 0 <= i < |ring| && ring[i] == x { assert x in ring; }
    assert Lands(points, q, ring[k]);
    LandingIsUnique(points, q, ring[k]);
  }

  class Balancer {
    const hash: Hash
    const virtualNodes: nat
    var hashRing: seq<nat>
    var nodes: map<nat, Instance>
    var instances: seq<Instance>

    /** Ring and node table are those of the cached list. */
    ghost predicate Valid()
      reads this
    {
      && virtualNodes > 0 && Sorted(hashRing)
      && multiset(hashRing) == multiset(Points(hash, virtualNodes, instances))
      && (forall p :: p in nodes <==> NodeAt(hash, virtualNodes, instances, p).Some?)
      && (forall p :: p in nodes ==> nodes[p] == NodeAt(hash, virtualNodes, instances, p).value)
    }

    constructor (hash: Hash)
      ensures Valid() && this.hash == hash && virtualNodes == 150 && instances == []
    {
      this.hash, virtualNodes := hash, 150;
      hashRing, nodes, instances := [], map[], [];
    }

    method IsSameInstances(given: seq<Instance>) returns (same: bool)
      ensures same == Reuses(instances, given)
    {
      if |instances| == 0 { return false; }
      if |given| != |instances| { return false; }
      var cur: set<string> := {};
      for i := 0 to |given|
        invariant cur == Ids(given[..i])
      {
        cur := cur + {given[i].id};
        assert forall k :: 0 <= k < i ==> given[..i + 1][k] == given[..i][k];
        assert given[..i + 1][i].id in Ids(given[..i + 1]);
        assert Ids(given[..i + 1]) == Ids(given[..i]) + {given[i].id};
      }
      assert given[..|given|] == given;
      for i := 0 to |instances|
        invariant forall k :: 0 <= k < i ==> instances[k].id in cur
      {
        if instances[i].id !in cur { return false; }
      }
      return true;
    }

    /** The inner loop of rebuild: one instance's virtual nodes, which win the points they share with others. */
    method AddNodes(inst: Instance)
      modifies `hashRing, `nodes
      ensures hashRing == old(hashRing) + VirtualNodes(hash, inst.id, virtualNodes)
      ensures forall p :: p in nodes <==> p in old(nodes) || p in VirtualNodes(hash, inst.id, virtualNodes)
      ensures forall p :: p in nodes ==>
        nodes[p] == if p in VirtualNodes(hash, inst.id, virtualNodes) then inst else old(nodes)[p]
    {
      for i := 0 to virtualNodes
        invariant hashRing == old(hashRing) + VirtualNodes(hash, inst.id, i)
        invariant forall p :: p in nodes <==> p in old(nodes) || p in VirtualNodes(hash, inst.id, i)
        invariant forall p :: p in nodes ==>
          nodes[p] == if p in VirtualNodes(hash, inst.id, i) then inst else old(nodes)[p]
      {
        var h := hash(NodeKey(inst.id, i));
        hashRing := hashRing + [h];
        nodes := nodes[h := inst];
      }
    }

    method Rebuild(given: seq<Instance>)
      requires virtualNodes > 0
      modifies this
      ensures Valid() && instances == given && |hashRing| == virtualNodes * |given|
    {
      instances, hashRing, nodes := given, [], map[];
      for n := 0 to |given|
        invariant instances == given
        invariant hashRing == Points(hash, virtualNodes, given[..n])
        invariant forall p :: p in nodes <==> NodeAt(hash, virtualNodes, given[..n], p).Some?
        invariant forall p :: p in nodes ==> nodes[p] == NodeAt(hash, virtualNodes, given[..n], p).value
      {
        AddNodes(given[n]);
        assert given[..n + 1][..n] == given[..n];
      }
      assert given[..|given|] == given;
      PointCount(hash, virtualNodes, given);
      ghost var points := hashRing;
      hashRing := Sort(hashRing);
      assert |hashRing| == |multiset(hashRing)| == |multiset(points)| == |points|;
    }

    /** The section of PickWithOptions under the write lock. */
    method Refresh(given: seq<Instance>)
      requires Valid() && given != []
      modifies this
      ensures Valid() && instances == Consulted(old(instances), given) && instances != []
    {
      var same := IsSameInstances(given);
      if !same { Rebuild(given); }
    }

    /** PickWithOptions with no other pick in between its two critical sections: an empty key is replaced by the clock
        reading. None is ErrNoInstances. */
    method Pick(given: seq<Instance>, key: string, clock: string) returns (r: Option<Instance>)
      requires Valid()
      modifies this
      ensures Valid()
      ensures given == [] ==> r.None? && instances == old(instances)
      ensures given != [] ==> instances == Consulted(old(instances), given)
      ensures given != [] ==>
        instances != [] && r == Some(Owner(hash, virtualNodes, instances, hash(if key != "" then key else clock)))
    {
      if given == [] { return None; }
      Refresh(given);
      r := Lookup(hash(if key != "" then key else clock));
    }

    /** The section of PickWithOptions under the read lock. */
    method Lookup(q: nat) returns (r: Option<Instance>)
      requires Valid() && instances != []
      ensures r == Some(Owner(hash, virtualNodes, instances, q))
    {
      PointsExist(hash, virtualNodes, instances);
      ghost var points := Points(hash, virtualNodes, instances);
      assert forall p :: p in hashRing <==> p in multiset(hashRing);
      assert forall p :: p in points <==> p in multiset(points);
      assert points[0] in hashRing;
      var idx := Search(hashRing, q);
      SearchLands(hashRing, points, q, idx);
      if idx == |hashRing| { idx := 0; }
      PointsAreNodes(hash, virtualNodes, instances, hashRing[idx]);
      r := Some(nodes[hashRing[idx]]);
    }
  }
}
