/** The sliding-window limiter: a pruned list of grant times against the full history of grants. */
module SlidingLimiter {

  datatype Config = Config(limit: int, window: int)

  /** One AllowN(n) at time now. */
  datatype Call = Call(now: int, n: int)

  /** The times after `after`, in order. */
  function Recent(times: seq<int>, after: int): seq<int> {
    if times == [] then []
    else Recent(times[..|times| - 1], after) + if times[|times| - 1] > after then [times[|times| - 1]] else []
  }

  function Copies(t: int, n: int): (s: seq<int>)
    ensures |s| == if n > 0 then n else 0
    ensures forall i :: 0 <= i < |s| ==> s[i] == t
  {
    seq(if n > 0 then n else 0, _ => t)
  }

  /** The stored list after a call. */
  function Allow(cfg: Config, requests: seq<int>, c: Call): seq<int> {
    var valid := Recent(requests, c.now - cfg.window);
    if |valid| + c.n > cfg.limit then valid else valid + Copies(c.now, c.n)
  }

  predicate Grants(cfg: Config, requests: seq<int>, c: Call) {
    |Recent(requests, c.now - cfg.window)| + c.n <= cfg.limit
  }

  // ---------------------------------------------------------------- the reference: nothing is ever forgotten

  /** How many of the times lie in lo < t <= hi. */
  function Count(times: seq<int>, lo: int, hi: int): nat {
    if times == [] then 0
    else Count(times[..|times| - 1], lo, hi) + if lo < times[|times| - 1] <= hi then 1 else 0
  }

  predicate Fits(cfg: Config, history: seq<int>, c: Call) {
    Count(history, c.now - cfg.window, c.now) + c.n <= cfg.limit
  }

  function Extend(cfg: Config, history: seq<int>, c: Call): seq<int> {
    if Fits(cfg, history, c) then history + Copies(c.now, c.n) else history
  }

  /** Every grant ever made, deciding each call on the full history. */
  function History(cfg: Config, calls: seq<Call>): seq<int> {
    if calls == [] then [] else Extend(cfg, History(cfg, calls[..|calls| - 1]), calls[|calls| - 1])
  }

  /** The list the limiter keeps. */
  function Stored(cfg: Config, calls: seq<Call>): seq<int> {
    if calls == [] then [] else Allow(cfg, Stored(cfg, calls[..|calls| - 1]), calls[|calls| - 1])
  }

  /** Every grant the limiter really makes, deciding on its pruned list. */
  function Issued(cfg: Config, calls: seq<Call>): seq<int> {
    if calls == [] then []
    else
      var front, c := calls[..|calls| - 1], calls[|calls| - 1];
      Issued(cfg, front) + if Grants(cfg, Stored(cfg, front), c) then Copies(c.now, c.n) else []
  }

  /** Time never runs backwards. */
  predicate InOrder(calls: seq<Call>) {
    forall i, j :: 0 <= i < j < |calls| ==> calls[i].now <= calls[j].now
  }

  lemma {:induction false} RecentConcat(s: seq<int>, x: seq<int>, after: int)
    ensures Recent(s + x, after) == Recent(s, after) + Recent(x, after)
  {
    if x == [] {
      assert s + x == s;
    } else {
      RecentConcat(s, x[..|x| - 1], after);
      assert (s + x)[..|s + x| - 1] == s + x[..|x| - 1];
    }
  }

  lemma {:induction false} RecentOfRecent(s: seq<int>, earlier: int, later: int)
    requires earlier <= later
    ensures Recent(Recent(s, earlier), later) == Recent(s, later)
  {
    if s != [] {
      var front, t := s[..|s| - 1], s[|s| - 1];
      RecentOfRecent(front, earlier, later);
      RecentConcat(Recent(front, earlier), if t > earlier then [t] else [], later);
      assert Recent([t], later) == if t > later then [t] else [];
    }
  }

  /** Appending the same grants to the pruned list and to the history. */
  lemma AppendAgrees(h: seq<int>, x: seq<int>, pruned: int, after: int)
    requires pruned <= after
    ensures Recent(Recent(h, pruned) + x, after) == Recent(h + x, after)
  {
    RecentOfRecent(h, pruned, after);
    RecentConcat(Recent(h, pruned), x, after);
    RecentConcat(h, x, after);
  }

  lemma {:induction false} CountIsRecent(s: seq<int>, lo: int, hi: int)
    requires forall i :: 0 <= i < |s| ==> s[i] <= hi
    ensures Count(s, lo, hi) == |Recent(s, lo)|
  {
    if s != [] {
      CountIsRecent(s[..|s| - 1], lo, hi);
    }
  }

  lemma {:induction false} HistoryIsPast(cfg: Config, calls: seq<Call>, now: int)
    requires forall c :: c in calls ==> c.now <= now
    ensures forall i :: 0 <= i < |History(cfg, calls)| ==> History(cfg, calls)[i] <= now
  {
    if calls != [] {
      assert calls[|calls| - 1] in calls;
      HistoryIsPast(cfg, calls[..|calls| - 1], now);
    }
  }

  /** From some time on, the stored list is as good as the full history. */
  ghost predicate Agree(cfg: Config, calls: seq<Call>, from: int) {
    forall after :: from - cfg.window <= after ==>
      Recent(Stored(cfg, calls), after) == Recent(History(cfg, calls), after)
  }

  /** One call keeps the agreement, whether it is granted or not. */
  lemma CallKeepsAgreement(cfg: Config, stored: seq<int>, h: seq<int>, c: Call, after: int)
    requires forall i :: 0 <= i < |h| ==> h[i] <= c.now
    requires Recent(stored, c.now - cfg.window) == Recent(h, c.now - cfg.window) && c.now - cfg.window <= after
    ensures Recent(Allow(cfg, stored, c), after) == Recent(Extend(cfg, h, c), after)
  {
    var start, grants := c.now - cfg.window, Copies(c.now, c.n);
    var valid := Recent(stored, start);
    assert Fits(cfg, h, c) == Grants(cfg, stored, c) by { CountIsRecent(h, start, c.now); }
    if Grants(cfg, stored, c) {
      assert Allow(cfg, stored, c) == valid + grants && Extend(cfg, h, c) == h + grants;
      assert Recent(valid + grants, after) == Recent(h + grants, after) by { AppendAgrees(h, grants, start, after); }
    } else {
      assert Allow(cfg, stored, c) == valid && Extend(cfg, h, c) == h;
      assert Recent(valid, after) == Recent(h, after) by { RecentOfRecent(h, start, after); }
    }
  }

  lemma {:induction false} PrunedListAgrees(cfg: Config, calls: seq<Call>, from: int)
    requires InOrder(calls) && forall c :: c in calls ==> c.now <= from
    ensures Agree(cfg, calls, from)
  {
    if calls != [] {
      var front, c := calls[..|calls| - 1], calls[|calls| - 1];
      assert c in calls;
      assert forall d :: d in front ==> d.now <= c.now;
      PrunedListAgrees(cfg, front, c.now);
      HistoryIsPast(cfg, front, c.now);
      forall after | from - cfg.window <= after
        ensures Recent(Stored(cfg, calls), after) == Recent(History(cfg, calls), after) {
        CallKeepsAgreement(cfg, Stored(cfg, front), History(cfg, front), c, after);
      }
    }
  }

  /** Exactness: the pruned list decides every call as counting the full history in (now - window, now] would. */
  lemma PruningIsExact(cfg: Config, calls: seq<Call>, c: Call)
    requires InOrder(calls + [c])
    ensures Grants(cfg, Stored(cfg, calls), c) <==> Fits(cfg, History(cfg, calls), c)
  {
    assert forall d :: d in calls ==> d.now <= c.now by {
      forall d | d in calls ensures d.now <= c.now {
        var i :| 0 <= i < |calls| && calls[i] == d;
        assert (calls + [c])[i] == d && (calls + [c])[|calls|] == c;
      }
    }
    assert InOrder(calls) by {
      assert forall i :: 0 <= i < |calls| ==> (calls + [c])[i] == calls[i];
    }
    PrunedListAgrees(cfg, calls, c.now);
    HistoryIsPast(cfg, calls, c.now);
    CountIsRecent(History(cfg, calls), c.now - cfg.window, c.now);
  }

  lemma CountOneMore(s: seq<int>, t: int, lo: int, hi: int)
    ensures Count(s + [t], lo, hi) == Count(s, lo, hi) + if lo < t <= hi then 1 else 0
  {
    assert (s + [t])[..|s + [t]| - 1] == s;
  }

  lemma {:induction false} CountAppend(s: seq<int>, t: int, n: int, lo: int, hi: int)
    ensures Count(s + Copies(t, n), lo, hi) == Count(s, lo, hi) + if lo < t <= hi then |Copies(t, n)| else 0
    decreases if n > 0 then n else 0
  {
    if n <= 0 {
      assert s + Copies(t, n) == s;
    } else {
      CountAppend(s, t, n - 1, lo, hi);
      assert s + Copies(t, n) == (s + Copies(t, n - 1)) + [t];
      CountOneMore(s + Copies(t, n - 1), t, lo, hi);
    }
  }

  lemma {:induction false} CountWithin(s: seq<int>, lo: int, hi: int, lo': int, hi': int)
    requires lo' <= lo && forall i :: 0 <= i < |s| ==> s[i] <= hi'
    ensures Count(s, lo, hi) <= Count(s, lo', hi')
  {
    if s != [] {
      CountWithin(s[..|s| - 1], lo, hi, lo', hi');
    }
  }

  /** The limiter issues exactly the grants of the reference that forgets nothing. */
  lemma {:induction false} IssuesTheReference(cfg: Config, calls: seq<Call>)
    requires InOrder(calls)
    ensures Issued(cfg, calls) == History(cfg, calls)
  {
    if calls != [] {
      var front, c := calls[..|calls| - 1], calls[|calls| - 1];
      IssuesTheReference(cfg, front);
      assert front + [c] == calls;
      PruningIsExact(cfg, front, c);
    }
  }

  lemma {:induction false} ReferenceKeepsLimit(cfg: Config, calls: seq<Call>, lo: int, hi: int)
    requires InOrder(calls) && hi - lo <= cfg.window
    ensures Count(History(cfg, calls), lo, hi) <= if cfg.limit > 0 then cfg.limit else 0
  {
    if calls != [] {
      var front, c := calls[..|calls| - 1], calls[|calls| - 1];
      ReferenceKeepsLimit(cfg, front, lo, hi);
      var h := History(cfg, front);
      CountAppend(h, c.now, c.n, lo, hi);
      assert forall d :: d in front ==> d.now <= c.now;
      HistoryIsPast(cfg, front, c.now);
      if c.now <= hi { CountWithin(h, lo, hi, c.now - cfg.window, c.now); }
    }
  }

  /** The limit: over every run no interval of length `window` holds more than `limit` grants. */
  lemma NoWindowExceedsLimit(cfg: Config, calls: seq<Call>, lo: int, hi: int)
    requires InOrder(calls) && hi - lo <= cfg.window
    ensures Count(Issued(cfg, calls), lo, hi) <= if cfg.limit > 0 then cfg.limit else 0
  {
    IssuesTheReference(cfg, calls);
    ReferenceKeepsLimit(cfg, calls, lo, hi);
  }

  // ---------------------------------------------------------------- the code

  class Limiter {
    const cfg: Config
    var requests: seq<int>

    constructor (limit: int, window: int)
      ensures cfg == Config(limit, window) && requests == Stored(cfg, [])
    {
      cfg, requests := Config(limit, window), [];
    }

    method AllowN(now: int, n: int) returns (ok: bool)
      modifies this
      ensures ok == Grants(cfg, old(requests), Call(now, n))
      ensures requests == Allow(cfg, old(requests), Call(now, n))
    {
      var windowStart := now - cfg.window;
      var valid: seq<int> := [];
      for i := 0 to |requests|
        invariant valid == Recent(requests[..i], windowStart)
      {
        assert requests[..i + 1][..i] == requests[..i];
        if requests[i] > windowStart { valid := valid + [requests[i]]; }
      }
      assert requests[..|requests|] == requests;
      requests := valid;
      if |requests| + n > cfg.limit { return false; }
      var k := 0;
      while k < n
        invariant 0 <= k && (k <= n || k == 0)
        invariant requests == valid + Copies(now, k)
      {
        assert Copies(now, k + 1) == Copies(now, k) + [now];
        requests, k := requests + [now], k + 1;
      }
      assert Copies(now, k) == Copies(now, n);
      return true;
    }
  }
}
