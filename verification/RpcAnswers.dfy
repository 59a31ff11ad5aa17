/** How many responses one request gets: one, or two when its body is above the limit. */
module RpcAnswers {
  import opened Wrappers
  import opened Messages
  import C = RpcClient
  import L = RpcLink
  import S = RpcServer

  /** How many of the responses carry `id`. */
  function Replies(rs: seq<Response>, id: nat): nat {
    if rs == [] then 0 else Replies(rs[..|rs| - 1], id) + if rs[|rs| - 1].id == id then 1 else 0
  }

  lemma OneMoreReply(rs: seq<Response>, r: Response, id: nat)
    ensures Replies(rs + [r], id) == Replies(rs, id) + if r.id == id then 1 else 0
  {
    assert (rs + [r])[..|rs + [r]| - 1] == rs;
  }

  lemma {:induction false} NoReplies(rs: seq<Response>, id: nat)
    requires forall r :: r in rs ==> r.id != id
    ensures Replies(rs, id) == 0
  {
    if rs != [] {
      assert rs[|rs| - 1] in rs;
      NoReplies(rs[..|rs| - 1], id);
    }
  }

  function Quota(maxBody: nat, f: RequestFrame): nat {
    if S.Oversize(maxBody, f) then 2 else 1
  }

  predicate HasTask(s: S.Server, id: nat) {
    exists k :: k in s.tasks && S.TaskId(s.tasks[k]) == id
  }

  predicate WithReader(s: S.Server, id: nat) {
    (s.reader.Refusing? || s.reader.Launching?) && s.reader.frame.headerId == id
  }

  /** The responses still to come for an ID. */
  function Owed(s: S.Server, id: nat): nat {
    (if HasTask(s, id) then 1 else 0)
    + (if !WithReader(s, id) then 0 else if s.reader.Refusing? then 2 else 1)
  }

  /** Each received frame is with the reader or with one handler at most, and has not used up its quota otherwise. */
  ghost predicate WithinQuota(s: S.Server, maxBody: nat) {
    && (forall j, k :: j in s.tasks && k in s.tasks && S.TaskId(s.tasks[j]) == S.TaskId(s.tasks[k]) ==> j == k)
    && (forall k :: k in s.tasks ==> !WithReader(s, S.TaskId(s.tasks[k])))
    && (s.reader.Refusing? ==> S.Oversize(maxBody, s.reader.frame))
    && (forall f :: f in s.received ==> Replies(s.enqueued, f.headerId) + Owed(s, f.headerId) <= Quota(maxBody, f))
  }

  /** What the other invariants of the server say, as far as counting needs them. */
  ghost predicate Sound(s: S.Server) {
    S.ShutdownIsOrdered(s) && S.ResponsesEcho(s) && S.IdsDistinct(s)
  }

  lemma ReadKeepsQuota(s: S.Server, maxBody: nat, f: RequestFrame)
    requires Sound(s) && WithinQuota(s, maxBody) && S.Can(s, S.Read(f))
    requires forall g :: g in s.received ==> g.headerId != f.headerId
    ensures WithinQuota(S.Do(s, maxBody, S.Read(f)), maxBody)
  {
    var t := S.Do(s, maxBody, S.Read(f));
    NoReplies(s.enqueued, f.headerId);
    assert forall k :: k in s.tasks ==> S.TaskId(s.tasks[k]) != f.headerId;
    assert forall g :: g in t.received ==> g in s.received || g == f;
  }

  lemma SendKeepsQuota(s: S.Server, maxBody: nat, step: S.Step)
    requires Sound(s) && WithinQuota(s, maxBody) && S.Can(s, step) && (step.Refuse? || step.Answer?)
    ensures WithinQuota(S.Do(s, maxBody, step), maxBody)
  {
    var t := S.Do(s, maxBody, step);
    var sent := if step.Refuse? then Response(s.reader.frame.headerId, TooLarge, s.reader.frame.body)
                else s.tasks[step.k].response;
    forall f | f in t.received
      ensures Replies(t.enqueued, f.headerId) + Owed(t, f.headerId) <= Quota(maxBody, f) {
      OneMoreReply(s.enqueued, sent, f.headerId);
      assert Replies(s.enqueued, f.headerId) + Owed(s, f.headerId) <= Quota(maxBody, f);
    }
  }

  lemma LaunchKeepsQuota(s: S.Server, maxBody: nat)
    requires Sound(s) && WithinQuota(s, maxBody) && S.Can(s, S.Launch)
    ensures WithinQuota(S.Do(s, maxBody, S.Launch), maxBody)
  {
    var t, id := S.Do(s, maxBody, S.Launch), s.reader.frame.headerId;
    assert forall k :: k in s.tasks ==> k in t.tasks && t.tasks[k] == s.tasks[k];
    assert forall k :: k in t.tasks ==> k in s.tasks || S.TaskId(t.tasks[k]) == id;
    forall f | f in t.received
      ensures Replies(t.enqueued, f.headerId) + Owed(t, f.headerId) <= Quota(maxBody, f) {
      assert Replies(s.enqueued, f.headerId) + Owed(s, f.headerId) <= Quota(maxBody, f);
      assert WithReader(s, id);
      assert f.headerId != id ==> (HasTask(t, f.headerId) <==> HasTask(s, f.headerId));
    }
  }

  /** No tasks but some of those there were, and no reader but the one there was or none. */
  ghost predicate OwesNoMore(s: S.Server, t: S.Server) {
    && t.enqueued == s.enqueued && t.received == s.received
    && (forall k :: k in t.tasks ==> k in s.tasks && S.TaskId(t.tasks[k]) == S.TaskId(s.tasks[k]))
    && (t.reader == s.reader || (!t.reader.Refusing? && !t.reader.Launching?))
  }

  lemma QuietOwesNoMore(s: S.Server, maxBody: nat, step: S.Step)
    requires S.ResponsesEcho(s) && S.Can(s, step)
    requires !step.Read? && !step.Refuse? && !step.Answer? && !step.Launch?
    ensures OwesNoMore(s, S.Do(s, maxBody, step))
  {
  }

  /** A step that starts nothing and sends nothing leaves no more to come than there was. */
  lemma QuietKeepsQuota(s: S.Server, maxBody: nat, t: S.Server)
    requires WithinQuota(s, maxBody) && OwesNoMore(s, t)
    ensures WithinQuota(t, maxBody)
  {
    forall f | f in t.received
      ensures Replies(t.enqueued, f.headerId) + Owed(t, f.headerId) <= Quota(maxBody, f) {
      assert Replies(s.enqueued, f.headerId) + Owed(s, f.headerId) <= Quota(maxBody, f);
    }
  }

  lemma StepKeepsQuota(s: S.Server, maxBody: nat, step: S.Step)
    requires Sound(s) && WithinQuota(s, maxBody) && S.Can(s, step)
    requires step.Read? ==> forall g :: g in s.received ==> g.headerId != step.frame.headerId
    ensures WithinQuota(S.Do(s, maxBody, step), maxBody)
  {
    match step {
      case Read(f) => ReadKeepsQuota(s, maxBody, f);
      case Refuse => SendKeepsQuota(s, maxBody, step);
      case Answer(_) => SendKeepsQuota(s, maxBody, step);
      case Launch => LaunchKeepsQuota(s, maxBody);
      case _ =>
        QuietOwesNoMore(s, maxBody, step);
        QuietKeepsQuota(s, maxBody, S.Do(s, maxBody, step));
    }
  }

  lemma {:induction false} ReachableIsWithinQuota(maxBody: nat, steps: seq<L.Step>, l: L.Link)
    requires L.Run(maxBody, steps, l)
    ensures WithinQuota(l.server, maxBody)
    decreases |steps|
  {
    if steps != [] {
      var m, step := L.After(L.Connected, maxBody, steps[..|steps| - 1]).value, steps[|steps| - 1];
      if step.ClientMoves? { C.CallsOnlyGrow(m.client, step.client); }
      ReachableIsWithinQuota(maxBody, steps[..|steps| - 1], m);
      assert L.Inv(m, maxBody) by { L.ReachableIsSound(maxBody, steps[..|steps| - 1], m); }
      if step.ServerMoves? {
        StepKeepsQuota(m.server, maxBody, step.server);
      } else if step.RequestArrives? {
        L.NextRequestIsNew(m, maxBody);
        StepKeepsQuota(m.server, maxBody, S.Read(m.client.outbound[|m.server.received|]));
      }
    }
  }

  /** In every reachable state a received request has at most one response in its name, two when it is oversize. */
  lemma RepliesPerRequest(maxBody: nat, steps: seq<L.Step>, l: L.Link, f: RequestFrame)
    requires L.Run(maxBody, steps, l) && f in l.server.received
    ensures Replies(l.server.enqueued, f.headerId) <= if S.Oversize(maxBody, f) then 2 else 1
  {
    ReachableIsWithinQuota(maxBody, steps, l);
  }

  // ---------------------------------------------------------------- the second answer is really given

  /** The server after the five steps an oversize request takes it through. */
  lemma AnsweredTwice(maxBody: nat, f: RequestFrame)
    requires S.Oversize(maxBody, f) && f.headerId == f.body.id
    ensures var s0 := S.Do(S.Accepted, maxBody, S.Read(f));
      && S.Can(s0, S.Refuse) && var s1 := S.Do(s0, maxBody, S.Refuse);
      && S.Can(s1, S.Launch) && var s2 := S.Do(s1, maxBody, S.Launch);
      && S.Can(s2, S.Finish(0, true)) && var s3 := S.Do(s2, maxBody, S.Finish(0, true));
      && S.Can(s3, S.Answer(0)) && var s4 := S.Do(s3, maxBody, S.Answer(0));
      && s4.received == [f] && Replies(s4.enqueued, f.headerId) == 2
  {
    var r, q := Response(f.headerId, TooLarge, f.body), Response(f.headerId, Handled, f.body);
    OneMoreReply([], r, f.headerId);
    OneMoreReply([r], q, f.headerId);
    assert [] + [r] == [r] && [r] + [q] == [r, q];
  }

  lemma OneMoreStep(maxBody: nat, steps: seq<L.Step>, l: L.Link, step: L.Step) returns (more: seq<L.Step>)
    requires L.After(L.Connected, maxBody, steps) == Some(l) && L.Can(l, step)
    ensures L.After(L.Connected, maxBody, more) == Some(L.Do(l, maxBody, step))
  {
    more := steps + [step];
    assert more[..|more| - 1] == steps;
  }

  /** The client after n calls have drawn their IDs. */
  function DrawnClient(n: nat): C.Client {
    C.Dialled.(nextId := n, calls := seq(n, t requires 0 <= t => C.Call(t + 1, C.Drawn, false, false, None)))
  }

  lemma DrawOne(n: nat)
    requires 0 < n < C.ID_SPACE
    ensures C.Do(DrawnClient(n - 1), C.Draw) == DrawnClient(n)
  {
    assert (n - 1 + 1) % C.ID_SPACE == n;
    assert DrawnClient(n).calls == DrawnClient(n - 1).calls + [C.Call(n, C.Drawn, false, false, None)];
  }

  lemma {:induction false} Draws(maxBody: nat, n: nat) returns (steps: seq<L.Step>)
    requires n < C.ID_SPACE
    ensures L.After(L.Connected, maxBody, steps) == Some(L.Link(DrawnClient(n), S.Accepted))
  {
    if n == 0 {
      steps := [];
      assert DrawnClient(0).calls == C.Dialled.calls;
    } else {
      steps := Draws(maxBody, n - 1);
      DrawOne(n);
      steps := OneMoreStep(maxBody, steps, L.Link(DrawnClient(n - 1), S.Accepted), L.ClientMoves(C.Draw));
    }
  }

  /** A frame some call of a client can send. */
  predicate Sendable(f: RequestFrame) {
    f.headerId == f.body.id == f.body.caller + 1 < C.ID_SPACE
  }

  /** The client's part: call t registers and writes. */
  lemma CallSends(f: RequestFrame)
    requires Sendable(f)
    ensures var c0 := DrawnClient(f.headerId);
      && C.Can(c0, C.Register(f.body.caller)) && var c1 := C.Do(c0, C.Register(f.body.caller));
      && C.Can(c1, C.Write(f.body.caller, f.bodyLength))
      && var c2 := C.Do(c1, C.Write(f.body.caller, f.bodyLength));
      && c2.outbound == [f] && |c2.calls| == f.headerId
  {
    assert DrawnClient(f.headerId).calls[f.body.caller] == C.Call(f.headerId, C.Drawn, false, false, None);
  }

  lemma ClientStep(maxBody: nat, steps: seq<L.Step>, c: C.Client, s: S.Server, step: C.Step)
    returns (more: seq<L.Step>)
    requires L.After(L.Connected, maxBody, steps) == Some(L.Link(c, s)) && C.Can(c, step) && !step.Receive?
    ensures L.After(L.Connected, maxBody, more) == Some(L.Link(C.Do(c, step), s))
  {
    more := OneMoreStep(maxBody, steps, L.Link(c, s), L.ClientMoves(step));
  }

  /** The client whose last call has sent f. */
  function SentClient(f: RequestFrame): C.Client
    requires Sendable(f)
  {
    var c, t := DrawnClient(f.headerId), f.body.caller;
    c.(calls := c.calls[t := c.calls[t].(phase := C.Sent)], pending := map[f.headerId := t], outbound := [f])
  }

  lemma FrameArrives(maxBody: nat, f: RequestFrame) returns (steps: seq<L.Step>, client: C.Client)
    requires Sendable(f)
    ensures client == SentClient(f) && |client.calls| == f.headerId
    ensures L.After(L.Connected, maxBody, steps) == Some(L.Link(client, S.Do(S.Accepted, maxBody, S.Read(f))))
  {
    var t := f.body.caller;
    CallSends(f);
    steps := Draws(maxBody, t + 1);
    client := DrawnClient(t + 1);
    steps := ClientStep(maxBody, steps, client, S.Accepted, C.Register(t));
    client := C.Do(client, C.Register(t));
    steps := ClientStep(maxBody, steps, client, S.Accepted, C.Write(t, f.bodyLength));
    client := C.Do(client, C.Write(t, f.bodyLength));
    steps := OneMoreStep(maxBody, steps, L.Link(client, S.Accepted), L.RequestArrives);
  }

  lemma ServerStep(maxBody: nat, steps: seq<L.Step>, client: C.Client, s: S.Server, step: S.Step)
    returns (more: seq<L.Step>)
    requires L.After(L.Connected, maxBody, steps) == Some(L.Link(client, s)) && S.Can(s, step) && !step.Read?
    ensures L.After(L.Connected, maxBody, more) == Some(L.Link(client, S.Do(s, maxBody, step)))
  {
    more := OneMoreStep(maxBody, steps, L.Link(client, s), L.ServerMoves(step));
  }

  lemma OversizeIsAnsweredTwice(maxBody: nat, f: RequestFrame) returns (steps: seq<L.Step>, l: L.Link)
    requires Sendable(f) && S.Oversize(maxBody, f)
    ensures AnswersTwice(maxBody, steps, l, f)
  {
    var client;
    steps, client := FrameArrives(maxBody, f);
    AnsweredTwice(maxBody, f);
    var s := S.Do(S.Accepted, maxBody, S.Read(f));
    steps := ServerStep(maxBody, steps, client, s, S.Refuse);
    s := S.Do(s, maxBody, S.Refuse);
    steps := ServerStep(maxBody, steps, client, s, S.Launch);
    s := S.Do(s, maxBody, S.Launch);
    steps := ServerStep(maxBody, steps, client, s, S.Finish(0, true));
    s := S.Do(s, maxBody, S.Finish(0, true));
    steps := ServerStep(maxBody, steps, client, s, S.Answer(0));
    l := L.Link(client, S.Do(s, maxBody, S.Answer(0)));
  }

  ghost predicate AnswersTwice(maxBody: nat, steps: seq<L.Step>, l: L.Link, f: RequestFrame) {
    L.Run(maxBody, steps, l) && f in l.server.received && Replies(l.server.enqueued, f.headerId) == 2
  }

  /** Exactly the oversize requests can be answered twice. */
  lemma AnsweredTwiceIffOversize(maxBody: nat, f: RequestFrame)
    requires Sendable(f)
    ensures (exists steps, l :: AnswersTwice(maxBody, steps, l, f)) <==> S.Oversize(maxBody, f)
  {
    if steps, l :| AnswersTwice(maxBody, steps, l, f) { RepliesPerRequest(maxBody, steps, l, f); }
    if S.Oversize(maxBody, f) { var steps, l := OversizeIsAnsweredTwice(maxBody, f); }
  }
}
