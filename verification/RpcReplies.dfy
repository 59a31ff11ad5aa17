/** What a call returns, told from the run: which exit it took, when the drain failed it, and that a reply delivered to
    it is the reply it returns. */
module RpcReplies {
  import opened Wrappers
  import opened Messages
  import opened RpcAnswers
  import C = RpcClient
  import L = RpcLink
  import S = RpcServer

  /** The client has taken this step somewhere in the run. */
  predicate Took(steps: seq<L.Step>, step: C.Step) {
    L.ClientMoves(step) in steps
  }

  /** The run without its last step. */
  lemma Back(maxBody: nat, steps: seq<L.Step>, l: L.Link) returns (m: L.Link)
    requires L.Run(maxBody, steps, l) && steps != []
    ensures L.Run(maxBody, steps[..|steps| - 1], m) && L.Inv(m, maxBody)
    ensures L.Can(m, steps[|steps| - 1]) && L.Do(m, maxBody, steps[|steps| - 1]) == l
  {
    m := L.After(L.Connected, maxBody, steps[..|steps| - 1]).value;
    if steps[|steps| - 1].ClientMoves? { C.CallsOnlyGrow(m.client, steps[|steps| - 1].client); }
    L.ReachableIsSound(maxBody, steps[..|steps| - 1], m);
  }

  lemma TookOneMore(steps: seq<L.Step>, step: C.Step)
    requires steps != []
    ensures Took(steps, step) <==> Took(steps[..|steps| - 1], step) || steps[|steps| - 1] == L.ClientMoves(step)
  {
    assert steps == steps[..|steps| - 1] + [steps[|steps| - 1]];
  }

  /** What the client does in a step of the link, if anything. */
  function ClientPart(m: L.Link, step: L.Step): Option<C.Step>
    requires L.Can(m, step)
  {
    match step
    case ClientMoves(c) => Some(c)
    case ResponseArrives => Some(C.Receive(m.server.wire[|m.client.inbound|]))
    case _ => None
  }

  lemma ClientPartMoves(m: L.Link, maxBody: nat, step: L.Step)
    requires L.Can(m, step)
    ensures match ClientPart(m, step)
      case None => L.Do(m, maxBody, step).client == m.client
      case Some(c) => C.Can(m.client, c) && L.Do(m, maxBody, step).client == C.Do(m.client, c)
    ensures forall c :: step == L.ClientMoves(c) ==> ClientPart(m, step) == Some(c)
    ensures forall c: C.Step :: ClientPart(m, step) == Some(c) && !c.Receive? ==> step == L.ClientMoves(c)
  {
  }

  // ---------------------------------------------------------------- who is failed

  lemma StepFails(c: C.Client, step: C.Step, t: nat)
    requires C.Inv(c) && C.Can(c, step) && t < |c.calls|
    ensures C.Do(c, step).calls[t].failed <==> c.calls[t].failed || step == C.DrainOne(t + 1)
  {
  }

  lemma LastStepFails(m: L.Link, maxBody: nat, step: L.Step, d: C.Client, t: nat)
    requires C.Inv(m.client) && L.Can(m, step) && d == L.Do(m, maxBody, step).client && t < |m.client.calls|
    ensures t < |d.calls|
    ensures d.calls[t].failed <==> m.client.calls[t].failed || step == L.ClientMoves(C.DrainOne(t + 1))
  {
    ClientPartMoves(m, maxBody, step);
    if ClientPart(m, step).Some? {
      C.CallsOnlyGrow(m.client, ClientPart(m, step).value);
      StepFails(m.client, ClientPart(m, step).value, t);
    }
  }

  lemma OnlyDrawAdds(c: C.Client, step: C.Step, t: nat)
    requires C.Can(c, step) && |c.calls| <= t < |C.Do(c, step).calls|
    ensures step.Draw? && C.Do(c, step).calls[t].phase == C.Drawn && !C.Do(c, step).calls[t].failed
  {
  }

  lemma NewCallIsDrawn(m: L.Link, maxBody: nat, step: L.Step, d: C.Client, t: nat)
    requires L.Can(m, step) && d == L.Do(m, maxBody, step).client && |m.client.calls| <= t < |d.calls|
    ensures step == L.ClientMoves(C.Draw) && d.calls[t].phase == C.Drawn && !d.calls[t].failed
  {
    ClientPartMoves(m, maxBody, step);
    OnlyDrawAdds(m.client, ClientPart(m, step).value, t);
  }

  /** Over every run a call is failed exactly when the drain has taken its entry. */
  lemma {:induction false} FailedIffDrained(maxBody: nat, steps: seq<L.Step>, l: L.Link, t: nat)
    requires L.Run(maxBody, steps, l) && t < |l.client.calls|
    ensures l.client.calls[t].failed <==> Took(steps, C.DrainOne(t + 1))
    decreases |steps|
  {
    if steps != [] {
      var m := Back(maxBody, steps, l);
      TookOneMore(steps, C.DrainOne(t + 1));
      if t < |m.client.calls| {
        FailedIffDrained(maxBody, steps[..|steps| - 1], m, t);
        LastStepFails(m, maxBody, steps[|steps| - 1], l.client, t);
      } else {
        NewCallIsDrawn(m, maxBody, steps[|steps| - 1], l.client, t);
        NotYetDrained(maxBody, steps[..|steps| - 1], m, t);
      }
    }
  }

  lemma {:induction false} NotYetDrained(maxBody: nat, steps: seq<L.Step>, l: L.Link, t: nat)
    requires L.Run(maxBody, steps, l) && |l.client.calls| <= t
    ensures !Took(steps, C.DrainOne(t + 1))
    decreases |steps|
  {
    if steps != [] {
      var m := Back(maxBody, steps, l);
      TookOneMore(steps, C.DrainOne(t + 1));
      if steps[|steps| - 1].ClientMoves? { C.CallsOnlyGrow(m.client, steps[|steps| - 1].client); }
      NotYetDrained(maxBody, steps[..|steps| - 1], m, t);
    }
  }

  // ---------------------------------------------------------------- what leaves through done

  /** The call has returned what its pendingCall held when done was closed. */
  ghost predicate ReturnedByDone(c: C.Client, t: nat) {
    && t < |c.calls| && c.calls[t].done && (c.calls[t].failed || c.calls[t].body.Some?)
    && c.calls[t].phase
       == C.Returned(if c.calls[t].failed then C.Failed(C.ConnectionClosed) else C.Reply(c.calls[t].body.value))
  }

  lemma StepKeepsReturned(c: C.Client, step: C.Step, t: nat)
    requires C.Inv(c) && C.Can(c, step) && ReturnedByDone(c, t)
    ensures ReturnedByDone(C.Do(c, step), t)
  {
  }

  lemma WakeReturns(c: C.Client, t: nat)
    requires C.Inv(c) && C.Can(c, C.WakeDone(t))
    ensures ReturnedByDone(C.Do(c, C.WakeDone(t)), t)
  {
    assert C.CallIsSound(c, t);
  }

  lemma {:induction false} DoneStays(maxBody: nat, steps: seq<L.Step>, l: L.Link, t: nat)
    requires L.Run(maxBody, steps, l) && Took(steps, C.WakeDone(t))
    ensures ReturnedByDone(l.client, t)
    decreases |steps|
  {
    var m := Back(maxBody, steps, l);
    var last := steps[|steps| - 1];
    TookOneMore(steps, C.WakeDone(t));
    if last == L.ClientMoves(C.WakeDone(t)) {
      WakeReturns(m.client, t);
    } else {
      DoneStays(maxBody, steps[..|steps| - 1], m, t);
      ClientPartMoves(m, maxBody, last);
      if ClientPart(m, last).Some? { StepKeepsReturned(m.client, ClientPart(m, last).value, t); }
    }
  }

  /** Over every run: a call that leaves through done returns the first response that ever arrived for its ID, unless
      the drain had taken its entry, in which case it returns the closed-connection error. */
  lemma DoneReturnsTheReply(maxBody: nat, steps: seq<L.Step>, l: L.Link, t: nat)
    requires L.Run(maxBody, steps, l) && Took(steps, C.WakeDone(t))
    ensures if Took(steps, C.DrainOne(t + 1)) then C.In(l.client, t, C.Returned(C.Failed(C.ConnectionClosed)))
            else First(l.client.inbound, t + 1).Some?
                 && C.In(l.client, t, C.Returned(C.Reply(First(l.client.inbound, t + 1).value)))
  {
    DoneStays(maxBody, steps, l, t);
    FailedIffDrained(maxBody, steps, l, t);
    assert C.DeliversFirst(l.client) by { L.ReachableIsSound(maxBody, steps, l); }
  }

  // ---------------------------------------------------------------- which exit an outcome tells of

  ghost predicate WriteFailed(steps: seq<L.Step>, t: nat) {
    exists broken :: Took(steps, C.WriteFails(t, broken))
  }

  /** The step of the run that put the call where it is. */
  ghost predicate ExitMatches(steps: seq<L.Step>, c: C.Client, t: nat)
    requires t < |c.calls|
  {
    match c.calls[t].phase
    case Faulted => WriteFailed(steps, t)
    case Quitting => Took(steps, C.Cancel(t))
    case Returned(Reply(_)) => Took(steps, C.WakeDone(t))
    case Returned(Failed(why)) =>
      (match why
       case WriteError => WriteFailed(steps, t)
       case ContextDone => Took(steps, C.Cancel(t))
       case ConnectionClosed => Took(steps, C.WakeDone(t)) && Took(steps, C.DrainOne(t + 1))
       case CloseChannel => Took(steps, C.WakeClosed(t))
       case EmptyBody => false)
    case _ => true
  }

  lemma LongerMatches(steps: seq<L.Step>, c: C.Client, d: C.Client, t: nat)
    requires steps != [] && t < |c.calls| && ExitMatches(steps[..|steps| - 1], c, t)
    requires t < |d.calls| && d.calls[t].phase == c.calls[t].phase
    ensures ExitMatches(steps, d, t)
  {
    forall step | Took(steps[..|steps| - 1], step) ensures Took(steps, step) { TookOneMore(steps, step); }
  }

  /** A step of the call's own. */
  lemma OwnStepMatches(steps: seq<L.Step>, c: C.Client, step: C.Step, t: nat)
    requires C.Inv(c) && C.Can(c, step) && t < |c.calls| && C.Do(c, step).calls[t].phase != c.calls[t].phase
    requires steps != [] && steps[|steps| - 1] == L.ClientMoves(step) && ExitMatches(steps[..|steps| - 1], c, t)
    requires c.calls[t].failed ==> Took(steps[..|steps| - 1], C.DrainOne(t + 1))
    ensures ExitMatches(steps, C.Do(c, step), t)
  {
    assert C.CallIsSound(c, t);
    TookOneMore(steps, step);
    TookOneMore(steps, C.DrainOne(t + 1));
    TookOneMore(steps, C.Cancel(t));
    forall broken | Took(steps[..|steps| - 1], C.WriteFails(t, broken)) ensures Took(steps, C.WriteFails(t, broken)) {
      TookOneMore(steps, C.WriteFails(t, broken));
    }
  }

  lemma LastStepMatches(m: L.Link, maxBody: nat, steps: seq<L.Step>, t: nat)
    requires steps != [] && L.Inv(m, maxBody) && L.Can(m, steps[|steps| - 1]) && t < |m.client.calls|
    requires ExitMatches(steps[..|steps| - 1], m.client, t)
    requires m.client.calls[t].failed ==> Took(steps[..|steps| - 1], C.DrainOne(t + 1))
    ensures t < |L.Do(m, maxBody, steps[|steps| - 1]).client.calls|
    ensures ExitMatches(steps, L.Do(m, maxBody, steps[|steps| - 1]).client, t)
  {
    var last := steps[|steps| - 1];
    var d := L.Do(m, maxBody, last).client;
    if last.ClientMoves? { C.CallsOnlyGrow(m.client, last.client); }
    if d.calls[t].phase == m.client.calls[t].phase {
      LongerMatches(steps, m.client, d, t);
    } else {
      OwnStepMatches(steps, m.client, last.client, t);
    }
  }

  /** Over every run the outcome of a call tells which exit it took: a failed write, a cancelled context, the closed
      done channel, with or without the drain, or the closed connection. */
  lemma {:induction false} OutcomeTellsTheExit(maxBody: nat, steps: seq<L.Step>, l: L.Link, t: nat)
    requires L.Run(maxBody, steps, l) && t < |l.client.calls|
    ensures ExitMatches(steps, l.client, t)
    decreases |steps|
  {
    if steps != [] {
      var m := Back(maxBody, steps, l);
      if t < |m.client.calls| {
        OutcomeTellsTheExit(maxBody, steps[..|steps| - 1], m, t);
        FailedIffDrained(maxBody, steps[..|steps| - 1], m, t);
        LastStepMatches(m, maxBody, steps, t);
      } else {
        NewCallIsDrawn(m, maxBody, steps[|steps| - 1], l.client, t);
      }
    }
  }

  // ---------------------------------------------------------------- only oversize requests are refused

  ghost predicate RefusedOnly(s: S.Server, maxBody: nat) {
    && (s.reader.Refusing? ==> S.Oversize(maxBody, s.reader.frame))
    && (forall k :: k in s.tasks && s.tasks[k].Replying? ==> s.tasks[k].response.verdict != TooLarge)
    && (forall r :: r in s.enqueued && r.verdict == TooLarge ==> RefusedFrame(s, maxBody, r))
  }

  ghost predicate RefusedFrame(s: S.Server, maxBody: nat, r: Response) {
    exists f :: f in s.received && f.headerId == r.id && S.Oversize(maxBody, f)
  }

  lemma StepKeepsRefusedOnly(s: S.Server, maxBody: nat, step: S.Step)
    requires S.ResponsesEcho(s) && RefusedOnly(s, maxBody) && S.Can(s, step)
    ensures RefusedOnly(S.Do(s, maxBody, step), maxBody)
  {
    var t := S.Do(s, maxBody, step);
    assert forall f :: f in s.received ==> f in t.received;
    forall r | r in t.enqueued && r.verdict == TooLarge ensures RefusedFrame(t, maxBody, r) {
      if r in s.enqueued {
        var f :| f in s.received && f.headerId == r.id && S.Oversize(maxBody, f);
        assert f in t.received;
      } else {
        assert s.reader.frame in t.received;
      }
    }
  }

  lemma {:induction false} ReachableRefusedOnly(maxBody: nat, steps: seq<L.Step>, l: L.Link)
    requires L.Run(maxBody, steps, l)
    ensures RefusedOnly(l.server, maxBody)
    decreases |steps|
  {
    if steps != [] {
      var m := Back(maxBody, steps, l);
      var last := steps[|steps| - 1];
      ReachableRefusedOnly(maxBody, steps[..|steps| - 1], m);
      if last.ServerMoves? {
        StepKeepsRefusedOnly(m.server, maxBody, last.server);
      } else if last.RequestArrives? {
        StepKeepsRefusedOnly(m.server, maxBody, S.Read(m.client.outbound[|m.server.received|]));
      }
    }
  }

  // ---------------------------------------------------------------- no reply is lost while the context lives

  /** As long as the connection's context is not cancelled, what a request has got and what it is still owed make up
      its whole quota. */
  ghost predicate NothingLost(s: S.Server, maxBody: nat) {
    !s.cancelled ==>
      forall f :: f in s.received ==> Replies(s.enqueued, f.headerId) + Owed(s, f.headerId) == Quota(maxBody, f)
  }

  lemma ReadLosesNothing(s: S.Server, maxBody: nat, f: RequestFrame)
    requires Sound(s) && WithinQuota(s, maxBody) && NothingLost(s, maxBody) && S.Can(s, S.Read(f))
    requires forall g :: g in s.received ==> g.headerId != f.headerId
    ensures NothingLost(S.Do(s, maxBody, S.Read(f)), maxBody)
  {
    var t := S.Do(s, maxBody, S.Read(f));
    NoReplies(s.enqueued, f.headerId);
    assert forall k :: k in s.tasks ==> S.TaskId(s.tasks[k]) != f.headerId;
    assert forall g :: g in t.received ==> g in s.received || g == f;
  }

  lemma SendLosesNothing(s: S.Server, maxBody: nat, step: S.Step)
    requires Sound(s) && WithinQuota(s, maxBody) && NothingLost(s, maxBody) && S.Can(s, step)
    requires step.Refuse? || step.Answer?
    ensures NothingLost(S.Do(s, maxBody, step), maxBody)
  {
    var t := S.Do(s, maxBody, step);
    var sent := if step.Refuse? then Response(s.reader.frame.headerId, TooLarge, s.reader.frame.body)
                else s.tasks[step.k].response;
    if !t.cancelled {
      forall f | f in t.received
        ensures Replies(t.enqueued, f.headerId) + Owed(t, f.headerId) == Quota(maxBody, f) {
        OneMoreReply(s.enqueued, sent, f.headerId);
        assert Replies(s.enqueued, f.headerId) + Owed(s, f.headerId) == Quota(maxBody, f);
        SendMovesOne(s, maxBody, step, f.headerId);
      }
    }
  }

  lemma SendMovesOne(s: S.Server, maxBody: nat, step: S.Step, id: nat)
    requires Sound(s) && WithinQuota(s, maxBody) && S.Can(s, step) && (step.Refuse? || step.Answer?)
    ensures var sent := if step.Refuse? then s.reader.frame.headerId else S.TaskId(s.tasks[step.k]);
      Owed(S.Do(s, maxBody, step), id) == Owed(s, id) - if sent == id then 1 else 0
  {
    var t := S.Do(s, maxBody, step);
    if step.Answer? {
      assert forall k :: k in t.tasks <==> k in s.tasks && k != step.k;
      assert forall k :: k in t.tasks ==> t.tasks[k] == s.tasks[k];
      if HasTask(s, id) && S.TaskId(s.tasks[step.k]) != id {
        var k :| k in s.tasks && S.TaskId(s.tasks[k]) == id;
        assert k in t.tasks;
      }
    } else {
      assert t.tasks == s.tasks;
    }
  }

  lemma LaunchLosesNothing(s: S.Server, maxBody: nat)
    requires Sound(s) && WithinQuota(s, maxBody) && NothingLost(s, maxBody) && S.Can(s, S.Launch)
    ensures NothingLost(S.Do(s, maxBody, S.Launch), maxBody)
  {
    var t, id := S.Do(s, maxBody, S.Launch), s.reader.frame.headerId;
    assert forall k :: k in s.tasks ==> k in t.tasks && t.tasks[k] == s.tasks[k];
    assert forall k :: k in t.tasks ==> k in s.tasks || S.TaskId(t.tasks[k]) == id;
    assert s.nextTask in t.tasks && S.TaskId(t.tasks[s.nextTask]) == id;
    assert WithReader(s, id) && !HasTask(s, id);
    if !t.cancelled {
      forall f | f in t.received
        ensures Replies(t.enqueued, f.headerId) + Owed(t, f.headerId) == Quota(maxBody, f) {
        assert Replies(s.enqueued, f.headerId) + Owed(s, f.headerId) == Quota(maxBody, f);
        assert f.headerId != id ==> (HasTask(t, f.headerId) <==> HasTask(s, f.headerId));
      }
    }
  }

  /** The same tasks by ID, and the same reader as far as requests go. */
  ghost predicate OwesTheSame(s: S.Server, t: S.Server) {
    && t.enqueued == s.enqueued && t.received == s.received && t.tasks.Keys == s.tasks.Keys
    && (forall k :: k in t.tasks ==> S.TaskId(t.tasks[k]) == S.TaskId(s.tasks[k]))
    && (t.reader == s.reader
        || (!t.reader.Refusing? && !t.reader.Launching? && !s.reader.Refusing? && !s.reader.Launching?))
  }

  lemma QuietOwesTheSame(s: S.Server, maxBody: nat, step: S.Step)
    requires S.ResponsesEcho(s) && S.Can(s, step) && !S.Do(s, maxBody, step).cancelled
    requires !step.Read? && !step.Refuse? && !step.Answer? && !step.Launch?
    ensures !s.cancelled && OwesTheSame(s, S.Do(s, maxBody, step))
  {
  }

  lemma QuietLosesNothing(s: S.Server, maxBody: nat, t: S.Server)
    requires NothingLost(s, maxBody) && !s.cancelled && OwesTheSame(s, t)
    ensures NothingLost(t, maxBody)
  {
    forall f | f in t.received
      ensures Replies(t.enqueued, f.headerId) + Owed(t, f.headerId) == Quota(maxBody, f) {
      assert Replies(s.enqueued, f.headerId) + Owed(s, f.headerId) == Quota(maxBody, f);
      assert HasTask(t, f.headerId) <==> HasTask(s, f.headerId);
    }
  }

  lemma OtherStepLosesNothing(s: S.Server, maxBody: nat, step: S.Step)
    requires S.ResponsesEcho(s) && NothingLost(s, maxBody) && S.Can(s, step)
    requires !step.Read? && !step.Refuse? && !step.Answer? && !step.Launch?
    ensures NothingLost(S.Do(s, maxBody, step), maxBody)
  {
    var t := S.Do(s, maxBody, step);
    if !t.cancelled {
      QuietOwesTheSame(s, maxBody, step);
      QuietLosesNothing(s, maxBody, t);
    }
  }

  lemma StepLosesNothing(s: S.Server, maxBody: nat, step: S.Step)
    requires Sound(s) && WithinQuota(s, maxBody) && NothingLost(s, maxBody) && S.Can(s, step)
    requires step.Read? ==> forall g :: g in s.received ==> g.headerId != step.frame.headerId
    ensures NothingLost(S.Do(s, maxBody, step), maxBody)
  {
    match step {
      case Read(f) => ReadLosesNothing(s, maxBody, f);
      case Refuse => SendLosesNothing(s, maxBody, step);
      case Answer(_) => SendLosesNothing(s, maxBody, step);
      case Launch => LaunchLosesNothing(s, maxBody);
      case _ => OtherStepLosesNothing(s, maxBody, step);
    }
  }

  lemma {:induction false} ReachableLosesNothing(maxBody: nat, steps: seq<L.Step>, l: L.Link)
    requires L.Run(maxBody, steps, l)
    ensures NothingLost(l.server, maxBody)
    decreases |steps|
  {
    if steps != [] {
      var m := Back(maxBody, steps, l);
      var last := steps[|steps| - 1];
      ReachableLosesNothing(maxBody, steps[..|steps| - 1], m);
      ReachableIsWithinQuota(maxBody, steps[..|steps| - 1], m);
      if last.ServerMoves? {
        StepLosesNothing(m.server, maxBody, last.server);
      } else if last.RequestArrives? {
        L.NextRequestIsNew(m, maxBody);
        StepLosesNothing(m.server, maxBody, S.Read(m.client.outbound[|m.server.received|]));
      }
    }
  }

  /** In every reachable state of a connection whose context is not cancelled: a received request that nobody is
      working on any more has had exactly one response, or two when it is oversize. */
  lemma EveryRequestIsAnswered(maxBody: nat, steps: seq<L.Step>, l: L.Link, f: RequestFrame)
    requires L.Run(maxBody, steps, l) && !l.server.cancelled && f in l.server.received
    requires !HasTask(l.server, f.headerId) && !WithReader(l.server, f.headerId)
    ensures Replies(l.server.enqueued, f.headerId) == if S.Oversize(maxBody, f) then 2 else 1
  {
    ReachableLosesNothing(maxBody, steps, l);
  }

  // ---------------------------------------------------------------- replies really come back

  function Answer(maxBody: nat, f: RequestFrame, ok: bool): Response {
    Response(f.headerId, if S.Oversize(maxBody, f) then TooLarge else if ok then Handled else HandlerError, f.body)
  }

  /** The server has written its one response and is idle again. */
  predicate Wired(s: S.Server, r: Response) {
    s.wire == [r]
  }

  lemma Written(maxBody: nat, steps: seq<L.Step>, client: C.Client, s: S.Server, r: Response)
    returns (more: seq<L.Step>, t: S.Server)
    requires L.After(L.Connected, maxBody, steps) == Some(L.Link(client, s))
    requires s.writer.Idle? && s.queue == [r] && s.wire == []
    ensures L.After(L.Connected, maxBody, more) == Some(L.Link(client, t)) && Wired(t, r)
  {
    more := ServerStep(maxBody, steps, client, s, S.Pick);
    t := S.Do(s, maxBody, S.Pick);
    more := ServerStep(maxBody, more, client, t, S.Wrote);
    t := S.Do(t, maxBody, S.Wrote);
  }

  /** The server's part: a request is refused, or handled, and the response is on the wire. */
  lemma ServerReplies(maxBody: nat, f: RequestFrame, ok: bool) returns (steps: seq<L.Step>, s: S.Server)
    requires Sendable(f)
    ensures L.After(L.Connected, maxBody, steps) == Some(L.Link(SentClient(f), s)) && Wired(s, Answer(maxBody, f, ok))
  {
    var client;
    steps, client := FrameArrives(maxBody, f);
    s := S.Do(S.Accepted, maxBody, S.Read(f));
    if S.Oversize(maxBody, f) {
      steps := ServerStep(maxBody, steps, client, s, S.Refuse);
      s := S.Do(s, maxBody, S.Refuse);
    } else {
      steps := ServerStep(maxBody, steps, client, s, S.Launch);
      s := S.Do(s, maxBody, S.Launch);
      steps := ServerStep(maxBody, steps, client, s, S.Finish(0, ok));
      s := S.Do(s, maxBody, S.Finish(0, ok));
      steps := ServerStep(maxBody, steps, client, s, S.Answer(0));
      s := S.Do(s, maxBody, S.Answer(0));
    }
    steps, s := Written(maxBody, steps, client, s, Answer(maxBody, f, ok));
  }

  /** The client's part: the frame is read, matched and signalled, and the call wakes up. */
  lemma ReplyIsTaken(f: RequestFrame, r: Response)
    requires Sendable(f) && r.id == f.headerId
    ensures var c0 := C.Do(SentClient(f), C.Receive(r));
      && C.Can(c0, C.Match) && var c1 := C.Do(c0, C.Match);
      && C.Can(c1, C.Signal) && var c2 := C.Do(c1, C.Signal);
      && C.Can(c2, C.WakeDone(f.body.caller)) && var c3 := C.Do(c2, C.WakeDone(f.body.caller));
      && C.In(c3, f.body.caller, C.Returned(C.Reply(r))) && c3.outbound == [f] && |c3.calls| == f.headerId
  {
    assert DrawnClient(f.headerId).calls[f.body.caller] == C.Call(f.headerId, C.Drawn, false, false, None);
  }

  /** Some run in which the call that sent f returns a response with this verdict. */
  ghost predicate ReturnsReply(maxBody: nat, f: RequestFrame, steps: seq<L.Step>, l: L.Link, r: Response) {
    L.Run(maxBody, steps, l) && f in l.client.outbound && C.In(l.client, f.body.caller, C.Returned(C.Reply(r)))
  }

  /** For every request there is a run from a fresh connection in which its call returns the refusal if it is
      oversize, and otherwise what its handler answers to that very request. */
  lemma ReplyComesBack(maxBody: nat, f: RequestFrame, ok: bool) returns (steps: seq<L.Step>, l: L.Link)
    requires Sendable(f)
    ensures ReturnsReply(maxBody, f, steps, l, Answer(maxBody, f, ok))
  {
    var r, t, s := Answer(maxBody, f, ok), f.body.caller, S.Accepted;
    ReplyIsTaken(f, r);
    steps, s := ServerReplies(maxBody, f, ok);
    steps := OneMoreStep(maxBody, steps, L.Link(SentClient(f), s), L.ResponseArrives);
    var c := C.Do(SentClient(f), C.Receive(r));
    steps := ClientStep(maxBody, steps, c, s, C.Match);
    c := C.Do(c, C.Match);
    steps := ClientStep(maxBody, steps, c, s, C.Signal);
    c := C.Do(c, C.Signal);
    steps := ClientStep(maxBody, steps, c, s, C.WakeDone(t));
    l := L.Link(C.Do(c, C.WakeDone(t)), s);
  }

  lemma SameFrame(maxBody: nat, steps: seq<L.Step>, l: L.Link, f: RequestFrame, g: RequestFrame)
    requires L.Run(maxBody, steps, l) && f in l.client.outbound && g in l.server.received && f.headerId == g.headerId
    ensures f == g
  {
    L.ReachableIsSound(maxBody, steps, l);
    var i :| 0 <= i < |l.client.outbound| && l.client.outbound[i] == f;
    var j :| 0 <= j < |l.server.received| && l.server.received[j] == g;
    assert l.client.outbound[j] == g;
    assert i == j;
  }

  /** Exactly which verdicts a call can return: the refusal for an oversize request, and otherwise an answer or an
      error of its handler. */
  lemma VerdictIff(maxBody: nat, f: RequestFrame, verdict: Verdict)
    requires Sendable(f)
    ensures (exists steps, l, r :: ReturnsReply(maxBody, f, steps, l, r) && r.verdict == verdict)
       <==> (S.Oversize(maxBody, f) <==> verdict == TooLarge)
  {
    if steps, l, r :| ReturnsReply(maxBody, f, steps, l, r) && r.verdict == verdict {
      if S.Oversize(maxBody, f) {
        L.OversizeCallersSeeTheRefusal(maxBody, steps, l, f, r);
      } else if verdict == TooLarge {
        RefusalMeansOversize(maxBody, steps, l, f, r);
      }
    }
    if S.Oversize(maxBody, f) <==> verdict == TooLarge {
      var steps, l := ReplyComesBack(maxBody, f, verdict == Handled);
      assert Answer(maxBody, f, verdict == Handled).verdict == verdict;
    }
  }

  lemma RefusalMeansOversize(maxBody: nat, steps: seq<L.Step>, l: L.Link, f: RequestFrame, r: Response)
    requires ReturnsReply(maxBody, f, steps, l, r) && r.verdict == TooLarge
    ensures S.Oversize(maxBody, f)
  {
    ReachableRefusedOnly(maxBody, steps, l);
    assert r.id == f.headerId && r in l.server.enqueued by {
      L.ReachableIsSound(maxBody, steps, l);
      L.Provenance(l, maxBody, f.body.caller, r);
      FirstFinds(l.server.enqueued, r.id);
    }
    var g :| g in l.server.received && g.headerId == r.id && S.Oversize(maxBody, g);
    SameFrame(maxBody, steps, l, f, g);
  }
}
