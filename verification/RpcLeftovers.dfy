/** What is left in the pending table when everybody has gone: entries of calls that registered after the drain. */
module RpcLeftovers {
  import opened Messages
  import opened RpcCompletion
  import opened Wrappers
  import C = RpcClient
  import L = RpcLink

  // ---------------------------------------------------------------- whose entries they are

  /** An entry whose call has returned is that of a call that left by the close exit. */
  ghost predicate LeftByClosing(c: C.Client) {
    forall id :: id in c.pending && c.pending[id] < |c.calls| && c.calls[c.pending[id]].phase.Returned? ==>
      c.calls[c.pending[id]].phase == C.Returned(C.Failed(C.CloseChannel))
  }

  lemma StepKeepsLeft(c: C.Client, step: C.Step)
    requires C.TableIsSound(c) && LeftByClosing(c) && C.Can(c, step)
    ensures LeftByClosing(C.Do(c, step))
  {
  }

  lemma {:induction false} ReachableLeft(maxBody: nat, steps: seq<L.Step>, l: L.Link)
    requires L.Run(maxBody, steps, l)
    ensures LeftByClosing(l.client)
    decreases |steps|
  {
    if steps != [] {
      var m, step := L.After(L.Connected, maxBody, steps[..|steps| - 1]).value, steps[|steps| - 1];
      if step.ClientMoves? { C.CallsOnlyGrow(m.client, step.client); }
      ReachableLeft(maxBody, steps[..|steps| - 1], m);
      assert C.TableIsSound(m.client) by { L.ReachableIsSound(maxBody, steps[..|steps| - 1], m); }
      if step.ClientMoves? {
        StepKeepsLeft(m.client, step.client);
      } else if step.ResponseArrives? {
        StepKeepsLeft(m.client, C.Receive(m.server.wire[|m.client.inbound|]));
      }
    }
  }

  /** In every reachable state in which everybody has gone, each remaining entry is that of a call that was told that
      the connection is closed. */
  lemma LeftoversWereToldClosed(maxBody: nat, steps: seq<L.Step>, l: L.Link, id: nat)
    requires L.Run(maxBody, steps, l) && Finished(l.client) && id in l.client.pending
    ensures C.In(l.client, l.client.pending[id], C.Returned(C.Failed(C.CloseChannel)))
  {
    ReachableLeft(maxBody, steps, l);
    assert C.TableIsSound(l.client) by { L.ReachableIsSound(maxBody, steps, l); }
  }

  // ---------------------------------------------------------------- they registered after the drain

  /** Since d, which had no entries, only calls not yet registered then have made any. */
  ghost predicate RegisteredSince(d: C.Client, c: C.Client) {
    && |d.calls| <= |c.calls|
    && (forall t :: 0 <= t < |d.calls| && c.calls[t].phase.Drawn? ==> d.calls[t].phase.Drawn?)
    && (forall id :: id in c.pending && c.pending[id] < |d.calls| ==> d.calls[c.pending[id]].phase.Drawn?)
  }

  lemma StepKeepsSince(d: C.Client, c: C.Client, step: C.Step)
    requires C.TableIsSound(c) && RegisteredSince(d, c) && C.Can(c, step)
    ensures RegisteredSince(d, C.Do(c, step))
  {
  }

  /** Whatever happens after the drain, new calls included, an entry is that of a call that registered after it. */
  lemma {:induction false} EntriesAreLate(maxBody: nat, steps: seq<L.Step>, l: L.Link, more: seq<L.Step>, end: L.Link)
    requires L.Run(maxBody, steps, l) && l.client.closing.Drained? && l.client.pending == map[]
    requires L.After(l, maxBody, more) == Some(end) && |end.client.calls| < C.ID_SPACE
    ensures RegisteredSince(l.client, end.client) && L.Inv(end, maxBody)
    decreases |more|
  {
    if more == [] {
      L.ReachableIsSound(maxBody, steps, l);
    } else {
      var m, step := L.After(l, maxBody, more[..|more| - 1]).value, more[|more| - 1];
      if step.ClientMoves? { C.CallsOnlyGrow(m.client, step.client); }
      EntriesAreLate(maxBody, steps, l, more[..|more| - 1], m);
      L.StepKeepsInv(m, maxBody, step);
      assert C.TableIsSound(m.client);
      if step.ClientMoves? {
        StepKeepsSince(l.client, m.client, step.client);
      } else if step.ResponseArrives? {
        StepKeepsSince(l.client, m.client, C.Receive(m.server.wire[|m.client.inbound|]));
      }
    }
  }

  // ---------------------------------------------------------------- when entries can remain

  /** Call t can still leave an entry behind: it has not registered and the link carries its write, or it registered
      after the drain and can be told of the closing before anything removes its entry. */
  predicate CanLeaveEntry(c: C.Client, t: nat) {
    && t < |c.calls|
    && (|| (c.calls[t].phase.Drawn? && c.linkUp)
        || (c.closing.Drained? && t + 1 in c.pending
            && ((c.calls[t].phase.Listed? && c.linkUp) || c.calls[t].phase.Sent? || c.calls[t].phase.Returned?)))
  }

  lemma StepKeepsNoneLeft(c: C.Client, step: C.Step, t: nat)
    requires C.TableIsSound(c) && C.Can(c, step) && !step.Draw? && t < |c.calls| && !CanLeaveEntry(c, t)
    ensures !CanLeaveEntry(C.Do(c, step), t)
  {
  }

  lemma {:induction false} NoneLeft(l: L.Link, maxBody: nat, more: seq<L.Step>, end: L.Link)
    requires L.Inv(l, maxBody) && |l.client.calls| < C.ID_SPACE && Leads(l, maxBody, more, end)
    requires forall t: nat :: !CanLeaveEntry(l.client, t)
    ensures L.Inv(end, maxBody) && forall t: nat :: !CanLeaveEntry(end.client, t)
    decreases |more|
  {
    if more != [] {
      var m := L.Do(l, maxBody, more[0]);
      LinkShrinks(l, maxBody, more[0]);
      L.StepKeepsInv(l, maxBody, more[0]);
      forall t: nat ensures !CanLeaveEntry(m.client, t) {
        if t < |l.client.calls| {
          match more[0] {
            case ClientMoves(c) => StepKeepsNoneLeft(l.client, c, t);
            case ResponseArrives => StepKeepsNoneLeft(l.client, C.Receive(l.server.wire[|l.client.inbound|]), t);
            case _ =>
          }
        }
      }
      NoneLeft(m, maxBody, more[1..], end);
    }
  }

  // ---------------------------------------------------------------- the run that leaves one

  lemma {:induction false} LeadsOneMore(l: L.Link, maxBody: nat, more: seq<L.Step>, m: L.Link, step: L.Step)
    requires Leads(l, maxBody, more, m) && L.Can(m, step) && !IsDraw(step)
    ensures Leads(l, maxBody, more + [step], L.Do(m, maxBody, step))
    decreases |more|
  {
    if more == [] {
      assert [step][1..] == [];
    } else {
      LeadsOneMore(L.Do(l, maxBody, more[0]), maxBody, more[1..], m, step);
      assert (more + [step])[1..] == more[1..] + [step];
    }
  }

  /** A state of the invariant that l leads to without new calls. */
  ghost predicate Comes(l: L.Link, maxBody: nat, m: L.Link) {
    L.Inv(m, maxBody) && |m.client.calls| == |l.client.calls| < C.ID_SPACE && exists more :: Leads(l, maxBody, more, m)
  }

  lemma ClientGoes(l: L.Link, maxBody: nat, m: L.Link, step: C.Step) returns (n: L.Link)
    requires Comes(l, maxBody, m) && C.Can(m.client, step) && !step.Draw? && !step.Receive?
    ensures Comes(l, maxBody, n) && n.client == C.Do(m.client, step) && 0 <= LinkWork(n) < LinkWork(m)
  {
    var more :| Leads(l, maxBody, more, m);
    n := L.Do(m, maxBody, L.ClientMoves(step));
    LeadsOneMore(l, maxBody, more, m, L.ClientMoves(step));
    LinkShrinks(m, maxBody, L.ClientMoves(step));
    L.StepKeepsInv(m, maxBody, L.ClientMoves(step));
    WorkIsNatural(n, maxBody);
  }

  /** The closer's next step; nobody's phase changes. */
  lemma DrainStep(c: C.Client) returns (step: C.Step)
    requires C.Inv(c) && Underway(c) && !c.closing.Drained?
    ensures C.Can(c, step) && !step.Draw? && !step.Receive?
    ensures var d := C.Do(c, step);
      && Underway(d) && d.linkUp == c.linkUp && |d.calls| == |c.calls|
      && forall t :: 0 <= t < |c.calls| ==> d.calls[t].phase == c.calls[t].phase
  {
    if c.closing.NotYet? {
      step := C.CloseBegins;
    } else if c.closing.Announced? {
      step := C.DrainBegins;
    } else if c.pending == map[] {
      step := C.DrainEnds;
    } else {
      var id :| id in c.pending;
      step := C.DrainOne(id);
    }
  }

  /** The drain runs to its end. */
  lemma {:induction false} Drains(l: L.Link, maxBody: nat, m: L.Link, t: nat) returns (n: L.Link)
    requires Comes(l, maxBody, m) && Underway(m.client) && C.In(m.client, t, C.Drawn) && m.client.linkUp
    ensures Comes(l, maxBody, n) && n.client.closing.Drained? && C.In(n.client, t, C.Drawn) && n.client.linkUp
    decreases LinkWork(m)
  {
    n := m;
    if !m.client.closing.Drained? {
      WorkIsNatural(m, maxBody);
      var step := DrainStep(m.client);
      n := ClientGoes(l, maxBody, m, step);
      n := Drains(l, maxBody, n, t);
    }
  }

  /** Call t's next step towards leaving its entry behind. */
  lemma LeaveStep(c: C.Client, t: nat) returns (step: C.Step)
    requires C.Inv(c) && c.closing.Drained? && CanLeaveEntry(c, t) && !c.calls[t].phase.Returned?
    ensures C.Can(c, step) && !step.Draw? && !step.Receive?
    ensures C.Do(c, step).closing.Drained? && CanLeaveEntry(C.Do(c, step), t)
  {
    assert c.calls[t].id == t + 1;
    match c.calls[t].phase {
      case Drawn => step := C.Register(t);
      case Listed => step := C.Write(t, 0);
      case Sent => step := C.WakeClosed(t);
    }
  }

  /** Call t returns by the close exit and its entry stays. */
  lemma {:induction false} LeavesEntry(l: L.Link, maxBody: nat, m: L.Link, t: nat) returns (n: L.Link)
    requires Comes(l, maxBody, m) && m.client.closing.Drained? && CanLeaveEntry(m.client, t)
    ensures Comes(l, maxBody, n) && n.client.closing.Drained? && t < |n.client.calls|
    ensures n.client.calls[t].phase.Returned? && t + 1 in n.client.pending
    decreases LinkWork(m)
  {
    n := m;
    if !m.client.calls[t].phase.Returned? {
      WorkIsNatural(m, maxBody);
      var step := LeaveStep(m.client, t);
      n := ClientGoes(l, maxBody, m, step);
      n := LeavesEntry(l, maxBody, n, t);
    }
  }

  /** The next step of a call other than t towards its return, with the link as good as broken. */
  lemma Homeward(c: C.Client, u: nat, t: nat) returns (step: C.Step)
    requires C.Inv(c) && c.closing.Drained? && u < |c.calls| && u != t && !c.calls[u].phase.Returned?
    ensures C.Can(c, step) && !step.Draw? && !step.Receive?
    ensures var d := C.Do(c, step);
      && d.closing.Drained? && |d.calls| == |c.calls| && (t < |c.calls| ==> d.calls[t] == c.calls[t])
      && (t + 1 in c.pending ==> t + 1 in d.pending)
  {
    assert c.calls[u].id == u + 1;
    match c.calls[u].phase {
      case Drawn => step := C.Register(u);
      case Listed => step := C.WriteFails(u, false);
      case Sent => step := C.WakeClosed(u);
      case Faulted => step := C.Unlist(u);
      case Quitting => step := C.Unlist(u);
    }
  }

  lemma {:induction false} AllReturn(l: L.Link, maxBody: nat, m: L.Link, t: nat) returns (n: L.Link)
    requires Comes(l, maxBody, m) && m.client.closing.Drained? && t < |m.client.calls|
    requires m.client.calls[t].phase.Returned? && t + 1 in m.client.pending
    ensures Comes(l, maxBody, n) && Finished(n.client) && t + 1 in n.client.pending
    decreases LinkWork(m)
  {
    n := m;
    if !Finished(m.client) {
      WorkIsNatural(m, maxBody);
      var u: nat :| u < |m.client.calls| && !m.client.calls[u].phase.Returned?;
      var step := Homeward(m.client, u, t);
      n := ClientGoes(l, maxBody, m, step);
      n := AllReturn(l, maxBody, n, t);
    }
  }

  lemma SomethingIsLeft(l: L.Link, maxBody: nat, t: nat) returns (n: L.Link)
    requires L.Inv(l, maxBody) && |l.client.calls| < C.ID_SPACE && Underway(l.client) && CanLeaveEntry(l.client, t)
    ensures Comes(l, maxBody, n) && Finished(n.client) && n.client.pending != map[]
  {
    assert Leads(l, maxBody, [], l);
    n := l;
    if !n.client.closing.Drained? { n := Drains(l, maxBody, n, t); }
    n := LeavesEntry(l, maxBody, n, t);
    n := AllReturn(l, maxBody, n, t);
  }

  lemma FinishedIsEmpty(c: C.Client)
    requires C.TableIsSound(c) && Finished(c) && forall t: nat :: !CanLeaveEntry(c, t)
    ensures c.pending == map[]
  {
    if id :| id in c.pending {
      assert CanLeaveEntry(c, c.pending[id]);
    }
  }

  lemma NothingIsLeft(l: L.Link, maxBody: nat, more: seq<L.Step>, end: L.Link)
    requires L.Inv(l, maxBody) && |l.client.calls| < C.ID_SPACE && Leads(l, maxBody, more, end) && Finished(end.client)
    requires forall t: nat :: !CanLeaveEntry(l.client, t)
    ensures end.client.pending == map[]
  {
    NoneLeft(l, maxBody, more, end);
    assert C.TableIsSound(end.client);
    FinishedIsEmpty(end.client);
  }

  /** `more` leads from l to a state in which everybody has gone and an entry is left. */
  ghost predicate EndsWithEntry(l: L.Link, maxBody: nat, more: seq<L.Step>, end: L.Link) {
    Leads(l, maxBody, more, end) && Finished(end.client) && end.client.pending != map[]
  }

  /** From a reachable state with closing under way: some schedule without new calls ends with everybody gone and an
      entry left in the table exactly when some call can still leave one. */
  lemma EntriesRemainIff(maxBody: nat, steps: seq<L.Step>, l: L.Link)
    requires L.Run(maxBody, steps, l) && Underway(l.client)
    ensures (exists more, end :: EndsWithEntry(l, maxBody, more, end)) <==> exists t: nat :: CanLeaveEntry(l.client, t)
  {
    assert L.Inv(l, maxBody) by { L.ReachableIsSound(maxBody, steps, l); }
    if t: nat :| CanLeaveEntry(l.client, t) {
      var end := SomethingIsLeft(l, maxBody, t);
      var more :| Leads(l, maxBody, more, end);
      assert EndsWithEntry(l, maxBody, more, end);
    } else if more, end :| EndsWithEntry(l, maxBody, more, end) {
      NothingIsLeft(l, maxBody, more, end);
    }
  }

  /** A client with one call. */
  function OneCall(phase: C.Phase, pending: map<nat, nat>, closing: C.Closing, outbound: seq<RequestFrame>): C.Client {
    var connected := closing.NotYet? || closing.Announced?;
    var call := C.Call(1, phase, false, false, None);
    C.Client(1, [call], pending, connected, C.Reading, closing, true, outbound, [], false)
  }

  lemma ClosedBeforeRegistering() returns (steps: seq<C.Step>)
    ensures C.After(C.Dialled, steps) == Some(OneCall(C.Drawn, map[], C.Drained, []))
  {
    steps := ClientTakes([], C.Dialled, C.Draw, OneCall(C.Drawn, map[], C.NotYet, []));
    steps := ClientTakes(steps, OneCall(C.Drawn, map[], C.NotYet, []), C.CloseBegins,
                         OneCall(C.Drawn, map[], C.Announced, []));
    steps := ClientTakes(steps, OneCall(C.Drawn, map[], C.Announced, []), C.DrainBegins,
                         OneCall(C.Drawn, map[], C.Draining, []));
    steps := ClientTakes(steps, OneCall(C.Drawn, map[], C.Draining, []), C.DrainEnds,
                         OneCall(C.Drawn, map[], C.Drained, []));
  }

  lemma LateCallIsSent(n: nat) returns (steps: seq<C.Step>)
    ensures C.After(C.Dialled, steps)
         == Some(OneCall(C.Sent, map[1 := 0], C.Drained, [RequestFrame(1, n, Request(1, 0))]))
  {
    var listed := OneCall(C.Listed, map[1 := 0], C.Drained, []);
    var sent := OneCall(C.Sent, map[1 := 0], C.Drained, [RequestFrame(1, n, Request(1, 0))]);
    steps := ClosedBeforeRegistering();
    steps := ClientTakes(steps, OneCall(C.Drawn, map[], C.Drained, []), C.Register(0), listed);
    steps := ClientTakes(steps, listed, C.Write(0, n), sent);
  }

  /** The shortest such run, at the client: a call draws its ID, the connection closes and is drained, and only then
      does the call register, write and see the closed channel. */
  lemma LateCallIsLeft(n: nat) returns (steps: seq<C.Step>, c: C.Client)
    ensures C.After(C.Dialled, steps) == Some(c) && Finished(c) && c.pending == map[1 := 0]
  {
    var sent := OneCall(C.Sent, map[1 := 0], C.Drained, [RequestFrame(1, n, Request(1, 0))]);
    c := OneCall(C.Returned(C.Failed(C.CloseChannel)), map[1 := 0], C.Drained, sent.outbound);
    steps := LateCallIsSent(n);
    steps := ClientTakes(steps, sent, C.WakeClosed(0), c);
  }

  lemma ClientTakes(steps: seq<C.Step>, c: C.Client, step: C.Step, d: C.Client) returns (more: seq<C.Step>)
    requires C.After(C.Dialled, steps) == Some(c) && C.Can(c, step) && C.Do(c, step) == d
    ensures C.After(C.Dialled, more) == Some(d)
  {
    C.AfterOneMore(C.Dialled, steps, step);
    more := steps + [step];
  }
}
