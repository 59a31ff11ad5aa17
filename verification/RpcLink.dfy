/** One client and one server connection joined by an in-order byte stream in each direction:
    end-to-end routing and completion over every interleaving. */
module RpcLink {
  import opened Wrappers
  import opened Messages
  import C = RpcClient
  import F = Framing
  import S = RpcServer

  datatype Link = Link(client: C.Client, server: S.Server)

  const Connected := Link(C.Dialled, S.Accepted)

  datatype Step =
    | ClientMoves(client: C.Step)
    | ServerMoves(server: S.Step)
    | RequestArrives
    | ResponseArrives

  predicate Can(l: Link, step: Step) {
    match step
    case ClientMoves(c) => !c.Receive? && C.Can(l.client, c)
    case ServerMoves(s) => !s.Read? && S.Can(l.server, s)
    case RequestArrives => |l.server.received| < |l.client.outbound| && l.server.reader.Scanning?
    case ResponseArrives => |l.client.inbound| < |l.server.wire| && l.client.loop.Reading?
  }

  function Do(l: Link, maxBody: nat, step: Step): Link
    requires Can(l, step)
  {
    match step
    case ClientMoves(c) => l.(client := C.Do(l.client, c))
    case ServerMoves(s) => l.(server := S.Do(l.server, maxBody, s))
    case RequestArrives => l.(server := S.Do(l.server, maxBody, S.Read(l.client.outbound[|l.server.received|])))
    case ResponseArrives => l.(client := C.Do(l.client, C.Receive(l.server.wire[|l.client.inbound|])))
  }

  /** The state after a sequence of steps of any interleaving, if each was possible when taken. */
  function After(l: Link, maxBody: nat, steps: seq<Step>): (r: Option<Link>)
    decreases |steps|
  {
    if steps == [] then Some(l)
    else
      match After(l, maxBody, steps[..|steps| - 1])
      case None => None
      case Some(m) =>
        if Can(m, steps[|steps| - 1]) then Some(Do(m, maxBody, steps[|steps| - 1])) else None
  }

  ghost predicate Inv(l: Link, maxBody: nat) {
    && C.Inv(l.client) && C.DeliversFirst(l.client)
    && S.ShutdownIsOrdered(l.server) && S.ResponsesEcho(l.server) && S.RefusalsComeFirst(l.server, maxBody)
    && l.server.received <= l.client.outbound
    && l.client.inbound <= l.server.wire
  }

  /** No response can name a call whose request is not on the wire yet. */
  lemma NoEarlyReply(l: Link, maxBody: nat, t: nat)
    requires Inv(l, maxBody) && C.In(l.client, t, C.Drawn)
    ensures First(l.client.inbound, t + 1).None?
  {
    forall r | r in l.client.inbound ensures r.id != t + 1 {
      assert r in l.server.wire;
      assert r in l.server.enqueued;
      assert S.Echoes(l.server, r);
    }
    FirstFinds(l.client.inbound, t + 1);
  }

  lemma ClientMoveKeepsInv(l: Link, maxBody: nat, step: C.Step)
    requires Inv(l, maxBody) && !step.Receive? && C.Can(l.client, step) && C.IdsLeft(l.client, step)
    ensures Inv(Do(l, maxBody, ClientMoves(step)), maxBody)
  {
    if step.Register? { NoEarlyReply(l, maxBody, step.t); }
    C.StepKeepsInv(l.client, step);
    C.StepKeepsDeliversFirst(l.client, step);
  }

  lemma ServerMoveKeepsInv(l: Link, maxBody: nat, step: S.Step)
    requires Inv(l, maxBody) && !step.Read? && S.Can(l.server, step)
    ensures Inv(Do(l, maxBody, ServerMoves(step)), maxBody)
  {
    S.StepKeepsShutdownOrder(l.server, maxBody, step);
    S.StepKeepsEcho(l.server, maxBody, step);
    S.StepKeepsRefusals(l.server, maxBody, step);
  }

  /** The next request frame to arrive is numbered consistently and unlike any before it. */
  lemma NextRequestIsNew(l: Link, maxBody: nat)
    requires Inv(l, maxBody) && |l.server.received| < |l.client.outbound|
    ensures var f := l.client.outbound[|l.server.received|];
      f.headerId == f.body.id && forall g :: g in l.server.received ==> g.headerId != f.headerId
  {
    var n := |l.server.received|;
    var f := l.client.outbound[n];
    assert f in l.client.outbound;
    forall g | g in l.server.received ensures g.headerId != f.headerId {
      var i :| 0 <= i < n && l.server.received[i] == g;
      assert g == l.client.outbound[i];
    }
  }

  lemma ArrivalKeepsInv(l: Link, maxBody: nat, step: Step)
    requires Inv(l, maxBody) && Can(l, step) && (step.RequestArrives? || step.ResponseArrives?)
    ensures Inv(Do(l, maxBody, step), maxBody)
  {
    if step.RequestArrives? {
      var f := l.client.outbound[|l.server.received|];
      NextRequestIsNew(l, maxBody);
      S.StepKeepsShutdownOrder(l.server, maxBody, S.Read(f));
      S.StepKeepsEcho(l.server, maxBody, S.Read(f));
      S.StepKeepsRefusals(l.server, maxBody, S.Read(f));
    } else {
      var r := l.server.wire[|l.client.inbound|];
      C.StepKeepsInv(l.client, C.Receive(r));
      C.StepKeepsDeliversFirst(l.client, C.Receive(r));
    }
  }

  lemma StepKeepsInv(l: Link, maxBody: nat, step: Step)
    requires Inv(l, maxBody) && Can(l, step)
    requires |Do(l, maxBody, step).client.calls| < C.ID_SPACE
    ensures Inv(Do(l, maxBody, step), maxBody)
  {
    match step
    case ClientMoves(c) => ClientMoveKeepsInv(l, maxBody, c);
    case ServerMoves(s) => ServerMoveKeepsInv(l, maxBody, s);
    case RequestArrives => ArrivalKeepsInv(l, maxBody, step);
    case ResponseArrives => ArrivalKeepsInv(l, maxBody, step);
  }

  /** `l` is reached by `steps` before the ID counter wraps. */
  ghost predicate Run(maxBody: nat, steps: seq<Step>, l: Link) {
    After(Connected, maxBody, steps) == Some(l) && |l.client.calls| < C.ID_SPACE
  }

  /** The invariant holds in every state any interleaving can reach. */
  lemma {:induction false} ReachableIsSound(maxBody: nat, steps: seq<Step>, l: Link)
    requires Run(maxBody, steps, l)
    ensures Inv(l, maxBody)
    decreases |steps|
  {
    if steps != [] {
      var m := After(Connected, maxBody, steps[..|steps| - 1]).value;
      match steps[|steps| - 1] {
        case ClientMoves(c) => C.CallsOnlyGrow(m.client, c);
        case _ =>
      }
      ReachableIsSound(maxBody, steps[..|steps| - 1], m);
      StepKeepsInv(m, maxBody, steps[|steps| - 1]);
    }
  }

  // ---------------------------------------------------------------- main results

  /** Where a response the client holds comes from. */
  lemma Provenance(l: Link, maxBody: nat, t: nat, r: Response)
    requires Inv(l, maxBody) && C.In(l.client, t, C.Returned(C.Reply(r)))
    ensures r.id == t + 1 && r in l.server.wire && First(l.server.enqueued, r.id) == Some(r)
    ensures r.about.caller == t && exists f :: f in l.server.received && f.body == r.about && f.headerId == r.id
  {
    assert C.CallIsSound(l.client, t);
    var rest := l.server.wire[|l.client.inbound|..] + S.InWriter(l.server) + l.server.queue;
    assert l.server.enqueued == l.client.inbound + rest;
    FirstIsStable(l.client.inbound, rest, t + 1);
    FirstFinds(l.client.inbound, t + 1);
    assert S.Echoes(l.server, r);
    var f :| f in l.server.received && f.body == r.about && f.headerId == f.body.id == r.id;
    assert f in l.client.outbound;
  }

  /** End-to-end routing: whatever the interleaving, a call that returns a response returns the first
      response the server ever enqueued for its request ID, and that one was computed from its own request. */
  lemma RepliesReachTheirCaller(maxBody: nat, steps: seq<Step>, l: Link, t: nat, r: Response)
    requires Run(maxBody, steps, l) && C.In(l.client, t, C.Returned(C.Reply(r)))
    ensures r.about == Request(l.client.calls[t].id, t) && r.id == l.client.calls[t].id
    ensures r in l.server.wire && First(l.server.enqueued, r.id) == Some(r)
  {
    ReachableIsSound(maxBody, steps, l);
    Provenance(l, maxBody, t, r);
  }

  /** A request above the body limit is answered twice by the server; the caller sees the refusal. */
  lemma OversizeCallersSeeTheRefusal(maxBody: nat, steps: seq<Step>, l: Link, f: RequestFrame, r: Response)
    requires Run(maxBody, steps, l) && f in l.client.outbound && S.Oversize(maxBody, f)
    requires C.In(l.client, f.body.caller, C.Returned(C.Reply(r)))
    ensures r.verdict == TooLarge
  {
    ReachableIsSound(maxBody, steps, l);
    Provenance(l, maxBody, f.body.caller, r);
    var g :| g in l.server.received && g.body == r.about && g.headerId == r.id;
    var i :| 0 <= i < |l.client.outbound| && l.client.outbound[i] == f;
    var j :| 0 <= j < |l.server.received| && l.server.received[j] == g;
    assert l.client.outbound[j] == g;
    assert i == j;
  }

  /** Nothing panics: no done channel is closed twice, nothing is sent on a closed writeCh or closes it again; and
      whoever is about to do one of these finds the channel open. */
  lemma NothingPanics(maxBody: nat, steps: seq<Step>, l: Link)
    requires Run(maxBody, steps, l)
    ensures !l.client.panicked && !l.server.panicked
    ensures C.Can(l.client, C.Signal) ==> !l.client.calls[l.client.loop.call].done
    ensures forall id :: C.Can(l.client, C.DrainOne(id)) ==> !l.client.calls[l.client.pending[id]].done
    ensures S.Can(l.server, S.Refuse) || S.Can(l.server, S.CloseQueue) ==> !l.server.queueClosed
    ensures forall k :: S.Can(l.server, S.Answer(k)) ==> !l.server.queueClosed
  {
    ReachableIsSound(maxBody, steps, l);
  }

  /** IDs are pairwise distinct, and registering never overwrites an entry of the pending table. */
  lemma IdsNeverCollide(maxBody: nat, steps: seq<Step>, l: Link)
    requires Run(maxBody, steps, l)
    ensures forall t, u :: 0 <= t < u < |l.client.calls| ==> l.client.calls[t].id != l.client.calls[u].id
    ensures forall t :: 0 <= t < |l.client.calls| && l.client.calls[t].phase.Drawn? ==>
              l.client.calls[t].id !in l.client.pending
  {
    assert C.Inv(l.client) by { ReachableIsSound(maxBody, steps, l); }
    C.IdsAreDistinct(l.client);
  }

  /** A waiting call is listed, in the read loop's hands, or already complete; when the read loop has ended, the
      close exit of its select statement is open. */
  lemma NoCallerIsStranded(maxBody: nat, steps: seq<Step>, l: Link, t: nat)
    requires Run(maxBody, steps, l) && C.In(l.client, t, C.Sent)
    ensures l.client.calls[t].done || C.Expected(l.client, t)
    ensures l.client.loop.Ended? ==> C.Can(l.client, C.WakeClosed(t))
  {
    ReachableIsSound(maxBody, steps, l);
    assert C.CallIsSound(l.client, t);
  }

  /** The frames on the wire are a prefix of the responses enqueued, plus at most one torn frame behind them. */
  lemma WireIsAPrefix(maxBody: nat, steps: seq<Step>, l: Link)
    requires Run(maxBody, steps, l)
    ensures l.server.wire + (if l.server.torn.Some? then [l.server.torn.value] else []) <= l.server.enqueued
    ensures l.client.inbound <= l.server.wire
  {
    ReachableIsSound(maxBody, steps, l);
  }

  /** In every reachable state, whoever on the server faces a full channel has a live writer or a cancelled context. */
  lemma BlockedSenderIsServed(maxBody: nat, steps: seq<Step>, l: Link)
    requires Run(maxBody, steps, l) && !S.SendReady(l.server)
    requires l.server.reader.Refusing? || exists k :: k in l.server.tasks && l.server.tasks[k].Replying?
    ensures !l.server.writer.Stopped? || l.server.cancelled
  {
    assert S.ShutdownIsOrdered(l.server) by { ReachableIsSound(maxBody, steps, l); }
    S.BlockedSenderIsServed(l.server);
  }

  /** From any reachable state in which the server's reader has left its loop, whatever the handlers and the
      writer do next is bounded, and can only stop with handleConnection having returned. */
  lemma ShutdownCompletes(maxBody: nat, steps: seq<Step>, l: Link, more: seq<S.Step>, end: S.Server)
    requires Run(maxBody, steps, l) && S.ShuttingDown(l.server) && S.Leads(l.server, maxBody, more, end)
    ensures |more| <= S.Remaining(l.server) && !end.panicked
    ensures end.reader.Gone? || exists step :: S.Can(end, step) && !step.ParentCancelled?
  {
    assert S.ShutdownIsOrdered(l.server) by { ReachableIsSound(maxBody, steps, l); }
    S.ShutdownCompletes(l.server, maxBody, more, end);
  }

  // ---------------------------------------------------------------- the same wire in bytes

  function Framed(frame: Response -> F.Message, rs: seq<Response>): (ms: seq<F.Message>)
    ensures |ms| == |rs|
  {
    seq(|rs|, i requires 0 <= i < |rs| => frame(rs[i]))
  }

  /** The bytes on the wire are those of the whole frames and a proper part of the one being written or torn. */
  ghost predicate OnTheWire(g: F.Gzip, frame: Response -> F.Message, s: S.Server, k: nat) {
    var ms, n := Framed(frame, s.enqueued), |s.wire|;
    && n <= |ms| && |F.EncodeAll(g, ms[..n])| <= k <= |F.EncodeAll(g, ms)|
    && (n < |ms| ==> k < |F.EncodeAll(g, ms[..n + 1])|)
  }

  /** Whatever part of the last frame has gone out, the byte stream decodes to exactly the frames on the wire, so the
      frames the client takes off the connection are those of the enqueued responses, in order. */
  lemma BytesCarryTheFrames(maxBody: nat, steps: seq<Step>, l: Link, g: F.Gzip, frame: Response -> F.Message, k: nat)
    requires Run(maxBody, steps, l) && OnTheWire(g, frame, l.server, k)
    requires F.Lossless(g) && F.AllFit(g, Framed(frame, l.server.enqueued))
    ensures var bytes := F.EncodeAll(g, Framed(frame, l.server.enqueued))[..k];
      F.DecodeAll(g, bytes).0 == F.SeenAll(g, Framed(frame, l.server.wire))
  {
    var ms, n := Framed(frame, l.server.enqueued), |l.server.wire|;
    assert ms[..n] == Framed(frame, l.server.wire) by { WireIsAPrefix(maxBody, steps, l); }
    F.CutAt(g, ms, n, k);
    F.TruncatedStream(g, ms, k);
  }
}
