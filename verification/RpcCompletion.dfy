/** Everything a connection has begun comes to an end: without new calls every schedule is bounded, and once closing
    is under way it can only stop with every call returned. */
module RpcCompletion {
  import C = RpcClient
  import L = RpcLink
  import S = RpcServer

  // ---------------------------------------------------------------- what is left to do

  /** What one request frame on its way to the server may still cause, and one response frame to the client. */
  const REQUEST_WORK: nat := 15
  const RESPONSE_WORK: nat := 3

  function PhaseWork(p: C.Phase): nat {
    match p
    case Drawn => REQUEST_WORK + 5
    case Listed => REQUEST_WORK + 3
    case Sent => 2
    case Faulted => 1
    case Quitting => 1
    case Returned(_) => 0
  }

  function CallWork(calls: seq<C.Call>): nat {
    if calls == [] then 0 else CallWork(calls[..|calls| - 1]) + PhaseWork(calls[|calls| - 1].phase)
  }

  lemma {:induction false} CallWorkUpdate(calls: seq<C.Call>, t: nat, call: C.Call)
    requires t < |calls|
    ensures CallWork(calls[t := call]) == CallWork(calls) - PhaseWork(calls[t].phase) + PhaseWork(call.phase)
  {
    var n := |calls| - 1;
    if t < n {
      CallWorkUpdate(calls[..n], t, call);
      assert calls[t := call][..n] == calls[..n][t := call];
    } else {
      assert calls[t := call][..n] == calls[..n];
    }
  }

  function LoopWork(loop: C.Loop): nat {
    match loop
    case Matching(_) => 4
    case Holding(_, _) => 3
    case Reading => 2
    case Ending => 1
    case Ended => 0
  }

  function ClosingWork(closing: C.Closing): nat {
    match closing
    case NotYet => 3
    case Announced => 2
    case Draining => 1
    case Drained => 0
  }

  function ClientWork(c: C.Client): nat {
    CallWork(c.calls) + |c.pending| + LoopWork(c.loop) + ClosingWork(c.closing)
  }

  function ReaderWork(reader: S.Reader): nat {
    match reader
    case Refusing(_) => 17
    case Launching(_) => 11
    case Scanning => 3
    case Leaving => 2
    case Sealed => 1
    case Gone => 0
  }

  function WriterWork(writer: S.Writer): nat {
    match writer
    case Writing(_) => 6
    case Idle => 2
    case Aborting => 1
    case Stopped => 0
  }

  ghost function ServerWork(s: S.Server): nat {
    6 * |s.tasks| + |S.RunningTasks(s.tasks)| + 5 * |s.queue| + ReaderWork(s.reader) + WriterWork(s.writer)
    + if s.cancelled then 0 else 1
  }

  /** The work of both ends and of the frames between them. */
  ghost function LinkWork(l: L.Link): int {
    ClientWork(l.client) + ServerWork(l.server)
    + REQUEST_WORK * (|l.client.outbound| - |l.server.received|)
    + RESPONSE_WORK * (|l.server.wire| - |l.client.inbound|)
  }

  // ---------------------------------------------------------------- every step leaves less

  /** A step of one sender: its call moves on, and the frame it may have written is paid for. */
  lemma SenderShrinks(c: C.Client, step: C.Step)
    requires C.Inv(c) && C.Can(c, step)
    requires step.Register? || step.Write? || step.WriteFails? || step.Cancel? || step.Unlist? || step.WakeDone?
          || step.WakeClosed?
    ensures var d := C.Do(c, step);
      && ClientWork(d) + REQUEST_WORK * (|d.outbound| - |c.outbound|) < ClientWork(c)
      && |d.calls| == |c.calls| && d.inbound == c.inbound
  {
    var d, t := C.Do(c, step), step.t;
    assert d.calls == c.calls[t := d.calls[t]];
    CallWorkUpdate(c.calls, t, d.calls[t]);
    if step.Register? { C.IdsAreDistinct(c); }
    if step.Unlist? { assert d.pending.Keys == c.pending.Keys - {c.calls[t].id}; }
  }

  /** The read loop or the closer completes a call. */
  lemma CompletionShrinks(c: C.Client, step: C.Step)
    requires C.TableIsSound(c) && C.Can(c, step) && (step.Signal? || step.DrainOne?)
    ensures var d := C.Do(c, step);
      ClientWork(d) < ClientWork(c) && d.outbound == c.outbound && |d.calls| == |c.calls| && d.inbound == c.inbound
  {
    var d, t := C.Do(c, step), if step.Signal? then c.loop.call else c.pending[step.id];
    CallWorkUpdate(c.calls, t, d.calls[t]);
    if step.DrainOne? { assert d.pending.Keys == c.pending.Keys - {step.id}; }
  }

  /** Another step of the read loop or of the closer. */
  lemma LoopShrinks(c: C.Client, step: C.Step)
    requires C.Can(c, step)
    requires step.Match? || step.ReadFails? || step.EndLoop? || step.CloseBegins? || step.DrainBegins?
          || step.DrainEnds?
    ensures var d := C.Do(c, step);
      ClientWork(d) < ClientWork(c) && d.outbound == c.outbound && |d.calls| == |c.calls| && d.inbound == c.inbound
  {
    var d := C.Do(c, step);
    assert d.calls == c.calls;
    if step.Match? && c.loop.frame.id in c.pending {
      assert d.pending.Keys == c.pending.Keys - {c.loop.frame.id};
    }
  }

  lemma HandlerShrinks(s: S.Server, maxBody: nat, step: S.Step)
    requires S.ShutdownIsOrdered(s) && S.Can(s, step)
    requires step.Launch? || step.Finish? || step.Answer? || step.Drop?
    ensures var t := S.Do(s, maxBody, step);
      ServerWork(t) < ServerWork(s) && t.received == s.received && t.wire == s.wire
  {
    var t := S.Do(s, maxBody, step);
    match step {
      case Launch => S.TaskAdded(s.tasks, s.nextTask, s.reader.frame);
      case Finish(k, _) => S.TaskFinished(s.tasks, k, t.tasks[k].response);
      case Answer(k) => S.TaskRemoved(s.tasks, k);
      case Drop(k) => S.TaskRemoved(s.tasks, k);
    }
  }

  /** A step of the reader or the writer; a frame the writer puts on the wire is paid for. */
  lemma ServerShrinks(s: S.Server, maxBody: nat, step: S.Step)
    requires S.ShutdownIsOrdered(s) && S.Can(s, step) && !step.Read?
    ensures var t := S.Do(s, maxBody, step);
      ServerWork(t) + RESPONSE_WORK * (|t.wire| - |s.wire|) < ServerWork(s) && t.received == s.received
  {
    if step.Launch? || step.Finish? || step.Answer? || step.Drop? {
      HandlerShrinks(s, maxBody, step);
    } else {
      assert S.Do(s, maxBody, step).tasks == s.tasks;
    }
  }

  lemma ClientShrinks(c: C.Client, step: C.Step)
    requires C.Inv(c) && C.Can(c, step) && !step.Draw? && !step.Receive?
    ensures var d := C.Do(c, step);
      && ClientWork(d) + REQUEST_WORK * (|d.outbound| - |c.outbound|) < ClientWork(c)
      && |d.calls| == |c.calls| && d.inbound == c.inbound
  {
    match step {
      case Signal => CompletionShrinks(c, step);
      case DrainOne(_) => CompletionShrinks(c, step);
      case Match => LoopShrinks(c, step);
      case ReadFails => LoopShrinks(c, step);
      case EndLoop => LoopShrinks(c, step);
      case CloseBegins => LoopShrinks(c, step);
      case DrainBegins => LoopShrinks(c, step);
      case DrainEnds => LoopShrinks(c, step);
      case _ => SenderShrinks(c, step);
    }
  }

  lemma ArrivalShrinks(l: L.Link, maxBody: nat, step: L.Step)
    requires L.Can(l, step) && (step.RequestArrives? || step.ResponseArrives?)
    ensures LinkWork(L.Do(l, maxBody, step)) < LinkWork(l)
  {
    assert L.Do(l, maxBody, step).server.tasks == l.server.tasks;
  }

  predicate IsDraw(step: L.Step) {
    step.ClientMoves? && step.client.Draw?
  }

  lemma LinkShrinks(l: L.Link, maxBody: nat, step: L.Step)
    requires L.Inv(l, maxBody) && L.Can(l, step) && !IsDraw(step)
    ensures LinkWork(L.Do(l, maxBody, step)) < LinkWork(l)
    ensures |L.Do(l, maxBody, step).client.calls| == |l.client.calls|
  {
    match step {
      case ClientMoves(c) =>
        ClientShrinks(l.client, c);
      case ServerMoves(s) => ServerShrinks(l.server, maxBody, s);
      case _ => ArrivalShrinks(l, maxBody, step);
    }
  }

  lemma WorkIsNatural(l: L.Link, maxBody: nat)
    requires L.Inv(l, maxBody)
    ensures LinkWork(l) >= 0
  {
  }

  // ---------------------------------------------------------------- schedules

  /** `steps` leads from l to `end` without a new call. */
  ghost predicate Leads(l: L.Link, maxBody: nat, steps: seq<L.Step>, end: L.Link)
    decreases |steps|
  {
    if steps == [] then l == end
    else L.Can(l, steps[0]) && !IsDraw(steps[0]) && Leads(L.Do(l, maxBody, steps[0]), maxBody, steps[1..], end)
  }

  /** Nobody runs for ever: from a state of the invariant every schedule without new calls is bounded. */
  lemma {:induction false} SchedulesAreBounded(l: L.Link, maxBody: nat, steps: seq<L.Step>, end: L.Link)
    requires L.Inv(l, maxBody) && |l.client.calls| < C.ID_SPACE && Leads(l, maxBody, steps, end)
    ensures |steps| + LinkWork(end) <= LinkWork(l) && L.Inv(end, maxBody)
    ensures Underway(l.client) ==> Underway(end.client)
    decreases |steps|
  {
    if steps != [] {
      LinkShrinks(l, maxBody, steps[0]);
      L.StepKeepsInv(l, maxBody, steps[0]);
      if Underway(l.client) { StaysUnderway(l, maxBody, steps[0]); }
      SchedulesAreBounded(L.Do(l, maxBody, steps[0]), maxBody, steps[1..], end);
    }
  }

  // ---------------------------------------------------------------- closing

  /** closeWithError has begun, or the read loop is on its way there. */
  predicate Underway(c: C.Client) {
    !c.closing.NotYet? || c.loop.Ending? || c.loop.Ended?
  }

  lemma ClientStaysUnderway(c: C.Client, step: C.Step)
    requires C.Can(c, step) && Underway(c)
    ensures Underway(C.Do(c, step))
  {
  }

  lemma StaysUnderway(l: L.Link, maxBody: nat, step: L.Step)
    requires L.Can(l, step) && Underway(l.client)
    ensures Underway(L.Do(l, maxBody, step).client)
  {
    if step.ClientMoves? { ClientStaysUnderway(l.client, step.client); }
  }

  /** The drain of closeWithError is over and nobody is inside SendRequest. */
  predicate Finished(c: C.Client) {
    c.closing.Drained? && forall t :: 0 <= t < |c.calls| ==> c.calls[t].phase.Returned?
  }

  /** The steps the client takes by itself: they wait for no frame, no cancelled context and no failing read. */
  predicate Own(step: C.Step) {
    !step.Draw? && !step.Receive? && !step.Cancel? && !step.ReadFails?
  }

  /** While closing is under way and anything is left to do, the client has a step of its own. */
  lemma ClosingNeverSticks(c: C.Client) returns (step: C.Step)
    requires C.Inv(c) && Underway(c) && !Finished(c)
    ensures Own(step) && C.Can(c, step)
  {
    match c.closing {
      case NotYet => step := C.CloseBegins;
      case Announced => step := C.DrainBegins;
      case Draining =>
        if c.pending == map[] {
          step := C.DrainEnds;
        } else {
          var id :| id in c.pending;
          step := C.DrainOne(id);
        }
      case Drained =>
        var t :| 0 <= t < |c.calls| && !c.calls[t].phase.Returned?;
        match c.calls[t].phase {
          case Drawn => step := C.Register(t);
          case Listed => step := C.WriteFails(t, false);
          case Sent => step := C.WakeClosed(t);
          case Faulted => step := C.Unlist(t);
          case Quitting => step := C.Unlist(t);
        }
    }
  }

  /** Every waiter gets out: from any reachable state in which closeWithError has begun or the read loop has ended,
      every schedule of client, server and network without new calls is bounded, and it can only stop with the
      drain over and every call returned. */
  lemma EveryWaiterGetsOut(maxBody: nat, steps: seq<L.Step>, l: L.Link, more: seq<L.Step>, end: L.Link)
    requires L.Run(maxBody, steps, l) && Underway(l.client) && Leads(l, maxBody, more, end)
    ensures |more| <= LinkWork(l)
    ensures Finished(end.client) || exists step :: Own(step) && L.Can(end, L.ClientMoves(step))
  {
    L.ReachableIsSound(maxBody, steps, l);
    SchedulesAreBounded(l, maxBody, more, end);
    WorkIsNatural(end, maxBody);
    if !Finished(end.client) {
      var step := ClosingNeverSticks(end.client);
      assert L.Can(end, L.ClientMoves(step));
    }
  }

  /** The same without closing: what a connection has begun is bounded from every reachable state. */
  lemma WithoutNewCallsEverythingEnds(maxBody: nat, steps: seq<L.Step>, l: L.Link, more: seq<L.Step>, end: L.Link)
    requires L.Run(maxBody, steps, l) && Leads(l, maxBody, more, end)
    ensures |more| <= LinkWork(l)
  {
    L.ReachableIsSound(maxBody, steps, l);
    SchedulesAreBounded(l, maxBody, more, end);
    WorkIsNatural(end, maxBody);
  }
}
