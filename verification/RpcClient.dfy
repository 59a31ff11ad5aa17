/** The multiplexing TCP client: concurrent SendRequest calls, the read loop and closeWithError,
    as atomic steps cut at mutex and channel boundaries. */
module RpcClient {
  import opened Arithmetic
  import opened Messages
  import opened Wrappers

  const ID_SPACE: nat := 0x1_0000_0000_0000_0000

  datatype Failure = WriteError | ContextDone | ConnectionClosed | CloseChannel | EmptyBody

  datatype Outcome = Reply(response: Response) | Failed(why: Failure)

  /** Where one SendRequest call stands. */
  datatype Phase =
    | Drawn                       // has an ID, not yet in the pending table
    | Listed                      // in the pending table, frame not written
    | Sent                        // blocked in the select statement
    | Faulted                     // the write failed, entry not yet deleted
    | Quitting                    // ctx.Done was chosen, entry not yet deleted
    | Returned(outcome: Outcome)

  /** One call and its pendingCall record; `done` is whether the channel is closed. */
  datatype Call = Call(id: nat, phase: Phase, done: bool, failed: bool, body: Option<Response>)

  /** The read loop goroutine. */
  datatype Loop =
    | Reading
    | Matching(frame: Response)              // decoded a frame, pendingMu not yet taken
    | Holding(call: nat, frame: Response)    // removed the entry, done not yet closed
    | Ending                                 // read failed, inside the deferred closeWithError
    | Ended

  /** The body of closeOnce. */
  datatype Closing =
    | NotYet
    | Announced     // closeCh is closed
    | Draining      // pendingMu is held, entries are being failed
    | Drained

  /** `outbound` and `inbound` are the frames completely written to and taken off the connection so far. */
  datatype Client = Client(
    nextId: nat, calls: seq<Call>, pending: map<nat, nat>, connected: bool, loop: Loop, closing: Closing,
    linkUp: bool, outbound: seq<RequestFrame>, inbound: seq<Response>, panicked: bool)

  /** The state right after Dial. */
  const Dialled := Client(0, [], map[], true, Reading, NotYet, true, [], [], false)

  datatype Step =
    | Draw
    | Register(t: nat)
    | Write(t: nat, bodyLength: nat)
    | WriteFails(t: nat, broken: bool)
    | Cancel(t: nat)
    | Unlist(t: nat)
    | WakeDone(t: nat)
    | WakeClosed(t: nat)
    | Receive(frame: Response)
    | Match
    | Signal
    | ReadFails
    | EndLoop
    | CloseBegins
    | DrainBegins
    | DrainOne(id: nat)
    | DrainEnds

  predicate PendingMuFree(c: Client) {
    !c.closing.Draining?
  }

  predicate In(c: Client, t: nat, phase: Phase) {
    t < |c.calls| && c.calls[t].phase == phase
  }

  predicate Can(c: Client, step: Step) {
    match step
    case Draw => true
    case Register(t) => In(c, t, Drawn) && PendingMuFree(c)
    case Write(t, _) => In(c, t, Listed) && c.linkUp
    case WriteFails(t, _) => In(c, t, Listed)
    case Cancel(t) => In(c, t, Sent)
    case Unlist(t) => (In(c, t, Faulted) || In(c, t, Quitting)) && PendingMuFree(c)
    case WakeDone(t) => In(c, t, Sent) && c.calls[t].done
    case WakeClosed(t) => In(c, t, Sent) && !c.closing.NotYet?
    case Receive(_) => c.loop.Reading?
    case Match => c.loop.Matching? && PendingMuFree(c)
    case Signal => c.loop.Holding? && c.loop.call < |c.calls|
    case ReadFails => c.loop.Reading?
    case EndLoop => c.loop.Ending? && c.closing.Drained?
    case CloseBegins => c.closing.NotYet?
    case DrainBegins => c.closing.Announced?
    case DrainOne(id) => c.closing.Draining? && id in c.pending && c.pending[id] < |c.calls|
    case DrainEnds => c.closing.Draining? && c.pending == map[]
  }

  function AtPhase(c: Client, t: nat, phase: Phase): Client
    requires t < |c.calls|
  {
    c.(calls := c.calls[t := c.calls[t].(phase := phase)])
  }

  /** Fills in one pendingCall and closes its done channel; closing a closed channel panics. */
  function Complete(c: Client, t: nat, failed: bool, body: Option<Response>): Client
    requires t < |c.calls|
  {
    c.(calls := c.calls[t := c.calls[t].(done := true, failed := failed, body := body)],
       panicked := c.panicked || c.calls[t].done)
  }

  function Do(c: Client, step: Step): Client
    requires Can(c, step)
  {
    match step
    case Draw =>
      var id := (c.nextId + 1) % ID_SPACE;
      c.(nextId := id, calls := c.calls + [Call(id, Drawn, false, false, None)])
    case Register(t) =>
      AtPhase(c, t, Listed).(pending := c.pending[c.calls[t].id := t])
    case Write(t, n) =>
      var id := c.calls[t].id;
      AtPhase(c, t, Sent).(outbound := c.outbound + [RequestFrame(id, n, Request(id, t))])
    case WriteFails(t, broken) =>
      AtPhase(c, t, Faulted).(linkUp := c.linkUp && !broken)
    case Cancel(t) =>
      AtPhase(c, t, Quitting)
    case Unlist(t) =>
      var why := if c.calls[t].phase.Faulted? then WriteError else ContextDone;
      AtPhase(c, t, Returned(Failed(why))).(pending := c.pending - {c.calls[t].id})
    case WakeDone(t) =>
      var call := c.calls[t];
      AtPhase(c, t, Returned(if call.failed then Failed(ConnectionClosed)
                             else if call.body.Some? then Reply(call.body.value) else Failed(EmptyBody)))
    case WakeClosed(t) =>
      AtPhase(c, t, Returned(Failed(CloseChannel)))
    case Receive(r) =>
      c.(loop := Matching(r), inbound := c.inbound + [r])
    case Match =>
      var r := c.loop.frame;
      if r.id in c.pending then
        c.(loop := Holding(c.pending[r.id], r), pending := c.pending - {r.id})
      else
        c.(loop := Reading)
    case Signal =>
      Complete(c, c.loop.call, c.calls[c.loop.call].failed, Some(c.loop.frame)).(loop := Reading)
    case ReadFails => c.(loop := Ending)
    case EndLoop => c.(loop := Ended)
    case CloseBegins => c.(closing := Announced)
    case DrainBegins => c.(closing := Draining, connected := false)
    case DrainOne(id) =>
      Complete(c, c.pending[id], true, c.calls[c.pending[id]].body).(pending := c.pending - {id})
    case DrainEnds => c.(closing := Drained)
  }

  // ---------------------------------------------------------------- what every step keeps

  /** Call t is still going to be completed: listed, or in the read loop's hands. */
  predicate Expected(c: Client, t: nat) {
    (t + 1 in c.pending && c.pending[t + 1] == t) || (c.loop.Holding? && c.loop.call == t)
  }

  /** IDs are dealt in call order, so no two calls ever share one. */
  ghost predicate IdsFollowCalls(c: Client) {
    && c.nextId == |c.calls|
    && forall t :: 0 <= t < |c.calls| ==> c.calls[t].id == t + 1
  }

  ghost predicate PendingIsSound(c: Client) {
    && (forall id :: id in c.pending ==>
          c.pending[id] < |c.calls| && id == c.pending[id] + 1
          && !c.calls[c.pending[id]].phase.Drawn? && !c.calls[c.pending[id]].done)
    && (c.loop.Holding? ==>
          c.loop.call < |c.calls| && c.loop.frame.id == c.loop.call + 1 && c.loop.frame.id !in c.pending
          && !c.calls[c.loop.call].phase.Drawn? && !c.calls[c.loop.call].done)
  }

  ghost predicate CallIsSound(c: Client, t: nat)
    requires t < |c.calls|
  {
    var call := c.calls[t];
    && (call.phase.Drawn? ==> !call.done)
    && (call.phase.Listed? || call.phase.Sent? || call.phase.Faulted? || call.phase.Quitting? ==>
          call.done || Expected(c, t))
    && (call.failed ==> call.done && (c.closing.Draining? || c.closing.Drained?))
    && (call.done && !call.failed ==> call.body.Some?)
    && (call.body.Some? ==> call.done && !call.failed && call.body.value.id == t + 1)
    && (call.phase.Returned? ==>
          match call.phase.outcome
          case Reply(r) => call.body == Some(r)
          case Failed(why) =>
            && why != EmptyBody && (why == CloseChannel ==> !c.closing.NotYet?)
            && (why == ConnectionClosed ==> call.failed))
  }

  ghost predicate OutboundIsSound(c: Client) {
    forall f :: f in c.outbound ==>
      && f.body.caller < |c.calls| && f.headerId == f.body.id == f.body.caller + 1
      && !c.calls[f.body.caller].phase.Drawn? && !c.calls[f.body.caller].phase.Listed?
  }

  ghost predicate OutboundIdsDistinct(c: Client) {
    forall i, j :: 0 <= i < j < |c.outbound| ==> c.outbound[i].headerId != c.outbound[j].headerId
  }

  ghost predicate Inv(c: Client) {
    && !c.panicked
    && IdsFollowCalls(c)
    && PendingIsSound(c)
    && (forall t :: 0 <= t < |c.calls| ==> CallIsSound(c, t))
    && OutboundIsSound(c)
    && OutboundIdsDistinct(c)
    && (c.loop.Ended? ==> c.closing.Drained?)
  }

  /** The 64-bit counter has not wrapped around to zero. */
  predicate IdsLeft(c: Client, step: Step) {
    step.Draw? ==> |c.calls| + 1 < ID_SPACE
  }

  lemma CallsOnlyGrow(c: Client, step: Step)
    requires Can(c, step)
    ensures |c.calls| <= |Do(c, step).calls|
  {
  }

  /** The steps that move an entry of the pending table or complete a call. */
  predicate MovesEntries(step: Step) {
    step.Register? || step.Unlist? || step.Match? || step.Signal? || step.DrainOne?
  }

  ghost predicate TableIsSound(c: Client) {
    !c.panicked && IdsFollowCalls(c) && PendingIsSound(c)
  }

  lemma CompletionKeepsTable(c: Client, step: Step)
    requires TableIsSound(c) && Can(c, step) && (step.Signal? || step.DrainOne?)
    ensures TableIsSound(Do(c, step))
  {
  }

  lemma EntryMoveKeepsTable(c: Client, step: Step)
    requires TableIsSound(c) && Can(c, step) && (step.Register? || step.Unlist? || step.Match?)
    requires step.Register? ==> CallIsSound(c, step.t)
    ensures TableIsSound(Do(c, step))
  {
  }

  lemma OtherStepKeepsTable(c: Client, step: Step)
    requires TableIsSound(c) && Can(c, step) && IdsLeft(c, step) && !MovesEntries(step)
    ensures TableIsSound(Do(c, step))
  {
  }

  lemma StepKeepsPending(c: Client, step: Step)
    requires Inv(c) && Can(c, step) && IdsLeft(c, step)
    ensures TableIsSound(Do(c, step))
  {
    if step.Signal? || step.DrainOne? {
      CompletionKeepsTable(c, step);
    } else if MovesEntries(step) {
      EntryMoveKeepsTable(c, step);
    } else {
      OtherStepKeepsTable(c, step);
    }
  }

  lemma EntryMoveKeepsCall(c: Client, step: Step, t: nat)
    requires Inv(c) && Can(c, step) && MovesEntries(step) && t < |c.calls|
    ensures CallIsSound(Do(c, step), t)
  {
    assert CallIsSound(c, t);
  }

  lemma StepKeepsCall(c: Client, step: Step, t: nat)
    requires Inv(c) && Can(c, step) && IdsLeft(c, step) && t < |Do(c, step).calls|
    ensures CallIsSound(Do(c, step), t)
  {
    if MovesEntries(step) {
      EntryMoveKeepsCall(c, step, t);
    } else if t < |c.calls| {
      assert CallIsSound(c, t);
    }
  }

  lemma WriteKeepsOutbound(c: Client, t: nat, bodyLength: nat)
    requires IdsFollowCalls(c) && OutboundIsSound(c) && OutboundIdsDistinct(c) && Can(c, Write(t, bodyLength))
    ensures OutboundIsSound(Do(c, Write(t, bodyLength))) && OutboundIdsDistinct(Do(c, Write(t, bodyLength)))
  {
    assert forall f :: f in c.outbound ==> f.headerId != t + 1;
    assert forall i :: 0 <= i < |c.outbound| ==> c.outbound[i] in c.outbound;
  }

  lemma StepKeepsOutbound(c: Client, step: Step)
    requires IdsFollowCalls(c) && PendingIsSound(c) && OutboundIsSound(c) && OutboundIdsDistinct(c) && Can(c, step)
    ensures OutboundIsSound(Do(c, step)) && OutboundIdsDistinct(Do(c, step))
  {
    if step.Write? {
      WriteKeepsOutbound(c, step.t, step.bodyLength);
    } else {
      assert Do(c, step).outbound == c.outbound;
    }
  }

  /** Every step of every interleaving keeps the invariant that does not wrap the ID counter. */
  lemma StepKeepsInv(c: Client, step: Step)
    requires Inv(c) && Can(c, step) && IdsLeft(c, step)
    ensures Inv(Do(c, step))
  {
    StepKeepsPending(c, step);
    StepKeepsOutbound(c, step);
    forall t | 0 <= t < |Do(c, step).calls| ensures CallIsSound(Do(c, step), t) {
      StepKeepsCall(c, step, t);
    }
  }

  lemma IdsAreDistinct(c: Client)
    requires Inv(c)
    ensures forall t, u :: 0 <= t < u < |c.calls| ==> c.calls[t].id != c.calls[u].id
    ensures forall t :: 0 <= t < |c.calls| && c.calls[t].phase.Drawn? ==> c.calls[t].id !in c.pending
  {
  }

  // ---------------------------------------------------------------- the drain is one critical section

  /** While the drain holds pendingMu nobody else moves an entry, and no new one appears. */
  lemma DrainHoldsTheTable(c: Client, step: Step)
    requires Can(c, step) && c.closing.Draining?
    ensures if step.DrainOne? then Do(c, step).pending == c.pending - {step.id} else Do(c, step).pending == c.pending
  {
  }

  /** From the state d in which the drain took pendingMu, every call listed then is listed still or has failed. */
  ghost predicate DrainedSince(d: Client, c: Client) {
    forall id :: id in d.pending ==>
      && d.pending[id] < |c.calls|
      && (c.calls[d.pending[id]].failed || (id in c.pending && c.pending[id] == d.pending[id]))
  }

  lemma StepKeepsDrained(d: Client, c: Client, step: Step)
    requires DrainedSince(d, c) && Can(c, step) && c.closing.Draining?
    ensures DrainedSince(d, Do(c, step))
  {
  }

  /** The state after a sequence of steps all taken while the drain holds pendingMu. */
  ghost predicate WhileDraining(d: Client, steps: seq<Step>, c: Client)
    decreases |steps|
  {
    && After(d, steps) == Some(c) && c.closing.Draining?
    && (steps == [] || WhileDraining(d, steps[..|steps| - 1], After(d, steps[..|steps| - 1]).value))
  }

  lemma {:induction false} DrainKeepsItsCalls(d: Client, steps: seq<Step>, c: Client)
    requires WhileDraining(d, steps, c) && PendingIsSound(d)
    ensures DrainedSince(d, c)
    decreases |steps|
  {
    if steps != [] {
      var m := After(d, steps[..|steps| - 1]).value;
      DrainKeepsItsCalls(d, steps[..|steps| - 1], m);
      StepKeepsDrained(d, m, steps[|steps| - 1]);
    }
  }

  /** Whatever the senders and the read loop do meanwhile, when the drain is over every call that was listed when it
      began has failed. */
  lemma DrainFailsTheListed(d: Client, steps: seq<Step>, c: Client, id: nat)
    requires WhileDraining(d, steps, c) && PendingIsSound(d) && Can(c, DrainEnds) && id in d.pending
    ensures d.pending[id] < |c.calls| && c.calls[d.pending[id]].failed
  {
    DrainKeepsItsCalls(d, steps, c);
  }

  // ---------------------------------------------------------------- when IDs come round again

  /** Call number t has ID t + 1 modulo 2^64. */
  ghost predicate IdsAreCounted(c: Client) {
    && c.nextId == |c.calls| % ID_SPACE
    && forall t :: 0 <= t < |c.calls| ==> c.calls[t].id == (t + 1) % ID_SPACE
  }

  lemma StepKeepsCount(c: Client, step: Step)
    requires IdsAreCounted(c) && Can(c, step)
    ensures IdsAreCounted(Do(c, step))
  {
    if step.Draw? { assert (c.nextId + 1) % ID_SPACE == (|c.calls| + 1) % ID_SPACE; }
  }

  lemma {:induction false} RunIsCounted(steps: seq<Step>, c: Client)
    requires After(Dialled, steps) == Some(c)
    ensures IdsAreCounted(c)
    decreases |steps|
  {
    if steps != [] {
      RunIsCounted(steps[..|steps| - 1], After(Dialled, steps[..|steps| - 1]).value);
      StepKeepsCount(After(Dialled, steps[..|steps| - 1]).value, steps[|steps| - 1]);
    }
  }

  lemma SameId(t: nat, u: nat, space: nat)
    requires space > 0
    ensures (t + 1) % space == (u + 1) % space <==> (u - t) % space == 0
  {
    SameRemainder(t + 1, u + 1, space);
    assert (u + 1) - (t + 1) == u - t;
  }

  /** Over every run, of any length: two calls have the same ID exactly when a multiple of 2^64 lies between them. */
  lemma IdsRepeatIff(steps: seq<Step>, c: Client, t: nat, u: nat)
    requires After(Dialled, steps) == Some(c) && t < u < |c.calls|
    ensures c.calls[t].id == c.calls[u].id <==> (u - t) % 0x1_0000_0000_0000_0000 == 0
  {
    assert c.calls[t].id == (t + 1) % ID_SPACE && c.calls[u].id == (u + 1) % ID_SPACE by { RunIsCounted(steps, c); }
    SameId(t, u, ID_SPACE);
  }

  // ---------------------------------------------------------------- first reply wins

  /** The frames the read loop has already matched against the pending table. */
  function Settled(c: Client): seq<Response> {
    if c.loop.Matching? && c.inbound != [] then c.inbound[..|c.inbound| - 1] else c.inbound
  }

  /** No frame for a listed call has gone by, and what a call holds is the first frame with its ID. */
  ghost predicate DeliversFirst(c: Client) {
    && (c.loop.Matching? ==> c.inbound != [] && c.inbound[|c.inbound| - 1] == c.loop.frame)
    && (forall id :: id in c.pending ==> First(Settled(c), id).None?)
    && (c.loop.Holding? ==> First(c.inbound, c.loop.frame.id) == Some(c.loop.frame))
    && (forall t :: 0 <= t < |c.calls| && c.calls[t].body.Some? ==> First(c.inbound, t + 1) == c.calls[t].body)
  }

  lemma ReceiveKeepsDeliversFirst(c: Client, r: Response)
    requires Inv(c) && DeliversFirst(c) && Can(c, Receive(r))
    ensures DeliversFirst(Do(c, Receive(r)))
  {
    assert (c.inbound + [r])[..|c.inbound + [r]| - 1] == c.inbound;
    forall id: nat ensures First(c.inbound, id).Some? ==> First(c.inbound + [r], id) == First(c.inbound, id) {
      FirstAfterAppend(c.inbound, r, id);
    }
  }

  lemma MatchKeepsDeliversFirst(c: Client)
    requires Inv(c) && DeliversFirst(c) && Can(c, Match)
    ensures DeliversFirst(Do(c, Match))
  {
    var r := c.loop.frame;
    assert c.inbound == Settled(c) + [r];
    forall id: nat ensures First(c.inbound, id) ==
        if First(Settled(c), id).Some? then First(Settled(c), id) else if r.id == id then Some(r) else None {
      FirstAfterAppend(Settled(c), r, id);
    }
  }

  /** A step that takes no frame off the connection and matches none. */
  lemma QuietKeepsDeliversFirst(c: Client, step: Step)
    requires TableIsSound(c) && DeliversFirst(c) && Can(c, step) && !step.Receive? && !step.Match?
    requires step.Register? ==> First(c.inbound, step.t + 1).None?
    ensures DeliversFirst(Do(c, step))
  {
    var d := Do(c, step);
    assert d.inbound == c.inbound && Settled(d) == Settled(c);
  }

  lemma StepKeepsDeliversFirst(c: Client, step: Step)
    requires Inv(c) && DeliversFirst(c) && Can(c, step)
    requires step.Register? ==> First(c.inbound, step.t + 1).None?
    ensures DeliversFirst(Do(c, step))
  {
    if step.Receive? {
      ReceiveKeepsDeliversFirst(c, step.frame);
    } else if step.Match? {
      MatchKeepsDeliversFirst(c);
    } else {
      QuietKeepsDeliversFirst(c, step);
    }
  }

  // ---------------------------------------------------------------- runs

  /** The state after a sequence of steps, if each of them was possible when it was taken. */
  function After(c: Client, steps: seq<Step>): (r: Option<Client>)
    decreases |steps|
  {
    if steps == [] then Some(c)
    else
      match After(c, steps[..|steps| - 1])
      case None => None
      case Some(m) => if Can(m, steps[|steps| - 1]) then Some(Do(m, steps[|steps| - 1])) else None
  }

  lemma AfterOneMore(c: Client, steps: seq<Step>, step: Step)
    requires After(c, steps).Some? && Can(After(c, steps).value, step)
    ensures After(c, steps + [step]) == Some(Do(After(c, steps).value, step))
  {
    assert (steps + [step])[..|steps + [step]| - 1] == steps;
  }

  // ---------------------------------------------------------------- the code of the atomic sections

  /** The call records with exactly the given IDs failed. */
  function FailedCalls(calls: seq<Call>, ids: set<nat>): (r: seq<Call>)
    ensures |r| == |calls|
  {
    seq(|calls|, t requires 0 <= t < |calls| =>
      if t + 1 in ids then calls[t].(done := true, failed := true) else calls[t])
  }

  lemma FailOneMore(calls: seq<Call>, ids: set<nat>, id: nat)
    requires 1 <= id <= |calls| && id !in ids
    ensures FailedCalls(calls, ids)[id - 1 := FailedCalls(calls, ids)[id - 1].(done := true, failed := true)]
         == FailedCalls(calls, ids + {id})
  {
  }

  /** The cases of SendRequest's select. */
  datatype Exit = DoneClosed | ContextOver | CloseChClosed

  class MuxClient {
    var nextId: nat
    var calls: seq<Call>
    var pending: map<nat, nat>
    var connected: bool
    var loop: Loop
    var closing: Closing
    var linkUp: bool
    var outbound: seq<RequestFrame>
    var inbound: seq<Response>
    var panicked: bool

    function State(): Client
      reads this
    {
      Client(nextId, calls, pending, connected, loop, closing, linkUp, outbound, inbound, panicked)
    }

    constructor Dial()
      ensures State() == Dialled && Inv(State())
    {
      nextId, calls, pending, connected, loop, closing := 0, [], map[], true, Reading, NotYet;
      linkUp, outbound, inbound, panicked := true, [], [], false;
    }

    /** One critical section, executed as the step it is. */
    ghost method Took(c: Client, steps: seq<Step>, step: Step) returns (trace: seq<Step>)
      requires After(c, steps).Some? && Inv(After(c, steps).value)
      requires Can(After(c, steps).value, step) && IdsLeft(After(c, steps).value, step)
      requires State() == Do(After(c, steps).value, step)
      ensures trace == steps + [step] && After(c, trace) == Some(State()) && Inv(State())
    {
      StepKeepsInv(After(c, steps).value, step);
      AfterOneMore(c, steps, step);
      trace := steps + [step];
    }

    /** nextRequestID, and the pendingCall made for it. */
    method DrawId() returns (t: nat)
      requires Inv(State()) && IdsLeft(State(), Draw)
      modifies `nextId, `calls
      ensures State() == Do(old(State()), Draw) && Inv(State()) && t == old(|calls|) && calls[t].id == nextId == t + 1
    {
      t := |calls|;
      nextId := (nextId + 1) % ID_SPACE;
      calls := calls + [Call(nextId, Drawn, false, false, None)];
      StepKeepsInv(old(State()), Draw);
    }

    /** The start of SendRequest, up to and including the registration: no entry is overwritten. */
    method RegisterCall() returns (t: nat)
      requires Inv(State()) && |calls| + 1 < ID_SPACE && PendingMuFree(State())
      modifies `nextId, `calls, `pending
      ensures Inv(State()) && t == old(|calls|) && pending == old(pending)[t + 1 := t] && t + 1 !in old(pending)
      ensures calls == old(calls) + [Call(t + 1, Listed, false, false, None)]
    {
      t := DrawId();
      ghost var drawn := State();
      IdsAreDistinct(drawn);
      pending := pending[nextId := t];
      calls := calls[t := calls[t].(phase := Listed)];
      assert State() == Do(drawn, Register(t));
      StepKeepsInv(drawn, Register(t));
    }

    /** SendRequest's write under writeMu; a failure deletes the entry and returns. */
    method WriteFrame(t: nat, bodyLength: nat, ok: bool, broken: bool) returns (ghost trace: seq<Step>)
      requires Inv(State()) && In(State(), t, Listed) && if ok then linkUp else PendingMuFree(State())
      modifies `calls, `pending, `linkUp, `outbound
      ensures After(old(State()), trace) == Some(State()) && Inv(State())
      ensures ok ==> In(State(), t, Sent) && pending == old(pending)
      ensures ok ==> outbound == old(outbound) + [RequestFrame(t + 1, bodyLength, Request(t + 1, t))]
      ensures !ok ==> In(State(), t, Returned(Failed(WriteError))) && pending == old(pending) - {t + 1}
      ensures !ok ==> outbound == old(outbound)
      ensures linkUp == (old(linkUp) && (ok || !broken))
    {
      var id := calls[t].id;
      if ok {
        outbound := outbound + [RequestFrame(id, bodyLength, Request(id, t))];
        calls := calls[t := calls[t].(phase := Sent)];
        trace := Took(old(State()), [], Write(t, bodyLength));
      } else {
        linkUp := linkUp && !broken;
        calls := calls[t := calls[t].(phase := Faulted)];
        trace := Took(old(State()), [], WriteFails(t, broken));
        pending := pending - {id};
        calls := calls[t := calls[t].(phase := Returned(Failed(WriteError)))];
        trace := Took(old(State()), trace, Unlist(t));
      }
    }

    /** The context is done: delete the entry and return. */
    method GiveUp(t: nat) returns (ghost trace: seq<Step>)
      requires Inv(State()) && In(State(), t, Sent) && PendingMuFree(State())
      modifies `calls, `pending
      ensures After(old(State()), trace) == Some(State()) && Inv(State())
      ensures In(State(), t, Returned(Failed(ContextDone))) && pending == old(pending) - {t + 1}
    {
      calls := calls[t := calls[t].(phase := Quitting)];
      trace := Took(old(State()), [], Cancel(t));
      pending := pending - {calls[t].id};
      calls := calls[t := calls[t].(phase := Returned(Failed(ContextDone)))];
      trace := Took(old(State()), trace, Unlist(t));
    }

    /** SendRequest's select, given which of its cases is taken. */
    method Await(t: nat, exit: Exit) returns (outcome: Outcome, ghost trace: seq<Step>)
      requires Inv(State()) && In(State(), t, Sent)
      requires match exit
        case DoneClosed => calls[t].done
        case ContextOver => PendingMuFree(State())
        case CloseChClosed => !closing.NotYet?
      modifies `calls, `pending
      ensures After(old(State()), trace) == Some(State()) && Inv(State()) && In(State(), t, Returned(outcome))
      ensures match exit
        case DoneClosed =>
          if old(calls)[t].failed then outcome == Failed(ConnectionClosed)
          else old(calls)[t].body.Some? && outcome == Reply(old(calls)[t].body.value) && outcome.response.id == t + 1
        case ContextOver => outcome == Failed(ContextDone) && t + 1 !in pending
        case CloseChClosed => outcome == Failed(CloseChannel)
    {
      assert CallIsSound(State(), t);
      match exit {
        case DoneClosed =>
          outcome := if calls[t].failed then Failed(ConnectionClosed) else Reply(calls[t].body.value);
          calls := calls[t := calls[t].(phase := Returned(outcome))];
          trace := Took(old(State()), [], WakeDone(t));
        case ContextOver =>
          outcome := Failed(ContextDone);
          trace := GiveUp(t);
        case CloseChClosed =>
          outcome := Failed(CloseChannel);
          calls := calls[t := calls[t].(phase := Returned(outcome))];
          trace := Took(old(State()), [], WakeClosed(t));
      }
    }

    /** The read loop's section under pendingMu: look the frame's ID up and delete the entry. */
    method TakeEntry() returns (ok: bool, ghost trace: seq<Step>)
      requires Inv(State()) && loop.Matching? && PendingMuFree(State())
      modifies `pending, `loop
      ensures After(old(State()), trace) == Some(State()) && Inv(State())
      ensures ok == (old(loop).frame.id in old(pending))
      ensures ok ==> loop == Holding(old(pending)[old(loop).frame.id], old(loop).frame)
      ensures !ok ==> loop == Reading
      ensures pending == old(pending) - {old(loop).frame.id}
    {
      var frame := loop.frame;
      ok := frame.id in pending;
      if ok {
        pending, loop := pending - {frame.id}, Holding(pending[frame.id], frame);
      } else {
        loop := Reading;
        assert pending == pending - {frame.id};
      }
      trace := Took(old(State()), [], Match);
    }

    /** The read loop's delivery: store the body, close done. */
    method Deliver() returns (ghost trace: seq<Step>)
      requires Inv(State()) && loop.Holding?
      modifies `calls, `loop, `panicked
      ensures After(old(State()), trace) == Some(State()) && Inv(State())
      ensures loop == Reading
      ensures old(loop).call < old(|calls|)
      ensures var t := old(loop).call;
        calls == old(calls)[t := old(calls)[t].(body := Some(old(loop).frame), done := true)]
    {
      var t := loop.call;
      panicked := panicked || calls[t].done;
      calls, loop := calls[t := calls[t].(body := Some(loop.frame), done := true)], Reading;
      trace := Took(old(State()), [], Signal);
    }

    /** One round of closeWithError's loop over the pending table. */
    method FailEntry(id: nat, ghost start: Client, ghost steps: seq<Step>) returns (ghost trace: seq<Step>)
      requires Inv(State()) && closing.Draining? && id in pending && After(start, steps) == Some(State())
      modifies `calls, `pending, `panicked
      ensures After(start, trace) == Some(State()) && Inv(State())
      ensures pending == old(pending) - {id} && 1 <= id <= old(|calls|)
      ensures calls == old(calls)[id - 1 := old(calls)[id - 1].(done := true, failed := true)]
    {
      var t := pending[id];
      panicked := panicked || calls[t].done;
      calls := calls[t := calls[t].(failed := true, done := true)];
      pending := pending - {id};
      trace := Took(start, steps, DrainOne(id));
    }

    /** The drain: every pending call is failed, nothing else changes. */
    method FailAllPending() returns (ghost trace: seq<Step>)
      requires Inv(State()) && closing.Draining?
      modifies `calls, `pending, `panicked
      ensures After(old(State()), trace) == Some(State()) && Inv(State())
      ensures pending == map[] && calls == FailedCalls(old(calls), old(pending).Keys)
    {
      trace := [];
      while pending != map[]
        invariant After(old(State()), trace) == Some(State()) && Inv(State())
        invariant pending.Keys <= old(pending).Keys
        invariant calls == FailedCalls(old(calls), old(pending).Keys - pending.Keys)
        decreases pending.Keys
      {
        var id :| id in pending;
        ghost var failedSoFar := old(pending).Keys - pending.Keys;
        trace := FailEntry(id, old(State()), trace);
        FailOneMore(old(calls), failedSoFar, id);
        assert old(pending).Keys - pending.Keys == failedSoFar + {id};
      }
      assert old(pending).Keys - pending.Keys == old(pending).Keys;
    }

    /** Closing closeCh, and taking pendingMu. */
    method BeginClosing()
      requires Inv(State()) && closing.NotYet?
      modifies `closing, `connected
      ensures Inv(State()) && closing == Draining && !connected
    {
      StepKeepsInv(State(), CloseBegins);
      closing := Announced;
      StepKeepsInv(State(), DrainBegins);
      closing, connected := Draining, false;
    }

    /** closeWithError: closeOnce lets one caller through, who fails every pending call. */
    method CloseWithError()
      requires Inv(State()) && (closing.NotYet? || closing.Drained?)
      modifies this
      ensures Inv(State()) && closing == Drained
      ensures old(closing).Drained? ==> State() == old(State())
      ensures old(closing).NotYet? ==> !connected && pending == map[]
      ensures old(closing).NotYet? ==> calls == FailedCalls(old(calls), old(pending).Keys)
      ensures linkUp == old(linkUp) && loop == old(loop) && outbound == old(outbound) && inbound == old(inbound)
    {
      if closing.Drained? { return; }
      BeginClosing();
      var _ := FailAllPending();
      StepKeepsInv(State(), DrainEnds);
      closing := Drained;
    }

    /** The read loop after a failed read: the deferred closeWithError, and the end. */
    method EndReadLoop()
      requires Inv(State()) && loop.Reading? && (closing.NotYet? || closing.Drained?)
      modifies this
      ensures Inv(State()) && loop == Ended && closing == Drained && linkUp == old(linkUp)
      ensures outbound == old(outbound) && inbound == old(inbound)
      ensures old(closing).Drained? ==> calls == old(calls) && pending == old(pending)
      ensures old(closing).NotYet? ==> pending == map[] && calls == FailedCalls(old(calls), old(pending).Keys)
    {
      StepKeepsInv(State(), ReadFails);
      loop := Ending;
      CloseWithError();
      StepKeepsInv(State(), EndLoop);
      loop := Ended;
    }
  }
}
