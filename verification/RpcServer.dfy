/** One server connection: the reader loop, a goroutine per handler, the single writer goroutine and the
    shutdown order, as atomic steps over the bounded response channel. No request semaphore is configured. */
module RpcServer {
  import opened Wrappers
  import opened Messages

  const QUEUE_CAPACITY: nat := 64

  datatype Reader =
    | Scanning
    | Refusing(frame: RequestFrame)     // sending the "too large" reply
    | Launching(frame: RequestFrame)    // about to start the handler goroutine
    | Leaving                           // left the loop, in handlersWg.Wait
    | Sealed                            // closed writeCh, in writerWg.Wait
    | Gone

  datatype Writer = Idle | Writing(response: Response) | Aborting | Stopped

  datatype Task = Running(frame: RequestFrame) | Replying(response: Response)

  /** `received`, `enqueued` and `wire` are histories: frames read, responses sent on the channel, and
      response frames written completely; `torn` is a frame whose write failed part-way. */
  datatype Server = Server(
    reader: Reader, writer: Writer, tasks: map<nat, Task>, nextTask: nat, queue: seq<Response>,
    queueClosed: bool, cancelled: bool, received: seq<RequestFrame>, enqueued: seq<Response>,
    wire: seq<Response>, torn: Option<Response>, panicked: bool)

  const Accepted := Server(Scanning, Idle, map[], 0, [], false, false, [], [], [], None, false)

  datatype Step =
    | Read(frame: RequestFrame)
    | Refuse
    | RefuseQuits
    | Launch
    | Leave
    | Finish(k: nat, ok: bool)
    | Answer(k: nat)
    | Drop(k: nat)
    | CloseQueue
    | Return
    | Pick
    | Wrote
    | WriteFails
    | Abort
    | Drain
    | ParentCancelled

  /** A send proceeds when the channel has room, and panics at once when it is closed. */
  predicate SendReady(s: Server) {
    s.queueClosed || |s.queue| < QUEUE_CAPACITY
  }

  predicate Can(s: Server, step: Step) {
    match step
    case Read(_) => s.reader.Scanning?
    case Refuse => s.reader.Refusing? && SendReady(s)
    case RefuseQuits => s.reader.Refusing? && s.cancelled
    case Launch => s.reader.Launching?
    case Leave => s.reader.Scanning?
    case Finish(k, _) => k in s.tasks && s.tasks[k].Running?
    case Answer(k) => k in s.tasks && s.tasks[k].Replying? && SendReady(s)
    case Drop(k) => k in s.tasks && s.tasks[k].Replying? && s.cancelled
    case CloseQueue => s.reader.Leaving? && s.tasks == map[]
    case Return => s.reader.Sealed? && s.writer.Stopped?
    case Pick => s.writer.Idle? && s.queue != []
    case Wrote => s.writer.Writing?
    case WriteFails => s.writer.Writing?
    case Abort => s.writer.Aborting?
    case Drain => s.writer.Idle? && s.queue == [] && s.queueClosed
    case ParentCancelled => !s.cancelled
  }

  function Send(s: Server, r: Response): Server {
    if s.queueClosed then s.(panicked := true)
    else s.(queue := s.queue + [r], enqueued := s.enqueued + [r])
  }

  function Do(s: Server, maxBody: nat, step: Step): Server
    requires Can(s, step)
  {
    match step
    case Read(f) =>
      s.(received := s.received + [f],
         reader := if maxBody > 0 && f.bodyLength > maxBody then Refusing(f) else Launching(f))
    case Refuse =>
      var f := s.reader.frame;
      Send(s, Response(f.headerId, TooLarge, f.body)).(reader := Launching(f))
    case RefuseQuits => s.(reader := Leaving)
    case Launch =>
      s.(tasks := s.tasks[s.nextTask := Running(s.reader.frame)], nextTask := s.nextTask + 1, reader := Scanning)
    case Leave => s.(reader := Leaving)
    case Finish(k, ok) =>
      var f := s.tasks[k].frame;
      var r := if ok then Response(f.body.id, Handled, f.body) else Response(f.headerId, HandlerError, f.body);
      s.(tasks := s.tasks[k := Replying(r)])
    case Answer(k) => Send(s, s.tasks[k].response).(tasks := s.tasks - {k})
    case Drop(k) => s.(tasks := s.tasks - {k})
    case CloseQueue => s.(queueClosed := true, panicked := s.panicked || s.queueClosed, reader := Sealed)
    case Return => s.(reader := Gone, cancelled := true)
    case Pick => s.(writer := Writing(s.queue[0]), queue := s.queue[1..])
    case Wrote => s.(writer := Idle, wire := s.wire + [s.writer.response])
    case WriteFails => s.(writer := Aborting, torn := Some(s.writer.response))
    case Abort => s.(writer := Stopped, cancelled := true)
    case Drain => s.(writer := Stopped)
    case ParentCancelled => s.(cancelled := true)
  }

  // ---------------------------------------------------------------- what every step keeps

  /** The response the writer has taken off the channel but not put on the wire whole. */
  function InWriter(s: Server): seq<Response> {
    if s.writer.Writing? then [s.writer.response] else if s.torn.Some? then [s.torn.value] else []
  }

  ghost predicate ShutdownIsOrdered(s: Server) {
    && !s.panicked
    && (s.queueClosed <==> s.reader.Sealed? || s.reader.Gone?)
    && (s.queueClosed ==> s.tasks == map[])
    && (s.torn.Some? ==> s.writer.Aborting? || s.writer.Stopped?)
    && (s.writer.Stopped? ==> s.cancelled || (s.queueClosed && s.queue == []))
    && (s.reader.Gone? ==> s.cancelled && s.writer.Stopped?)
    && s.enqueued == s.wire + InWriter(s) + s.queue
    && |s.queue| <= QUEUE_CAPACITY
    && forall k :: k in s.tasks ==> k < s.nextTask
  }

  /** A response that echoes the ID of the request it was computed from. */
  ghost predicate Echoes(s: Server, r: Response) {
    exists f :: f in s.received && f.body == r.about && f.headerId == f.body.id == r.id
  }

  ghost predicate ResponsesEcho(s: Server) {
    && (forall f :: f in s.received ==> f.headerId == f.body.id)
    && (forall r :: r in s.enqueued ==> Echoes(s, r))
    && (s.reader.Refusing? || s.reader.Launching? ==> s.reader.frame in s.received)
    && (forall k :: k in s.tasks ==>
          if s.tasks[k].Running? then s.tasks[k].frame in s.received else Echoes(s, s.tasks[k].response))
  }

  lemma WriterKeepsShutdownOrder(s: Server, maxBody: nat, step: Step)
    requires ShutdownIsOrdered(s) && Can(s, step)
    requires step.Pick? || step.Wrote? || step.WriteFails? || step.Abort? || step.Drain?
    ensures ShutdownIsOrdered(Do(s, maxBody, step))
  {
  }

  lemma SendKeepsShutdownOrder(s: Server, maxBody: nat, step: Step)
    requires ShutdownIsOrdered(s) && Can(s, step) && (step.Refuse? || step.Answer?)
    ensures ShutdownIsOrdered(Do(s, maxBody, step))
  {
    var r := if step.Refuse? then Response(s.reader.frame.headerId, TooLarge, s.reader.frame.body)
             else s.tasks[step.k].response;
    assert s.enqueued + [r] == s.wire + InWriter(s) + (s.queue + [r]);
  }

  lemma StepKeepsShutdownOrder(s: Server, maxBody: nat, step: Step)
    requires ShutdownIsOrdered(s) && Can(s, step)
    ensures ShutdownIsOrdered(Do(s, maxBody, step))
  {
    match step {
      case Pick => WriterKeepsShutdownOrder(s, maxBody, step);
      case Wrote => WriterKeepsShutdownOrder(s, maxBody, step);
      case WriteFails => WriterKeepsShutdownOrder(s, maxBody, step);
      case Abort => WriterKeepsShutdownOrder(s, maxBody, step);
      case Drain => WriterKeepsShutdownOrder(s, maxBody, step);
      case Refuse => SendKeepsShutdownOrder(s, maxBody, step);
      case Answer(_) => SendKeepsShutdownOrder(s, maxBody, step);
      case _ =>
    }
  }

  lemma StepKeepsEcho(s: Server, maxBody: nat, step: Step)
    requires ShutdownIsOrdered(s) && ResponsesEcho(s) && Can(s, step)
    requires step.Read? ==> step.frame.headerId == step.frame.body.id
    ensures ResponsesEcho(Do(s, maxBody, step))
  {
    var t := Do(s, maxBody, step);
    assert forall f :: f in s.received ==> f in t.received;
    assert forall r :: Echoes(s, r) ==> Echoes(t, r);
  }

  // ---------------------------------------------------------------- two replies for one oversize request

  predicate Oversize(maxBody: nat, f: RequestFrame) {
    maxBody > 0 && f.bodyLength > maxBody
  }

  function TaskId(task: Task): nat {
    match task
    case Running(f) => f.headerId
    case Replying(r) => r.id
  }

  ghost predicate IdsDistinct(s: Server) {
    forall f, g :: f in s.received && g in s.received && f.headerId == g.headerId ==> f == g
  }

  /** The handler of an oversize request exists only once its refusal is on the channel. */
  ghost predicate RefusalsComeFirst(s: Server, maxBody: nat) {
    && IdsDistinct(s)
    && (forall f :: f in s.received && Oversize(maxBody, f) && First(s.enqueued, f.headerId).Some? ==>
          First(s.enqueued, f.headerId).value.verdict == TooLarge)
    && (s.reader.Refusing? ==>
          && Oversize(maxBody, s.reader.frame) && First(s.enqueued, s.reader.frame.headerId).None?
          && forall k :: k in s.tasks ==> TaskId(s.tasks[k]) != s.reader.frame.headerId)
    && (s.reader.Launching? && Oversize(maxBody, s.reader.frame) ==>
          First(s.enqueued, s.reader.frame.headerId).Some?)
    && (forall f, k :: f in s.received && Oversize(maxBody, f) && k in s.tasks && TaskId(s.tasks[k]) == f.headerId ==>
          First(s.enqueued, f.headerId).Some?)
  }

  lemma SendKeepsRefusals(s: Server, maxBody: nat, step: Step)
    requires ShutdownIsOrdered(s) && ResponsesEcho(s) && RefusalsComeFirst(s, maxBody) && Can(s, step)
    requires step.Refuse? || step.Answer?
    ensures RefusalsComeFirst(Do(s, maxBody, step), maxBody)
  {
    var t := Do(s, maxBody, step);
    var sent := if step.Refuse? then Response(s.reader.frame.headerId, TooLarge, s.reader.frame.body)
                else s.tasks[step.k].response;
    forall id: nat ensures First(t.enqueued, id) ==
        if First(s.enqueued, id).Some? then First(s.enqueued, id) else if sent.id == id then Some(sent) else None {
      FirstAfterAppend(s.enqueued, sent, id);
    }
  }

  lemma ReadKeepsRefusals(s: Server, maxBody: nat, f: RequestFrame)
    requires ShutdownIsOrdered(s) && ResponsesEcho(s) && RefusalsComeFirst(s, maxBody) && Can(s, Read(f))
    requires forall g :: g in s.received ==> g.headerId != f.headerId
    ensures RefusalsComeFirst(Do(s, maxBody, Read(f)), maxBody)
  {
    FirstFinds(s.enqueued, f.headerId);
    assert forall k :: k in s.tasks ==> TaskId(s.tasks[k]) != f.headerId;
  }

  /** A handler's answer carries the ID of its request. */
  lemma FinishKeepsRefusals(s: Server, maxBody: nat, k: nat, ok: bool)
    requires ResponsesEcho(s) && RefusalsComeFirst(s, maxBody) && Can(s, Finish(k, ok))
    ensures RefusalsComeFirst(Do(s, maxBody, Finish(k, ok)), maxBody)
  {
    var t := Do(s, maxBody, Finish(k, ok));
    assert forall j :: j in s.tasks ==> TaskId(t.tasks[j]) == TaskId(s.tasks[j]);
  }

  lemma StepKeepsRefusals(s: Server, maxBody: nat, step: Step)
    requires ShutdownIsOrdered(s) && ResponsesEcho(s) && RefusalsComeFirst(s, maxBody) && Can(s, step)
    requires step.Read? ==> forall f :: f in s.received ==> f.headerId != step.frame.headerId
    ensures RefusalsComeFirst(Do(s, maxBody, step), maxBody)
  {
    if step.Refuse? || step.Answer? {
      SendKeepsRefusals(s, maxBody, step);
    } else if step.Read? {
      ReadKeepsRefusals(s, maxBody, step.frame);
    } else if step.Finish? {
      FinishKeepsRefusals(s, maxBody, step.k, step.ok);
    } else {
      assert Do(s, maxBody, step).enqueued == s.enqueued && Do(s, maxBody, step).received == s.received;
    }
  }

  // ---------------------------------------------------------------- shutdown always completes

  ghost function RunningTasks(tasks: map<nat, Task>): set<nat> {
    set k | k in tasks && tasks[k].Running?
  }

  lemma TaskAdded(tasks: map<nat, Task>, k: nat, f: RequestFrame)
    requires k !in tasks
    ensures |tasks[k := Running(f)]| == |tasks| + 1
    ensures |RunningTasks(tasks[k := Running(f)])| == |RunningTasks(tasks)| + 1
  {
    assert tasks[k := Running(f)].Keys == tasks.Keys + {k};
    assert RunningTasks(tasks[k := Running(f)]) == RunningTasks(tasks) + {k};
  }

  lemma TaskFinished(tasks: map<nat, Task>, k: nat, r: Response)
    requires k in tasks && tasks[k].Running?
    ensures |tasks[k := Replying(r)]| == |tasks|
    ensures |RunningTasks(tasks[k := Replying(r)])| == |RunningTasks(tasks)| - 1
  {
    assert tasks[k := Replying(r)].Keys == tasks.Keys;
    assert RunningTasks(tasks[k := Replying(r)]) == RunningTasks(tasks) - {k};
  }

  lemma TaskRemoved(tasks: map<nat, Task>, k: nat)
    requires k in tasks && tasks[k].Replying?
    ensures |tasks - {k}| == |tasks| - 1 && |RunningTasks(tasks - {k})| == |RunningTasks(tasks)|
  {
    assert (tasks - {k}).Keys == tasks.Keys - {k};
    assert RunningTasks(tasks - {k}) == RunningTasks(tasks);
  }

  /** How much is left to do once the reader has left its loop. */
  ghost function Remaining(s: Server): nat {
    4 * |s.tasks| + |RunningTasks(s.tasks)| + 3 * |s.queue|
    + (match s.writer case Writing(_) => 3 case Idle => 1 case Aborting => 1 case Stopped => 0)
    + (if s.reader.Leaving? then 2 else if s.reader.Sealed? then 1 else 0)
    + (if s.cancelled then 0 else 1)
  }

  predicate ShuttingDown(s: Server) {
    s.reader.Leaving? || s.reader.Sealed? || s.reader.Gone?
  }

  predicate MovesTasks(step: Step) {
    step.Finish? || step.Answer? || step.Drop?
  }

  lemma TasksShrink(s: Server, maxBody: nat, step: Step)
    requires ShutdownIsOrdered(s) && ShuttingDown(s) && Can(s, step) && MovesTasks(step)
    ensures ShuttingDown(Do(s, maxBody, step)) && Remaining(Do(s, maxBody, step)) < Remaining(s)
  {
    var t := Do(s, maxBody, step);
    if step.Finish? {
      TaskFinished(s.tasks, step.k, t.tasks[step.k].response);
    } else {
      TaskRemoved(s.tasks, step.k);
    }
  }

  lemma RestShrinks(s: Server, maxBody: nat, step: Step)
    requires ShutdownIsOrdered(s) && ShuttingDown(s) && Can(s, step) && !MovesTasks(step)
    ensures ShuttingDown(Do(s, maxBody, step)) && Remaining(Do(s, maxBody, step)) < Remaining(s)
  {
    assert Do(s, maxBody, step).tasks == s.tasks;
  }

  lemma ShutdownShrinks(s: Server, maxBody: nat, step: Step)
    requires ShutdownIsOrdered(s) && ShuttingDown(s) && Can(s, step)
    ensures ShuttingDown(Do(s, maxBody, step)) && Remaining(Do(s, maxBody, step)) < Remaining(s)
  {
    if MovesTasks(step) { TasksShrink(s, maxBody, step); } else { RestShrinks(s, maxBody, step); }
  }

  /** The only state without a next step is the one in which handleConnection has returned. */
  lemma ShutdownNeverSticks(s: Server) returns (step: Step)
    requires ShutdownIsOrdered(s) && ShuttingDown(s)
    ensures s.reader.Gone? || (Can(s, step) && !step.ParentCancelled?)
  {
    if s.tasks != map[] {
      var k :| k in s.tasks;
      step := if s.tasks[k].Running? then Finish(k, true)
              else if SendReady(s) then Answer(k)
              else if s.cancelled then Drop(k)
              else if s.writer.Idle? then Pick
              else if s.writer.Writing? then Wrote
              else Abort;
    } else if s.reader.Leaving? {
      step := CloseQueue;
    } else {
      step := if s.writer.Writing? then Wrote
              else if s.writer.Aborting? then Abort
              else if s.writer.Stopped? then Return
              else if s.queue != [] then Pick
              else Drain;
    }
  }

  /** `steps` leads from s to t. */
  ghost predicate Leads(s: Server, maxBody: nat, steps: seq<Step>, t: Server)
    decreases |steps|
  {
    if steps == [] then s == t
    else Can(s, steps[0]) && Leads(Do(s, maxBody, steps[0]), maxBody, steps[1..], t)
  }

  /** Once the reader has left its loop, every schedule is bounded by Remaining, and every schedule that
      cannot go on has returned from handleConnection. */
  lemma {:induction false} ShutdownCompletes(s: Server, maxBody: nat, steps: seq<Step>, t: Server)
    requires ShutdownIsOrdered(s) && ShuttingDown(s) && Leads(s, maxBody, steps, t)
    ensures |steps| + Remaining(t) <= Remaining(s) && ShutdownIsOrdered(t)
    ensures t.reader.Gone? || exists step :: Can(t, step) && !step.ParentCancelled?
    decreases |steps|
  {
    if steps == [] {
      var step := ShutdownNeverSticks(t);
    } else {
      ShutdownShrinks(s, maxBody, steps[0]);
      StepKeepsShutdownOrder(s, maxBody, steps[0]);
      ShutdownCompletes(Do(s, maxBody, steps[0]), maxBody, steps[1..], t);
    }
  }

  /** A sender facing a full channel is never alone: the writer is alive or the context is cancelled. */
  lemma BlockedSenderIsServed(s: Server)
    requires ShutdownIsOrdered(s) && !SendReady(s)
    requires s.reader.Refusing? || exists k :: k in s.tasks && s.tasks[k].Replying?
    ensures !s.writer.Stopped? || s.cancelled
  {
  }

  // ---------------------------------------------------------------- what the channel holds

  lemma {:induction false} LeadsOneMore(s: Server, maxBody: nat, steps: seq<Step>, t: Server, step: Step)
    requires Leads(s, maxBody, steps, t) && Can(t, step)
    ensures Leads(s, maxBody, steps + [step], Do(t, maxBody, step))
    decreases |steps|
  {
    if steps == [] {
      assert Leads(Do(t, maxBody, step), maxBody, [], Do(t, maxBody, step));
      assert ([] + [step])[1..] == [];
    } else {
      LeadsOneMore(Do(s, maxBody, steps[0]), maxBody, steps[1..], t, step);
      assert (steps + [step])[1..] == steps[1..] + [step];
    }
  }

  lemma {:induction false} LeadsInOrder(s: Server, maxBody: nat, steps: seq<Step>, t: Server)
    requires ShutdownIsOrdered(s) && Leads(s, maxBody, steps, t)
    ensures ShutdownIsOrdered(t)
    decreases |steps|
  {
    if steps != [] {
      StepKeepsShutdownOrder(s, maxBody, steps[0]);
      LeadsInOrder(Do(s, maxBody, steps[0]), maxBody, steps[1..], t);
    }
  }

  function Asking(n: nat): RequestFrame {
    RequestFrame(n + 1, 0, Request(n + 1, n))
  }

  function Answering(n: nat): Response {
    Response(n + 1, Handled, Request(n + 1, n))
  }

  /** The server that has answered n requests and written none of the answers. */
  function Filled(n: nat): Server {
    Accepted.(nextTask := n, queue := seq(n, j requires 0 <= j => Answering(j)),
              received := seq(n, j requires 0 <= j => Asking(j)),
              enqueued := seq(n, j requires 0 <= j => Answering(j)))
  }

  lemma FillOne(maxBody: nat, n: nat)
    requires |Filled(n).queue| < QUEUE_CAPACITY
    ensures var s1 := Do(Filled(n), maxBody, Read(Asking(n)));
      && Can(s1, Launch) && var s2 := Do(s1, maxBody, Launch);
      && Can(s2, Finish(n, true)) && var s3 := Do(s2, maxBody, Finish(n, true));
      && Can(s3, Answer(n)) && Do(s3, maxBody, Answer(n)) == Filled(n + 1)
  {
    var tasks := map[n := Replying(Answering(n))];
    assert tasks - {n} == map[];
  }

  lemma {:induction false} Fills(maxBody: nat, n: nat) returns (steps: seq<Step>)
    requires n <= QUEUE_CAPACITY
    ensures Leads(Accepted, maxBody, steps, Filled(n))
  {
    if n == 0 {
      steps := [];
    } else {
      steps := Fills(maxBody, n - 1);
      FillOne(maxBody, n - 1);
      var s := Filled(n - 1);
      LeadsOneMore(Accepted, maxBody, steps, s, Read(Asking(n - 1)));
      steps, s := steps + [Read(Asking(n - 1))], Do(s, maxBody, Read(Asking(n - 1)));
      LeadsOneMore(Accepted, maxBody, steps, s, Launch);
      steps, s := steps + [Launch], Do(s, maxBody, Launch);
      LeadsOneMore(Accepted, maxBody, steps, s, Finish(n - 1, true));
      steps, s := steps + [Finish(n - 1, true)], Do(s, maxBody, Finish(n - 1, true));
      LeadsOneMore(Accepted, maxBody, steps, s, Answer(n - 1));
      steps := steps + [Answer(n - 1)];
    }
  }

  /** The steps lead a new connection to a state with n responses in the channel. */
  ghost predicate Queues(maxBody: nat, steps: seq<Step>, s: Server, n: nat) {
    Leads(Accepted, maxBody, steps, s) && |s.queue| == n
  }

  /** Up to 64 responses can wait for the writer, and never more. */
  lemma ChannelHolds(maxBody: nat, n: nat)
    ensures (exists steps, s :: Queues(maxBody, steps, s, n)) <==> n <= 64
  {
    if steps, s :| Queues(maxBody, steps, s, n) { LeadsInOrder(Accepted, maxBody, steps, s); }
    if n <= 64 {
      var steps := Fills(maxBody, n);
      assert Queues(maxBody, steps, Filled(n), n);
    }
  }

  // ---------------------------------------------------------------- the code of the goroutines

  /** What the goroutines keep between them. */
  ghost predicate Orderly(s: Server) {
    ShutdownIsOrdered(s) && ResponsesEcho(s)
  }

  lemma StepKeepsOrder(s: Server, maxBody: nat, step: Step)
    requires Can(s, step) && (step.Read? ==> step.frame.headerId == step.frame.body.id)
    ensures Orderly(s) ==> Orderly(Do(s, maxBody, step))
  {
    if Orderly(s) {
      StepKeepsShutdownOrder(s, maxBody, step);
      StepKeepsEcho(s, maxBody, step);
    }
  }

  class Connection {
    const maxBody: nat
    var reader: Reader
    var writer: Writer
    var tasks: map<nat, Task>
    var nextTask: nat
    var queue: seq<Response>
    var queueClosed: bool
    var cancelled: bool
    var received: seq<RequestFrame>
    var enqueued: seq<Response>
    var wire: seq<Response>
    var torn: Option<Response>
    var panicked: bool

    function State(): Server
      reads this
    {
      Server(reader, writer, tasks, nextTask, queue, queueClosed, cancelled, received, enqueued, wire, torn, panicked)
    }

    constructor (maxBody: nat)
      ensures State() == Accepted && this.maxBody == maxBody
    {
      this.maxBody := maxBody;
      reader, writer, tasks, nextTask, queue, queueClosed := Scanning, Idle, map[], 0, [], false;
      cancelled, received, enqueued, wire, torn, panicked := false, [], [], [], None, false;
    }

    /** Top of the reader loop: one request frame decoded. It goes to the refusal exactly when it is oversize. */
    method ReadFrame(f: RequestFrame)
      requires Can(State(), Read(f))
      modifies `received, `reader
      ensures received == old(received) + [f]
      ensures reader == if Oversize(maxBody, f) then Refusing(f) else Launching(f)
      ensures old(Orderly(State())) && f.headerId == f.body.id ==> Orderly(State())
    {
      received := received + [f];
      if maxBody > 0 && f.bodyLength > maxBody {
        reader := Refusing(f);
      } else {
        reader := Launching(f);
      }
      if f.headerId == f.body.id { StepKeepsOrder(old(State()), maxBody, Read(f)); }
    }

    /** The context is done or the read fails: the reader leaves its loop, whatever the handlers are doing. */
    method LeaveLoop()
      requires reader.Scanning?
      modifies `reader
      ensures reader == Leaving
      ensures old(Orderly(State())) ==> Orderly(State())
    {
      reader := Leaving;
      StepKeepsOrder(old(State()), maxBody, Leave);
    }

    /** The connection's context is cancelled while the refusal waits for room: the reader leaves without a handler. */
    method QuitRefusal()
      requires reader.Refusing? && cancelled
      modifies `reader
      ensures reader == Leaving
      ensures old(Orderly(State())) ==> Orderly(State())
    {
      reader := Leaving;
      StepKeepsOrder(old(State()), maxBody, RefuseQuits);
    }

    /** The reader sends the "request body too large" reply, then falls through to the handler: the request is
        refused and about to be handled, both under its own ID. */
    method SendRefusal()
      requires Can(State(), Refuse)
      modifies `queue, `enqueued, `reader, `panicked
      ensures reader == Launching(old(reader).frame)
      ensures !queueClosed ==> panicked == old(panicked) && |queue| <= QUEUE_CAPACITY
      ensures !queueClosed ==>
        var refusal := Response(old(reader).frame.headerId, TooLarge, old(reader).frame.body);
        queue == old(queue) + [refusal] && enqueued == old(enqueued) + [refusal]
      ensures old(Orderly(State())) ==> !queueClosed && Orderly(State())
    {
      var f := reader.frame;
      var refusal := Response(f.headerId, TooLarge, f.body);
      if queueClosed { panicked := true; } else { queue, enqueued := queue + [refusal], enqueued + [refusal]; }
      reader := Launching(f);
      StepKeepsOrder(old(State()), maxBody, Refuse);
    }

    /** The reader starts a handler goroutine of its own for the frame and goes on reading. */
    method LaunchHandler()
      requires Can(State(), Launch)
      modifies `tasks, `nextTask, `reader
      ensures reader == Scanning && nextTask == old(nextTask) + 1
      ensures tasks == old(tasks)[old(nextTask) := Running(old(reader).frame)]
      ensures old(Orderly(State())) ==> old(nextTask) !in old(tasks) && Orderly(State())
    {
      tasks := tasks[nextTask := Running(reader.frame)];
      nextTask, reader := nextTask + 1, Scanning;
      StepKeepsOrder(old(State()), maxBody, Launch);
    }

    /** A handler returns; its error becomes a response with the header's ID, so either way the ID is the request's. */
    method FinishHandler(k: nat, ok: bool)
      requires Can(State(), Finish(k, ok))
      modifies `tasks
      ensures tasks.Keys == old(tasks).Keys && forall j :: j in tasks && j != k ==> tasks[j] == old(tasks)[j]
      ensures tasks[k].Replying? && tasks[k].response.about == old(tasks)[k].frame.body
      ensures tasks[k].response.verdict == if ok then Handled else HandlerError
      ensures old(Orderly(State())) ==> tasks[k].response.id == old(tasks)[k].frame.headerId && Orderly(State())
    {
      var f := tasks[k].frame;
      var response := Response(f.body.id, Handled, f.body);
      if !ok { response := Response(f.headerId, HandlerError, f.body); }
      tasks := tasks[k := Replying(response)];
      StepKeepsOrder(old(State()), maxBody, Finish(k, ok));
    }

    /** The handler goroutine's send, then handlersWg.Done: the response moves from the handler to the channel. */
    method SendAnswer(k: nat)
      requires Can(State(), Answer(k))
      modifies `queue, `enqueued, `tasks, `panicked
      ensures tasks == old(tasks) - {k}
      ensures !queueClosed ==> panicked == old(panicked) && |queue| <= QUEUE_CAPACITY
      ensures !queueClosed ==>
        queue == old(queue) + [old(tasks)[k].response] && enqueued == old(enqueued) + [old(tasks)[k].response]
      ensures old(Orderly(State())) ==> !queueClosed && Orderly(State())
    {
      var response := tasks[k].response;
      if queueClosed { panicked := true; } else { queue, enqueued := queue + [response], enqueued + [response]; }
      tasks := tasks - {k};
      StepKeepsOrder(old(State()), maxBody, Answer(k));
    }

    /** The connection's context is cancelled while the answer waits for room: the handler ends without it. */
    method DropAnswer(k: nat)
      requires k in tasks && tasks[k].Replying? && cancelled
      modifies `tasks
      ensures tasks == old(tasks) - {k}
      ensures old(Orderly(State())) ==> Orderly(State())
    {
      tasks := tasks - {k};
      StepKeepsOrder(old(State()), maxBody, Drop(k));
    }

    /** The writer finds the channel empty and closed. */
    method EndWriter()
      requires writer.Idle? && queue == [] && queueClosed
      modifies `writer
      ensures writer == Stopped
      ensures old(Orderly(State())) ==> Orderly(State()) && wire == enqueued
    {
      writer := Stopped;
      StepKeepsOrder(old(State()), maxBody, Drain);
    }

    /** writerWg.Wait has returned: so does handleConnection, cancelling the connection's context. */
    method ReturnFromConnection()
      requires reader.Sealed? && writer.Stopped?
      modifies `reader, `cancelled
      ensures reader == Gone && cancelled
      ensures old(Orderly(State())) ==> Orderly(State()) && tasks == map[]
    {
      reader, cancelled := Gone, true;
      StepKeepsOrder(old(State()), maxBody, Return);
    }

    /** handlersWg.Wait has returned: close(writeCh). */
    method SealQueue()
      requires Can(State(), CloseQueue)
      modifies `queueClosed, `reader, `panicked
      ensures queueClosed && reader == Sealed && tasks == map[]
      ensures old(Orderly(State())) ==> !panicked && Orderly(State())
    {
      panicked := panicked || queueClosed;
      queueClosed, reader := true, Sealed;
      StepKeepsOrder(old(State()), maxBody, CloseQueue);
    }

    /** The writer takes the oldest response off the channel. */
    method StartWrite()
      requires Can(State(), Pick)
      modifies `queue, `writer
      ensures writer.Writing? && [writer.response] + queue == old(queue)
      ensures old(Orderly(State())) ==> Orderly(State()) && wire + [writer.response] <= enqueued
    {
      writer, queue := Writing(queue[0]), queue[1..];
      StepKeepsOrder(old(State()), maxBody, Pick);
    }

    /** The write went through: the response is on the wire, behind those enqueued before it. */
    method EndWrite()
      requires Can(State(), Wrote)
      modifies `wire, `writer
      ensures wire == old(wire) + [old(writer).response] && writer == Idle
      ensures old(Orderly(State())) ==> Orderly(State()) && wire <= enqueued
    {
      wire, writer := wire + [writer.response], Idle;
      StepKeepsOrder(old(State()), maxBody, Wrote);
    }

    /** The write failed part-way: the frame is torn, the connection's context cancelled, and nobody writes any more. */
    method FailWrite()
      requires Can(State(), WriteFails)
      modifies `writer, `torn, `cancelled
      ensures torn == Some(old(writer).response) && cancelled && writer == Stopped
      ensures old(Orderly(State())) ==> Orderly(State()) && wire + [torn.value] <= enqueued
    {
      torn, writer := Some(writer.response), Aborting;
      ghost var failed := State();
      StepKeepsOrder(old(State()), maxBody, WriteFails);
      cancelled, writer := true, Stopped;
      StepKeepsOrder(failed, maxBody, Abort);
    }

    /** One round of the writer's loop. */
    method WriteNext(ok: bool)
      requires writer.Idle? && queue != []
      modifies `queue, `wire, `writer, `torn, `cancelled
      ensures queue == old(queue)[1..]
      ensures ok ==> writer == Idle && wire == old(wire) + [old(queue)[0]]
      ensures ok ==> torn == old(torn) && cancelled == old(cancelled)
      ensures !ok ==> writer == Stopped && wire == old(wire) && torn == Some(old(queue)[0]) && cancelled
    {
      StartWrite();
      if ok { EndWrite(); } else { FailWrite(); }
    }

    /** The writer goroutine left alone: `range writeCh` until the channel runs dry, or write number
        `good` (counting from zero) fails. */
    method WriteOut(good: nat)
      requires writer.Idle? && torn.None?
      modifies `queue, `wire, `writer, `torn, `cancelled
      ensures if good >= old(|queue|)
              then wire == old(wire) + old(queue) && queue == [] && torn.None? && cancelled == old(cancelled)
                   && writer == (if queueClosed then Stopped else Idle)
              else wire == old(wire) + old(queue)[..good] && queue == old(queue)[good + 1..]
                   && torn == Some(old(queue)[good]) && cancelled && writer == Stopped
    {
      var written := 0;
      while queue != []
        invariant written <= good && written <= old(|queue|)
        invariant writer.Idle? && torn.None? && cancelled == old(cancelled)
        invariant queue == old(queue)[written..] && wire == old(wire) + old(queue)[..written]
        decreases |queue|
      {
        WriteNext(written < good);
        if written == good { return; }
        written := written + 1;
      }
      if queueClosed { writer := Stopped; }
    }
  }
}
