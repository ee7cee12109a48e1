/**
 * One IPC connection as a state machine.
 *
 * A reader task registers requests and spawns one task per accepted request; the
 * tasks, the reader and the worker share the connection's writer, its map of active
 * requests and one cancellation token per request.  `Step` gives the effect of every
 * atomic action; a run is any sequence of enabled actions, so the invariants below
 * hold in every interleaving.
 *
 * A task is named by its position in `tasks`, which also names its cancellation
 * token.  Frames carry the task that wrote them so that a reused request id is not
 * confused with an earlier stream; the task is not part of the bytes on the wire.
 */
module IpcConnection {
  import opened Wrappers
  import opened TokenStream

  /** A StreamChunk: data, the clean final frame, or the final error frame. */
  datatype Body = Data(chunk: Chunk) | Clean | Failed(reason: Reason)
  {
    predicate IsFinal() { !Data? }
  }

  /** Why a stream ended with an error frame. */
  datatype Reason =
    | CancelSeen | DeadlineSeen | ProducerGone
    | InvalidRequest | HandlerError | Worker(message: string)

  /** The outcome of a non-streaming request. */
  datatype Reply = Success | Failure(code: ReplyCode)
  datatype ReplyCode = RefusedBeforeQueue | StoppedByCancel | StoppedByDeadline | WorkerFailure

  datatype Frame =
    | ChunkFrame(task: nat, id: nat, body: Body)
    | ReplyFrame(task: nat, id: nat, reply: Reply)
      // CancelResponse; `hit` is the cancelled task, None for `cancelled: false`
    | CancelAck(id: nat, hit: Option<nat>)
    | ErrorFrame(code: nat)
    | ControlFrame

  /** What follows a `StreamSender::send`: the three ways its result is consumed. */
  datatype OnSent =
    | NextItem  // `send(..).await?` inside the relay loop
    | Return    // `send(..).await?` followed by the end of `process_streaming`
    | Finish    // `let _ = send(..).await`, then the task releases its id

  /** The arms of the relay loop's biased select, in the order they are polled. */
  datatype Arm = CancelArm | DeadlineArm | ChannelArm

  /** Where a streaming task is. */
  datatype StreamPc =
    | Admitting
    | Relaying(arm: Arm)
    | Sending(body: Body, next: OnSent)  // before the first cancellation check of `send`
    | Writing(body: Body, next: OnSent)  // waiting for the writer lock
    | Releasing
    | Finished

  /** Where the worker is with a streaming request. */
  datatype Producer = Unqueued | Queued | Generating | Ending(terminal: StreamTerminal) | Closed

  datatype InferPc = Submitting | Awaiting | Answered(reply: Reply) | Released(reply: Reply) | Replied

  datatype Task =
      // `produced` is everything the worker put on the channel, `taken` what the relay received
    | StreamTask(id: nat, pc: StreamPc, producer: Producer, produced: seq<StreamItem>, taken: nat,
                 timerFired: bool, overdue: bool, faulted: bool)
    | InferTask(id: nat, step: InferPc, expired: bool, lost: bool)

  /** Where the reader is; `Replying` holds a frame it has chosen but not yet written. */
  datatype Reader =
    | Reading
    | Replying(frame: Frame, exitAfter: bool, exitOnFault: bool)
    | Closing
    | Exited

  datatype Config = Config(requireAuth: bool)

  datatype State = State(
    reader: Reader,
    session: bool,
    active: map<nat, nat>,
    tasks: seq<Task>,
    cancelled: set<nat>,
    wire: seq<Frame>)

  datatype Verdict = NotAuthorized | ShuttingDown | Malformed | QueueRefused | Enqueued
  datatype WorkerStart = StartRejected(m: string) | StartStopped | StartRefused(m: string) | StartRunning

  /** The atomic actions; parameters are the outcomes the connection does not control. */
  datatype Event =
    // The reader.  `valid` is the outcome of SessionAuth::validate.
    | ReadMalformed
    | ReadHandshake(accepted: bool)
    | ReadQuery
    | ReadUnencodable  // a processed message whose response cannot be encoded
    | ReadControl(valid: bool, enqueues: bool)
    | ReadStream(id: nat)
    | ReadInference(id: nat, valid: bool)
    | ReadCancel(id: nat, valid: bool)
    | Disconnect
    | ReaderWrite(ok: bool)
    | ReaderClose
    // A streaming task
    | Admit(k: nat, verdict: Verdict)
    | Poll(k: nat, budget: bool)  // without budget a ready timer or channel still reports not ready
    | SendCheck(k: nat, encodes: bool)
    | SendWrite(k: nat, ok: bool)
    | Release(k: nat)
    // The worker serving a streaming task
    | Start(k: nat, how: WorkerStart)
    | Emit(k: nat, chunk: Chunk)
    | Conclude(k: nat, failure: Option<string>)
    | SendEnd(k: nat)
    | Hangup(k: nat)
    // A non-streaming task
    | Submit(k: nat, accepted: bool)
    | Answer(k: nat, reply: Reply)
    | ReleaseReply(k: nat)
    | WriteReply(k: nat, ok: bool)
    // Clocks
    | TimerFires(k: nat)
    | DeadlinePasses(k: nat)

  /** What a task puts on the wire in one step. */
  datatype Output = Silent | Writes(body: Body) | Answers(reply: Reply)

  /** The effect of one step of a task: its new state and what it does to the connection. */
  datatype Move = Move(task: Task, out: Output, cancels: bool, releases: bool)

  const CHANNEL_CAPACITY: nat := 32

  const INIT := State(Reading, false, map[], [], {}, [])

  // ---------------------------------------------------------------- the reader

  predicate Authorized(cfg: Config, s: State, valid: bool) {
    !cfg.requireAuth || (s.session && valid)
  }

  /** A request id is taken while its task has not released it. */
  predicate Registered(t: Task) {
    match t
    case StreamTask(_, pc, _, _, _, _, _, _) => !pc.Finished?
    case InferTask(_, step, _, _) => step.Submitting? || step.Awaiting? || step.Answered?
  }

  function Spawn(s: State, id: nat, t: Task): State {
    s.(active := s.active[id := |s.tasks|], tasks := s.tasks + [t])
  }

  function NewStream(id: nat): Task { StreamTask(id, Admitting, Unqueued, [], 0, false, false, false) }

  function NewInference(id: nat): Task { InferTask(id, Submitting, false, false) }

  function Respond(s: State, frame: Frame, exitAfter: bool, exitOnFault: bool): State {
    s.(reader := Replying(frame, exitAfter, exitOnFault))
  }

  function ReaderStep(cfg: Config, s: State, e: Event): Option<State>
    requires s.reader.Reading?
  {
    match e
    case ReadMalformed => Some(Respond(s, ErrorFrame(400), false, false))
    case ReadHandshake(accepted) =>
      if accepted then Some(Respond(s.(session := true), ControlFrame, false, true))
      else Some(Respond(s, ErrorFrame(401), true, true))
    case ReadQuery => Some(Respond(s, ControlFrame, false, true))
    case ReadUnencodable => Some(Respond(s, ErrorFrame(500), true, true))
    case ReadControl(valid, enqueues) =>
      if Authorized(cfg, s, valid) then Some(Respond(s, ControlFrame, false, true))
      else if enqueues then None
      else Some(Respond(s, ErrorFrame(401), true, true))
    case ReadStream(id) =>
      if !s.session then Some(Respond(s, ErrorFrame(401), false, false))
      else if id in s.active then Some(Respond(s, ErrorFrame(409), false, false))
      else Some(Spawn(s, id, NewStream(id)))
    case ReadInference(id, valid) =>
      if !Authorized(cfg, s, valid) then Some(Respond(s, ErrorFrame(401), true, true))
      else if id in s.active then Some(Respond(s, ErrorFrame(409), false, false))
      else Some(Spawn(s, id, NewInference(id)))
    case ReadCancel(id, valid) =>
      if !s.session || !valid then Some(Respond(s, ErrorFrame(401), false, false))
      else if id in s.active then
        Some(Respond(s.(cancelled := s.cancelled + {s.active[id]}),
                     CancelAck(id, Some(s.active[id])), false, false))
      else Some(Respond(s, CancelAck(id, None), false, false))
    case Disconnect => Some(s.(reader := Closing))
    case _ => None
  }

  function ReaderEnd(s: State, e: Event): Option<State> {
    match e
    case ReaderWrite(ok) =>
      if s.reader.Replying? then
        var exit := s.reader.exitAfter || (!ok && s.reader.exitOnFault);
        Some(s.(reader := if exit then Closing else Reading,
                wire := if ok then s.wire + [s.reader.frame] else s.wire))
      else None
    case ReaderClose =>
      if s.reader.Closing? then
        Some(s.(reader := Exited, cancelled := s.cancelled + s.active.Values))
      else None
    case _ => None
  }

  // ---------------------------------------------------------------- streaming tasks

  function Quiet(t: Task): Move { Move(t, Silent, false, false) }

  /** The task after `send` returned an error; only a fault other than cancellation is recorded. */
  function SendFailed(t: Task, next: OnSent, fault: bool): Task
    requires t.StreamTask?
  {
    var t' := t.(faulted := t.faulted || fault);
    if next.Finish? then t'.(pc := Releasing) else t'.(pc := Sending(Failed(HandlerError), Finish))
  }

  function SendDone(t: Task, next: OnSent): Task
    requires t.StreamTask?
  {
    if next.NextItem? then t.(pc := Relaying(CancelArm)) else t.(pc := Releasing)
  }

  function AdmitMove(t: Task, verdict: Verdict): Move
    requires t.StreamTask?
  {
    match verdict
    case NotAuthorized => Quiet(t.(pc := Sending(Failed(HandlerError), Finish)))
    case ShuttingDown => Quiet(t.(pc := Sending(Failed(HandlerError), Finish)))
    case Malformed => Quiet(t.(pc := Sending(Failed(InvalidRequest), Return)))
    case QueueRefused => Quiet(t.(pc := Sending(Failed(HandlerError), Finish)))
    case Enqueued => Quiet(t.(pc := Relaying(CancelArm), producer := Queued))
  }

  /** The frame relayed for one received item, and what follows it. */
  function RelayItem(item: StreamItem): StreamPc {
    match item
    case Item(chunk) => Sending(Data(chunk), NextItem)
    case End(Complete) => Sending(Clean, Return)
    case End(Rejected(m)) => Sending(Failed(Worker(m)), Return)
    case End(Error(m)) => Sending(Failed(Worker(m)), Return)
  }

  /** Polling one arm: other tasks may run between two polls of the same select. */
  function PollMove(t: Task, cancelled: bool, budget: bool): Move
    requires t.StreamTask? && t.pc.Relaying?
  {
    match t.pc.arm
    case CancelArm =>
      Quiet(t.(pc := if cancelled then Sending(Failed(CancelSeen), Finish) else Relaying(DeadlineArm)))
    case DeadlineArm =>
      if t.timerFired && budget then
        Move(t.(pc := Sending(Failed(DeadlineSeen), Finish)), Silent, true, false)
      else Quiet(t.(pc := Relaying(ChannelArm)))
    case ChannelArm =>
      if budget && t.taken < |t.produced| then
        Quiet(t.(pc := RelayItem(t.produced[t.taken]), taken := t.taken + 1))
      else if budget && t.producer.Closed? then Quiet(t.(pc := Sending(Failed(ProducerGone), Finish)))
      else Quiet(t.(pc := Relaying(CancelArm)))
  }

  /** Cancellation blocks every frame but the final error frame. */
  predicate Fenced(cancelled: bool, body: Body) { cancelled && !body.Failed? }

  /** The first check of `send`, and the encoding of the frame. */
  function CheckMove(t: Task, cancelled: bool, encodes: bool): Move
    requires t.StreamTask? && t.pc.Sending?
  {
    if Fenced(cancelled, t.pc.body) then Quiet(SendFailed(t, t.pc.next, false))
    else if !encodes then Quiet(SendFailed(t, t.pc.next, true))
    else Quiet(t.(pc := Writing(t.pc.body, t.pc.next)))
  }

  /** The second check and the write, both under the writer lock. */
  function WriteMove(t: Task, cancelled: bool, ok: bool): Move
    requires t.StreamTask? && t.pc.Writing?
  {
    if Fenced(cancelled, t.pc.body) then Quiet(SendFailed(t, t.pc.next, false))
    else if !ok then Quiet(SendFailed(t, t.pc.next, true))
    else Move(SendDone(t, t.pc.next), Writes(t.pc.body), false, false)
  }

  function StreamMove(t: Task, cancelled: bool, e: Event): Option<Move>
    requires t.StreamTask?
  {
    match e
    case Admit(_, verdict) => if t.pc.Admitting? then Some(AdmitMove(t, verdict)) else None
    case Poll(_, budget) => if t.pc.Relaying? then Some(PollMove(t, cancelled, budget)) else None
    case SendCheck(_, encodes) => if t.pc.Sending? then Some(CheckMove(t, cancelled, encodes)) else None
    case SendWrite(_, ok) => if t.pc.Writing? then Some(WriteMove(t, cancelled, ok)) else None
    case Release(_) =>
      if t.pc.Releasing? then Some(Move(t.(pc := Finished), Silent, false, true)) else None
    case _ => None
  }

  // ---------------------------------------------------------------- the worker

  function Push(t: Task, item: StreamItem, next: Producer): Task
    requires t.StreamTask?
  {
    t.(produced := t.produced + [item], producer := next)
  }

  /** What the worker does with a dequeued request; None when that cannot happen now. */
  function StartProducer(t: Task, cancelled: bool, how: WorkerStart): Option<Producer>
    requires t.StreamTask?
  {
    match how
    case StartRejected(m) => Some(Ending(Rejected(m)))
    case StartStopped =>
      if cancelled then Some(Ending(Error(CANCELLED_UNRUN)))
      else if t.overdue then Some(Ending(Error(EXPIRED_UNRUN)))
      else None
    case StartRefused(m) => if cancelled || t.overdue then None else Some(Ending(Error(m)))
    case StartRunning => if cancelled || t.overdue then None else Some(Generating)
  }

  /** The channel has room: fewer than its capacity are waiting to be received. */
  predicate HasRoom(t: Task)
    requires t.StreamTask?
  {
    t.taken <= |t.produced| < t.taken + CHANNEL_CAPACITY
  }

  /** The worker and the clocks of a streaming task: they never touch its position or the wire. */
  function WorkerMove(t: Task, cancelled: bool, e: Event): Option<Task>
    requires t.StreamTask?
  {
    match e
    case Start(_, how) =>
      if !t.producer.Queued? then None
      else (match StartProducer(t, cancelled, how)
        case None => None
        case Some(p) => Some(t.(producer := p)))
    case Emit(_, chunk) =>
      if t.producer.Generating? && HasRoom(t) then Some(Push(t, Item(chunk), Generating)) else None
    case Conclude(_, failure) =>
      if t.producer.Generating? then Some(t.(producer := Ending(Concluded(cancelled || t.overdue, failure))))
      else None
    case SendEnd(_) =>
      if t.producer.Ending? && HasRoom(t) then Some(Push(t, End(t.producer.terminal), Closed)) else None
    case Hangup(_) => if t.producer.Unqueued? then None else Some(t.(producer := Closed))
    case TimerFires(_) => Some(t.(timerFired := true))
    case DeadlinePasses(_) => Some(t.(overdue := true))
    case _ => None
  }

  // ---------------------------------------------------------------- non-streaming tasks

  /** A stop is only reported when its cause is visible; a worker result may win the race. */
  predicate MayAnswer(t: Task, cancelled: bool, reply: Reply)
    requires t.InferTask?
  {
    match reply
    case Success => true
    case Failure(RefusedBeforeQueue) => false
    case Failure(StoppedByCancel) => cancelled
    case Failure(StoppedByDeadline) => t.expired
    case Failure(WorkerFailure) => true
  }

  function InferMove(t: Task, cancelled: bool, e: Event): Option<Move>
    requires t.InferTask?
  {
    match e
    case Submit(_, accepted) =>
      if !t.step.Submitting? then None
      else Some(Quiet(t.(step := if accepted then Awaiting else Answered(Failure(RefusedBeforeQueue)))))
    case Answer(_, reply) =>
      if t.step.Awaiting? && MayAnswer(t, cancelled, reply) then Some(Quiet(t.(step := Answered(reply))))
      else None
    case ReleaseReply(_) =>
      if t.step.Answered? then Some(Move(t.(step := Released(t.step.reply)), Silent, false, true)) else None
    case WriteReply(_, ok) =>
      if !t.step.Released? then None
      else if !ok then Some(Quiet(t.(step := Replied, lost := true)))
      else Some(Move(t.(step := Replied), Answers(t.step.reply), false, false))
    case DeadlinePasses(_) => Some(Quiet(t.(expired := true)))
    case _ => None
  }

  // ---------------------------------------------------------------- runs

  predicate IsReaderRead(e: Event) {
    e.ReadMalformed? || e.ReadHandshake? || e.ReadQuery? || e.ReadUnencodable? || e.ReadControl? ||
    e.ReadStream? || e.ReadInference? || e.ReadCancel? || e.Disconnect?
  }

  predicate IsReaderEnd(e: Event) { e.ReaderWrite? || e.ReaderClose? }

  predicate IsReader(e: Event) { IsReaderRead(e) || IsReaderEnd(e) }

  /** The steps a streaming task takes itself, as opposed to its worker and its clocks. */
  predicate IsStreamOwn(e: Event) {
    e.Admit? || e.Poll? || e.SendCheck? || e.SendWrite? || e.Release?
  }

  function TaskMove(t: Task, cancelled: bool, e: Event): Option<Move> {
    if t.InferTask? then InferMove(t, cancelled, e)
    else if IsStreamOwn(e) then StreamMove(t, cancelled, e)
    else match WorkerMove(t, cancelled, e)
      case None => None
      case Some(t') => Some(Quiet(t'))
  }

  function OutputFrames(k: nat, id: nat, out: Output): seq<Frame> {
    match out
    case Silent => []
    case Writes(body) => [ChunkFrame(k, id, body)]
    case Answers(reply) => [ReplyFrame(k, id, reply)]
  }

  function Apply(s: State, k: nat, m: Move): State
    requires k < |s.tasks|
  {
    s.(active := if m.releases then s.active - {s.tasks[k].id} else s.active,
       tasks := s.tasks[k := m.task],
       cancelled := if m.cancels then s.cancelled + {k} else s.cancelled,
       wire := s.wire + OutputFrames(k, s.tasks[k].id, m.out))
  }

  function TaskStep(s: State, e: Event): Option<State>
    requires !IsReader(e)
  {
    if e.k >= |s.tasks| then None
    else match TaskMove(s.tasks[e.k], e.k in s.cancelled, e)
      case None => None
      case Some(m) => Some(Apply(s, e.k, m))
  }

  /** The state after event `e`, or None when `e` cannot happen in `s`. */
  function Step(cfg: Config, s: State, e: Event): Option<State> {
    if IsReaderRead(e) then (if s.reader.Reading? then ReaderStep(cfg, s, e) else None)
    else if IsReaderEnd(e) then ReaderEnd(s, e)
    else TaskStep(s, e)
  }

  /** The state reached from a fresh connection by `es`, if every event was possible in turn. */
  function Run(cfg: Config, es: seq<Event>): Option<State> {
    if es == [] then Some(INIT)
    else match Run(cfg, es[..|es| - 1])
      case None => None
      case Some(s) => Step(cfg, s, es[|es| - 1])
  }

  predicate IsStream(s: State, k: nat) { k < |s.tasks| && s.tasks[k].StreamTask? }
}
