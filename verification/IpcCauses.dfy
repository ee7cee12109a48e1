/**
 * Every frame of a connection traced to events of its run: the tokens a client gets are those the
 * worker emitted, in order; a clean end means the worker concluded without a failure; a reason given
 * for an error is one that happened; a reply is the one that was decided.
 */
module IpcCauses {
  import opened Wrappers
  import opened TokenStream
  import opened IpcConnection
  import opened IpcSafety
  import opened IpcTheorems

  // ---------------------------------------------------------------- what the events say

  /** The client, or the end of the connection, has told the task with this id to stop. */
  predicate Told(es: seq<Event>, id: nat) { ReadCancel(id, true) in es || ReaderClose in es }

  /** The chunks the worker emitted for task `k`, in order. */
  function Emitted(es: seq<Event>, k: nat): seq<Chunk>
  {
    if es == [] then []
    else
      var e := es[|es| - 1];
      Emitted(es[..|es| - 1], k) + if e.Emit? && e.k == k then [e.chunk] else []
  }

  lemma EmittedSnoc(es: seq<Event>, e: Event, k: nat)
    ensures Emitted(es + [e], k) == Emitted(es, k) + if e.Emit? && e.k == k then [e.chunk] else []
  {
    assert (es + [e])[..|es|] == es;
  }

  // ---------------------------------------------------------------- steps that concern one task

  /** No event of a run names a task that does not exist yet. */
  predicate Names(e: Event, k: nat) { !IsReader(e) && e.k == k }

  lemma TasksGrow(cfg: Config, s: State, e: Event, k: nat)
    requires Step(cfg, s, e).Some?
    ensures |s.tasks| <= |Step(cfg, s, e).value.tasks|
    ensures k >= |s.tasks| ==> !Names(e, k)
  {
    hide TaskMove;
  }

  lemma {:induction false} Unnamed(cfg: Config, es: seq<Event>, k: nat)
    requires Run(cfg, es).Some? && k >= |Run(cfg, es).value.tasks|
    ensures Emitted(es, k) == [] && forall e | e in es :: !Names(e, k)
  {
    hide Step, Names;
    if es != [] {
      var n := |es| - 1;
      TasksGrow(cfg, Run(cfg, es[..n]).value, es[n], k);
      Unnamed(cfg, es[..n], k);
      assert es == es[..n] + [es[n]];
      EmitNames(es[n], k);
    }
  }

  lemma EmitNames(e: Event, k: nat)
    ensures e.Emit? && e.k == k ==> Names(e, k)
  {
  }

  /** A task that is new after a step: as spawned, nothing written, not stopped. */
  lemma NewTask(cfg: Config, s: State, e: Event, k: nat)
    requires Inv(cfg, s) && Step(cfg, s, e).Some? && |s.tasks| <= k < |Step(cfg, s, e).value.tasks|
    ensures var s' := Step(cfg, s, e).value;
            && IsReader(e) && (s'.tasks[k] == NewStream(s'.tasks[k].id) || s'.tasks[k] == NewInference(s'.tasks[k].id))
            && k !in s'.cancelled && Chunks(s'.wire, k) == [] && Replies(s'.wire, k) == []
  {
    hide TaskMove, TaskHist, FenceInv, Chunks, Replies, ReaderStep;
    NoFrames(s, k);
    if IsReaderRead(e) {
      ReaderShape(cfg, s, e);
    }
  }

  /** Who stops a task: the client, the end of the connection, or its own timer. */
  lemma Stopped(cfg: Config, s: State, e: Event, k: nat)
    requires Inv(cfg, s) && Step(cfg, s, e).Some? && k in Step(cfg, s, e).value.cancelled && k !in s.cancelled && k < |s.tasks|
    ensures || e == ReadCancel(s.tasks[k].id, true) || e == ReaderClose
            || (e.Poll? && e.k == k && s.tasks[k].StreamTask? && s.tasks[k].pc == Relaying(DeadlineArm) && s.tasks[k].timerFired && e.budget)
  {
    hide TaskHist, FenceInv, Registered;
    if !IsReader(e) {
      CancellingMove(s.tasks[e.k], e.k in s.cancelled, e);
    }
  }

  lemma CancellingMove(t: Task, cancelled: bool, e: Event)
    requires TaskMove(t, cancelled, e).Some? && TaskMove(t, cancelled, e).value.cancels
    ensures e.Poll? && e.budget && t.StreamTask? && t.pc == Relaying(DeadlineArm) && t.timerFired
  {
  }

  // ---------------------------------------------------------------- flags and the queue

  /** What a step of the relay may do to the task, its position apart. */
  ghost predicate Sides(t: Task, t': Task, e: Event)
    requires t.StreamTask?
  {
    && t'.StreamTask? && t'.id == t.id && t'.produced == t.produced && t'.taken >= t.taken
    && t'.timerFired == t.timerFired && t'.overdue == t.overdue && !t'.pc.Admitting?
    && t'.producer == (if e.Admit? && e.verdict.Enqueued? then Queued else t.producer)
    && (e.Admit? ==> t.pc.Admitting?)
    && (t'.faulted ==> t.faulted || (e.SendCheck? && !e.encodes) || (e.SendWrite? && !e.ok))
  }

  lemma PollSides(t: Task, cancelled: bool, e: Event)
    requires t.StreamTask? && t.pc.Relaying? && e.Poll?
    ensures Sides(t, PollMove(t, cancelled, e.budget).task, e)
  {
  }

  lemma SendSides(t: Task, cancelled: bool, e: Event)
    requires t.StreamTask?
    ensures e.SendCheck? && t.pc.Sending? ==> Sides(t, CheckMove(t, cancelled, e.encodes).task, e)
    ensures e.SendWrite? && t.pc.Writing? ==> Sides(t, WriteMove(t, cancelled, e.ok).task, e)
  {
  }

  lemma OwnSides(t: Task, cancelled: bool, e: Event)
    requires t.StreamTask? && IsStreamOwn(e) && StreamMove(t, cancelled, e).Some?
    ensures Sides(t, StreamMove(t, cancelled, e).value.task, e)
  {
    hide PollMove, CheckMove, WriteMove;
    match e
    case Poll(_, _) => PollSides(t, cancelled, e);
    case SendCheck(_, _) => SendSides(t, cancelled, e);
    case SendWrite(_, _) => SendSides(t, cancelled, e);
    case Admit(_, _) =>
    case Release(_) =>
  }

  /** The flags of a streaming task are events of the run. */
  ghost predicate FlagCause(es: seq<Event>, k: nat, t: Task)
  {
    && t.StreamTask?
    && (t.faulted ==> SendCheck(k, false) in es || SendWrite(k, false) in es)
    && (t.timerFired <==> TimerFires(k) in es)
    && (t.overdue <==> DeadlinePasses(k) in es)
    && (t.producer.Unqueued? <==> Admit(k, Enqueued) !in es)
    && (t.pc.Admitting? ==> t.producer.Unqueued?)
  }

  lemma FlagOwn(es: seq<Event>, k: nat, t: Task, cancelled: bool, e: Event)
    requires FlagCause(es, k, t) && Names(e, k) && IsStreamOwn(e) && StreamMove(t, cancelled, e).Some?
    ensures FlagCause(es + [e], k, StreamMove(t, cancelled, e).value.task)
  {
    OwnSides(t, cancelled, e);
    hide StreamMove;
    assert (es + [e])[|es|] == e;
  }

  lemma FlagWorker(es: seq<Event>, k: nat, t: Task, cancelled: bool, e: Event)
    requires FlagCause(es, k, t) && Names(e, k) && !IsStreamOwn(e) && WorkerMove(t, cancelled, e).Some?
    ensures FlagCause(es + [e], k, WorkerMove(t, cancelled, e).value)
  {
    hide Concluded;
  }

  lemma FlagOther(es: seq<Event>, k: nat, t: Task, e: Event)
    requires FlagCause(es, k, t) && !Names(e, k)
    ensures FlagCause(es + [e], k, t)
  {
  }

  // ---------------------------------------------------------------- the channel

  /** What a terminal says of the run. */
  ghost predicate EndCause(es: seq<Event>, k: nat, x: StreamTerminal)
  {
    match x
    case Complete => Conclude(k, None) in es
    case Rejected(m) => Start(k, StartRejected(m)) in es
    case Error(m) =>
      || Conclude(k, Some(m)) in es || Start(k, StartRefused(m)) in es
      || (Conclude(k, None) in es && m == "Inference failed: stream cancelled or deadline exceeded")
      || (Start(k, StartStopped) in es &&
          m in {"stream cancelled before execution", "stream deadline exceeded before execution"})
  }

  /** Nothing of task `k` has concluded yet. */
  ghost predicate NotConcluded(es: seq<Event>, k: nat) { forall f :: Conclude(k, f) !in es }

  /** Everything on the channel of task `k` was emitted, in order, but for one terminal at the end. */
  ghost predicate ChannelCause(es: seq<Event>, k: nat, t: Task)
  {
    t.StreamTask? &&
    var n := |Emitted(es, k)|;
    && n <= |t.produced| <= n + 1 && t.produced[..n] == Items(Emitted(es, k))
    && (|t.produced| == n + 1 ==> t.producer.Closed? && t.produced[n].End? && EndCause(es, k, t.produced[n].terminal))
    && (t.producer.Ending? ==> |t.produced| == n && EndCause(es, k, t.producer.terminal))
    && (t.producer.Unqueued? || t.producer.Queued? || t.producer.Generating? ==> NotConcluded(es, k))
    && (t.producer.Unqueued? || t.producer.Queued? ==> n == 0)
    && |t.produced| <= t.taken + 32
  }

  /** No generation concludes twice, so a failure that was concluded is the only conclusion. */
  ghost predicate OneConclusion(es: seq<Event>, k: nat)
  {
    forall f, g :: Conclude(k, f) in es && Conclude(k, g) in es ==> f == g
  }

  lemma ItemsSnoc(cs: seq<Chunk>, c: Chunk)
    ensures Items(cs + [c]) == Items(cs) + [Item(c)]
  {
  }

  lemma EndCauseGrows(es: seq<Event>, e: Event, k: nat, x: StreamTerminal)
    requires EndCause(es, k, x)
    ensures EndCause(es + [e], k, x)
  {
  }

  lemma ChannelOther(es: seq<Event>, k: nat, t: Task, t': Task, e: Event)
    requires ChannelCause(es, k, t) && OneConclusion(es, k) && !(e.Emit? && e.k == k) && !(e.Conclude? && e.k == k)
    requires t'.StreamTask? && t'.produced == t.produced && t'.producer == t.producer && t'.taken >= t.taken
    ensures ChannelCause(es + [e], k, t') && OneConclusion(es + [e], k)
  {
    hide EndCause;
    EmittedSnoc(es, e, k);
    var n := |Emitted(es, k)|;
    if |t.produced| == n + 1 {
      EndCauseGrows(es, e, k, t.produced[n].terminal);
    }
    if t.producer.Ending? {
      EndCauseGrows(es, e, k, t.producer.terminal);
    }
  }

  lemma ChannelEmit(es: seq<Event>, k: nat, t: Task, chunk: Chunk)
    requires ChannelCause(es, k, t) && OneConclusion(es, k) && t.producer.Generating? && HasRoom(t)
    ensures var e := Emit(k, chunk);
            ChannelCause(es + [e], k, Push(t, Item(chunk), Generating)) && OneConclusion(es + [e], k)
  {
    var e := Emit(k, chunk);
    EmittedSnoc(es, e, k);
    ItemsSnoc(Emitted(es, k), chunk);
    var n := |Emitted(es, k)|;
    assert t.produced == Items(Emitted(es, k)) by { assert t.produced[..n] == t.produced; }
    var t' := Push(t, Item(chunk), Generating);
    assert t'.produced[..n + 1] == t'.produced;
  }

  lemma ChannelConclude(es: seq<Event>, k: nat, t: Task, failure: Option<string>, stopped: bool)
    requires ChannelCause(es, k, t) && OneConclusion(es, k) && t.producer.Generating?
    ensures var e := Conclude(k, failure);
            ChannelCause(es + [e], k, t.(producer := Ending(Concluded(stopped, failure)))) && OneConclusion(es + [e], k)
  {
    EmittedSnoc(es, Conclude(k, failure), k);
  }

  lemma ChannelEnd(es: seq<Event>, k: nat, t: Task)
    requires ChannelCause(es, k, t) && OneConclusion(es, k) && t.producer.Ending? && HasRoom(t)
    ensures ChannelCause(es + [SendEnd(k)], k, Push(t, End(t.producer.terminal), Closed)) && OneConclusion(es + [SendEnd(k)], k)
  {
    hide EndCause;
    var e, n := SendEnd(k), |Emitted(es, k)|;
    EmittedSnoc(es, e, k);
    EndCauseGrows(es, e, k, t.producer.terminal);
    assert Push(t, End(t.producer.terminal), Closed).produced[..n] == t.produced[..n];
  }

  lemma ChannelStart(es: seq<Event>, k: nat, t: Task, cancelled: bool, how: WorkerStart)
    requires ChannelCause(es, k, t) && OneConclusion(es, k) && t.producer.Queued? && StartProducer(t, cancelled, how).Some?
    ensures var e := Start(k, how);
            ChannelCause(es + [e], k, t.(producer := StartProducer(t, cancelled, how).value)) && OneConclusion(es + [e], k)
  {
    EmittedSnoc(es, Start(k, how), k);
  }

  lemma ChannelHangup(es: seq<Event>, k: nat, t: Task)
    requires ChannelCause(es, k, t) && OneConclusion(es, k)
    ensures ChannelCause(es + [Hangup(k)], k, t.(producer := Closed)) && OneConclusion(es + [Hangup(k)], k)
  {
    hide EndCause;
    EmittedSnoc(es, Hangup(k), k);
    var n := |Emitted(es, k)|;
    if |t.produced| == n + 1 {
      EndCauseGrows(es, Hangup(k), k, t.produced[n].terminal);
    }
  }

  lemma ChannelWorker(es: seq<Event>, k: nat, t: Task, cancelled: bool, e: Event)
    requires t.StreamTask? && ChannelCause(es, k, t) && OneConclusion(es, k) && Names(e, k) && WorkerMove(t, cancelled, e).Some?
    ensures ChannelCause(es + [e], k, WorkerMove(t, cancelled, e).value) && OneConclusion(es + [e], k)
  {
    hide ChannelCause, OneConclusion, Concluded, StartProducer, HasRoom, Push;
    match e
    case Start(_, how) => ChannelStart(es, k, t, cancelled, how);
    case Emit(_, chunk) => ChannelEmit(es, k, t, chunk);
    case Conclude(_, failure) => ChannelConclude(es, k, t, failure, cancelled || t.overdue);
    case SendEnd(_) => ChannelEnd(es, k, t);
    case Hangup(_) => ChannelHangup(es, k, t);
    case TimerFires(_) => ChannelOther(es, k, t, WorkerMove(t, cancelled, e).value, e);
    case DeadlinePasses(_) => ChannelOther(es, k, t, WorkerMove(t, cancelled, e).value, e);
  }

  lemma ChannelQueued(es: seq<Event>, k: nat, t: Task, t': Task, e: Event)
    requires ChannelCause(es, k, t) && OneConclusion(es, k) && e.Admit? && t.producer.Unqueued?
    requires t'.StreamTask? && t'.produced == t.produced && t'.producer == Queued && t'.taken >= t.taken
    ensures ChannelCause(es + [e], k, t') && OneConclusion(es + [e], k)
  {
    EmittedSnoc(es, e, k);
  }

  lemma ChannelOwn(es: seq<Event>, k: nat, t: Task, cancelled: bool, e: Event)
    requires ChannelCause(es, k, t) && OneConclusion(es, k) && FlagCause(es, k, t)
    requires Names(e, k) && IsStreamOwn(e) && StreamMove(t, cancelled, e).Some?
    ensures ChannelCause(es + [e], k, StreamMove(t, cancelled, e).value.task) && OneConclusion(es + [e], k)
  {
    hide ChannelCause, OneConclusion, StreamMove;
    var t' := StreamMove(t, cancelled, e).value.task;
    OwnSides(t, cancelled, e);
    if e.Admit? && e.verdict.Enqueued? {
      ChannelQueued(es, k, t, t', e);
    } else {
      ChannelOther(es, k, t, t', e);
    }
  }

  // ---------------------------------------------------------------- reasons

  /** Something went wrong in front of the worker: a refusal, a fault of the wire, or a stop. */
  ghost predicate HandlerCause(es: seq<Event>, k: nat, id: nat)
  {
    || Admit(k, NotAuthorized) in es || Admit(k, Verdict.ShuttingDown) in es || Admit(k, QueueRefused) in es
    || SendCheck(k, false) in es || SendWrite(k, false) in es || Told(es, id)
  }

  /** The reason a frame gives is one that happened. */
  ghost predicate Truth(es: seq<Event>, k: nat, t: Task, b: Body)
    requires t.StreamTask?
  {
    match b
    case Data(_) => true
    case Clean => true
    case Failed(CancelSeen) => Told(es, t.id)
    case Failed(DeadlineSeen) => TimerFires(k) in es
    case Failed(ProducerGone) => t.producer.Closed? && (forall i | 0 <= i < |t.produced| :: t.produced[i].Item?)
    case Failed(InvalidRequest) => Admit(k, Malformed) in es
    case Failed(HandlerError) => HandlerCause(es, k, t.id)
    case Failed(Worker(m)) => End(Rejected(m)) in t.produced || End(Error(m)) in t.produced
  }

  /** The token was cancelled by the task's own timer, and the task is on its way out. */
  predicate PastDeadline(pc: StreamPc)
  {
    pc.Releasing? || pc.Finished? || ((pc.Sending? || pc.Writing?) && pc.body == Failed(DeadlineSeen) && pc.next.Finish?)
  }

  /** How a terminal taken from the channel shows: only a cancellation keeps a clean end from the client. */
  predicate ShowsEnd(b: Body, x: StreamTerminal, cancelled: bool)
  {
    match x
    case Complete => b == Clean || (cancelled && b == Failed(HandlerError))
    case Rejected(m) => b == Failed(Worker(m))
    case Error(m) => b == Failed(Worker(m))
  }

  /** The frame that ends the stream: about to be sent, or the last one written. */
  predicate Ends(pc: StreamPc, h: seq<Body>, x: StreamTerminal, cancelled: bool)
  {
    match pc
    case Sending(b, _) => ShowsEnd(b, x, cancelled)
    case Writing(b, _) => ShowsEnd(b, x, cancelled)
    case Releasing => h != [] && ShowsEnd(h[|h| - 1], x, cancelled)
    case Finished => h != [] && ShowsEnd(h[|h| - 1], x, cancelled)
    case _ => false
  }

  ghost predicate Spoken(es: seq<Event>, k: nat, t: Task, h: seq<Body>)
    requires t.StreamTask?
  {
    forall b | b in h :: Truth(es, k, t, b)
  }

  ghost predicate Pending(es: seq<Event>, k: nat, t: Task)
    requires t.StreamTask?
  {
    t.pc.Sending? || t.pc.Writing? ==> Truth(es, k, t, t.pc.body)
  }

  ghost predicate StopCause(es: seq<Event>, t: Task, cancelled: bool)
    requires t.StreamTask?
  {
    cancelled ==> Told(es, t.id) || PastDeadline(t.pc)
  }

  ghost predicate EndShown(t: Task, h: seq<Body>, cancelled: bool)
    requires t.StreamTask?
  {
    !t.faulted && 0 < t.taken <= |t.produced| && t.produced[t.taken - 1].End? ==>
      Ends(t.pc, h, t.produced[t.taken - 1].terminal, cancelled)
  }

  ghost predicate ReasonCause(es: seq<Event>, k: nat, t: Task, cancelled: bool, h: seq<Body>)
  {
    t.StreamTask? && Spoken(es, k, t, h) && Pending(es, k, t) && StopCause(es, t, cancelled) && EndShown(t, h, cancelled)
  }

  /** Neither a longer run nor a channel that grows makes a reason untrue. */
  lemma TruthKeeps(es: seq<Event>, e: Event, k: nat, t: Task, t': Task, b: Body)
    requires t.StreamTask? && t'.StreamTask? && t'.id == t.id && t.produced <= t'.produced
    requires t.producer.Closed? ==> t'.producer.Closed? && t'.produced == t.produced
    requires Truth(es, k, t, b)
    ensures Truth(es + [e], k, t', b)
  {
  }

  lemma SpokenKeeps(es: seq<Event>, e: Event, k: nat, t: Task, t': Task, h: seq<Body>)
    requires t.StreamTask? && t'.StreamTask? && t'.id == t.id && t.produced <= t'.produced
    requires t.producer.Closed? ==> t'.producer.Closed? && t'.produced == t.produced
    requires Spoken(es, k, t, h)
    ensures Spoken(es + [e], k, t', h)
  {
    hide Truth;
    forall b | b in h
      ensures Truth(es + [e], k, t', b)
    {
      TruthKeeps(es, e, k, t, t', b);
    }
  }

  /** A step that leaves the relay where it is; the token may be cancelled by it. */
  lemma ReasonIdle(es: seq<Event>, e: Event, k: nat, t: Task, t': Task, cancelled: bool, cancelled': bool, h: seq<Body>)
    requires ReasonCause(es, k, t, cancelled, h) && t'.StreamTask?
    requires t'.id == t.id && t'.pc == t.pc && t'.taken == t.taken && t'.faulted == t.faulted && t.produced <= t'.produced
    requires t.producer.Closed? ==> t'.producer.Closed? && t'.produced == t.produced
    requires cancelled ==> cancelled'
    requires cancelled' && !cancelled ==> e == ReadCancel(t.id, true) || e == ReaderClose
    requires t.taken <= |t.produced|
    ensures ReasonCause(es + [e], k, t', cancelled', h)
  {
    hide Truth, Spoken;
    SpokenKeeps(es, e, k, t, t', h);
    if t.pc.Sending? || t.pc.Writing? {
      TruthKeeps(es, e, k, t, t', t.pc.body);
    }
  }

  lemma WorkerSides(t: Task, cancelled: bool, e: Event)
    requires t.StreamTask? && WorkerMove(t, cancelled, e).Some?
    ensures var t' := WorkerMove(t, cancelled, e).value;
            && t'.StreamTask? && t'.id == t.id && t'.pc == t.pc && t'.taken == t.taken && t'.faulted == t.faulted
            && t.produced <= t'.produced && (t.producer.Closed? ==> t'.producer.Closed? && t'.produced == t.produced)
  {
  }

  // ---------------------------------------------------------------- reasons, step by step

  lemma AdmitReason(es: seq<Event>, k: nat, t: Task, cancelled: bool, h: seq<Body>, e: Event)
    requires ReasonCause(es, k, t, cancelled, h) && StreamInv(t, h) && e.Admit? && e.k == k && t.pc.Admitting?
    ensures ReasonCause(es + [e], k, AdmitMove(t, e.verdict).task, cancelled, h)
  {
    hide Spoken;
    assert h == [];
    assert (es + [e])[|es|] == e;
    SpokenKeeps(es, e, k, t, AdmitMove(t, e.verdict).task, h);
  }

  /** What polling turns into an error is true. */
  lemma PollReason(es: seq<Event>, k: nat, t: Task, cancelled: bool, h: seq<Body>, e: Event)
    requires ReasonCause(es, k, t, cancelled, h) && FlagCause(es, k, t) && StreamInv(t, h)
    requires e.Poll? && e.k == k && t.pc.Relaying?
    ensures var m := PollMove(t, cancelled, e.budget);
            Pending(es + [e], k, m.task) && StopCause(es + [e], m.task, cancelled || m.cancels)
  {
  }

  lemma PollEnds(t: Task, cancelled: bool, h: seq<Body>, budget: bool)
    requires t.StreamTask? && t.pc.Relaying? && StreamInv(t, h) && EndShown(t, h, cancelled)
    ensures var m := PollMove(t, cancelled, budget); EndShown(m.task, h, cancelled || m.cancels)
  {
  }

  lemma CheckReason(es: seq<Event>, k: nat, t: Task, cancelled: bool, h: seq<Body>, e: Event)
    requires ReasonCause(es, k, t, cancelled, h) && StreamInv(t, h) && e.SendCheck? && e.k == k && t.pc.Sending?
    ensures var m := CheckMove(t, cancelled, e.encodes);
            Pending(es + [e], k, m.task) && StopCause(es + [e], m.task, cancelled) && EndShown(m.task, h, cancelled)
  {
    hide Spoken;
    assert (es + [e])[|es|] == e;
    TruthKeeps(es, e, k, t, t, t.pc.body);
  }

  lemma WriteReason(es: seq<Event>, k: nat, t: Task, cancelled: bool, h: seq<Body>, e: Event)
    requires ReasonCause(es, k, t, cancelled, h) && StreamInv(t, h) && e.SendWrite? && e.k == k && t.pc.Writing?
    ensures var m := WriteMove(t, cancelled, e.ok);
            && Pending(es + [e], k, m.task) && StopCause(es + [e], m.task, cancelled)
            && EndShown(m.task, h + ChunkOf(m.out), cancelled)
            && (m.out.Writes? ==> Truth(es + [e], k, m.task, m.out.body))
  {
    hide Spoken;
    assert (es + [e])[|es|] == e;
    TruthKeeps(es, e, k, t, t, t.pc.body);
    if !Fenced(cancelled, t.pc.body) && e.ok {
      TruthKeeps(es, e, k, t, SendDone(t, t.pc.next), t.pc.body);
    }
  }

  lemma ReleaseReason(es: seq<Event>, k: nat, t: Task, cancelled: bool, h: seq<Body>, e: Event)
    requires ReasonCause(es, k, t, cancelled, h) && t.pc.Releasing?
    ensures ReasonCause(es + [e], k, t.(pc := Finished), cancelled, h)
  {
    hide Spoken, Truth;
    SpokenKeeps(es, e, k, t, t.(pc := Finished), h);
  }

  lemma OwnReason(es: seq<Event>, k: nat, t: Task, cancelled: bool, h: seq<Body>, e: Event)
    requires ReasonCause(es, k, t, cancelled, h) && FlagCause(es, k, t) && StreamInv(t, h)
    requires Names(e, k) && IsStreamOwn(e) && StreamMove(t, cancelled, e).Some?
    ensures var m := StreamMove(t, cancelled, e).value;
            ReasonCause(es + [e], k, m.task, cancelled || m.cancels, h + ChunkOf(m.out))
  {
    hide PollMove, CheckMove, WriteMove, AdmitMove, Truth, Spoken, Pending, StopCause, EndShown, StreamInv, FlagCause;
    var m := StreamMove(t, cancelled, e).value;
    assert h + [] == h;
    OwnSides(t, cancelled, e);
    StreamMoveGood(t, cancelled, e);
    OwnKinds(t, cancelled, e);
    match e
    case Admit(_, _) => AdmitReason(es, k, t, cancelled, h, e);
    case Poll(_, budget) =>
      SpokenKeeps(es, e, k, t, m.task, h);
      PollReason(es, k, t, cancelled, h, e);
      PollEnds(t, cancelled, h, budget);
    case SendCheck(_, _) =>
      SpokenKeeps(es, e, k, t, m.task, h);
      CheckReason(es, k, t, cancelled, h, e);
    case SendWrite(_, _) =>
      SpokenKeeps(es, e, k, t, m.task, h);
      WriteReason(es, k, t, cancelled, h, e);
      SpokenSnoc(es + [e], k, m.task, h, m.out);
    case Release(_) => ReleaseReason(es, k, t, cancelled, h, e);
  }

  lemma SpokenSnoc(es: seq<Event>, k: nat, t: Task, h: seq<Body>, out: Output)
    requires t.StreamTask? && Spoken(es, k, t, h) && (out.Writes? ==> Truth(es, k, t, out.body))
    ensures Spoken(es, k, t, h + ChunkOf(out))
  {
    hide Truth;
  }

  /** Which steps write, which cancel. */
  lemma OwnKinds(t: Task, cancelled: bool, e: Event)
    requires t.StreamTask? && StreamMove(t, cancelled, e).Some?
    ensures var m := StreamMove(t, cancelled, e).value;
            (m.cancels ==> e.Poll?) && (!m.out.Silent? ==> e.SendWrite?)
  {
  }

  // ---------------------------------------------------------------- streams in every run

  ghost predicate StreamCause(es: seq<Event>, k: nat, t: Task, cancelled: bool, h: seq<Body>)
  {
    FlagCause(es, k, t) && ChannelCause(es, k, t) && OneConclusion(es, k) && ReasonCause(es, k, t, cancelled, h)
  }

  lemma NewFlagCause(es: seq<Event>, k: nat, id: nat)
    requires forall x | x in es :: !Names(x, k)
    ensures FlagCause(es, k, NewStream(id))
  {
    assert Names(TimerFires(k), k) && Names(DeadlinePasses(k), k) && Names(Admit(k, Enqueued), k);
    hide Names;
  }

  lemma NewChannelCause(es: seq<Event>, k: nat, id: nat)
    requires Emitted(es, k) == [] && forall x | x in es :: !Names(x, k)
    ensures ChannelCause(es, k, NewStream(id)) && OneConclusion(es, k)
  {
    assert forall f :: Names(Conclude(k, f), k);
    hide Names;
    assert Items([]) == [];
  }

  lemma StillUnnamed(es: seq<Event>, e: Event, k: nat)
    requires (forall x | x in es :: !Names(x, k)) && IsReader(e)
    ensures forall x | x in es + [e] :: !Names(x, k)
  {
    assert !Names(e, k);
    hide Names;
  }

  lemma NewStreamCause(es: seq<Event>, e: Event, k: nat, id: nat)
    requires Emitted(es, k) == [] && (forall x | x in es :: !Names(x, k)) && IsReader(e)
    ensures StreamCause(es + [e], k, NewStream(id), false, [])
  {
    hide FlagCause, ChannelCause, OneConclusion, Names;
    EmittedSnoc(es, e, k);
    StillUnnamed(es, e, k);
    NewFlagCause(es + [e], k, id);
    NewChannelCause(es + [e], k, id);
  }

  lemma MovedStreamCause(es: seq<Event>, k: nat, t: Task, cancelled: bool, h: seq<Body>, e: Event)
    requires StreamCause(es, k, t, cancelled, h) && t.StreamTask? && StreamInv(t, h)
    requires Names(e, k) && TaskMove(t, cancelled, e).Some?
    ensures var m := TaskMove(t, cancelled, e).value;
            StreamCause(es + [e], k, m.task, cancelled || m.cancels, h + ChunkOf(m.out))
  {
    hide FlagCause, ChannelCause, OneConclusion, ReasonCause, StreamInv, StreamMove, WorkerMove, InferMove;
    if IsStreamOwn(e) {
      FlagOwn(es, k, t, cancelled, e);
      ChannelOwn(es, k, t, cancelled, e);
      OwnReason(es, k, t, cancelled, h, e);
    } else {
      assert h + [] == h;
      FlagWorker(es, k, t, cancelled, e);
      ChannelWorker(es, k, t, cancelled, e);
      WorkerSides(t, cancelled, e);
      TakenInside(t, h);
      ReasonIdle(es, e, k, t, WorkerMove(t, cancelled, e).value, cancelled, cancelled, h);
    }
  }

  lemma TakenInside(t: Task, h: seq<Body>)
    requires t.StreamTask? && StreamInv(t, h)
    ensures t.taken <= |t.produced|
  {
  }

  lemma IdleStreamCause(es: seq<Event>, k: nat, t: Task, cancelled: bool, cancelled': bool, h: seq<Body>, e: Event)
    requires StreamCause(es, k, t, cancelled, h) && t.StreamTask? && StreamInv(t, h) && !Names(e, k)
    requires cancelled ==> cancelled'
    requires cancelled' && !cancelled ==> e == ReadCancel(t.id, true) || e == ReaderClose
    ensures StreamCause(es + [e], k, t, cancelled', h)
  {
    hide FlagCause, ChannelCause, OneConclusion, ReasonCause, StreamInv;
    FlagOther(es, k, t, e);
    ChannelOther(es, k, t, t, e);
    TakenInside(t, h);
    ReasonIdle(es, e, k, t, t, cancelled, cancelled', h);
  }

  lemma StepStreamCause(cfg: Config, es: seq<Event>, s: State, e: Event, k: nat)
    requires Inv(cfg, s) && Step(cfg, s, e).Some? && IsStream(s, k)
    requires StreamCause(es, k, s.tasks[k], k in s.cancelled, Chunks(s.wire, k))
    ensures var s' := Step(cfg, s, e).value;
            IsStream(s', k) && StreamCause(es + [e], k, s'.tasks[k], k in s'.cancelled, Chunks(s'.wire, k))
  {
    hide StreamCause, StreamInv, Chunks, Replies, TaskMove, ReaderStep, ReaderEnd;
    assert TaskInv(s, k);
    hide Inv, TaskHist;
    StepTask(cfg, s, e, k);
    if Names(e, k) {
      MovedStreamCause(es, k, s.tasks[k], k in s.cancelled, Chunks(s.wire, k), e);
      TaskMoveGood(s.tasks[k], k in s.cancelled, e);
    } else {
      if k in Step(cfg, s, e).value.cancelled && k !in s.cancelled {
        Stopped(cfg, s, e, k);
      }
      IdleStreamCause(es, k, s.tasks[k], k in s.cancelled, k in Step(cfg, s, e).value.cancelled, Chunks(s.wire, k), e);
    }
  }

  lemma {:induction false} RunStreamCause(cfg: Config, es: seq<Event>, k: nat)
    requires Run(cfg, es).Some? && IsStream(Run(cfg, es).value, k)
    ensures var s := Run(cfg, es).value; StreamCause(es, k, s.tasks[k], k in s.cancelled, Chunks(s.wire, k))
  {
    hide Step, StreamCause, Chunks;
    var n := |es| - 1;
    var s, e := Run(cfg, es[..n]).value, es[n];
    assert es == es[..n] + [e];
    RunKeeps(cfg, es[..n]);
    if k < |s.tasks| {
      StepTask(cfg, s, e, k);
      KindKept(cfg, s, e, k);
      RunStreamCause(cfg, es[..n], k);
      StepStreamCause(cfg, es[..n], s, e, k);
    } else {
      NewTask(cfg, s, e, k);
      Unnamed(cfg, es[..n], k);
      NewStreamCause(es[..n], e, k, Run(cfg, es).value.tasks[k].id);
    }
  }

  lemma KindKept(cfg: Config, s: State, e: Event, k: nat)
    requires Inv(cfg, s) && Step(cfg, s, e).Some? && k < |s.tasks|
    ensures var s' := Step(cfg, s, e).value; k < |s'.tasks| && s'.tasks[k].StreamTask? == s.tasks[k].StreamTask? && s'.tasks[k].id == s.tasks[k].id
  {
    hide Step, TaskMove, Inv, Registered;
    StepTask(cfg, s, e, k);
    if !IsReader(e) && e.k == k {
      TaskMoveGood(s.tasks[k], k in s.cancelled, e);
    }
  }

  lemma DataDelivered(t: Task, h: seq<Body>, i: nat)
    requires t.StreamTask? && StreamInv(t, h) && i < |h| && h[i].Data?
    ensures i < |t.produced| && t.produced[i].Item? && h[i] == Data(t.produced[i].chunk)
  {
  }

  lemma DataEmitted(es: seq<Event>, k: nat, t: Task, h: seq<Body>, i: nat)
    requires t.StreamTask? && StreamInv(t, h) && ChannelCause(es, k, t) && i < |h| && h[i].Data?
    ensures i < |Emitted(es, k)| && h[i] == Data(Emitted(es, k)[i])
  {
    DataDelivered(t, h, i);
    hide StreamInv, EndCause, NotConcluded, Emitted;
    assert i < |Emitted(es, k)| ==> t.produced[..|Emitted(es, k)|][i] == Item(Emitted(es, k)[i]);
  }

  lemma FewWaiting(es: seq<Event>, k: nat, t: Task)
    requires ChannelCause(es, k, t)
    ensures t.StreamTask? && |t.produced| <= t.taken + 32
  {
  }

  /** What the run says of a stream: its own history and the events behind it. */
  lemma StreamFacts(cfg: Config, es: seq<Event>, k: nat)
    requires Run(cfg, es).Some? && IsStream(Run(cfg, es).value, k)
    ensures var s := Run(cfg, es).value;
            && StreamInv(s.tasks[k], Chunks(s.wire, k))
            && StreamCause(es, k, s.tasks[k], k in s.cancelled, Chunks(s.wire, k))
  {
    RunKeeps(cfg, es);
    assert TaskInv(Run(cfg, es).value, k);
    hide StreamCause, StreamInv, Run, Chunks;
    RunStreamCause(cfg, es, k);
  }

  /** The data frames of a stream are the worker's chunks, in order from the first; at most 32 wait for the relay. */
  lemma TokensInOrder(cfg: Config, es: seq<Event>, k: nat)
    requires Run(cfg, es).Some? && IsStream(Run(cfg, es).value, k)
    ensures var s := Run(cfg, es).value;
            var h := Chunks(s.wire, k);
            && (forall i | 0 <= i < |h| && h[i].Data? :: i < |Emitted(es, k)| && h[i] == Data(Emitted(es, k)[i]))
            && |s.tasks[k].produced| <= s.tasks[k].taken + 32
  {
    hide Run, Chunks, Emitted, StreamInv, ChannelCause, FlagCause, OneConclusion, ReasonCause;
    StreamFacts(cfg, es, k);
    var s := Run(cfg, es).value;
    FewWaiting(es, k, s.tasks[k]);
    var h := Chunks(s.wire, k);
    forall i | 0 <= i < |h| && h[i].Data?
      ensures i < |Emitted(es, k)| && h[i] == Data(Emitted(es, k)[i])
    {
      DataEmitted(es, k, s.tasks[k], h, i);
    }
  }

  lemma CleanDelivered(t: Task, h: seq<Body>)
    requires t.StreamTask? && StreamInv(t, h) && Clean in h
    ensures |h| == |t.produced| && h[|h| - 1] == Clean && t.produced[|h| - 1] == End(Complete)
    ensures forall i | 0 <= i < |h| - 1 :: h[i].Data?
  {
  }

  lemma CompleteConcluded(es: seq<Event>, k: nat, t: Task, n: nat)
    requires ChannelCause(es, k, t) && OneConclusion(es, k) && |t.produced| == n + 1 && t.produced[n] == End(Complete)
    ensures |Emitted(es, k)| == n && Conclude(k, None) in es && forall m :: Conclude(k, Some(m)) !in es
  {
    hide Emitted;
  }

  /**
   * A clean end means that the worker concluded without a failure, and with none in all, and that the
   * client has everything it emitted.
   */
  lemma CleanMeansConcluded(cfg: Config, es: seq<Event>, k: nat)
    requires Run(cfg, es).Some? && IsStream(Run(cfg, es).value, k) && Clean in Chunks(Run(cfg, es).value.wire, k)
    ensures Conclude(k, None) in es && (forall m :: Conclude(k, Some(m)) !in es)
    ensures var h := Chunks(Run(cfg, es).value.wire, k);
            && |h| == |Emitted(es, k)| + 1 && h[|h| - 1] == Clean
            && forall i | 0 <= i < |Emitted(es, k)| :: h[i] == Data(Emitted(es, k)[i])
  {
    hide Run, Chunks, Emitted, StreamInv, ChannelCause, FlagCause, OneConclusion, ReasonCause;
    StreamFacts(cfg, es, k);
    TokensInOrder(cfg, es, k);
    var s := Run(cfg, es).value;
    var h := Chunks(s.wire, k);
    CleanDelivered(s.tasks[k], h);
    CompleteConcluded(es, k, s.tasks[k], |h| - 1);
  }

  /** The reason of every error frame of a stream is one that happened. */
  lemma ReasonsTrue(cfg: Config, es: seq<Event>, i: nat)
    requires Run(cfg, es).Some? && i < |Run(cfg, es).value.wire|
    requires Run(cfg, es).value.wire[i].ChunkFrame? && Run(cfg, es).value.wire[i].body.Failed?
    ensures var s := Run(cfg, es).value;
            IsStream(s, s.wire[i].task) && Truth(es, s.wire[i].task, s.tasks[s.wire[i].task], s.wire[i].body)
  {
    RunKeeps(cfg, es);
    var s := Run(cfg, es).value;
    var k := s.wire[i].task;
    assert FrameInv(s, s.wire[i]);
    hide Run, Chunks, Truth;
    RunStreamCause(cfg, es, k);
    ChunkPosition(s.wire, i);
  }

  /**
   * A finished stream none of whose frames failed to be encoded or written ends with one final frame;
   * if its relay took the worker's terminal, that frame is the terminal's, and only a stop told to the
   * request keeps a clean end from the client.
   */
  lemma EndsAsConcluded(cfg: Config, es: seq<Event>, k: nat)
    requires Run(cfg, es).Some? && IsStream(Run(cfg, es).value, k) && Run(cfg, es).value.tasks[k].pc.Finished?
    requires SendCheck(k, false) !in es && SendWrite(k, false) !in es
    ensures var s := Run(cfg, es).value;
            var h, t := Chunks(s.wire, k), s.tasks[k];
            && |h| > 0 && h[|h| - 1].IsFinal()
            && (t.taken > 0 && t.taken <= |t.produced| && t.produced[t.taken - 1].End? ==>
                  match t.produced[t.taken - 1].terminal
                  case Complete => h[|h| - 1] == Clean || (k in s.cancelled && h[|h| - 1] == Failed(HandlerError))
                  case Rejected(m) => h[|h| - 1] == Failed(Worker(m))
                  case Error(m) => h[|h| - 1] == Failed(Worker(m)))
  {
    hide Run, Chunks, StreamInv, ChannelCause, OneConclusion, Spoken, Pending, StopCause;
    StreamFacts(cfg, es, k);
    OneFinalFrame(cfg, es, k);
  }

  // ---------------------------------------------------------------- non-streaming requests

  /** The outcome decided for task `k`: a refusal by the queue, or the answer its wait ended with. */
  function Decided(es: seq<Event>, k: nat): Option<Reply>
  {
    if es == [] then None
    else
      var e := es[|es| - 1];
      if e == Submit(k, false) then Some(Failure(RefusedBeforeQueue))
      else if e.Answer? && e.k == k then Some(e.reply)
      else Decided(es[..|es| - 1], k)
  }

  lemma DecidedSnoc(es: seq<Event>, e: Event, k: nat)
    ensures Decided(es + [e], k) ==
            if e == Submit(k, false) then Some(Failure(RefusedBeforeQueue))
            else if e.Answer? && e.k == k then Some(e.reply)
            else Decided(es, k)
  {
    assert (es + [e])[..|es|] == es;
  }

  ghost predicate InferCause(es: seq<Event>, k: nat, t: Task, cancelled: bool, r: seq<Reply>)
  {
    t.InferTask? &&
    (match t.step
     case Submitting => Decided(es, k) == None && Submit(k, true) !in es
     case Awaiting => Decided(es, k) == None && Submit(k, true) in es
     case Answered(x) => Decided(es, k) == Some(x)
     case Released(x) => Decided(es, k) == Some(x)
     case Replied => Decided(es, k).Some? && (t.lost || r == [Decided(es, k).value]))
    && (t.lost ==> WriteReply(k, false) in es)
    && (t.expired <==> DeadlinePasses(k) in es)
    && (cancelled ==> Told(es, t.id))
    && (Decided(es, k) == Some(Failure(StoppedByCancel)) ==> Told(es, t.id))
    && (Decided(es, k) == Some(Failure(StoppedByDeadline)) ==> DeadlinePasses(k) in es)
    && (Decided(es, k) == Some(Failure(RefusedBeforeQueue)) <==> Submit(k, false) in es)
    && (Submit(k, true) in es ==> !t.step.Submitting? && Submit(k, false) !in es)
  }

  lemma InferOther(es: seq<Event>, k: nat, t: Task, cancelled: bool, cancelled': bool, r: seq<Reply>, e: Event)
    requires InferCause(es, k, t, cancelled, r) && !Names(e, k)
    requires cancelled' && !cancelled ==> e == ReadCancel(t.id, true) || e == ReaderClose
    ensures InferCause(es + [e], k, t, cancelled', r)
  {
    DecidedSnoc(es, e, k);
  }

  lemma InferMoved(es: seq<Event>, k: nat, t: Task, cancelled: bool, r: seq<Reply>, e: Event)
    requires InferCause(es, k, t, cancelled, r) && ReplyInv(t, r) && Names(e, k) && InferMove(t, cancelled, e).Some?
    ensures var m := InferMove(t, cancelled, e).value;
            InferCause(es + [e], k, m.task, cancelled, r + ReplyOf(m.out)) && !m.cancels
  {
    DecidedSnoc(es, e, k);
    assert (es + [e])[|es|] == e;
    assert r + [] == r;
  }

  lemma NewInferCause(es: seq<Event>, k: nat, id: nat)
    requires (forall x | x in es :: !Names(x, k)) && Decided(es, k) == None
    ensures InferCause(es, k, NewInference(id), false, [])
  {
    assert Names(Submit(k, true), k) && Names(Submit(k, false), k) && Names(DeadlinePasses(k), k);
    hide Names, Decided;
  }

  lemma {:induction false} Undecided(es: seq<Event>, k: nat)
    requires forall x | x in es :: !Names(x, k)
    ensures Decided(es, k) == None
  {
    if es != [] {
      var n := |es| - 1;
      assert es[n] in es;
      Undecided(es[..n], k);
    }
  }

  lemma StepInferCause(cfg: Config, es: seq<Event>, s: State, e: Event, k: nat)
    requires Inv(cfg, s) && Step(cfg, s, e).Some? && k < |s.tasks|
    requires InferCause(es, k, s.tasks[k], k in s.cancelled, Replies(s.wire, k))
    ensures var s' := Step(cfg, s, e).value;
            k < |s'.tasks| && InferCause(es + [e], k, s'.tasks[k], k in s'.cancelled, Replies(s'.wire, k))
  {
    assert TaskInv(s, k) && s.tasks[k].InferTask?;
    hide InferCause, ReplyInv, StreamInv, Chunks, Replies, InferMove, StreamMove, WorkerMove, ReaderStep, ReaderEnd, Inv;
    StepTask(cfg, s, e, k);
    if Names(e, k) {
      InferMoved(es, k, s.tasks[k], k in s.cancelled, Replies(s.wire, k), e);
    } else {
      if k in Step(cfg, s, e).value.cancelled && k !in s.cancelled {
        Stopped(cfg, s, e, k);
        InferKind(es, k, s.tasks[k], k in s.cancelled, Replies(s.wire, k));
      }
      InferOther(es, k, s.tasks[k], k in s.cancelled, k in Step(cfg, s, e).value.cancelled, Replies(s.wire, k), e);
    }
  }

  lemma InferKind(es: seq<Event>, k: nat, t: Task, cancelled: bool, r: seq<Reply>)
    requires InferCause(es, k, t, cancelled, r)
    ensures t.InferTask?
  {
  }

  lemma {:induction false} RunInferCause(cfg: Config, es: seq<Event>, k: nat)
    requires Run(cfg, es).Some? && k < |Run(cfg, es).value.tasks| && Run(cfg, es).value.tasks[k].InferTask?
    ensures var s := Run(cfg, es).value; InferCause(es, k, s.tasks[k], k in s.cancelled, Replies(s.wire, k))
  {
    hide Step, InferCause, Replies;
    var n := |es| - 1;
    var s, e := Run(cfg, es[..n]).value, es[n];
    assert es == es[..n] + [e];
    RunKeeps(cfg, es[..n]);
    if k < |s.tasks| {
      KindKept(cfg, s, e, k);
      RunInferCause(cfg, es[..n], k);
      StepInferCause(cfg, es[..n], s, e, k);
    } else {
      NewTask(cfg, s, e, k);
      Unnamed(cfg, es[..n], k);
      StillUnnamed(es[..n], e, k);
      Undecided(es, k);
      NewInferCause(es, k, Run(cfg, es).value.tasks[k].id);
    }
  }

  /**
   * The reply of a non-streaming request is the one decided for it, and only a failed write loses it;
   * a caller told that it was stopped was told to stop, or its deadline had passed.
   */
  lemma ReplyIsDecided(cfg: Config, es: seq<Event>, k: nat)
    requires Run(cfg, es).Some? && k < |Run(cfg, es).value.tasks| && Run(cfg, es).value.tasks[k].InferTask?
    ensures var s := Run(cfg, es).value;
            var r := Replies(s.wire, k);
            && (r != [] ==> Decided(es, k).Some? && r == [Decided(es, k).value])
            && (s.tasks[k].step.Replied? && WriteReply(k, false) !in es ==> |r| == 1)
            && (r == [Failure(StoppedByCancel)] ==> Told(es, s.tasks[k].id))
            && (r == [Failure(StoppedByDeadline)] ==> DeadlinePasses(k) in es)
            && (r == [Failure(RefusedBeforeQueue)] ==> Submit(k, false) in es && Submit(k, true) !in es)
  {
    RunKeeps(cfg, es);
    RunInferCause(cfg, es, k);
    assert TaskInv(Run(cfg, es).value, k);
    hide Run, Replies, Decided;
  }
}
