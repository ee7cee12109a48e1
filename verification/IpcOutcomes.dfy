/**
 * What the frames of a connection mean, read off the events of its run: which requests are taken on,
 * what a cancellation reaches, which event a frame on the wire goes back to, and that a stream moves
 * on when nothing holds it.
 */
module IpcOutcomes {
  import opened Wrappers
  import opened TokenStream
  import opened IpcConnection
  import opened IpcSafety
  import opened IpcTheorems

  // ---------------------------------------------------------------- the reader's answers

  /** Task `k` holds request id `id`. */
  predicate Holds(s: State, k: nat, id: nat) { k < |s.tasks| && Registered(s.tasks[k]) && s.tasks[k].id == id }

  /** No task holds it. */
  ghost predicate Unheld(s: State, id: nat) { forall k: nat :: !Holds(s, k, id) }

  /** The reader writes nothing during `es`. */
  predicate NoReaderWrite(es: seq<Event>) { forall i | 0 <= i < |es| :: !es[i].ReaderWrite? }

  lemma HeldFrame(cfg: Config, s: State, e: Event)
    requires s.reader.Replying? && !e.ReaderWrite? && Step(cfg, s, e).Some?
    ensures Step(cfg, s, e).value.reader == s.reader
  {
    hide TaskMove;
  }

  /** Until it writes, the reader keeps the frame it holds, whatever the tasks do. */
  lemma {:induction false} HeldRun(cfg: Config, es: seq<Event>, more: seq<Event>)
    requires Run(cfg, es).Some? && Run(cfg, es).value.reader.Replying?
    requires Run(cfg, es + more).Some? && NoReaderWrite(more)
    ensures Run(cfg, es + more).value.reader == Run(cfg, es).value.reader
  {
    hide Step, Run;
    if more == [] {
      assert es + more == es;
    } else {
      var m, e := more[..|more| - 1], more[|more| - 1];
      assert es + more == (es + m) + [e];
      RunStep(cfg, es + m, e);
      HeldRun(cfg, es, m);
      HeldFrame(cfg, Run(cfg, es + m).value, e);
    }
  }

  /** The next successful write of the reader after `es` puts exactly `f` on the wire. */
  ghost predicate WritesNext(cfg: Config, es: seq<Event>, f: Frame)
  {
    forall more | Run(cfg, es + more).Some? && NoReaderWrite(more) ::
      var s := Run(cfg, es + more + [ReaderWrite(true)]);
      s.Some? && s.value.wire == Run(cfg, es + more).value.wire + [f]
  }

  lemma HeldIsWritten(cfg: Config, es: seq<Event>)
    requires Run(cfg, es).Some? && Run(cfg, es).value.reader.Replying?
    ensures WritesNext(cfg, es, Run(cfg, es).value.reader.frame)
  {
    hide Run;
    forall more | Run(cfg, es + more).Some? && NoReaderWrite(more)
      ensures var s := Run(cfg, es + more + [ReaderWrite(true)]);
              s.Some? && s.value.wire == Run(cfg, es + more).value.wire + [Run(cfg, es).value.reader.frame]
    {
      HeldRun(cfg, es, more);
      RunStep(cfg, es + more, ReaderWrite(true));
    }
  }

  /** Of the tasks that hold an id there is one, which the map names, or none. */
  lemma Holder(cfg: Config, es: seq<Event>, id: nat)
    requires Run(cfg, es).Some?
    ensures var s := Run(cfg, es).value;
            if id in s.active then forall k: nat :: Holds(s, k, id) <==> k == s.active[id] else Unheld(s, id)
  {
    hide Run;
    RunKeeps(cfg, es);
  }

  /**
   * An authenticated cancellation of a request id some task holds cancels that task and no other, and
   * the answer says so; of an id nobody holds it cancels nothing, and the answer says that.
   */
  lemma CancelReaches(cfg: Config, es: seq<Event>, id: nat)
    requires Run(cfg, es).Some? && Run(cfg, es).value.reader.Reading? && Run(cfg, es).value.session
    ensures var s, es' := Run(cfg, es).value, es + [ReadCancel(id, true)];
            && Run(cfg, es').Some?
            && (forall k | Holds(s, k, id) ::
                  Run(cfg, es').value.cancelled == s.cancelled + {k} && WritesNext(cfg, es', CancelAck(id, Some(k))))
            && (Unheld(s, id) ==>
                  Run(cfg, es').value.cancelled == s.cancelled && WritesNext(cfg, es', CancelAck(id, None)))
  {
    hide Run, WritesNext, Registered;
    var s, es' := Run(cfg, es).value, es + [ReadCancel(id, true)];
    RunStep(cfg, es, ReadCancel(id, true));
    Holder(cfg, es, id);
    HeldIsWritten(cfg, es');
    assert id in s.active ==> Holds(s, s.active[id], id);
  }

  /** Without a session, or with one that is no longer valid, it is answered 401 and cancels nothing. */
  lemma CancelRefused(cfg: Config, es: seq<Event>, id: nat, valid: bool)
    requires Run(cfg, es).Some? && Run(cfg, es).value.reader.Reading? && !(Run(cfg, es).value.session && valid)
    ensures var s, es' := Run(cfg, es).value, es + [ReadCancel(id, valid)];
            Run(cfg, es').Some? && Run(cfg, es').value.cancelled == s.cancelled && WritesNext(cfg, es', ErrorFrame(401))
  {
    hide Run, WritesNext;
    RunStep(cfg, es, ReadCancel(id, valid));
    HeldIsWritten(cfg, es + [ReadCancel(id, valid)]);
  }

  /**
   * A request is taken on, as a new task that nobody has stopped, exactly when its caller may ask and
   * no task holds its id; otherwise nothing is spawned and the answer is 401 or 409.
   */
  ghost predicate TakenOn(cfg: Config, es: seq<Event>, e: Event, id: nat, allowed: bool, t: Task)
    requires Run(cfg, es).Some?
  {
    var s, es' := Run(cfg, es).value, es + [e];
    && Run(cfg, es').Some?
    && var s' := Run(cfg, es').value;
       if allowed && Unheld(s, id) then
         && s'.tasks == s.tasks + [t] && t.id == id && Holds(s', |s.tasks|, id)
         && |s.tasks| !in s'.cancelled && s'.reader.Reading? && s'.wire == s.wire
       else s'.tasks == s.tasks && WritesNext(cfg, es', ErrorFrame(if allowed then 409 else 401))
  }

  lemma StreamTakenOn(cfg: Config, es: seq<Event>, id: nat)
    requires Run(cfg, es).Some? && Run(cfg, es).value.reader.Reading?
    ensures TakenOn(cfg, es, ReadStream(id), id, Run(cfg, es).value.session,
                    StreamTask(id, Admitting, Unqueued, [], 0, false, false, false))
  {
    hide Run, WritesNext;
    RunKeeps(cfg, es);
    RunStep(cfg, es, ReadStream(id));
    Holder(cfg, es, id);
    var s := Run(cfg, es).value;
    assert id in s.active ==> Holds(s, s.active[id], id);
    if Run(cfg, es + [ReadStream(id)]).value.reader.Replying? {
      HeldIsWritten(cfg, es + [ReadStream(id)]);
    }
  }

  lemma InferenceTakenOn(cfg: Config, es: seq<Event>, id: nat, valid: bool)
    requires Run(cfg, es).Some? && Run(cfg, es).value.reader.Reading?
    ensures TakenOn(cfg, es, ReadInference(id, valid), id, cfg.requireAuth ==> Run(cfg, es).value.session && valid,
                    InferTask(id, Submitting, false, false))
  {
    hide Run, WritesNext;
    RunKeeps(cfg, es);
    RunStep(cfg, es, ReadInference(id, valid));
    Holder(cfg, es, id);
    var s := Run(cfg, es).value;
    assert id in s.active ==> Holds(s, s.active[id], id);
    if Run(cfg, es + [ReadInference(id, valid)]).value.reader.Replying? {
      HeldIsWritten(cfg, es + [ReadInference(id, valid)]);
    }
  }

  lemma HandshakeStep(cfg: Config, s: State, e: Event)
    requires Step(cfg, s, e).Some?
    ensures Step(cfg, s, e).value.session <==> s.session || e == ReadHandshake(true)
  {
    hide TaskMove;
  }

  /** A connection has a session exactly if some handshake on it was accepted. */
  lemma {:induction false} SessionExactly(cfg: Config, es: seq<Event>)
    requires Run(cfg, es).Some?
    ensures Run(cfg, es).value.session <==> ReadHandshake(true) in es
  {
    hide Step;
    if es != [] {
      var n := |es| - 1;
      SessionExactly(cfg, es[..n]);
      HandshakeStep(cfg, Run(cfg, es[..n]).value, es[n]);
      assert es == es[..n] + [es[n]];
    }
  }

  /** A refused handshake, or a request that needed one, ends the connection with its answer. */
  lemma RefusalCloses(cfg: Config, es: seq<Event>, e: Event, ok: bool)
    requires Run(cfg, es).Some? && Run(cfg, es).value.reader.Reading?
    requires e == ReadHandshake(false) ||
             (e.ReadInference? && cfg.requireAuth && !(Run(cfg, es).value.session && e.valid)) ||
             (e.ReadControl? && !e.enqueues && cfg.requireAuth && !(Run(cfg, es).value.session && e.valid))
    ensures WritesNext(cfg, es + [e], ErrorFrame(401))
    ensures var s := Run(cfg, es + [e] + [ReaderWrite(ok)]); s.Some? && s.value.reader.Closing?
  {
    hide Run, WritesNext;
    RunStep(cfg, es, e);
    HeldIsWritten(cfg, es + [e]);
    RunStep(cfg, es + [e], ReaderWrite(ok));
  }

  /**
   * How the other messages are answered, and when that ends the connection. A malformed one is answered
   * 400 and read past; one whose response cannot be encoded is answered 500 and ends it; a processed
   * one ends it only if its response cannot be written.
   */
  lemma OthersAnswered(cfg: Config, es: seq<Event>, e: Event, ok: bool)
    requires Run(cfg, es).Some? && Run(cfg, es).value.reader.Reading?
    requires e.ReadMalformed? || e.ReadUnencodable? || e.ReadQuery? || e == ReadHandshake(true) ||
             (e.ReadControl? && (cfg.requireAuth ==> Run(cfg, es).value.session && e.valid))
    ensures WritesNext(cfg, es + [e], if e.ReadMalformed? then ErrorFrame(400) else if e.ReadUnencodable? then ErrorFrame(500) else ControlFrame)
    ensures var s := Run(cfg, es + [e] + [ReaderWrite(ok)]);
            s.Some? && s.value.reader == if e.ReadMalformed? || (ok && !e.ReadUnencodable?) then Reading else Closing
  {
    hide Run, WritesNext;
    RunStep(cfg, es, e);
    HeldIsWritten(cfg, es + [e]);
    RunStep(cfg, es + [e], ReaderWrite(ok));
  }

  /** A refused cancellation, a duplicate id, a stream without a session: answered, and the connection goes on, written or not. */
  lemma RefusalGoesOn(cfg: Config, es: seq<Event>, e: Event, ok: bool)
    requires Run(cfg, es).Some? && Run(cfg, es).value.reader.Reading? && Run(cfg, es + [e]).Some?
    requires e.ReadCancel? || e.ReadStream? || (e.ReadInference? && (cfg.requireAuth ==> Run(cfg, es).value.session && e.valid))
    requires Run(cfg, es + [e]).value.reader.Replying?
    ensures var s := Run(cfg, es + [e] + [ReaderWrite(ok)]); s.Some? && s.value.reader == Reading
  {
    hide Run;
    RunStep(cfg, es, e);
    RunStep(cfg, es + [e], ReaderWrite(ok));
  }

  // ---------------------------------------------------------------- a stream moves on

  /** A step the relay of task `k` can take now, and what it does. */
  lemma OwnStep(cfg: Config, es: seq<Event>, e: Event, k: nat)
    requires Run(cfg, es).Some? && IsStream(Run(cfg, es).value, k) && IsStreamOwn(e) && e.k == k
    requires StreamMove(Run(cfg, es).value.tasks[k], k in Run(cfg, es).value.cancelled, e).Some?
    ensures var s := Run(cfg, es).value;
            var m := StreamMove(s.tasks[k], k in s.cancelled, e).value;
            && Run(cfg, es + [e]).Some?
            && var s' := Run(cfg, es + [e]).value;
               && IsStream(s', k) && s'.tasks[k] == m.task && Chunks(s'.wire, k) == Chunks(s.wire, k) + ChunkOf(m.out)
               && (k in s'.cancelled <==> k in s.cancelled || m.cancels)
  {
    hide Run, StreamMove, Chunks;
    var s := Run(cfg, es).value;
    RunKeeps(cfg, es);
    RunStep(cfg, es, e);
    hide Inv;
    StepTask(cfg, s, e, k);
    StreamMoveGood(s.tasks[k], k in s.cancelled, e);
  }

  /** How an item of the channel shows on the wire. */
  function Shown(item: StreamItem): Body
  {
    match item
    case Item(c) => Data(c)
    case End(Complete) => Clean
    case End(Rejected(m)) => Failed(Worker(m))
    case End(Error(m)) => Failed(Worker(m))
  }

  /** The three polls that bring the next item, seen from the task. */
  lemma ItemPolled(t: Task)
    requires t.StreamTask? && t.pc == Relaying(CancelArm) && !t.timerFired && t.taken < |t.produced|
    ensures var m1 := PollMove(t, false, true);
            m1.task.StreamTask? && m1.task.pc == Relaying(DeadlineArm) && !m1.cancels && m1.out.Silent? &&
            var m2 := PollMove(m1.task, false, true);
            m2.task.StreamTask? && m2.task.pc == Relaying(ChannelArm) && !m2.cancels && m2.out.Silent? &&
            var m3 := PollMove(m2.task, false, true);
            && m3.task.StreamTask? && !m3.cancels && m3.out.Silent? && m3.task.taken == t.taken + 1
            && m3.task.produced == t.produced && m3.task.timerFired == t.timerFired
            && m3.task.pc == Sending(Shown(t.produced[t.taken]), if t.produced[t.taken].Item? then NextItem else Return)
  {
  }

  lemma FrameSent(t: Task)
    requires t.StreamTask? && t.pc.Sending? && !t.pc.next.Finish?
    ensures var m1 := CheckMove(t, false, true);
            m1.task.StreamTask? && m1.task.pc == Writing(t.pc.body, t.pc.next) && !m1.cancels && m1.out.Silent? &&
            var m2 := WriteMove(m1.task, false, true);
            && m2.task.StreamTask? && !m2.cancels && m2.out == Writes(t.pc.body)
            && m2.task.produced == t.produced && m2.task.taken == t.taken && m2.task.timerFired == t.timerFired
            && m2.task.pc == if t.pc.next.NextItem? then Relaying(CancelArm) else Releasing
  {
  }

  /** Three polls of a relay that nobody stops: the next item is taken. */
  lemma Polls(cfg: Config, es: seq<Event>, k: nat)
    requires Run(cfg, es).Some? && IsStream(Run(cfg, es).value, k) && k !in Run(cfg, es).value.cancelled
    requires var t := Run(cfg, es).value.tasks[k]; t.pc == Relaying(CancelArm) && !t.timerFired && t.taken < |t.produced|
    ensures var s, es' := Run(cfg, es).value, es + [Poll(k, true)] + [Poll(k, true)] + [Poll(k, true)];
            && Run(cfg, es').Some?
            && var s' := Run(cfg, es').value;
               && IsStream(s', k) && k !in s'.cancelled && Chunks(s'.wire, k) == Chunks(s.wire, k)
               && s'.tasks[k] == PollMove(PollMove(PollMove(s.tasks[k], false, true).task, false, true).task, false, true).task
  {
    hide Run, Chunks, PollMove;
    var s := Run(cfg, es).value;
    assert Chunks(s.wire, k) + [] == Chunks(s.wire, k);
    ItemPolled(s.tasks[k]);
    OwnStep(cfg, es, Poll(k, true), k);
    OwnStep(cfg, es + [Poll(k, true)], Poll(k, true), k);
    OwnStep(cfg, es + [Poll(k, true)] + [Poll(k, true)], Poll(k, true), k);
  }

  /**
   * While nobody stops it, a waiting relay can always move on: three polls, the check and the write
   * put exactly the next item of the channel on the wire, as data, as the clean end or as the worker's
   * error, and it waits again or is done.
   */
  lemma RelaysNext(cfg: Config, es: seq<Event>, k: nat)
    requires Run(cfg, es).Some? && IsStream(Run(cfg, es).value, k) && k !in Run(cfg, es).value.cancelled
    requires var t := Run(cfg, es).value.tasks[k]; t.pc == Relaying(CancelArm) && !t.timerFired && t.taken < |t.produced|
    ensures var s := Run(cfg, es).value;
            var es' := es + [Poll(k, true)] + [Poll(k, true)] + [Poll(k, true)] + [SendCheck(k, true)] + [SendWrite(k, true)];
            && Run(cfg, es').Some?
            && var s' := Run(cfg, es').value;
               var h, h', item := Chunks(s.wire, k), Chunks(s'.wire, k), s.tasks[k].produced[s.tasks[k].taken];
               && IsStream(s', k) && k !in s'.cancelled
               && s'.tasks[k].taken == s.tasks[k].taken + 1 && s'.tasks[k].produced == s.tasks[k].produced
               && s'.tasks[k].pc == (if item.Item? then Relaying(CancelArm) else Releasing)
               && h' == h + [Shown(item)]
  {
    hide Run, Chunks, PollMove, CheckMove, WriteMove;
    var s, es3 := Run(cfg, es).value, es + [Poll(k, true)] + [Poll(k, true)] + [Poll(k, true)];
    var h := Chunks(s.wire, k);
    assert h + [] == h;
    Polls(cfg, es, k);
    ItemPolled(s.tasks[k]);
    FrameSent(Run(cfg, es3).value.tasks[k]);
    OwnStep(cfg, es3, SendCheck(k, true), k);
    OwnStep(cfg, es3 + [SendCheck(k, true)], SendWrite(k, true), k);
  }

  // ---------------------------------------------------------------- a fired timer ends the stream

  /** How many more of its own steps a stream can take once its timer has fired. */
  function TimeLeft(pc: StreamPc): nat {
    match pc
    case Finished => 0
    case Releasing => 1
    case Writing(Failed(_), Finish) => 2
    case Sending(Failed(_), Finish) => 3
    case Writing(Data(_), _) => 6
    case Sending(Data(_), _) => 7
    case Writing(_, _) => 4
    case Sending(_, _) => 5
    case Relaying(DeadlineArm) => 4
    case Relaying(CancelArm) => 5
    case Relaying(ChannelArm) => 8
    case Admitting => 6
  }

  /** How many more frames it can write. */
  function FramesLeft(pc: StreamPc): nat {
    match pc
    case Finished => 0
    case Releasing => 0
    case Writing(Data(_), _) => 2
    case Sending(Data(_), _) => 2
    case Relaying(ChannelArm) => 2
    case _ => 1
  }

  /** Every poll of task `k` in `es` finds its budget. */
  predicate AlwaysBudget(es: seq<Event>, k: nat) { forall i | 0 <= i < |es| && es[i].Poll? && es[i].k == k :: es[i].budget }

  ghost predicate TimerBound(s: State, s': State, n: nat, k: nat)
    requires IsStream(s, k)
  {
    && IsStream(s', k) && s'.tasks[k].timerFired
    && n + TimeLeft(s'.tasks[k].pc) <= TimeLeft(s.tasks[k].pc)
    && Chunks(s.wire, k) <= Chunks(s'.wire, k)
    && |Chunks(s'.wire, k)| + FramesLeft(s'.tasks[k].pc) <= |Chunks(s.wire, k)| + FramesLeft(s.tasks[k].pc)
  }

  /** What a step brings closer. */
  ghost predicate Nearer(t: Task, m: Move)
    requires t.StreamTask?
  {
    && m.task.StreamTask? && m.task.timerFired == t.timerFired && TimeLeft(m.task.pc) < TimeLeft(t.pc)
    && |ChunkOf(m.out)| + FramesLeft(m.task.pc) <= FramesLeft(t.pc)
  }

  lemma TimedPoll(t: Task, cancelled: bool)
    requires t.StreamTask? && t.pc.Relaying? && t.timerFired
    ensures Nearer(t, PollMove(t, cancelled, true))
  {
  }

  /** Data is sent from inside the loop, the final frames from outside it. */
  predicate SendsRight(pc: StreamPc) { pc.Sending? || pc.Writing? ==> (pc.next.NextItem? <==> pc.body.Data?) }

  lemma TimedSend(t: Task, cancelled: bool, flag: bool)
    requires t.StreamTask? && SendsRight(t.pc)
    ensures t.pc.Sending? ==> Nearer(t, CheckMove(t, cancelled, flag))
    ensures t.pc.Writing? ==> Nearer(t, WriteMove(t, cancelled, flag))
  {
  }

  lemma TimedMove(t: Task, cancelled: bool, e: Event)
    requires t.StreamTask? && t.timerFired && SendsRight(t.pc) && StreamMove(t, cancelled, e).Some? && (e.Poll? ==> e.budget)
    ensures Nearer(t, StreamMove(t, cancelled, e).value)
  {
    hide PollMove, CheckMove, WriteMove;
    match e
    case Poll(_, _) => TimedPoll(t, cancelled);
    case SendCheck(_, encodes) => TimedSend(t, cancelled, encodes);
    case SendWrite(_, ok) => TimedSend(t, cancelled, ok);
    case Admit(_, _) =>
    case Release(_) =>
  }

  lemma PendingSendsRight(t: Task, h: seq<Body>)
    requires t.StreamTask? && StreamInv(t, h)
    ensures SendsRight(t.pc)
  {
  }

  lemma StreamSendsRight(cfg: Config, s: State, k: nat)
    requires Inv(cfg, s) && IsStream(s, k)
    ensures SendsRight(s.tasks[k].pc)
  {
    hide StreamInv, SendsRight;
    assert TaskInv(s, k);
    PendingSendsRight(s.tasks[k], Chunks(s.wire, k));
  }

  lemma WorkerKeepsTimer(t: Task, cancelled: bool, e: Event)
    requires t.StreamTask? && WorkerMove(t, cancelled, e).Some? && t.timerFired
    ensures WorkerMove(t, cancelled, e).value.StreamTask? && WorkerMove(t, cancelled, e).value.timerFired
  {
  }

  /** Any step of the task: nearer its end if it is the relay's own, where it was if it is the worker's. */
  lemma TimedTask(t: Task, cancelled: bool, e: Event)
    requires t.StreamTask? && t.timerFired && SendsRight(t.pc) && TaskMove(t, cancelled, e).Some? && (e.Poll? ==> e.budget)
    ensures var m := TaskMove(t, cancelled, e).value;
            && m.task.StreamTask? && m.task.timerFired
            && (if IsStreamOwn(e) then Nearer(t, m) else m.task.pc == t.pc && ChunkOf(m.out) == [])
  {
    hide StreamMove, WorkerMove, InferMove, TimeLeft, FramesLeft, SendsRight;
    if IsStreamOwn(e) {
      TimedMove(t, cancelled, e);
    } else {
      WorkerFrame(t, cancelled, e);
      WorkerKeepsTimer(t, cancelled, e);
    }
  }

  lemma TimerStep(cfg: Config, s: State, m: State, e: Event, n: nat, k: nat)
    requires IsStream(s, k) && TimerBound(s, m, n, k) && Inv(cfg, m) && Step(cfg, m, e).Some?
    requires e.Poll? && e.k == k ==> e.budget
    ensures TimerBound(s, Step(cfg, m, e).value, if IsStreamOwn(e) && e.k == k then n + 1 else n, k)
  {
    hide Step, Inv, Chunks, Replies, TaskMove, TimeLeft, FramesLeft, SendsRight;
    StepTask(cfg, m, e, k);
    if !IsReader(e) && e.k == k {
      StreamSendsRight(cfg, m, k);
      TimedTask(m.tasks[k], k in m.cancelled, e);
    }
  }

  /**
   * From the moment its timer has fired, a stream whose polls find their budget writes at most two
   * more frames, the last of them final, and finishes after at most eight steps of its own, whatever
   * the worker has put on the channel.
   */
  lemma {:induction false} DeadlineStops(cfg: Config, es: seq<Event>, more: seq<Event>, k: nat)
    requires Run(cfg, es).Some? && Run(cfg, es + more).Some? && AlwaysBudget(more, k)
    requires IsStream(Run(cfg, es).value, k) && Run(cfg, es).value.tasks[k].timerFired
    ensures TimerBound(Run(cfg, es).value, Run(cfg, es + more).value, OwnSteps(more, k), k)
    ensures TimeLeft(Run(cfg, es).value.tasks[k].pc) <= 8 && FramesLeft(Run(cfg, es).value.tasks[k].pc) <= 2
  {
    hide Step, Run, Inv;
    if more == [] {
      assert es + more == es;
    } else {
      var m, e := more[..|more| - 1], more[|more| - 1];
      assert es + more == (es + m) + [e];
      RunStep(cfg, es + m, e);
      DeadlineStops(cfg, es, m, k);
      RunKeeps(cfg, es + m);
      TimerStep(cfg, Run(cfg, es).value, Run(cfg, es + m).value, e, OwnSteps(m, k), k);
    }
  }

  /** A relay that polls its fired timer stops its worker and tells the client so. */
  lemma DeadlineReported(cfg: Config, es: seq<Event>, k: nat)
    requires Run(cfg, es).Some? && IsStream(Run(cfg, es).value, k)
    requires var t := Run(cfg, es).value.tasks[k]; t.pc == Relaying(DeadlineArm) && t.timerFired
    ensures var s, es' := Run(cfg, es).value, es + [Poll(k, true)] + [SendCheck(k, true)] + [SendWrite(k, true)];
            && Run(cfg, es').Some?
            && var s' := Run(cfg, es').value;
               IsStream(s', k) && k in s'.cancelled && Chunks(s'.wire, k) == Chunks(s.wire, k) + [Failed(DeadlineSeen)]
  {
    hide Run, Chunks;
    var s := Run(cfg, es).value;
    assert Chunks(s.wire, k) + [] == Chunks(s.wire, k);
    OwnStep(cfg, es, Poll(k, true), k);
    OwnStep(cfg, es + [Poll(k, true)], SendCheck(k, true), k);
    OwnStep(cfg, es + [Poll(k, true)] + [SendCheck(k, true)], SendWrite(k, true), k);
  }

  /** A relay that polls its cancelled token tells the client so. */
  lemma CancelReported(cfg: Config, es: seq<Event>, k: nat, budget: bool)
    requires Run(cfg, es).Some? && IsStream(Run(cfg, es).value, k)
    requires Run(cfg, es).value.tasks[k].pc == Relaying(CancelArm) && k in Run(cfg, es).value.cancelled
    ensures var s, es' := Run(cfg, es).value, es + [Poll(k, budget)] + [SendCheck(k, true)] + [SendWrite(k, true)];
            && Run(cfg, es').Some?
            && var s' := Run(cfg, es').value;
               IsStream(s', k) && Chunks(s'.wire, k) == Chunks(s.wire, k) + [Failed(CancelSeen)]
  {
    hide Run, Chunks;
    var s := Run(cfg, es).value;
    assert Chunks(s.wire, k) + [] == Chunks(s.wire, k);
    OwnStep(cfg, es, Poll(k, budget), k);
    OwnStep(cfg, es + [Poll(k, budget)], SendCheck(k, true), k);
    OwnStep(cfg, es + [Poll(k, budget)] + [SendCheck(k, true)], SendWrite(k, true), k);
  }

  // ---------------------------------------------------------------- what a worker and a waiting request can do

  /** The task `k` after a step of its own or of its worker, if that step is possible. */
  lemma TaskCan(cfg: Config, es: seq<Event>, e: Event, k: nat)
    requires Run(cfg, es).Some? && k < |Run(cfg, es).value.tasks| && !IsReader(e) && e.k == k
    ensures var s := Run(cfg, es).value;
            var m := TaskMove(s.tasks[k], k in s.cancelled, e);
            && (Run(cfg, es + [e]).Some? <==> m.Some?)
            && (m.Some? ==>
                  var s' := Run(cfg, es + [e]).value;
                  && |s'.tasks| == |s.tasks| && s'.tasks[k] == m.value.task
                  && Replies(s'.wire, k) == Replies(s.wire, k) + ReplyOf(m.value.out))
  {
    hide Run, TaskMove, Replies;
    RunKeeps(cfg, es);
    RunStep(cfg, es, e);
    hide Inv;
    if Run(cfg, es + [e]).Some? {
      StepTask(cfg, Run(cfg, es).value, e, k);
    }
  }

  lemma StreamTaken(cfg: Config, s: State, k: nat)
    requires Inv(cfg, s) && IsStream(s, k)
    ensures s.tasks[k].taken <= |s.tasks[k].produced|
  {
    assert TaskInv(s, k);
  }

  lemma WorkerMoves(t: Task, cancelled: bool, k: nat, chunk: Chunk, failure: Option<string>)
    requires t.StreamTask? && t.taken <= |t.produced|
    ensures TaskMove(t, cancelled, Start(k, StartRunning)).Some? <==> t.producer.Queued? && !cancelled && !t.overdue
    ensures TaskMove(t, cancelled, Start(k, StartStopped)).Some? <==> t.producer.Queued? && (cancelled || t.overdue)
    ensures TaskMove(t, cancelled, Emit(k, chunk)).Some? <==> t.producer.Generating? && |t.produced| - t.taken < 32
    ensures TaskMove(t, cancelled, Conclude(k, failure)).Some? <==> t.producer.Generating?
    ensures TaskMove(t, cancelled, SendEnd(k)).Some? <==> t.producer.Ending? && |t.produced| - t.taken < 32
  {
  }

  /**
   * A queued request is run exactly if neither a cancellation nor its deadline is seen first, and is
   * turned away unrun exactly if one is; a running one emits while fewer than 32 items wait.
   */
  lemma WorkerCan(cfg: Config, es: seq<Event>, k: nat, chunk: Chunk, failure: Option<string>)
    requires Run(cfg, es).Some? && IsStream(Run(cfg, es).value, k)
    ensures var s := Run(cfg, es).value;
            var t := s.tasks[k];
            && (Run(cfg, es + [Start(k, StartRunning)]).Some? <==> t.producer.Queued? && k !in s.cancelled && !t.overdue)
            && (Run(cfg, es + [Start(k, StartStopped)]).Some? <==> t.producer.Queued? && (k in s.cancelled || t.overdue))
            && (Run(cfg, es + [Emit(k, chunk)]).Some? <==> t.producer.Generating? && |t.produced| - t.taken < 32)
            && (Run(cfg, es + [Conclude(k, failure)]).Some? <==> t.producer.Generating?)
            && (Run(cfg, es + [SendEnd(k)]).Some? <==> t.producer.Ending? && |t.produced| - t.taken < 32)
  {
    hide Run, Replies, TaskMove, Inv;
    var s := Run(cfg, es).value;
    RunKeeps(cfg, es);
    StreamTaken(cfg, s, k);
    WorkerMoves(s.tasks[k], k in s.cancelled, k, chunk, failure);
    TaskCan(cfg, es, Start(k, StartRunning), k);
    TaskCan(cfg, es, Start(k, StartStopped), k);
    TaskCan(cfg, es, Emit(k, chunk), k);
    TaskCan(cfg, es, Conclude(k, failure), k);
    TaskCan(cfg, es, SendEnd(k), k);
  }

  /** Which answers can end the wait of a request: a result or a worker's failure at any time, a stop once its cause is there. */
  lemma AnswerCan(cfg: Config, es: seq<Event>, k: nat, reply: Reply)
    requires Run(cfg, es).Some? && k < |Run(cfg, es).value.tasks| && Run(cfg, es).value.tasks[k].InferTask?
    ensures var s := Run(cfg, es).value;
            Run(cfg, es + [Answer(k, reply)]).Some? <==>
              && s.tasks[k].step.Awaiting?
              && (reply == Success || reply == Failure(WorkerFailure)
                  || (reply == Failure(StoppedByCancel) && k in s.cancelled)
                  || (reply == Failure(StoppedByDeadline) && s.tasks[k].expired))
  {
    hide Run, Replies;
    TaskCan(cfg, es, Answer(k, reply), k);
  }

  /** An answer that is given is written: the id is released, and then the reply goes out as it is. */
  lemma AnswerWritten(cfg: Config, es: seq<Event>, k: nat)
    requires Run(cfg, es).Some? && k < |Run(cfg, es).value.tasks| && Run(cfg, es).value.tasks[k].InferTask?
    requires Run(cfg, es).value.tasks[k].step.Answered?
    ensures var s, es' := Run(cfg, es).value, es + [ReleaseReply(k)] + [WriteReply(k, true)];
            && Run(cfg, es').Some?
            && Replies(Run(cfg, es').value.wire, k) == Replies(s.wire, k) + [s.tasks[k].step.reply]
  {
    hide Run, Replies;
    assert Replies(Run(cfg, es).value.wire, k) + [] == Replies(Run(cfg, es).value.wire, k);
    TaskCan(cfg, es, ReleaseReply(k), k);
    TaskCan(cfg, es + [ReleaseReply(k)], WriteReply(k, true), k);
  }

  /** What a terminal chosen by the worker puts on the channel. */
  lemma EndPut(cfg: Config, es: seq<Event>, k: nat, x: StreamTerminal)
    requires Run(cfg, es).Some? && IsStream(Run(cfg, es).value, k)
    requires Run(cfg, es).value.tasks[k].producer == Ending(x) && |Run(cfg, es).value.tasks[k].produced| - Run(cfg, es).value.tasks[k].taken < 32
    ensures var s, s' := Run(cfg, es).value, Run(cfg, es + [SendEnd(k)]);
            && s'.Some? && IsStream(s'.value, k) && s'.value.tasks[k].producer == Closed
            && s'.value.tasks[k].produced == s.tasks[k].produced + [End(x)]
  {
    hide Run, Replies, Inv;
    RunKeeps(cfg, es);
    StreamTaken(cfg, Run(cfg, es).value, k);
    TaskCan(cfg, es, SendEnd(k), k);
  }

  /** The terminal of a request that is not run: rejected, refused by the engine, or stopped before its turn. */
  lemma UnrunEnds(cfg: Config, es: seq<Event>, k: nat, how: WorkerStart)
    requires Run(cfg, es).Some? && IsStream(Run(cfg, es).value, k) && Run(cfg, es + [Start(k, how)]).Some? && !how.StartRunning?
    ensures var s, s' := Run(cfg, es).value, Run(cfg, es + [Start(k, how)]).value;
            && IsStream(s', k) && s'.tasks[k].produced == s.tasks[k].produced == []
            && s'.tasks[k].producer == Ending(
                 match how
                 case StartRejected(m) => Rejected(m)
                 case StartRefused(m) => Error(m)
                 case StartStopped =>
                   if k in s.cancelled then Error("stream cancelled before execution")
                   else Error("stream deadline exceeded before execution")
                 case StartRunning => Complete)
  {
    hide Run, Replies;
    RunKeeps(cfg, es);
    assert TaskInv(Run(cfg, es).value, k);
    hide Inv;
    TaskCan(cfg, es, Start(k, how), k);
  }

  /** The terminal of a request that was run: its failure, or a stop that is seen after it, or a clean end. */
  lemma RunEnds(cfg: Config, es: seq<Event>, k: nat, failure: Option<string>)
    requires Run(cfg, es).Some? && IsStream(Run(cfg, es).value, k) && Run(cfg, es + [Conclude(k, failure)]).Some?
    ensures var s, s' := Run(cfg, es).value, Run(cfg, es + [Conclude(k, failure)]).value;
            && IsStream(s', k) && s'.tasks[k].produced == s.tasks[k].produced
            && s'.tasks[k].producer == Ending(
                 if failure.Some? then Error(failure.value)
                 else if k in s.cancelled || s.tasks[k].overdue then Error("Inference failed: stream cancelled or deadline exceeded")
                 else Complete)
  {
    hide Run, Replies;
    TaskCan(cfg, es, Conclude(k, failure), k);
  }

  /** A relay that finds its worker gone and nothing left to take tells the client so. */
  lemma HangupReported(cfg: Config, es: seq<Event>, k: nat)
    requires Run(cfg, es).Some? && IsStream(Run(cfg, es).value, k)
    requires var t := Run(cfg, es).value.tasks[k]; t.pc == Relaying(ChannelArm) && t.taken == |t.produced| && t.producer.Closed?
    ensures var s, es' := Run(cfg, es).value, es + [Poll(k, true)] + [SendCheck(k, true)] + [SendWrite(k, true)];
            && Run(cfg, es').Some?
            && var s' := Run(cfg, es').value;
               IsStream(s', k) && Chunks(s'.wire, k) == Chunks(s.wire, k) + [Failed(ProducerGone)]
  {
    hide Run, Chunks;
    var s := Run(cfg, es).value;
    assert Chunks(s.wire, k) + [] == Chunks(s.wire, k);
    OwnStep(cfg, es, Poll(k, true), k);
    OwnStep(cfg, es + [Poll(k, true)], SendCheck(k, true), k);
    OwnStep(cfg, es + [Poll(k, true)] + [SendCheck(k, true)], SendWrite(k, true), k);
  }
}
