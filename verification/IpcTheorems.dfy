/**
 * What a client of a connection may rely on, in every run: cancellation fences a
 * stream, a stream ends with exactly one final frame, request ids name one live task,
 * and nothing is enqueued for a caller that has not authenticated.
 */
module IpcTheorems {
  import opened Wrappers
  import opened TokenStream
  import opened IpcConnection
  import opened IpcSafety

  // ---------------------------------------------------------------- runs and their extensions

  lemma RunStep(cfg: Config, es: seq<Event>, e: Event)
    ensures Run(cfg, es + [e]) ==
            match Run(cfg, es) { case None => None case Some(s) => Step(cfg, s, e) }
  {
    assert (es + [e])[..|es|] == es;
  }

  lemma {:induction false} RunPrefix(cfg: Config, es: seq<Event>, n: nat)
    requires Run(cfg, es).Some? && n <= |es|
    ensures Run(cfg, es[..n]).Some?
  {
    if n < |es| {
      assert es[..|es| - 1][..n] == es[..n];
      RunPrefix(cfg, es[..|es| - 1], n);
    } else {
      assert es[..n] == es;
    }
  }

  lemma ReaderTasks(cfg: Config, s: State, e: Event, k: nat)
    requires Inv(cfg, s) && IsReader(e) && Step(cfg, s, e).Some? && k < |s.tasks|
    ensures var s' := Step(cfg, s, e).value;
            && k < |s'.tasks| && s'.tasks[k] == s.tasks[k] && s.cancelled <= s'.cancelled
            && Chunks(s'.wire, k) == Chunks(s.wire, k) && Replies(s'.wire, k) == Replies(s.wire, k)
  {
    hide Chunks, Replies, TaskHist, ReaderStep;
    if IsReaderRead(e) {
      ReaderShape(cfg, s, e);
    } else if s.reader.Replying? {
      WireAppend(s.wire, s.reader.frame, k);
    }
  }

  /** One step, seen from task `k`: its own move, or nothing at all. */
  lemma StepTask(cfg: Config, s: State, e: Event, k: nat)
    requires Inv(cfg, s) && Step(cfg, s, e).Some? && k < |s.tasks|
    ensures var s' := Step(cfg, s, e).value;
            && k < |s'.tasks| && s.cancelled <= s'.cancelled
            && (if !IsReader(e) && e.k == k then
                  var m := TaskMove(s.tasks[k], k in s.cancelled, e);
                  && m.Some? && s'.tasks[k] == m.value.task
                  && Chunks(s'.wire, k) == Chunks(s.wire, k) + ChunkOf(m.value.out)
                  && Replies(s'.wire, k) == Replies(s.wire, k) + ReplyOf(m.value.out)
                else
                  && s'.tasks[k] == s.tasks[k]
                  && Chunks(s'.wire, k) == Chunks(s.wire, k) && Replies(s'.wire, k) == Replies(s.wire, k))
  {
    hide Inv, TaskMove, ReaderStep, ReaderEnd, Chunks, Replies;
    if IsReader(e) {
      ReaderTasks(cfg, s, e, k);
    } else {
      ApplyHistory(s, e.k, TaskMove(s.tasks[e.k], e.k in s.cancelled, e).value, k);
    }
  }

  // ---------------------------------------------------------------- cancellation

  /**
   * Once a cancellation of a stream has been acknowledged on the wire, the only frame of
   * that stream written later is its error frame; the acknowledged task held the id.
   */
  lemma CancelFence(cfg: Config, es: seq<Event>, i: nat, j: nat)
    requires Run(cfg, es).Some?
    requires var w := Run(cfg, es).value.wire;
             && i < j < |w| && w[i].CancelAck? && w[i].hit.Some?
             && w[j].ChunkFrame? && w[j].task == w[i].hit.value
    ensures var w := Run(cfg, es).value.wire;
            w[j].body.Failed? && w[j].id == w[i].id
  {
    RunKeeps(cfg, es);
    var s := Run(cfg, es).value;
    assert FrameInv(s, s.wire[i]) && FrameInv(s, s.wire[j]);
  }

  /** How many more of its own steps a stopped stream can take. */
  function Rank(pc: StreamPc): nat {
    match pc
    case Finished => 0
    case Releasing => 1
    case Writing(Failed(_), Finish) => 2
    case Sending(Failed(_), Finish) => 3
    case Writing(Failed(_), _) => 4
    case Sending(Failed(_), _) => 5
    case Writing(_, _) => 4
    case Sending(_, _) => 4
    case Relaying(CancelArm) => 4
    case Relaying(ChannelArm) => 6
    case Relaying(DeadlineArm) => 7
    case Admitting => 6
  }

  /** `h'` is `h`, or `h` and one error frame, after which nothing is left but to release the id. */
  ghost predicate AtMostOneError(h: seq<Body>, h': seq<Body>, pc: StreamPc, pc': StreamPc) {
    || h' == h
    || (|h'| == |h| + 1 && h <= h' && h'[|h|].Failed? && Rank(pc') <= 1 < Rank(pc))
  }

  /** After `n` of its own steps, a stopped stream has moved on and written at most its error frame. */
  ghost predicate StopBound(s: State, s': State, n: nat, k: nat)
    requires IsStream(s, k)
  {
    && IsStream(s', k) && k in s'.cancelled
    && n + Rank(s'.tasks[k].pc) <= Rank(s.tasks[k].pc)
    && AtMostOneError(Chunks(s.wire, k), Chunks(s'.wire, k), s.tasks[k].pc, s'.tasks[k].pc)
  }

  /** An error frame is never sent from inside the relay loop. */
  predicate ErrorEnds(pc: StreamPc) {
    (pc.Sending? || pc.Writing?) && pc.body.Failed? ==> !pc.next.NextItem?
  }

  lemma StreamErrorEnds(cfg: Config, s: State, k: nat)
    requires Inv(cfg, s) && IsStream(s, k)
    ensures ErrorEnds(s.tasks[k].pc)
  {
    assert TaskInv(s, k);
  }

  lemma CancelledPoll(t: Task, budget: bool)
    requires t.StreamTask? && t.pc.Relaying?
    ensures var m := PollMove(t, true, budget); m.out.Silent? && Rank(m.task.pc) < Rank(t.pc)
  {
  }

  /** A step of a cancelled stream: closer to its end, and writing nothing but its error frame. */
  lemma CancelledMove(t: Task, e: Event)
    requires t.StreamTask? && ErrorEnds(t.pc) && StreamMove(t, true, e).Some?
    ensures var m := StreamMove(t, true, e).value;
            && m.task.StreamTask? && Rank(m.task.pc) < Rank(t.pc)
            && (m.out.Writes? ==> m.out.body.Failed? && Rank(m.task.pc) <= 1 < Rank(t.pc))
  {
    if e.Poll? {
      hide PollMove, Rank;
      CancelledPoll(t, e.budget);
      StreamMoveGood(t, true, e);
    }
  }

  lemma BoundStep(cfg: Config, s: State, m: State, e: Event, n: nat, k: nat)
    requires IsStream(s, k) && StopBound(s, m, n, k) && Inv(cfg, m) && Step(cfg, m, e).Some?
    ensures StopBound(s, Step(cfg, m, e).value, if IsStreamOwn(e) && e.k == k then n + 1 else n, k)
  {
    hide Step, Inv, Chunks, Replies, StreamMove, WorkerMove, InferMove, Rank;
    StepTask(cfg, m, e, k);
    if !IsReader(e) && e.k == k {
      if IsStreamOwn(e) {
        StreamErrorEnds(cfg, m, k);
        CancelledMove(m.tasks[k], e);
      } else {
        WorkerFrame(m.tasks[k], true, e);
      }
    }
  }

  /** The number of steps task `k` itself takes in `es`. */
  function OwnSteps(es: seq<Event>, k: nat): nat {
    if es == [] then 0
    else
      var e := es[|es| - 1];
      OwnSteps(es[..|es| - 1], k) + (if IsStreamOwn(e) && e.k == k then 1 else 0)
  }

  /**
   * From the moment a stream's token is cancelled, acknowledged or not: whatever the
   * others do, the stream writes at most one more frame, an error frame, and it finishes
   * after at most seven steps of its own.
   */
  lemma {:induction false} CancelStops(cfg: Config, es: seq<Event>, more: seq<Event>, k: nat)
    requires Run(cfg, es).Some? && Run(cfg, es + more).Some?
    requires IsStream(Run(cfg, es).value, k) && k in Run(cfg, es).value.cancelled
    ensures StopBound(Run(cfg, es).value, Run(cfg, es + more).value, OwnSteps(more, k), k)
    ensures Rank(Run(cfg, es).value.tasks[k].pc) <= 7
  {
    hide Step, Run, Inv;
    if more == [] {
      assert es + more == es;
    } else {
      var m := more[..|more| - 1];
      var e := more[|more| - 1];
      assert es + more == (es + m) + [e];
      RunStep(cfg, es + m, e);
      CancelStops(cfg, es, m, k);
      RunKeeps(cfg, es + m);
      BoundStep(cfg, Run(cfg, es).value, Run(cfg, es + m).value, e, OwnSteps(m, k), k);
    }
  }

  // ---------------------------------------------------------------- the final frame

  /**
   * A stream that has finished, with every frame write succeeding, wrote exactly one final
   * frame and nothing after it; before it, the client received exactly the first items the
   * worker produced, in order, and a clean final frame means it received all of them.
   */
  lemma OneFinalFrame(cfg: Config, es: seq<Event>, k: nat)
    requires Run(cfg, es).Some? && IsStream(Run(cfg, es).value, k)
    requires var t := Run(cfg, es).value.tasks[k]; t.pc.Finished? && !t.faulted
    ensures var s := Run(cfg, es).value;
            var h, p := Chunks(s.wire, k), s.tasks[k].produced;
            && |h| > 0 && h[|h| - 1].IsFinal()
            && (forall i | 0 <= i < |h| - 1 :: i < |p| && p[i].Item? && h[i] == Data(p[i].chunk))
            && (h[|h| - 1].Clean? ==> |p| == |h| && p[|h| - 1] == End(Complete))
  {
    RunKeeps(cfg, es);
    var s := Run(cfg, es).value;
    assert TaskInv(s, k);
    hide *;
    FinishedStream(s.tasks[k], Chunks(s.wire, k));
  }

  lemma FinishedStream(t: Task, h: seq<Body>)
    requires t.StreamTask? && StreamInv(t, h) && t.pc.Finished? && !t.faulted
    ensures var p := t.produced;
            && |h| > 0 && h[|h| - 1].IsFinal()
            && (forall i | 0 <= i < |h| - 1 :: i < |p| && p[i].Item? && h[i] == Data(p[i].chunk))
            && (h[|h| - 1].Clean? ==> |p| == |h| && p[|h| - 1] == End(Complete))
  {
  }

  /** Whatever fails and wherever the stream is, no frame of it ever follows a final one. */
  lemma NothingAfterFinal(cfg: Config, es: seq<Event>, i: nat, j: nat)
    requires Run(cfg, es).Some?
    requires var w := Run(cfg, es).value.wire;
             i < j < |w| && w[i].ChunkFrame? && w[j].ChunkFrame? && w[i].task == w[j].task
    ensures Run(cfg, es).value.wire[i].body.Data?
  {
    RunKeeps(cfg, es);
    var s := Run(cfg, es).value;
    var k := s.wire[i].task;
    assert FrameInv(s, s.wire[i]);
    assert TaskInv(s, k);
    hide StreamInv, Chunks, Run;
    ChunkOrder(s.wire, i, j);
    FinalIsLast(s.tasks[k], Chunks(s.wire, k), ChunkAt(s.wire, i));
  }

  lemma FinalIsLast(t: Task, h: seq<Body>, i: nat)
    requires t.StreamTask? && StreamInv(t, h) && i < |h| - 1
    ensures h[i].Data?
  {
  }

  /** The number of chunk frames of the same task before position `i`. */
  function ChunkAt(w: seq<Frame>, i: nat): nat
    requires i < |w| && w[i].ChunkFrame?
  {
    |Chunks(w[..i], w[i].task)|
  }

  lemma {:induction false} ChunkPosition(w: seq<Frame>, i: nat)
    requires i < |w| && w[i].ChunkFrame?
    ensures ChunkAt(w, i) < |Chunks(w, w[i].task)| && Chunks(w, w[i].task)[ChunkAt(w, i)] == w[i].body
  {
    if i == |w| - 1 {
    } else {
      assert w[..|w| - 1][..i] == w[..i];
      ChunkPosition(w[..|w| - 1], i);
    }
  }

  lemma ChunkOrder(w: seq<Frame>, i: nat, j: nat)
    requires i < j < |w| && w[i].ChunkFrame? && w[j].ChunkFrame? && w[i].task == w[j].task
    ensures ChunkAt(w, i) < ChunkAt(w, j) < |Chunks(w, w[i].task)|
    ensures Chunks(w, w[i].task)[ChunkAt(w, i)] == w[i].body
  {
    ChunkPosition(w, i);
    ChunkPosition(w, j);
    assert w[..j][..i] == w[..i];
    ChunkPosition(w[..j], i);
  }

  /** The worker has not promised a clean end, and its deadline is past or its token cancelled. */
  ghost predicate NoCleanEnd(t: Task, cancelled: bool) {
    t.StreamTask? && (t.overdue || cancelled) && t.producer != Ending(Complete) && End(Complete) !in t.produced
  }

  /** The relay leaves the worker's side of the task alone, but for queueing it. */
  predicate SameWorker(t: Task, t': Task) {
    && t.StreamTask? && t'.StreamTask? && t'.overdue == t.overdue && t'.produced == t.produced
    && (t'.producer == t.producer || t'.producer == Queued)
  }

  lemma PollSameWorker(t: Task, cancelled: bool, budget: bool)
    requires t.StreamTask? && t.pc.Relaying?
    ensures SameWorker(t, PollMove(t, cancelled, budget).task)
  {
    hide RelayItem;
  }

  lemma SendSameWorker(t: Task, cancelled: bool, flag: bool)
    requires t.StreamTask?
    ensures t.pc.Sending? ==> SameWorker(t, CheckMove(t, cancelled, flag).task)
    ensures t.pc.Writing? ==> SameWorker(t, WriteMove(t, cancelled, flag).task)
  {
  }

  lemma NoCleanStream(t: Task, cancelled: bool, e: Event)
    requires NoCleanEnd(t, cancelled) && StreamMove(t, cancelled, e).Some?
    ensures NoCleanEnd(StreamMove(t, cancelled, e).value.task, cancelled)
  {
    hide PollMove, CheckMove, WriteMove;
    match e
    case Poll(_, budget) => PollSameWorker(t, cancelled, budget);
    case SendCheck(_, encodes) => SendSameWorker(t, cancelled, encodes);
    case SendWrite(_, ok) => SendSameWorker(t, cancelled, ok);
    case Admit(_, _) =>
    case Release(_) =>
  }

  lemma NoCleanWorker(t: Task, cancelled: bool, e: Event)
    requires NoCleanEnd(t, cancelled) && WorkerMove(t, cancelled, e).Some?
    ensures NoCleanEnd(WorkerMove(t, cancelled, e).value, cancelled)
  {
  }

  lemma NoCleanStep(cfg: Config, s: State, e: Event, k: nat)
    requires Inv(cfg, s) && Step(cfg, s, e).Some? && IsStream(s, k) && NoCleanEnd(s.tasks[k], k in s.cancelled)
    ensures var s' := Step(cfg, s, e).value; IsStream(s', k) && NoCleanEnd(s'.tasks[k], k in s'.cancelled)
  {
    hide Step, StreamMove, WorkerMove, InferMove, Inv;
    StepTask(cfg, s, e, k);
    if !IsReader(e) && e.k == k {
      if IsStreamOwn(e) {
        NoCleanStream(s.tasks[k], k in s.cancelled, e);
      } else {
        NoCleanWorker(s.tasks[k], k in s.cancelled, e);
      }
    }
  }

  lemma CleanNeedsEnd(t: Task, h: seq<Body>)
    requires t.StreamTask? && StreamInv(t, h) && End(Complete) !in t.produced
    ensures Clean !in h
  {
  }

  /**
   * A worker whose deadline is past, or whose token is cancelled, before it concluded never makes
   * the stream look complete, however the run goes on.
   */
  lemma {:induction false} OverdueNeverClean(cfg: Config, es: seq<Event>, more: seq<Event>, k: nat)
    requires Run(cfg, es).Some? && Run(cfg, es + more).Some?
    requires IsStream(Run(cfg, es).value, k) && NoCleanEnd(Run(cfg, es).value.tasks[k], k in Run(cfg, es).value.cancelled)
    ensures var s' := Run(cfg, es + more).value;
            IsStream(s', k) && NoCleanEnd(s'.tasks[k], k in s'.cancelled) && Clean !in Chunks(s'.wire, k)
  {
    hide Step, Chunks, StreamInv;
    if more == [] {
      assert es + more == es;
    } else {
      var m := more[..|more| - 1];
      var e := more[|more| - 1];
      assert es + more == (es + m) + [e];
      RunStep(cfg, es + m, e);
      OverdueNeverClean(cfg, es, m, k);
      RunKeeps(cfg, es + m);
      NoCleanStep(cfg, Run(cfg, es + m).value, e, k);
    }
    var s' := Run(cfg, es + more).value;
    RunKeeps(cfg, es + more);
    assert TaskInv(s', k);
    CleanNeedsEnd(s'.tasks[k], Chunks(s'.wire, k));
  }

  // ---------------------------------------------------------------- request ids and replies

  /** A request id is active exactly while one task holds it, and maps to that task's token. */
  lemma OneTaskPerId(cfg: Config, es: seq<Event>, id: nat)
    requires Run(cfg, es).Some?
    ensures var s := Run(cfg, es).value;
            && (id in s.active <==> exists k :: 0 <= k < |s.tasks| && Registered(s.tasks[k]) && s.tasks[k].id == id)
            && (forall k | 0 <= k < |s.tasks| && Registered(s.tasks[k]) && s.tasks[k].id == id ::
                  id in s.active && s.active[id] == k)
  {
    RunKeeps(cfg, es);
  }

  /** A non-streaming request replies at most once, exactly once unless its write failed, and never while it holds its id. */
  lemma OneReply(cfg: Config, es: seq<Event>, k: nat)
    requires Run(cfg, es).Some?
    requires k < |Run(cfg, es).value.tasks| && Run(cfg, es).value.tasks[k].InferTask?
    ensures var s := Run(cfg, es).value;
            var r := Replies(s.wire, k);
            && |r| <= 1
            && (s.tasks[k].step.Replied? && !s.tasks[k].lost ==> |r| == 1)
            && (r != [] || s.tasks[k].step.Released? ==> k !in s.active.Values)
  {
    RunKeeps(cfg, es);
    assert TaskInv(Run(cfg, es).value, k);
  }

  /** After the reader has exited, every task that still holds an id has been told to stop. */
  lemma ExitCancelsAll(cfg: Config, es: seq<Event>, k: nat)
    requires Run(cfg, es).Some? && Run(cfg, es).value.reader.Exited?
    requires k < |Run(cfg, es).value.tasks| && Registered(Run(cfg, es).value.tasks[k])
    ensures k in Run(cfg, es).value.cancelled
  {
    RunKeeps(cfg, es);
  }

  // ---------------------------------------------------------------- authentication

  /** The events that hand work to the inference queue. */
  predicate Enqueues(e: Event) {
    match e
    case Admit(_, verdict) => verdict.Enqueued?
    case Submit(_, accepted) => accepted
    case ReadControl(_, enqueues) => enqueues
    case _ => false
  }

  /** Only an accepted handshake opens a session. */
  lemma SessionStep(cfg: Config, s: State, e: Event)
    requires Step(cfg, s, e).Some? && Step(cfg, s, e).value.session && e != ReadHandshake(true)
    ensures s.session
  {
    hide TaskMove;
  }

  lemma {:induction false} SessionNeedsHandshake(cfg: Config, es: seq<Event>) returns (j: nat)
    requires Run(cfg, es).Some? && Run(cfg, es).value.session
    ensures j < |es| && es[j] == ReadHandshake(true)
  {
    hide Step;
    var n := |es| - 1;
    if es[n] == ReadHandshake(true) {
      return n;
    }
    SessionStep(cfg, Run(cfg, es[..n]).value, es[n]);
    j := SessionNeedsHandshake(cfg, es[..n]);
  }

  lemma EnqueueNeedsSession(cfg: Config, s: State, e: Event)
    requires Inv(cfg, s) && Step(cfg, s, e).Some? && Enqueues(e) && (cfg.requireAuth || e.Admit?)
    ensures s.session
  {
  }

  /**
   * When authentication is required, an accepted handshake comes before anything is
   * enqueued; a streaming request needs one even when it is not required.
   */
  lemma HandshakeFirst(cfg: Config, es: seq<Event>, i: nat) returns (j: nat)
    requires Run(cfg, es).Some? && i < |es| && Enqueues(es[i])
    requires cfg.requireAuth || es[i].Admit?
    ensures j < i && es[j] == ReadHandshake(true)
  {
    hide Step, Inv, Enqueues, Run;
    RunPrefix(cfg, es, i + 1);
    assert es[..i + 1] == es[..i] + [es[i]];
    RunStep(cfg, es[..i], es[i]);
    RunKeeps(cfg, es[..i]);
    EnqueueNeedsSession(cfg, Run(cfg, es[..i]).value, es[i]);
    j := SessionNeedsHandshake(cfg, es[..i]);
  }
}
