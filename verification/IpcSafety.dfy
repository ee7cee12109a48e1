/**
 * What every run of a connection keeps: the invariants of `IpcConnection` and the
 * guarantees a client relies on.
 */
module IpcSafety {
  import opened Wrappers
  import opened TokenStream
  import opened IpcConnection

  // ---------------------------------------------------------------- reading the wire

  /** The chunk frames of task `k`, in the order they were written. */
  function Chunks(w: seq<Frame>, k: nat): seq<Body> {
    if w == [] then []
    else
      var f := w[|w| - 1];
      Chunks(w[..|w| - 1], k) + (if f.ChunkFrame? && f.task == k then [f.body] else [])
  }

  /** The replies written by task `k`. */
  function Replies(w: seq<Frame>, k: nat): seq<Reply> {
    if w == [] then []
    else
      var f := w[|w| - 1];
      Replies(w[..|w| - 1], k) + (if f.ReplyFrame? && f.task == k then [f.reply] else [])
  }

  lemma WireAppend(w: seq<Frame>, f: Frame, k: nat)
    ensures Chunks(w + [f], k) ==
            Chunks(w, k) + (if f.ChunkFrame? && f.task == k then [f.body] else [])
    ensures Replies(w + [f], k) ==
            Replies(w, k) + (if f.ReplyFrame? && f.task == k then [f.reply] else [])
  {
    assert (w + [f])[..|w|] == w;
  }

  /** `h` is exactly the data of the first `n` items the worker produced. */
  ghost predicate Delivered(h: seq<Body>, produced: seq<StreamItem>, n: int) {
    && 0 <= n == |h| <= |produced|
    && forall i | 0 <= i < n :: produced[i].Item? && h[i] == Data(produced[i].chunk)
  }

  /** `h` is delivered data followed by one final frame; a clean one follows the last item. */
  ghost predicate Terminated(h: seq<Body>, produced: seq<StreamItem>) {
    var n := |h| - 1;
    && 0 <= n
    && Delivered(h[..n], produced, n)
    && (h[n].Failed? || (h[n].Clean? && n < |produced| && produced[n] == End(Complete)))
  }

  // ---------------------------------------------------------------- invariants

  /** Only the last item ever produced is a terminal, and it closes the channel. */
  ghost predicate ChannelInv(t: Task)
    requires t.StreamTask?
  {
    && t.taken <= |t.produced|
    && (forall i | 0 <= i < |t.produced| :: t.produced[i].End? ==> i == |t.produced| - 1 && t.producer.Closed?)
    && (t.producer.Unqueued? || t.producer.Queued? ==> t.produced == [])
  }

  ghost predicate PendingInv(t: Task, h: seq<Body>, body: Body, next: OnSent)
    requires t.StreamTask?
  {
    match body
    case Data(c) =>
      next.NextItem? && 0 < t.taken <= |t.produced| && t.produced[t.taken - 1] == Item(c) &&
      Delivered(h, t.produced, t.taken - 1)
    case Clean =>
      next.Return? && 0 < t.taken <= |t.produced| && t.produced[t.taken - 1] == End(Complete) &&
      Delivered(h, t.produced, t.taken - 1)
    case Failed(_) => !next.NextItem? && Delivered(h, t.produced, |h|)
  }

  /** A streaming task against the frames it has written. */
  ghost predicate StreamInv(t: Task, h: seq<Body>)
    requires t.StreamTask?
  {
    ChannelInv(t) &&
    match t.pc
    case Admitting => h == [] && t.taken == 0 && t.producer.Unqueued?
    case Relaying(_) => Delivered(h, t.produced, t.taken)
    case Sending(body, next) => PendingInv(t, h, body, next)
    case Writing(body, next) => PendingInv(t, h, body, next)
    case Releasing => Terminated(h, t.produced) || (t.faulted && Delivered(h, t.produced, |h|))
    case Finished => Terminated(h, t.produced) || (t.faulted && Delivered(h, t.produced, |h|))
  }

  ghost predicate ReplyInv(t: Task, r: seq<Reply>)
    requires t.InferTask?
  {
    if t.step.Replied? then |r| == (if t.lost then 0 else 1) else r == [] && !t.lost
  }

  /** A task against the chunks `h` and the replies `r` it has written. */
  ghost predicate TaskHist(t: Task, h: seq<Body>, r: seq<Reply>) {
    if t.StreamTask? then StreamInv(t, h) && r == [] else ReplyInv(t, r) && h == []
  }

  ghost predicate TaskInv(s: State, k: nat)
    requires k < |s.tasks|
  {
    TaskHist(s.tasks[k], Chunks(s.wire, k), Replies(s.wire, k))
  }

  /** The active map and the tasks that hold a request id agree, in both directions. */
  ghost predicate MapInv(s: State) {
    && (forall id | id in s.active ::
          s.active[id] < |s.tasks| && s.tasks[s.active[id]].id == id && Registered(s.tasks[s.active[id]]))
    && (forall k | 0 <= k < |s.tasks| && Registered(s.tasks[k]) ::
          s.tasks[k].id in s.active && s.active[s.tasks[k].id] == k)
  }

  /** A frame names a task that exists and holds (or held) the frame's request id. */
  ghost predicate FrameInv(s: State, f: Frame) {
    match f
    case ChunkFrame(k, id, _) => k < |s.tasks| && s.tasks[k].StreamTask? && s.tasks[k].id == id
    case ReplyFrame(k, id, _) => k < |s.tasks| && s.tasks[k].InferTask? && s.tasks[k].id == id
    case CancelAck(id, Some(k)) => k < |s.tasks| && s.tasks[k].id == id && k in s.cancelled
    case CancelAck(_, None) => true
    case ErrorFrame(_) => true
    case ControlFrame => true
  }

  /** Everything written after an acknowledged cancellation of `k` is its error frame. */
  ghost predicate FenceInv(w: seq<Frame>) {
    forall i, j | 0 <= i < j < |w| && w[i].CancelAck? && w[j].ChunkFrame? && w[i].hit == Some(w[j].task) ::
      w[j].body.Failed?
  }

  ghost predicate WireInv(s: State) {
    && (forall f | f in s.wire :: FrameInv(s, f))
    && (s.reader.Replying? ==>
          FrameInv(s, s.reader.frame) && !s.reader.frame.ChunkFrame? && !s.reader.frame.ReplyFrame?)
    && FenceInv(s.wire)
  }

  ghost predicate TokenInv(cfg: Config, s: State) {
    && (forall k | k in s.cancelled :: k < |s.tasks|)
    && (s.reader.Exited? ==> s.active.Values <= s.cancelled)
    && (cfg.requireAuth && !s.session ==> s.tasks == [])
    && (!s.session ==> forall k | 0 <= k < |s.tasks| :: s.tasks[k].InferTask?)
  }

  ghost predicate Inv(cfg: Config, s: State) {
    && MapInv(s)
    && WireInv(s)
    && TokenInv(cfg, s)
    && (forall k | 0 <= k < |s.tasks| :: TaskInv(s, k))
  }

  // ---------------------------------------------------------------- preservation

  lemma NoFrames(s: State, k: nat)
    requires forall f | f in s.wire :: FrameInv(s, f)
    requires k >= |s.tasks|
    ensures Chunks(s.wire, k) == [] && Replies(s.wire, k) == []
  {
    UnnamedTask(s.wire, k);
  }

  lemma {:induction false} UnnamedTask(w: seq<Frame>, k: nat)
    requires forall f | f in w && (f.ChunkFrame? || f.ReplyFrame?) :: f.task != k
    ensures Chunks(w, k) == [] && Replies(w, k) == []
  {
    if w != [] {
      UnnamedTask(w[..|w| - 1], k);
    }
  }

  /** Tasks and frames are untouched; only the reader's own fields and the tokens grow. */
  lemma SameTasksKeep(s: State, s': State)
    requires s'.tasks == s.tasks && s'.wire == s.wire && s.cancelled <= s'.cancelled
    requires WireInv(s) && (forall k | 0 <= k < |s.tasks| :: TaskInv(s, k))
    requires s'.reader.Replying? ==>
               FrameInv(s', s'.reader.frame) && !s'.reader.frame.ChunkFrame? && !s'.reader.frame.ReplyFrame?
    ensures WireInv(s')
    ensures forall k | 0 <= k < |s'.tasks| :: TaskInv(s', k)
  {
    hide TaskHist, FenceInv;
    forall f | f in s'.wire ensures FrameInv(s', f) {
      assert FrameInv(s, f);
    }
    forall k | 0 <= k < |s'.tasks| ensures TaskInv(s', k) {
      assert TaskInv(s, k);
    }
  }

  lemma SpawnKeepsMap(s: State, id: nat, t: Task)
    requires MapInv(s) && id !in s.active && t.id == id && Registered(t)
    ensures MapInv(Spawn(s, id, t))
  {
    hide Registered;
  }

  lemma SpawnKeepsWire(s: State, id: nat, t: Task)
    requires WireInv(s) && s.reader.Reading?
    ensures WireInv(Spawn(s, id, t))
  {
    hide FenceInv;
    var s' := Spawn(s, id, t);
    forall f | f in s'.wire ensures FrameInv(s', f) {
      assert FrameInv(s, f);
    }
  }

  lemma SpawnKeepsTasks(s: State, id: nat, t: Task)
    requires WireInv(s) && (forall k | 0 <= k < |s.tasks| :: TaskInv(s, k)) && TaskHist(t, [], [])
    ensures forall k | 0 <= k <= |s.tasks| :: TaskInv(Spawn(s, id, t), k)
  {
    hide TaskHist, FenceInv;
    NoFrames(s, |s.tasks|);
    forall k | 0 <= k <= |s.tasks| ensures TaskInv(Spawn(s, id, t), k) {
      if k < |s.tasks| {
        assert TaskInv(s, k);
      }
    }
  }

  lemma SpawnKeeps(cfg: Config, s: State, id: nat, t: Task)
    requires Inv(cfg, s) && s.reader.Reading? && id !in s.active
    requires t == NewStream(id) || t == NewInference(id)
    requires cfg.requireAuth || t.StreamTask? ==> s.session
    ensures Inv(cfg, Spawn(s, id, t))
  {
    hide MapInv, WireInv;
    SpawnKeepsMap(s, id, t);
    SpawnKeepsWire(s, id, t);
    SpawnKeepsTasks(s, id, t);
  }

  /** A step of the reader that spawns nothing: it may authenticate, cancel one active task and answer. */
  ghost predicate ReaderOnly(s: State, s': State) {
    && s'.tasks == s.tasks && s'.wire == s.wire && s'.active == s.active
    && (s.session ==> s'.session)
    && s.cancelled <= s'.cancelled <= s.cancelled + s.active.Values
    && !s'.reader.Exited?
    && (s'.reader.Replying? ==>
          var f := s'.reader.frame;
          && !f.ChunkFrame? && !f.ReplyFrame?
          && (f.CancelAck? && f.hit.Some? ==>
                f.id in s.active && s.active[f.id] == f.hit.value && f.hit.value in s'.cancelled))
  }

  lemma ReaderShape(cfg: Config, s: State, e: Event)
    requires s.reader.Reading? && ReaderStep(cfg, s, e).Some?
    ensures var s' := ReaderStep(cfg, s, e).value;
            || ReaderOnly(s, s')
            || (e.ReadStream? && s.session && e.id !in s.active && s' == Spawn(s, e.id, NewStream(e.id)))
            || (e.ReadInference? && (cfg.requireAuth ==> s.session) && e.id !in s.active &&
                s' == Spawn(s, e.id, NewInference(e.id)))
  {
  }

  lemma ReaderOnlyKeeps(cfg: Config, s: State, s': State)
    requires Inv(cfg, s) && ReaderOnly(s, s')
    ensures Inv(cfg, s')
  {
    hide TaskHist, FenceInv, Registered;
    SameTasksKeep(s, s');
  }

  lemma ReaderKeeps(cfg: Config, s: State, e: Event)
    requires Inv(cfg, s) && s.reader.Reading? && ReaderStep(cfg, s, e).Some?
    ensures Inv(cfg, ReaderStep(cfg, s, e).value)
  {
    hide Inv, ReaderStep;
    var s' := ReaderStep(cfg, s, e).value;
    ReaderShape(cfg, s, e);
    if ReaderOnly(s, s') {
      ReaderOnlyKeeps(cfg, s, s');
    } else {
      SpawnKeeps(cfg, s, e.id, if e.ReadStream? then NewStream(e.id) else NewInference(e.id));
    }
  }

  /** The reader writing the frame it holds. */
  lemma ReaderWritesKeep(s: State, s': State, f: Frame)
    requires s'.tasks == s.tasks && s'.cancelled == s.cancelled && s'.wire == s.wire + [f]
    requires WireInv(s) && (forall k | 0 <= k < |s.tasks| :: TaskInv(s, k))
    requires FrameInv(s, f) && !f.ChunkFrame? && !f.ReplyFrame? && !s'.reader.Replying?
    ensures WireInv(s')
    ensures forall k | 0 <= k < |s'.tasks| :: TaskInv(s', k)
  {
    hide TaskHist;
    forall g | g in s'.wire ensures FrameInv(s', g) {
      assert FrameInv(s, g);
    }
    forall k | 0 <= k < |s'.tasks| ensures TaskInv(s', k) {
      hide Chunks, Replies;
      assert TaskInv(s, k);
      WireAppend(s.wire, f, k);
      assert Chunks(s.wire, k) + [] == Chunks(s.wire, k) && Replies(s.wire, k) + [] == Replies(s.wire, k);
    }
  }

  lemma ReaderEndKeeps(cfg: Config, s: State, e: Event)
    requires Inv(cfg, s) && ReaderEnd(s, e).Some?
    ensures Inv(cfg, ReaderEnd(s, e).value)
  {
    hide TaskHist, FenceInv, Registered;
    var s' := ReaderEnd(s, e).value;
    if e.ReaderWrite? && e.ok {
      ReaderWritesKeep(s, s', s.reader.frame);
    } else {
      SameTasksKeep(s, s');
    }
  }

  // ---------------------------------------------------------------- task steps

  function ChunkOf(out: Output): seq<Body> { if out.Writes? then [out.body] else [] }

  function ReplyOf(out: Output): seq<Reply> { if out.Answers? then [out.reply] else [] }

  /** A move keeps the task's identity, releases its id once, and respects the fence. */
  ghost predicate GoodMove(t: Task, cancelled: bool, m: Move) {
    && m.task.id == t.id && m.task.StreamTask? == t.StreamTask?
    && (Registered(m.task) ==> Registered(t))
    && m.releases == (Registered(t) && !Registered(m.task))
    && (m.out.Writes? ==> t.StreamTask? && (cancelled ==> m.out.body.Failed?))
    && (m.out.Answers? ==> t.InferTask?)
  }

  lemma PollGood(t: Task, cancelled: bool, budget: bool)
    requires t.StreamTask? && t.pc.Relaying?
    ensures GoodMove(t, cancelled, PollMove(t, cancelled, budget))
  {
  }

  lemma CheckGood(t: Task, cancelled: bool, encodes: bool)
    requires t.StreamTask? && t.pc.Sending?
    ensures GoodMove(t, cancelled, CheckMove(t, cancelled, encodes))
  {
  }

  lemma WriteGood(t: Task, cancelled: bool, ok: bool)
    requires t.StreamTask? && t.pc.Writing?
    ensures GoodMove(t, cancelled, WriteMove(t, cancelled, ok))
  {
  }

  lemma StreamMoveGood(t: Task, cancelled: bool, e: Event)
    requires t.StreamTask? && StreamMove(t, cancelled, e).Some?
    ensures GoodMove(t, cancelled, StreamMove(t, cancelled, e).value)
  {
    hide PollMove, CheckMove, WriteMove;
    match e
    case Poll(_, budget) => PollGood(t, cancelled, budget);
    case SendCheck(_, encodes) => CheckGood(t, cancelled, encodes);
    case SendWrite(_, ok) => WriteGood(t, cancelled, ok);
    case Admit(_, _) =>
    case Release(_) =>
  }

  lemma TaskMoveGood(t: Task, cancelled: bool, e: Event)
    requires TaskMove(t, cancelled, e).Some?
    ensures GoodMove(t, cancelled, TaskMove(t, cancelled, e).value)
  {
    if t.StreamTask? && IsStreamOwn(e) {
      StreamMoveGood(t, cancelled, e);
    }
  }

  /** The item taken from the channel becomes the frame about to be sent. */
  lemma TakeKeeps(t: Task, h: seq<Body>)
    requires t.StreamTask? && t.pc.Relaying? && StreamInv(t, h) && t.taken < |t.produced|
    ensures StreamInv(t.(pc := RelayItem(t.produced[t.taken]), taken := t.taken + 1), h)
  {
  }

  lemma PollKeeps(t: Task, h: seq<Body>, cancelled: bool, budget: bool)
    requires t.StreamTask? && t.pc.Relaying? && StreamInv(t, h)
    ensures PollMove(t, cancelled, budget).out.Silent? && StreamInv(PollMove(t, cancelled, budget).task, h)
  {
    if t.pc.arm.ChannelArm? && budget && t.taken < |t.produced| {
      hide StreamInv;
      TakeKeeps(t, h);
    }
  }

  lemma CheckKeeps(t: Task, h: seq<Body>, cancelled: bool, encodes: bool)
    requires t.StreamTask? && t.pc.Sending? && StreamInv(t, h)
    ensures CheckMove(t, cancelled, encodes).out.Silent? && StreamInv(CheckMove(t, cancelled, encodes).task, h)
  {
  }

  /** A written frame extends the delivered data, or ends it. */
  lemma SentKeeps(t: Task, h: seq<Body>)
    requires t.StreamTask? && t.pc.Writing? && StreamInv(t, h)
    ensures StreamInv(SendDone(t, t.pc.next), h + [t.pc.body])
  {
    assert (h + [t.pc.body])[..|h|] == h;
  }

  lemma FailKeeps(t: Task, h: seq<Body>, fault: bool)
    requires t.StreamTask? && t.pc.Writing? && StreamInv(t, h) && (!fault ==> !t.pc.body.Failed?)
    ensures StreamInv(SendFailed(t, t.pc.next, fault), h)
  {
  }

  lemma WriteKeeps(t: Task, h: seq<Body>, cancelled: bool, ok: bool)
    requires t.StreamTask? && t.pc.Writing? && StreamInv(t, h)
    ensures var m := WriteMove(t, cancelled, ok); StreamInv(m.task, h + ChunkOf(m.out))
  {
    hide StreamInv, SendDone, SendFailed;
    assert h + [] == h;
    SentKeeps(t, h);
    FailKeeps(t, h, true);
    if Fenced(cancelled, t.pc.body) {
      FailKeeps(t, h, false);
    }
  }

  lemma StreamKeeps(t: Task, h: seq<Body>, cancelled: bool, e: Event)
    requires t.StreamTask? && StreamInv(t, h) && StreamMove(t, cancelled, e).Some?
    ensures var m := StreamMove(t, cancelled, e).value; StreamInv(m.task, h + ChunkOf(m.out))
  {
    hide PollMove, CheckMove, WriteMove;
    assert h + [] == h;
    match e
    case Poll(_, budget) =>
      hide StreamInv;
      PollKeeps(t, h, cancelled, budget);
    case SendCheck(_, encodes) =>
      hide StreamInv;
      CheckKeeps(t, h, cancelled, encodes);
    case SendWrite(_, ok) =>
      hide StreamInv;
      WriteKeeps(t, h, cancelled, ok);
    case Admit(_, _) =>
    case Release(_) =>
  }

  /** Items already on the channel stay; delivery is judged by them alone. */
  lemma ProducedGrows(t: Task, t': Task, h: seq<Body>)
    requires t.StreamTask? && t'.StreamTask? && t'.pc == t.pc && t'.taken == t.taken && t'.faulted == t.faulted
    requires t.produced <= t'.produced && StreamInv(t, h) && ChannelInv(t')
    requires t.pc.Admitting? ==> t'.producer == t.producer
    ensures StreamInv(t', h)
  {
  }

  lemma ChannelKeeps(t: Task, cancelled: bool, e: Event)
    requires t.StreamTask? && ChannelInv(t) && WorkerMove(t, cancelled, e).Some?
    ensures ChannelInv(WorkerMove(t, cancelled, e).value)
  {
  }

  /** The worker and the clocks leave the relay's own fields alone; the channel only grows. */
  lemma WorkerFrame(t: Task, cancelled: bool, e: Event)
    requires t.StreamTask? && WorkerMove(t, cancelled, e).Some?
    ensures var t' := WorkerMove(t, cancelled, e).value;
            && t'.StreamTask? && t'.pc == t.pc && t'.taken == t.taken && t'.faulted == t.faulted
            && t.produced <= t'.produced
            && (t.producer.Unqueued? ==> t'.producer.Unqueued?)
  {
  }

  lemma WorkerKeeps(t: Task, h: seq<Body>, cancelled: bool, e: Event)
    requires t.StreamTask? && StreamInv(t, h) && WorkerMove(t, cancelled, e).Some?
    ensures StreamInv(WorkerMove(t, cancelled, e).value, h)
  {
    hide WorkerMove;
    ChannelKeeps(t, cancelled, e);
    WorkerFrame(t, cancelled, e);
    ProducedGrows(t, WorkerMove(t, cancelled, e).value, h);
  }

  lemma InferKeeps(t: Task, r: seq<Reply>, cancelled: bool, e: Event)
    requires t.InferTask? && ReplyInv(t, r) && InferMove(t, cancelled, e).Some?
    ensures var m := InferMove(t, cancelled, e).value; ReplyInv(m.task, r + ReplyOf(m.out))
  {
    assert r + [] == r;
  }

  /** A move keeps a task consistent with the frames it has written, including this one. */
  lemma TaskMoveKeeps(t: Task, h: seq<Body>, r: seq<Reply>, cancelled: bool, e: Event)
    requires TaskHist(t, h, r) && TaskMove(t, cancelled, e).Some?
    ensures var m := TaskMove(t, cancelled, e).value;
            TaskHist(m.task, h + ChunkOf(m.out), r + ReplyOf(m.out))
  {
    hide InferMove, StreamMove, WorkerMove, StreamInv, ReplyInv;
    TaskMoveGood(t, cancelled, e);
    assert h + [] == h && r + [] == r;
    if t.InferTask? {
      InferKeeps(t, r, cancelled, e);
    } else if IsStreamOwn(e) {
      StreamKeeps(t, h, cancelled, e);
    } else {
      WorkerKeeps(t, h, cancelled, e);
    }
  }

  // ---------------------------------------------------------------- a task step on the connection

  /** Only task `k` sees its output in its own history. */
  lemma ApplyHistory(s: State, k: nat, m: Move, j: nat)
    requires k < |s.tasks|
    ensures var s' := Apply(s, k, m);
            if j == k then
              Chunks(s'.wire, j) == Chunks(s.wire, j) + ChunkOf(m.out) &&
              Replies(s'.wire, j) == Replies(s.wire, j) + ReplyOf(m.out)
            else Chunks(s'.wire, j) == Chunks(s.wire, j) && Replies(s'.wire, j) == Replies(s.wire, j)
  {
    hide Chunks, Replies;
    assert Chunks(s.wire, j) + [] == Chunks(s.wire, j) && Replies(s.wire, j) + [] == Replies(s.wire, j);
    match m.out
    case Silent => assert s.wire + [] == s.wire;
    case Writes(body) => WireAppend(s.wire, ChunkFrame(k, s.tasks[k].id, body), j);
    case Answers(reply) => WireAppend(s.wire, ReplyFrame(k, s.tasks[k].id, reply), j);
  }

  lemma ApplyKeepsMap(s: State, k: nat, m: Move)
    requires k < |s.tasks| && GoodMove(s.tasks[k], k in s.cancelled, m) && MapInv(s)
    ensures MapInv(Apply(s, k, m))
  {
    hide Registered;
  }

  lemma ApplyKeepsFrames(s: State, k: nat, m: Move, f: Frame)
    requires k < |s.tasks| && GoodMove(s.tasks[k], k in s.cancelled, m) && FrameInv(s, f)
    ensures FrameInv(Apply(s, k, m), f)
  {
    hide Registered;
  }

  lemma ApplyKeepsFence(s: State, k: nat, m: Move)
    requires k < |s.tasks| && GoodMove(s.tasks[k], k in s.cancelled, m) && WireInv(s)
    ensures FenceInv(Apply(s, k, m).wire)
  {
    hide Registered;
    forall i | 0 <= i < |s.wire| && s.wire[i].CancelAck? && s.wire[i].hit == Some(k)
      ensures k in s.cancelled
    {
      assert FrameInv(s, s.wire[i]);
    }
  }

  lemma ApplyKeepsWire(s: State, k: nat, m: Move)
    requires k < |s.tasks| && GoodMove(s.tasks[k], k in s.cancelled, m) && WireInv(s)
    ensures WireInv(Apply(s, k, m))
  {
    hide FenceInv;
    var s' := Apply(s, k, m);
    ApplyKeepsFence(s, k, m);
    forall f | f in s'.wire ensures FrameInv(s', f) {
      if f in s.wire {
        ApplyKeepsFrames(s, k, m, f);
      }
    }
    if s.reader.Replying? {
      ApplyKeepsFrames(s, k, m, s.reader.frame);
    }
  }

  lemma ApplyKeepsTokens(cfg: Config, s: State, k: nat, m: Move)
    requires k < |s.tasks| && GoodMove(s.tasks[k], k in s.cancelled, m) && TokenInv(cfg, s) && MapInv(s)
    ensures TokenInv(cfg, Apply(s, k, m))
  {
    hide Registered;
    var s' := Apply(s, k, m);
    assert forall v | v in s'.active.Values :: v in s.active.Values;
  }

  lemma TaskStepKeeps(cfg: Config, s: State, e: Event)
    requires Inv(cfg, s) && !IsReader(e) && TaskStep(s, e).Some?
    ensures Inv(cfg, TaskStep(s, e).value)
  {
    hide TaskMove, MapInv, WireInv, TokenInv, GoodMove, TaskHist, Chunks, Replies;
    var k := e.k;
    var m := TaskMove(s.tasks[k], k in s.cancelled, e).value;
    TaskMoveGood(s.tasks[k], k in s.cancelled, e);
    ApplyKeepsMap(s, k, m);
    ApplyKeepsWire(s, k, m);
    ApplyKeepsTokens(cfg, s, k, m);
    forall j | 0 <= j < |s.tasks| ensures TaskInv(Apply(s, k, m), j) {
      assert TaskInv(s, j);
      ApplyHistory(s, k, m, j);
      if j == k {
        TaskMoveKeeps(s.tasks[k], Chunks(s.wire, k), Replies(s.wire, k), k in s.cancelled, e);
      }
    }
  }

  /** Every possible step keeps every invariant. */
  lemma StepKeeps(cfg: Config, s: State, e: Event)
    requires Inv(cfg, s) && Step(cfg, s, e).Some?
    ensures Inv(cfg, Step(cfg, s, e).value)
  {
    hide Inv, ReaderStep, ReaderEnd, TaskStep;
    if IsReaderRead(e) {
      ReaderKeeps(cfg, s, e);
    } else if IsReaderEnd(e) {
      ReaderEndKeeps(cfg, s, e);
    } else {
      TaskStepKeeps(cfg, s, e);
    }
  }

  lemma {:induction false} RunKeeps(cfg: Config, es: seq<Event>)
    requires Run(cfg, es).Some?
    ensures Inv(cfg, Run(cfg, es).value)
  {
    hide Step;
    if es != [] {
      RunKeeps(cfg, es[..|es| - 1]);
      StepKeeps(cfg, Run(cfg, es[..|es| - 1]).value, es[|es| - 1]);
    }
  }
}
