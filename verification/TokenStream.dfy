/** The channel between the worker and a stream relay (engine/streaming.rs). */
module TokenStream {
  import opened Wrappers

  /** What a data frame carries: a raw token, or sanitized text. */
  datatype Chunk = Token(token: nat) | Text(text: string)

  datatype StreamTerminal = Complete | Rejected(message: string) | Error(message: string)

  datatype StreamItem = Item(chunk: Chunk) | End(terminal: StreamTerminal)

  const STOPPED_MESSAGE := "Inference failed: stream cancelled or deadline exceeded"
  const CANCELLED_UNRUN := "stream cancelled before execution"
  const EXPIRED_UNRUN := "stream deadline exceeded before execution"
  const NO_STREAMING := "Inference failed: model does not support streaming"
  const DROPPED := "stream dropped before terminal"

  /** The sending half: what the receiver gets. It may stop listening after some number of items. */
  class Sender {
    var sent: seq<StreamItem>
    const patience: Option<nat>

    constructor (patience: Option<nat>)
      ensures sent == [] && this.patience == patience
    {
      sent := [];
      this.patience := patience;
    }

    method Send(item: StreamItem) returns (ok: bool)
      modifies this
      ensures ok <==> patience.None? || |old(sent)| < patience.value
      ensures sent == if ok then old(sent) + [item] else old(sent)
    {
      ok := patience.None? || |sent| < patience.value;
      if ok {
        sent := sent + [item];
      }
    }
  }

  /** The items a receiver of that patience gets. */
  function Heard(items: seq<StreamItem>, patience: Option<nat>): seq<StreamItem>
  {
    if patience.None? || |items| <= patience.value then items else items[..patience.value]
  }

  /** What happens below the terminal: no model, a model that cannot stream, or chunks and then an outcome. */
  datatype Generation = NotLoaded(message: string) | Unsupported | Generated(chunks: seq<Chunk>, failure: Option<string>)

  function Items(chunks: seq<Chunk>): (r: seq<StreamItem>)
    ensures |r| == |chunks| && forall i | 0 <= i < |chunks| :: r[i] == Item(chunks[i])
  {
    seq(|chunks|, i requires 0 <= i < |chunks| => Item(chunks[i]))
  }

  function ChunksOf(g: Generation): seq<Chunk> { if g.Generated? then g.chunks else [] }

  /** The terminal of a finished generation: a visible stop is never reported as complete. */
  function Concluded(stopped: bool, failure: Option<string>): StreamTerminal
  {
    match failure
    case Some(m) => Error(m)
    case None => if stopped then Error(STOPPED_MESSAGE) else Complete
  }

  /** The stream's one terminal: clean only if the backend succeeded and no stop is seen after it. */
  function TerminalOf(g: Generation, stopped: bool): StreamTerminal
  {
    match g
    case NotLoaded(m) => Error(m)
    case Unsupported => Error(NO_STREAMING)
    case Generated(_, failure) => Concluded(stopped, failure)
  }

  /**
   * A stream is complete if and only if its model ran without a failure and no stop is seen after it;
   * a failure is reported as that failure, whether or not there is a stop too.
   */
  lemma TerminalExact(g: Generation, stopped: bool)
    ensures TerminalOf(g, stopped) == Complete <==> g.Generated? && g.failure.None? && !stopped
    ensures g.Generated? && g.failure.Some? ==> TerminalOf(g, stopped) == Error(g.failure.value)
    ensures g.NotLoaded? ==> TerminalOf(g, stopped) == Error(g.message)
    ensures g.Unsupported? ==> TerminalOf(g, stopped) == Error("Inference failed: model does not support streaming")
    ensures g.Generated? && g.failure.None? && stopped ==>
              TerminalOf(g, stopped) == Error("Inference failed: stream cancelled or deadline exceeded")
  {
  }

  /**
   * Every outcome puts the chunks and then exactly one terminal on the channel; a receiver that stops
   * listening gets the first of them, and generation stops with it.
   */
  method RunStream(sender: Sender, g: Generation, stopped: bool)
    requires sender.sent == []
    modifies sender
    ensures sender.sent == Heard(Items(ChunksOf(g)) + [End(TerminalOf(g, stopped))], sender.patience)
    ensures End(Complete) in sender.sent <==>
              && g.Generated? && g.failure.None? && !stopped
              && (sender.patience.Some? ==> sender.patience.value > |g.chunks|)
    ensures g.Generated? && g.failure.Some? && (sender.patience.Some? ==> sender.patience.value > |g.chunks|) ==>
              sender.sent == Items(g.chunks) + [End(Error(g.failure.value))]
  {
    var failure: Option<string>;
    match g {
      case NotLoaded(m) => failure := Some(m);
      case Unsupported => failure := Some(NO_STREAMING);
      case Generated(chunks, f) =>
        SendChunks(sender, chunks);
        failure := f;
    }
    if failure.None? && stopped {
      failure := Some(STOPPED_MESSAGE);
    }
    var _ := sender.Send(End(if failure.None? then Complete else Error(failure.value)));
    TerminalExact(g, stopped);
    assert failure.None? && sender.sent == Items(ChunksOf(g)) + [End(Complete)] ==> sender.sent[|ChunksOf(g)|] == End(Complete);
  }

  method SendChunks(sender: Sender, chunks: seq<Chunk>)
    requires sender.sent == []
    modifies sender
    ensures sender.sent == Heard(Items(chunks), sender.patience)
  {
    var i, ok := 0, true;
    while i < |chunks| && ok
      invariant i <= |chunks| && sender.sent == Heard(Items(chunks[..i]), sender.patience)
      invariant !ok ==> sender.patience.Some? && sender.patience.value < i
    {
      assert Items(chunks[..i + 1]) == Items(chunks[..i]) + [Item(chunks[i])];
      ok := sender.Send(Item(chunks[i]));
      i := i + 1;
    }
    if ok {
      assert chunks[..i] == chunks;
    } else {
      assert Items(chunks)[..sender.patience.value] == Items(chunks[..i])[..sender.patience.value];
    }
  }

  function Tokens(chunks: seq<Chunk>): seq<nat>
  {
    if chunks == [] then []
    else Tokens(chunks[..|chunks| - 1]) + match chunks[|chunks| - 1] case Token(t) => [t] case Text(_) => []
  }

  /** Text is skipped, tokens stay in order: all of them, if there is no text. */
  lemma {:induction false} TokensExact(chunks: seq<Chunk>)
    ensures (forall i | 0 <= i < |chunks| :: chunks[i].Token?) ==>
              |Tokens(chunks)| == |chunks| && forall i | 0 <= i < |chunks| :: Tokens(chunks)[i] == chunks[i].token
    ensures (forall i | 0 <= i < |chunks| :: chunks[i].Text?) ==> Tokens(chunks) == []
  {
    if chunks != [] {
      TokensExact(chunks[..|chunks| - 1]);
    }
  }

  lemma {:induction false} TokensJoin(a: seq<Chunk>, b: seq<Chunk>)
    ensures Tokens(a + b) == Tokens(a) + Tokens(b)
  {
    if b == [] {
      assert a + b == a && Tokens(a) + [] == Tokens(a);
    } else {
      var n := |b| - 1;
      TokensJoin(a, b[..n]);
      assert (a + b)[..|a| + n] == a + b[..n] && (a + b)[|a| + n] == b[n];
    }
  }

  /** Position of the first terminal, or the length. */
  function FirstEnd(items: seq<StreamItem>): (k: nat)
    ensures k <= |items| && (k < |items| ==> items[k].End?)
    ensures forall i | 0 <= i < k :: items[i].Item?
  {
    if items == [] || items[0].End? then 0 else 1 + FirstEnd(items[1..])
  }

  function ChunksBefore(items: seq<StreamItem>, k: nat): seq<Chunk>
    requires k <= FirstEnd(items)
  {
    seq(k, i requires 0 <= i < k => items[i].chunk)
  }

  /** The tokens before the first terminal, and that terminal; a channel without one is an error. */
  method Collect(items: seq<StreamItem>) returns (tokens: seq<nat>, terminal: StreamTerminal)
    ensures tokens == Tokens(ChunksBefore(items, FirstEnd(items)))
    ensures terminal == if FirstEnd(items) < |items| then items[FirstEnd(items)].terminal else Error(DROPPED)
  {
    tokens := [];
    for i := 0 to |items|
      invariant i <= FirstEnd(items) && tokens == Tokens(ChunksBefore(items, i))
    {
      match items[i]
      case End(t) => return tokens, t;
      case Item(chunk) =>
        assert ChunksBefore(items, i + 1)[..i] == ChunksBefore(items, i);
        match chunk {
          case Token(t) => tokens := tokens + [t];
          case Text(_) =>
        }
    }
    return tokens, Error(DROPPED);
  }

  /** Collecting what a run put on its channel gives its tokens and its terminal. */
  method RunAndCollect(g: Generation, stopped: bool) returns (tokens: seq<nat>, terminal: StreamTerminal)
    ensures tokens == Tokens(ChunksOf(g)) && terminal == TerminalOf(g, stopped)
    ensures terminal == Complete <==> g.Generated? && g.failure.None? && !stopped
    ensures g.Generated? && g.failure.Some? ==> terminal == Error(g.failure.value)
  {
    var sender := new Sender(None);
    RunStream(sender, g, stopped);
    EndIsFirst(ChunksOf(g), TerminalOf(g, stopped));
    TerminalExact(g, stopped);
    tokens, terminal := Collect(sender.sent);
  }

  lemma EndIsFirst(chunks: seq<Chunk>, t: StreamTerminal)
    ensures var items := Items(chunks) + [End(t)];
            FirstEnd(items) == |chunks| && ChunksBefore(items, |chunks|) == chunks
  {
    var items := Items(chunks) + [End(t)];
    assert forall i | 0 <= i < |chunks| :: items[i].Item?;
    assert items[|chunks|].End?;
  }
}
