/**
 * What the KV cache does, without pages: every live sequence is a list of rows, next to
 * the access order and the number of pages handed out.  `KvCache` is proved to be this
 * model; here are the consequences for whole runs.
 */
module KvReference {
  import opened Wrappers
  import opened Paged
  import opened Vectors

  datatype Window = Window(size: nat, overlap: nat)

  datatype Config = Config(hiddenDim: nat, maxPages: nat, window: Option<Window>)

  datatype KvError =
    | SequenceNotFound(id: nat)
    | PositionOutOfBounds(pos: nat, seqLen: nat)
    | PageNotFound
    | MemoryExhausted

  /**
   * A sequence: the rows its pages still hold, and how many were appended in all.
   * Reads index `kept` by the absolute position, also after the window dropped rows.
   */
  datatype Sequence = Sequence(kept: seq<Row>, len: nat)

  datatype Cache = Cache(seqs: map<nat, Sequence>, order: seq<nat>, used: nat, nextId: nat)

  type Outcome = Result<(), KvError>

  const EMPTY := Cache(map[], [], 0, 1)

  // ---------------------------------------------------------------- one sequence

  /** The pages that hold the kept rows. */
  function PagesOf(q: Sequence): nat { (|q.kept| + PAGE_TOKENS - 1) / PAGE_TOKENS }

  /** A new page is taken at a page boundary, and when the window has dropped every page. */
  predicate NeedsPage(q: Sequence) { q.len % PAGE_TOKENS == 0 || q.kept == [] }

  function ZeroRows(h: nat, n: nat): (r: seq<Row>)
    ensures |r| == n
  {
    seq(n, _ => ZeroRow(h))
  }

  /** One row more; a page taken in the middle of its positions starts with zero rows. */
  function Push(h: nat, q: Sequence, row: Row): Sequence {
    Sequence((if q.kept == [] then ZeroRows(h, q.len % PAGE_TOKENS) else q.kept) + [row], q.len + 1)
  }

  /** What a read at an absolute position finds. */
  function RowAt(h: nat, q: Sequence, pos: nat): Option<Row> {
    if pos < |q.kept| then Some(q.kept[pos])
    else if pos < PAGE_TOKENS * PagesOf(q) then Some(ZeroRow(h))
    else None
  }

  function DropPages(q: Sequence, n: nat): Sequence {
    Sequence(if PAGE_TOKENS * n < |q.kept| then q.kept[PAGE_TOKENS * n..] else [], q.len)
  }

  const USIZE_MAX: nat := 0xFFFF_FFFF_FFFF_FFFF

  /** The pages that lie wholly before the window at `currentPos`. */
  function PagesBeforeWindow(w: Window, currentPos: nat): nat {
    var keep := if w.size + w.overlap > USIZE_MAX then USIZE_MAX else w.size + w.overlap;
    (if currentPos > keep then currentPos - keep else 0) / PAGE_TOKENS
  }

  // ---------------------------------------------------------------- operations

  function Without(order: seq<nat>, id: nat): (r: seq<nat>)
    ensures forall x :: x in r <==> x in order && x != id
  {
    if order == [] then []
    else if order[0] == id then Without(order[1..], id)
    else [order[0]] + Without(order[1..], id)
  }

  function Touch(c: Cache, id: nat): Cache { c.(order := Without(c.order, id) + [id]) }

  function Allocate(c: Cache): Cache {
    Cache(c.seqs[c.nextId := Sequence([], 0)], c.order + [c.nextId], c.used, c.nextId + 1)
  }

  function Free(c: Cache, id: nat): (Cache, Outcome) {
    if id !in c.seqs then (c, Err(SequenceNotFound(id)))
    else (c.(seqs := c.seqs - {id}, order := Without(c.order, id),
             used := if c.used >= PagesOf(c.seqs[id]) then c.used - PagesOf(c.seqs[id]) else 0), Ok(()))
  }

  /** The front of the access order goes, live or not; a dead one is an error. */
  function EvictLru(c: Cache): (Cache, Outcome) {
    if c.order == [] then (c, Ok(())) else Free(c.(order := c.order[1..]), c.order[0])
  }

  /** One page taken from the pool, evicting one sequence when it is exhausted. */
  function TakePage(cfg: Config, c: Cache): (Cache, Outcome) {
    if c.used < cfg.maxPages then (c.(used := c.used + 1), Ok(()))
    else
      var (c', r) := EvictLru(c);
      if r.Err? then (c', r)
      else if c'.used < cfg.maxPages then (c'.(used := c'.used + 1), Ok(()))
      else (c', Err(MemoryExhausted))
  }

  /** The append once its page is available; the eviction may have taken the sequence itself. */
  function Store(cfg: Config, c: Cache, id: nat, row: Row): (Cache, Outcome) {
    if id in c.seqs then (c.(seqs := c.seqs[id := Push(cfg.hiddenDim, c.seqs[id], row)]), Ok(()))
    else (c, Err(SequenceNotFound(id)))
  }

  function Append(cfg: Config, c: Cache, id: nat, row: Row): (Cache, Outcome) {
    var c1 := Touch(c, id);
    if id !in c.seqs then (c1, Err(SequenceNotFound(id)))
    else if !NeedsPage(c.seqs[id]) then Store(cfg, c1, id, row)
    else
      var (c2, r) := TakePage(cfg, c1);
      if r.Err? then (c2, r) else Store(cfg, c2, id, row)
  }

  function Read(cfg: Config, c: Cache, id: nat, pos: nat): (Cache, Result<Row, KvError>) {
    var c1 := Touch(c, id);
    if id !in c.seqs then (c1, Err(SequenceNotFound(id)))
    else if pos >= c.seqs[id].len then (c1, Err(PositionOutOfBounds(pos, c.seqs[id].len)))
    else match RowAt(cfg.hiddenDim, c.seqs[id], pos)
      case None => (c1, Err(PageNotFound))
      case Some(row) => (c1, Ok(row))
  }

  /** The attention score written at position `pos`; `before` is what the caller's buffer held. */
  function ScoreAt(h: nat, q: Sequence, query: seq<real>, pos: nat, before: real): real {
    if pos >= q.len then before
    else match RowAt(h, q, pos)
      case None => before
      case Some(row) => Dot(query, row.key)
  }

  /** The number of pages dropped, and the cache without them. */
  function EvictBeyondWindow(cfg: Config, c: Cache, id: nat, currentPos: nat): (Cache, nat) {
    if cfg.window.None? || id !in c.seqs then (c, 0)
    else
      var q := c.seqs[id];
      var want := PagesBeforeWindow(cfg.window.value, currentPos);
      var n := if want < PagesOf(q) then want else PagesOf(q);
      (c.(seqs := c.seqs[id := DropPages(q, n)], used := if c.used >= n then c.used - n else 0), n)
  }

  function Reset(c: Cache): Cache { c.(seqs := map[], order := []) }

  // ---------------------------------------------------------------- runs

  datatype Op =
    | DoAllocate
    | DoAppend(id: nat, row: Row)
    | DoRead(id: nat, pos: nat)
    | DoFree(id: nat)
    | DoWindow(id: nat, pos: nat)
    | DoReset

  function Step(cfg: Config, c: Cache, op: Op): Cache {
    match op
    case DoAllocate => Allocate(c)
    case DoAppend(id, row) => Append(cfg, c, id, row).0
    case DoRead(id, pos) => Read(cfg, c, id, pos).0
    case DoFree(id) => Free(c, id).0
    case DoWindow(id, pos) => EvictBeyondWindow(cfg, c, id, pos).0
    case DoReset => Reset(c)
  }

  function Run(cfg: Config, ops: seq<Op>): Cache {
    if ops == [] then EMPTY else Step(cfg, Run(cfg, ops[..|ops| - 1]), ops[|ops| - 1])
  }

  /** The rows appended to `id` since it was allocated, whatever else happened. */
  function History(cfg: Config, ops: seq<Op>, id: nat): seq<Row> {
    if ops == [] then []
    else
      var before, op := ops[..|ops| - 1], ops[|ops| - 1];
      var c := Run(cfg, before);
      if op.DoAllocate? && c.nextId == id then []
      else if op.DoAppend? && op.id == id && Append(cfg, c, id, op.row).1.Ok? then
        History(cfg, before, id) + [op.row]
      else History(cfg, before, id)
  }

  // ---------------------------------------------------------------- contents

  /** What one operation does to the rows of a sequence that stays live. */
  lemma StepRows(cfg: Config, c: Cache, op: Op, id: nat)
    requires id in Step(cfg, c, op).seqs
    ensures var q' := Step(cfg, c, op).seqs[id];
            if op.DoAllocate? && id == c.nextId then q' == Sequence([], 0)
            else
              && id in c.seqs
              && (if op.DoAppend? && op.id == id then
                    q' == if Append(cfg, c, id, op.row).1.Ok? then Push(cfg.hiddenDim, c.seqs[id], op.row)
                          else c.seqs[id]
                  else if op.DoWindow? && op.id == id then exists n: nat :: q' == DropPages(c.seqs[id], n)
                  else q' == c.seqs[id])
  {
    hide Push, PagesOf, PagesBeforeWindow, DropPages, NeedsPage, RowAt;
    if op.DoWindow? && op.id == id {
      if cfg.window.None? {
        DropNone(c.seqs[id]);
      }
    }
  }

  lemma DropNone(q: Sequence)
    ensures DropPages(q, 0) == q
  {
  }

  /** Some window eviction of `id` since its allocation reported pages dropped. */
  predicate Dropped(cfg: Config, ops: seq<Op>, id: nat) {
    ops != [] &&
    (var before, op := ops[..|ops| - 1], ops[|ops| - 1];
     var c := Run(cfg, before);
     !(op.DoAllocate? && c.nextId == id) &&
     (Dropped(cfg, before, id) || (op.DoWindow? && op.id == id && EvictBeyondWindow(cfg, c, id, op.pos).1 > 0)))
  }

  /** Callers that never evict from `id` are among those that see nothing dropped. */
  lemma {:induction false} NotWindowed(cfg: Config, ops: seq<Op>, id: nat)
    requires forall i | 0 <= i < |ops| :: !(ops[i].DoWindow? && ops[i].id == id)
    ensures !Dropped(cfg, ops, id)
  {
    hide Run, EvictBeyondWindow;
    if ops != [] {
      NotWindowed(cfg, ops[..|ops| - 1], id);
    }
  }

  lemma WindowRows(cfg: Config, c: Cache, id: nat, pos: nat)
    requires id in c.seqs
    ensures var (c', n) := EvictBeyondWindow(cfg, c, id, pos);
            id in c'.seqs && c'.seqs[id] == DropPages(c.seqs[id], n) && n <= PagesOf(c.seqs[id])
  {
    hide PagesOf, DropPages, PagesBeforeWindow;
    DropNone(c.seqs[id]);
  }

  /**
   * While no window eviction has dropped pages of it, a live sequence holds exactly the rows
   * appended to it, whatever appends, reads, frees and evictions hit the others; so a read returns
   * the row appended there.
   */
  lemma {:induction false} ReadsHistory(cfg: Config, ops: seq<Op>, id: nat, pos: nat)
    requires !Dropped(cfg, ops, id) && id in Run(cfg, ops).seqs
    ensures var h := History(cfg, ops, id);
            && Run(cfg, ops).seqs[id] == Sequence(h, |h|)
            && Read(cfg, Run(cfg, ops), id, pos).1 ==
               (if pos < |h| then Ok(h[pos]) else Err(PositionOutOfBounds(pos, |h|)))
  {
    hide Append, Step, EvictBeyondWindow;
    if ops != [] {
      var before, op := ops[..|ops| - 1], ops[|ops| - 1];
      var c := Run(cfg, before);
      StepRows(cfg, c, op, id);
      if !(op.DoAllocate? && c.nextId == id) {
        ReadsHistory(cfg, before, id, pos);
        if op.DoWindow? && op.id == id {
          WindowRows(cfg, c, id, op.pos);
          WindowStep(cfg, c, op);
          DropNone(c.seqs[id]);
        }
      }
    }
  }

  lemma WindowStep(cfg: Config, c: Cache, op: Op)
    requires op.DoWindow?
    ensures Step(cfg, c, op) == EvictBeyondWindow(cfg, c, op.id, op.pos).0
  {
  }

  /** The scores of such a sequence are the products with the appended keys. */
  lemma ScoresHistory(cfg: Config, ops: seq<Op>, id: nat, query: seq<real>, pos: nat, before: real)
    requires !Dropped(cfg, ops, id) && id in Run(cfg, ops).seqs
    ensures var h := History(cfg, ops, id);
            ScoreAt(cfg.hiddenDim, Run(cfg, ops).seqs[id], query, pos, before) ==
            if pos < |h| then Dot(query, h[pos].key) else before
  {
    hide Run, History, Dot, Dropped;
    ReadsHistory(cfg, ops, id, pos);
  }

  // ---------------------------------------------------------------- an append that loses its sequence

  /** Returning the pages of `id` would bring the pool below its limit. */
  predicate FreesOne(cfg: Config, c: Cache, id: nat)
    requires id in c.seqs
  {
    (if c.used >= PagesOf(c.seqs[id]) then c.used - PagesOf(c.seqs[id]) else 0) < cfg.maxPages
  }

  /** The append is alone with an exhausted pool: it needs a page and no other sequence is in the order. */
  predicate Alone(cfg: Config, c: Cache, id: nat)
    requires id in c.seqs
  {
    NeedsPage(c.seqs[id]) && c.used >= cfg.maxPages && Without(c.order, id) == []
  }

  /**
   * An append evicts its own sequence exactly when it is alone with an exhausted pool. It is then
   * reported as not found if its own pages freed one, which nobody owns now, and as out of memory
   * if they did not; no other append to a live sequence reports that sequence as not found.
   */
  lemma AppendLosesItself(cfg: Config, c: Cache, id: nat, row: Row)
    requires id in c.seqs
    ensures id !in Append(cfg, c, id, row).0.seqs <==> Alone(cfg, c, id)
    ensures Alone(cfg, c, id) ==>
              Append(cfg, c, id, row).1 == Err(if FreesOne(cfg, c, id) then SequenceNotFound(id) else MemoryExhausted)
    ensures Append(cfg, c, id, row).1 == Err(SequenceNotFound(id)) <==> Alone(cfg, c, id) && FreesOne(cfg, c, id)
  {
    hide Push, NeedsPage, PagesOf;
    var c1 := Touch(c, id);
    var rest := Without(c.order, id);
    if rest != [] {
      assert c1.order[0] == rest[0] && rest[0] in rest;
    } else {
      assert c1.order == [id] && Without(c1.order[1..], id) == [];
    }
  }

  // ---------------------------------------------------------------- what each call does

  /** `q'` is `q` and one row more; only a sequence that has lost all its pages starts a page in the middle. */
  predicate OneMore(q: Sequence, q': Sequence, row: Row)
  {
    && q'.len == q.len + 1
    && |q'.kept| > 0 && q'.kept[|q'.kept| - 1] == row
    && (q.kept != [] || q.len % 16 == 0 ==> q'.kept == q.kept + [row])
    && (q.kept == [] ==> |q'.kept| == q.len % 16 + 1)
  }

  lemma PushOneMore(h: nat, q: Sequence, row: Row)
    ensures OneMore(q, Push(h, q, row), row)
  {
    assert ZeroRows(h, 0) == [];
  }

  /** The append takes a page: it is at the start of one, or has none. */
  predicate AtPageStart(q: Sequence) { q.len % 16 == 0 || q.kept == [] }

  /**
   * An append that needs no page, or finds one in the pool, succeeds: its sequence has the row, every
   * other one is as it was, and the pool has one page less if it was needed.
   */
  lemma AppendFits(cfg: Config, c: Cache, id: nat, row: Row)
    requires id in c.seqs && (AtPageStart(c.seqs[id]) ==> c.used < cfg.maxPages)
    ensures var (c', r) := Append(cfg, c, id, row);
            && r == Ok(()) && id in c'.seqs && OneMore(c.seqs[id], c'.seqs[id], row)
            && c'.seqs == c.seqs[id := c'.seqs[id]]
            && c'.order == Without(c.order, id) + [id] && c'.nextId == c.nextId
            && c'.used == if AtPageStart(c.seqs[id]) then c.used + 1 else c.used
  {
    PushOneMore(cfg.hiddenDim, c.seqs[id], row);
    hide Push, OneMore, Without;
  }

  /**
   * An append that needs a page of an exhausted pool frees the front of the other ids in the order.
   * If that is live, exactly it is gone, and the append succeeds if and only if its pages make room;
   * if it is dead, nothing is gone and the append fails for it.
   */
  lemma AppendEvicts(cfg: Config, c: Cache, id: nat, row: Row)
    requires id in c.seqs && AtPageStart(c.seqs[id]) && c.used >= cfg.maxPages && Without(c.order, id) != []
    ensures var (c', r) := Append(cfg, c, id, row);
            var v := Without(c.order, id)[0];
            if v !in c.seqs then r == Err(SequenceNotFound(v)) && c'.seqs == c.seqs && c'.used == c.used
            else
              var pages := (|c.seqs[v].kept| + 15) / 16;
              var left := if c.used >= pages then c.used - pages else 0;
              && v != id && (r.Ok? <==> left < cfg.maxPages) && (r.Err? ==> r == Err(MemoryExhausted))
              && id in c'.seqs && c'.seqs == (c.seqs - {v})[id := c'.seqs[id]]
              && (if r.Ok? then OneMore(c.seqs[id], c'.seqs[id], row) else c'.seqs[id] == c.seqs[id])
              && c'.used == if r.Ok? then left + 1 else left
  {
    PushOneMore(cfg.hiddenDim, c.seqs[id], row);
    hide Push, OneMore;
    var rest := Without(c.order, id);
    var c1 := Touch(c, id);
    assert c1.order[0] == rest[0] && rest[0] in rest;
    hide Without;
    assert rest[0] in c.seqs ==> (c.seqs - {rest[0]})[id := c.seqs[id]] == c.seqs - {rest[0]};
  }

  /** A call that names a dead sequence reports it and touches no other. */
  lemma DeadSequence(cfg: Config, c: Cache, id: nat, row: Row, pos: nat)
    requires id !in c.seqs
    ensures Append(cfg, c, id, row).1 == Err(SequenceNotFound(id)) && Append(cfg, c, id, row).0.seqs == c.seqs
    ensures Read(cfg, c, id, pos).1 == Err(SequenceNotFound(id)) && Read(cfg, c, id, pos).0.seqs == c.seqs
    ensures Free(c, id) == (c, Err(SequenceNotFound(id)))
    ensures EvictBeyondWindow(cfg, c, id, pos) == (c, 0)
  {
  }

  /**
   * A window eviction drops whole pages from the front, all those that lie before the window and its
   * overlap at `pos` and no more, and hands exactly them back.
   */
  lemma WindowExact(cfg: Config, c: Cache, id: nat, pos: nat)
    requires id in c.seqs && cfg.window.Some?
    ensures var (c', n) := EvictBeyondWindow(cfg, c, id, pos);
            var sum := cfg.window.value.size + cfg.window.value.overlap;
            var keep := if sum > 0xFFFF_FFFF_FFFF_FFFF then 0xFFFF_FFFF_FFFF_FFFF else sum;
            var kept := c.seqs[id].kept;
            && n <= (|kept| + 15) / 16
            && (n > 0 ==> 16 * n + keep <= pos)
            && (n < (|kept| + 15) / 16 ==> pos < 16 * (n + 1) + keep)
            && c'.seqs == c.seqs[id := Sequence(if 16 * n < |kept| then kept[16 * n..] else [], c.seqs[id].len)]
            && c'.order == c.order && c'.used == (if c.used >= n then c.used - n else 0)
  {
  }

  /** The first `n` appends of one row to the first sequence. */
  function Filling(row: Row, n: nat): seq<Op> {
    if n == 0 then [DoAllocate] else Filling(row, n - 1) + [DoAppend(1, row)]
  }

  /** An append to the only sequence, when it needs no page or one is left. */
  lemma AppendToOnly(cfg: Config, q: Sequence, used: nat, row: Row)
    requires NeedsPage(q) ==> used < cfg.maxPages
    ensures Append(cfg, Cache(map[1 := q], [1], used, 2), 1, row)
         == (Cache(map[1 := Push(cfg.hiddenDim, q, row)], [1], if NeedsPage(q) then used + 1 else used, 2), Ok(()))
  {
    hide NeedsPage, Push;
    var c := Cache(map[1 := q], [1], used, 2);
    assert Without([1], 1) == [];
    assert Touch(c, 1) == c by { assert Without([1], 1) + [1] == [1]; }
    assert map[1 := q][1 := Push(cfg.hiddenDim, q, row)] == map[1 := Push(cfg.hiddenDim, q, row)];
  }

  lemma RunSnoc(cfg: Config, ops: seq<Op>, op: Op)
    ensures Run(cfg, ops + [op]) == Step(cfg, Run(cfg, ops), op)
  {
    hide Step;
    assert (ops + [op])[..|ops|] == ops;
  }

  lemma FirstAllocate(cfg: Config)
    ensures Run(cfg, [DoAllocate]) == Cache(map[1 := Sequence([], 0)], [1], 0, 2)
  {
    RunSnoc(cfg, [], DoAllocate);
  }

  function Copies(row: Row, n: nat): seq<Row> { seq(n, _ => row) }

  lemma OneMoreCopy(h: nat, row: Row, n: nat)
    requires n < PAGE_TOKENS
    ensures NeedsPage(Sequence(Copies(row, n), n)) <==> n == 0
    ensures Push(h, Sequence(Copies(row, n), n), row) == Sequence(Copies(row, n + 1), n + 1)
  {
    assert Copies(row, n) + [row] == Copies(row, n + 1);
  }

  lemma {:induction false} FillingRun(cfg: Config, row: Row, n: nat)
    requires cfg.maxPages == 1 && n <= PAGE_TOKENS
    ensures Run(cfg, Filling(row, n)) == Cache(map[1 := Sequence(Copies(row, n), n)], [1], if n == 0 then 0 else 1, 2)
  {
    hide Run, Append, Push, NeedsPage;
    if n == 0 {
      FirstAllocate(cfg);
      assert Copies(row, 0) == [];
    } else {
      FillingRun(cfg, row, n - 1);
      OneMoreCopy(cfg.hiddenDim, row, n - 1);
      AppendToOnly(cfg, Sequence(Copies(row, n - 1), n - 1), if n == 1 then 0 else 1, row);
      RunSnoc(cfg, Filling(row, n - 1), DoAppend(1, row));
    }
  }

  /** In a pool of one page the append after the first full page evicts its own sequence and strands the page. */
  lemma PageStranded(cfg: Config, row: Row)
    requires cfg.maxPages == 1
    ensures var c := Run(cfg, Filling(row, PAGE_TOKENS));
            1 in c.seqs && Append(cfg, c, 1, row) == (Cache(map[], [], 1, 2), Err(SequenceNotFound(1)))
  {
    hide Run;
    FillingRun(cfg, row, PAGE_TOKENS);
    assert Without([1], 1) == [];
    assert map[1 := Sequence(Copies(row, PAGE_TOKENS), PAGE_TOKENS)] - {1} == map[];
  }

  /** In a pool without pages the first append of all loses its sequence for lack of memory. */
  lemma NoPagesAtAll(cfg: Config, row: Row)
    requires cfg.maxPages == 0
    ensures var c := Run(cfg, [DoAllocate]);
            1 in c.seqs && Append(cfg, c, 1, row) == (Cache(map[], [], 0, 2), Err(MemoryExhausted))
  {
    hide Run;
    FirstAllocate(cfg);
    assert Without([1], 1) == [];
    assert map[1 := Sequence([], 0)] - {1} == map[];
  }

  /** `kept` is zero rows followed by the last rows of the history. */
  ghost predicate Tail(h: nat, kept: seq<Row>, history: seq<Row>, zeros: nat) {
    && zeros <= |kept| <= zeros + |history|
    && kept[..zeros] == ZeroRows(h, zeros)
    && kept[zeros..] == history[|history| - (|kept| - zeros)..]
  }

  /** Dropping pages from the front keeps a tail. */
  lemma DropKeepsTail(h: nat, q: Sequence, history: seq<Row>, zeros: nat, n: nat) returns (z: nat)
    requires Tail(h, q.kept, history, zeros)
    ensures Tail(h, DropPages(q, n).kept, history, z)
    ensures |DropPages(q, n).kept| <= |q.kept| && DropPages(q, n).len == q.len
  {
    var k := DropPages(q, n).kept;
    var d := |q.kept| - |k|;
    assert k == q.kept[d..];
    z := if d < zeros then zeros - d else 0;
    assert k[..z] == ZeroRows(h, z);
    assert k[z..] == history[|history| - (|k| - z)..];
  }

  lemma PushKeepsTail(h: nat, q: Sequence, history: seq<Row>, zeros: nat, row: Row) returns (z: nat)
    requires Tail(h, q.kept, history, zeros) && |q.kept| <= q.len == |history|
    ensures Tail(h, Push(h, q, row).kept, history + [row], z)
    ensures |Push(h, q, row).kept| <= q.len + 1 == Push(h, q, row).len
  {
    var k := Push(h, q, row).kept;
    z := if q.kept == [] then q.len % PAGE_TOKENS else zeros;
    assert k[..z] == ZeroRows(h, z);
    assert k[z..] == (history + [row])[|history| + 1 - (|k| - z)..];
  }

  /** A tail read by absolute position is off by the number of rows dropped. */
  lemma TailReads(cfg: Config, c: Cache, id: nat, history: seq<Row>, zeros: nat)
    requires id in c.seqs && Tail(cfg.hiddenDim, c.seqs[id].kept, history, zeros)
    requires |c.seqs[id].kept| <= c.seqs[id].len == |history|
    ensures var q := c.seqs[id];
            forall pos: nat | zeros <= pos < |q.kept| ::
              Read(cfg, c, id, pos).1 == Ok(history[pos + (q.len - |q.kept|)])
  {
    var q := c.seqs[id];
    forall pos: nat | zeros <= pos < |q.kept|
      ensures Read(cfg, c, id, pos).1 == Ok(history[pos + (q.len - |q.kept|)])
    {
      assert q.kept[pos] == q.kept[zeros..][pos - zeros];
    }
  }

  lemma {:induction false} TailRun(cfg: Config, ops: seq<Op>, id: nat) returns (zeros: nat)
    requires id in Run(cfg, ops).seqs
    ensures var q, h := Run(cfg, ops).seqs[id], History(cfg, ops, id);
            |q.kept| <= q.len == |h| && Tail(cfg.hiddenDim, q.kept, h, zeros)
  {
    hide Append, Step, Tail, Push, DropPages;
    var before, op := ops[..|ops| - 1], ops[|ops| - 1];
    var c := Run(cfg, before);
    StepRows(cfg, c, op, id);
    if op.DoAllocate? && c.nextId == id {
      zeros := 0;
      EmptyTail(cfg.hiddenDim);
    } else {
      zeros := TailRun(cfg, before, id);
      var q, h := c.seqs[id], History(cfg, before, id);
      var q' := Run(cfg, ops).seqs[id];
      if op.DoWindow? && op.id == id {
        var n: nat :| q' == DropPages(q, n);
        zeros := DropKeepsTail(cfg.hiddenDim, q, h, zeros, n);
      } else if op.DoAppend? && op.id == id && Append(cfg, c, id, op.row).1.Ok? {
        zeros := PushKeepsTail(cfg.hiddenDim, q, h, zeros, op.row);
      }
    }
  }

  lemma EmptyTail(h: nat)
    ensures Tail(h, [], [], 0)
  {
  }

  /**
   * With window eviction too, a live sequence keeps a tail of its history behind some zero rows, and
   * reads still go by absolute position: one at `pos` finds the row appended `len - |kept|` positions
   * later.
   */
  lemma ReadsShifted(cfg: Config, ops: seq<Op>, id: nat) returns (zeros: nat)
    requires id in Run(cfg, ops).seqs
    ensures var q, h := Run(cfg, ops).seqs[id], History(cfg, ops, id);
            && |q.kept| <= q.len == |h| && Tail(cfg.hiddenDim, q.kept, h, zeros)
            && (forall pos: nat | zeros <= pos < |q.kept| ::
                  Read(cfg, Run(cfg, ops), id, pos).1 == Ok(h[pos + (q.len - |q.kept|)]))
  {
    hide Run, History, Tail, Read;
    zeros := TailRun(cfg, ops, id);
    TailReads(cfg, Run(cfg, ops), id, History(cfg, ops, id), zeros);
  }

  // ---------------------------------------------------------------- pages nobody owns

  /** The operation leaves pages allocated that no sequence lists. */
  predicate Leaks(cfg: Config, c: Cache, op: Op) {
    match op
    case DoReset => c.used > 0
    case DoAppend(id, _) => id in c.seqs && Alone(cfg, c, id) && FreesOne(cfg, c, id)
    case _ => false
  }

  predicate LeakFree(cfg: Config, ops: seq<Op>) {
    ops == [] || (LeakFree(cfg, ops[..|ops| - 1]) && !Leaks(cfg, Run(cfg, ops[..|ops| - 1]), ops[|ops| - 1]))
  }

  // ---------------------------------------------------------------- when reads are right

  /**
   * A sequence that has lost pages: all of them, or whole pages' worth of rows, or all of them within
   * the first page, which then begins with zero rows.
   */
  ghost predicate Lossy(h: nat, q: Sequence) {
    && q.len > 0 && |q.kept| <= q.len
    && (q.kept == [] || (q.len - |q.kept|) % PAGE_TOKENS == 0)
    && (|q.kept| == q.len ==> q.kept[0] == ZeroRow(h))
  }

  lemma DropLossy(h: nat, q: Sequence, n: nat)
    requires n <= PagesOf(q) && (Lossy(h, q) || (n > 0 && |q.kept| == q.len))
    ensures Lossy(h, DropPages(q, n))
  {
  }

  lemma PushLossy(h: nat, q: Sequence, row: Row)
    requires Lossy(h, q)
    ensures Lossy(h, Push(h, q, row))
  {
  }

  lemma {:induction false} DroppedLossy(cfg: Config, ops: seq<Op>, id: nat)
    requires Dropped(cfg, ops, id) && id in Run(cfg, ops).seqs
    ensures Lossy(cfg.hiddenDim, Run(cfg, ops).seqs[id])
  {
    hide Append, Step, EvictBeyondWindow, Lossy, Push, DropPages, History, Read;
    var before, op := ops[..|ops| - 1], ops[|ops| - 1];
    var c := Run(cfg, before);
    StepRows(cfg, c, op, id);
    if Dropped(cfg, before, id) {
      DroppedLossy(cfg, before, id);
    } else {
      ReadsHistory(cfg, before, id, 0);
    }
    if op.DoWindow? && op.id == id {
      WindowRows(cfg, c, id, op.pos);
      WindowStep(cfg, c, op);
      DropLossy(cfg.hiddenDim, c.seqs[id], EvictBeyondWindow(cfg, c, id, op.pos).1);
    } else if op.DoAppend? && op.id == id && Append(cfg, c, id, op.row).1.Ok? {
      PushLossy(cfg.hiddenDim, c.seqs[id], op.row);
    }
  }

  /** Such a sequence misreads its last position or its first. */
  lemma LossyReads(cfg: Config, c: Cache, id: nat)
    requires id in c.seqs && Lossy(cfg.hiddenDim, c.seqs[id])
    ensures var q := c.seqs[id];
            if |q.kept| < q.len then Read(cfg, c, id, q.len - 1).1 == Err(PageNotFound)
            else Read(cfg, c, id, 0).1 == Ok(ZeroRow(cfg.hiddenDim))
  {
  }

  /** Every position reads the row appended there. */
  ghost predicate ReadsRight(cfg: Config, ops: seq<Op>, id: nat) {
    var h := History(cfg, ops, id);
    forall pos | 0 <= pos < |h| :: Read(cfg, Run(cfg, ops), id, pos).1 == Ok(h[pos])
  }

  /**
   * A live sequence into which no zero row was appended reads right at every position exactly when
   * no window eviction of it has reported dropped pages.
   */
  lemma ReadsRightExactly(cfg: Config, ops: seq<Op>, id: nat)
    requires id in Run(cfg, ops).seqs && ZeroRow(cfg.hiddenDim) !in History(cfg, ops, id)
    ensures ReadsRight(cfg, ops, id) <==> !Dropped(cfg, ops, id)
  {
    hide Run, History, Dropped, Read, Lossy, Tail;
    var h := History(cfg, ops, id);
    if Dropped(cfg, ops, id) {
      var c := Run(cfg, ops);
      var zeros := TailRun(cfg, ops, id);
      DroppedLossy(cfg, ops, id);
      LossyReads(cfg, c, id);
      LossyLength(cfg.hiddenDim, c.seqs[id]);
      assert h[0] in h;
    } else {
      forall pos | 0 <= pos < |h|
        ensures Read(cfg, Run(cfg, ops), id, pos).1 == Ok(h[pos])
      {
        ReadsHistory(cfg, ops, id, pos);
      }
    }
  }

  lemma LossyLength(h: nat, q: Sequence)
    requires Lossy(h, q)
    ensures q.len > 0
  {
  }

  /** A run in which it fails: after the window took the first page the first position reads a zero row. */
  lemma WindowMisreads(cfg: Config, a: Row, b: Row)
    requires cfg.window == Some(Window(0, 0)) && cfg.maxPages > 0 && a != ZeroRow(cfg.hiddenDim)
    ensures var ops := [DoAllocate, DoAppend(1, a), DoWindow(1, 16), DoAppend(1, b)];
            && History(cfg, ops, 1) == [a, b]
            && Read(cfg, Run(cfg, ops), 1, 0).1 == Ok(ZeroRow(cfg.hiddenDim)) != Ok(a)
  {
    var o1 := [DoAllocate];
    var o2 := o1 + [DoAppend(1, a)];
    var o3 := o2 + [DoWindow(1, 16)];
    var ops := o3 + [DoAppend(1, b)];
    assert ops == [DoAllocate, DoAppend(1, a), DoWindow(1, 16), DoAppend(1, b)];
    WindowMisreadsRun(cfg, a, b);
    assert ops[..3] == o3 && o3[..2] == o2 && o2[..1] == o1;
    hide Run, Append, ZeroRow;
    assert History(cfg, o1, 1) == [];
    assert History(cfg, o2, 1) == [a];
    assert History(cfg, o3, 1) == [a];
  }

  lemma WindowMisreadsRun(cfg: Config, a: Row, b: Row)
    requires cfg.window == Some(Window(0, 0)) && cfg.maxPages > 0
    ensures var o1 := [DoAllocate];
            var o2 := o1 + [DoAppend(1, a)];
            var o3 := o2 + [DoWindow(1, 16)];
            && Append(cfg, Run(cfg, o1), 1, a).1.Ok? && Append(cfg, Run(cfg, o3), 1, b).1.Ok?
            && Run(cfg, o3 + [DoAppend(1, b)]) == Cache(map[1 := Sequence([ZeroRow(cfg.hiddenDim), b], 2)], [1], 1, 2)
  {
    hide Run, Append, ZeroRow;
    var o1 := [DoAllocate];
    var o2 := o1 + [DoAppend(1, a)];
    var o3 := o2 + [DoWindow(1, 16)];
    FirstAllocate(cfg);
    AppendToOnly(cfg, Sequence([], 0), 0, a);
    AppendToOnly(cfg, Sequence([], 1), 0, b);
    assert Push(cfg.hiddenDim, Sequence([], 0), a) == Sequence([a], 1);
    assert Push(cfg.hiddenDim, Sequence([], 1), b) == Sequence([ZeroRow(cfg.hiddenDim), b], 2) by {
      assert ZeroRows(cfg.hiddenDim, 1) == [ZeroRow(cfg.hiddenDim)];
    }
    hide Push;
    RunSnoc(cfg, o1, DoAppend(1, a));
    RunSnoc(cfg, o2, DoWindow(1, 16));
    assert map[1 := Sequence([a], 1)][1 := Sequence([], 1)] == map[1 := Sequence([], 1)];
    assert Run(cfg, o3) == Cache(map[1 := Sequence([], 1)], [1], 0, 2);
    RunSnoc(cfg, o3, DoAppend(1, b));
  }

  // ---------------------------------------------------------------- least recently used

  /** Operation `op` on cache `c` allocates, appends to or reads `id`. */
  predicate Uses(c: Cache, op: Op, id: nat) {
    (op.DoAllocate? && c.nextId == id) || ((op.DoAppend? || op.DoRead?) && op.id == id)
  }

  /** One more than the index of the last operation that used `id`, 0 for none. */
  function LastUse(cfg: Config, ops: seq<Op>, id: nat): (n: nat)
    ensures n <= |ops|
  {
    if ops == [] then 0
    else if Uses(Run(cfg, ops[..|ops| - 1]), ops[|ops| - 1], id) then |ops|
    else LastUse(cfg, ops[..|ops| - 1], id)
  }

  /** Every sequence an operation names is live at that time. */
  predicate LiveOnly(cfg: Config, ops: seq<Op>) {
    ops == [] ||
    (var before, op := ops[..|ops| - 1], ops[|ops| - 1];
     LiveOnly(cfg, before) && (op.DoAllocate? || op.DoReset? || op.id in Run(cfg, before).seqs))
  }

  /** Earlier in the list, less recently used. */
  ghost predicate Ordered(cfg: Config, ops: seq<Op>, order: seq<nat>) {
    forall i, j | 0 <= i < j < |order| :: LastUse(cfg, ops, order[i]) < LastUse(cfg, ops, order[j])
  }

  /** The access order holds exactly the live sequences, once each, least recently used first. */
  ghost predicate Recency(cfg: Config, ops: seq<Op>, c: Cache) {
    && (forall id :: id in c.order <==> id in c.seqs)
    && (forall id | id in c.seqs :: id < c.nextId)
    && Ordered(cfg, ops, c.order)
  }

  lemma {:induction false} WithoutOrdered(cfg: Config, ops: seq<Op>, order: seq<nat>, id: nat)
    requires Ordered(cfg, ops, order)
    ensures Ordered(cfg, ops, Without(order, id))
  {
    hide LastUse;
    if order != [] {
      WithoutOrdered(cfg, ops, order[1..], id);
      var r := Without(order[1..], id);
      forall j | 0 <= j < |r| ensures LastUse(cfg, ops, order[0]) < LastUse(cfg, ops, r[j]) {
        assert r[j] in order[1..];
      }
    }
  }

  /** An operation that uses `id` puts it last; one that uses nothing changes no order. */
  lemma UsedLast(cfg: Config, ops: seq<Op>, op: Op, order: seq<nat>, id: nat)
    requires Ordered(cfg, ops, order) && id !in order
    requires forall x | x in order || x == id :: Uses(Run(cfg, ops), op, x) <==> x == id
    ensures Ordered(cfg, ops + [op], order + [id])
  {
    forall x | x in order || x == id
      ensures LastUse(cfg, ops + [op], x) == if x == id then |ops| + 1 else LastUse(cfg, ops, x)
    {
      LastUseStep(cfg, ops, op, x);
    }
    hide LastUse;
  }

  lemma LastUseStep(cfg: Config, ops: seq<Op>, op: Op, x: nat)
    ensures LastUse(cfg, ops + [op], x) ==
            if Uses(Run(cfg, ops), op, x) then |ops| + 1 else LastUse(cfg, ops, x)
  {
    assert (ops + [op])[..|ops|] == ops;
  }

  lemma UnusedKeepsOrder(cfg: Config, ops: seq<Op>, op: Op, order: seq<nat>)
    requires Ordered(cfg, ops, order)
    requires forall x | x in order :: !Uses(Run(cfg, ops), op, x)
    ensures Ordered(cfg, ops + [op], order)
  {
    forall x | x in order ensures LastUse(cfg, ops + [op], x) == LastUse(cfg, ops, x) {
      LastUseStep(cfg, ops, op, x);
    }
    hide LastUse;
  }

  /** Removing the front of an ordered list, and every other copy of it. */
  lemma EvictKeepsRecency(cfg: Config, ops: seq<Op>, c: Cache)
    requires Recency(cfg, ops, c) && c.order != []
    ensures var (c', r) := EvictLru(c);
            Recency(cfg, ops, c') && c'.seqs == c.seqs - {c.order[0]} && c'.nextId == c.nextId && r.Ok?
  {
    hide LastUse, PagesOf;
    WithoutOrdered(cfg, ops, c.order[1..], c.order[0]);
  }

  lemma TakePageRecency(cfg: Config, ops: seq<Op>, c: Cache)
    requires Recency(cfg, ops, c)
    ensures var (c', r) := TakePage(cfg, c);
            Recency(cfg, ops, c') &&
            (c'.seqs == c.seqs || (c.order != [] && c'.seqs == c.seqs - {c.order[0]}))
  {
    hide EvictLru, Ordered;
    if c.order != [] {
      EvictKeepsRecency(cfg, ops, c);
    } else {
      assert EvictLru(c) == (c, Ok(())) by { EvictNone(c); }
    }
  }

  lemma EvictNone(c: Cache)
    requires c.order == []
    ensures EvictLru(c) == (c, Ok(()))
  {
  }

  /** After the touch of a live sequence, recency holds with this operation counted. */
  lemma TouchRecency(cfg: Config, ops: seq<Op>, op: Op, id: nat)
    requires Recency(cfg, ops, Run(cfg, ops)) && id in Run(cfg, ops).seqs
    requires (op.DoAppend? || op.DoRead?) && op.id == id
    ensures Recency(cfg, ops + [op], Touch(Run(cfg, ops), id))
    ensures Touch(Run(cfg, ops), id).seqs == Run(cfg, ops).seqs
  {
    hide Run, LastUse, Ordered;
    var c := Run(cfg, ops);
    WithoutOrdered(cfg, ops, c.order, id);
    UsedLast(cfg, ops, op, Without(c.order, id), id);
  }

  /** An append keeps recency, and evicts at most the front of the touched order. */
  lemma AppendRecency(cfg: Config, ops: seq<Op>, op: Op)
    requires Recency(cfg, ops, Run(cfg, ops)) && op.DoAppend? && op.id in Run(cfg, ops).seqs
    ensures var c := Run(cfg, ops);
            var c', front := Append(cfg, c, op.id, op.row).0, Touch(c, op.id).order[0];
            Recency(cfg, ops + [op], c') &&
            (c'.seqs.Keys == c.seqs.Keys || c'.seqs.Keys == c.seqs.Keys - {front})
  {
    hide Run, Ordered, TakePage, Push, NeedsPage;
    var c := Run(cfg, ops);
    var c1 := Touch(c, op.id);
    TouchRecency(cfg, ops, op, op.id);
    TakePageRecency(cfg, ops + [op], c1);
  }

  lemma StepRecency(cfg: Config, ops: seq<Op>, op: Op)
    requires Recency(cfg, ops, Run(cfg, ops))
    requires op.DoAllocate? || op.DoReset? || op.id in Run(cfg, ops).seqs
    ensures Recency(cfg, ops + [op], Step(cfg, Run(cfg, ops), op))
  {
    hide Run, LastUse, Append, PagesOf, PagesBeforeWindow, Ordered;
    var c := Run(cfg, ops);
    match op
    case DoAllocate => UsedLast(cfg, ops, op, c.order, c.nextId);
    case DoAppend(_, _) => AppendRecency(cfg, ops, op);
    case DoRead(id, _) => TouchRecency(cfg, ops, op, id);
    case DoFree(id) =>
      WithoutOrdered(cfg, ops, c.order, id);
      UnusedKeepsOrder(cfg, ops, op, Without(c.order, id));
    case DoWindow(_, _) => UnusedKeepsOrder(cfg, ops, op, c.order);
    case DoReset => EmptyOrdered(cfg, ops + [op]);
  }

  lemma EmptyOrdered(cfg: Config, ops: seq<Op>)
    ensures Ordered(cfg, ops, [])
  {
  }

  lemma {:induction false} RunRecency(cfg: Config, ops: seq<Op>)
    requires LiveOnly(cfg, ops)
    ensures Recency(cfg, ops, Run(cfg, ops))
  {
    hide Step, LastUse;
    if ops != [] {
      var before, op := ops[..|ops| - 1], ops[|ops| - 1];
      assert ops == before + [op];
      RunRecency(cfg, before);
      StepRecency(cfg, before, op);
    }
  }

  /**
   * When callers name only live sequences, the one an append evicts is the least recently
   * allocated, appended to or read; it is the appending one only when that is alone.
   */
  lemma EvictsLeastRecent(cfg: Config, ops: seq<Op>, op: Op, victim: nat, other: nat)
    requires LiveOnly(cfg, ops) && op.DoAppend? && op.id in Run(cfg, ops).seqs
    requires victim in Run(cfg, ops).seqs && victim !in Step(cfg, Run(cfg, ops), op).seqs
    requires other in Run(cfg, ops).seqs && other != victim
    ensures victim != op.id
    ensures other != op.id ==> LastUse(cfg, ops, victim) < LastUse(cfg, ops, other)
  {
    hide Run, LastUse, Append;
    var c := Run(cfg, ops);
    RunRecency(cfg, ops);
    AppendRecency(cfg, ops, op);
    var rest := Without(c.order, op.id);
    assert victim == (rest + [op.id])[0];
    WithoutOrdered(cfg, ops, c.order, op.id);
    assert other in c.order && victim in c.order;
    if other != op.id {
      assert other in rest;
    }
  }
}
