/**
 * The lock-free bump allocator (core-runtime/src/memory/arena.rs), as a step relation over the
 * loads and compare-exchanges of any number of threads. Machine words are 64 bits and wrap.
 */
module Arena {
  import opened MachineWords

  // ---------------------------------------------------------------- rounding up to an alignment

  function Pow2(k: nat): (p: nat)
    ensures p >= 1
  {
    if k == 0 then 1 else 2 * Pow2(k - 1)
  }

  /** Bitwise `x & !m`, bit by bit. */
  function AndNot(x: nat, m: nat): (r: nat)
    ensures r <= x <= r + m
  {
    if x == 0 then 0 else (if m % 2 == 1 then 0 else x % 2) + 2 * AndNot(x / 2, m / 2)
  }

  /** The remainder, kept apart from the solver's division by a variable. */
  function Rem(x: nat, d: nat): (r: nat)
    requires d > 0
    ensures r < d && r <= x
  {
    x % d
  }

  lemma RemUnique(x: nat, d: nat, q: nat, r: nat)
    requires r < d && x == r + q * d
    ensures Rem(x, d) == r
  {
    var n := x / d - q;
    assert n * d == r - x % d;
    assert n >= 1 ==> n * d >= d;
    assert n <= -1 ==> n * d <= (-1) * d;
  }

  lemma HalveRem(x: nat, p: nat)
    requires p >= 1
    ensures Rem(x, 2 * p) == 2 * Rem(x / 2, p) + x % 2
  {
    var q, r := (x / 2) / p, Rem(x / 2, p);
    assert x / 2 == r + q * p;
    assert x == (2 * r + x % 2) + q * (2 * p);
    RemUnique(x, 2 * p, q, 2 * r + x % 2);
  }

  lemma ClearOneBit(x: nat, p: nat)
    requires p >= 1
    ensures AndNot(x, 2 * p - 1) == 2 * AndNot(x / 2, p - 1)
  {
    assert (2 * p - 1) / 2 == p - 1 && (2 * p - 1) % 2 == 1;
  }

  /** Clearing the low bits of a power of two rounds down to its multiple. */
  lemma {:induction false} ClearLowBits(x: nat, k: nat)
    ensures AndNot(x, Pow2(k) - 1) == x - Rem(x, Pow2(k))
    decreases k
  {
    hide AndNot, Rem;
    if k == 0 {
      ClearNothing(x);
    } else {
      var p := Pow2(k - 1);
      ClearOneBit(x, p);
      HalveRem(x, p);
      ClearLowBits(x / 2, k - 1);
    }
  }

  lemma {:induction false} ClearNothing(x: nat)
    ensures AndNot(x, 0) == x
  {
    if x > 0 {
      ClearNothing(x / 2);
    }
  }

  lemma MultipleBelow(x: nat, d: nat)
    requires d > 0
    ensures Rem(x - Rem(x, d), d) == 0
  {
    var q := x / d;
    assert x - Rem(x, d) == q * d;
    RemUnique(q * d, d, q, 0);
  }

  // ---------------------------------------------------------------- one request

  datatype Request = Request(size: nat, align: nat)

  /** What the caller may pass: a size and a positive alignment that fit a word. */
  predicate Callable(r: Request) { r.size < WORD64 && 1 <= r.align < WORD64 }

  function Aligned(current: nat, r: Request): nat
    requires r.align >= 1
  {
    AndNot((current + r.align - 1) % WORD64, r.align - 1)
  }

  function NewOffset(current: nat, r: Request): nat
    requires r.align >= 1
  {
    (Aligned(current, r) + r.size) % WORD64
  }

  /** The two additions stay within a word. */
  predicate NoWrap(current: nat, r: Request)
    requires r.align >= 1
  {
    current + r.align - 1 < WORD64 && Aligned(current, r) + r.size < WORD64
  }

  /** A range that is granted lies between the old offset and the capacity exactly when nothing wraps. */
  lemma GrantSound(current: nat, r: Request, capacity: nat)
    requires Callable(r) && current <= capacity < WORD64 && NewOffset(current, r) <= capacity
    ensures NoWrap(current, r) <==> current <= Aligned(current, r) && Aligned(current, r) + r.size <= capacity
    ensures NoWrap(current, r) ==> NewOffset(current, r) == Aligned(current, r) + r.size
  {
  }

  /** A power-of-two alignment divides the start of the range. */
  lemma StartAligned(current: nat, r: Request, k: nat)
    requires r.align == Pow2(k)
    ensures Rem(Aligned(current, r), r.align) == 0
  {
    hide AndNot, Rem, Pow2;
    var x := (current + r.align - 1) % WORD64;
    ClearLowBits(x, k);
    MultipleBelow(x, r.align);
  }

  /** No earlier start would do: the range begins at the least multiple of the alignment from the offset on. */
  lemma StartLeast(current: nat, r: Request, k: nat, start: nat)
    requires r.align == Pow2(k) && current + r.align - 1 < WORD64
    requires start >= current && Rem(start, r.align) == 0
    ensures Aligned(current, r) <= start
  {
    hide AndNot, Pow2;
    var x := current + r.align - 1;
    ClearLowBits(x, k);
    MultiplesApart(start, x, r.align);
  }

  lemma MultiplesApart(start: nat, x: nat, d: nat)
    requires d > 0 && Rem(start, d) == 0 && start + d > x
    ensures x - Rem(x, d) <= start
  {
    var p, q := start / d, x / d;
    assert start == p * d && x - Rem(x, d) == q * d;
    assert p + 1 <= q ==> (p + 1) * d <= q * d;
    assert (p + 1) * d == p * d + d;
  }

  // ---------------------------------------------------------------- threads

  /** A thread in the loop: before its load, or between the load and the compare-exchange. */
  datatype Thread = Ready(request: Request) | Loaded(request: Request, current: nat)

  datatype Grant = Grant(start: nat, request: Request)

  /** `grants` are the ranges handed out since the last reset. */
  datatype State = State(offset: nat, threads: map<nat, Thread>, grants: seq<Grant>)

  const START: State := State(0, map[], [])

  /** The compare-exchange is weak: it may fail although the offset matches. */
  datatype Action =
    | Call(id: nat, request: Request)
    | Load(id: nat)
    | Exchange(id: nat, spurious: bool)
    | Reset

  predicate Enabled(s: State, a: Action)
  {
    match a
    case Call(id, r) => id !in s.threads && Callable(r)
    case Load(id) => id in s.threads && s.threads[id].Ready?
    case Exchange(id, _) => id in s.threads && s.threads[id].Loaded? && s.threads[id].request.align >= 1
    case Reset => true
  }

  function Next(s: State, a: Action, capacity: nat): State
    requires Enabled(s, a)
  {
    match a
    case Call(id, r) => s.(threads := s.threads[id := Ready(r)])
    case Load(id) => s.(threads := s.threads[id := Loaded(s.threads[id].request, s.offset)])
    case Exchange(id, spurious) =>
      var Loaded(r, current) := s.threads[id];
      var next := NewOffset(current, r);
      if next > capacity then s.(threads := s.threads - {id})
      else if s.offset == current && !spurious then
        State(next, s.threads - {id}, s.grants + [Grant(Aligned(current, r), r)])
      else s.(threads := s.threads[id := Ready(r)])
    case Reset => s.(offset := 0, grants := [])
  }

  predicate Runs(s: State, acts: seq<Action>, capacity: nat)
    decreases |acts|
  {
    acts == [] || (Enabled(s, acts[0]) && Runs(Next(s, acts[0], capacity), acts[1..], capacity))
  }

  function After(s: State, acts: seq<Action>, capacity: nat): State
    requires Runs(s, acts, capacity)
    decreases |acts|
  {
    if acts == [] then s else After(Next(s, acts[0], capacity), acts[1..], capacity)
  }

  /** The action grants a range. */
  predicate Grants(s: State, a: Action, capacity: nat)
    requires Enabled(s, a)
  {
    && a.Exchange? && !a.spurious && s.offset == s.threads[a.id].current
    && NewOffset(s.threads[a.id].current, s.threads[a.id].request) <= capacity
  }

  /** Neither addition wraps in any grant of the run; what is refused may be of any size. */
  predicate NoGrantWraps(s: State, acts: seq<Action>, capacity: nat)
    requires Runs(s, acts, capacity)
    decreases |acts|
  {
    acts == []
    || ((Grants(s, acts[0], capacity) ==> NoWrap(s.threads[acts[0].id].current, s.threads[acts[0].id].request))
        && NoGrantWraps(Next(s, acts[0], capacity), acts[1..], capacity))
  }

  predicate Disjoint(a: Grant, b: Grant)
  {
    a.start + a.request.size <= b.start || b.start + b.request.size <= a.start
  }

  /** Ranges are pairwise disjoint, below the offset, and start at their alignment. */
  ghost predicate Inv(s: State, capacity: nat)
  {
    && s.offset <= capacity
    && (forall id | id in s.threads :: ThreadOk(s.threads[id], capacity))
    && (forall i | 0 <= i < |s.grants| :: GrantOk(s.grants[i], s.offset))
    && (forall i, j | 0 <= i < j < |s.grants| :: Disjoint(s.grants[i], s.grants[j]))
  }

  predicate ThreadOk(t: Thread, capacity: nat)
  {
    Callable(t.request) && (t.Loaded? ==> t.current <= capacity)
  }

  ghost predicate GrantOk(g: Grant, offset: nat)
  {
    && g.start + g.request.size <= offset
    && forall k | g.request.align == Pow2(k) :: Rem(g.start, Pow2(k)) == 0
  }

  lemma ExchangeGrant(current: nat, r: Request, capacity: nat)
    requires Callable(r) && NoWrap(current, r) && current <= capacity < WORD64 && NewOffset(current, r) <= capacity
    ensures current <= Aligned(current, r) && GrantOk(Grant(Aligned(current, r), r), NewOffset(current, r))
    ensures NewOffset(current, r) == Aligned(current, r) + r.size
  {
    GrantSound(current, r, capacity);
    hide AndNot, Pow2, Rem;
    forall k | r.align == Pow2(k)
      ensures Rem(Aligned(current, r), Pow2(k)) == 0
    {
      StartAligned(current, r, k);
    }
  }

  lemma StepKeeps(s: State, a: Action, capacity: nat)
    requires Inv(s, capacity) && Enabled(s, a) && capacity < WORD64
    requires Grants(s, a, capacity) ==> NoWrap(s.threads[a.id].current, s.threads[a.id].request)
    ensures Inv(Next(s, a, capacity), capacity)
  {
    hide Aligned, NewOffset, Pow2, NoWrap, Callable;
    if Grants(s, a, capacity) {
      assert ThreadOk(s.threads[a.id], capacity);
      ExchangeGrant(s.threads[a.id].current, s.threads[a.id].request, capacity);
    }
  }

  /**
   * In every interleaving whose grants do not wrap, between resets: granted ranges are inside the
   * capacity, pairwise disjoint, and start at a multiple of a power-of-two alignment.
   */
  lemma {:induction false} GrantsDisjoint(s: State, acts: seq<Action>, capacity: nat)
    requires Inv(s, capacity) && Runs(s, acts, capacity) && NoGrantWraps(s, acts, capacity) && capacity < WORD64
    ensures Inv(After(s, acts, capacity), capacity)
    decreases |acts|
  {
    hide Next, Inv, NoWrap, Grants;
    if acts != [] {
      StepKeeps(s, acts[0], capacity);
      GrantsDisjoint(Next(s, acts[0], capacity), acts[1..], capacity);
    }
  }

  /** A condition callers can meet: the request and the capacity together stay within a word. */
  predicate Fits(r: Request, capacity: nat) { capacity + r.align - 1 + r.size < WORD64 }

  ghost predicate AllFit(s: State, acts: seq<Action>, capacity: nat)
  {
    && (forall i | 0 <= i < |acts| :: acts[i].Call? ==> Fits(acts[i].request, capacity))
    && (forall id | id in s.threads :: Fits(s.threads[id].request, capacity))
  }

  lemma FitsNeverWraps(current: nat, r: Request, capacity: nat)
    requires Callable(r) && Fits(r, capacity) && current <= capacity
    ensures NoWrap(current, r)
  {
  }

  lemma AllFitStep(s: State, acts: seq<Action>, capacity: nat)
    requires acts != [] && Enabled(s, acts[0]) && AllFit(s, acts, capacity)
    ensures AllFit(Next(s, acts[0], capacity), acts[1..], capacity)
  {
    hide Fits, NewOffset, Aligned;
    assert acts[0].Call? ==> Fits(acts[0].request, capacity);
  }

  lemma {:induction false} AllFitNeverWraps(s: State, acts: seq<Action>, capacity: nat)
    requires Inv(s, capacity) && Runs(s, acts, capacity) && AllFit(s, acts, capacity) && capacity < WORD64
    ensures NoGrantWraps(s, acts, capacity)
    decreases |acts|
  {
    hide Next, NoWrap, Fits;
    if acts != [] {
      var a := acts[0];
      if Grants(s, a, capacity) {
        assert ThreadOk(s.threads[a.id], capacity);
        FitsNeverWraps(s.threads[a.id].current, s.threads[a.id].request, capacity);
      }
      StepKeeps(s, a, capacity);
      AllFitStep(s, acts, capacity);
      AllFitNeverWraps(Next(s, a, capacity), acts[1..], capacity);
    }
  }

  // ---------------------------------------------------------------- when the additions wrap

  /** One thread alone: call, load, exchange. */
  function Alloc(s: State, id: nat, r: Request, capacity: nat): State
    requires id !in s.threads && Callable(r)
  {
    var s1 := Next(s, Call(id, r), capacity);
    var s2 := Next(s1, Load(id), capacity);
    Next(s2, Exchange(id, false), capacity)
  }

  /**
   * Alone, a request is granted exactly when its end, computed in a word, is within the capacity;
   * if nothing wraps that is its true end. Refused, it changes nothing.
   */
  lemma AllocGrants(s: State, id: nat, r: Request, capacity: nat)
    requires id !in s.threads && Callable(r)
    ensures Alloc(s, id, r, capacity) ==
            if NewOffset(s.offset, r) > capacity then s
            else State(NewOffset(s.offset, r), s.threads, s.grants + [Grant(Aligned(s.offset, r), r)])
    ensures NoWrap(s.offset, r) ==> (NewOffset(s.offset, r) <= capacity <==> Aligned(s.offset, r) + r.size <= capacity)
  {
    hide Aligned;
    assert s.threads[id := Ready(r)][id := Loaded(r, s.offset)] - {id} == s.threads;
  }

  /**
   * A thread gives up only with its range, or when the end it computed exceeds the capacity; one that
   * lost the exchange tries again with the same request.
   */
  lemma LeavesExactly(s: State, a: Action, id: nat, capacity: nat)
    requires Enabled(s, a) && id in s.threads
    ensures var s' := Next(s, a, capacity);
            && (id !in s'.threads <==>
                  && a.Exchange? && a.id == id
                  && (NewOffset(s.threads[id].current, s.threads[id].request) > capacity
                      || (s.offset == s.threads[id].current && !a.spurious)))
            && (id in s'.threads ==> s'.threads[id].request == s.threads[id].request)
            && (id !in s'.threads && NewOffset(s.threads[id].current, s.threads[id].request) <= capacity ==>
                  s'.grants == s.grants + [Grant(Aligned(s.threads[id].current, s.threads[id].request), s.threads[id].request)])
  {
    hide NewOffset, Aligned;
  }

  /** After a reset the arena serves as a new one does; threads in their loop stay there. */
  lemma ResetServesAnew(s: State, id: nat, r: Request, capacity: nat)
    requires id !in s.threads && Callable(r)
    ensures var s' := Next(s, Reset, capacity);
            s'.threads == s.threads && Alloc(s', id, r, capacity) == Alloc(State(0, s.threads, []), id, r, capacity)
  {
    hide Alloc;
  }

  /** Without the size condition grants can overlap: the second one here wraps the offset back to zero. */
  lemma WrapOverlaps(capacity: nat)
    requires 8 <= capacity < WORD64
    ensures var small, huge := Request(8, 1), Request(WORD64 - 8, 1);
            var s := Alloc(Alloc(Alloc(START, 0, small, capacity), 0, huge, capacity), 0, small, capacity);
            |s.grants| == 3 && !Disjoint(s.grants[0], s.grants[2]) && !NoWrap(8, huge)
  {
    hide Alloc;
    var small, huge := Request(8, 1), Request(WORD64 - 8, 1);
    ByteAligned(0, small);
    ByteAligned(8, huge);
    AllocGrants(START, 0, small, capacity);
    var s1 := Alloc(START, 0, small, capacity);
    AllocGrants(s1, 0, huge, capacity);
    var s2 := Alloc(s1, 0, huge, capacity);
    AllocGrants(s2, 0, small, capacity);
  }

  lemma ByteAligned(current: nat, r: Request)
    requires r.align == 1 && current < WORD64
    ensures Aligned(current, r) == current && NewOffset(current, r) == (current + r.size) % WORD64
  {
    hide AndNot;
    ClearNothing(current);
  }
}
