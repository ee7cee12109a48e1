/**
 * Reserving GPU memory by adding first and undoing on failure (core-runtime/src/memory/gpu.rs),
 * with any number of reservations in progress at once. The counter is a 64-bit word and wraps.
 */
module GpuMemory {
  import opened MachineWords

  type Size = n: nat | n < WORD64

  /** Sizes granted and not yet released; sizes refused but not yet subtracted again. */
  datatype State = State(counter: nat, granted: seq<Size>, undoing: seq<Size>)

  const START: State := State(0, [], [])

  datatype Action = Reserve(bytes: Size) | Undo(index: nat) | Release(index: nat)

  predicate Enabled(s: State, a: Action)
  {
    match a
    case Reserve(_) => true
    case Undo(i) => i < |s.undoing|
    case Release(i) => i < |s.granted|
  }

  function Add(x: nat, y: nat): nat { (x + y) % WORD64 }

  function Sub(x: nat, y: Size): nat { (x + WORD64 - y) % WORD64 }

  function Without(q: seq<Size>, i: nat): seq<Size>
    requires i < |q|
  {
    q[..i] + q[i + 1..]
  }

  /** One atomic operation on the counter; the comparison uses the value it returned. */
  function Next(s: State, a: Action, max: nat): State
    requires Enabled(s, a)
  {
    match a
    case Reserve(bytes) =>
      var total := Add(s.counter, bytes);
      if total > max then s.(counter := total, undoing := s.undoing + [bytes])
      else s.(counter := total, granted := s.granted + [bytes])
    case Undo(i) => s.(counter := Sub(s.counter, s.undoing[i]), undoing := Without(s.undoing, i))
    case Release(i) => s.(counter := Sub(s.counter, s.granted[i]), granted := Without(s.granted, i))
  }

  function Total(q: seq<Size>): nat
  {
    if q == [] then 0 else Total(q[..|q| - 1]) + q[|q| - 1]
  }

  function Held(s: State): nat { Total(s.granted) + Total(s.undoing) }

  predicate Runs(s: State, acts: seq<Action>, max: nat)
    decreases |acts|
  {
    acts == [] || (Enabled(s, acts[0]) && Runs(Next(s, acts[0], max), acts[1..], max))
  }

  function After(s: State, acts: seq<Action>, max: nat): State
    requires Runs(s, acts, max)
    decreases |acts|
  {
    if acts == [] then s else After(Next(s, acts[0], max), acts[1..], max)
  }

  lemma TotalPush(q: seq<Size>, n: Size)
    ensures Total(q + [n]) == Total(q) + n
  {
    assert (q + [n])[..|q|] == q;
  }

  lemma {:induction false} TotalWithout(q: seq<Size>, i: nat)
    requires i < |q|
    ensures Total(Without(q, i)) + q[i] == Total(q)
  {
    var last := |q| - 1;
    if i == last {
      assert Without(q, i) == q[..last];
    } else {
      TotalWithout(q[..last], i);
      assert Without(q, i) == Without(q[..last], i) + [q[last]];
      TotalPush(Without(q[..last], i), q[last]);
    }
  }

  lemma AddMod(x: nat, y: nat)
    ensures (x % WORD64 + y) % WORD64 == (x + y) % WORD64
  {
  }

  lemma SubMod(x: nat, y: Size)
    requires y <= x
    ensures Sub(x % WORD64, y) == (x - y) % WORD64
  {
  }

  /** The bytes a call adds to what is granted or awaiting its undo. */
  lemma HeldChange(s: State, a: Action, max: nat)
    requires Enabled(s, a)
    ensures match a
            case Reserve(bytes) => Held(Next(s, a, max)) == Held(s) + bytes
            case Undo(i) => Held(Next(s, a, max)) + s.undoing[i] == Held(s)
            case Release(i) => Held(Next(s, a, max)) + s.granted[i] == Held(s)
  {
    match a
    case Reserve(bytes) =>
      TotalPush(s.granted, bytes);
      TotalPush(s.undoing, bytes);
    case Undo(i) => TotalWithout(s.undoing, i);
    case Release(i) => TotalWithout(s.granted, i);
  }

  lemma StepConserves(s: State, a: Action, max: nat)
    requires s.counter == Held(s) % WORD64 && Enabled(s, a)
    ensures Next(s, a, max).counter == Held(Next(s, a, max)) % WORD64
  {
    hide Held;
    HeldChange(s, a, max);
    match a
    case Reserve(bytes) => AddMod(Held(s), bytes);
    case Undo(i) => SubMod(Held(s), s.undoing[i]);
    case Release(i) => SubMod(Held(s), s.granted[i]);
  }

  /** In every run the counter is the bytes granted plus the bytes awaiting undo, up to its width. */
  lemma {:induction false} Conserved(s: State, acts: seq<Action>, max: nat)
    requires s.counter == Held(s) % WORD64 && Runs(s, acts, max)
    ensures After(s, acts, max).counter == Held(After(s, acts, max)) % WORD64
    decreases |acts|
  {
    hide Next, Held;
    if acts != [] {
      StepConserves(s, acts[0], max);
      Conserved(Next(s, acts[0], max), acts[1..], max);
    }
  }

  // ---------------------------------------------------------------- the limit

  /** No reservation of the run overflows the counter. */
  predicate NoOverflow(s: State, acts: seq<Action>, max: nat)
    requires Runs(s, acts, max)
    decreases |acts|
  {
    acts == []
    || ((acts[0].Reserve? ==> s.counter + acts[0].bytes < WORD64)
        && NoOverflow(Next(s, acts[0], max), acts[1..], max))
  }

  /** The counter is exact, and what is granted fits. */
  predicate Inv(s: State, max: nat) { s.counter == Held(s) && Total(s.granted) <= max }

  /** A reservation keeps the counter exact if and only if it does not overflow it. */
  lemma ReserveExact(s: State, bytes: Size, max: nat)
    requires s.counter == Held(s)
    ensures var s' := Next(s, Reserve(bytes), max);
            s'.counter == Held(s') <==> s.counter + bytes < WORD64
  {
    HeldChange(s, Reserve(bytes), max);
  }

  lemma NoWrap(x: nat, y: nat)
    requires x + y < WORD64
    ensures Add(x, y) == x + y
  {
  }

  lemma NoBorrow(x: nat, y: Size)
    requires y <= x < WORD64
    ensures Sub(x, y) == x - y
  {
  }

  lemma StepKeeps(s: State, a: Action, max: nat)
    requires Inv(s, max) && Enabled(s, a) && s.counter < WORD64
    requires a.Reserve? ==> s.counter + a.bytes < WORD64
    ensures Inv(Next(s, a, max), max) && Next(s, a, max).counter < WORD64
  {
    hide Total, Sub, Add, Without;
    HeldChange(s, a, max);
    match a
    case Reserve(bytes) =>
      NoWrap(s.counter, bytes);
      TotalPush(s.granted, bytes);
    case Undo(i) =>
      NoBorrow(s.counter, s.undoing[i]);
    case Release(i) =>
      NoBorrow(s.counter, s.granted[i]);
      TotalWithout(s.granted, i);
  }

  /** Short of an overflow a reservation is granted exactly when it fits beside all bytes counted. */
  lemma ReserveGrants(s: State, bytes: Size, max: nat)
    requires Inv(s, max) && s.counter + bytes < WORD64
    ensures var s' := Next(s, Reserve(bytes), max);
            if Held(s) + bytes <= max then s'.granted == s.granted + [bytes] && s'.undoing == s.undoing
            else s'.granted == s.granted && s'.undoing == s.undoing + [bytes]
  {
    NoWrap(s.counter, bytes);
  }

  /** Undoing a refused reservation puts the counter back where it was. */
  lemma RefusalUndone(s: State, bytes: Size, max: nat)
    requires Inv(s, max) && s.counter + bytes < WORD64 && Held(s) + bytes > max
    ensures Next(Next(s, Reserve(bytes), max), Undo(|s.undoing|), max) == s
  {
    NoWrap(s.counter, bytes);
    NoBorrow(s.counter + bytes, bytes);
    assert Without(s.undoing + [bytes], |s.undoing|) == s.undoing;
  }

  /** In a run without overflow the granted bytes never exceed the limit, whatever the counter shows. */
  lemma {:induction false} WithinLimit(s: State, acts: seq<Action>, max: nat)
    requires Inv(s, max) && s.counter < WORD64 && Runs(s, acts, max) && NoOverflow(s, acts, max)
    ensures Inv(After(s, acts, max), max)
    decreases |acts|
  {
    hide Next, Inv;
    if acts != [] {
      StepKeeps(s, acts[0], max);
      WithinLimit(Next(s, acts[0], max), acts[1..], max);
    }
  }

  /** With an overflow it can: one byte and then a size that wraps the counter to zero are both granted. */
  lemma OverflowGrantsTooMuch(max: nat)
    requires 1 <= max < WORD64
    ensures var s := Next(Next(START, Reserve(1), max), Reserve(WORD64 - 1), max);
            s.counter == 0 && Total(s.granted) == WORD64 > max
  {
    var s1 := Next(START, Reserve(1), max);
    TotalPush([], 1);
    TotalPush(s1.granted, WORD64 - 1);
  }
}
