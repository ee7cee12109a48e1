/**
 * Draining in-flight requests before exit (core-runtime/src/shutdown.rs), as a step relation:
 * `track` is two steps, the check and the addition, and any number of calls interleave. The
 * counter is a 32-bit word and wraps.
 */
module Shutdown {
  import opened MachineWords

  datatype Phase = Running | Draining | Stopped

  datatype Outcome = Complete | Timeout(remaining: nat)

  /** Where a call of `initiate` stands: in the drain loop, before its last write, returned. */
  datatype Initiate = Waiting | Leaving(result: Outcome) | Returned(result: Outcome)

  /** Calls of `track` that passed the check are `pending`; guards not yet dropped are `live`. */
  datatype State = State(phase: Phase, inFlight: nat, pending: set<nat>, live: set<nat>, calls: map<nat, Initiate>)

  const START: State := State(Running, 0, {}, {}, map[])

  /** `readable` is whether the state lock could be read without waiting; `expired` whether the time is up. */
  datatype Action =
    | Check(id: nat, readable: bool)
    | Add(id: nat)
    | Drop(id: nat)
    | Begin(call: nat)
    | Observe(call: nat, expired: bool)
    | Leave(call: nat)

  predicate Enabled(s: State, a: Action)
  {
    match a
    case Check(id, _) => id !in s.pending && id !in s.live
    case Add(id) => id in s.pending
    case Drop(id) => id in s.live
    case Begin(k) => k !in s.calls
    case Observe(k, _) => k in s.calls && s.calls[k].Waiting?
    case Leave(k) => k in s.calls && s.calls[k].Leaving?
  }

  function Next(s: State, a: Action): State
    requires Enabled(s, a)
  {
    match a
    case Check(id, readable) =>
      if readable && s.phase == Running then s.(pending := s.pending + {id}) else s
    case Add(id) =>
      s.(inFlight := (s.inFlight + 1) % WORD32, pending := s.pending - {id}, live := s.live + {id})
    case Drop(id) =>
      s.(inFlight := (s.inFlight + WORD32 - 1) % WORD32, live := s.live - {id})
    case Begin(k) =>
      s.(phase := Draining, calls := s.calls[k := Waiting])
    case Observe(k, expired) =>
      if s.inFlight == 0 then s.(calls := s.calls[k := Leaving(Complete)])
      else if expired then s.(calls := s.calls[k := Leaving(Timeout(s.inFlight))])
      else s
    case Leave(k) =>
      s.(phase := Stopped, calls := s.calls[k := Returned(s.calls[k].result)])
  }

  predicate Runs(s: State, acts: seq<Action>)
    decreases |acts|
  {
    acts == [] || (Enabled(s, acts[0]) && Runs(Next(s, acts[0]), acts[1..]))
  }

  function After(s: State, acts: seq<Action>): State
    requires Runs(s, acts)
    decreases |acts|
  {
    if acts == [] then s else After(Next(s, acts[0]), acts[1..])
  }

  // ---------------------------------------------------------------- what every run keeps

  /**
   * The counter is the number of live guards; the state is Running until `initiate` is called, and
   * Draining only while some call has yet to return.
   */
  predicate Inv(s: State)
  {
    && s.inFlight == |s.live| % WORD32
    && s.pending !! s.live
    && (s.phase == Running <==> s.calls == map[])
    && (s.phase == Draining ==> exists k :: k in s.calls && !s.calls[k].Returned?)
  }

  lemma CountUp(n: nat)
    ensures (n % WORD32 + 1) % WORD32 == (n + 1) % WORD32
  {
  }

  lemma CountDown(n: nat)
    requires n > 0
    ensures (n % WORD32 + WORD32 - 1) % WORD32 == (n - 1) % WORD32
  {
  }

  lemma StepKeeps(s: State, a: Action)
    requires Inv(s) && Enabled(s, a)
    ensures Inv(Next(s, a))
  {
    match a
    case Add(id) =>
      CountUp(|s.live|);
      assert |s.live + {id}| == |s.live| + 1;
    case Drop(id) =>
      CountDown(|s.live|);
      assert |s.live - {id}| == |s.live| - 1;
    case Begin(k) =>
      assert k in Next(s, a).calls;
    case Observe(k, _) =>
      assert k in Next(s, a).calls && !Next(s, a).calls[k].Returned?;
    case Leave(k) =>
      assert k in Next(s, a).calls;
    case Check(_, _) =>
  }

  /** In every run from the start the counter equals the number of live guards, up to its width. */
  lemma {:induction false} RunKeeps(s: State, acts: seq<Action>)
    requires Inv(s) && Runs(s, acts)
    ensures Inv(After(s, acts))
    decreases |acts|
  {
    if acts != [] {
      StepKeeps(s, acts[0]);
      hide Next, Inv;
      RunKeeps(Next(s, acts[0]), acts[1..]);
    }
  }

  /**
   * Once draining has begun the state never is Running again, no `track` passes its check, and a
   * request in flight later is one that was in flight or half tracked by then.
   */
  lemma {:induction false} NoNewRequests(s: State, acts: seq<Action>)
    requires s.phase != Running && Runs(s, acts)
    ensures var s' := After(s, acts);
            s'.phase != Running && s'.pending <= s.pending && s'.live <= s.live + s.pending
    decreases |acts|
  {
    if acts != [] {
      var s1 := Next(s, acts[0]);
      assert s1.phase != Running && s1.pending <= s.pending && s1.live <= s.live + s.pending
             && s1.live + s1.pending <= s.live + s.pending;
      hide Next;
      NoNewRequests(s1, acts[1..]);
    }
  }

  /** No request is in flight, now or at any later point. */
  ghost predicate DrainedForGood(s: State)
  {
    forall acts :: Runs(s, acts) ==> After(s, acts).inFlight == 0 && After(s, acts).live == {}
  }

  /**
   * A `Complete` verdict is final exactly when no `track` is half done at the moment of the
   * observation (with fewer than 2^32 guards alive).
   */
  lemma CompleteIsFinal(s: State, call: nat, expired: bool)
    requires Inv(s) && Enabled(s, Observe(call, expired)) && |s.live| < WORD32
    ensures var s' := Next(s, Observe(call, expired));
            s'.calls[call] == Leaving(Complete) ==> (DrainedForGood(s') <==> s.pending == {})
  {
    var s' := Next(s, Observe(call, expired));
    if s'.calls[call] == Leaving(Complete) {
      assert s.live == {} by { assert |s.live| % WORD32 == |s.live|; }
      if s.pending == {} {
        forall acts | Runs(s', acts)
          ensures After(s', acts).inFlight == 0 && After(s', acts).live == {}
        {
          NoNewRequests(s', acts);
          RunKeeps(s', acts);
        }
      } else {
        var id :| id in s.pending;
        StartedAfterComplete(s', id);
      }
    }
  }

  /** A half-done `track` completes after the verdict and leaves a request in flight. */
  lemma StartedAfterComplete(s: State, id: nat)
    requires s.inFlight == 0 && id in s.pending
    ensures !DrainedForGood(s)
  {
    hide Runs, After;
    NoActions(Next(s, Add(id)));
    First(s, Add(id), []);
    assert After(s, [Add(id)] + []).inFlight == 1;
  }

  /** A run put together from its first action and the rest. */
  lemma First(s: State, a: Action, rest: seq<Action>)
    requires Enabled(s, a) && Runs(Next(s, a), rest)
    ensures Runs(s, [a] + rest) && After(s, [a] + rest) == After(Next(s, a), rest)
  {
    assert ([a] + rest)[1..] == rest;
  }

  /** A run in which it happens: the check, the whole of an `initiate`, and only then the addition. */
  lemma LateGuard()
    ensures var acts := [Check(0, true)] + ([Begin(0)] + ([Observe(0, false)] + ([Leave(0)] + ([Add(0)] + []))));
            && Runs(START, acts)
            && After(START, acts) == State(Stopped, 1, {}, {0}, map[0 := Returned(Complete)])
  {
    hide Runs, After;
    var s1 := State(Running, 0, {0}, {}, map[]);
    var s2 := State(Draining, 0, {0}, {}, map[0 := Waiting]);
    var s3 := State(Draining, 0, {0}, {}, map[0 := Leaving(Complete)]);
    var s4 := State(Stopped, 0, {0}, {}, map[0 := Returned(Complete)]);
    var s5 := State(Stopped, 1, {}, {0}, map[0 := Returned(Complete)]);
    assert Next(START, Check(0, true)) == s1;
    assert Next(s1, Begin(0)) == s2;
    assert Next(s2, Observe(0, false)) == s3;
    assert Next(s3, Leave(0)) == s4;
    assert Next(s4, Add(0)) == s5;
    hide Next;
    NoActions(s5);
    First(s4, Add(0), []);
    First(s3, Leave(0), [Add(0)] + []);
    First(s2, Observe(0, false), [Leave(0)] + ([Add(0)] + []));
    First(s1, Begin(0), [Observe(0, false)] + ([Leave(0)] + ([Add(0)] + [])));
    First(START, Check(0, true), [Begin(0)] + ([Observe(0, false)] + ([Leave(0)] + ([Add(0)] + []))));
  }

  lemma NoActions(s: State)
    ensures Runs(s, []) && After(s, []) == s
  {
  }

  /** When every call of `initiate` has returned, and there was one, the state is Stopped. */
  lemma ReturnedMeansStopped(acts: seq<Action>)
    requires Runs(START, acts)
    ensures var s := After(START, acts);
            s.calls != map[] && (forall k | k in s.calls :: s.calls[k].Returned?) ==> s.phase == Stopped
  {
    RunKeeps(START, acts);
  }

  /** A timeout reports how many requests were in flight, never zero. */
  lemma TimeoutCounts(s: State, call: nat, expired: bool)
    requires Inv(s) && Enabled(s, Observe(call, expired)) && |s.live| < WORD32
    ensures var r := Next(s, Observe(call, expired)).calls[call];
            && (r == Leaving(Complete) <==> s.live == {})
            && (r.Leaving? && r.result.Timeout? <==> expired && s.live != {})
            && (r.Leaving? && r.result.Timeout? ==> r.result.remaining == |s.live| > 0)
            && (r.Waiting? <==> !expired && s.live != {})
  {
    assert |s.live| % WORD32 == |s.live|;
  }

  /** While Running, a `track` that can read the state gets its guard, and dropping it undoes it. */
  lemma TrackAndDrop(s: State, id: nat)
    requires Inv(s) && s.phase == Running && id !in s.pending && id !in s.live
    ensures var acts := [Check(id, true), Add(id)];
            Runs(s, acts) && After(s, acts).live == s.live + {id} && After(s, acts).inFlight == (|s.live| + 1) % WORD32
    ensures var acts := [Check(id, true), Add(id), Drop(id)];
            Runs(s, acts) && After(s, acts) == s
  {
    hide Runs, After;
    var s1 := Next(s, Check(id, true));
    var s2 := Next(s1, Add(id));
    assert s2.live - {id} == s.live && s2.pending == s.pending;
    CountUp(|s.live|);
    CountDown(|s.live| + 1);
    assert Next(s2, Drop(id)) == s;
    NoActions(s);
    NoActions(s2);
    First(s2, Drop(id), []);
    First(s1, Add(id), []);
    First(s1, Add(id), [Drop(id)] + []);
    First(s, Check(id, true), [Add(id)] + []);
    First(s, Check(id, true), [Add(id)] + ([Drop(id)] + []));
    assert [Check(id, true)] + ([Add(id)] + []) == [Check(id, true), Add(id)];
    assert [Check(id, true)] + ([Add(id)] + ([Drop(id)] + [])) == [Check(id, true), Add(id), Drop(id)];
  }

  /** A call of `initiate` sets Draining and later Stopped, whatever the state was; nothing else changes it. */
  lemma PhaseExactly(s: State, a: Action)
    requires Enabled(s, a)
    ensures Next(s, a).phase == if a.Begin? then Draining else if a.Leave? then Stopped else s.phase
  {
  }

  /** A `track` passes its check exactly if it can read the state at once and that is Running. */
  lemma PassesCheck(s: State, id: nat, readable: bool)
    requires Enabled(s, Check(id, readable))
    ensures var s' := Next(s, Check(id, readable));
            && s'.pending == (if readable && s.phase == Running then s.pending + {id} else s.pending)
            && s' == s.(pending := s'.pending)
  {
  }

  /** What the drain loop of a call saw when it left: no request, or so many and no time. */
  predicate Saw(s: State, a: Action, call: nat, result: Outcome)
  {
    match result
    case Complete => s.inFlight == 0 && a.Observe? && a.call == call
    case Timeout(n) => s.inFlight == n > 0 && a == Observe(call, true)
  }

  lemma StepResult(s: State, a: Action, call: nat)
    requires Enabled(s, a) && call in Next(s, a).calls && !Next(s, a).calls[call].Waiting?
    ensures call in s.calls
    ensures s.calls[call].Waiting? ==> Saw(s, a, call, Next(s, a).calls[call].result)
    ensures !s.calls[call].Waiting? ==> Next(s, a).calls[call].result == s.calls[call].result
  {
  }

  /** In every run from the start a call returns what its drain loop saw at one moment of it. */
  lemma {:induction false} ReturnsWhatItSaw(s: State, acts: seq<Action>, call: nat) returns (i: nat)
    requires Runs(s, acts) && (call in s.calls ==> s.calls[call].Waiting?)
    requires call in After(s, acts).calls && After(s, acts).calls[call].Returned?
    ensures i < |acts| && Runs(s, acts[..i]) && Saw(After(s, acts[..i]), acts[i], call, After(s, acts).calls[call].result)
    decreases |acts|
  {
    hide Next, Saw, Enabled;
    var s1 := Next(s, acts[0]);
    if call in s1.calls && !s1.calls[call].Waiting? {
      i := 0;
      StepResult(s, acts[0], call);
      ResultKept(s1, acts[1..], call);
      assert acts[..0] == [];
    } else {
      i := ReturnsWhatItSaw(s1, acts[1..], call);
      assert acts[..i + 1][1..] == acts[1..][..i];
      i := i + 1;
    }
  }

  lemma CallsStay(s: State, a: Action, call: nat)
    requires Enabled(s, a) && call in s.calls && !s.calls[call].Waiting?
    ensures call in Next(s, a).calls && !Next(s, a).calls[call].Waiting?
  {
  }

  lemma {:induction false} ResultKept(s: State, acts: seq<Action>, call: nat)
    requires Runs(s, acts) && call in s.calls && !s.calls[call].Waiting?
    ensures call in After(s, acts).calls && !After(s, acts).calls[call].Waiting?
    ensures After(s, acts).calls[call].result == s.calls[call].result
    decreases |acts|
  {
    hide Next, Enabled;
    if acts != [] {
      CallsStay(s, acts[0], call);
      StepResult(s, acts[0], call);
      ResultKept(Next(s, acts[0]), acts[1..], call);
    }
  }
}
