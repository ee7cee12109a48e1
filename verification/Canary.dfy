/**
 * The canary rollout controller (core-runtime/src/deployment/canary.rs) and the collector behind it
 * (core-runtime/src/deployment/metrics.rs). Clock readings and the statistical comparison of the two
 * snapshots are parameters of an analysis.
 */
module Canary {
  import opened MachineWords
  import opened Thresholds

  const MAX_SAMPLES: nat := 10000

  datatype Phase = Initializing | Progressing | Promoting | RollingBack | Complete | Failed

  datatype Decision =
    | InsufficientData
    | Continue
    | AdvanceWeight(weight: nat)
    | Promote
    | Rollback(cyclesReached: bool)
    | Done
    | TimedOut

  predicate Terminal(d: Decision) { d.Promote? || d.Rollback? || d.Done? || d.TimedOut? }

  datatype Config = Config(limits: Limits, steps: seq<nat>, maxDuration: nat, maxCycles: nat)

  // ---------------------------------------------------------------- samples

  /** The latest latencies, and counts over the whole window. */
  datatype Samples = Samples(latencies: seq<nat>, successes: nat, errors: nat)

  const NO_SAMPLES: Samples := Samples([], 0, 0)

  function Recorded(c: Samples, latency: nat, ok: bool): Samples
  {
    var kept := if |c.latencies| >= MAX_SAMPLES then c.latencies[1..] else c.latencies;
    Samples(kept + [latency], if ok then c.successes + 1 else c.successes, if ok then c.errors else c.errors + 1)
  }

  class MetricsCollector {
    var latencies: seq<nat>
    var successCount: nat
    var errorCount: nat

    function Abs(): Samples
      reads this
    {
      Samples(latencies, successCount, errorCount)
    }

    constructor ()
      ensures Abs() == NO_SAMPLES
    {
      latencies, successCount, errorCount := [], 0, 0;
    }

    method PushLatency(latency: nat)
      modifies this`latencies
      ensures latencies == Recorded(old(Abs()), latency, true).latencies
    {
      if |latencies| >= MAX_SAMPLES {
        latencies := latencies[1..];
      }
      latencies := latencies + [latency];
    }

    method RecordSuccess(latency: nat)
      modifies this
      ensures Abs() == Recorded(old(Abs()), latency, true)
    {
      successCount := successCount + 1;
      PushLatency(latency);
    }

    method RecordError(latency: nat)
      modifies this
      ensures Abs() == Recorded(old(Abs()), latency, false)
    {
      errorCount := errorCount + 1;
      PushLatency(latency);
    }

    method Reset()
      modifies this
      ensures Abs() == NO_SAMPLES
    {
      latencies, successCount, errorCount := [], 0, 0;
    }
  }

  // ---------------------------------------------------------------- the controller's steps

  datatype State = State(phase: Phase, weight: nat, cycles: nat, step: nat, startedAt: nat, canary: Samples, stable: Samples)

  function New(now: nat): State { State(Initializing, 0, 0, 0, now, NO_SAMPLES, NO_SAMPLES) }

  /** `current_step < weight_steps.len() - 1`, the subtraction wrapping for an empty list. */
  predicate CanAdvance(cfg: Config, s: State) { s.step < (|cfg.steps| + WORD64 - 1) % WORD64 }

  function Advanced(cfg: Config, s: State): State
  {
    if s.step < |cfg.steps| then
      s.(weight := cfg.steps[s.step], step := s.step + 1, canary := NO_SAMPLES, stable := NO_SAMPLES)
    else s
  }

  function Started(cfg: Config, s: State): State { Advanced(cfg, s.(phase := Progressing)) }

  function Completed(s: State): State { s.(phase := Complete, weight := 100) }

  function FailedOut(s: State): State { s.(phase := Failed, weight := 0) }

  function Decided(cfg: Config, s: State, level: AlertLevel): (State, Decision)
  {
    if level == AutoRollback then (s.(phase := RollingBack), Rollback(false))
    else if level == None then
      if CanAdvance(cfg, s) then (Advanced(cfg, s), AdvanceWeight(Advanced(cfg, s).weight))
      else (s.(phase := Promoting), Promote)
    else if s.cycles >= cfg.maxCycles then
      if level == Warning then (s.(phase := Promoting), Promote) else (s.(phase := RollingBack), Rollback(true))
    else (s, Continue)
  }

  predicate Enough(cfg: Config, s: State)
  {
    |s.canary.latencies| >= cfg.limits.minSamples && |s.stable.latencies| >= cfg.limits.minSamples
  }

  function Analyzed(cfg: Config, s: State, now: nat, c: Comparison): (State, Decision)
  {
    if s.phase == Complete || s.phase == Failed then (s, Done)
    else if now - s.startedAt > cfg.maxDuration then (s.(phase := Failed), TimedOut)
    else if !Enough(cfg, s) then (s, InsufficientData)
    else Decided(cfg, s.(cycles := s.cycles + 1), Alert(c, cfg.limits))
  }

  class CanaryController {
    const cfg: Config
    const startedAt: nat
    const canaryMetrics: MetricsCollector
    const stableMetrics: MetricsCollector
    var phase: Phase
    var weight: nat
    var cycles: nat
    var currentStep: nat

    ghost predicate Valid() { canaryMetrics != stableMetrics }

    function Abs(): State
      reads this, canaryMetrics, stableMetrics
    {
      State(phase, weight, cycles, currentStep, startedAt, canaryMetrics.Abs(), stableMetrics.Abs())
    }

    constructor (cfg: Config, now: nat)
      ensures Valid() && fresh(canaryMetrics) && fresh(stableMetrics)
      ensures this.cfg == cfg && Abs() == New(now)
    {
      this.cfg := cfg;
      startedAt := now;
      canaryMetrics := new MetricsCollector();
      stableMetrics := new MetricsCollector();
      phase, weight, cycles, currentStep := Initializing, 0, 0, 0;
    }

    method RecordCanary(latency: nat, ok: bool)
      requires Valid()
      modifies canaryMetrics
      ensures Abs() == old(Abs()).(canary := Recorded(old(Abs()).canary, latency, ok))
    {
      if ok {
        canaryMetrics.RecordSuccess(latency);
      } else {
        canaryMetrics.RecordError(latency);
      }
    }

    method RecordStable(latency: nat, ok: bool)
      requires Valid()
      modifies stableMetrics
      ensures Abs() == old(Abs()).(stable := Recorded(old(Abs()).stable, latency, ok))
    {
      if ok {
        stableMetrics.RecordSuccess(latency);
      } else {
        stableMetrics.RecordError(latency);
      }
    }

    method AdvanceStep()
      requires Valid()
      modifies this, canaryMetrics, stableMetrics
      ensures Abs() == Advanced(cfg, old(Abs()))
    {
      if currentStep < |cfg.steps| {
        weight := cfg.steps[currentStep];
        currentStep := currentStep + 1;
        canaryMetrics.Reset();
        stableMetrics.Reset();
      }
    }

    method Start()
      requires Valid()
      modifies this, canaryMetrics, stableMetrics
      ensures Abs() == Started(cfg, old(Abs()))
    {
      phase := Progressing;
      AdvanceStep();
    }

    method Analyze(now: nat, c: Comparison) returns (d: Decision)
      requires Valid()
      modifies this, canaryMetrics, stableMetrics
      ensures (Abs(), d) == Analyzed(cfg, old(Abs()), now, c)
    {
      if phase == Complete || phase == Failed {
        return Done;
      }
      if now - startedAt > cfg.maxDuration {
        phase := Failed;
        return TimedOut;
      }
      var min := cfg.limits.minSamples;
      if !(|canaryMetrics.latencies| >= min && |stableMetrics.latencies| >= min) {
        return InsufficientData;
      }
      cycles := cycles + 1;
      d := MakeDecision(Alert(c, cfg.limits));
    }

    method MakeDecision(level: AlertLevel) returns (d: Decision)
      requires Valid()
      modifies this, canaryMetrics, stableMetrics
      ensures (Abs(), d) == Decided(cfg, old(Abs()), level)
    {
      if level == AutoRollback {
        phase := RollingBack;
        return Rollback(false);
      }
      if level == None {
        if currentStep < (|cfg.steps| + WORD64 - 1) % WORD64 {
          AdvanceStep();
          return AdvanceWeight(weight);
        }
        phase := Promoting;
        return Promote;
      }
      if cycles >= cfg.maxCycles {
        if level == Warning {
          phase := Promoting;
          return Promote;
        }
        phase := RollingBack;
        return Rollback(true);
      }
      return Continue;
    }

    method Finish()
      modifies this
      ensures Abs() == Completed(old(Abs()))
    {
      phase := Complete;
      weight := 100;
    }

    method Fail()
      modifies this
      ensures Abs() == FailedOut(old(Abs()))
    {
      phase := Failed;
      weight := 0;
    }
  }

  // ---------------------------------------------------------------- runs

  /** The controller's public calls; `start` may come again, and at any time. */
  datatype Call =
    | RecordCanary(latency: nat, ok: bool)
    | RecordStable(latency: nat, ok: bool)
    | Analyze(now: nat, comparison: Comparison)
    | StartCall
    | CompleteCall
    | FailCall

  function Next(cfg: Config, s: State, c: Call): State
  {
    match c
    case RecordCanary(latency, ok) => s.(canary := Recorded(s.canary, latency, ok))
    case RecordStable(latency, ok) => s.(stable := Recorded(s.stable, latency, ok))
    case Analyze(now, comparison) => Analyzed(cfg, s, now, comparison).0
    case StartCall => Started(cfg, s)
    case CompleteCall => Completed(s)
    case FailCall => FailedOut(s)
  }

  /** The decision a call makes, if it is an analysis. */
  predicate Makes(cfg: Config, s: State, c: Call, d: Decision)
  {
    c.Analyze? && Analyzed(cfg, s, c.now, c.comparison).1 == d
  }

  predicate Advances(cfg: Config, s: State, c: Call)
  {
    c.Analyze? && Analyzed(cfg, s, c.now, c.comparison).1.AdvanceWeight?
  }

  function After(cfg: Config, s: State, cs: seq<Call>): State
  {
    if cs == [] then s else Next(cfg, After(cfg, s, cs[..|cs| - 1]), cs[|cs| - 1])
  }

  /** How many calls of a run decide to continue, and how many to advance. */
  function Continues(cfg: Config, s: State, cs: seq<Call>): nat
  {
    if cs == [] then 0
    else
      var n := |cs| - 1;
      Continues(cfg, s, cs[..n]) + if Makes(cfg, After(cfg, s, cs[..n]), cs[n], Continue) then 1 else 0
  }

  function AdvanceCount(cfg: Config, s: State, cs: seq<Call>): nat
  {
    if cs == [] then 0
    else
      var n := |cs| - 1;
      AdvanceCount(cfg, s, cs[..n]) + if Advances(cfg, After(cfg, s, cs[..n]), cs[n]) then 1 else 0
  }

  // ---------------------------------------------------------------- weights

  /** A started rollout: its first step is taken, and no step but those of the list. */
  predicate Inv(cfg: Config, s: State) { 1 <= s.step <= |cfg.steps| < WORD64 }

  /** The weight in force is that of the step before the next one. */
  predicate OnStep(cfg: Config, s: State)
    requires Inv(cfg, s)
  {
    s.weight == cfg.steps[s.step - 1]
  }

  /** The call takes the next step: an analysis that advances, or a `start` with a step left. */
  predicate Moves(cfg: Config, s: State, c: Call) { Advances(cfg, s, c) || (c.StartCall? && s.step < |cfg.steps|) }

  lemma StartKeeps(cfg: Config, now: nat)
    requires 1 <= |cfg.steps| < WORD64
    ensures var s := Started(cfg, New(now)); Inv(cfg, s) && OnStep(cfg, s) && s.step == 1
  {
  }

  /** Only a move takes a step, an advance never the last one; only the two endings set a weight off the list. */
  lemma StepKeeps(cfg: Config, s: State, c: Call)
    requires Inv(cfg, s)
    ensures var s' := Next(cfg, s, c);
            && Inv(cfg, s')
            && s'.step == (if Moves(cfg, s, c) then s.step + 1 else s.step)
            && (Advances(cfg, s, c) ==> s'.step <= |cfg.steps| - 1)
            && (Moves(cfg, s, c) ==> OnStep(cfg, s'))
            && (!Moves(cfg, s, c) && !c.CompleteCall? && !c.FailCall? ==> s'.weight == s.weight)
  {
    hide Alert, Recorded;
    assert (|cfg.steps| + WORD64 - 1) % WORD64 == |cfg.steps| - 1;
  }

  /** In any run the advances stop one short of the last step, however often `start` is called. */
  lemma {:induction false} AdvanceBound(cfg: Config, s: State, cs: seq<Call>)
    requires Inv(cfg, s)
    ensures var s' := After(cfg, s, cs);
            && Inv(cfg, s') && s.step + AdvanceCount(cfg, s, cs) <= s'.step
            && (AdvanceCount(cfg, s, cs) > 0 ==> s.step + AdvanceCount(cfg, s, cs) <= |cfg.steps| - 1)
            && (StartCall !in cs ==> s'.step == s.step + AdvanceCount(cfg, s, cs))
  {
    hide Next, Advances;
    if cs != [] {
      var n := |cs| - 1;
      AdvanceBound(cfg, s, cs[..n]);
      StepKeeps(cfg, After(cfg, s, cs[..n]), cs[n]);
      assert StartCall !in cs ==> StartCall !in cs[..n] && cs[n] != StartCall;
    }
  }

  /** No call of the run ends the rollout from outside. */
  predicate NotEnded(cs: seq<Call>) { CompleteCall !in cs && FailCall !in cs }

  lemma {:induction false} StaysOnStep(cfg: Config, s: State, cs: seq<Call>)
    requires Inv(cfg, s) && OnStep(cfg, s) && NotEnded(cs)
    ensures Inv(cfg, After(cfg, s, cs)) && OnStep(cfg, After(cfg, s, cs))
  {
    hide Next, Moves;
    if cs != [] {
      var n := |cs| - 1;
      assert cs[n] in cs;
      StaysOnStep(cfg, s, cs[..n]);
      StepKeeps(cfg, After(cfg, s, cs[..n]), cs[n]);
    }
  }

  /**
   * After `start` with L steps: at most `max(0, L - 2)` advances in any run; and unless `start` is
   * called again or the rollout is ended from outside, the last weight of two or more is never in force.
   */
  lemma RolloutAdvances(cfg: Config, now: nat, cs: seq<Call>)
    requires 1 <= |cfg.steps| < WORD64
    ensures var s := Started(cfg, New(now));
            && AdvanceCount(cfg, s, cs) <= (if |cfg.steps| >= 2 then |cfg.steps| - 2 else 0)
            && (NotEnded(cs) && StartCall !in cs ==>
                  After(cfg, s, cs).weight in (if |cfg.steps| >= 2 then cfg.steps[..|cfg.steps| - 1] else cfg.steps))
  {
    hide After, AdvanceCount, Started;
    StartKeeps(cfg, now);
    var s := Started(cfg, New(now));
    AdvanceBound(cfg, s, cs);
    if NotEnded(cs) && StartCall !in cs {
      StaysOnStep(cfg, s, cs);
      var s' := After(cfg, s, cs);
      assert |cfg.steps| >= 2 ==> cfg.steps[..|cfg.steps| - 1][s'.step - 1] == s'.weight;
    }
  }

  function Starts(n: nat): seq<Call> { if n == 0 then [] else Starts(n - 1) + [StartCall] }

  /** Calling `start` again walks the steps to the last one. */
  lemma StartsWalk(cfg: Config, now: nat, n: nat)
    requires n < |cfg.steps| < WORD64
    ensures var s := After(cfg, Started(cfg, New(now)), Starts(n)); s.step == n + 1 && s.weight == cfg.steps[n]
  {
    WalkedState(cfg, now, n);
  }

  predicate Sorted(steps: seq<nat>) { forall i, j | 0 <= i < j < |steps| :: steps[i] <= steps[j] }

  /** With sorted steps the traffic weight never goes down in a run without `complete` and `fail`. */
  lemma {:induction false} WeightNeverDrops(cfg: Config, s: State, cs: seq<Call>)
    requires Inv(cfg, s) && OnStep(cfg, s) && Sorted(cfg.steps) && NotEnded(cs)
    ensures s.weight <= After(cfg, s, cs).weight
  {
    hide After, AdvanceCount, NotEnded;
    StaysOnStep(cfg, s, cs);
    AdvanceBound(cfg, s, cs);
  }

  /** A call lowers the weight exactly when it fails, completes from above 100, or moves to a smaller step. */
  lemma LowersExactly(cfg: Config, s: State, c: Call)
    requires Inv(cfg, s)
    ensures Next(cfg, s, c).weight < s.weight <==>
            || (c.FailCall? && s.weight > 0)
            || (c.CompleteCall? && s.weight > 100)
            || (Moves(cfg, s, c) && s.step < |cfg.steps| && cfg.steps[s.step] < s.weight)
  {
    StepKeeps(cfg, s, c);
    hide Moves;
    assert c.FailCall? || c.CompleteCall? ==> !Moves(cfg, s, c) by { EndingDoesNotMove(cfg, s, c); }
  }

  lemma EndingDoesNotMove(cfg: Config, s: State, c: Call)
    ensures c.FailCall? || c.CompleteCall? ==> !Moves(cfg, s, c)
  {
  }

  predicate Over(s: State) { s.phase == Complete || s.phase == Failed }

  /** How the rollout was last ended from outside since it last took a step. */
  datatype Ending = NotSince | ByComplete | ByFail

  function LastEnding(cfg: Config, s: State, cs: seq<Call>): Ending
  {
    if cs == [] then NotSince
    else
      var n := |cs| - 1;
      if Moves(cfg, After(cfg, s, cs[..n]), cs[n]) then NotSince
      else match cs[n]
        case CompleteCall => ByComplete
        case FailCall => ByFail
        case _ => LastEnding(cfg, s, cs[..n])
  }

  lemma OverStays(cfg: Config, s: State, c: Call)
    requires Over(s) && !c.StartCall?
    ensures Over(Next(cfg, s, c)) && !Moves(cfg, s, c)
  {
  }

  lemma EndingEnds(cfg: Config, s: State, c: Call)
    requires c.CompleteCall? || c.FailCall?
    ensures Over(Next(cfg, s, c)) && Next(cfg, s, c).weight == (if c.CompleteCall? then 100 else 0)
  {
  }

  /** The weight in force tells of the last ending, which holds until the next step is taken. */
  lemma {:induction false} EndingInForce(cfg: Config, s: State, cs: seq<Call>)
    requires Inv(cfg, s) && OnStep(cfg, s)
    ensures var t := After(cfg, s, cs);
            && Inv(cfg, t)
            && match LastEnding(cfg, s, cs)
               case NotSince => OnStep(cfg, t)
               case ByComplete => t.weight == 100 && (t.step < |cfg.steps| ==> Over(t))
               case ByFail => t.weight == 0 && (t.step < |cfg.steps| ==> Over(t))
  {
    hide Next, Advances, Over;
    if cs != [] {
      var n := |cs| - 1;
      var t := After(cfg, s, cs[..n]);
      EndingInForce(cfg, s, cs[..n]);
      StepKeeps(cfg, t, cs[n]);
      if cs[n].CompleteCall? || cs[n].FailCall? {
        EndingEnds(cfg, t, cs[n]);
      } else if Over(t) && !cs[n].StartCall? {
        OverStays(cfg, t, cs[n]);
      }
    }
  }

  /**
   * In any run, with sorted steps, the weight is lowered by exactly three kinds of call: `fail` above
   * 0, `complete` above 100, and a `start` with a step below 100 left, after a `complete` with no step
   * taken since.
   */
  lemma LoweringCalls(cfg: Config, s: State, cs: seq<Call>, c: Call)
    requires Inv(cfg, s) && OnStep(cfg, s) && Sorted(cfg.steps)
    ensures var t := After(cfg, s, cs);
            Next(cfg, t, c).weight < t.weight <==>
            || (c.FailCall? && t.weight > 0)
            || (c.CompleteCall? && t.weight > 100)
            || (c.StartCall? && LastEnding(cfg, s, cs) == ByComplete && t.step < |cfg.steps| && cfg.steps[t.step] < 100)
  {
    hide Next, After, LastEnding, Over, Advances;
    var t := After(cfg, s, cs);
    EndingInForce(cfg, s, cs);
    LowersExactly(cfg, t, c);
    if Over(t) && !c.StartCall? {
      OverStays(cfg, t, c);
    }
  }

  /** With the default steps `complete` and then `start` takes the weight from 100 to 10. */
  lemma StartLowers(cfg: Config, now: nat)
    requires cfg.steps == [5, 10, 25, 50, 100]
    ensures var s := Started(cfg, New(now));
            After(cfg, s, [CompleteCall]).weight == 100 && After(cfg, s, [CompleteCall, StartCall]).weight == 10
  {
    assert [CompleteCall, StartCall][..1] == [CompleteCall];
  }

  /**
   * A complete or failed rollout stays ended, keeps step and cycles and is analyzed as done until
   * `start` is called; its phase and weight change only if it is ended again.
   */
  lemma {:induction false} EndedStays(cfg: Config, s: State, cs: seq<Call>)
    requires Over(s) && StartCall !in cs
    ensures var s' := After(cfg, s, cs); Over(s') && s'.step == s.step && s'.cycles == s.cycles
    ensures NotEnded(cs) ==> After(cfg, s, cs).phase == s.phase && After(cfg, s, cs).weight == s.weight
    ensures forall now, c :: Analyzed(cfg, After(cfg, s, cs), now, c) == (After(cfg, s, cs), Done)
  {
    if cs != [] {
      assert cs[|cs| - 1] in cs;
      EndedStays(cfg, s, cs[..|cs| - 1]);
    }
  }

  // ---------------------------------------------------------------- cycles

  lemma CycleStep(cfg: Config, s: State, c: Call)
    ensures Next(cfg, s, c).cycles >= s.cycles
    ensures Makes(cfg, s, c, Continue) ==> s.cycles < Next(cfg, s, c).cycles < cfg.maxCycles
  {
    hide Alert, Recorded;
  }

  /** A run continues at most `max_cycles - 1` times, less the cycles already spent. */
  lemma {:induction false} ContinueBound(cfg: Config, s: State, cs: seq<Call>)
    ensures s.cycles + Continues(cfg, s, cs) <= After(cfg, s, cs).cycles
    ensures Continues(cfg, s, cs) > 0 ==> s.cycles + Continues(cfg, s, cs) <= cfg.maxCycles - 1
  {
    hide Next, Makes;
    if cs != [] {
      var n := |cs| - 1;
      ContinueBound(cfg, s, cs[..n]);
      CycleStep(cfg, After(cfg, s, cs[..n]), cs[n]);
    }
  }

  /** Analyses of a run that had enough data to decide. */
  function Decisions(cfg: Config, s: State, cs: seq<Call>): nat
  {
    if cs == [] then 0
    else
      var n := |cs| - 1;
      Decisions(cfg, s, cs[..n])
      + if cs[n].Analyze? && !Makes(cfg, After(cfg, s, cs[..n]), cs[n], InsufficientData) then 1 else 0
  }

  /** Some call of the run makes a terminal decision. */
  predicate Ends(cfg: Config, s: State, cs: seq<Call>)
  {
    cs != [] && var n := |cs| - 1;
                Ends(cfg, s, cs[..n])
                || (cs[n].Analyze? && Terminal(Analyzed(cfg, After(cfg, s, cs[..n]), cs[n].now, cs[n].comparison).1))
  }

  lemma {:induction false} DecisionsSplit(cfg: Config, s: State, cs: seq<Call>)
    requires !Ends(cfg, s, cs)
    ensures Decisions(cfg, s, cs) == Continues(cfg, s, cs) + AdvanceCount(cfg, s, cs)
  {
    hide Analyzed;
    if cs != [] {
      DecisionsSplit(cfg, s, cs[..|cs| - 1]);
    }
  }

  /** Continues and advances that a rollout can have at most. */
  function Budget(cfg: Config): nat
  {
    (if cfg.maxCycles >= 1 then cfg.maxCycles - 1 else 0) + (if |cfg.steps| >= 2 then |cfg.steps| - 2 else 0)
  }

  /** The rollout ends: with more decided analyses than that one of them is terminal. */
  lemma RolloutEnds(cfg: Config, now: nat, cs: seq<Call>)
    requires 1 <= |cfg.steps| < WORD64
    ensures var s := Started(cfg, New(now)); Decisions(cfg, s, cs) > Budget(cfg) ==> Ends(cfg, s, cs)
  {
    var s := Started(cfg, New(now));
    RolloutAdvances(cfg, now, cs);
    ContinueBound(cfg, s, cs);
    if !Ends(cfg, s, cs) {
      DecisionsSplit(cfg, s, cs);
    }
  }

  // ---------------------------------------------------------------- an empty step list

  const CLEAN: Comparison := Comparison(0.0, 1.0, 1.0)

  lemma CleanAlert(t: Limits)
    ensures Alert(CLEAN, t) == None
  {
  }

  /** `m` records of each side, and then `n` analyses of a clean comparison at time `now`. */
  function Filled(m: nat): seq<Call>
  {
    if m == 0 then [] else (Filled(m - 1) + [RecordCanary(0, true)]) + [RecordStable(0, true)]
  }

  function Clean(m: nat, now: nat, n: nat): seq<Call>
  {
    if n == 0 then Filled(m) else Clean(m, now, n - 1) + [Analyze(now, CLEAN)]
  }

  function Zeros(m: nat): Samples { Samples(seq(m, _ => 0), m, 0) }

  lemma AfterSnoc(cfg: Config, s: State, cs: seq<Call>, c: Call)
    ensures After(cfg, s, cs + [c]) == Next(cfg, After(cfg, s, cs), c)
    ensures Decisions(cfg, s, cs + [c]) == Decisions(cfg, s, cs)
              + if c.Analyze? && !Makes(cfg, After(cfg, s, cs), c, InsufficientData) then 1 else 0
    ensures Ends(cfg, s, cs + [c]) <==>
              Ends(cfg, s, cs) || (c.Analyze? && Terminal(Analyzed(cfg, After(cfg, s, cs), c.now, c.comparison).1))
  {
    hide Next, Makes, Analyzed;
    assert (cs + [c])[..|cs|] == cs;
  }

  lemma ZerosRecorded(m: nat)
    requires m < MAX_SAMPLES
    ensures Recorded(Zeros(m), 0, true) == Zeros(m + 1)
  {
    assert seq(m, _ => 0) + [0] == seq(m + 1, _ => 0);
  }

  lemma {:induction false} FilledRun(cfg: Config, s: State, m: nat)
    requires m <= MAX_SAMPLES && s.canary == NO_SAMPLES && s.stable == NO_SAMPLES
    ensures After(cfg, s, Filled(m)) == s.(canary := Zeros(m), stable := Zeros(m))
    ensures Decisions(cfg, s, Filled(m)) == 0 && !Ends(cfg, s, Filled(m))
  {
    hide After, Decisions, Ends, Recorded, Zeros;
    if m == 0 {
      EmptyRun(cfg, s);
    } else {
      FilledRun(cfg, s, m - 1);
      ZerosRecorded(m - 1);
      AfterSnoc(cfg, s, Filled(m - 1), RecordCanary(0, true));
      AfterSnoc(cfg, s, Filled(m - 1) + [RecordCanary(0, true)], RecordStable(0, true));
    }
  }

  lemma EmptyRun(cfg: Config, s: State)
    ensures After(cfg, s, []) == s && Decisions(cfg, s, []) == 0 && !Ends(cfg, s, []) && Zeros(0) == NO_SAMPLES
  {
  }

  lemma CleanAnalysis(cfg: Config, s: State, now: nat)
    requires cfg.steps == [] && s.step == 0 && s.phase == Progressing && now - s.startedAt <= cfg.maxDuration && Enough(cfg, s)
    ensures Analyzed(cfg, s, now, CLEAN) == (s.(cycles := s.cycles + 1), AdvanceWeight(s.weight))
  {
    CleanAlert(cfg.limits);
  }

  /** With no steps at all, any number of clean analyses "advance" the rollout, which never ends. */
  lemma {:induction false} NoStepsNeverEnds(cfg: Config, now: nat, n: nat)
    requires cfg.steps == [] && cfg.limits.minSamples <= MAX_SAMPLES
    ensures var s, cs := Started(cfg, New(now)), Clean(cfg.limits.minSamples, now, n);
            && After(cfg, s, cs) == s.(canary := Zeros(cfg.limits.minSamples), stable := Zeros(cfg.limits.minSamples), cycles := n)
            && Decisions(cfg, s, cs) == n && !Ends(cfg, s, cs)
  {
    hide After, Decisions, Ends, Analyzed;
    var s, m := Started(cfg, New(now)), cfg.limits.minSamples;
    if n == 0 {
      FilledRun(cfg, s, m);
    } else {
      NoStepsNeverEnds(cfg, now, n - 1);
      CleanAnalysis(cfg, After(cfg, s, Clean(m, now, n - 1)), now);
      AfterSnoc(cfg, s, Clean(m, now, n - 1), Analyze(now, CLEAN));
    }
  }

  /** Some number of decided analyses that no rollout exceeds without a terminal decision. */
  ghost predicate Bounded(cfg: Config, now: nat, b: nat)
  {
    forall cs :: Decisions(cfg, Started(cfg, New(now)), cs) > b ==> Ends(cfg, Started(cfg, New(now)), cs)
  }

  predicate Capped(s: State) { |s.canary.latencies| <= MAX_SAMPLES && |s.stable.latencies| <= MAX_SAMPLES }

  lemma CappedStep(cfg: Config, s: State, c: Call)
    requires Capped(s)
    ensures Capped(Next(cfg, s, c))
    ensures cfg.limits.minSamples > MAX_SAMPLES && c.Analyze? && !Makes(cfg, s, c, InsufficientData) ==>
              Terminal(Analyzed(cfg, s, c.now, c.comparison).1)
  {
    hide Alert;
  }

  /** A minimum above the collectors' capacity is never met: the only decisions are terminal. */
  lemma {:induction false} NeverEnough(cfg: Config, s: State, cs: seq<Call>)
    requires Capped(s) && cfg.limits.minSamples > MAX_SAMPLES
    ensures Capped(After(cfg, s, cs)) && (Decisions(cfg, s, cs) > 0 ==> Ends(cfg, s, cs))
  {
    hide Next, Makes, Analyzed, Capped;
    if cs != [] {
      NeverEnough(cfg, s, cs[..|cs| - 1]);
      CappedStep(cfg, After(cfg, s, cs[..|cs| - 1]), cs[|cs| - 1]);
    }
  }

  /** The rollout is bounded if and only if it has a step, or a sample minimum that cannot be met. */
  lemma BoundedExactly(cfg: Config, now: nat)
    requires |cfg.steps| < WORD64
    ensures (exists b :: Bounded(cfg, now, b)) <==> cfg.steps != [] || cfg.limits.minSamples > MAX_SAMPLES
  {
    var s := Started(cfg, New(now));
    assert Capped(s);
    hide Decisions, Ends, Started, Capped;
    if cfg.limits.minSamples > MAX_SAMPLES {
      forall cs
        ensures Decisions(cfg, s, cs) > 0 ==> Ends(cfg, s, cs)
      {
        NeverEnough(cfg, s, cs);
      }
      assert Bounded(cfg, now, 0);
    } else if cfg.steps == [] {
      forall b: nat
        ensures !Bounded(cfg, now, b)
      {
        NoStepsNeverEnds(cfg, now, b + 1);
      }
    } else {
      forall cs
        ensures Decisions(cfg, s, cs) > Budget(cfg) ==> Ends(cfg, s, cs)
      {
        RolloutEnds(cfg, now, cs);
      }
      assert Bounded(cfg, now, Budget(cfg));
    }
  }

  // ---------------------------------------------------------------- samples behind a decision

  datatype Record = Record(latency: nat, ok: bool)

  /** Records of one side since the run last took a step, read off the calls. */
  function Since(cfg: Config, s: State, cs: seq<Call>, canary: bool): seq<Record>
  {
    if cs == [] then []
    else
      var n := |cs| - 1;
      if Moves(cfg, After(cfg, s, cs[..n]), cs[n]) then []
      else Since(cfg, s, cs[..n], canary)
           + if (if canary then cs[n].RecordCanary? else cs[n].RecordStable?) then [Record(cs[n].latency, cs[n].ok)] else []
  }

  function Successes(rs: seq<Record>): (n: nat)
    ensures n <= |rs|
  {
    if rs == [] then 0 else Successes(rs[..|rs| - 1]) + if rs[|rs| - 1].ok then 1 else 0
  }

  function Latencies(rs: seq<Record>): (r: seq<nat>)
    ensures |r| == |rs| && forall i | 0 <= i < |rs| :: r[i] == rs[i].latency
  {
    seq(|rs|, i requires 0 <= i < |rs| => rs[i].latency)
  }

  function Latest<T>(q: seq<T>): seq<T> { if |q| <= 10_000 then q else q[|q| - 10_000..] }

  /** The collector holds the latest latencies of `rs` and counts all of it. */
  predicate Holds(c: Samples, rs: seq<Record>)
  {
    c.latencies == Latest(Latencies(rs)) && c.successes == Successes(rs) && c.errors == |rs| - Successes(rs)
  }

  lemma LatestPush(q: seq<nat>, x: nat)
    ensures Latest(q + [x]) == (if |Latest(q)| >= MAX_SAMPLES then Latest(q)[1..] else Latest(q)) + [x]
  {
    if |q| >= MAX_SAMPLES {
      var k := |q| - MAX_SAMPLES;
      assert Latest(q) == q[k..];
      assert (q + [x])[k + 1..] == q[k + 1..] + [x];
      assert q[k..][1..] == q[k + 1..];
    }
  }

  lemma RecordHeld(c: Samples, rs: seq<Record>, latency: nat, ok: bool)
    requires Holds(c, rs)
    ensures Holds(Recorded(c, latency, ok), rs + [Record(latency, ok)])
  {
    var rs' := rs + [Record(latency, ok)];
    assert rs'[..|rs|] == rs;
    assert Latencies(rs') == Latencies(rs) + [latency];
    LatestPush(Latencies(rs), latency);
    hide Latest;
  }

  lemma SamplesStep(cfg: Config, s: State, c: Call)
    requires Inv(cfg, s)
    ensures var s' := Next(cfg, s, c);
            if Moves(cfg, s, c) then s'.canary == NO_SAMPLES && s'.stable == NO_SAMPLES
            else match c
              case RecordCanary(l, ok) => s'.canary == Recorded(s.canary, l, ok) && s'.stable == s.stable
              case RecordStable(l, ok) => s'.stable == Recorded(s.stable, l, ok) && s'.canary == s.canary
              case _ => s'.canary == s.canary && s'.stable == s.stable
  {
    hide Alert, Recorded;
    assert (|cfg.steps| + WORD64 - 1) % WORD64 == |cfg.steps| - 1;
  }

  /** Each collector holds what was recorded since the last step was taken, the latest 10000 of it. */
  lemma {:induction false} SamplesAreRecent(cfg: Config, s: State, cs: seq<Call>)
    requires Inv(cfg, s) && s.canary == NO_SAMPLES && s.stable == NO_SAMPLES
    ensures Holds(After(cfg, s, cs).canary, Since(cfg, s, cs, true))
    ensures Holds(After(cfg, s, cs).stable, Since(cfg, s, cs, false))
  {
    hide Next, Recorded, Moves, Holds, Inv;
    NothingHeld();
    if cs != [] {
      var n := |cs| - 1;
      var t := After(cfg, s, cs[..n]);
      AdvanceBound(cfg, s, cs[..n]);
      SamplesAreRecent(cfg, s, cs[..n]);
      SamplesStep(cfg, t, cs[n]);
      assert Since(cfg, s, cs[..n], true) + [] == Since(cfg, s, cs[..n], true);
      assert Since(cfg, s, cs[..n], false) + [] == Since(cfg, s, cs[..n], false);
      match cs[n]
      case RecordCanary(l, ok) =>
        RecordHeld(t.canary, Since(cfg, s, cs[..n], true), l, ok);
        RecordDoesNotMove(cfg, t, cs[n]);
      case RecordStable(l, ok) =>
        RecordHeld(t.stable, Since(cfg, s, cs[..n], false), l, ok);
        RecordDoesNotMove(cfg, t, cs[n]);
      case _ =>
    }
  }

  lemma NothingHeld()
    ensures Holds(NO_SAMPLES, [])
  {
  }

  lemma RecordDoesNotMove(cfg: Config, s: State, c: Call)
    requires c.RecordCanary? || c.RecordStable?
    ensures !Moves(cfg, s, c)
  {
  }

  /** The analysis was not cut short: it compared the two sides and decided. */
  predicate Judges(d: Decision) { d.AdvanceWeight? || d.Promote? || d.Continue? || d.Rollback? }

  /**
   * An analysis that judges rests on at least `min_sample_size` records of each side made since the
   * last step was taken; a minimum above 10000 is never met.
   */
  lemma DecisionHasSamples(cfg: Config, now: nat, cs: seq<Call>, c: Call)
    requires 1 <= |cfg.steps| < WORD64 && c.Analyze?
    ensures var s := Started(cfg, New(now));
            Judges(Analyzed(cfg, After(cfg, s, cs), c.now, c.comparison).1) ==>
              && |Since(cfg, s, cs, true)| >= cfg.limits.minSamples
              && |Since(cfg, s, cs, false)| >= cfg.limits.minSamples
              && cfg.limits.minSamples <= 10_000
  {
    hide Analyzed, Started, After, Since;
    var s := Started(cfg, New(now));
    StartKeeps(cfg, now);
    StartsEmpty(cfg, now);
    SamplesAreRecent(cfg, s, cs);
    NeedsSamples(cfg, After(cfg, s, cs), c.now, c.comparison);
  }

  /**
   * What a decision says about the comparison: nothing critical is ever promoted or given more
   * traffic, nothing harmless is ever rolled back, and only an analysis past the last cycle promotes
   * on a warning or rolls back short of the limits.
   */
  lemma DecisionMeaning(cfg: Config, s: State, now: nat, c: Comparison)
    ensures var d := Analyzed(cfg, s, now, c).1;
            var rank := Rank(Alert(c, cfg.limits));
            && (d.AdvanceWeight? ==> rank == 0)
            && (d.Promote? ==> rank <= 1 && (rank == 1 ==> s.cycles + 1 >= cfg.maxCycles))
            && (d.Continue? ==> 1 <= rank <= 2 && s.cycles + 1 < cfg.maxCycles)
            && (d.Rollback? ==> rank >= 2 && (rank == 2 ==> s.cycles + 1 >= cfg.maxCycles))
            && (d.Rollback? && !d.cyclesReached ==> rank == 3)
    ensures (s.phase.Progressing? && now - s.startedAt <= cfg.maxDuration && Enough(cfg, s) && Rank(Alert(c, cfg.limits)) == 3)
            ==> Analyzed(cfg, s, now, c).1 == Rollback(false)
  {
    hide Alert;
  }

  /** Every respect is no worse than before, or has used less than half of its allowance. */
  predicate Healthy(c: Comparison, t: Limits)
  {
    && (c.errorDiff <= 0.0 || c.errorDiff < t.maxErrorIncrease * 0.5)
    && (c.latencyRatio <= 1.0 || c.latencyRatio - 1.0 < (t.maxLatencyRatio - 1.0) * 0.5)
    && (c.throughputRatio >= 1.0 || c.throughputRatio > t.minThroughputRatio + (1.0 - t.minThroughputRatio) * 0.5)
  }

  /** Some respect is worse than before and has used up four fifths of its allowance. */
  predicate Strained(c: Comparison, t: Limits)
  {
    || (c.errorDiff > 0.0 && c.errorDiff >= t.maxErrorIncrease * 0.8)
    || (c.latencyRatio > 1.0 && c.latencyRatio - 1.0 >= (t.maxLatencyRatio - 1.0) * 0.8)
    || (c.throughputRatio < 1.0 && c.throughputRatio <= t.minThroughputRatio + (1.0 - t.minThroughputRatio) * 0.2)
  }

  /** Some respect is worse than before and at or past its limit. */
  predicate Breached(c: Comparison, t: Limits)
  {
    || (c.errorDiff > 0.0 && c.errorDiff >= t.maxErrorIncrease)
    || (c.latencyRatio > 1.0 && c.latencyRatio >= t.maxLatencyRatio)
    || (c.throughputRatio < 1.0 && c.throughputRatio <= t.minThroughputRatio)
  }

  /** The four alert levels by the figures of the comparison. */
  lemma AlertFields(c: Comparison, t: Limits)
    ensures Alert(c, t) == None <==> Healthy(c, t)
    ensures Rank(Alert(c, t)) >= 2 <==> Strained(c, t)
    ensures Alert(c, t) == AutoRollback <==> Breached(c, t)
    ensures Healthy(c, t) ==> !Strained(c, t)
    ensures Breached(c, t) ==> Strained(c, t)
  {
    hide Alert;
    NoAlertExact(c, t);
    CriticalExact(c, t);
    RollbackExact(c, t);
  }

  /** The analysis compares the two sides: not over, in time, and with enough samples. */
  predicate Compares(cfg: Config, s: State, now: nat)
  {
    && s.phase != Complete && s.phase != Failed && now - s.startedAt <= cfg.maxDuration
    && |s.canary.latencies| >= cfg.limits.minSamples && |s.stable.latencies| >= cfg.limits.minSamples
  }

  /**
   * Which decision an analysis makes, by the state and the figures alone. It advances or promotes
   * exactly if every respect is healthy, or on a warning past the last cycle; it rolls back exactly
   * if a limit is breached, or on strain past the last cycle.
   */
  lemma DecisionExactly(cfg: Config, s: State, now: nat, c: Comparison)
    requires 1 <= |cfg.steps| < WORD64
    ensures var (s', d) := Analyzed(cfg, s, now, c);
            var over, late, last := s.phase == Complete || s.phase == Failed, now - s.startedAt > cfg.maxDuration, s.cycles + 1 >= cfg.maxCycles;
            && (d == Done <==> over)
            && (d == TimedOut <==> !over && late)
            && (d == InsufficientData <==> !over && !late && !Compares(cfg, s, now))
            && (d.AdvanceWeight? <==> Compares(cfg, s, now) && Healthy(c, cfg.limits) && s.step + 1 < |cfg.steps|)
            && (d.AdvanceWeight? ==> d == AdvanceWeight(cfg.steps[s.step]) && s'.weight == cfg.steps[s.step] && s'.step == s.step + 1)
            && (d.AdvanceWeight? || d.Promote? <==>
                  Compares(cfg, s, now) && (Healthy(c, cfg.limits) || (last && !Strained(c, cfg.limits))))
            && (d.Rollback? <==> Compares(cfg, s, now) && (Breached(c, cfg.limits) || (last && Strained(c, cfg.limits))))
            && (d.Continue? <==> Compares(cfg, s, now) && !Healthy(c, cfg.limits) && !Breached(c, cfg.limits) && !last)
            && s'.cycles == (if Compares(cfg, s, now) then s.cycles + 1 else s.cycles)
            && s'.phase == (if d == TimedOut then Failed else if d.Promote? then Promoting
                            else if d.Rollback? then RollingBack else s.phase)
  {
    AlertFields(c, cfg.limits);
    hide Alert, Healthy, Strained, Breached;
    assert (|cfg.steps| + WORD64 - 1) % WORD64 == |cfg.steps| - 1;
  }

  lemma StartsEmpty(cfg: Config, now: nat)
    ensures Started(cfg, New(now)).canary == NO_SAMPLES && Started(cfg, New(now)).stable == NO_SAMPLES
  {
  }

  lemma NeedsSamples(cfg: Config, s: State, now: nat, c: Comparison)
    ensures Judges(Analyzed(cfg, s, now, c).1) ==> Enough(cfg, s) && !Over(s)
  {
    hide Alert;
  }

  // ---------------------------------------------------------------- samples since the weight changed

  predicate Changes(cfg: Config, s: State, c: Call) { Next(cfg, s, c).weight != s.weight }

  /** Records of one side since the last call of the run that changed the weight. */
  function SinceChange(cfg: Config, s: State, cs: seq<Call>, canary: bool): seq<Record>
  {
    if cs == [] then []
    else
      var n := |cs| - 1;
      if Changes(cfg, After(cfg, s, cs[..n]), cs[n]) then []
      else SinceChange(cfg, s, cs[..n], canary)
           + if (if canary then cs[n].RecordCanary? else cs[n].RecordStable?) then [Record(cs[n].latency, cs[n].ok)] else []
  }

  /** An ending has changed the weight since the last step was taken. */
  predicate Dirty(cfg: Config, s: State, cs: seq<Call>)
  {
    cs != [] && var n := |cs| - 1;
                var t := After(cfg, s, cs[..n]);
                !Moves(cfg, t, cs[n])
                && (Dirty(cfg, s, cs[..n]) || ((cs[n].CompleteCall? || cs[n].FailCall?) && Changes(cfg, t, cs[n])))
  }

  /** And `start` was called after it with no step left. */
  predicate Stale(cfg: Config, s: State, cs: seq<Call>)
  {
    cs != [] && var n := |cs| - 1;
                !Moves(cfg, After(cfg, s, cs[..n]), cs[n])
                && (Stale(cfg, s, cs[..n]) || (cs[n].StartCall? && Dirty(cfg, s, cs[..n])))
  }

  lemma {:induction false} SinceInv(cfg: Config, s: State, cs: seq<Call>)
    requires Inv(cfg, s)
    ensures !Dirty(cfg, s, cs) ==> |Since(cfg, s, cs, true)| <= |SinceChange(cfg, s, cs, true)|
    ensures !Dirty(cfg, s, cs) ==> |Since(cfg, s, cs, false)| <= |SinceChange(cfg, s, cs, false)|
    ensures Dirty(cfg, s, cs) && !Stale(cfg, s, cs) ==> Over(After(cfg, s, cs))
  {
    hide Next, Moves, Over;
    if cs != [] {
      var n := |cs| - 1;
      var t, c := After(cfg, s, cs[..n]), cs[n];
      AdvanceBound(cfg, s, cs[..n]);
      SinceInv(cfg, s, cs[..n]);
      StepKeeps(cfg, t, c);
      if c.CompleteCall? || c.FailCall? {
        EndingEnds(cfg, t, c);
      } else if Over(t) && !c.StartCall? {
        OverStays(cfg, t, c);
      }
    }
  }

  /**
   * An analysis that judges rests on at least `min_sample_size` records of each side made since the
   * weight last changed, unless `start` was called with no step left after an ending that changed it.
   */
  lemma DecisionIsFresh(cfg: Config, now: nat, cs: seq<Call>, c: Call)
    requires 1 <= |cfg.steps| < WORD64 && c.Analyze? && !Stale(cfg, Started(cfg, New(now)), cs)
    ensures var s := Started(cfg, New(now));
            Judges(Analyzed(cfg, After(cfg, s, cs), c.now, c.comparison).1) ==>
              && |SinceChange(cfg, s, cs, true)| >= cfg.limits.minSamples
              && |SinceChange(cfg, s, cs, false)| >= cfg.limits.minSamples
  {
    hide Analyzed, Started, After, Since, SinceChange, Dirty, Stale, Over;
    var s := Started(cfg, New(now));
    StartKeeps(cfg, now);
    DecisionHasSamples(cfg, now, cs, c);
    SinceInv(cfg, s, cs);
    NeedsSamples(cfg, After(cfg, s, cs), c.now, c.comparison);
  }

  lemma {:induction false} AfterAppend(cfg: Config, s: State, a: seq<Call>, b: seq<Call>)
    ensures After(cfg, s, a + b) == After(cfg, After(cfg, s, a), b)
  {
    hide Next;
    if b == [] {
      assert a + b == a;
    } else {
      var n := |b| - 1;
      AfterAppend(cfg, s, a, b[..n]);
      assert (a + b)[..|a| + n] == a + b[..n];
    }
  }

  lemma {:induction false} WalkedState(cfg: Config, now: nat, n: nat)
    requires n < |cfg.steps| < WORD64
    ensures After(cfg, Started(cfg, New(now)), Starts(n))
         == State(Progressing, cfg.steps[n], 0, n + 1, now, NO_SAMPLES, NO_SAMPLES)
  {
    hide After, Decisions, Ends, Makes;
    if n == 0 {
      EmptyRun(cfg, Started(cfg, New(now)));
    } else {
      WalkedState(cfg, now, n - 1);
      AfterSnoc(cfg, Started(cfg, New(now)), Starts(n - 1), StartCall);
    }
  }

  /** The weight once all steps are walked: the last one, or that of a new controller if there is none. */
  function LastWeight(cfg: Config): nat { if cfg.steps == [] then 0 else cfg.steps[|cfg.steps| - 1] }

  /** All steps walked, the minimum recorded. */
  function Walk(cfg: Config): seq<Call> { Starts(if cfg.steps == [] then 0 else |cfg.steps| - 1) + Filled(cfg.limits.minSamples) }

  function WalkEnding(cfg: Config): Call { if LastWeight(cfg) == 0 then CompleteCall else FailCall }

  /** Then an ending that changes the weight, and `start` again. */
  function StaleRun(cfg: Config): seq<Call> { Walk(cfg) + [WalkEnding(cfg)] + [StartCall] }

  function Walked(cfg: Config, now: nat): State
  {
    State(Progressing, LastWeight(cfg), 0, |cfg.steps|, now, Zeros(cfg.limits.minSamples), Zeros(cfg.limits.minSamples))
  }

  lemma WalkedAndFilled(cfg: Config, now: nat)
    requires |cfg.steps| < WORD64 && cfg.limits.minSamples <= MAX_SAMPLES
    ensures After(cfg, Started(cfg, New(now)), Walk(cfg)) == Walked(cfg, now)
  {
    hide After, Starts, Filled, Decisions, Ends, Zeros;
    var s, a := Started(cfg, New(now)), Starts(if cfg.steps == [] then 0 else |cfg.steps| - 1);
    if cfg.steps == [] {
      NoStarts();
      EmptyRun(cfg, s);
    } else {
      WalkedState(cfg, now, |cfg.steps| - 1);
    }
    AfterAppend(cfg, s, a, Filled(cfg.limits.minSamples));
    FilledRun(cfg, After(cfg, s, a), cfg.limits.minSamples);
  }

  lemma NoStarts()
    ensures Starts(0) == []
  {
  }

  /** From there an ending changes the weight, `start` does not, and a clean analysis promotes or advances. */
  lemma WalkedJudges(cfg: Config, now: nat)
    requires |cfg.steps| < WORD64 && cfg.limits.minSamples <= MAX_SAMPLES
    ensures var t := Walked(cfg, now);
            var u := Next(cfg, t, WalkEnding(cfg));
            && Changes(cfg, t, WalkEnding(cfg)) && !Changes(cfg, u, StartCall)
            && Analyzed(cfg, Next(cfg, u, StartCall), now, CLEAN).1 == if cfg.steps == [] then AdvanceWeight(100) else Promote
  {
    CleanAlert(cfg.limits);
    hide Alert;
    assert cfg.steps != [] ==> (|cfg.steps| + WORD64 - 1) % WORD64 == |cfg.steps| - 1;
  }

  /**
   * A clean analysis after that run promotes on records made before the weight changed; with no step
   * at all it advances on them, to the weight already in force.
   */
  lemma StaleDecision(cfg: Config, now: nat)
    requires |cfg.steps| < WORD64 && cfg.limits.minSamples <= MAX_SAMPLES
    ensures var s, cs := Started(cfg, New(now)), StaleRun(cfg);
            && Analyzed(cfg, After(cfg, s, cs), now, CLEAN).1 == (if cfg.steps == [] then AdvanceWeight(100) else Promote)
            && SinceChange(cfg, s, cs, true) == [] && SinceChange(cfg, s, cs, false) == []
  {
    hide After, SinceChange, Started, Analyzed, Next, Changes, Walk, Walked, WalkEnding, Decisions, Ends, Makes;
    var s, a, ending := Started(cfg, New(now)), Walk(cfg), WalkEnding(cfg);
    WalkedAndFilled(cfg, now);
    WalkedJudges(cfg, now);
    AfterSnoc(cfg, s, a, ending);
    AfterSnoc(cfg, s, a + [ending], StartCall);
    SinceChangeSnoc(cfg, s, a, ending);
    SinceChangeSnoc(cfg, s, a + [ending], StartCall);
  }

  lemma SinceChangeSnoc(cfg: Config, s: State, cs: seq<Call>, c: Call)
    ensures Changes(cfg, After(cfg, s, cs), c) ==> forall side :: SinceChange(cfg, s, cs + [c], side) == []
    ensures !Changes(cfg, After(cfg, s, cs), c) && !c.RecordCanary? && !c.RecordStable? ==>
              forall side :: SinceChange(cfg, s, cs + [c], side) == SinceChange(cfg, s, cs, side)
  {
    hide Changes;
    assert (cs + [c])[..|cs|] == cs;
  }

  /** Every analysis that judges, in every run, rests on enough records since the weight last changed. */
  ghost predicate AlwaysFresh(cfg: Config, now: nat)
  {
    forall cs, at, c, side ::
      Judges(Analyzed(cfg, After(cfg, Started(cfg, New(now)), cs), at, c).1) ==>
        |SinceChange(cfg, Started(cfg, New(now)), cs, side)| >= cfg.limits.minSamples
  }

  /** That is so if and only if the minimum is 0, or above what the collectors hold and so never met. */
  lemma FreshExactly(cfg: Config, now: nat)
    requires |cfg.steps| < WORD64
    ensures AlwaysFresh(cfg, now) <==> cfg.limits.minSamples == 0 || cfg.limits.minSamples > MAX_SAMPLES
  {
    var s := Started(cfg, New(now));
    assert Capped(s);
    hide Analyzed, After, SinceChange, Started, Decisions, Ends;
    if cfg.limits.minSamples == 0 {
    } else if cfg.limits.minSamples > MAX_SAMPLES {
      forall cs, at, c, side: bool
        ensures Judges(Analyzed(cfg, After(cfg, s, cs), at, c).1) ==> |SinceChange(cfg, s, cs, side)| >= cfg.limits.minSamples
      {
        NeverEnough(cfg, s, cs);
        NeedsSamples(cfg, After(cfg, s, cs), at, c);
      }
    } else {
      StaleDecision(cfg, now);
      assert Judges(Analyzed(cfg, After(cfg, s, StaleRun(cfg)), now, CLEAN).1);
      assert |SinceChange(cfg, s, StaleRun(cfg), true)| == 0;
    }
  }
}
