/** Alert levels of a canary comparison (core-runtime/src/deployment/thresholds.rs), over the reals. */
module Thresholds {

  datatype AlertLevel = None | Warning | Critical | AutoRollback

  /** Canary against stable: error rate difference, p99 latency ratio, throughput ratio. */
  datatype Comparison = Comparison(errorDiff: real, latencyRatio: real, throughputRatio: real)

  datatype Limits = Limits(maxErrorIncrease: real, maxLatencyRatio: real, minThroughputRatio: real, minSamples: nat)

  function Rank(l: AlertLevel): nat
  {
    match l
    case None => 0
    case Warning => 1
    case Critical => 2
    case AutoRollback => 3
  }

  /** How far `excess` is on its way to `limit`. */
  function ExcessLevel(excess: real, limit: real): AlertLevel
  {
    if excess <= 0.0 || excess < limit * 0.5 then None
    else if excess < limit * 0.8 then Warning
    else if excess < limit then Critical
    else AutoRollback
  }

  function ErrorLevel(diff: real, maxIncrease: real): AlertLevel { ExcessLevel(diff, maxIncrease) }

  function LatencyLevel(ratio: real, maxRatio: real): AlertLevel { ExcessLevel(ratio - 1.0, maxRatio - 1.0) }

  function ThroughputLevel(ratio: real, minRatio: real): AlertLevel
  {
    if ratio >= 1.0 || ratio > minRatio + (1.0 - minRatio) * 0.5 then None
    else if ratio > minRatio + (1.0 - minRatio) * 0.2 then Warning
    else if ratio > minRatio then Critical
    else AutoRollback
  }

  function Worse(a: AlertLevel, b: AlertLevel): AlertLevel { if Rank(a) > Rank(b) then a else b }

  function Alert(c: Comparison, t: Limits): AlertLevel
  {
    Worse(Worse(ErrorLevel(c.errorDiff, t.maxErrorIncrease), LatencyLevel(c.latencyRatio, t.maxLatencyRatio)),
          ThroughputLevel(c.throughputRatio, t.minThroughputRatio))
  }

  /** A comparison that is no better in any respect never gets a milder alert, whatever the limits. */
  lemma AlertMonotone(c: Comparison, d: Comparison, t: Limits)
    requires c.errorDiff <= d.errorDiff && c.latencyRatio <= d.latencyRatio && c.throughputRatio >= d.throughputRatio
    ensures Rank(Alert(c, t)) <= Rank(Alert(d, t))
  {
    ExcessMonotone(c.errorDiff, d.errorDiff, t.maxErrorIncrease);
    ExcessMonotone(c.latencyRatio - 1.0, d.latencyRatio - 1.0, t.maxLatencyRatio - 1.0);
    ThroughputMonotone(d.throughputRatio, c.throughputRatio, t.minThroughputRatio);
    hide ExcessLevel, ThroughputLevel;
  }

  lemma ExcessMonotone(a: real, b: real, limit: real)
    requires a <= b
    ensures Rank(ExcessLevel(a, limit)) <= Rank(ExcessLevel(b, limit))
  {
  }

  lemma ThroughputMonotone(a: real, b: real, min: real)
    requires a <= b
    ensures Rank(ThroughputLevel(a, min)) >= Rank(ThroughputLevel(b, min))
  {
  }

  /** Rollback is called for exactly when some respect is worse than before and at or past its limit. */
  lemma RollbackExact(c: Comparison, t: Limits)
    ensures Alert(c, t) == AutoRollback <==>
            || (c.errorDiff > 0.0 && c.errorDiff >= t.maxErrorIncrease)
            || (c.latencyRatio > 1.0 && c.latencyRatio >= t.maxLatencyRatio)
            || (c.throughputRatio < 1.0 && c.throughputRatio <= t.minThroughputRatio)
  {
    ExcessRollback(c.errorDiff, t.maxErrorIncrease);
    ExcessRollback(c.latencyRatio - 1.0, t.maxLatencyRatio - 1.0);
    hide ExcessLevel;
  }

  lemma ExcessRollback(excess: real, limit: real)
    ensures ExcessLevel(excess, limit) == AutoRollback <==> excess > 0.0 && excess >= limit
  {
  }

  /** There is no alert exactly when each respect is no worse than before or has used less than half of its allowance. */
  lemma NoAlertExact(c: Comparison, t: Limits)
    ensures Alert(c, t) == None <==>
            && (c.errorDiff <= 0.0 || c.errorDiff < t.maxErrorIncrease * 0.5)
            && (c.latencyRatio <= 1.0 || c.latencyRatio - 1.0 < (t.maxLatencyRatio - 1.0) * 0.5)
            && (c.throughputRatio >= 1.0 || c.throughputRatio > t.minThroughputRatio + (1.0 - t.minThroughputRatio) * 0.5)
  {
    ExcessNone(c.errorDiff, t.maxErrorIncrease);
    ExcessNone(c.latencyRatio - 1.0, t.maxLatencyRatio - 1.0);
    hide ExcessLevel;
  }

  lemma ExcessNone(excess: real, limit: real)
    ensures ExcessLevel(excess, limit) == None <==> excess <= 0.0 || excess < limit * 0.5
  {
  }

  /** An alert is critical or worse exactly when some respect has used up four fifths of its allowance. */
  lemma CriticalExact(c: Comparison, t: Limits)
    ensures Rank(Alert(c, t)) >= 2 <==>
            || (c.errorDiff > 0.0 && c.errorDiff >= t.maxErrorIncrease * 0.8)
            || (c.latencyRatio > 1.0 && c.latencyRatio - 1.0 >= (t.maxLatencyRatio - 1.0) * 0.8)
            || (c.throughputRatio < 1.0 && c.throughputRatio <= t.minThroughputRatio + (1.0 - t.minThroughputRatio) * 0.2)
  {
    ExcessCritical(c.errorDiff, t.maxErrorIncrease);
    ExcessCritical(c.latencyRatio - 1.0, t.maxLatencyRatio - 1.0);
    hide ExcessLevel;
  }

  lemma ExcessCritical(excess: real, limit: real)
    ensures Rank(ExcessLevel(excess, limit)) >= 2 <==> excess > 0.0 && excess >= limit * 0.8
  {
  }
}
