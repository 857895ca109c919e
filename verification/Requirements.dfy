/** Non-functional requirements: optional thresholds checked against a run's measurements. */
module Requirements {
  import opened Wrappers

  datatype Spec = Spec(minSuccessRate: Option<real>, maxAvgMs: Option<real>, maxP95Ms: Option<real>,
                       maxRecoverySeconds: Option<real>)

  datatype Measured = Measured(testsTotal: int, testsPassed: int, avgMs: Option<real>, p95Ms: Option<real>,
                               recoverySeconds: Option<real>)

  /** The verdict of each category that has a threshold. */
  datatype Report = Report(availability: Option<bool>, latency: Option<bool>, recovery: Option<bool>)

  /** An empty specification is no specification. */
  function ParseSpec(raw: Option<Spec>): (spec: Option<Spec>)
    ensures spec == None || spec == raw
    ensures spec == None <==> raw == None || raw == Some(Spec(None, None, None, None))
  {
    match raw
    case Some(Spec(None, None, None, None)) => None
    case _ => raw
  }

  function SuccessRate(m: Measured): real {
    if m.testsTotal <= 0 then 1.0 else m.testsPassed as real / m.testsTotal as real
  }

  /** A missing measurement fails the threshold that needs it. */
  predicate Within(measured: Option<real>, limit: Option<real>) {
    limit.Some? ==> measured.Some? && measured.value <= limit.value
  }

  /** What it means for a run to meet its requirements. */
  predicate Meets(spec: Spec, m: Measured) {
    && (spec.minSuccessRate.Some? ==> SuccessRate(m) >= spec.minSuccessRate.value)
    && Within(m.avgMs, spec.maxAvgMs)
    && Within(m.p95Ms, spec.maxP95Ms)
    && Within(m.recoverySeconds, spec.maxRecoverySeconds)
  }

  /**
   `all_ok` holds exactly when every given threshold is met, and exactly when every reported
   category passed; a category is reported exactly when it has a threshold.
   */
  method EvaluateRequirements(spec: Option<Spec>, m: Measured) returns (report: Option<Report>, allOk: bool)
    ensures spec.None? ==> report == None && allOk
    ensures spec.Some? ==> (allOk <==> Meets(spec.value, m))
    ensures report.Some? ==>
              && spec.Some?
              && (allOk <==> report.value.availability != Some(false) && report.value.latency != Some(false)
                             && report.value.recovery != Some(false))
              && (report.value.availability.Some? <==> spec.value.minSuccessRate.Some?)
              && (report.value.latency.Some? <==> spec.value.maxAvgMs.Some? || spec.value.maxP95Ms.Some?)
              && (report.value.recovery.Some? <==> spec.value.maxRecoverySeconds.Some?)
    ensures report.None? <==> ParseSpec(spec) == None
    ensures report.Some? && spec.value.minSuccessRate.Some? ==>
              report.value.availability ==
                Some((if m.testsTotal <= 0 then 1.0 else m.testsPassed as real / m.testsTotal as real)
                       >= spec.value.minSuccessRate.value)
    ensures report.Some? && report.value.latency.Some? ==>
              (report.value.latency.value <==>
                 && (spec.value.maxAvgMs.Some? ==> m.avgMs.Some? && m.avgMs.value <= spec.value.maxAvgMs.value)
                 && (spec.value.maxP95Ms.Some? ==> m.p95Ms.Some? && m.p95Ms.value <= spec.value.maxP95Ms.value))
    ensures report.Some? && spec.value.maxRecoverySeconds.Some? ==>
              report.value.recovery ==
                Some(m.recoverySeconds.Some? && m.recoverySeconds.value <= spec.value.maxRecoverySeconds.value)
  {
    if spec.None? { return None, true; }
    var s := spec.value;
    var r := Report(None, None, None);
    allOk := true;
    if s.minSuccessRate.Some? {
      var rate := SuccessRate(m);
      var ok := rate >= s.minSuccessRate.value;
      r := r.(availability := Some(ok));
      if !ok { allOk := false; }
    }
    if s.maxAvgMs.Some? || s.maxP95Ms.Some? {
      var ok := true;
      if s.maxAvgMs.Some? {
        if m.avgMs.None? || m.avgMs.value > s.maxAvgMs.value { ok := false; }
      }
      if s.maxP95Ms.Some? {
        if m.p95Ms.None? || m.p95Ms.value > s.maxP95Ms.value { ok := false; }
      }
      r := r.(latency := Some(ok));
      if !ok { allOk := false; }
    }
    if s.maxRecoverySeconds.Some? {
      var ok := m.recoverySeconds.Some? && m.recoverySeconds.value <= s.maxRecoverySeconds.value;
      r := r.(recovery := Some(ok));
      if !ok { allOk := false; }
    }
    report := if r == Report(None, None, None) then None else Some(r);
  }
}
