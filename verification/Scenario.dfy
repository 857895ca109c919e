/**
 `ScenarioRunner.run`: the state machine that executes a script of steps, judges each against
 its expectation and measures recovery.  What the services answer, and when, is an input: a
 statement about all inputs is a statement about every provider and every clock.
 */
module Scenario {
  import opened Wrappers
  import opened Requirements
  import PingMetrics

  datatype Step =
    | DeployStep
    | ValidateStep(expectPass: bool)
    | FailStep(node: string)
    | DriftStep(expectDetected: bool)
    | ReconcileStep
    | CleanupStep

  /** How a service call ends, as far as the runner tells the cases apart. */
  datatype Reply =
    | DeployReturned(status: string) | DeployError
    | ValidateReturned(passed: bool, testsTotal: nat, testsPassed: nat, latencies: seq<real>)
    | ValidateRefused | ValidateCrashed
    | FailReturned | FailRefused
    | DriftReturned(detected: bool) | DriftRefused
    | ReconcileReturned(status: string) | ReconcileRefused
    | CleanupReturned(status: string) | CleanupRefused

  predicate Answers(s: Step, a: Reply) {
    match s
    case DeployStep => a.DeployReturned? || a.DeployError?
    case ValidateStep(_) => a.ValidateReturned? || a.ValidateRefused? || a.ValidateCrashed?
    case FailStep(_) => a.FailReturned? || a.FailRefused?
    case DriftStep(_) => a.DriftReturned? || a.DriftRefused?
    case ReconcileStep => a.ReconcileReturned? || a.ReconcileRefused?
    case CleanupStep => a.CleanupReturned? || a.CleanupRefused?
  }

  /** Clock readings around one call: at the duration check, and after the answer. */
  datatype Happening = Happening(checkedAt: real, answer: Reply, doneAt: real)

  datatype StepRecord = StepRecord(name: string, action: string, expected: string, actual: Option<string>, passed: bool)

  datatype RunState = RunState(
    records: seq<StepRecord>, overallOk: bool, abort: bool,
    failurePerf: Option<real>, reconcileAfterFailure: bool, recoverySeconds: Option<real>,
    testsTotal: nat, testsPassed: nat, latencies: seq<real>)

  const FRESH := RunState([], true, false, None, false, None, 0, 0, [])

  function Label(passed: bool): string { if passed then "PASSED" else "FAILED" }

  function DriftLabel(detected: bool): string { if detected then "DETECTED" else "CLEAN" }

  function ActionOf(s: Step): string {
    match s
    case DeployStep => "deploy"
    case ValidateStep(_) => "validate"
    case FailStep(_) => "fail"
    case DriftStep(_) => "drift"
    case ReconcileStep => "reconcile"
    case CleanupStep => "cleanup"
  }

  /** Whether the step met its expectation. */
  predicate Met(s: Step, a: Reply) {
    match s
    case DeployStep => a == DeployReturned("ACTIVE")
    case ValidateStep(expectPass) =>
      if a.ValidateReturned? then a.passed == expectPass else a.ValidateRefused? && !expectPass
    case FailStep(_) => a == FailReturned
    case DriftStep(expectDetected) => a == DriftReturned(expectDetected)
    case ReconcileStep => a == ReconcileReturned("RECONCILED")
    case CleanupStep => a.CleanupReturned? && a.status in {"CLEANED", "SKIPPED"}
  }

  function RecordOf(s: Step, a: Reply): StepRecord {
    match s
    case DeployStep =>
      StepRecord("deploy", "deploy", "ACTIVE", Some(if a.DeployReturned? then a.status else "FAILED"), Met(s, a))
    case ValidateStep(expectPass) =>
      StepRecord("validate", "validate", Label(expectPass), Some(Label(a.ValidateReturned? && a.passed)), Met(s, a))
    case FailStep(node) =>
      StepRecord("fail " + node, "fail", "SUCCESS", Some(if a.FailReturned? then "SUCCESS" else "FAILED"), Met(s, a))
    case DriftStep(expectDetected) =>
      StepRecord("drift", "drift", DriftLabel(expectDetected),
                 if a.DriftReturned? then Some(DriftLabel(a.detected)) else None, Met(s, a))
    case ReconcileStep =>
      StepRecord("reconcile", "reconcile", "RECONCILED",
                 if a.ReconcileReturned? then Some(a.status) else None, Met(s, a))
    case CleanupStep =>
      StepRecord("cleanup", "cleanup", "CLEANED", Some(if a.CleanupReturned? then a.status else "FAILED"), Met(s, a))
  }

  const QUOTA_RECORD := StepRecord("duration_quota", "quota", "within_limit", Some("FAILED"), false)

  /** One executed step. */
  function Execute(rs: RunState, s: Step, h: Happening): RunState {
    var a := h.answer;
    var met := Met(s, a);
    var next := rs.(records := rs.records + [RecordOf(s, a)], overallOk := rs.overallOk && met);
    match s
    case DeployStep => next.(abort := rs.abort || !met)
    case ValidateStep(expectPass) =>
      if !a.ValidateReturned? then next else
        next.(testsTotal := rs.testsTotal + a.testsTotal, testsPassed := rs.testsPassed + a.testsPassed,
              latencies := rs.latencies + a.latencies,
              recoverySeconds :=
                if a.passed && expectPass && rs.failurePerf.Some? && rs.reconcileAfterFailure
                  && rs.recoverySeconds.None?
                then Some(h.doneAt - rs.failurePerf.value) else rs.recoverySeconds)
    case FailStep(_) => if met then next.(failurePerf := Some(h.doneAt)) else next
    case ReconcileStep => if met && rs.failurePerf.Some? then next.(reconcileAfterFailure := true) else next
    case _ => next
  }

  /** The implicit deploy: a returned status other than ACTIVE is recorded but does not fail the run. */
  function ExecuteImplicit(rs: RunState, maxSeconds: real, h: Happening): RunState {
    if h.checkedAt > maxSeconds then rs.(records := rs.records + [QUOTA_RECORD], overallOk := false, abort := true)
    else
      var next := rs.(records := rs.records + [RecordOf(DeployStep, h.answer)]);
      if h.answer.DeployError? then next.(overallOk := false, abort := true) else next
  }

  predicate HasDeploy(steps: seq<Step>) {
    DeployStep in steps
  }

  function Begin(steps: seq<Step>, maxSeconds: real, implicitDeploy: Happening): RunState {
    if HasDeploy(steps) then FRESH else ExecuteImplicit(FRESH, maxSeconds, implicitDeploy)
  }

  /** After the first `n` turns of the loop. */
  function Judge(steps: seq<Step>, maxSeconds: real, implicitDeploy: Happening, hs: seq<Happening>, n: nat): RunState
    requires n <= |steps| <= |hs|
  {
    if n == 0 then Begin(steps, maxSeconds, implicitDeploy) else
      var rs := Judge(steps, maxSeconds, implicitDeploy, hs, n - 1);
      if rs.abort then rs
      else if hs[n - 1].checkedAt > maxSeconds then
        rs.(records := rs.records + [QUOTA_RECORD], overallOk := false, abort := true)
      else Execute(rs, steps[n - 1], hs[n - 1])
  }

  function MeasuredBy(rs: RunState): Measured {
    Measured(rs.testsTotal, rs.testsPassed, PingMetrics.MeanLatency(rs.latencies), PingMetrics.P95Latency(rs.latencies),
             rs.recoverySeconds)
  }

  predicate MeetsGates(spec: Option<Spec>, rs: RunState) {
    spec.Some? ==> Meets(spec.value, MeasuredBy(rs))
  }

  datatype RunResult = RunResult(passed: bool, records: seq<StepRecord>, failedStep: Option<string>, final: RunState)

  function FirstFailedLabel(records: seq<StepRecord>): Option<string> {
    if records == [] then None
    else if !records[0].passed then Some(records[0].name) else FirstFailedLabel(records[1..])
  }

  /** The body of the loop: record the step, then update what the run remembers. */
  method ExecuteStep(before: RunState, step: Step, h: Happening) returns (rs: RunState)
    ensures rs == Execute(before, step, h)
  {
    hide RecordOf;
    var a, met := h.answer, Met(step, h.answer);
    rs := before.(records := before.records + [RecordOf(step, a)]);
    if !met { rs := rs.(overallOk := false); }
    match step {
      case DeployStep =>
        if !met { rs := rs.(abort := true); }
      case ValidateStep(expectPass) =>
        if a.ValidateReturned? {
          rs := rs.(testsTotal := rs.testsTotal + a.testsTotal, testsPassed := rs.testsPassed + a.testsPassed,
                    latencies := rs.latencies + a.latencies);
          if a.passed && expectPass && rs.failurePerf.Some? && rs.reconcileAfterFailure && rs.recoverySeconds.None? {
            rs := rs.(recoverySeconds := Some(h.doneAt - rs.failurePerf.value));
          }
        }
      case FailStep(_) =>
        if met { rs := rs.(failurePerf := Some(h.doneAt)); }
      case ReconcileStep =>
        if met && rs.failurePerf.Some? { rs := rs.(reconcileAfterFailure := true); }
      case DriftStep(_) =>
      case CleanupStep =>
    }
  }

  /** The implicit deploy, if the script has none of its own. */
  method BeginRun(steps: seq<Step>, maxSeconds: real, implicitDeploy: Happening) returns (rs: RunState)
    ensures rs == Begin(steps, maxSeconds, implicitDeploy)
  {
    hide RecordOf;
    rs := FRESH;
    if !HasDeploy(steps) {
      if implicitDeploy.checkedAt > maxSeconds {
        rs := rs.(records := rs.records + [QUOTA_RECORD], overallOk := false, abort := true);
      } else {
        rs := rs.(records := rs.records + [RecordOf(DeployStep, implicitDeploy.answer)]);
        if implicitDeploy.answer.DeployError? { rs := rs.(overallOk := false, abort := true); }
      }
    }
  }

  /** The run itself. */
  method Run(steps: seq<Step>, maxSeconds: real, implicitDeploy: Happening, hs: seq<Happening>, spec: Option<Spec>)
    returns (result: RunResult)
    requires |steps| <= |hs|
    ensures result.final == Judge(steps, maxSeconds, implicitDeploy, hs, |steps|)
    ensures result.records == result.final.records
    ensures result.passed <==> result.final.overallOk && MeetsGates(spec, result.final)
    ensures result.failedStep == if result.passed then None else FirstFailedLabel(result.records)
    ensures result.failedStep.Some? ==>
              && !result.passed
              && exists k :: IsFirstFailed(result.records, k) && result.records[k].name == result.failedStep.value
    ensures result.failedStep.None? <==>
              result.passed || forall k :: 0 <= k < |result.records| ==> result.records[k].passed
  {
    hide Execute, RecordOf, Met, FirstFailedLabel, Begin;
    var rs := BeginRun(steps, maxSeconds, implicitDeploy);
    var i := 0;
    while i < |steps|
      invariant 0 <= i <= |steps| && rs == Judge(steps, maxSeconds, implicitDeploy, hs, i)
    {
      if rs.abort {
        AbortStops(steps, maxSeconds, implicitDeploy, hs, i, |steps|);
        break;
      }
      if hs[i].checkedAt > maxSeconds {
        rs := rs.(records := rs.records + [QUOTA_RECORD], overallOk := false, abort := true);
        AbortStops(steps, maxSeconds, implicitDeploy, hs, i + 1, |steps|);
        break;
      }
      rs := ExecuteStep(rs, steps[i], hs[i]);
      i := i + 1;
    }
    var report, gatesOk := EvaluateRequirements(spec, MeasuredBy(rs));
    var ok := rs.overallOk && gatesOk;
    result := RunResult(ok, rs.records, if ok then None else FirstFailedLabel(rs.records), rs);
    FirstFailedFindsFailure(rs.records);
  }

  /** Record `k` failed and all earlier ones passed. */
  ghost predicate IsFirstFailed(records: seq<StepRecord>, k: int) {
    0 <= k < |records| && !records[k].passed && forall i :: 0 <= i < k ==> records[i].passed
  }

  // ----- verdict accounting

  /** How many records precede the script's own. */
  function Lead(steps: seq<Step>): nat {
    if HasDeploy(steps) then 0 else 1
  }

  /** The implicit deploy came back with a status that is not ACTIVE: recorded, but not held against the run. */
  predicate QuietDeployFailure(steps: seq<Step>, maxSeconds: real, h: Happening) {
    !HasDeploy(steps) && h.checkedAt <= maxSeconds && h.answer.DeployReturned? && h.answer.status != "ACTIVE"
  }

  lemma {:induction false} AbortStops(steps: seq<Step>, maxSeconds: real, implicitDeploy: Happening,
                                      hs: seq<Happening>, m: nat, n: nat)
    requires m <= n <= |steps| <= |hs| && Judge(steps, maxSeconds, implicitDeploy, hs, m).abort
    ensures Judge(steps, maxSeconds, implicitDeploy, hs, n) == Judge(steps, maxSeconds, implicitDeploy, hs, m)
  {
    hide Execute;
    if m < n { AbortStops(steps, maxSeconds, implicitDeploy, hs, m, n - 1); }
  }

  /** The records up to turn `n`: one per executed step, in order, after the implicit deploy. */
  ghost predicate RecordsFollow(steps: seq<Step>, hs: seq<Happening>, rs: RunState, n: nat)
    requires n <= |steps| <= |hs|
  {
    var lead, k := Lead(steps), |rs.records|;
    && (!rs.abort ==> k == lead + n)
    && (rs.abort ==> 0 < k <= lead + n && !rs.records[k - 1].passed && rs.records[k - 1].action in {"deploy", "quota"})
    && (forall i :: 0 <= i && lead + i < k && rs.records[lead + i] != QUOTA_RECORD ==>
          i < n && rs.records[lead + i] == RecordOf(steps[i], hs[i].answer))
    && (forall i :: 0 <= i < (if rs.abort then k - 1 else k) ==> rs.records[i] != QUOTA_RECORD)
    && (lead == 1 ==> k >= 1 && rs.records[0].action in {"deploy", "quota"})
  }

  /** Every record passed, leaving out the first one if `quiet`. */
  predicate PassedBut(records: seq<StepRecord>, quiet: bool) {
    forall i :: (if quiet then 1 else 0) <= i < |records| ==> records[i].passed
  }

  lemma RecordsGrow(steps: seq<Step>, hs: seq<Happening>, before: RunState, rs: RunState, r: StepRecord, n: nat)
    requires 0 < n <= |steps| <= |hs| && RecordsFollow(steps, hs, before, n - 1) && !before.abort
    requires rs.records == before.records + [r]
    requires (r == QUOTA_RECORD && rs.abort)
          || (r == RecordOf(steps[n - 1], hs[n - 1].answer) && (rs.abort ==> steps[n - 1] == DeployStep && !r.passed))
    ensures RecordsFollow(steps, hs, rs, n)
  {
    hide RecordOf, Lead;
    NotQuota(steps[n - 1], hs[n - 1].answer);
    assert forall i :: 0 <= i < |before.records| ==> rs.records[i] == before.records[i];
  }

  lemma PassedGrows(records: seq<StepRecord>, r: StepRecord, quiet: bool)
    requires quiet ==> records != []
    ensures PassedBut(records + [r], quiet) <==> PassedBut(records, quiet) && r.passed
  {
    var all := records + [r];
    assert forall i :: 0 <= i < |records| ==> all[i] == records[i];
    assert all[|records|] == r;
  }

  lemma {:induction false} RecordsAccount(steps: seq<Step>, maxSeconds: real, implicitDeploy: Happening,
                                          hs: seq<Happening>, n: nat)
    requires n <= |steps| <= |hs| && Answers(DeployStep, implicitDeploy.answer)
    ensures var rs := Judge(steps, maxSeconds, implicitDeploy, hs, n);
            && RecordsFollow(steps, hs, rs, n)
            && (rs.overallOk <==> PassedBut(rs.records, QuietDeployFailure(steps, maxSeconds, implicitDeploy)))
  {
    hide Met, RecordOf, RecordsFollow, PassedBut, QuietDeployFailure;
    if n == 0 {
      RecordsBegin(steps, maxSeconds, implicitDeploy, hs);
    } else {
      RecordsAccount(steps, maxSeconds, implicitDeploy, hs, n - 1);
      var before := Judge(steps, maxSeconds, implicitDeploy, hs, n - 1);
      var rs := Judge(steps, maxSeconds, implicitDeploy, hs, n);
      if before.abort { AbortedStays(steps, hs, before, n); }
      LeadRecorded(steps, maxSeconds, implicitDeploy, hs, before, n - 1);
      if !before.abort {
        var r := if hs[n - 1].checkedAt > maxSeconds then QUOTA_RECORD else RecordOf(steps[n - 1], hs[n - 1].answer);
        NotQuota(steps[n - 1], hs[n - 1].answer);
        RecordsGrow(steps, hs, before, rs, r, n);
        PassedGrows(before.records, r, QuietDeployFailure(steps, maxSeconds, implicitDeploy));
      }
    }
  }

  lemma RecordsBegin(steps: seq<Step>, maxSeconds: real, implicitDeploy: Happening, hs: seq<Happening>)
    requires |steps| <= |hs| && Answers(DeployStep, implicitDeploy.answer)
    ensures var rs := Begin(steps, maxSeconds, implicitDeploy);
            && RecordsFollow(steps, hs, rs, 0)
            && (rs.overallOk <==> PassedBut(rs.records, QuietDeployFailure(steps, maxSeconds, implicitDeploy)))
  {
    NotQuota(DeployStep, implicitDeploy.answer);
    MetDeploy(implicitDeploy.answer);
  }

  lemma AbortedStays(steps: seq<Step>, hs: seq<Happening>, rs: RunState, n: nat)
    requires 0 < n <= |steps| <= |hs| && RecordsFollow(steps, hs, rs, n - 1) && rs.abort
    ensures RecordsFollow(steps, hs, rs, n)
  {
    hide RecordOf;
  }

  lemma LeadRecorded(steps: seq<Step>, maxSeconds: real, implicitDeploy: Happening, hs: seq<Happening>, rs: RunState,
                     n: nat)
    requires n <= |steps| <= |hs| && RecordsFollow(steps, hs, rs, n)
    ensures QuietDeployFailure(steps, maxSeconds, implicitDeploy) ==> rs.records != []
  {
  }

  lemma NotQuota(s: Step, a: Reply)
    ensures RecordOf(s, a) != QUOTA_RECORD && RecordOf(s, a).action == ActionOf(s) && RecordOf(s, a).passed == Met(s, a)
  {
  }

  /**
   Every record is accounted for in order; an aborted run ends with a failed deploy or quota
   record; and the verdict is PASSED exactly when the gates hold and every record passed,
   leaving out only an implicit deploy that returned something other than ACTIVE.
   */
  lemma VerdictAccounting(steps: seq<Step>, maxSeconds: real, implicitDeploy: Happening, hs: seq<Happening>,
                          spec: Option<Spec>)
    requires |steps| <= |hs| && Answers(DeployStep, implicitDeploy.answer)
    ensures var rs := Judge(steps, maxSeconds, implicitDeploy, hs, |steps|);
            var verdict := rs.overallOk && MeetsGates(spec, rs);
            var allPassed := PassedBut(rs.records, false);
            && RecordsFollow(steps, hs, rs, |steps|)
            && (verdict <==> PassedBut(rs.records, QuietDeployFailure(steps, maxSeconds, implicitDeploy))
                             && MeetsGates(spec, rs))
            && (if QuietDeployFailure(steps, maxSeconds, implicitDeploy) then !allPassed
                else verdict <==> allPassed && MeetsGates(spec, rs))
            && (!verdict ==> (FirstFailedLabel(rs.records) == None <==> allPassed))
  {
    hide MeetsGates;
    RecordsAccount(steps, maxSeconds, implicitDeploy, hs, |steps|);
    var rs := Judge(steps, maxSeconds, implicitDeploy, hs, |steps|);
    FirstFailedFindsFailure(rs.records);
    if QuietDeployFailure(steps, maxSeconds, implicitDeploy) {
      QuietRecordFailed(steps, maxSeconds, implicitDeploy, hs, |steps|);
    }
  }

  lemma {:induction false} QuietRecordFailed(steps: seq<Step>, maxSeconds: real, implicitDeploy: Happening,
                                             hs: seq<Happening>, n: nat)
    requires n <= |steps| <= |hs| && QuietDeployFailure(steps, maxSeconds, implicitDeploy)
    ensures var rs := Judge(steps, maxSeconds, implicitDeploy, hs, n);
            rs.records != [] && !rs.records[0].passed
  {
    hide Met, RecordOf;
    NotQuota(DeployStep, implicitDeploy.answer);
    MetDeploy(implicitDeploy.answer);
    if n > 0 {
      QuietRecordFailed(steps, maxSeconds, implicitDeploy, hs, n - 1);
      OneMoreRecord(Judge(steps, maxSeconds, implicitDeploy, hs, n - 1), steps[n - 1], hs[n - 1]);
      hide Execute;
    }
  }

  lemma OneMoreRecord(rs: RunState, s: Step, h: Happening)
    ensures Execute(rs, s, h).records == rs.records + [RecordOf(s, h.answer)]
  {
    hide Met, RecordOf;
  }

  lemma MetDeploy(a: Reply)
    ensures Met(DeployStep, a) <==> a == DeployReturned("ACTIVE")
  {
  }

  /** The label is that of the first failed record, and there is none only if all passed. */
  lemma {:induction false} FirstFailedFindsFailure(records: seq<StepRecord>)
    ensures FirstFailedLabel(records) == None <==> PassedBut(records, false)
    ensures FirstFailedLabel(records).Some? ==>
              exists k :: IsFirstFailed(records, k) && records[k].name == FirstFailedLabel(records).value
  {
    if records != [] && records[0].passed {
      FirstFailedFindsFailure(records[1..]);
      assert forall i :: 1 <= i < |records| ==> records[i] == records[1..][i - 1];
      if FirstFailedLabel(records).Some? {
        var k :| IsFirstFailed(records[1..], k) && records[1..][k].name == FirstFailedLabel(records).value;
        assert IsFirstFailed(records, k + 1);
      }
    } else if records != [] {
      assert IsFirstFailed(records, 0);
    }
  }

  /**
   The runner alone does not rule this out: a run whose only record is FAILED and whose verdict
   is PASSED, should an implicit deploy say "CREATED".  `ScenarioRuns` shows that none does.
   */
  lemma QuietDeployFailureExample()
    ensures var h := Happening(0.0, DeployReturned("CREATED"), 0.0);
            var rs := Judge([], 60.0, h, [], 0);
            rs.overallOk && MeetsGates(None, rs) && |rs.records| == 1 && !rs.records[0].passed
  {
  }

  // ----- what each record says

  /** Action, name and expectation of a step's record, and that it passed if its two labels agree. */
  lemma RecordsSay(s: Step, a: Reply)
    requires Answers(s, a)
    ensures var r := RecordOf(s, a);
            && (match s
                case DeployStep => r.action == "deploy" && r.expected == "ACTIVE"
                case ValidateStep(pass) => r.action == "validate" && r.expected == if pass then "PASSED" else "FAILED"
                case FailStep(_) => r.action == "fail" && r.expected == "SUCCESS"
                case DriftStep(found) => r.action == "drift" && r.expected == if found then "DETECTED" else "CLEAN"
                case ReconcileStep => r.action == "reconcile" && r.expected == "RECONCILED"
                case CleanupStep => r.action == "cleanup" && r.expected == "CLEANED")
            && r.name == (if s.FailStep? then "fail " + s.node else r.action)
            && (r.passed <==>
                  || (r.actual == Some(r.expected) && !a.ValidateCrashed?)
                  || (s.CleanupStep? && r.actual == Some("SKIPPED")))
    ensures var actual := RecordOf(s, a).actual;
            match a
            case DeployReturned(status) => actual == Some(status)
            case ReconcileReturned(status) => actual == Some(status)
            case CleanupReturned(status) => actual == Some(status)
            case ValidateReturned(passed, _, _, _) => actual == Some(if passed then "PASSED" else "FAILED")
            case DriftReturned(detected) => actual == Some(if detected then "DETECTED" else "CLEAN")
            case FailReturned => actual == Some("SUCCESS")
            case DriftRefused => actual == None
            case ReconcileRefused => actual == None
            case _ => actual == Some("FAILED")
  {
  }

  // ----- when a run is cut short

  predicate IsLate(maxSeconds: real, h: Happening) { h.checkedAt > maxSeconds }

  /** Turn `i` ends the run: it comes too late, or it is a deploy that does not answer ACTIVE. */
  predicate EndsAt(steps: seq<Step>, maxSeconds: real, hs: seq<Happening>, i: nat)
    requires i < |steps| <= |hs|
  {
    IsLate(maxSeconds, hs[i]) || (steps[i] == DeployStep && hs[i].answer != DeployReturned("ACTIVE"))
  }

  /** The implicit deploy does: it comes too late, or it raises. */
  predicate EndsBefore(steps: seq<Step>, maxSeconds: real, implicitDeploy: Happening) {
    DeployStep !in steps && (IsLate(maxSeconds, implicitDeploy) || implicitDeploy.answer.DeployError?)
  }

  lemma EndedBefore(steps: seq<Step>, maxSeconds: real, implicitDeploy: Happening, hs: seq<Happening>, n: nat)
    requires n <= |steps| <= |hs| && EndsBefore(steps, maxSeconds, implicitDeploy)
    ensures var rs := Judge(steps, maxSeconds, implicitDeploy, hs, n);
            && rs.abort && !rs.overallOk
            && rs.records == [if IsLate(maxSeconds, implicitDeploy) then QUOTA_RECORD
                              else RecordOf(DeployStep, implicitDeploy.answer)]
  {
    AbortStops(steps, maxSeconds, implicitDeploy, hs, 0, n);
  }

  /** As long as no turn ends the run, every step has its record and none is about the quota. */
  lemma {:induction false} NotYetEnded(steps: seq<Step>, maxSeconds: real, implicitDeploy: Happening,
                                       hs: seq<Happening>, n: nat)
    requires n <= |steps| <= |hs| && !EndsBefore(steps, maxSeconds, implicitDeploy)
    requires forall i :: 0 <= i < n ==> !EndsAt(steps, maxSeconds, hs, i)
    ensures var rs := Judge(steps, maxSeconds, implicitDeploy, hs, n);
            && !rs.abort && QUOTA_RECORD !in rs.records
            && |rs.records| == n + if DeployStep in steps then 0 else 1
  {
    hide RecordOf;
    if n > 0 {
      NotYetEnded(steps, maxSeconds, implicitDeploy, hs, n - 1);
      NotQuota(steps[n - 1], hs[n - 1].answer);
      assert !EndsAt(steps, maxSeconds, hs, n - 1);
    } else {
      NotQuota(DeployStep, implicitDeploy.answer);
    }
  }

  /** The first turn that ends it has the last record: the quota's, or that of the failed deploy. */
  lemma EndsAtFirst(steps: seq<Step>, maxSeconds: real, implicitDeploy: Happening, hs: seq<Happening>, f: nat, n: nat)
    requires f < n <= |steps| <= |hs| && !EndsBefore(steps, maxSeconds, implicitDeploy)
    requires EndsAt(steps, maxSeconds, hs, f) && forall i :: 0 <= i < f ==> !EndsAt(steps, maxSeconds, hs, i)
    ensures var rs := Judge(steps, maxSeconds, implicitDeploy, hs, n);
            && rs.abort && !rs.overallOk
            && rs.records == Judge(steps, maxSeconds, implicitDeploy, hs, f).records
                 + [if IsLate(maxSeconds, hs[f]) then QUOTA_RECORD else RecordOf(DeployStep, hs[f].answer)]
            && |rs.records| == f + 1 + if DeployStep in steps then 0 else 1
  {
    hide RecordOf;
    NotYetEnded(steps, maxSeconds, implicitDeploy, hs, f);
    AbortStops(steps, maxSeconds, implicitDeploy, hs, f + 1, n);
  }

  // ----- the gates

  /** Availability, mean latency, 95th percentile and recovery time, each against its own threshold. */
  lemma GatesExactly(spec: Spec, rs: RunState)
    ensures MeetsGates(Some(spec), rs) <==>
              && (spec.minSuccessRate.Some? ==>
                    (if rs.testsTotal == 0 then 1.0 else rs.testsPassed as real / rs.testsTotal as real)
                      >= spec.minSuccessRate.value)
              && (spec.maxAvgMs.Some? ==>
                    rs.latencies != [] && PingMetrics.Sum(rs.latencies) / |rs.latencies| as real <= spec.maxAvgMs.value)
              && (spec.maxP95Ms.Some? ==>
                    rs.latencies != [] && PingMetrics.P95Latency(rs.latencies).value <= spec.maxP95Ms.value)
              && (spec.maxRecoverySeconds.Some? ==>
                    rs.recoverySeconds.Some? && rs.recoverySeconds.value <= spec.maxRecoverySeconds.value)
    ensures MeetsGates(None, rs)
  {
    hide PingMetrics.RankIndex;
  }

  // ----- recovery time

  predicate FailedOk(s: Step, h: Happening) { s.FailStep? && h.answer.FailReturned? }
  predicate ReconciledOk(s: Step, h: Happening) { s.ReconcileStep? && h.answer == ReconcileReturned("RECONCILED") }
  predicate PassedOk(s: Step, h: Happening) { s == ValidateStep(true) && h.answer.ValidateReturned? && h.answer.passed }

  /** `f` is the latest successful fault before turn `n`. */
  ghost predicate LatestFault(steps: seq<Step>, hs: seq<Happening>, f: int, n: int)
    requires n <= |steps| <= |hs|
  {
    0 <= f < n && FailedOk(steps[f], hs[f]) && forall i :: f < i < n ==> !FailedOk(steps[i], hs[i])
  }

  ghost predicate FaultThenReconcile(steps: seq<Step>, hs: seq<Happening>, n: int)
    requires n <= |steps| <= |hs|
  {
    exists f, r :: 0 <= f < r < n && FailedOk(steps[f], hs[f]) && ReconciledOk(steps[r], hs[r])
  }

  /** Turn `v` is the first expected pass after a fault and a later reconcile. */
  ghost predicate FirstRecovery(steps: seq<Step>, hs: seq<Happening>, v: int, n: int)
    requires n <= |steps| <= |hs|
  {
    && 0 <= v < n && PassedOk(steps[v], hs[v]) && FaultThenReconcile(steps, hs, v)
    && forall u :: 0 <= u < v ==> !(PassedOk(steps[u], hs[u]) && FaultThenReconcile(steps, hs, u))
  }

  ghost predicate Measures(steps: seq<Step>, hs: seq<Happening>, rs: RunState, n: nat)
    requires n <= |steps| <= |hs|
  {
    FaultKnown(steps, hs, rs, n) && (rs.reconcileAfterFailure <==> FaultThenReconcile(steps, hs, n))
    && RecoveryKnown(steps, hs, rs, n)
  }

  ghost predicate FaultKnown(steps: seq<Step>, hs: seq<Happening>, rs: RunState, n: nat)
    requires n <= |steps| <= |hs|
  {
    && (rs.failurePerf.None? ==> forall i :: 0 <= i < n ==> !FailedOk(steps[i], hs[i]))
    && (rs.failurePerf.Some? ==> exists f :: LatestFault(steps, hs, f, n) && rs.failurePerf == Some(hs[f].doneAt))
  }

  ghost predicate RecoveryKnown(steps: seq<Step>, hs: seq<Happening>, rs: RunState, n: nat)
    requires n <= |steps| <= |hs|
  {
    && (rs.recoverySeconds.None? ==> forall v :: 0 <= v < n ==>
          !(PassedOk(steps[v], hs[v]) && FaultThenReconcile(steps, hs, v)))
    && (rs.recoverySeconds.Some? ==> exists v, f ::
          FirstRecovery(steps, hs, v, n) && LatestFault(steps, hs, f, v)
            && rs.recoverySeconds == Some(hs[v].doneAt - hs[f].doneAt))
  }

  lemma ReconcileFlagStep(steps: seq<Step>, hs: seq<Happening>, n: nat)
    requires 0 < n <= |steps| <= |hs|
    ensures FaultThenReconcile(steps, hs, n) <==>
              || FaultThenReconcile(steps, hs, n - 1)
              || (ReconciledOk(steps[n - 1], hs[n - 1]) && exists f :: 0 <= f < n - 1 && FailedOk(steps[f], hs[f]))
    ensures FaultThenReconcile(steps, hs, n - 1) ==> exists f :: 0 <= f < n - 1 && FailedOk(steps[f], hs[f])
  {
    hide FailedOk, ReconciledOk;
    if FaultThenReconcile(steps, hs, n) {
      var f, r :| 0 <= f < r < n && FailedOk(steps[f], hs[f]) && ReconciledOk(steps[r], hs[r]);
    }
    if ReconciledOk(steps[n - 1], hs[n - 1]) {
      if f :| 0 <= f < n - 1 && FailedOk(steps[f], hs[f]) {
        assert 0 <= f < n - 1 < n && FailedOk(steps[f], hs[f]) && ReconciledOk(steps[n - 1], hs[n - 1]);
      }
    }
  }

  lemma MeasuresStep(steps: seq<Step>, hs: seq<Happening>, rs: RunState, n: nat)
    requires 0 < n <= |steps| <= |hs| && Measures(steps, hs, rs, n - 1)
    requires forall i :: 0 <= i < |steps| ==> Answers(steps[i], hs[i].answer)
    ensures Measures(steps, hs, Execute(rs, steps[n - 1], hs[n - 1]), n)
  {
    assert Answers(steps[n - 1], hs[n - 1].answer);
    FaultKnownStep(steps, hs, rs, n);
    RecoveryKnownStep(steps, hs, rs, n);
    FaultIsKnown(steps, hs, rs, n - 1);
    FlagStep(steps, hs, rs, n);
    hide Execute, FaultThenReconcile, FaultKnown, RecoveryKnown;
  }

  lemma FlagStep(steps: seq<Step>, hs: seq<Happening>, rs: RunState, n: nat)
    requires 0 < n <= |steps| <= |hs| && Answers(steps[n - 1], hs[n - 1].answer)
    requires rs.reconcileAfterFailure <==> FaultThenReconcile(steps, hs, n - 1)
    requires rs.failurePerf.Some? <==> exists f :: 0 <= f < n - 1 && FailedOk(steps[f], hs[f])
    ensures Execute(rs, steps[n - 1], hs[n - 1]).reconcileAfterFailure <==> FaultThenReconcile(steps, hs, n)
  {
    ReconcileFlagStep(steps, hs, n);
    hide RecordOf, FaultThenReconcile, FailedOk;
  }

  lemma FaultIsKnown(steps: seq<Step>, hs: seq<Happening>, rs: RunState, n: nat)
    requires n <= |steps| <= |hs| && FaultKnown(steps, hs, rs, n)
    ensures rs.failurePerf.Some? <==> exists f :: 0 <= f < n && FailedOk(steps[f], hs[f])
  {
    hide FailedOk;
  }

  lemma FaultKnownStep(steps: seq<Step>, hs: seq<Happening>, rs: RunState, n: nat)
    requires 0 < n <= |steps| <= |hs| && FaultKnown(steps, hs, rs, n - 1) && Answers(steps[n - 1], hs[n - 1].answer)
    ensures FaultKnown(steps, hs, Execute(rs, steps[n - 1], hs[n - 1]), n)
  {
    hide RecordOf;
    if FailedOk(steps[n - 1], hs[n - 1]) {
      assert LatestFault(steps, hs, n - 1, n);
    } else if rs.failurePerf.Some? {
      var f :| LatestFault(steps, hs, f, n - 1) && rs.failurePerf == Some(hs[f].doneAt);
      assert LatestFault(steps, hs, f, n);
    }
  }

  lemma RecoveryKnownStep(steps: seq<Step>, hs: seq<Happening>, rs: RunState, n: nat)
    requires 0 < n <= |steps| <= |hs| && Measures(steps, hs, rs, n - 1) && Answers(steps[n - 1], hs[n - 1].answer)
    ensures RecoveryKnown(steps, hs, Execute(rs, steps[n - 1], hs[n - 1]), n)
  {
    hide RecordOf, FaultThenReconcile;
    ReconcileFlagStep(steps, hs, n);
    if rs.recoverySeconds.Some? {
      var v, f :| FirstRecovery(steps, hs, v, n - 1) && LatestFault(steps, hs, f, v)
                  && rs.recoverySeconds == Some(hs[v].doneAt - hs[f].doneAt);
      assert FirstRecovery(steps, hs, v, n);
    } else if Execute(rs, steps[n - 1], hs[n - 1]).recoverySeconds.Some? {
      var f :| LatestFault(steps, hs, f, n - 1) && rs.failurePerf == Some(hs[f].doneAt);
      assert FirstRecovery(steps, hs, n - 1, n) && LatestFault(steps, hs, f, n - 1);
    }
  }

  /** The turns that were executed: all of them unless the run was cut short. */
  function Executed(steps: seq<Step>, maxSeconds: real, implicitDeploy: Happening, hs: seq<Happening>, n: nat): (k: nat)
    requires n <= |steps| <= |hs|
    ensures k <= n
  {
    if n == 0 then 0
    else if Judge(steps, maxSeconds, implicitDeploy, hs, n - 1).abort || hs[n - 1].checkedAt > maxSeconds
    then Executed(steps, maxSeconds, implicitDeploy, hs, n - 1)
    else n
  }

  // ----- aggregates

  predicate Counted(s: Step, a: Reply) { s.ValidateStep? && a.ValidateReturned? }

  /** The replies of the validations among the first `k` turns that returned, in order. */
  function ValidationReplies(steps: seq<Step>, hs: seq<Happening>, k: nat): seq<Reply>
    requires k <= |steps| <= |hs|
  {
    if k == 0 then [] else
      ValidationReplies(steps, hs, k - 1) + if Counted(steps[k - 1], hs[k - 1].answer) then [hs[k - 1].answer] else []
  }

  function SumOf(f: Reply -> nat, rs: seq<Reply>): nat {
    if rs == [] then 0 else SumOf(f, rs[..|rs| - 1]) + f(rs[|rs| - 1])
  }

  function Joined(f: Reply -> seq<real>, rs: seq<Reply>): seq<real> {
    if rs == [] then [] else Joined(f, rs[..|rs| - 1]) + f(rs[|rs| - 1])
  }

  function TotalOf(a: Reply): nat { if a.ValidateReturned? then a.testsTotal else 0 }
  function PassedOf(a: Reply): nat { if a.ValidateReturned? then a.testsPassed else 0 }
  function LatenciesOf(a: Reply): seq<real> { if a.ValidateReturned? then a.latencies else [] }

  ghost predicate Aggregates(rs: RunState, returned: seq<Reply>) {
    && rs.testsTotal == SumOf(TotalOf, returned) && rs.testsPassed == SumOf(PassedOf, returned)
    && rs.latencies == Joined(LatenciesOf, returned)
  }

  lemma AggregatesNext(rs: RunState, returned: seq<Reply>, s: Step, h: Happening)
    requires Aggregates(rs, returned)
    ensures Aggregates(Execute(rs, s, h), returned + if Counted(s, h.answer) then [h.answer] else [])
  {
    ExecuteAdds(rs, s, h);
    hide Execute, Counted, SumOf, Joined;
    if Counted(s, h.answer) {
      SumsNext(returned, h.answer);
    } else {
      assert returned + [] == returned;
    }
  }

  lemma SumsNext(returned: seq<Reply>, a: Reply)
    ensures SumOf(TotalOf, returned + [a]) == SumOf(TotalOf, returned) + TotalOf(a)
    ensures SumOf(PassedOf, returned + [a]) == SumOf(PassedOf, returned) + PassedOf(a)
    ensures Joined(LatenciesOf, returned + [a]) == Joined(LatenciesOf, returned) + LatenciesOf(a)
  {
    hide TotalOf, PassedOf, LatenciesOf;
    assert (returned + [a])[..|returned|] == returned;
  }

  lemma ExecuteAdds(rs: RunState, s: Step, h: Happening)
    ensures var rs', a, counted := Execute(rs, s, h), h.answer, Counted(s, h.answer);
            && rs'.testsTotal == rs.testsTotal + (if counted then TotalOf(a) else 0)
            && rs'.testsPassed == rs.testsPassed + (if counted then PassedOf(a) else 0)
            && rs'.latencies == if counted then rs.latencies + LatenciesOf(a) else rs.latencies
  {
    hide RecordOf, Met;
  }

  /**
   The totals that the requirement gates see are those of the executed validations that
   returned, each counted once and in order, whether or not its expectation was met.
   */
  lemma {:induction false} TotalsAggregate(steps: seq<Step>, maxSeconds: real, implicitDeploy: Happening,
                                           hs: seq<Happening>, n: nat)
    requires n <= |steps| <= |hs|
    ensures Aggregates(Judge(steps, maxSeconds, implicitDeploy, hs, n),
                       ValidationReplies(steps, hs, Executed(steps, maxSeconds, implicitDeploy, hs, n)))
  {
    hide RecordOf, Met, Execute, Counted;
    if n > 0 {
      TotalsAggregate(steps, maxSeconds, implicitDeploy, hs, n - 1);
      var before := Judge(steps, maxSeconds, implicitDeploy, hs, n - 1);
      if !before.abort && hs[n - 1].checkedAt <= maxSeconds {
        NotAborted(steps, maxSeconds, implicitDeploy, hs, n - 1);
        AggregatesNext(before, ValidationReplies(steps, hs, n - 1), steps[n - 1], hs[n - 1]);
      }
    }
  }

  /** Turn by turn: a validation that returned adds its tests and all its replies, nothing else adds any. */
  lemma EachTurnAdds(steps: seq<Step>, maxSeconds: real, implicitDeploy: Happening, hs: seq<Happening>, n: nat)
    requires n < |steps| <= |hs|
    ensures var before := Judge(steps, maxSeconds, implicitDeploy, hs, n);
            var after := Judge(steps, maxSeconds, implicitDeploy, hs, n + 1);
            var a := hs[n].answer;
            if !before.abort && !IsLate(maxSeconds, hs[n]) && steps[n].ValidateStep? && a.ValidateReturned?
            then && after.testsTotal == before.testsTotal + a.testsTotal
                 && after.testsPassed == before.testsPassed + a.testsPassed
                 && after.latencies == before.latencies + a.latencies
            else && after.testsTotal == before.testsTotal && after.testsPassed == before.testsPassed
                 && after.latencies == before.latencies
    ensures var start := Judge(steps, maxSeconds, implicitDeploy, hs, 0);
            start.testsTotal == 0 == start.testsPassed && start.latencies == []
  {
    hide RecordOf, Met;
  }

  lemma {:induction false} NotAborted(steps: seq<Step>, maxSeconds: real, implicitDeploy: Happening,
                                      hs: seq<Happening>, n: nat)
    requires n <= |steps| <= |hs| && !Judge(steps, maxSeconds, implicitDeploy, hs, n).abort
    ensures Executed(steps, maxSeconds, implicitDeploy, hs, n) == n
  {
    hide Execute;
    if n > 0 { NotAborted(steps, maxSeconds, implicitDeploy, hs, n - 1); }
  }

  /**
   Recovery is measured at most once, at the first expected-pass validation that passed after a
   successful fault and a later successful reconcile, from the latest fault before it.
   */
  lemma {:induction false} RecoveryMeasured(steps: seq<Step>, maxSeconds: real, implicitDeploy: Happening,
                                            hs: seq<Happening>, n: nat)
    requires n <= |steps| <= |hs| && forall i :: 0 <= i < |steps| ==> Answers(steps[i], hs[i].answer)
    ensures Measures(steps, hs, Judge(steps, maxSeconds, implicitDeploy, hs, n),
                     Executed(steps, maxSeconds, implicitDeploy, hs, n))
    ensures !Judge(steps, maxSeconds, implicitDeploy, hs, n).abort ==>
              Executed(steps, maxSeconds, implicitDeploy, hs, n) == n
  {
    hide Execute, RecordOf;
    if n > 0 {
      RecoveryMeasured(steps, maxSeconds, implicitDeploy, hs, n - 1);
      var before := Judge(steps, maxSeconds, implicitDeploy, hs, n - 1);
      if !before.abort && hs[n - 1].checkedAt <= maxSeconds { MeasuresStep(steps, hs, before, n); }
    }
  }
}
