/** One training run under the reconciler: its attempts, its evaluations and its weight
    service, with the effect of a reconcile and of the calls around it as values. */
module ReconcilerModel {
  import opened Basics
  import W = WeightModel

  type Version = W.Version

  datatype Status =
    | Starting | Running | Suspended | Cancelling | Evaluating | Canary
    | Completed | Cancelled | Failed

  datatype Desired = ToRun | ToSuspend | ToCancel

  predicate IsTerminal(s: Status) {
    s == Completed || s == Cancelled || s == Failed
  }

  // ----- Gates -----

  datatype Operator = AtLeast | MoreThan | AtMost | LessThan | UnknownOperator(text: string)

  datatype Gate = Gate(metric: string, operator: Operator, threshold: real)

  predicate Satisfies(value: real, gate: Gate) {
    match gate.operator
    case AtLeast => value >= gate.threshold
    case MoreThan => value > gate.threshold
    case AtMost => value <= gate.threshold
    case LessThan => value < gate.threshold
    case UnknownOperator(_) => false
  }

  /** Every gate has its metric, and the metric satisfies it. */
  predicate GatesPass(gates: seq<Gate>, metrics: map<string, real>) {
    forall i :: 0 <= i < |gates| ==> gates[i].metric in metrics && Satisfies(metrics[gates[i].metric], gates[i])
  }

  // ----- State -----

  datatype Verdict = Pending | InProgress | AwaitingMetrics | Passed | FailedVerdict

  datatype Evaluation = Evaluation(verdict: Verdict, gatesPassed: bool, final: bool, canary: Verdict)

  /** attempt is the number of the current attempt, 0 when there is none. */
  datatype Run = Run(status: Status, desired: Desired, attempt: nat, policyVersion: Version, lastGood: Version,
                     checkpointId: string)

  datatype AttemptStatus = AttemptStarting | AttemptRunning | AttemptCompleted | AttemptFailed

  datatype State = State(
    run: Run, attempts: map<nat, AttemptStatus>, evaluations: map<Version, Evaluation>, weights: W.RunState)

  /** What the run's immutable snapshot fixes. */
  datatype Spec = Spec(gates: seq<Gate>, needsEvaluation: bool, disaggregated: bool, maxRetriesArgument: Option<int>)

  /** The retry bound: two, unless the argument is a number from 0 to 10. */
  function MaxRetries(spec: Spec): (n: nat)
    ensures n <= 10
    ensures forall k: nat :: k <= 10 && spec.maxRetriesArgument == Some(k) ==> n == k
    ensures (forall k: nat :: k <= 10 ==> spec.maxRetriesArgument != Some(k)) ==> n == 2
  {
    match spec.maxRetriesArgument
    case Some(n) => if 0 <= n <= 10 then n else 2
    case None => 2
  }

  // ----- What a reconcile meets outside -----

  datatype Observed = JobSucceeded | JobFailed | JobOther

  /** The answers of the cluster, the database and the weight service during one reconcile.
      A flag that is false, or an answer that is None, is a call that failed. */
  datatype Answers = Answers(
    discovered: bool, suspended: bool, deleted: Option<bool>, infrastructure: bool, prepared: bool,
    latestCheckpoint: Option<(string, Version)>, checkpointLoaded: bool, job: Option<Observed>,
    stableApplied: bool, evaluator: Option<Observed>, canaryApplied: bool, canary: Option<Observed>,
    hasPromotions: bool, weightsSave: bool, reason: string)

  // ----- Attempts -----

  /** The current attempt, or a new one numbered after those there are. */
  function EnsureAttempt(s: State): State {
    if s.run.attempt != 0 then s
    else
      var number := |s.attempts| + 1;
      s.(attempts := s.attempts[number := AttemptStarting], run := s.run.(attempt := number, status := Starting))
  }

  function Observe(spec: Spec, s: State, job: Observed): State {
    match job
    case JobSucceeded =>
      var finished := s.(attempts := s.attempts[s.run.attempt := AttemptCompleted]);
      if spec.needsEvaluation then
        finished.(evaluations := s.evaluations[s.run.policyVersion := Evaluation(Pending, false, true, Pending)],
                  run := s.run.(status := Evaluating))
      else finished.(run := s.run.(status := Completed))
    case JobFailed =>
      s.(attempts := s.attempts[s.run.attempt := AttemptFailed],
         run := if s.run.attempt <= MaxRetries(spec)
                then s.run.(attempt := 0, status := Starting) else s.run.(status := Failed))
    case JobOther =>
      s.(attempts := s.attempts[s.run.attempt := AttemptRunning], run := s.run.(status := Running))
  }

  /** A run with no checkpoint of its own takes over the latest committed one. */
  function ResumeFrom(run: Run, latest: Option<(string, Version)>): Run {
    if run.checkpointId == "" && latest.Some?
    then run.(checkpointId := latest.value.0, policyVersion := latest.value.1) else run
  }

  /** The current attempt is set going, from the run's checkpoint if it has one, and its job observed. */
  function GoOn(spec: Spec, s: State, a: Answers): State {
    var t := s.(run := ResumeFrom(s.run, a.latestCheckpoint));
    if !a.prepared then s
    else if (t.run.checkpointId != "" && !a.checkpointLoaded) || a.job.None? then t
    else Observe(spec, t, a.job.value)
  }

  function Attempt(spec: Spec, s: State, a: Answers): State {
    if !a.infrastructure || (s.run.attempt != 0 && s.run.attempt !in s.attempts) then s
    else GoOn(spec, EnsureAttempt(s), a)
  }

  // ----- Evaluation -----

  /** The run and the evaluation record as a reconcile has changed them in memory; None once a call has failed. */
  datatype Draft = Draft(run: Run, evaluation: Option<Evaluation>)

  function EvaluatorStep(d: Draft, a: Answers): Draft
    requires d.evaluation.Some?
  {
    var e := d.evaluation.value;
    if d.run.status != Evaluating then d
    else if a.evaluator.None? then Draft(d.run, None)
    else match a.evaluator.value
      case JobFailed => Draft(d.run, Some(e.(verdict := FailedVerdict)))
      case JobSucceeded =>
        if e.verdict == Passed && e.gatesPassed then
          if !a.canaryApplied then Draft(d.run, None)
          else Draft(d.run.(status := Canary), Some(e.(canary := InProgress)))
        else if e.verdict != FailedVerdict then Draft(d.run, Some(e.(verdict := AwaitingMetrics)))
        else d
      case JobOther => Draft(d.run, Some(e.(verdict := InProgress)))
  }

  function CanaryStep(d: Draft, a: Answers): Draft {
    if d.evaluation.None? || d.run.status != Canary || d.evaluation.value.canary != InProgress then d
    else if a.canary.None? then Draft(d.run, None)
    else if a.canary.value == JobFailed then Draft(d.run, Some(d.evaluation.value.(canary := FailedVerdict)))
    else d
  }

  predicate HasFailed(e: Evaluation) {
    e.verdict == FailedVerdict || e.canary == FailedVerdict
  }

  predicate IsRipe(run: Run, e: Evaluation) {
    !HasFailed(e) && run.status == Canary && e.canary == Passed
  }

  function Resolved(run: Run, e: Evaluation): Run {
    run.(status := if e.final then Completed else Running)
  }

  /** The end of an evaluation reconcile: rollback, promotion, or neither; only when every
      call went through is the evaluation record saved.  The run is saved in any case. */
  function Settle(s: State, version: Version, d: Draft, a: Answers): State {
    if d.evaluation.None? then s.(run := d.run)
    else
      var e := d.evaluation.value;
      if HasFailed(e) then
        if !a.hasPromotions || s.weights.lastGood == "" || !a.weightsSave then s.(run := d.run)
        else s.(run := Resolved(d.run, e).(policyVersion := s.weights.lastGood),
                evaluations := s.evaluations[version := e],
                weights := W.AfterRollback(s.weights, a.reason))
      else if IsRipe(d.run, e) then
        if !a.hasPromotions || s.weights.active != d.run.policyVersion || !a.weightsSave then s.(run := d.run)
        else s.(run := Resolved(d.run, e).(lastGood := d.run.policyVersion),
                evaluations := s.evaluations[version := e],
                weights := W.AfterMarkGood(s.weights, d.run.policyVersion))
      else s.(run := d.run, evaluations := s.evaluations[version := e])
  }

  function Drafted(s: State, a: Answers): Draft
    requires s.run.policyVersion in s.evaluations
  {
    CanaryStep(EvaluatorStep(Draft(s.run, Some(s.evaluations[s.run.policyVersion])), a), a)
  }

  function Evaluate(spec: Spec, s: State, a: Answers): State {
    if s.run.policyVersion !in s.evaluations || s.run.attempt !in s.attempts
       || (spec.disaggregated && !a.stableApplied) then s
    else Settle(s, s.run.policyVersion, Drafted(s, a), a)
  }

  // ----- The whole reconcile -----

  /** Terminal runs are skipped.  A call that fails ends the reconcile, and what it had
      already changed on the run is saved all the same. */
  function AfterReconcile(spec: Spec, s: State, a: Answers): State {
    if IsTerminal(s.run.status) || !a.discovered then s
    else if s.run.desired == ToCancel || s.run.status == Cancelling then
      if s.run.status != Cancelling then
        if !a.suspended then s else s.(run := s.run.(status := Cancelling))
      else if a.deleted == Some(true) then s.(run := s.run.(status := Cancelled))
      else s
    else if s.run.desired == ToSuspend then
      if !a.suspended then s else s.(run := s.run.(status := Suspended))
    else if s.run.status == Evaluating || s.run.status == Canary then Evaluate(spec, s, a)
    else Attempt(spec, s, a)
  }

  // ----- The calls around it -----

  /** The evaluator's report for one version, of the main phase or of the canary. */
  function AfterPost(spec: Spec, s: State, version: Version, canary: bool, metrics: map<string, real>): State {
    if version !in s.evaluations then s
    else
      var e, pass := s.evaluations[version], GatesPass(spec.gates, metrics);
      var posted :=
        if canary then e.(canary := if pass then Passed else FailedVerdict)
        else e.(verdict := if pass then Passed else FailedVerdict, gatesPassed := pass);
      s.(evaluations := s.evaluations[version := posted])
  }

  /** A committed checkpoint that falls due for evaluation puts the run into evaluation. */
  function AfterSchedule(s: State, checkpointId: string, version: Version): State {
    s.(run := s.run.(checkpointId := checkpointId, policyVersion := version, status := Evaluating),
       evaluations := s.evaluations[version := Evaluation(Pending, false, false, Pending)])
  }

  function AfterDesire(s: State, desired: Desired): State {
    if desired == ToCancel then s.(run := s.run.(desired := ToCancel, status := Cancelling))
    else if IsTerminal(s.run.status) then s
    else s.(run := s.run.(desired := desired, status := if desired == ToRun then Starting else s.run.status))
  }
}
