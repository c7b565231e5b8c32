/** What a reconcile brings about, read off the records it finds and the answers it gets: how an
    evaluation ends, and what an observed job does to the run. */
module ReconcilerProgress {
  import opened Basics
  import opened ReconcilerModel
  import opened ReconcilerRuns
  import W = WeightModel
  import WeightProgress

  // ----- Evaluation -----

  /** A reconcile that gets to deal with the run's evaluation. */
  predicate DealsWithEvaluation(spec: Spec, s: State, a: Answers) {
    && a.discovered && s.run.desired == ToRun && (s.run.status == Evaluating || s.run.status == Canary)
    && s.run.policyVersion in s.evaluations && s.run.attempt in s.attempts && (spec.disaggregated ==> a.stableApplied)
  }

  predicate HasPassedGates(e: Evaluation) {
    e.verdict == Passed && e.gatesPassed
  }

  predicate HasFailedSomewhere(e: Evaluation) {
    e.verdict == FailedVerdict || e.canary == FailedVerdict
  }

  /** The main evaluation is over and passed: the canary goes out. */
  predicate SendsCanary(status: Status, e: Evaluation, a: Answers) {
    status == Evaluating && a.evaluator == Some(JobSucceeded) && HasPassedGates(e) && a.canaryApplied
  }

  /** The verdict or the canary is a failure, by the record or by the job just observed.  A running
      evaluator overwrites the recorded main verdict, and a canary that goes out its earlier fate. */
  predicate EndsInFailure(status: Status, e: Evaluation, a: Answers) {
    if status == Canary then
      if e.canary != InProgress then HasFailedSomewhere(e)
      else a.canary.Some? && (a.canary.value == JobFailed || e.verdict == FailedVerdict)
    else
      match a.evaluator
      case None => false
      case Some(JobFailed) => true
      case Some(JobOther) => e.canary == FailedVerdict
      case Some(JobSucceeded) =>
        if HasPassedGates(e) then a.canaryApplied && a.canary == Some(JobFailed) else HasFailedSomewhere(e)
  }

  predicate RollsBack(s: State, a: Answers)
    requires s.run.policyVersion in s.evaluations
  {
    && EndsInFailure(s.run.status, s.evaluations[s.run.policyVersion], a)
    && a.hasPromotions && s.weights.lastGood != "" && a.weightsSave
  }

  predicate IsPromoted(s: State, a: Answers)
    requires s.run.policyVersion in s.evaluations
  {
    var e := s.evaluations[s.run.policyVersion];
    && s.run.status == Canary && e.canary == Passed && e.verdict != FailedVerdict
    && a.hasPromotions && s.weights.active == s.run.policyVersion && a.weightsSave
  }

  lemma DraftedExactly(s: State, a: Answers)
    requires s.run.policyVersion in s.evaluations && (s.run.status == Evaluating || s.run.status == Canary)
    ensures var d, e := Drafted(s, a), s.evaluations[s.run.policyVersion];
            && d.run == s.run.(status := if SendsCanary(s.run.status, e, a) then Canary else s.run.status)
            && (d.evaluation.Some? && HasFailed(d.evaluation.value) <==> EndsInFailure(s.run.status, e, a))
            && (d.evaluation.Some? && IsRipe(d.run, d.evaluation.value) <==>
                s.run.status == Canary && e.canary == Passed && e.verdict != FailedVerdict)
            && (d.evaluation.Some? ==> d.evaluation.value.final == e.final)
  {
  }

  /** How the run comes out of a reconcile of its evaluation. */
  ghost predicate Settles(s: State, a: Answers, s': State)
    requires s.run.policyVersion in s.evaluations
  {
    var v, e := s.run.policyVersion, s.evaluations[s.run.policyVersion];
    && s'.run.policyVersion == (if RollsBack(s, a) then s.weights.lastGood else v)
    && s'.run.lastGood == (if IsPromoted(s, a) then v else s.run.lastGood)
    && s'.run.status == (if RollsBack(s, a) || IsPromoted(s, a) then if e.final then Completed else Running
                         else if SendsCanary(s.run.status, e, a) then Canary else s.run.status)
    && s'.attempts == s.attempts && s'.run.attempt == s.run.attempt && s'.run.desired == s.run.desired
    && (RollsBack(s, a) ==> IsSentBack(s.weights, s'.weights))
    && (IsPromoted(s, a) ==> s'.weights.lastGood == s'.weights.active == v)
    && (!RollsBack(s, a) && !IsPromoted(s, a) ==> s'.weights == s.weights)
    && forall w :: w in s.evaluations && w != v ==> w in s'.evaluations && s'.evaluations[w] == s.evaluations[w]
  }

  ghost predicate IsSettled(spec: Spec, s: State, a: Answers, s': State) {
    DealsWithEvaluation(spec, s, a) ==> Settles(s, a, s')
  }

  /** The weight service is back on its last-good version, and so is every engine, drained. */
  ghost predicate IsSentBack(w: W.RunState, w': W.RunState) {
    && w'.active == w'.lastGood == w.lastGood && w'.engines.Keys == w.engines.Keys
    && forall id :: id in w.engines ==> w'.engines[id].desired == w.lastGood && w'.engines[id].draining
  }

  lemma SettleExactly(s: State, d: Draft, a: Answers, e: Evaluation)
    requires s.run.policyVersion in s.evaluations && s.evaluations[s.run.policyVersion] == e
    requires d.run == s.run.(status := if SendsCanary(s.run.status, e, a) then Canary else s.run.status)
    requires d.evaluation.Some? && HasFailed(d.evaluation.value) <==> EndsInFailure(s.run.status, e, a)
    requires d.evaluation.Some? && IsRipe(d.run, d.evaluation.value) <==>
             s.run.status == Canary && e.canary == Passed && e.verdict != FailedVerdict
    requires d.evaluation.Some? ==> d.evaluation.value.final == e.final
    ensures Settles(s, a, Settle(s, s.run.policyVersion, d, a))
  {
    if s.weights.lastGood != "" {
      WeightProgress.RollbackRepoints(s.weights, a.reason);
    }
  }

  /** A reconcile of an evaluation: a failure rolls run and weight service back to the last-good
      version, with every engine, whenever that is possible; a passed canary promotes whenever that
      is possible; a passed main evaluation sends the canary out; and nothing else moves the run. */
  lemma EvaluationSettles(spec: Spec, s: State, a: Answers)
    ensures IsSettled(spec, s, a, AfterReconcile(spec, s, a))
  {
    if DealsWithEvaluation(spec, s, a) {
      DraftedExactly(s, a);
      SettleExactly(s, Drafted(s, a), a, s.evaluations[s.run.policyVersion]);
      assert AfterReconcile(spec, s, a) == Settle(s, s.run.policyVersion, Drafted(s, a), a);
    }
  }

  lemma EvaluateSettles(spec: Spec, s: State, a: Answers)
    requires a.discovered && s.run.desired == ToRun && (s.run.status == Evaluating || s.run.status == Canary)
    ensures IsSettled(spec, s, a, Evaluate(spec, s, a))
  {
    EvaluationSettles(spec, s, a);
    assert Evaluate(spec, s, a) == AfterReconcile(spec, s, a);
  }

  // ----- Reports -----

  /** A report leaves a pass of its phase exactly when every gate is met, and a failure otherwise;
      the other phase and all other records stay as they are. */
  lemma PostExactly(spec: Spec, s: State, version: Version, canary: bool, metrics: map<string, real>)
    ensures var s' := AfterPost(spec, s, version, canary, metrics);
            && s' == s.(evaluations := s'.evaluations) && s'.evaluations.Keys == s.evaluations.Keys
            && (forall v :: v in s.evaluations && v != version ==> s'.evaluations[v] == s.evaluations[v])
            && HasPass(s', version, canary) == (version in s.evaluations && GatesPass(spec.gates, metrics))
            && HasPass(s', version, !canary) == HasPass(s, version, !canary)
            && (version in s.evaluations && !GatesPass(spec.gates, metrics) ==>
                  (if canary then s'.evaluations[version].canary else s'.evaluations[version].verdict) == FailedVerdict)
  {
  }

  // ----- Attempts -----

  /** A reconcile that gets as far as its job. */
  predicate SeesJob(s: State, a: Answers) {
    && !IsTerminal(s.run.status) && s.run.desired == ToRun && a.discovered
    && s.run.status != Cancelling && s.run.status != Evaluating && s.run.status != Canary
    && a.infrastructure && (s.run.attempt == 0 || s.run.attempt in s.attempts) && a.prepared
    && ((s.run.checkpointId == "" && a.latestCheckpoint.None?) || a.checkpointLoaded || JobNeedsNoCheckpoint(s, a))
    && a.job.Some?
  }

  /** The latest checkpoint, which the run takes over, has no name. */
  predicate JobNeedsNoCheckpoint(s: State, a: Answers) {
    s.run.checkpointId == "" && a.latestCheckpoint.Some? && a.latestCheckpoint.value.0 == ""
  }

  /** What an observed job makes of its attempt and of the run. */
  ghost predicate Decides(spec: Spec, number: nat, job: Observed, s': State) {
    && number in s'.attempts
    && match job
       case JobSucceeded =>
         && s'.attempts[number] == AttemptCompleted && s'.run.attempt == number
         && s'.run.status == (if spec.needsEvaluation then Evaluating else Completed)
         && (spec.needsEvaluation ==> IsFresh(s', s'.run.policyVersion))
       case JobFailed =>
         && s'.attempts[number] == AttemptFailed
         && (if number <= MaxRetries(spec) then s'.run.status == Starting && s'.run.attempt == 0
             else s'.run.status == Failed && s'.run.attempt == number)
       case JobOther =>
         s'.attempts[number] == AttemptRunning && s'.run.attempt == number && s'.run.status == Running
  }

  function Resumed(s: State, a: Answers): State {
    EnsureAttempt(s).(run := ResumeFrom(EnsureAttempt(s).run, a.latestCheckpoint))
  }

  lemma SeenJob(spec: Spec, s: State, a: Answers)
    requires SeesJob(s, a)
    ensures AfterReconcile(spec, s, a) == Observe(spec, Resumed(s, a), a.job.value)
  {
  }

  lemma ObserveDecides(spec: Spec, s: State, job: Observed)
    requires s.run.attempt != 0
    ensures var s' := Observe(spec, s, job);
            && Decides(spec, s.run.attempt, job, s') && s'.weights == s.weights && s'.run.lastGood == s.run.lastGood
            && (s'.run.checkpointId, s'.run.policyVersion) == (s.run.checkpointId, s.run.policyVersion)
            && forall k :: k in s.attempts && k != s.run.attempt ==> k in s'.attempts && s'.attempts[k] == s.attempts[k]
  {
  }

  /** The observed job is that of the current attempt, which is a new one with the next number if
      there was none; it decides how attempt and run go on.  A run without a checkpoint takes over
      the latest one with its version; earlier attempts and the weights are left alone. */
  lemma JobDecides(spec: Spec, s: State, a: Answers)
    requires SeesJob(s, a)
    ensures var s' := AfterReconcile(spec, s, a);
            var number := if s.run.attempt == 0 then |s.attempts| + 1 else s.run.attempt;
            && Decides(spec, number, a.job.value, s') && s'.weights == s.weights && s'.run.lastGood == s.run.lastGood
            && (forall k :: k in s.attempts && k != number ==> k in s'.attempts && s'.attempts[k] == s.attempts[k])
            && (s'.run.checkpointId, s'.run.policyVersion) ==
               if s.run.checkpointId == "" && a.latestCheckpoint.Some? then a.latestCheckpoint.value
               else (s.run.checkpointId, s.run.policyVersion)
  {
    SeenJob(spec, s, a);
    ObserveDecides(spec, Resumed(s, a), a.job.value);
  }

  /** The version has a final evaluation that has yet to begin. */
  predicate IsFresh(s: State, version: Version) {
    version in s.evaluations && s.evaluations[version] == Evaluation(Pending, false, true, Pending)
  }
}
