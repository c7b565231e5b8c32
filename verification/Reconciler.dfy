/** The reconciler of one run, branch by branch, and the handler that takes an evaluator's
    report.  Answers holds what the outside says during one reconcile. */
module Reconciler {
  import opened Basics
  import opened ReconcilerModel
  import W = WeightModel
  import O = WeightOperations
  import R = ReconcilerRuns
  import ReconcilerProgress

  /** The gate has no metric, one beyond its threshold, or an operator nobody knows. */
  predicate Misses(gate: Gate, metrics: map<string, real>) {
    || gate.metric !in metrics || gate.operator.UnknownOperator?
    || (gate.operator.AtLeast? && metrics[gate.metric] < gate.threshold)
    || (gate.operator.MoreThan? && metrics[gate.metric] <= gate.threshold)
    || (gate.operator.AtMost? && metrics[gate.metric] > gate.threshold)
    || (gate.operator.LessThan? && metrics[gate.metric] >= gate.threshold)
  }

  /** Stops at the first gate that has no metric or is not met. */
  method EvaluateGates(gates: seq<Gate>, metrics: map<string, real>) returns (pass: bool)
    ensures pass == GatesPass(gates, metrics)
    ensures pass <==> forall i :: 0 <= i < |gates| ==> !Misses(gates[i], metrics)
  {
    for i := 0 to |gates|
      invariant GatesPass(gates[..i], metrics)
    {
      assert gates[..i + 1] == gates[..i] + [gates[i]];
      if gates[i].metric !in metrics {
        return false;
      }
      var value := metrics[gates[i].metric];
      var met := false;
      match gates[i].operator {
        case AtLeast => met := value >= gates[i].threshold;
        case MoreThan => met := value > gates[i].threshold;
        case AtMost => met := value <= gates[i].threshold;
        case LessThan => met := value < gates[i].threshold;
        case UnknownOperator(_) =>
      }
      if !met {
        return false;
      }
    }
    assert gates[..|gates|] == gates;
    return true;
  }

  class RunController {
    const spec: Spec
    var run: Run
    var attempts: map<nat, AttemptStatus>
    var evaluations: map<Version, Evaluation>
    var weights: W.RunState

    ghost function Now(): State
      reads this
    {
      State(run, attempts, evaluations, weights)
    }

    ghost predicate Valid()
      reads this
    {
      R.StateOk(spec, Now())
    }

    /** The part of Valid that is about attempts. */
    ghost predicate Counted()
      reads this
    {
      R.AttemptsOk(spec, Now()) && R.EarlierFailed(spec, Now())
    }

    constructor (spec: Spec, runId: string)
      ensures Valid() && this.spec == spec && Now() == R.Created(runId)
    {
      this.spec := spec;
      run := Run(Starting, ToRun, 0, "", "", "");
      attempts, evaluations, weights := map[], map[], W.EmptyRun(runId);
    }

    /** The current attempt; a run without one gets the next number.  Either way it is the
        last attempt, it is stored, and the earlier ones, which failed, are as they were. */
    method EnsureCurrent() returns (ok: bool)
      requires Counted() && run.status != Failed
      modifies this`run, this`attempts
      ensures Counted() && ok && 1 <= run.attempt == |attempts| <= MaxRetries(spec) + 1 && run.attempt in attempts
      ensures forall k :: k in old(attempts) ==> k in attempts && attempts[k] == old(attempts)[k]
      ensures forall k :: k in attempts && k != run.attempt ==> attempts[k] == AttemptFailed
      ensures Now() == EnsureAttempt(old(Now()))
    {
      R.EnsureKeepsAttempts(spec, Now());
      R.EnsureKeepsEarlier(spec, Now());
      if run.attempt != 0 {
        return run.attempt in attempts;
      }
      var number := |attempts| + 1;
      attempts := attempts[number := AttemptStarting];
      run := run.(attempt := number, status := Starting);
      assert Now() == EnsureAttempt(old(Now()));
      return true;
    }

    /** A failed job makes room for the next attempt, or fails the run when maxRetries + 1
        attempts have failed; no job status adds an attempt. */
    method ObserveRayJob(job: Observed)
      requires Counted() && run.attempt != 0 && run.status != Failed
      modifies this`run, this`attempts, this`evaluations
      ensures Counted() && attempts.Keys == old(attempts.Keys)
      ensures run.status == Failed <==> job == JobFailed && |attempts| == MaxRetries(spec) + 1
      ensures run.attempt == 0 <==> job == JobFailed && |attempts| <= MaxRetries(spec)
      ensures Now() == Observe(spec, old(Now()), job)
    {
      R.ObserveKeepsAttempts(spec, Now(), job);
      R.ObserveKeepsEarlier(spec, Now(), job);
      var number := run.attempt;
      match job {
        case JobSucceeded =>
          attempts := attempts[number := AttemptCompleted];
          if spec.needsEvaluation {
            evaluations := evaluations[run.policyVersion := Evaluation(Pending, false, true, Pending)];
            run := run.(status := Evaluating);
          } else {
            run := run.(status := Completed);
          }
        case JobFailed =>
          attempts := attempts[number := AttemptFailed];
          var maxRetries := 2;
          if spec.maxRetriesArgument.Some? && 0 <= spec.maxRetriesArgument.value <= 10 {
            maxRetries := spec.maxRetriesArgument.value;
          }
          if number <= maxRetries {
            run := run.(attempt := 0, status := Starting);
          } else {
            run := run.(status := Failed);
          }
        case JobOther =>
          attempts := attempts[number := AttemptRunning];
          run := run.(status := Running);
      }
    }

    /** Follows the evaluator's job and the canary's up to a verdict; no evaluation comes back
        once a call has failed.  A canary goes out only for a version that passed its gates. */
    method FollowJobs(e: Evaluation, a: Answers) returns (after: Option<Evaluation>)
      requires run.status == Evaluating || run.status == Canary
      modifies this`run
      ensures run == old(run).(status := run.status)
      ensures run.status != old(run.status) ==> old(run.status) == Evaluating && run.status == Canary
      ensures run.status != old(run.status) ==> e.verdict == Passed && e.gatesPassed
      ensures after.Some? ==> after.value.gatesPassed == e.gatesPassed
      ensures after.Some? && after.value.canary == Passed ==> e.canary == Passed
      ensures Draft(run, after) == CanaryStep(EvaluatorStep(Draft(old(run), Some(e)), a), a)
    {
      var d := e;
      if run.status == Evaluating {
        if a.evaluator.None? {
          return None;
        }
        match a.evaluator.value {
          case JobFailed => d := d.(verdict := FailedVerdict);
          case JobSucceeded =>
            if d.verdict == Passed && d.gatesPassed {
              if !a.canaryApplied {
                return None;
              }
              d := d.(canary := InProgress);
              run := run.(status := Canary);
            } else if d.verdict != FailedVerdict {
              d := d.(verdict := AwaitingMetrics);
            }
          case JobOther => d := d.(verdict := InProgress);
        }
      }
      if run.status == Canary && d.canary == InProgress {
        if a.canary.None? {
          return None;
        }
        if a.canary.value == JobFailed {
          d := d.(canary := FailedVerdict);
        }
      }
      return Some(d);
    }

    /** Drives an evaluation: the evaluator's job, the canary, and at its end a rollback
        or a promotion. */
    method ReconcileEvaluation(a: Answers)
      requires Valid() && a.discovered && run.desired == ToRun && (run.status == Evaluating || run.status == Canary)
      modifies this`run, this`evaluations, this`weights
      ensures Valid()
      ensures run.lastGood != old(run.lastGood) ==> R.IsEarned(old(Now()), Now())
      ensures run.attempt == old(run.attempt) && run.status in {Evaluating, Canary, Running, Completed}
      ensures ReconcilerProgress.IsSettled(spec, old(Now()), a, Now()) && Now() == Evaluate(spec, old(Now()), a)
    {
      R.EvaluationKeepsState(spec, Now(), a);
      ReconcilerProgress.EvaluateSettles(spec, Now(), a);
      DriveEvaluation(a);
    }

    method DriveEvaluation(a: Answers)
      requires run.status == Evaluating || run.status == Canary
      modifies this`run, this`evaluations, this`weights
      ensures Now() == Evaluate(spec, old(Now()), a)
    {
      var version := run.policyVersion;
      if version !in evaluations || run.attempt !in attempts {
        return;
      }
      if spec.disaggregated && !a.stableApplied {
        return;
      }
      var e := FollowJobs(evaluations[version], a);
      if e.Some? {
        Conclude(version, e.value, a);
      }
    }

    /** A failed verdict sends run and weight service back to the same last-good version; only a
        canary that passed beside no failed verdict makes the active version last-good in both. */
    method Conclude(version: Version, e: Evaluation, a: Answers)
      modifies this`run, this`evaluations, this`weights
      ensures run.lastGood != old(run.lastGood) ==>
                && !HasFailed(e) && e.canary == Passed && old(run.status) == Canary
                && run.lastGood == weights.lastGood == weights.active == old(weights.active)
      ensures (e.verdict == FailedVerdict || e.canary == FailedVerdict)
              && a.hasPromotions && a.weightsSave && old(weights.lastGood) != "" ==>
                && run.policyVersion == weights.active == old(weights.lastGood)
                && run.status == if e.final then Completed else Running
      ensures Now() == Settle(old(Now()), version, Draft(old(run), Some(e)), a)
    {
      if e.verdict == FailedVerdict || e.canary == FailedVerdict {
        if !a.hasPromotions || weights.lastGood == "" || !a.weightsSave {
          return;
        }
        var rollback := weights.lastGood;
        weights := O.ReturnToLastGood(weights, a.reason);
        run := run.(policyVersion := rollback);
        run := run.(status := if e.final then Completed else Running);
      } else if run.status == Canary && e.canary == Passed {
        if !a.hasPromotions || weights.active != run.policyVersion || !a.weightsSave {
          return;
        }
        weights := O.Promote(weights, run.policyVersion);
        run := run.(lastGood := run.policyVersion);
        run := run.(status := if e.final then Completed else Running);
      }
      evaluations := evaluations[version := e];
    }

    /** One pass over the run, as the loop over all runs makes it. */
    method Reconcile(a: Answers)
      requires Valid()
      modifies this`run, this`attempts, this`evaluations, this`weights
      ensures Valid() && R.Effect(spec, old(Now()), R.Reconcile(a), Now())
      ensures old(|attempts|) <= |attempts| <= MaxRetries(spec) + 1
      ensures run.status == Failed ==>
                |attempts| == MaxRetries(spec) + 1 && forall k :: k in attempts ==> attempts[k] == AttemptFailed
      ensures run.lastGood != old(run.lastGood) ==> R.IsEarned(old(Now()), Now())
      ensures ReconcilerProgress.IsSettled(spec, old(Now()), a, Now())
    {
      R.ReconcileKeepsState(spec, Now(), a);
      ReconcilerProgress.EvaluationSettles(spec, Now(), a);
      if IsTerminal(run.status) || !a.discovered {
        return;
      }
      if run.desired != ToRun || run.status == Cancelling {
        WindDown(a);
        return;
      }
      if run.status == Evaluating || run.status == Canary {
        ReconcileEvaluation(a);
        return;
      }
      TryAttempt(a);
    }

    /** Cancels or suspends the run.  It is cancelled only from cancelling, and only when
        everything it owned is reported deleted. */
    method WindDown(a: Answers)
      requires run.desired != ToRun || run.status == Cancelling
      modifies this`run
      ensures run == old(run).(status := run.status)
      ensures run.status == Cancelled && old(run.status) != Cancelled ==>
                old(run.status) == Cancelling && a.deleted == Some(true)
      ensures run.status in {old(run.status), Cancelling, Cancelled, Suspended}
      ensures old(run.status) == Cancelling ==> run.status == if a.deleted == Some(true) then Cancelled else Cancelling
      ensures old(run.status) != Cancelling ==>
                run.status == if !a.suspended then old(run.status)
                              else if run.desired == ToCancel then Cancelling else Suspended
      ensures a.discovered && !IsTerminal(old(run.status)) ==> Now() == AfterReconcile(spec, old(Now()), a)
    {
      if run.desired == ToCancel || run.status == Cancelling {
        if run.status != Cancelling {
          if a.suspended {
            run := run.(status := Cancelling);
          }
          return;
        }
        if a.deleted == Some(true) {
          run := run.(status := Cancelled);
        }
        return;
      }
      if a.suspended {
        run := run.(status := Suspended);
      }
    }

    /** Starts or goes on with an attempt and looks at its job.  A run that fails here has made
        maxRetries + 1 attempts, all of them failed. */
    method TryAttempt(a: Answers)
      requires Valid() && run.status != Failed && run.status != Canary
      modifies this`run, this`attempts, this`evaluations
      ensures Valid() && Now() == Attempt(spec, old(Now()), a)
      ensures old(|attempts|) <= |attempts| <= MaxRetries(spec) + 1
      ensures run.lastGood == old(run.lastGood)
      ensures run.status == Failed ==>
                |attempts| == MaxRetries(spec) + 1 && forall k :: k in attempts ==> attempts[k] == AttemptFailed
    {
      R.AttemptKeepsState(spec, Now(), a);
      if !a.infrastructure {
        return;
      }
      var ok := EnsureCurrent();
      if ok {
        PursueAttempt(a);
      }
    }

    /** Sets the current attempt going and looks at its job; this adds no attempt. */
    method PursueAttempt(a: Answers)
      requires Counted() && run.attempt != 0 && run.status != Failed
      modifies this`run, this`attempts, this`evaluations
      ensures Counted() && attempts.Keys == old(attempts.Keys)
      ensures Now() == GoOn(spec, old(Now()), a)
    {
      if !a.prepared {
        return;
      }
      if run.checkpointId == "" && a.latestCheckpoint.Some? {
        run := run.(checkpointId := a.latestCheckpoint.value.0, policyVersion := a.latestCheckpoint.value.1);
      }
      if run.checkpointId != "" && !a.checkpointLoaded {
        return;
      }
      if a.job.Some? {
        ObserveRayJob(a.job.value);
      }
    }

    /** The evaluator's report.  It is accepted exactly when the version is under evaluation and
        its metrics meet every gate; then it leaves a pass of its phase, otherwise none; and it
        changes no other version's record. */
    method Report(version: Version, canary: bool, metrics: map<string, real>) returns (accepted: bool)
      requires Valid()
      modifies this`evaluations
      ensures Valid() && R.Effect(spec, old(Now()), R.Post(version, canary, metrics), Now())
      ensures accepted == (version in old(evaluations) && GatesPass(spec.gates, metrics))
      ensures R.HasPass(Now(), version, canary) == accepted
      ensures version in evaluations && !accepted ==>
                (if canary then evaluations[version].canary else evaluations[version].verdict) == FailedVerdict
      ensures R.HasPass(Now(), version, !canary) == R.HasPass(old(Now()), version, !canary)
      ensures evaluations.Keys == old(evaluations.Keys)
      ensures forall v :: v in evaluations && v != version ==> evaluations[v] == old(evaluations)[v]
    {
      R.StepKeepsState(spec, Now(), R.Post(version, canary, metrics), AfterPost(spec, Now(), version, canary, metrics));
      ReconcilerProgress.PostExactly(spec, Now(), version, canary, metrics);
      if version !in evaluations {
        return false;
      }
      var e := evaluations[version];
      accepted := EvaluateGates(spec.gates, metrics);
      if canary {
        if !accepted {
          e := e.(canary := FailedVerdict);
        } else {
          e := e.(canary := Passed);
        }
      } else {
        if !accepted {
          e := e.(verdict := FailedVerdict, gatesPassed := false);
        } else {
          e := e.(verdict := Passed, gatesPassed := true);
        }
      }
      evaluations := evaluations[version := e];
    }
  }
}
