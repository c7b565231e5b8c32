/** What every run of the reconciler keeps, whatever it observes: the numbering and the
    bound of attempts, and what a version must have gone through to be promoted. */
module ReconcilerRuns {
  import opened Basics
  import opened ReconcilerModel
  import W = WeightModel
  import P = WeightProtocol

  /** A reconcile, an evaluator's report, or another call that changes the run.  ChangePolicy
      stands for every call that points the run at another version (engine acknowledgements,
      manual rollbacks, checkpoints that fall due for no evaluation). */
  datatype Event =
    | Reconcile(answers: Answers)
    | Post(version: Version, canary: bool, metrics: map<string, real>)
    | Schedule(checkpointId: string, version: Version)
    | ChangePolicy(checkpointId: string, version: Version)
    | Desire(desired: Desired)
    | WeightCall(event: P.Event)

  function Repointed(s: State, checkpointId: string, version: Version): State {
    s.(run := s.run.(checkpointId := checkpointId, policyVersion := version))
  }

  ghost predicate Effect(spec: Spec, s: State, e: Event, s': State) {
    match e
    case Reconcile(a) => s' == AfterReconcile(spec, s, a)
    case Post(version, canary, metrics) => s' == AfterPost(spec, s, version, canary, metrics)
    case Schedule(checkpointId, version) => s' == AfterSchedule(s, checkpointId, version)
    case ChangePolicy(checkpointId, version) => s' == Repointed(s, checkpointId, version)
    case Desire(desired) => s' == AfterDesire(s, desired)
    case WeightCall(w) => P.Next(s.weights, w, s'.weights) && s' == s.(weights := s'.weights)
  }

  /** The main evaluation of the version is over, or there never was one: its verdict is a
      failure, or a pass on passed gates. */
  predicate MainSettled(s: State, version: Version) {
    version in s.evaluations ==>
      var e := s.evaluations[version];
      e.verdict == FailedVerdict || (e.verdict == Passed && e.gatesPassed)
  }

  /** Steps in which nobody but the reconciler points a run whose canary is out at a version
      that is still in its main evaluation. */
  ghost predicate Next(spec: Spec, s: State, e: Event, s': State) {
    Effect(spec, s, e, s') && (e.ChangePolicy? && s.run.status == Canary ==> MainSettled(s, e.version))
  }

  function Created(runId: string): State {
    State(Run(Starting, ToRun, 0, "", "", ""), map[], map[], W.EmptyRun(runId))
  }

  ghost predicate IsRun(spec: Spec, runId: string, states: seq<State>, events: seq<Event>) {
    && |states| == |events| + 1
    && states[0] == Created(runId)
    && forall i :: 0 <= i < |events| ==> Next(spec, states[i], events[i], states[i + 1])
  }

  // ----- Attempts -----

  /** Attempts are numbered 1, 2, 3, ...; the current one is the last; and there is
      room for another whenever there is no current one. */
  ghost predicate AttemptsOk(spec: Spec, s: State) {
    && (forall k: nat :: k in s.attempts <==> 1 <= k <= |s.attempts|)
    && (s.run.attempt == 0 || s.run.attempt == |s.attempts|)
    && |s.attempts| <= MaxRetries(spec) + 1
    && (s.run.attempt == 0 ==> |s.attempts| <= MaxRetries(spec))
  }

  lemma NewAttemptSize(attempts: map<nat, AttemptStatus>, number: nat, status: AttemptStatus)
    ensures |attempts[number := status]| == |attempts| + if number in attempts then 0 else 1
  {
    var after := attempts[number := status];
    assert after.Keys == attempts.Keys + {number};
    assert |after| == |after.Keys| && |attempts| == |attempts.Keys|;
  }

  lemma ObserveKeepsAttempts(spec: Spec, s: State, job: Observed)
    requires AttemptsOk(spec, s) && s.run.attempt != 0
    ensures AttemptsOk(spec, Observe(spec, s, job))
    ensures |Observe(spec, s, job).attempts| == |s.attempts|
  {
    NewAttemptSize(s.attempts, s.run.attempt, AttemptCompleted);
    NewAttemptSize(s.attempts, s.run.attempt, AttemptFailed);
    NewAttemptSize(s.attempts, s.run.attempt, AttemptRunning);
  }

  lemma EnsureKeepsAttempts(spec: Spec, s: State)
    requires AttemptsOk(spec, s)
    ensures AttemptsOk(spec, EnsureAttempt(s)) && EnsureAttempt(s).run.attempt != 0
    ensures |EnsureAttempt(s).attempts| == |s.attempts| + if s.run.attempt == 0 then 1 else 0
  {
    NewAttemptSize(s.attempts, |s.attempts| + 1, AttemptStarting);
  }

  lemma AttemptKeepsAttempts(spec: Spec, s: State, a: Answers)
    requires AttemptsOk(spec, s)
    ensures AttemptsOk(spec, Attempt(spec, s, a))
  {
    EnsureKeepsAttempts(spec, s);
    var t := EnsureAttempt(s);
    var u := t.(run := ResumeFrom(t.run, a.latestCheckpoint));
    if a.job.Some? {
      ObserveKeepsAttempts(spec, u, a.job.value);
    }
  }

  lemma EvaluateLeavesAttempts(spec: Spec, s: State, a: Answers)
    ensures Evaluate(spec, s, a).attempts == s.attempts && Evaluate(spec, s, a).run.attempt == s.run.attempt
  {
  }

  lemma ReconcileOnAttempts(spec: Spec, s: State, a: Answers)
    ensures var s' := AfterReconcile(spec, s, a);
            s' == Attempt(spec, s, a) || (s'.attempts == s.attempts && s'.run.attempt == s.run.attempt)
  {
    EvaluateLeavesAttempts(spec, s, a);
  }

  lemma StepKeepsAttempts(spec: Spec, s: State, e: Event, s': State)
    requires AttemptsOk(spec, s) && Effect(spec, s, e, s')
    ensures AttemptsOk(spec, s')
  {
    if e.Reconcile? {
      ReconcileOnAttempts(spec, s, e.answers);
      AttemptKeepsAttempts(spec, s, e.answers);
    } else {
      assert s'.attempts == s.attempts && s'.run.attempt == s.run.attempt;
    }
  }

  /** Whatever is observed, attempts are numbered from 1 without a gap, and there are at most
      maxRetries + 1 of them, so never more than 11. */
  lemma {:induction false} AttemptsAreBounded(spec: Spec, runId: string, states: seq<State>, events: seq<Event>, n: nat)
    requires IsRun(spec, runId, states, events) && n < |states|
    ensures AttemptsOk(spec, states[n]) && |states[n].attempts| <= 11
  {
    if n > 0 {
      AttemptsAreBounded(spec, runId, states, events, n - 1);
      StepKeepsAttempts(spec, states[n - 1], events[n - 1], states[n]);
    }
  }

  // ----- Failed attempts -----

  /** Every attempt but the current one has failed; a failed run has used up its retries,
      and every attempt of it has failed. */
  ghost predicate EarlierFailed(spec: Spec, s: State) {
    && (forall k :: k in s.attempts && k != s.run.attempt ==> s.attempts[k] == AttemptFailed)
    && (s.run.status == Failed ==>
          |s.attempts| == MaxRetries(spec) + 1 && forall k :: k in s.attempts ==> s.attempts[k] == AttemptFailed)
  }

  lemma ObserveKeepsEarlier(spec: Spec, s: State, job: Observed)
    requires AttemptsOk(spec, s) && EarlierFailed(spec, s) && s.run.attempt != 0
    ensures EarlierFailed(spec, Observe(spec, s, job))
  {
    ObserveKeepsAttempts(spec, s, job);
  }

  lemma EnsureKeepsEarlier(spec: Spec, s: State)
    requires AttemptsOk(spec, s) && EarlierFailed(spec, s) && s.run.status != Failed
    ensures EarlierFailed(spec, EnsureAttempt(s))
  {
  }

  lemma AttemptKeepsEarlier(spec: Spec, s: State, a: Answers)
    requires AttemptsOk(spec, s) && EarlierFailed(spec, s) && s.run.status != Failed
    ensures EarlierFailed(spec, Attempt(spec, s, a))
  {
    EnsureKeepsAttempts(spec, s);
    EnsureKeepsEarlier(spec, s);
    var t := EnsureAttempt(s);
    var u := t.(run := ResumeFrom(t.run, a.latestCheckpoint));
    if a.job.Some? {
      ObserveKeepsEarlier(spec, u, a.job.value);
    }
  }

  /** An evaluation ends a run, sends it back to running, or goes on. */
  lemma EvaluateLeavesStatus(spec: Spec, s: State, a: Answers)
    requires s.run.status == Evaluating || s.run.status == Canary
    ensures Evaluate(spec, s, a).run.status in {Evaluating, Canary, Running, Completed}
    ensures Evaluate(spec, s, a).run.desired == s.run.desired
  {
  }

  lemma ReconcileKeepsEarlier(spec: Spec, s: State, a: Answers)
    requires AttemptsOk(spec, s) && EarlierFailed(spec, s)
    ensures EarlierFailed(spec, AfterReconcile(spec, s, a))
  {
    if s.run.status == Evaluating || s.run.status == Canary {
      EvaluateLeavesAttempts(spec, s, a);
      EvaluateLeavesStatus(spec, s, a);
    } else if s.run.status != Failed {
      AttemptKeepsEarlier(spec, s, a);
    }
  }

  lemma StepKeepsEarlier(spec: Spec, s: State, e: Event, s': State)
    requires AttemptsOk(spec, s) && EarlierFailed(spec, s) && Effect(spec, s, e, s')
    ensures EarlierFailed(spec, s')
  {
    if e.Reconcile? {
      ReconcileKeepsEarlier(spec, s, e.answers);
    }
  }

  /** Over every run: only an attempt that failed is followed by another, and a run is failed
      only after exactly maxRetries + 1 attempts, all of which failed. */
  lemma {:induction false} EarlierAttemptsFailed(spec: Spec, runId: string, states: seq<State>, events: seq<Event>,
                                                 n: nat)
    requires IsRun(spec, runId, states, events) && n < |states|
    ensures EarlierFailed(spec, states[n])
  {
    if n > 0 {
      EarlierAttemptsFailed(spec, runId, states, events, n - 1);
      AttemptsAreBounded(spec, runId, states, events, n - 1);
      StepKeepsEarlier(spec, states[n - 1], events[n - 1], states[n]);
    }
  }

  // ----- Runs that never see a job succeed -----

  /** A reconcile that gets as far as its job, and finds it failed. */
  predicate SeesFailure(s: State, e: Event) {
    && e.Reconcile? && !IsTerminal(s.run.status) && s.run.desired == ToRun && e.answers.discovered
    && s.run.status != Cancelling && s.run.status != Evaluating && s.run.status != Canary
    && e.answers.infrastructure && (s.run.attempt == 0 || s.run.attempt in s.attempts) && e.answers.prepared
    && (ResumeFrom(s.run, e.answers.latestCheckpoint).checkpointId == "" || e.answers.checkpointLoaded)
    && e.answers.job == Some(JobFailed)
  }

  function FailuresSeen(states: seq<State>, events: seq<Event>, n: nat): nat
    requires n <= |events| < |states|
  {
    if n == 0 then 0
    else FailuresSeen(states, events, n - 1) + if SeesFailure(states[n - 1], events[n - 1]) then 1 else 0
  }

  /** No job succeeds, nobody cancels the run, and no evaluation is scheduled once it has failed. */
  predicate IsFruitless(s: State, e: Event) {
    match e
    case Reconcile(a) => a.job != Some(JobSucceeded)
    case Schedule(_, _) => s.run.status != Failed
    case Desire(desired) => desired != ToCancel
    case _ => true
  }

  predicate IsOpen(run: Run) {
    run.attempt != 0 && run.status != Failed
  }

  /** What f observed failures have made of the run. */
  ghost predicate HasFailedTimes(spec: Spec, s: State, f: nat) {
    && AttemptsOk(spec, s)
    && (forall v :: v in s.evaluations ==> !s.evaluations[v].final)
    && s.run.desired != ToCancel && s.run.status !in {Cancelling, Cancelled, Completed}
    && |s.attempts| == f + (if IsOpen(s.run) then 1 else 0)
    && (s.run.status == Failed ==> s.run.attempt == |s.attempts| == MaxRetries(spec) + 1)
  }

  /** A draft is the run but for its status, with the evaluation it began with still final or not. */
  lemma DraftedKeeps(s: State, a: Answers)
    requires s.run.policyVersion in s.evaluations && (s.run.status == Evaluating || s.run.status == Canary)
    ensures var d, e := Drafted(s, a), s.evaluations[s.run.policyVersion];
            && d.run == s.run.(status := d.run.status) && (d.run.status == Evaluating || d.run.status == Canary)
            && (d.evaluation.Some? ==> d.evaluation.value.final == e.final)
            && (d.evaluation.Some? ==> (IsRipe(d.run, d.evaluation.value) <==> IsRipe(s.run, e)))
            && (d.evaluation.None? ==> !IsRipe(s.run, e))
  {
  }

  lemma SettleStaysFruitless(s: State, version: Version, d: Draft, a: Answers)
    requires d.run.status == Evaluating || d.run.status == Canary
    requires d.evaluation.Some? ==> !d.evaluation.value.final
    requires forall v :: v in s.evaluations ==> !s.evaluations[v].final
    ensures Settle(s, version, d, a).run.status in {Evaluating, Canary, Running}
    ensures forall v :: v in Settle(s, version, d, a).evaluations ==> !Settle(s, version, d, a).evaluations[v].final
  {
  }

  lemma EvaluateStaysFruitless(spec: Spec, s: State, a: Answers)
    requires s.run.status == Evaluating || s.run.status == Canary
    requires forall v :: v in s.evaluations ==> !s.evaluations[v].final
    ensures Evaluate(spec, s, a).run.status in {Evaluating, Canary, Running}
    ensures forall v :: v in Evaluate(spec, s, a).evaluations ==> !Evaluate(spec, s, a).evaluations[v].final
  {
    if s.run.policyVersion in s.evaluations {
      DraftedKeeps(s, a);
      SettleStaysFruitless(s, s.run.policyVersion, Drafted(s, a), a);
    }
  }

  lemma EnsureIsFruitless(spec: Spec, s: State, f: nat)
    requires HasFailedTimes(spec, s, f) && s.run.status != Failed
    ensures HasFailedTimes(spec, EnsureAttempt(s), f)
  {
    EnsureKeepsAttempts(spec, s);
  }

  lemma ObserveIsFruitless(spec: Spec, s: State, job: Observed, f: nat)
    requires HasFailedTimes(spec, s, f) && IsOpen(s.run) && job != JobSucceeded
    ensures HasFailedTimes(spec, Observe(spec, s, job), f + if job == JobFailed then 1 else 0)
  {
    ObserveKeepsAttempts(spec, s, job);
  }

  lemma AttemptIsFruitless(spec: Spec, s: State, a: Answers, f: nat)
    requires HasFailedTimes(spec, s, f) && a.job != Some(JobSucceeded)
    requires !IsTerminal(s.run.status) && s.run.status != Evaluating && s.run.status != Canary
    requires s.run.desired == ToRun && a.discovered
    ensures HasFailedTimes(spec, Attempt(spec, s, a), f + if SeesFailure(s, Reconcile(a)) then 1 else 0)
  {
    EnsureIsFruitless(spec, s, f);
    var t := EnsureAttempt(s);
    var u := t.(run := ResumeFrom(t.run, a.latestCheckpoint));
    assert HasFailedTimes(spec, u, f);
    if a.job.Some? {
      ObserveIsFruitless(spec, u, a.job.value, f);
    }
  }

  lemma ReconcileIsFruitless(spec: Spec, s: State, a: Answers, f: nat)
    requires HasFailedTimes(spec, s, f) && a.job != Some(JobSucceeded)
    ensures HasFailedTimes(spec, AfterReconcile(spec, s, a), f + if SeesFailure(s, Reconcile(a)) then 1 else 0)
  {
    if s.run.status == Evaluating || s.run.status == Canary {
      EvaluateStaysFruitless(spec, s, a);
      EvaluateLeavesAttempts(spec, s, a);
      EvaluateLeavesStatus(spec, s, a);
    } else if !IsTerminal(s.run.status) && a.discovered && s.run.desired == ToRun {
      AttemptIsFruitless(spec, s, a, f);
    }
  }

  lemma StepIsFruitless(spec: Spec, s: State, e: Event, s': State, f: nat)
    requires HasFailedTimes(spec, s, f) && Effect(spec, s, e, s') && IsFruitless(s, e)
    ensures HasFailedTimes(spec, s', f + if SeesFailure(s, e) then 1 else 0)
  {
    if e.Reconcile? {
      ReconcileIsFruitless(spec, s, e.answers, f);
    }
  }

  lemma {:induction false} FailuresAreCounted(spec: Spec, runId: string, states: seq<State>, events: seq<Event>, n: nat)
    requires IsRun(spec, runId, states, events) && n < |states|
    requires forall i :: 0 <= i < |events| ==> IsFruitless(states[i], events[i])
    ensures HasFailedTimes(spec, states[n], FailuresSeen(states, events, n))
  {
    if n > 0 {
      FailuresAreCounted(spec, runId, states, events, n - 1);
      StepIsFruitless(spec, states[n - 1], events[n - 1], states[n], FailuresSeen(states, events, n - 1));
    }
  }

  /** Whatever else happens to a run none of whose jobs is ever seen to succeed: its attempts
      are the failures seen, and one more while an attempt is open; and it is failed exactly
      when maxRetries + 1 failures have been seen. */
  lemma AlwaysFailing(spec: Spec, runId: string, states: seq<State>, events: seq<Event>, n: nat)
    requires IsRun(spec, runId, states, events) && n < |states|
    requires forall i :: 0 <= i < |events| ==> IsFruitless(states[i], events[i])
    ensures var s, f := states[n], FailuresSeen(states, events, n);
            && |s.attempts| == f + (if IsOpen(s.run) then 1 else 0)
            && f <= MaxRetries(spec) + 1
            && (s.run.status == Failed <==> f == MaxRetries(spec) + 1)
  {
    FailuresAreCounted(spec, runId, states, events, n);
  }

  // ----- Promotion -----

  /** The one way a reconcile promotes the run's version. */
  predicate Promotes(spec: Spec, s: State, a: Answers) {
    && a.discovered && s.run.desired == ToRun && s.run.status == Canary
    && s.run.policyVersion in s.evaluations && s.run.attempt in s.attempts && (spec.disaggregated ==> a.stableApplied)
    && !HasFailed(s.evaluations[s.run.policyVersion]) && s.evaluations[s.run.policyVersion].canary == Passed
    && a.hasPromotions && a.weightsSave && s.weights.active == s.run.policyVersion
  }

  lemma ObserveKeepsLastGood(spec: Spec, s: State, job: Observed)
    ensures Observe(spec, s, job).run.lastGood == s.run.lastGood && Observe(spec, s, job).weights == s.weights
  {
  }

  lemma AttemptKeepsLastGood(spec: Spec, s: State, a: Answers)
    ensures Attempt(spec, s, a).run.lastGood == s.run.lastGood && Attempt(spec, s, a).weights == s.weights
  {
    var t := EnsureAttempt(s);
    if a.job.Some? {
      ObserveKeepsLastGood(spec, t.(run := ResumeFrom(t.run, a.latestCheckpoint)), a.job.value);
    }
  }

  lemma SettleChangesLastGood(s: State, version: Version, d: Draft, a: Answers)
    ensures var promotes := d.evaluation.Some? && IsRipe(d.run, d.evaluation.value) && a.hasPromotions
                            && a.weightsSave && s.weights.active == d.run.policyVersion;
            var s' := Settle(s, version, d, a);
            && s'.run.lastGood == (if promotes then d.run.policyVersion else d.run.lastGood)
            && (promotes ==> s'.weights == W.AfterMarkGood(s.weights, d.run.policyVersion))
  {
  }

  lemma EvaluateChangesLastGood(spec: Spec, s: State, a: Answers)
    requires a.discovered && s.run.desired == ToRun && (s.run.status == Evaluating || s.run.status == Canary)
    ensures Evaluate(spec, s, a).run.lastGood == if Promotes(spec, s, a) then s.run.policyVersion else s.run.lastGood
    ensures Promotes(spec, s, a) ==> Evaluate(spec, s, a).weights == W.AfterMarkGood(s.weights, s.run.policyVersion)
  {
    if s.run.policyVersion in s.evaluations {
      DraftedKeeps(s, a);
      SettleChangesLastGood(s, s.run.policyVersion, Drafted(s, a), a);
    }
  }

  /** A step changes the run's last-good version exactly when it is a reconcile that promotes,
      and then to the version under evaluation, which becomes last-good in the weight
      service in the same step. */
  lemma LastGoodChangesByPromotion(spec: Spec, s: State, e: Event, s': State)
    requires Effect(spec, s, e, s')
    ensures s'.run.lastGood ==
            if e.Reconcile? && Promotes(spec, s, e.answers) then s.run.policyVersion else s.run.lastGood
    ensures e.Reconcile? && Promotes(spec, s, e.answers) ==>
              s'.weights == W.AfterMarkGood(s.weights, s.run.policyVersion)
  {
    if e.Reconcile? {
      AttemptKeepsLastGood(spec, s, e.answers);
      if e.answers.discovered && s.run.desired == ToRun && (s.run.status == Evaluating || s.run.status == Canary) {
        EvaluateChangesLastGood(spec, s, e.answers);
      }
    }
  }

  /** While a version's canary is out, its main evaluation is over. */
  predicate CanaryOk(s: State) {
    s.run.status == Canary ==> MainSettled(s, s.run.policyVersion)
  }

  lemma ObserveKeepsCanary(spec: Spec, s: State, job: Observed)
    ensures Observe(spec, s, job).run.status != Canary
  {
  }

  lemma AttemptKeepsCanary(spec: Spec, s: State, a: Answers)
    requires s.run.status != Canary
    ensures Attempt(spec, s, a).run.status != Canary
  {
    var t := EnsureAttempt(s);
    if a.job.Some? {
      ObserveKeepsCanary(spec, t.(run := ResumeFrom(t.run, a.latestCheckpoint)), a.job.value);
    }
  }

  lemma EvaluateKeepsCanary(spec: Spec, s: State, a: Answers)
    requires CanaryOk(s) && (s.run.status == Evaluating || s.run.status == Canary)
    ensures CanaryOk(Evaluate(spec, s, a))
  {
  }

  lemma StepKeepsCanary(spec: Spec, s: State, e: Event, s': State)
    requires CanaryOk(s) && Next(spec, s, e, s')
    ensures CanaryOk(s')
  {
    if e.Reconcile? && s.run.status != Canary {
      AttemptKeepsCanary(spec, s, e.answers);
    }
    if e.Reconcile? && (s.run.status == Evaluating || s.run.status == Canary) {
      EvaluateKeepsCanary(spec, s, e.answers);
    }
  }

  lemma {:induction false} RunKeepsCanary(spec: Spec, runId: string, states: seq<State>, events: seq<Event>, n: nat)
    requires IsRun(spec, runId, states, events) && n < |states|
    ensures CanaryOk(states[n])
  {
    if n > 0 {
      RunKeepsCanary(spec, runId, states, events, n - 1);
      StepKeepsCanary(spec, states[n - 1], events[n - 1], states[n]);
    }
  }

  // ----- Where verdicts come from -----

  predicate IsPassingPost(spec: Spec, e: Event, version: Version, canary: bool) {
    e.Post? && e.version == version && e.canary == canary && GatesPass(spec.gates, e.metrics)
  }

  predicate HasPass(s: State, version: Version, canary: bool) {
    && version in s.evaluations
    && if canary then s.evaluations[version].canary == Passed else s.evaluations[version].gatesPassed
  }

  lemma AttemptInventsNoPass(spec: Spec, s: State, a: Answers, version: Version, canary: bool)
    requires HasPass(Attempt(spec, s, a), version, canary)
    ensures HasPass(s, version, canary)
  {
  }

  lemma EvaluateInventsNoPass(spec: Spec, s: State, a: Answers, version: Version, canary: bool)
    requires HasPass(Evaluate(spec, s, a), version, canary)
    ensures HasPass(s, version, canary)
  {
  }

  lemma ReconcileInventsNoPass(spec: Spec, s: State, a: Answers, version: Version, canary: bool)
    requires HasPass(AfterReconcile(spec, s, a), version, canary)
    ensures HasPass(s, version, canary)
  {
    if HasPass(Attempt(spec, s, a), version, canary) {
      AttemptInventsNoPass(spec, s, a, version, canary);
    }
    if HasPass(Evaluate(spec, s, a), version, canary) {
      EvaluateInventsNoPass(spec, s, a, version, canary);
    }
  }

  lemma PassComesFromPost(spec: Spec, s: State, e: Event, s': State, version: Version, canary: bool)
    requires Effect(spec, s, e, s') && HasPass(s', version, canary)
    ensures HasPass(s, version, canary) || IsPassingPost(spec, e, version, canary)
  {
    if e.Reconcile? {
      ReconcileInventsNoPass(spec, s, e.answers, version, canary);
    }
  }

  /** Report i met every gate, and the pass it left has stood ever since. */
  ghost predicate PassedSince(spec: Spec, states: seq<State>, events: seq<Event>, n: nat,
                              version: Version, canary: bool, i: nat)
    requires n < |states| == |events| + 1
  {
    && i < n && IsPassingPost(spec, events[i], version, canary)
    && forall j :: i < j <= n ==> HasPass(states[j], version, canary)
  }

  lemma {:induction false} PassHistory(spec: Spec, runId: string, states: seq<State>, events: seq<Event>, n: nat,
                                       version: Version, canary: bool) returns (i: nat)
    requires IsRun(spec, runId, states, events) && n < |states| && HasPass(states[n], version, canary)
    ensures PassedSince(spec, states, events, n, version, canary, i)
  {
    if n == 0 {
      assert false;
    } else {
      assert Next(spec, states[n - 1], events[n - 1], states[n]);
      PassComesFromPost(spec, states[n - 1], events[n - 1], states[n], version, canary);
      if HasPass(states[n - 1], version, canary) {
        i := PassHistory(spec, runId, states, events, n - 1, version, canary);
      } else {
        i := n - 1;
      }
    }
  }

  // ----- Promotion is earned -----

  lemma {:induction false} RunKeepsWeights(spec: Spec, runId: string, states: seq<State>, events: seq<Event>, n: nat)
    requires IsRun(spec, runId, states, events) && n < |states|
    ensures P.Inv(states[n].weights)
  {
    if n > 0 {
      RunKeepsWeights(spec, runId, states, events, n - 1);
      assert Next(spec, states[n - 1], events[n - 1], states[n]);
      StepKeepsWeights(spec, states[n - 1], events[n - 1], states[n]);
    }
  }

  lemma EvaluateOnWeights(spec: Spec, s: State, a: Answers)
    ensures var w := Evaluate(spec, s, a).weights;
            || w == s.weights || w == W.AfterRollback(s.weights, a.reason)
            || w == W.AfterMarkGood(s.weights, s.run.policyVersion)
  {
  }

  lemma ReconcileOnWeights(spec: Spec, s: State, a: Answers)
    ensures var w := AfterReconcile(spec, s, a).weights;
            || w == s.weights || w == W.AfterRollback(s.weights, a.reason)
            || w == W.AfterMarkGood(s.weights, s.run.policyVersion)
  {
    if s.run.status == Evaluating || s.run.status == Canary {
      EvaluateOnWeights(spec, s, a);
    } else {
      AttemptKeepsLastGood(spec, s, a);
    }
  }

  lemma StepKeepsWeights(spec: Spec, s: State, e: Event, s': State)
    requires Effect(spec, s, e, s') && P.Inv(s.weights)
    ensures P.Inv(s'.weights)
  {
    if e.Reconcile? {
      ReconcileOnWeights(spec, s, e.answers);
      P.RollbackKeepsInv(s.weights, e.answers.reason);
      P.MarkGoodKeepsInv(s.weights, s.run.policyVersion);
    } else if e.WeightCall? {
      P.StepKeepsInv(s.weights, e.event, s'.weights);
    }
  }

  /** The version's main gates and its canary gates have passed, and neither verdict is a failure. */
  predicate HasEarned(s: State, version: Version) {
    && version in s.evaluations
    && s.evaluations[version].verdict == Passed && s.evaluations[version].gatesPassed
    && s.evaluations[version].canary == Passed
  }

  /** A step that changes the last-good version changes it to one that has earned it and that
      the weight service has active and stored, acknowledged by all it was required of. */
  ghost predicate IsEarned(s: State, s': State) {
    var v := s'.run.lastGood;
    && v == s.run.policyVersion && HasEarned(s, v)
    && s.weights.active == v && s'.weights.lastGood == v
    && (v != "" ==> P.Quorate(s.weights, v))
  }

  lemma StepIsEarned(spec: Spec, s: State, e: Event, s': State)
    requires Effect(spec, s, e, s') && CanaryOk(s) && P.Inv(s.weights) && s'.run.lastGood != s.run.lastGood
    ensures IsEarned(s, s')
  {
    LastGoodChangesByPromotion(spec, s, e, s');
  }

  /** Whenever the run's last-good version changes, in any interleaving of reconciles, reports,
      weight-service calls and requests: the new one is the version that was under evaluation;
      its main gates and its canary gates have each passed on reported metrics, and the passes
      have stood since; neither verdict is a failure at that moment; and it is the weight
      service's active version, stored and acknowledged by every engine it was required of. */
  lemma PromotionIsEarned(spec: Spec, runId: string, states: seq<State>, events: seq<Event>, n: nat)
    returns (main: nat, canary: nat)
    requires IsRun(spec, runId, states, events) && n < |events|
    requires states[n + 1].run.lastGood != states[n].run.lastGood
    ensures IsEarned(states[n], states[n + 1])
    ensures PassedSince(spec, states, events, n, states[n + 1].run.lastGood, false, main)
    ensures PassedSince(spec, states, events, n, states[n + 1].run.lastGood, true, canary)
  {
    assert Next(spec, states[n], events[n], states[n + 1]);
    RunKeepsCanary(spec, runId, states, events, n);
    RunKeepsWeights(spec, runId, states, events, n);
    StepIsEarned(spec, states[n], events[n], states[n + 1]);
    main := PassHistory(spec, runId, states, events, n, states[n].run.policyVersion, false);
    canary := PassHistory(spec, runId, states, events, n, states[n].run.policyVersion, true);
  }

  // ----- The whole invariant -----

  ghost predicate StateOk(spec: Spec, s: State) {
    AttemptsOk(spec, s) && EarlierFailed(spec, s) && CanaryOk(s) && P.Inv(s.weights)
  }

  lemma StepKeepsState(spec: Spec, s: State, e: Event, s': State)
    requires StateOk(spec, s) && Next(spec, s, e, s')
    ensures StateOk(spec, s')
    ensures s'.run.lastGood != s.run.lastGood ==> IsEarned(s, s')
  {
    StepKeepsAttempts(spec, s, e, s');
    StepKeepsEarlier(spec, s, e, s');
    StepKeepsCanary(spec, s, e, s');
    StepKeepsWeights(spec, s, e, s');
    if s'.run.lastGood != s.run.lastGood {
      StepIsEarned(spec, s, e, s');
    }
  }

  lemma EvaluationKeepsState(spec: Spec, s: State, a: Answers)
    requires StateOk(spec, s) && a.discovered && s.run.desired == ToRun
    requires s.run.status == Evaluating || s.run.status == Canary
    ensures StateOk(spec, Evaluate(spec, s, a))
    ensures Evaluate(spec, s, a).run.lastGood != s.run.lastGood ==> IsEarned(s, Evaluate(spec, s, a))
    ensures Evaluate(spec, s, a).run.attempt == s.run.attempt
    ensures Evaluate(spec, s, a).run.status in {Evaluating, Canary, Running, Completed}
  {
    assert Effect(spec, s, Reconcile(a), Evaluate(spec, s, a));
    StepKeepsState(spec, s, Reconcile(a), Evaluate(spec, s, a));
    EvaluateLeavesStatus(spec, s, a);
    EvaluateLeavesAttempts(spec, s, a);
  }

  lemma AttemptKeepsState(spec: Spec, s: State, a: Answers)
    requires StateOk(spec, s) && s.run.status != Failed && s.run.status != Canary
    ensures StateOk(spec, Attempt(spec, s, a))
    ensures Attempt(spec, s, a).run.lastGood == s.run.lastGood
    ensures |s.attempts| <= |Attempt(spec, s, a).attempts| <= MaxRetries(spec) + 1
  {
    AttemptKeepsAttempts(spec, s, a);
    AttemptKeepsEarlier(spec, s, a);
    AttemptKeepsCanary(spec, s, a);
    AttemptKeepsLastGood(spec, s, a);
    AttemptsGrow(spec, s, a);
  }

  lemma AttemptsGrow(spec: Spec, s: State, a: Answers)
    requires AttemptsOk(spec, s)
    ensures |s.attempts| <= |Attempt(spec, s, a).attempts|
  {
    EnsureKeepsAttempts(spec, s);
    var t := EnsureAttempt(s);
    if a.job.Some? {
      ObserveKeepsAttempts(spec, t.(run := ResumeFrom(t.run, a.latestCheckpoint)), a.job.value);
    }
  }

  lemma ReconcileKeepsState(spec: Spec, s: State, a: Answers)
    requires StateOk(spec, s)
    ensures StateOk(spec, AfterReconcile(spec, s, a)) && |s.attempts| <= |AfterReconcile(spec, s, a).attempts|
    ensures AfterReconcile(spec, s, a).run.lastGood != s.run.lastGood ==> IsEarned(s, AfterReconcile(spec, s, a))
  {
    assert Effect(spec, s, Reconcile(a), AfterReconcile(spec, s, a));
    StepKeepsState(spec, s, Reconcile(a), AfterReconcile(spec, s, a));
    ReconcileOnAttempts(spec, s, a);
    AttemptsGrow(spec, s, a);
  }
}
