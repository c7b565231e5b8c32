/** How far promotion can be relied on when anybody may repoint a run whose canary is out:
    exactly when the next promotion is unearned, and a run in which it is. */
module ReconcilerGuarantees {
  import opened Basics
  import opened ReconcilerModel
  import opened ReconcilerRuns
  import W = WeightModel
  import P = WeightProtocol
  import G = WeightGuarantees

  // ----- When a repointed run is promoted -----

  /** Some course of the next reconcile promotes the version. */
  ghost predicate CanBePromoted(spec: Spec, s: State, version: Version) {
    exists a :: AfterReconcile(spec, s, a).run.lastGood == version
  }

  /** Every call of the reconcile goes through. */
  function Smooth(evaluator: Observed, canary: Observed): Answers {
    Answers(true, true, Some(true), true, true, None, true, Some(JobOther), true, Some(evaluator), true, Some(canary),
            true, true, "")
  }

  predicate IsPromotable(s: State, version: Version) {
    && version in s.evaluations && !HasFailed(s.evaluations[version]) && s.evaluations[version].canary == Passed
    && s.run.attempt in s.attempts && s.weights.active == version
  }

  lemma RepointedCanBePromoted(spec: Spec, s: State, checkpointId: string, version: Version)
    requires s.run.status == Canary && s.run.desired == ToRun && s.run.lastGood != version
    ensures CanBePromoted(spec, Repointed(s, checkpointId, version), version) <==> IsPromotable(s, version)
  {
    var t := Repointed(s, checkpointId, version);
    forall a
      ensures AfterReconcile(spec, t, a).run.lastGood == if Promotes(spec, t, a) then version else s.run.lastGood
    {
      LastGoodChangesByPromotion(spec, t, Reconcile(a), AfterReconcile(spec, t, a));
    }
    if IsPromotable(s, version) {
      assert Promotes(spec, t, Smooth(JobOther, JobOther));
    }
  }

  /** A run whose canary is out is pointed at another version.  The next reconcile can then
      promote that version unearned if and only if the version could be promoted at all and its
      main evaluation was not over when the run was pointed at it. */
  lemma UnearnedPromotion(spec: Spec, s: State, checkpointId: string, version: Version)
    requires s.run.status == Canary && s.run.desired == ToRun && s.run.lastGood != version
    ensures CanBePromoted(spec, Repointed(s, checkpointId, version), version) && !HasEarned(s, version) <==>
              IsPromotable(s, version) && !MainSettled(s, version)
  {
    RepointedCanBePromoted(spec, s, checkpointId, version);
  }

  // ----- It does happen -----

  ghost predicate Reachable(spec: Spec, runId: string, s: State) {
    exists states, events :: IsRun(spec, runId, states, events) && states[|states| - 1] == s
  }

  lemma LongerRun(spec: Spec, runId: string, states: seq<State>, events: seq<Event>, e: Event, s': State)
    requires IsRun(spec, runId, states, events) && Next(spec, states[|states| - 1], e, s')
    ensures IsRun(spec, runId, states + [s'], events + [e])
  {
    var longer, more := states + [s'], events + [e];
    forall i | 0 <= i < |more| ensures Next(spec, longer[i], more[i], longer[i + 1]) {
      if i < |events| {
        assert Next(spec, states[i], events[i], states[i + 1]);
      }
    }
  }

  lemma ReachNext(spec: Spec, runId: string, s: State, e: Event, s': State)
    requires Reachable(spec, runId, s) && Next(spec, s, e, s')
    ensures Reachable(spec, runId, s')
  {
    var states, events :| IsRun(spec, runId, states, events) && states[|states| - 1] == s;
    LongerRun(spec, runId, states, events, e, s');
    assert (states + [s'])[|states + [s']| - 1] == s';
  }

  /** Whatever the weight service can come to, it can come to before the first reconcile. */
  lemma {:induction false} WeightsFirst(spec: Spec, runId: string, states: seq<W.RunState>, events: seq<P.Event>,
                                        n: nat)
    requires P.IsRun(runId, states, events) && n < |states|
    ensures Reachable(spec, runId, Created(runId).(weights := states[n]))
  {
    if n == 0 {
      assert IsRun(spec, runId, [Created(runId)], []);
    } else {
      WeightsFirst(spec, runId, states, events, n - 1);
      assert P.Next(states[n - 1], events[n - 1], states[n]);
      ReachNext(spec, runId, Created(runId).(weights := states[n - 1]), WeightCall(events[n - 1]),
                Created(runId).(weights := states[n]));
    }
  }

  function Underway(status: Status, version: Version, evaluations: map<Version, Evaluation>, w: W.RunState): State {
    State(Run(status, ToRun, 1, version, "", "c"), map[1 := AttemptRunning], evaluations, w)
  }

  function Fresh(canary: Verdict): Evaluation {
    Evaluation(Pending, false, false, canary)
  }

  /** The canary report of version y has come in before its main one. */
  lemma EarlyCanary(spec: Spec, runId: string, w: W.RunState, metrics: map<string, real>, y: Version)
    requires GatesPass(spec.gates, metrics) && Reachable(spec, runId, Created(runId).(weights := w))
    ensures Reachable(spec, runId, Underway(Evaluating, y, map[y := Fresh(Passed)], w))
  {
    var s0 := Created(runId).(weights := w);
    var s1 := AfterReconcile(spec, s0, Smooth(JobOther, JobOther));
    assert s1 == State(Run(Running, ToRun, 1, "", "", ""), map[1 := AttemptRunning], map[], w);
    ReachNext(spec, runId, s0, Reconcile(Smooth(JobOther, JobOther)), s1);
    var s2 := Underway(Evaluating, y, map[y := Fresh(Pending)], w);
    ReachNext(spec, runId, s1, Schedule("c", y), s2);
    ReachNext(spec, runId, s2, Post(y, true, metrics), Underway(Evaluating, y, map[y := Fresh(Passed)], w));
  }

  /** The records of y, whose canary report came early, and of x. */
  function Both(x: Version, y: Version, e: Evaluation): map<Version, Evaluation> {
    map[y := Fresh(Passed), x := e]
  }

  /** Version x has passed its main evaluation. */
  lemma MainPassed(spec: Spec, runId: string, w: W.RunState, metrics: map<string, real>, x: Version, y: Version)
    requires GatesPass(spec.gates, metrics) && x != y
    requires Reachable(spec, runId, Underway(Evaluating, y, map[y := Fresh(Passed)], w))
    ensures Reachable(spec, runId, Underway(Evaluating, x, Both(x, y, Evaluation(Passed, true, false, Pending)), w))
  {
    var s3, s4 := Underway(Evaluating, y, map[y := Fresh(Passed)], w),
                  Underway(Evaluating, x, Both(x, y, Fresh(Pending)), w);
    assert AfterSchedule(s3, "c", x) == s4;
    ReachNext(spec, runId, s3, Schedule("c", x), s4);
    var s5 := Underway(Evaluating, x, Both(x, y, Evaluation(Passed, true, false, Pending)), w);
    assert AfterPost(spec, s4, x, false, metrics) == s5;
    ReachNext(spec, runId, s4, Post(x, false, metrics), s5);
  }

  /** Its canary is out. */
  lemma CanaryIsOut(spec: Spec, runId: string, w: W.RunState, x: Version, y: Version)
    requires x != y
    requires Reachable(spec, runId, Underway(Evaluating, x, Both(x, y, Evaluation(Passed, true, false, Pending)), w))
    ensures Reachable(spec, runId, Underway(Canary, x, Both(x, y, Evaluation(Passed, true, false, InProgress)), w))
  {
    var a := Smooth(JobSucceeded, JobOther);
    var s5 := Underway(Evaluating, x, Both(x, y, Evaluation(Passed, true, false, Pending)), w);
    var s6 := Underway(Canary, x, Both(x, y, Evaluation(Passed, true, false, InProgress)), w);
    assert Drafted(s5, a) == Draft(s6.run, Some(s6.evaluations[x]));
    assert AfterReconcile(spec, s5, a) == s6;
    ReachNext(spec, runId, s5, Reconcile(a), s6);
  }

  /** Promotion does happen: whenever the gates can be met, any version can earn it. */
  lemma PromotionIsReachable(spec: Spec, metrics: map<string, real>, x: Version) returns (s: State, s': State)
    requires GatesPass(spec.gates, metrics) && x != ""
    ensures Reachable(spec, G.SAMPLE_RUN, s) && Next(spec, s, Reconcile(Smooth(JobOther, JobOther)), s')
    ensures s.run.lastGood == "" && s'.run.lastGood == x && HasEarned(s, x)
  {
    var w := G.ActivationIsReachable(x);
    var states, events :| P.IsRun(G.SAMPLE_RUN, states, events) && states[|states| - 1] == w;
    WeightsFirst(spec, G.SAMPLE_RUN, states, events, |states| - 1);
    var y := x + "x";
    EarlyCanary(spec, G.SAMPLE_RUN, w, metrics, y);
    MainPassed(spec, G.SAMPLE_RUN, w, metrics, x, y);
    CanaryIsOut(spec, G.SAMPLE_RUN, w, x, y);
    var out := Underway(Canary, x, Both(x, y, Evaluation(Passed, true, false, InProgress)), w);
    s := Underway(Canary, x, Both(x, y, Evaluation(Passed, true, false, Passed)), w);
    assert AfterPost(spec, out, x, true, metrics) == s;
    ReachNext(spec, G.SAMPLE_RUN, out, Post(x, true, metrics), s);
    s' := AfterReconcile(spec, s, Smooth(JobOther, JobOther));
    LastGoodChangesByPromotion(spec, s, Reconcile(Smooth(JobOther, JobOther)), s');
  }

  /** Whenever the gates can be met at all: a run whose canary is out for x, pointed at y by an
      engine's acknowledgement, is promoted to y, whose main evaluation never got a report. */
  lemma UnearnedPromotionIsReachable(spec: Spec, metrics: map<string, real>, x: Version, y: Version) returns (s: State)
    requires GatesPass(spec.gates, metrics) && x != y && y != ""
    ensures Reachable(spec, G.SAMPLE_RUN, s) && s.run.status == Canary && s.run.policyVersion == x
    ensures MainSettled(s, x) && !MainSettled(s, y) && !HasEarned(s, y) && s.run.lastGood == ""
    ensures CanBePromoted(spec, Repointed(s, "c", y), y)
  {
    var w := G.ActivationIsReachable(y);
    var states, events :| P.IsRun(G.SAMPLE_RUN, states, events) && states[|states| - 1] == w;
    WeightsFirst(spec, G.SAMPLE_RUN, states, events, |states| - 1);
    EarlyCanary(spec, G.SAMPLE_RUN, w, metrics, y);
    MainPassed(spec, G.SAMPLE_RUN, w, metrics, x, y);
    CanaryIsOut(spec, G.SAMPLE_RUN, w, x, y);
    s := Underway(Canary, x, Both(x, y, Evaluation(Passed, true, false, InProgress)), w);
    RepointedCanBePromoted(spec, s, "c", y);
  }
}
