/** What the calls of the weight service bring about: which of them succeed, and what the
    engines and the publications are told, read off the fields of the state. */
module WeightProgress {
  import opened Basics
  import opened WeightModel
  import opened WeightMaterialize
  import opened WeightRetention
  import opened WeightProtocol

  // ----- A full set of acknowledgements activates -----

  /** The version waits for acknowledgements, and engine id's is one of those still missing. */
  ghost predicate IsMissing(s: RunState, id: EngineId, v: Version) {
    && v in s.publications && s.active != v && id in s.engines
    && (s.publications[v].phase == Ready || s.publications[v].phase == Activating)
    && s.publications[v].acks.Keys <= s.publications[v].required <= s.engines.Keys
    && id in s.publications[v].required && id !in s.publications[v].acks
  }

  /** An acknowledgement that is not the last is recorded, and the version goes on waiting. */
  lemma AckIsRecorded(s: RunState, id: EngineId, v: Version, now: Time)
    requires IsMissing(s, id, v) && now <= s.publications[v].deadline
    requires s.publications[v].acks.Keys + {id} != s.publications[v].required
    ensures AckOutcome(s, id, v, s.publications[v].resultSha, now) == Ok(false)
    ensures var s', p := AfterAck(s, id, v, s.publications[v].resultSha, now), s.publications[v];
            && v in s'.publications && s'.publications[v] == p.(phase := Activating, acks := p.acks[id := now])
            && s'.active == s.active && s'.engines.Keys == s.engines.Keys && s'.engines[id].current == v
            && forall w :: w in s.publications && w != v ==>
                 w in s'.publications && s'.publications[w] == s.publications[w]
  {
    var p := s.publications[v];
    var acks := p.acks[id := now];
    assert acks.Keys == p.acks.Keys + {id};
    if |acks| == |p.required| {
      SubsetOfSameSize(acks.Keys, p.required);
    }
  }

  /** The version is the active one, and every engine it is required of is to serve it. */
  ghost predicate IsServed(s: RunState, v: Version) {
    && v in s.publications && s.publications[v].phase == Active && s.active == v
    && forall id :: id in s.publications[v].required ==>
         id in s.engines && s.engines[id].desired == v && !s.engines[id].draining
  }

  /** The last acknowledgement activates the version and supersedes the one before it. */
  lemma LastAckActivates(s: RunState, id: EngineId, v: Version, now: Time)
    requires IsMissing(s, id, v) && now <= s.publications[v].deadline
    requires s.publications[v].acks.Keys + {id} == s.publications[v].required
    ensures AckOutcome(s, id, v, s.publications[v].resultSha, now) == Ok(true)
    ensures var s' := AfterAck(s, id, v, s.publications[v].resultSha, now);
            && IsServed(s', v) && s'.engines[id].current == v
            && (s.active in s.publications ==>
                  s.active in s'.publications && s'.publications[s.active].phase == Superseded)
            && s'.lastGood == (if s.lastGood == "" then v else s.lastGood)
            && s'.publications[v].required == s.publications[v].required
  {
    var p := s.publications[v];
    assert p.acks[id := now].Keys == p.required;
  }

  /** The answers to acknowledgements by these engines in turn, each with the digest at its time,
      and the state they leave. */
  function AckAnswers(s: RunState, order: seq<EngineId>, times: seq<Time>, v: Version, digest: Digest)
    : seq<Result<bool>>
    requires |times| == |order|
    decreases |order|
  {
    if order == [] then []
    else
      [AckOutcome(s, order[0], v, digest, times[0])]
      + AckAnswers(AfterAck(s, order[0], v, digest, times[0]), order[1..], times[1..], v, digest)
  }

  function AfterAcks(s: RunState, order: seq<EngineId>, times: seq<Time>, v: Version, digest: Digest): RunState
    requires |times| == |order|
    decreases |order|
  {
    if order == [] then s
    else AfterAcks(AfterAck(s, order[0], v, digest, times[0]), order[1..], times[1..], v, digest)
  }

  ghost predicate Distinct(order: seq<EngineId>) {
    forall i, j :: 0 <= i < j < |order| ==> order[i] != order[j]
  }

  /** The version waits for acknowledgements, and those of the engines in `order` are the missing ones. */
  ghost predicate Lacks(s: RunState, v: Version, order: seq<EngineId>) {
    && v in s.publications && s.active != v && Distinct(order)
    && (s.publications[v].phase == Ready || s.publications[v].phase == Activating)
    && s.publications[v].required <= s.engines.Keys
    && s.publications[v].acks.Keys !! Listed(order)
    && s.publications[v].acks.Keys + Listed(order) == s.publications[v].required
  }

  lemma FirstAndOthers(order: seq<EngineId>)
    requires Distinct(order) && order != []
    ensures Listed(order) == {order[0]} + Listed(order[1..]) && order[0] !in Listed(order[1..]) && Distinct(order[1..])
  {
    assert order == [order[0]] + order[1..];
  }

  lemma StillLacks(s: RunState, s': RunState, v: Version, order: seq<EngineId>, now: Time)
    requires Lacks(s, v, order) && order != [] && s'.active == s.active && s'.engines.Keys == s.engines.Keys
    requires v in s'.publications
    requires var p := s.publications[v];
             s'.publications[v] == p.(phase := Activating, acks := p.acks[order[0] := now])
    ensures Lacks(s', v, order[1..])
  {
    FirstAndOthers(order);
    assert s'.publications[v].acks.Keys == s.publications[v].acks.Keys + {order[0]};
  }

  lemma FirstIsMissing(s: RunState, v: Version, order: seq<EngineId>)
    requires Lacks(s, v, order) && order != []
    ensures IsMissing(s, order[0], v)
    ensures s.publications[v].acks.Keys + {order[0]} == s.publications[v].required <==> |order| == 1
  {
    FirstAndOthers(order);
    if |order| > 1 {
      assert order[1] == order[1..][0] && order[1] in Listed(order[1..]);
    }
  }

  /** Every acknowledgement is accepted, only the last one activates the version, and then every
      engine the version is required of is to serve it. */
  ghost predicate Activates(s: RunState, order: seq<EngineId>, times: seq<Time>, v: Version)
    requires v in s.publications && |times| == |order|
  {
    var digest := s.publications[v].resultSha;
    var answers, s' := AckAnswers(s, order, times, v, digest), AfterAcks(s, order, times, v, digest);
    && |answers| == |order| && LastOnly(answers)
    && IsServed(s', v) && s'.publications[v].required == s.publications[v].required
  }

  /** Whatever set of engines a version is required of, and in whatever order those that are
      missing acknowledge it in time with the result's digest: together they activate it. */
  lemma {:induction false} QuorumActivates(s: RunState, order: seq<EngineId>, times: seq<Time>, v: Version)
    requires order != [] && |times| == |order| && Lacks(s, v, order)
    requires forall i :: 0 <= i < |times| ==> times[i] <= s.publications[v].deadline
    ensures Activates(s, order, times, v)
    decreases |order|
  {
    if |order| == 1 {
      OneIsMissing(s, order, times, v);
    } else {
      var s' := FirstOfMany(s, order, times, v);
      QuorumActivates(s', order[1..], times[1..], v);
      FirstThenOthers(s, s', order, times, v);
    }
  }

  lemma OneIsMissing(s: RunState, order: seq<EngineId>, times: seq<Time>, v: Version)
    requires |order| == |times| == 1 && Lacks(s, v, order) && times[0] <= s.publications[v].deadline
    ensures Activates(s, order, times, v)
  {
    FirstIsMissing(s, v, order);
    LastAckActivates(s, order[0], v, times[0]);
    AckedOne(s, order, times, v, s.publications[v].resultSha);
  }

  /** The first acknowledgement leads from s to s', and is not the last. */
  ghost predicate IsFirstAck(s: RunState, s': RunState, order: seq<EngineId>, times: seq<Time>, v: Version)
    requires |order| == |times| > 0 && v in s.publications
  {
    && s' == AfterAck(s, order[0], v, s.publications[v].resultSha, times[0])
    && AckOutcome(s, order[0], v, s.publications[v].resultSha, times[0]) == Ok(false)
  }

  lemma FirstOfMany(s: RunState, order: seq<EngineId>, times: seq<Time>, v: Version) returns (s': RunState)
    requires |order| == |times| > 1 && Lacks(s, v, order) && times[0] <= s.publications[v].deadline
    ensures IsFirstAck(s, s', order, times, v)
    ensures Lacks(s', v, order[1..]) && s'.publications[v].required == s.publications[v].required
    ensures s'.publications[v].deadline == s.publications[v].deadline
    ensures s'.publications[v].resultSha == s.publications[v].resultSha
  {
    FirstIsMissing(s, v, order);
    AckIsRecorded(s, order[0], v, times[0]);
    s' := AfterAck(s, order[0], v, s.publications[v].resultSha, times[0]);
    StillLacks(s, s', v, order, times[0]);
  }

  lemma FirstThenOthers(s: RunState, s': RunState, order: seq<EngineId>, times: seq<Time>, v: Version)
    requires |order| == |times| > 1 && v in s.publications && v in s'.publications
    requires IsFirstAck(s, s', order, times, v)
    requires s'.publications[v].required == s.publications[v].required
    requires s'.publications[v].resultSha == s.publications[v].resultSha
    requires Activates(s', order[1..], times[1..], v)
    ensures Activates(s, order, times, v)
  {
    var digest := s.publications[v].resultSha;
    LastOnlyMore(AckAnswers(s', order[1..], times[1..], v, digest));
    AckedMore(s, s', order, times, v, digest);
  }

  lemma AckedMore(s: RunState, s': RunState, order: seq<EngineId>, times: seq<Time>, v: Version, digest: Digest)
    requires |order| == |times| > 0 && s' == AfterAck(s, order[0], v, digest, times[0])
    ensures AckAnswers(s, order, times, v, digest) ==
            [AckOutcome(s, order[0], v, digest, times[0])] + AckAnswers(s', order[1..], times[1..], v, digest)
    ensures AfterAcks(s, order, times, v, digest) == AfterAcks(s', order[1..], times[1..], v, digest)
  {
  }

  /** Every answer accepts, and only the last one activates. */
  ghost predicate LastOnly(answers: seq<Result<bool>>) {
    forall i :: 0 <= i < |answers| ==> answers[i] == Ok(i == |answers| - 1)
  }

  lemma LastOnlyMore(answers: seq<Result<bool>>)
    requires LastOnly(answers) && answers != []
    ensures LastOnly([Ok(false)] + answers)
  {
  }

  lemma AckedOne(s: RunState, order: seq<EngineId>, times: seq<Time>, v: Version, digest: Digest)
    requires |order| == |times| == 1
    ensures AckAnswers(s, order, times, v, digest) == [AckOutcome(s, order[0], v, digest, times[0])]
    ensures AfterAcks(s, order, times, v, digest) == AfterAck(s, order[0], v, digest, times[0])
  {
    assert order[1..] == [] && times[1..] == [];
  }

  /** The state two calls leave alike but for one engine. */
  ghost predicate OnlyEngineDiffers(s: RunState, s': RunState, id: EngineId) {
    && s' == s.(engines := s'.engines) && s'.engines.Keys == s.engines.Keys
    && forall other :: other in s.engines && other != id ==> s'.engines[other] == s.engines[other]
  }

  /** An engine that reports other bytes than the result's is drained, and nothing else changes. */
  lemma WrongDigestDrains(s: RunState, id: EngineId, v: Version, applied: Digest, now: Time)
    requires IsMissing(s, id, v) && now <= s.publications[v].deadline && applied != s.publications[v].resultSha
    ensures AckOutcome(s, id, v, applied, now) == Err(AppliedChecksumMismatch)
    ensures var s' := AfterAck(s, id, v, applied, now);
            OnlyEngineDiffers(s, s', id) && s'.engines[id].draining && s'.engines[id].current == s.engines[id].current
  {
  }

  /** An engine that is too late fails the version for everybody, and is drained. */
  lemma LateAckFails(s: RunState, id: EngineId, v: Version, applied: Digest, now: Time)
    requires IsMissing(s, id, v) && now > s.publications[v].deadline
    ensures AckOutcome(s, id, v, applied, now) == Err(DeadlineExceeded)
    ensures var s' := AfterAck(s, id, v, applied, now);
            && s'.publications == s.publications[v := s.publications[v].(phase := Failed)]
            && s'.active == s.active && s'.lastGood == s.lastGood && s'.engines.Keys == s.engines.Keys
            && s'.engines[id].draining && s'.engines[id].desired == s.engines[id].desired
  {
  }

  /** Nobody else's acknowledgement, and none of a version that is not waiting, changes anything. */
  lemma StrayAckIsRefused(s: RunState, id: EngineId, v: Version, applied: Digest, now: Time)
    requires v in s.publications && id in s.engines && !(s.active == v && s.engines[id].desired == v)
    requires id !in s.publications[v].required
             || s.publications[v].phase !in {Ready, Activating}
    ensures AckOutcome(s, id, v, applied, now).Err? && AfterAck(s, id, v, applied, now) == s
  {
  }

  // ----- Rollback and return -----

  /** A rollback makes the last-good version the active one, points every engine at it and
      drains it, and touches no publication but the one that was active. */
  lemma RollbackRepoints(s: RunState, reason: string)
    requires s.lastGood != ""
    ensures var s' := AfterRollback(s, reason);
            && s'.active == s'.lastGood == s.lastGood && s'.runId == s.runId
            && s'.engines.Keys == s.engines.Keys && s'.publications.Keys == s.publications.Keys
            && (forall id :: id in s.engines ==>
                  && s'.engines[id].desired == s.lastGood && s'.engines[id].draining
                  && s'.engines[id].current == s.engines[id].current)
            && (s.active in s.publications ==>
                  s'.publications[s.active] == s.publications[s.active].(phase := RolledBack))
            && forall v :: v in s.publications && v != s.active ==> s'.publications[v] == s.publications[v]
  {
  }

  /** An engine that reports the digest of the version it was sent back to serves it again. */
  lemma ReturnedEngineServes(s: RunState, reason: string, id: EngineId, now: Time)
    requires s.lastGood != "" && s.lastGood in s.publications && id in s.engines
    ensures var rolled := AfterRollback(s, reason);
            var digest := rolled.publications[s.lastGood].resultSha;
            var s' := AfterAck(rolled, id, s.lastGood, digest, now);
            && AckOutcome(rolled, id, s.lastGood, digest, now) == Ok(true) && OnlyEngineDiffers(rolled, s', id)
            && s'.engines[id].current == s'.engines[id].desired == s.lastGood && !s'.engines[id].draining
  {
  }

  // ----- Registration, publication, promotion, expiry -----

  /** A new engine is entered idle; a known one at most learns the version it runs. */
  lemma RegistrationIsMild(s: RunState, id: EngineId, current: Version)
    ensures var s' := AfterRegister(s, id, current);
            && s' == s.(engines := s'.engines) && s'.engines.Keys == s.engines.Keys + {id}
            && (forall other :: other in s.engines && other != id ==> s'.engines[other] == s.engines[other])
            && (id !in s.engines ==> s'.engines[id] == Engine("", current, current, 0, NoTrouble, false))
            && (id in s.engines ==>
                  var e, e' := s.engines[id], s'.engines[id];
                  if e.current != "" || current == "" then e' == e
                  else e' == e.(current := current, lastGood := current))
  {
  }

  /** What a publication must bring with it. */
  ghost predicate IsPublishable(s: RunState, m: Manifest, required: seq<EngineId>, artifact: Bytes) {
    && ArtifactSum in m.checksums && m.checksums[ArtifactSum] == Sha256(artifact)
    && (forall id :: id in required ==> id in s.engines)
    && (m.format == Delta ==>
          && m.parent in s.publications && s.publications[m.parent].phase !in {Failed, GarbageCollected}
          && ResultSum in m.checksums && m.checksums[ResultSum] != NoDigest)
  }

  /** A new version is accepted exactly when it is publishable; it is then stored unacknowledged and
      unmaterialised until its deadline, and exactly the engines it is required of are drained for it. */
  lemma PublishesExactly(s: RunState, m: Manifest, required: seq<EngineId>, timeout: int, now: Time, artifact: Bytes)
    requires ValidManifest(m) && timeout > 0 && m.version !in s.publications
    ensures var s' := AfterPublish(s, m, required, timeout, now, Some(artifact));
            if !IsPublishable(s, m, required, artifact)
            then PublishRefusal(s, m, required, timeout, Some(artifact)).Some? && s' == s
            else
              && PublishRefusal(s, m, required, timeout, Some(artifact)).None?
              && s'.publications.Keys == s.publications.Keys + {m.version}
              && s'.active == s.active && s'.lastGood == s.lastGood
              && (forall v :: v in s.publications ==> s'.publications[v] == s.publications[v])
              && IsEntered(s'.publications[m.version], m, required, now + timeout, artifact)
              && s'.engines.Keys == s.engines.Keys
              && forall id :: id in s.engines ==>
                   var e := s.engines[id];
                   s'.engines[id] == if id in required then e.(desired := m.version, draining := true) else e
  {
  }

  ghost predicate IsEntered(p: Publication, m: Manifest, required: seq<EngineId>, deadline: Time, artifact: Bytes) {
    && p.manifest == m.(uploadComplete := true, manifestCommitted := true, verified := true)
    && p.required == Listed(required) && p.acks == map[] && p.phase == Published && p.deadline == deadline
    && p.materializedUri == "" && p.artifactSha == Sha256(artifact)
  }

  /** Publishing a stored version again changes nothing; it is refused exactly when the artifact differs. */
  lemma RepublishingIsIdempotent(s: RunState, m: Manifest, required: seq<EngineId>, timeout: int, now: Time,
                                 artifact: Bytes)
    requires ValidManifest(m) && timeout > 0 && m.version in s.publications
    requires ArtifactSum in m.checksums && m.checksums[ArtifactSum] == Sha256(artifact)
    ensures AfterPublish(s, m, required, timeout, now, Some(artifact)) == s
    ensures PublishRefusal(s, m, required, timeout, Some(artifact)) ==
            if s.publications[m.version].artifactSha == Sha256(artifact) then None else Some(VersionConflict)
  {
  }

  /** Promotion makes the active version last-good for the run and for exactly the engines that run it. */
  lemma PromotionRecords(s: RunState, v: Version)
    requires s.active == v
    ensures var s' := AfterMarkGood(s, v);
            && s' == s.(lastGood := v, engines := s'.engines) && s'.engines.Keys == s.engines.Keys
            && forall id :: id in s.engines ==>
                 var e := s.engines[id];
                 s'.engines[id] == e.(lastGood := if e.current == v then v else e.lastGood)
  {
  }

  ghost predicate IsOverdue(p: Publication, now: Time) {
    p.phase in {Published, Ready, Activating} && p.deadline <= now
  }

  /** Exactly the overdue publications fail.  Exactly the engines one of them lacks are drained, and
      sent back to the active version, or to the last-good one when none is active. */
  lemma ExpiresExactly(s: RunState, now: Time)
    ensures var s' := AfterExpire(s, now);
            && s'.active == s.active && s'.lastGood == s.lastGood
            && s'.publications.Keys == s.publications.Keys && s'.engines.Keys == s.engines.Keys
            && (forall v :: v in s.publications ==>
                  var p := s.publications[v];
                  s'.publications[v] == if IsOverdue(p, now) then p.(phase := Failed) else p)
            && forall id :: id in s.engines ==>
                 var e, e' := s.engines[id], s'.engines[id];
                 var back := if s.active != "" then s.active else s.lastGood;
                 if !IsLacking(s, id, now) then e' == e
                 else e'.draining && e'.desired == back && e'.current == e.current
  {
    forall id | id in s.engines ensures IsTimedOut(s, id, now) == IsLacking(s, id, now) {
      if IsLacking(s, id, now) {
        var v :| v in s.publications && IsOverdue(s.publications[v], now)
                 && id in s.publications[v].required && id !in s.publications[v].acks;
        assert v in s.publications.Keys && IsExpiring(s.publications[v], now);
      }
    }
  }

  ghost predicate IsLacking(s: RunState, id: EngineId, now: Time) {
    exists v :: v in s.publications && IsOverdue(s.publications[v], now)
                && id in s.publications[v].required && id !in s.publications[v].acks
  }

  // ----- Collection -----

  /** A version the run or one of its engines names. */
  ghost predicate IsNamed(s: RunState, root: Version) {
    || root == s.active || root == s.lastGood
    || exists id :: id in s.engines && IsNamedBy(s.engines[id], root)
  }

  predicate IsNamedBy(e: Engine, root: Version) {
    root == e.desired || root == e.current || root == e.lastGood
  }

  lemma NamedAreRoots(s: RunState, root: Version)
    ensures IsNamed(s, root) <==> root in Roots(s)
  {
    if root in Roots(s) && root != s.active && root != s.lastGood {
      var id :| id in s.engines && root in EngineRoots(s.engines[id]);
      assert IsNamedBy(s.engines[id], root);
    }
    if IsNamed(s, root) && root != s.active && root != s.lastGood {
      var id :| id in s.engines && IsNamedBy(s.engines[id], root);
      assert root in EngineRoots(s.engines[id]);
    }
  }

  /** Some named version, or one of the chosen newest ones, leads to this one by parent links. */
  ghost predicate IsLedTo(s: RunState, newest: set<Version>, v: Version) {
    exists root :: (IsNamed(s, root) || root in newest) && Reaches(s.publications, root, v)
  }

  /** A collection removes exactly the versions that neither wait for acknowledgements nor are led to. */
  lemma CollectsExactly(s: RunState, n: int, keep: set<Version>, s': RunState) returns (newest: set<Version>)
    requires IsCollection(s, n, keep, s')
    ensures IsNewest(s.publications, n, newest)
    ensures s' == s.(publications := s'.publications) && s'.publications.Keys <= s.publications.Keys
    ensures forall v :: v in s.publications ==>
              (v in s'.publications <==>
               s.publications[v].phase in {Published, Ready, Activating} || IsLedTo(s, newest, v))
    ensures forall v :: v in s'.publications ==> s'.publications[v] == s.publications[v]
  {
    newest :| IsNewest(s.publications, n, newest) && IsKeepSet(s, newest, keep);
    forall v ensures IsLedTo(s, newest, v) <==> v in keep {
      LedToIsKept(s, newest, v);
    }
  }

  lemma LedToIsKept(s: RunState, newest: set<Version>, v: Version)
    ensures IsLedTo(s, newest, v) <==> ReachedFrom(s.publications, Roots(s) + newest, v)
  {
    if IsLedTo(s, newest, v) {
      var root :| (IsNamed(s, root) || root in newest) && Reaches(s.publications, root, v);
      NamedAreRoots(s, root);
      assert root in Roots(s) + newest;
    }
    if ReachedFrom(s.publications, Roots(s) + newest, v) {
      var root :| root in Roots(s) + newest && Reaches(s.publications, root, v);
      NamedAreRoots(s, root);
    }
  }
}
