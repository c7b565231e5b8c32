/** What every run of the weight service keeps: the activation quorum, the single
    active version, and what an engine may be told to serve. */
module WeightProtocol {
  import opened Basics
  import opened WeightModel
  import opened WeightMaterialize
  import opened WeightRetention

  // ----- Steps and runs -----

  /** One call to the service, with what it read from the clock and the store. */
  datatype Event =
    | RegisterEngine(id: EngineId, current: Version)
    | Publish(manifest: Manifest, required: seq<EngineId>, timeout: int, now: Time, artifact: Option<Bytes>)
    | Materialize(version: Version, store: Store)
    | Acknowledge(id: EngineId, version: Version, applied: Digest, now: Time)
    | MarkGood(version: Version)
    | Rollback(reason: string)
    | Expire(now: Time)
    | Collect(retainNewest: int)

  ghost predicate Effect(s: RunState, e: Event, s': RunState) {
    match e
    case RegisterEngine(id, current) => id != "" && s' == AfterRegister(s, id, current)
    case Publish(m, required, timeout, now, artifact) =>
      m.runId == s.runId && s' == AfterPublish(s, m, required, timeout, now, artifact)
    case Materialize(v, store) => s' == AfterMaterialize(s, store, v)
    case Acknowledge(id, v, applied, now) => s' == AfterAck(s, id, v, applied, now)
    case MarkGood(v) => s' == AfterMarkGood(s, v)
    case Rollback(reason) => s' == AfterRollback(s, reason)
    case Expire(now) => s' == AfterExpire(s, now)
    case Collect(n) => exists keep :: IsCollection(s, n, keep, s')
  }

  /** A call either has its effect or, when it fails before or at the save, none. */
  ghost predicate Next(s: RunState, e: Event, s': RunState) {
    s' == s || Effect(s, e, s')
  }

  ghost predicate IsRun(runId: string, states: seq<RunState>, events: seq<Event>) {
    && |states| == |events| + 1
    && states[0] == EmptyRun(runId)
    && forall i :: 0 <= i < |events| ==> Next(states[i], events[i], states[i + 1])
  }

  // ----- The invariant -----

  ghost predicate PublicationOk(s: RunState, v: Version)
    requires v in s.publications
  {
    var p := s.publications[v];
    && ValidManifest(p.manifest) && p.manifest.version == v && p.manifest.runId == s.runId
    && p.acks.Keys <= p.required <= s.engines.Keys
    && (p.materializedUri == "" || (p.materializedUri == MaterializedUriOf(s.runId, v)
                                    && p.resultSha == ExpectedDigest(p)))
    && (p.phase == Ready || p.phase == Activating || p.acks != map[] ==> p.materializedUri != "")
    && (p.phase == Active ==> s.active == v)
  }

  /** A version that reached full acknowledgement and is still stored. */
  ghost predicate Quorate(s: RunState, v: Version) {
    v in s.publications && FullyAcknowledged(s.publications[v])
  }

  ghost predicate EngineOk(s: RunState, e: Engine) {
    !e.draining ==> e.desired == "" || Quorate(s, e.desired)
  }

  ghost predicate Inv(s: RunState) {
    && (forall v :: v in s.publications ==> PublicationOk(s, v))
    && (forall id :: id in s.engines ==> EngineOk(s, s.engines[id]))
    && (s.active == "" || Quorate(s, s.active))
    && (s.lastGood == "" || Quorate(s, s.lastGood))
    && (s.active == "" <==> s.lastGood == "")
  }

  /** Everything a publication is held to, bar what acknowledging and materialising change. */
  ghost predicate SameRelease(p: Publication, q: Publication) {
    p.manifest == q.manifest && p.required == q.required && p.deadline == q.deadline && p.artifactSha == q.artifactSha
  }

  /** No stored publication loses an acknowledgement. */
  ghost predicate AcksKept(s: RunState, s': RunState, v: Version) {
    v in s.publications && v in s'.publications ==>
      && SameRelease(s.publications[v], s'.publications[v])
      && s.publications[v].acks.Keys <= s'.publications[v].acks.Keys
  }

  lemma QuorateStays(s: RunState, s': RunState, v: Version)
    requires Quorate(s, v) && v in s'.publications && AcksKept(s, s', v)
    requires s'.publications[v].acks.Keys <= s'.publications[v].required
    ensures Quorate(s', v)
  {
  }

  /** A step that removes no publication and loses no acknowledgement keeps the
      invariant if publications, engines and pointers are each in order. */
  lemma CarryOver(s: RunState, s': RunState)
    requires forall v :: v in s.publications ==> v in s'.publications && AcksKept(s, s', v)
    requires forall v :: v in s'.publications ==> PublicationOk(s', v)
    requires forall id :: id in s'.engines ==> EngineOk(s, s'.engines[id]) || EngineOk(s', s'.engines[id])
    requires s'.active == "" || Quorate(s, s'.active) || Quorate(s', s'.active)
    requires s'.lastGood == "" || Quorate(s, s'.lastGood) || Quorate(s', s'.lastGood)
    requires s'.active == "" <==> s'.lastGood == ""
    ensures Inv(s')
  {
    forall v | Quorate(s, v) ensures Quorate(s', v) {
      assert PublicationOk(s', v);
      QuorateStays(s, s', v);
    }
  }

  lemma RegisterKeepsInv(s: RunState, id: EngineId, current: Version)
    requires Inv(s) && id != ""
    ensures Inv(AfterRegister(s, id, current))
  {
    var s' := AfterRegister(s, id, current);
    forall v | v in s'.publications ensures PublicationOk(s', v) {
      assert PublicationOk(s, v);
    }
    forall e | e in s'.engines ensures EngineOk(s, s'.engines[e]) {
      assert e in s.engines ==> EngineOk(s, s.engines[e]);
    }
    CarryOver(s, s');
  }

  lemma PublishedPublication(s: RunState, m: Manifest, required: seq<EngineId>, timeout: int, now: Time,
                             artifact: Option<Bytes>, v: Version)
    requires m.runId == s.runId && (v in s.publications ==> PublicationOk(s, v))
    requires v in AfterPublish(s, m, required, timeout, now, artifact).publications
    ensures PublicationOk(AfterPublish(s, m, required, timeout, now, artifact), v)
    ensures v in s.publications ==>
              AfterPublish(s, m, required, timeout, now, artifact).publications[v] == s.publications[v]
  {
  }

  lemma PublishKeepsInv(s: RunState, m: Manifest, required: seq<EngineId>, timeout: int, now: Time,
                        artifact: Option<Bytes>)
    requires Inv(s) && m.runId == s.runId
    ensures Inv(AfterPublish(s, m, required, timeout, now, artifact))
  {
    var s' := AfterPublish(s, m, required, timeout, now, artifact);
    if s' != s {
      forall v | v in s'.publications
        ensures PublicationOk(s', v) && (v in s.publications ==> s'.publications[v] == s.publications[v])
      {
        PublishedPublication(s, m, required, timeout, now, artifact, v);
      }
      forall e | e in s'.engines ensures EngineOk(s, s'.engines[e]) {
        assert EngineOk(s, s.engines[e]);
      }
      CarryOver(s, s');
    }
  }

  ghost predicate CacheOk(runId: string, v: Version, p: Publication) {
    && (p.materializedUri == ""
        || (p.materializedUri == MaterializedUriOf(runId, v) && p.resultSha == ExpectedDigest(p)))
    && (p.phase == Ready || p.phase == Activating ==> p.materializedUri != "")
  }

  /** Materialisation records only cache entries that are in place and carry the
      expected digest, and leaves any other publication as it was. */
  lemma {:induction false} MaterializeKeepsCache(runId: string, pubs: map<Version, Publication>, store: Store,
                                                 v: Version, visiting: set<Version>, w: Version)
    requires w in pubs && CacheOk(runId, w, pubs[w])
    ensures var q := MaterializeFrom(runId, pubs, store, v, visiting).pubs[w];
            && CacheOk(runId, w, q)
            && (q == pubs[w] || (SameButCache(pubs[w], q) && q.phase == Ready))
    decreases pubs.Keys - visiting
  {
    if v !in visiting && v in pubs && pubs[v].manifest.format == Delta {
      MaterializeKeepsCache(runId, pubs, store, pubs[v].manifest.parent, visiting + {v}, w);
    }
  }

  lemma MaterializedPublication(s: RunState, store: Store, version: Version, v: Version)
    requires v in s.publications && PublicationOk(s, v)
    ensures var s' := AfterMaterialize(s, store, version);
            v in s'.publications && PublicationOk(s', v) && AcksKept(s, s', v)
            && s'.publications[v].acks == s.publications[v].acks
  {
    assert CacheOk(s.runId, v, s.publications[v]);
    MaterializeKeepsCache(s.runId, s.publications, store, version, {}, v);
  }

  lemma SuccessIsRecorded(runId: string, pubs: map<Version, Publication>, store: Store, v: Version)
    requires MaterializeFrom(runId, pubs, store, v, {}).outcome.Ok?
    ensures v in pubs && MaterializeFrom(runId, pubs, store, v, {}).pubs[v].materializedUri != ""
  {
  }

  /** A successful materialisation leaves the version cached in its place under the digest of its bytes. */
  lemma MaterializedIsInPlace(s: RunState, store: Store, v: Version)
    requires Inv(s) && MaterializedBytes(s, store, v).Ok?
    ensures v in AfterMaterialize(s, store, v).publications
    ensures var p := AfterMaterialize(s, store, v).publications[v];
            && p.materializedUri == MaterializedUriOf(s.runId, v)
            && p.resultSha == Sha256(MaterializedBytes(s, store, v).value)
  {
    forall w | w in s.publications && s.publications[w].materializedUri != ""
      ensures s.publications[w].resultSha == ExpectedDigest(s.publications[w])
    {
      assert PublicationOk(s, w);
    }
    SuccessHasExpectedDigest(s.runId, s.publications, store, v, {});
    SuccessIsRecorded(s.runId, s.publications, store, v);
    assert CacheOk(s.runId, v, s.publications[v]) by {
      assert PublicationOk(s, v);
    }
    MaterializeKeepsCache(s.runId, s.publications, store, v, {}, v);
  }

  lemma MaterializeKeepsInv(s: RunState, store: Store, version: Version)
    requires Inv(s)
    ensures Inv(AfterMaterialize(s, store, version))
  {
    var s' := AfterMaterialize(s, store, version);
    forall v | v in s.publications ensures PublicationOk(s', v) && AcksKept(s, s', v) {
      MaterializedPublication(s, store, version, v);
    }
    CarryOver(s, s');
  }

  // ----- Acknowledgement -----

  lemma SubsetOfSameSize<T>(a: set<T>, b: set<T>)
    requires a <= b && |a| == |b|
    ensures a == b
  {
    assert b == a + (b - a);
  }

  lemma AckCompletesQuorum(s: RunState, id: EngineId, v: Version, applied: Digest, now: Time)
    requires Inv(s) && id in s.engines && v in s.publications && !IsReturnAck(s, id, v)
    requires AckOutcome(s, id, v, applied, now) == Ok(true)
    ensures FullyAcknowledged(RecordAck(s, id, v, now).publications[v])
  {
    var p := RecordAck(s, id, v, now).publications[v];
    assert PublicationOk(s, v);
    assert |p.acks| == |p.acks.Keys|;
    SubsetOfSameSize(p.acks.Keys, p.required);
  }

  lemma RecordedPublication(s: RunState, id: EngineId, v: Version, applied: Digest, now: Time, w: Version)
    requires id in s.engines && v in s.publications && !IsReturnAck(s, id, v)
    requires AckOutcome(s, id, v, applied, now).Ok?
    requires w in s.publications && PublicationOk(s, w)
    ensures var s' := RecordAck(s, id, v, now);
            w in s'.publications && PublicationOk(s', w) && AcksKept(s, s', w)
  {
  }

  lemma RecordAckKeepsInv(s: RunState, id: EngineId, v: Version, applied: Digest, now: Time)
    requires Inv(s) && id in s.engines && v in s.publications && !IsReturnAck(s, id, v)
    requires AckOutcome(s, id, v, applied, now).Ok?
    ensures Inv(RecordAck(s, id, v, now))
  {
    var s' := RecordAck(s, id, v, now);
    forall w | w in s'.publications ensures PublicationOk(s', w) && AcksKept(s, s', w) {
      RecordedPublication(s, id, v, applied, now, w);
    }
    forall e | e in s'.engines ensures EngineOk(s, s'.engines[e]) {
      assert EngineOk(s, s.engines[e]);
    }
    CarryOver(s, s');
  }

  lemma ActivatedPublication(s: RunState, v: Version, w: Version)
    requires v in s.publications && w in s.publications && PublicationOk(s, w)
    ensures var s' := Activate(s, v);
            w in s'.publications && PublicationOk(s', w) && AcksKept(s, s', w)
  {
  }

  lemma ActivateKeepsInv(s: RunState, v: Version)
    requires Inv(s) && Quorate(s, v)
    ensures Inv(Activate(s, v))
  {
    var s' := Activate(s, v);
    assert v != "" by { assert PublicationOk(s, v); }
    forall w | w in s'.publications ensures PublicationOk(s', w) && AcksKept(s, s', w) {
      ActivatedPublication(s, v, w);
    }
    forall e | e in s'.engines ensures EngineOk(s, s'.engines[e]) {
      assert EngineOk(s, s.engines[e]);
    }
    CarryOver(s, s');
  }

  /** Refusing an acknowledgement may only fail the publication and drain the engine. */
  lemma DrainKeepsInv(s: RunState, id: EngineId, e: Engine, v: Version, phase: Phase)
    requires Inv(s) && id in s.engines && v in s.publications
    requires EngineOk(s, e)
    requires phase == s.publications[v].phase || phase == Failed
    ensures Inv(s.(engines := s.engines[id := e],
                   publications := s.publications[v := s.publications[v].(phase := phase)]))
  {
    var s' := s.(engines := s.engines[id := e],
                 publications := s.publications[v := s.publications[v].(phase := phase)]);
    forall w | w in s'.publications ensures PublicationOk(s', w) && AcksKept(s, s', w) {
      assert PublicationOk(s, w);
    }
    forall i | i in s'.engines ensures EngineOk(s, s'.engines[i]) {
      assert EngineOk(s, s.engines[i]);
    }
    CarryOver(s, s');
  }

  /** Any other acknowledgement at most fails the publication and changes one engine,
      which is then draining or back on the active version. */
  lemma OtherAckEffect(s: RunState, id: EngineId, v: Version, applied: Digest, now: Time)
    requires v in s.publications && id in s.engines && EngineOk(s, s.engines[id])
    requires s.active == v ==> Quorate(s, v)
    requires IsReturnAck(s, id, v) || AckOutcome(s, id, v, applied, now).Err?
    ensures var s' := AfterAck(s, id, v, applied, now);
            && id in s'.engines && v in s'.publications && EngineOk(s, s'.engines[id])
            && (s'.publications[v].phase == s.publications[v].phase || s'.publications[v].phase == Failed)
            && s' == s.(engines := s.engines[id := s'.engines[id]],
                        publications := s.publications[v := s.publications[v].(phase := s'.publications[v].phase)])
  {
    var s' := AfterAck(s, id, v, applied, now);
    assert s.publications[v] == s.publications[v].(phase := s.publications[v].phase);
    assert s.publications == s.publications[v := s.publications[v]];
    assert s.engines == s.engines[id := s.engines[id]];
  }

  lemma AckKeepsInv(s: RunState, id: EngineId, v: Version, applied: Digest, now: Time)
    requires Inv(s)
    ensures Inv(AfterAck(s, id, v, applied, now))
  {
    if v in s.publications && id in s.engines {
      var outcome := AckOutcome(s, id, v, applied, now);
      var s' := AfterAck(s, id, v, applied, now);
      if IsReturnAck(s, id, v) || outcome.Err? {
        assert v != "" by { assert PublicationOk(s, v); }
        OtherAckEffect(s, id, v, applied, now);
        DrainKeepsInv(s, id, s'.engines[id], v, s'.publications[v].phase);
      } else {
        RecordAckKeepsInv(s, id, v, applied, now);
        if outcome.value {
          AckCompletesQuorum(s, id, v, applied, now);
          ActivateKeepsInv(RecordAck(s, id, v, now), v);
        }
      }
    }
  }

  // ----- Promotion, rollback, expiry, collection -----

  lemma MarkGoodKeepsInv(s: RunState, v: Version)
    requires Inv(s)
    ensures Inv(AfterMarkGood(s, v))
  {
    var s' := AfterMarkGood(s, v);
    forall w | w in s'.publications ensures PublicationOk(s', w) {
      assert PublicationOk(s, w);
    }
    forall e | e in s'.engines ensures EngineOk(s', s'.engines[e]) {
      assert EngineOk(s, s.engines[e]);
    }
  }

  lemma RolledBackPublication(s: RunState, reason: string, w: Version)
    requires w in s.publications && PublicationOk(s, w)
    ensures var s' := AfterRollback(s, reason);
            w in s'.publications && PublicationOk(s', w) && AcksKept(s, s', w)
  {
  }

  lemma RollbackKeepsInv(s: RunState, reason: string)
    requires Inv(s)
    ensures Inv(AfterRollback(s, reason))
  {
    var s' := AfterRollback(s, reason);
    if s.lastGood != "" {
      forall w | w in s'.publications ensures PublicationOk(s', w) && AcksKept(s, s', w) {
        RolledBackPublication(s, reason, w);
      }
      CarryOver(s, s');
    }
  }

  lemma ExpiredPublication(s: RunState, now: Time, w: Version)
    requires w in s.publications && PublicationOk(s, w)
    ensures var s' := AfterExpire(s, now);
            w in s'.publications && PublicationOk(s', w) && AcksKept(s, s', w)
  {
    assert AfterExpire(s, now).engines.Keys == s.engines.Keys;
  }

  lemma ExpireKeepsInv(s: RunState, now: Time)
    requires Inv(s)
    ensures Inv(AfterExpire(s, now))
  {
    var s' := AfterExpire(s, now);
    forall w | w in s'.publications ensures PublicationOk(s', w) && AcksKept(s, s', w) {
      ExpiredPublication(s, now, w);
    }
    forall e | e in s'.engines ensures EngineOk(s, s'.engines[e]) {
      assert EngineOk(s, s.engines[e]);
    }
    CarryOver(s, s');
  }

  lemma CollectKeepsInv(s: RunState, n: int, keep: set<Version>, s': RunState)
    requires Inv(s) && IsCollection(s, n, keep, s')
    ensures Inv(s')
  {
    forall w | w in s'.publications ensures PublicationOk(s', w) {
      assert PublicationOk(s, w);
    }
    var newest := CollectionKeepsReached(s, n, keep, s');
    forall w | Quorate(s, w) && w in Roots(s) ensures Quorate(s', w) {
      assert PublicationOk(s, w);
      ReachesSelf(s.publications, w);
      assert ReachedFrom(s.publications, Roots(s) + newest, w);
    }
    forall e | e in s'.engines ensures EngineOk(s', s'.engines[e]) {
      assert EngineOk(s, s.engines[e]);
      assert s.engines[e].desired in EngineRoots(s.engines[e]);
    }
  }

  lemma CollectionIsNext(s: RunState, n: int, keep: set<Version>, s': RunState)
    requires IsCollection(s, n, keep, s')
    ensures Next(s, Collect(n), s')
  {
  }

  // ----- Every state of every run -----

  lemma StepKeepsInv(s: RunState, e: Event, s': RunState)
    requires Inv(s) && Next(s, e, s')
    ensures Inv(s')
  {
    if s' != s {
      match e
      case RegisterEngine(id, current) => RegisterKeepsInv(s, id, current);
      case Publish(m, required, timeout, now, artifact) => PublishKeepsInv(s, m, required, timeout, now, artifact);
      case Materialize(v, store) => MaterializeKeepsInv(s, store, v);
      case Acknowledge(id, v, applied, now) => AckKeepsInv(s, id, v, applied, now);
      case MarkGood(v) => MarkGoodKeepsInv(s, v);
      case Rollback(reason) => RollbackKeepsInv(s, reason);
      case Expire(now) => ExpireKeepsInv(s, now);
      case Collect(n) =>
        var keep :| IsCollection(s, n, keep, s');
        CollectKeepsInv(s, n, keep, s');
    }
  }

  /** Over whole runs the invariant holds of every state. */
  lemma {:induction false} RunKeepsInv(runId: string, states: seq<RunState>, events: seq<Event>, n: nat)
    requires IsRun(runId, states, events) && n < |states|
    ensures Inv(states[n])
  {
    if n > 0 {
      RunKeepsInv(runId, states, events, n - 1);
      StepKeepsInv(states[n - 1], events[n - 1], states[n]);
    }
  }

  /** In every reachable state: at most one publication is active and it is the one
      the run names; the run's active and last-good versions are stored and fully
      acknowledged; every engine a publication waits for is registered; and an engine
      not draining is told to serve nothing or a stored, fully acknowledged version. */
  lemma ReachableStatesAreSafe(runId: string, states: seq<RunState>, events: seq<Event>, n: nat)
    requires IsRun(runId, states, events) && n < |states|
    ensures var s := states[n];
            && (forall v :: v in s.publications && s.publications[v].phase == Active ==> v == s.active)
            && (s.active == "" || Quorate(s, s.active))
            && (s.lastGood == "" || Quorate(s, s.lastGood))
            && (forall v :: v in s.publications ==> s.publications[v].required <= s.engines.Keys)
            && (forall id :: id in s.engines && !s.engines[id].draining ==>
                  s.engines[id].desired == "" || Quorate(s, s.engines[id].desired))
  {
    var s := states[n];
    RunKeepsInv(runId, states, events, n);
    forall v | v in s.publications
      ensures s.publications[v].required <= s.engines.Keys && (s.publications[v].phase == Active ==> v == s.active)
    {
      assert PublicationOk(s, v);
    }
    forall id | id in s.engines && !s.engines[id].draining
      ensures s.engines[id].desired == "" || Quorate(s, s.engines[id].desired)
    {
      assert EngineOk(s, s.engines[id]);
    }
  }

  /** The version a rollback answers with is stored, fully acknowledged and materialised
      in its place under the digest its manifest asks for; it is the new active version. */
  lemma RollbackTargetIsServable(runId: string, states: seq<RunState>, events: seq<Event>, n: nat, reason: string)
    requires IsRun(runId, states, events) && n < |states| && states[n].lastGood != ""
    ensures var s' := AfterRollback(states[n], reason);
            && s'.active == states[n].lastGood && Quorate(s', s'.active)
            && s'.publications[s'.active].materializedUri == MaterializedUriOf(runId, s'.active)
            && s'.publications[s'.active].resultSha == ExpectedDigest(s'.publications[s'.active])
  {
    var s := states[n];
    RunKeepsInv(runId, states, events, n);
    RollbackKeepsInv(s, reason);
    var s' := AfterRollback(s, reason);
    assert PublicationOk(s', s'.active);
    assert s'.publications[s'.active].acks.Keys != {};
    RunIdIsFixed(runId, states, events, n);
  }

  lemma StepKeepsRunId(s: RunState, e: Event, s': RunState)
    requires Next(s, e, s')
    ensures s'.runId == s.runId
  {
  }

  lemma {:induction false} RunIdIsFixed(runId: string, states: seq<RunState>, events: seq<Event>, n: nat)
    requires IsRun(runId, states, events) && n < |states|
    ensures states[n].runId == runId
  {
    if n > 0 {
      RunIdIsFixed(runId, states, events, n - 1);
      StepKeepsRunId(states[n - 1], events[n - 1], states[n]);
    }
  }

  // ----- Where acknowledgements come from -----

  /** An acknowledgement that carried the version's expected digest before the deadline. */
  ghost predicate IsGoodAck(e: Event, id: EngineId, v: Version, p: Publication) {
    && e.Acknowledge? && e.id == id && e.version == v
    && e.applied == ExpectedDigest(p) && e.now <= p.deadline && id in p.required
  }

  /** What one step can do to a publication stored before and after it. */
  ghost predicate PublicationStep(e: Event, v: Version, p: Publication, q: Publication) {
    && SameRelease(p, q)
    && (forall id :: id in q.acks ==> id in p.acks || IsGoodAck(e, id, v, q))
    && (q.phase == Active ==> p.phase == Active || (e.Acknowledge? && e.version == v))
  }

  lemma ActivatePublicationStep(s: RunState, version: Version, v: Version, e: Event)
    requires v in s.publications && version in s.publications && e.Acknowledge? && e.version == version
    ensures v in Activate(s, version).publications
    ensures PublicationStep(e, v, s.publications[v], Activate(s, version).publications[v])
  {
  }

  lemma AckPublicationStep(s: RunState, id: EngineId, version: Version, applied: Digest, now: Time, v: Version)
    requires v in s.publications && PublicationOk(s, v)
    ensures var s' := AfterAck(s, id, version, applied, now);
            v in s'.publications
            && PublicationStep(Acknowledge(id, version, applied, now), v, s.publications[v], s'.publications[v])
  {
    var e := Acknowledge(id, version, applied, now);
    var outcome := AckOutcome(s, id, version, applied, now);
    if version in s.publications && id in s.engines && !IsReturnAck(s, id, version) && outcome.Ok? {
      var t := RecordAck(s, id, version, now);
      assert PublicationStep(e, v, s.publications[v], t.publications[v]);
      if outcome.value {
        ActivatePublicationStep(t, version, v, e);
      }
    }
  }

  lemma MaterializePublicationStep(s: RunState, version: Version, store: Store, v: Version)
    requires v in s.publications && PublicationOk(s, v)
    ensures var s' := AfterMaterialize(s, store, version);
            v in s'.publications
            && PublicationStep(Materialize(version, store), v, s.publications[v], s'.publications[v])
  {
    assert CacheOk(s.runId, v, s.publications[v]);
    MaterializeKeepsCache(s.runId, s.publications, store, version, {}, v);
  }

  /** A publication present after a step was there before it and took a legal step,
      or is a fresh release with no acknowledgement. */
  ghost predicate PublicationOrigin(s: RunState, e: Event, s': RunState, v: Version)
    requires v in s'.publications
  {
    if v in s.publications then PublicationStep(e, v, s.publications[v], s'.publications[v])
    else s'.publications[v].acks == map[] && s'.publications[v].phase == Published
  }

  lemma StepOnPublication(s: RunState, e: Event, s': RunState, v: Version)
    requires v in s.publications ==> PublicationOk(s, v)
    requires Effect(s, e, s') && v in s'.publications
    ensures PublicationOrigin(s, e, s', v)
  {
    match e
    case RegisterEngine(_, _) =>
    case Publish(m, required, timeout, now, artifact) =>
      PublishedPublication(s, m, required, timeout, now, artifact, v);
    case Materialize(version, store) =>
      if v in s.publications {
        MaterializePublicationStep(s, version, store, v);
      }
    case Acknowledge(id, version, applied, now) =>
      if v in s.publications {
        AckPublicationStep(s, id, version, applied, now, v);
      }
    case MarkGood(_) =>
    case Rollback(_) =>
    case Expire(_) =>
    case Collect(_) =>
  }

  lemma RunOnPublication(runId: string, states: seq<RunState>, events: seq<Event>, n: nat, v: Version)
    requires IsRun(runId, states, events) && 0 < n < |states| && v in states[n].publications
    ensures PublicationOrigin(states[n - 1], events[n - 1], states[n], v)
  {
    var s, e, s' := states[n - 1], events[n - 1], states[n];
    assert v in s.publications ==> PublicationOk(s, v) by {
      RunKeepsInv(runId, states, events, n - 1);
    }
    assert Next(s, e, s');
    if s' != s {
      StepOnPublication(s, e, s', v);
    }
  }

  /** Event i acknowledged v for engine id, and v has been stored with that
      acknowledgement, as one and the same release, from then up to state n. */
  ghost predicate AckedSince(states: seq<RunState>, events: seq<Event>, n: nat, v: Version, id: EngineId, i: nat)
    requires |states| == |events| + 1 && n < |states| && v in states[n].publications
  {
    && i < n && IsGoodAck(events[i], id, v, states[n].publications[v])
    && forall j :: i < j <= n ==>
         && v in states[j].publications && id in states[j].publications[v].acks
         && SameRelease(states[j].publications[v], states[n].publications[v])
  }

  lemma ExtendAckedSince(states: seq<RunState>, events: seq<Event>, n: nat, v: Version, id: EngineId, i: nat)
    requires |states| == |events| + 1 && 0 < n < |states|
    requires v in states[n - 1].publications && v in states[n].publications && id in states[n].publications[v].acks
    requires SameRelease(states[n - 1].publications[v], states[n].publications[v])
    requires AckedSince(states, events, n - 1, v, id, i)
    ensures AckedSince(states, events, n, v, id, i)
  {
  }

  lemma {:induction false} AckHistory(runId: string, states: seq<RunState>, events: seq<Event>, n: nat,
                                      v: Version, id: EngineId) returns (i: nat)
    requires IsRun(runId, states, events) && n < |states|
    requires v in states[n].publications && id in states[n].publications[v].acks
    ensures AckedSince(states, events, n, v, id, i)
  {
    if n == 0 {
      assert false;
    } else {
      RunOnPublication(runId, states, events, n, v);
      if id in states[n - 1].publications[v].acks {
        i := AckHistory(runId, states, events, n - 1, v, id);
        ExtendAckedSince(states, events, n, v, id, i);
      } else {
        i := n - 1;
      }
    }
  }

  /** The activation quorum: whenever a step makes a publication active, that step is
      an acknowledgement of it, its acknowledgements are exactly its non-empty required
      set, and each of them came, for this very release, from a call that carried the
      expected digest and beat the deadline. */
  lemma ActivationHasQuorum(runId: string, states: seq<RunState>, events: seq<Event>, n: nat, v: Version)
    requires IsRun(runId, states, events) && 0 < n < |states|
    requires v in states[n].publications && states[n].publications[v].phase == Active
    requires !(v in states[n - 1].publications && states[n - 1].publications[v].phase == Active)
    ensures events[n - 1].Acknowledge? && events[n - 1].version == v
    ensures FullyAcknowledged(states[n].publications[v])
    ensures forall id :: id in states[n].publications[v].required ==>
              exists i :: AckedSince(states, events, n, v, id, i)
  {
    RunOnPublication(runId, states, events, n, v);
    assert Quorate(states[n], v) by {
      RunKeepsInv(runId, states, events, n);
      assert PublicationOk(states[n], v);
    }
    forall id | id in states[n].publications[v].required ensures exists i :: AckedSince(states, events, n, v, id, i) {
      var i := AckHistory(runId, states, events, n, v, id);
    }
  }
}
