/** What reachable states add to the results about materialisation and collection:
    every hypothesis about the state is a consequence of how it came about. */
module WeightGuarantees {
  import opened Basics
  import opened WeightModel
  import opened WeightMaterialize
  import opened WeightRetention
  import opened WeightProtocol

  lemma ReachableStateIsInPlace(runId: string, states: seq<RunState>, events: seq<Event>, n: nat)
    requires IsRun(runId, states, events) && n < |states|
    ensures CacheConsistent(states[n].publications)
    ensures CachedInPlace(states[n])
    ensures DeltasHaveParents(states[n].publications)
  {
    RunKeepsInv(runId, states, events, n);
    forall v | v in states[n].publications ensures PublicationOk(states[n], v) {
    }
  }

  /** The state with every cache entry forgotten. */
  function Forgetful(s: RunState): RunState {
    s.(publications := map v | v in s.publications :: s.publications[v].(materializedUri := ""))
  }

  /** In every reachable state, whatever the store holds: if materialising a version
      succeeds, and succeeds with all caches forgotten (against any store), both give the
      same bytes, the XOR of the artifacts from the base to the version. */
  lemma CachedBytesAreTheChain(runId: string, states: seq<RunState>, events: seq<Event>, n: nat,
                               store: Store, bareStore: Store, v: Version)
    requires IsRun(runId, states, events) && n < |states|
    requires MaterializedBytes(states[n], store, v).Ok?
    requires MaterializedBytes(Forgetful(states[n]), bareStore, v).Ok?
    ensures MaterializedBytes(states[n], store, v) == MaterializedBytes(Forgetful(states[n]), bareStore, v)
    ensures ChainFrom(states[n].publications, v, {}).Some?
    ensures exists payloads ::
      && ArtifactsOf(states[n].publications, bareStore, ChainFrom(states[n].publications, v, {}).value, payloads)
      && IsXorOf(MaterializedBytes(states[n], store, v).value, payloads)
  {
    ReachableStateIsInPlace(runId, states, events, n);
    CacheIsTransparent(states[n], Forgetful(states[n]), store, bareStore, v);
    MaterializedIsChainXor(states[n], store, Forgetful(states[n]), bareStore, v);
  }

  /** In every reachable state whose publications keep their objects apart, a
      collection leaves the bytes of everything it keeps as they were, whether it
      completes, is not saved, or stops at a failed delete. */
  lemma CollectionPreservesReachableBytes(runId: string, states: seq<RunState>, events: seq<Event>, n: nat,
                                          retainNewest: int, keep: set<Version>, s': RunState,
                                          store: Store, store': Store, v: Version)
    requires IsRun(runId, states, events) && n < |states| && SeparateUris(states[n])
    requires IsCollection(states[n], retainNewest, keep, s') && SweptOnly(states[n], keep, store, store')
    requires v in keep
    ensures MaterializedBytes(s', store', v) == MaterializedBytes(states[n], store, v)
    ensures MaterializedBytes(states[n], store', v) == MaterializedBytes(states[n], store, v)
  {
    ReachableStateIsInPlace(runId, states, events, n);
    CollectionPreservesBytes(states[n], retainNewest, keep, s', store, store', v);
  }

  // ----- Cycles do arise -----

  ghost predicate Reachable(runId: string, s: RunState) {
    exists states, events :: IsRun(runId, states, events) && states[|states| - 1] == s
  }

  lemma LongerRun(runId: string, states: seq<RunState>, events: seq<Event>, e: Event, s': RunState)
    requires IsRun(runId, states, events) && Next(states[|states| - 1], e, s')
    ensures IsRun(runId, states + [s'], events + [e])
  {
    var longer, more := states + [s'], events + [e];
    forall i | 0 <= i < |more| ensures Next(longer[i], more[i], longer[i + 1]) {
      if i < |events| {
        assert Next(states[i], events[i], states[i + 1]);
      }
    }
  }

  lemma ReachNext(runId: string, s: RunState, e: Event, s': RunState)
    requires Reachable(runId, s) && Next(s, e, s')
    ensures Reachable(runId, s')
  {
    var states, events :| IsRun(runId, states, events) && states[|states| - 1] == s;
    LongerRun(runId, states, events, e, s');
    assert (states + [s'])[|states + [s']| - 1] == s';
  }

  const SAMPLE_RUN := "r"
  const SAMPLE_BYTES: Bytes := [1]

  function SampleManifest(version: Version, parent: Version, format: Format, uri: Uri, step: int): Manifest {
    Manifest(V1Alpha1, version, SAMPLE_RUN, "base", parent, format,
             map[ArtifactSum := Sha256(SAMPLE_BYTES), ResultSum := Sha256(SAMPLE_BYTES)],
             1, step, uri, true, true, true)
  }

  function Sample(m: Manifest, deadline: Time): Publication {
    NewPublication(m, {}, deadline, SAMPLE_BYTES)
  }

  function SampleRun(pubs: map<Version, Publication>): RunState {
    EmptyRun(SAMPLE_RUN).(publications := pubs)
  }

  lemma SampleIsEntered(s: RunState, m: Manifest, required: seq<EngineId>, timeout: int)
    requires m == SampleManifest(m.version, m.parent, m.format, m.artifactUri, m.optimizerStep)
    requires m.version != "" && m.version !in s.publications && m.artifactUri != "" && timeout > 0
    requires m.format == Full || (m.format == Delta && m.parent in s.publications && m.parent != ""
                                  && s.publications[m.parent].phase == Published)
    requires forall id :: id in required ==> id in s.engines
    ensures PublishRefusal(s, m, required, timeout, Some(SAMPLE_BYTES)) == None
  {
    assert m.checksums != map[] by { assert ArtifactSum in m.checksums; }
  }

  lemma SamplePublished(pubs: map<Version, Publication>, m: Manifest, timeout: int)
    requires m == SampleManifest(m.version, m.parent, m.format, m.artifactUri, m.optimizerStep)
    requires m.version != "" && m.version !in pubs && m.artifactUri != "" && timeout > 0
    requires m.format == Full
             || (m.format == Delta && m.parent in pubs && m.parent != "" && pubs[m.parent].phase == Published)
    requires Reachable(SAMPLE_RUN, SampleRun(pubs))
    ensures Reachable(SAMPLE_RUN, SampleRun(pubs[m.version := Sample(m, timeout)]))
  {
    var s := SampleRun(pubs);
    var none: seq<EngineId> := [];
    SampleIsEntered(s, m, none, timeout);
    var s' := AfterPublish(s, m, none, timeout, 0, Some(SAMPLE_BYTES));
    assert (set id | id in none) == {};
    assert s'.engines == s.engines;
    assert s' == SampleRun(pubs[m.version := Sample(m, timeout)]);
    ReachNext(SAMPLE_RUN, s, Publish(m, none, timeout, 0, Some(SAMPLE_BYTES)), s');
  }

  lemma SampleExpired(pubs: map<Version, Publication>, pubs': map<Version, Publication>)
    requires pubs'.Keys == pubs.Keys
    requires forall v :: v in pubs ==> pubs'[v] == if IsExpiring(pubs[v], 1) then pubs[v].(phase := Failed) else pubs[v]
    requires Reachable(SAMPLE_RUN, SampleRun(pubs))
    ensures Reachable(SAMPLE_RUN, SampleRun(pubs'))
  {
    var s' := AfterExpire(SampleRun(pubs), 1);
    assert s'.publications == pubs' && s'.engines == map[];
    ReachNext(SAMPLE_RUN, SampleRun(pubs), Expire(1), SampleRun(pubs'));
  }

  lemma CollectWithoutRoots(s: RunState)
    requires s.active == "" && s.lastGood == "" && s.engines == map[]
    ensures IsCollection(s, 0, {}, s.(publications := s.publications - Collectable(s, {})))
  {
    assert Roots(s) + {} == {""};
    forall v ensures !ReachedFrom(s.publications, Roots(s) + {}, v) {
      assert !Reaches(s.publications, "", v);
    }
    assert IsNewest(s.publications, 0, {}) && IsKeepSet(s, {}, {});
  }

  lemma SampleCollected(pubs: map<Version, Publication>, pubs': map<Version, Publication>)
    requires pubs' == map v | v in pubs && InFlight(pubs[v].phase) :: pubs[v]
    requires Reachable(SAMPLE_RUN, SampleRun(pubs))
    ensures Reachable(SAMPLE_RUN, SampleRun(pubs'))
  {
    var s := SampleRun(pubs);
    var s' := s.(publications := s.publications - Collectable(s, {}));
    assert s'.publications == pubs';
    CollectWithoutRoots(s);
    CollectionIsNext(s, 0, {}, s');
    ReachNext(SAMPLE_RUN, s, Collect(0), s');
  }

  lemma NothingIsReachable()
    ensures Reachable(SAMPLE_RUN, SampleRun(map[]))
  {
    assert IsRun(SAMPLE_RUN, [SampleRun(map[])], []);
  }

  function TimedOut(m: Manifest): Publication {
    Sample(m, 1).(phase := Failed)
  }

  /** Two publications, of which the first has timed out. */
  lemma TimedOutPair(first: Manifest, second: Manifest)
    requires first == SampleManifest(first.version, "", Full, first.artifactUri, 0) && first.artifactUri != ""
    requires second == SampleManifest(second.version, second.parent, second.format, second.artifactUri,
               second.optimizerStep)
    requires second.format == Full || (second.format == Delta && second.parent == first.version)
    requires first.version != "" && second.version != "" && first.version != second.version && second.artifactUri != ""
    ensures Reachable(SAMPLE_RUN, SampleRun(map[first.version := TimedOut(first), second.version := Sample(second, 9)]))
  {
    var a, b := Sample(first, 1), Sample(second, 9);
    NothingIsReachable();
    SamplePublished(map[], first, 1);
    SamplePublished(map[first.version := a], second, 9);
    SampleExpired(map[first.version := a][second.version := b],
      map[first.version := TimedOut(first), second.version := b]);
  }

  /** A parent that timed out is collected under a delta still in flight, and is then
      published again as a delta over that delta: any two versions can end up so. */
  lemma CyclesAreReachable(x: Version, y: Version, store: Store) returns (s: RunState)
    requires x != "" && y != "" && x != y
    ensures Reachable(SAMPLE_RUN, s) && Cyclic(s.publications, store, {x, y})
  {
    var base, delta, again :=
      SampleManifest(x, "", Full, x, 0), SampleManifest(y, x, Delta, y, 0), SampleManifest(x, y, Delta, x, 0);
    var child := Sample(delta, 9);
    TimedOutPair(base, delta);
    SampleCollected(map[x := TimedOut(base), y := child], map[y := child]);
    SamplePublished(map[y := child], again, 9);
    s := SampleRun(map[y := child][x := Sample(again, 9)]);
  }

  // ----- Shared artifacts are lost -----

  lemma LoneVersionReaches(pubs: map<Version, Publication>, v: Version, w: Version)
    requires v in pubs && v != "" && pubs[v].manifest.parent == ""
    ensures ReachedFrom(pubs, {"", v}, w) <==> w == v
  {
    ReachesSelf(pubs, v);
    if ReachedFrom(pubs, {"", v}, w) {
      var root :| root in {"", v} && Reaches(pubs, root, w);
      if root == v {
        ClosedHoldsReached(pubs, {v}, root, w);
      }
    }
  }

  lemma NewestIsKept(s: RunState, v: Version)
    requires s.active == "" && s.lastGood == "" && s.engines == map[] && v in s.publications && v != ""
    requires s.publications[v].manifest.parent == ""
    requires forall w :: w in s.publications ==>
               s.publications[w].manifest.optimizerStep <= s.publications[v].manifest.optimizerStep
    ensures IsCollection(s, 1, {v}, s.(publications := s.publications - Collectable(s, {v})))
  {
    assert Roots(s) + {v} == {"", v};
    forall w ensures w in {v} <==> ReachedFrom(s.publications, Roots(s) + {v}, w) {
      LoneVersionReaches(s.publications, v, w);
    }
    assert |{v}| == 1 && {v} <= s.publications.Keys;
    assert IsNewest(s.publications, 1, {v}) && IsKeepSet(s, {v}, {v});
  }

  /** Two versions published on one artifact: when the older has timed out, a collection that
      keeps the newer deletes the artifact under it, and what could be materialised before
      cannot be any more. */
  lemma LossIsReachable(x: Version, y: Version, uri: Uri)
    returns (s: RunState, s': RunState, store: Store, store': Store)
    requires x != "" && y != "" && x != y && uri != ""
    ensures Reachable(SAMPLE_RUN, s) && IsCollection(s, 1, {y}, s')
    ensures SweptOnly(s, {y}, store, store') && SweptAll(s, {y}, store')
    ensures MaterializedBytes(s, store, y).Ok? && MaterializedBytes(s', store', y) == Err(ArtifactUnreadable)
  {
    var older, newer := SampleManifest(x, "", Full, uri, 0), SampleManifest(y, "", Full, uri, 1);
    TimedOutPair(older, newer);
    s := SampleRun(map[x := TimedOut(older), y := Sample(newer, 9)]);
    s' := s.(publications := s.publications - Collectable(s, {y}));
    store, store' := Store(map[uri := SAMPLE_BYTES], {}, {}, {}), Store(map[], {}, {}, {});
    PairIsLost(s, s', x, y, older, newer, store, store');
  }

  lemma PairIsLost(s: RunState, s': RunState, x: Version, y: Version, older: Manifest, newer: Manifest, store: Store,
                   store': Store)
    requires s == EmptyRun(SAMPLE_RUN).(publications := s.publications)
    requires x != y && y != "" && s.publications.Keys == {x, y}
    requires older == SampleManifest(x, "", Full, older.artifactUri, 0) && s.publications[x] == TimedOut(older)
    requires newer == SampleManifest(y, "", Full, older.artifactUri, 1) && s.publications[y] == Sample(newer, 9)
    requires s' == s.(publications := s.publications - Collectable(s, {y}))
    requires store == Store(map[older.artifactUri := SAMPLE_BYTES], {}, {}, {}) && store' == Store(map[], {}, {}, {})
    ensures IsCollection(s, 1, {y}, s') && SweptOnly(s, {y}, store, store') && SweptAll(s, {y}, store')
    ensures MaterializedBytes(s, store, y).Ok? && MaterializedBytes(s', store', y) == Err(ArtifactUnreadable)
  {
    NewestIsKept(s, y);
    PairIsSwept(s, x, y, older, store, store');
    SharedArtifactIsLost(s, 1, {y}, s', store', y, x);
    SampleMaterializes(s, store, y, newer);
  }

  lemma PairIsSwept(s: RunState, x: Version, y: Version, older: Manifest, store: Store, store': Store)
    requires x != y && s.publications.Keys == {x, y} && s.publications[x] == TimedOut(older)
    requires store == Store(map[older.artifactUri := SAMPLE_BYTES], {}, {}, {}) && store' == Store(map[], {}, {}, {})
    ensures Collectable(s, {y}) == {x} && SweptOnly(s, {y}, store, store') && SweptAll(s, {y}, store')
  {
    assert older.artifactUri in SweptUris(s.publications[x]);
    assert x in Collectable(s, {y});
  }

  lemma SampleMaterializes(s: RunState, store: Store, v: Version, m: Manifest)
    requires m == SampleManifest(v, "", Full, m.artifactUri, m.optimizerStep)
    requires v in s.publications && s.publications[v] == Sample(m, s.publications[v].deadline)
    requires store == Store(map[m.artifactUri := SAMPLE_BYTES], {}, {}, {})
    ensures MaterializedBytes(s, store, v).Ok?
  {
  }

  // ----- Activation does arise -----

  const SAMPLE_ENGINE: EngineId := "e"

  /** Registration, publication, materialisation and one acknowledgement activate any version. */
  lemma ActivationIsReachable(v: Version) returns (s: RunState)
    requires v != ""
    ensures Reachable(SAMPLE_RUN, s) && s.active == v
  {
    var m, store := SampleManifest(v, "", Full, "a", 0), Store(map["a" := SAMPLE_BYTES], {}, {}, {});
    var s0 := SampleRun(map[]);
    NothingIsReachable();
    var s1 := AfterRegister(s0, SAMPLE_ENGINE, "");
    ReachNext(SAMPLE_RUN, s0, RegisterEngine(SAMPLE_ENGINE, ""), s1);
    SampleIsEntered(s1, m, [SAMPLE_ENGINE], 9);
    var s2 := AfterPublish(s1, m, [SAMPLE_ENGINE], 9, 0, Some(SAMPLE_BYTES));
    assert (set id | id in [SAMPLE_ENGINE]) == {SAMPLE_ENGINE};
    assert s2.publications == map[v := NewPublication(m, {SAMPLE_ENGINE}, 9, SAMPLE_BYTES)];
    ReachNext(SAMPLE_RUN, s1, Publish(m, [SAMPLE_ENGINE], 9, 0, Some(SAMPLE_BYTES)), s2);
    s := ActivatedAfter(s2, store, v);
  }

  lemma ActivatedAfter(s2: RunState, store: Store, v: Version) returns (s: RunState)
    requires Reachable(SAMPLE_RUN, s2) && s2.active == "" && SAMPLE_ENGINE in s2.engines && v != ""
    requires s2.runId == SAMPLE_RUN && store == Store(map["a" := SAMPLE_BYTES], {}, {}, {})
    requires s2.publications ==
               map[v := NewPublication(SampleManifest(v, "", Full, "a", 0), {SAMPLE_ENGINE}, 9, SAMPLE_BYTES)]
    ensures Reachable(SAMPLE_RUN, s) && s.active == v
  {
    var s3 := AfterMaterialize(s2, store, v);
    assert |MaterializedUriOf(SAMPLE_RUN, v)| > 1;
    assert s3.publications[v].phase == Ready && s3.publications[v].resultSha == Sha256(SAMPLE_BYTES);
    ReachNext(SAMPLE_RUN, s2, Materialize(v, store), s3);
    s := AfterAck(s3, SAMPLE_ENGINE, v, Sha256(SAMPLE_BYTES), 0);
    assert s3.publications[v].acks[SAMPLE_ENGINE := 0].Keys == {SAMPLE_ENGINE};
    assert AckOutcome(s3, SAMPLE_ENGINE, v, Sha256(SAMPLE_BYTES), 0) == Ok(true);
    ReachNext(SAMPLE_RUN, s3, Acknowledge(SAMPLE_ENGINE, v, Sha256(SAMPLE_BYTES), 0), s);
  }
}
