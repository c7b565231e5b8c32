/** The weight publication service: each call loads the state of a run, changes it
    and saves it.  The repository and the artifact store outlive the calls. */
module WeightService {
  import opened Basics
  import opened WeightModel
  import opened WeightMaterialize
  import opened WeightRetention
  import opened WeightOperations
  import P = WeightProtocol
  import StringOrder
  import WeightProgress
  import WeightSuccess

  class Service {
    var repository: map<string, RunState>
    var store: Store

    ghost predicate Valid()
      reads this
    {
      forall id :: id in repository ==> repository[id].runId == id && P.Inv(repository[id])
    }

    /** The state a call works on: a run never saved before is empty. */
    function Load(runId: string): RunState
      reads this
    {
      if runId in repository then repository[runId] else EmptyRun(runId)
    }

    constructor (store: Store)
      ensures Valid() && repository == map[] && this.store == store
    {
      this.store, repository := store, map[];
    }

    lemma LoadedIsOk(runId: string)
      requires Valid()
      ensures P.Inv(Load(runId)) && Load(runId).runId == runId
    {
    }

    /** Saving can fail, and then leaves the repository as it was. */
    method Save(runId: string, s': RunState, ghost e: P.Event, saves: bool)
      requires Valid() && P.Next(Load(runId), e, s')
      modifies this`repository
      ensures Valid()
      ensures repository == if saves then old(repository)[runId := s'] else old(repository)
      ensures P.Next(old(Load(runId)), e, Load(runId))
    {
      LoadedIsOk(runId);
      P.StepKeepsInv(Load(runId), e, s');
      P.StepKeepsRunId(Load(runId), e, s');
      if saves {
        repository := repository[runId := s'];
      }
    }

    /** What a call that works on one run promises about the repository. */
    ghost predicate Updated(before: map<string, RunState>, runId: string, s: RunState, saves: bool)
      reads this
    {
      repository == if saves then before[runId := s] else before
    }

    method RegisterEngine(runId: string, id: EngineId, current: Version, saves: bool) returns (r: Result<()>)
      requires Valid()
      modifies this`repository
      ensures Valid()
      ensures r.Ok? <==> runId != "" && id != "" && saves
      ensures Updated(old(repository), runId, AfterRegister(old(Load(runId)), id, current), r.Ok?)
      ensures P.Next(old(Load(runId)), P.RegisterEngine(id, current), Load(runId))
    {
      if runId == "" || id == "" {
        return Err(MissingIdentifier);
      }
      LoadedIsOk(runId);
      var s' := Register(Load(runId), id, current);
      Save(runId, s', P.RegisterEngine(id, current), saves);
      r := if saves then Ok(()) else Err(SaveFailed);
    }

    method Publish(m: Manifest, required: seq<EngineId>, timeout: int, now: Time, saves: bool) returns (r: Result<()>)
      requires Valid()
      modifies this`repository
      ensures Valid()
      ensures var s, artifact := old(Load(m.runId)), Fetch(store, m.artifactUri);
              var refusal := PublishRefusal(s, m, required, timeout, artifact);
              && (refusal.Some? ==> r == Err(refusal.value))
              && (r.Ok? <==> refusal.None? && (m.version in s.publications || saves))
              && Updated(old(repository), m.runId, AfterPublish(s, m, required, timeout, now, artifact),
                         refusal.None? && m.version !in s.publications && saves)
              && P.Next(s, P.Publish(m, required, timeout, now, artifact), Load(m.runId))
    {
      LoadedIsOk(m.runId);
      var s := Load(m.runId);
      var artifact := Fetch(store, m.artifactUri);
      var refusal, s' := Enter(s, m, required, timeout, now, artifact);
      if refusal.Some? {
        return Err(refusal.value);
      }
      if m.version in s.publications {
        return Ok(());
      }
      Save(m.runId, s', P.Publish(m, required, timeout, now, artifact), saves);
      r := if saves then Ok(()) else Err(SaveFailed);
    }

    // ----- Materialisation -----

    /** Recursion over a parent graph that may be cyclic: `visiting` holds the
        versions under way, and the stored versions outside it shrink. */
    method MaterializeLocked(s: RunState, v: Version, visiting: set<Version>) returns (s': RunState, r: Result<Bytes>)
      modifies this`store
      ensures Materialized(s'.publications, store, r) ==
                MaterializeFrom(s.runId, s.publications, old(store), v, visiting)
      ensures s' == s.(publications := s'.publications)
      decreases s.publications.Keys - visiting
    {
      s' := s;
      if v in visiting {
        return s', Err(ParentCycle);
      }
      if v !in s.publications {
        return s', Err(VersionNotFound);
      }
      var p := s.publications[v];
      if p.materializedUri != "" {
        var payload := Fetch(store, p.materializedUri);
        if payload.Some? && Sha256(payload.value) == p.resultSha {
          return s', Ok(payload.value);
        }
      }
      var artifact := Fetch(store, p.manifest.artifactUri);
      if artifact.None? {
        return s', Err(ArtifactUnreadable);
      }
      if Sha256(artifact.value) != p.artifactSha {
        return s', Err(ChecksumMismatch);
      }
      var result := artifact.value;
      if p.manifest.format == Delta {
        MaterializeFrame(s.runId, s.publications, store, p.manifest.parent, visiting + {v});
        var parent;
        s', parent := MaterializeLocked(s, p.manifest.parent, visiting + {v});
        if parent.Err? {
          return s', parent;
        }
        var applied := ApplyXorDelta(parent.value, artifact.value);
        if applied.Err? {
          return s', applied;
        }
        result := applied.value;
      }
      var expected := ChecksumNamed(p.manifest, ResultSum);
      if expected == NoDigest {
        expected := p.artifactSha;
      }
      if Sha256(result) != expected {
        return s', Err(ChecksumMismatch);
      }
      var uri := MaterializedUriOf(s.runId, v);
      var put := PutImmutable(store, uri, result, expected);
      if put.Err? {
        return s', Err(put.error);
      }
      store := put.value;
      s' := s'.(publications := s'.publications[v := p.(materializedUri := uri, resultSha := expected,
        phase := Ready)]);
      return s', Ok(result);
    }

    /** Answers with the place and digest of the materialised version. */
    /** Answers where the result is and its digest, exactly when the bytes can be built from what
        the state and the store hold and the outcome can be saved. */
    method Materialize(runId: string, v: Version, saves: bool) returns (r: Result<(Uri, Digest)>)
      requires Valid()
      modifies this
      ensures Valid()
      ensures Updated(old(repository), runId, AfterMaterialize(old(Load(runId)), old(store), v), saves)
      ensures P.Next(old(Load(runId)), P.Materialize(v, old(store)), Load(runId))
      ensures r.Ok? <==> saves && WeightSuccess.IsBuildable(old(Load(runId)), old(store), v)
      ensures r.Ok? ==>
                && r.value.0 == MaterializedUriOf(runId, v) && r.value.1.Sha256?
                && WeightSuccess.CanBuild(old(Load(runId)).runId, old(Load(runId)).publications, old(store), v,
                                          r.value.1.payload)
    {
      WeightSuccess.SucceedsExactly(Load(runId), store, v);
      r := MaterializeAndSave(runId, v, saves);
    }

    method MaterializeAndSave(runId: string, v: Version, saves: bool) returns (r: Result<(Uri, Digest)>)
      requires Valid()
      modifies this
      ensures Valid()
      ensures Updated(old(repository), runId, AfterMaterialize(old(Load(runId)), old(store), v), saves)
      ensures store == MaterializeFrom(runId, old(Load(runId)).publications, old(store), v, {}).store
      ensures P.Next(old(Load(runId)), P.Materialize(v, old(store)), Load(runId))
      ensures var bytes := MaterializedBytes(old(Load(runId)), old(store), v);
              && (r.Ok? <==> bytes.Ok? && saves)
              && (r.Ok? ==> r.value.1 == Sha256(bytes.value) && r.value.0 == MaterializedUriOf(runId, v))
    {
      LoadedIsOk(runId);
      var s := Load(runId);
      ghost var e := P.Materialize(v, store);
      var s', outcome := MaterializeLocked(s, v, {});
      if outcome.Err? {
        if v in s'.publications {
          s' := s'.(publications := s'.publications[v := s'.publications[v].(phase := Failed)]);
        }
        Save(runId, s', e, saves);
        return Err(outcome.error);
      }
      P.MaterializedIsInPlace(s, e.store, v);
      Save(runId, s', e, saves);
      if !saves {
        return Err(SaveFailed);
      }
      return Ok((s'.publications[v].materializedUri, s'.publications[v].resultSha));
    }

    // ----- Acknowledgement, promotion, rollback, expiry -----

    lemma RequiredAreRegistered(runId: string)
      requires Valid()
      ensures forall v :: v in Load(runId).publications ==>
                Load(runId).publications[v].required <= Load(runId).engines.Keys
    {
      LoadedIsOk(runId);
      forall v | v in Load(runId).publications ensures P.PublicationOk(Load(runId), v) {
      }
    }

    /** The refusals that leave nothing to save. */
    static predicate LeavesState(outcome: Result<bool>) {
      outcome == Err(VersionNotFound) || outcome == Err(NotRequired) || outcome == Err(NotReady)
    }

    method Acknowledge(runId: string, id: EngineId, v: Version, applied: Digest, now: Time, saves: bool)
      returns (r: Result<bool>)
      requires Valid()
      modifies this`repository
      ensures Valid()
      ensures var outcome := AckOutcome(old(Load(runId)), id, v, applied, now);
              && r == (if outcome.Ok? && !saves then Err(SaveFailed) else outcome)
              && Updated(old(repository), runId, AfterAck(old(Load(runId)), id, v, applied, now),
                         saves && !LeavesState(outcome))
      ensures P.Next(old(Load(runId)), P.Acknowledge(id, v, applied, now), Load(runId))
    {
      RequiredAreRegistered(runId);
      var outcome, s' := Receive(Load(runId), id, v, applied, now);
      if LeavesState(outcome) {
        return outcome;
      }
      Save(runId, s', P.Acknowledge(id, v, applied, now), saves);
      r := if outcome.Ok? && !saves then Err(SaveFailed) else outcome;
    }

    method MarkGood(runId: string, v: Version, saves: bool) returns (r: Result<()>)
      requires Valid()
      modifies this`repository
      ensures Valid()
      ensures r.Ok? <==> old(Load(runId)).active == v && saves
      ensures Updated(old(repository), runId, AfterMarkGood(old(Load(runId)), v), r.Ok?)
      ensures P.Next(old(Load(runId)), P.MarkGood(v), Load(runId))
    {
      LoadedIsOk(runId);
      var s := Load(runId);
      if s.active != v {
        return Err(NotActive);
      }
      var s' := Promote(s, v);
      Save(runId, s', P.MarkGood(v), saves);
      r := if saves then Ok(()) else Err(SaveFailed);
    }

    /** The version answered is stored and fully acknowledged. */
    method Rollback(runId: string, reason: string, saves: bool) returns (r: Result<Version>)
      requires Valid()
      modifies this`repository
      ensures Valid()
      ensures r.Ok? <==> old(Load(runId)).lastGood != "" && saves
      ensures r.Ok? ==> r.value == old(Load(runId)).lastGood && P.Quorate(Load(runId), r.value)
      ensures r.Ok? ==> Load(runId).active == r.value && forall id :: id in Load(runId).engines ==>
                Load(runId).engines[id].desired == r.value && Load(runId).engines[id].draining
      ensures Updated(old(repository), runId, AfterRollback(old(Load(runId)), reason), r.Ok?)
      ensures P.Next(old(Load(runId)), P.Rollback(reason), Load(runId))
    {
      LoadedIsOk(runId);
      var s := Load(runId);
      if s.lastGood == "" {
        return Err(NoLastGood);
      }
      var s' := ReturnToLastGood(s, reason);
      P.RollbackKeepsInv(s, reason);
      WeightProgress.RollbackRepoints(s, reason);
      Save(runId, s', P.Rollback(reason), saves);
      r := if saves then Ok(s.lastGood) else Err(SaveFailed);
    }

    /** The expired versions come back in increasing order, whether or not they could be saved. */
    method Expire(runId: string, now: Time, saves: bool) returns (expired: seq<Version>, ok: bool)
      requires Valid()
      modifies this`repository
      ensures Valid()
      ensures StringOrder.Increasing(expired) && ok == saves
      ensures forall v :: v in expired <==> v in ExpiredAmong(old(Load(runId)), old(Load(runId)).publications.Keys, now)
      ensures Updated(old(repository), runId, AfterExpire(old(Load(runId)), now), saves)
      ensures P.Next(old(Load(runId)), P.Expire(now), Load(runId))
    {
      LoadedIsOk(runId);
      RequiredAreRegistered(runId);
      var due, s' := ExpireDue(Load(runId), now);
      expired := StringOrder.Sort(due);
      Save(runId, s', P.Expire(now), saves);
      ok := saves;
    }

    // ----- Garbage collection -----

    /** Deletes one object; deleting an absent object succeeds. */
    method Delete(uri: Uri) returns (ok: bool)
      modifies this`store
      ensures ok == (uri !in old(store).undeletable)
      ensures store == if ok then old(store).(objects := old(store).objects - {uri}) else old(store)
    {
      ok := uri !in store.undeletable;
      if ok {
        store := store.(objects := store.objects - {uri});
      }
    }

    method DeleteObjects(p: Publication) returns (ok: bool)
      modifies this`store
      ensures SameFaults(old(store), store)
      ensures store.objects.Keys <= old(store).objects.Keys
      ensures forall uri :: uri in store.objects ==> store.objects[uri] == old(store).objects[uri]
      ensures forall uri :: uri in old(store).objects && uri !in store.objects ==> uri in SweptUris(p)
      ensures ok ==> SweptUris(p) !! store.objects.Keys
    {
      ok := true;
      if p.materializedUri != "" {
        ok := Delete(p.materializedUri);
        if !ok {
          return;
        }
      }
      ok := Delete(p.manifest.artifactUri);
    }

    lemma MinusOneMore(pubs: map<Version, Publication>, gone: set<Version>, v: Version)
      ensures pubs - gone - {v} == pubs - (gone + {v})
    {
    }

    lemma SweptMore(s: RunState, keep: set<Version>, a: Store, b: Store, c: Store, v: Version)
      requires SweptOnly(s, keep, a, b) && v in Collectable(s, keep) && SameFaults(b, c)
      requires c.objects.Keys <= b.objects.Keys && forall uri :: uri in c.objects ==> c.objects[uri] == b.objects[uri]
      requires forall uri :: uri in b.objects && uri !in c.objects ==> uri in SweptUris(s.publications[v])
      ensures SweptOnly(s, keep, a, c)
    {
      forall uri | uri in a.objects && uri !in c.objects
        ensures exists w :: w in Collectable(s, keep) && uri in SweptUris(s.publications[w])
      {
        if uri in b.objects {
          assert v in Collectable(s, keep) && uri in SweptUris(s.publications[v]);
        }
      }
    }

    method DeleteCollected(s: RunState, keep: set<Version>, v: Version, ghost origin: Store, ghost gone: set<Version>)
      returns (ok: bool)
      requires v in Collectable(s, keep) && gone <= s.publications.Keys
      requires SweptOnly(s, keep, origin, store) && ObjectsGone(s, gone, store)
      modifies this`store
      ensures SweptOnly(s, keep, origin, store)
      ensures ok ==> ObjectsGone(s, gone + {v}, store)
    {
      ghost var before := store;
      ok := DeleteObjects(s.publications[v]);
      SweptMore(s, keep, origin, before, store, v);
    }

    /** The manifests of the given versions, each version once. */
    ghost predicate ManifestsOf(s: RunState, versions: set<Version>, removed: seq<Manifest>, order: seq<Version>) {
      && |removed| == |order|
      && (forall v :: v in order <==> v in versions)
      && (forall i, j :: 0 <= i < j < |order| ==> order[i] != order[j])
      && (forall i :: 0 <= i < |order| ==>
           order[i] in s.publications && removed[i] == s.publications[order[i]].manifest)
    }

    lemma OneManifestMore(s: RunState, versions: set<Version>, removed: seq<Manifest>, order: seq<Version>, v: Version)
      requires ManifestsOf(s, versions, removed, order) && v !in versions && v in s.publications
      ensures ManifestsOf(s, versions + {v}, removed + [s.publications[v].manifest], order + [v])
    {
    }

    /** The removal loop: the order over the publications is open, and the first
        failed delete stops it. */
    method Sweep(s: RunState, keep: set<Version>)
      returns (removed: seq<Manifest>, pubs: map<Version, Publication>, ok: bool, ghost order: seq<Version>)
      modifies this`store
      ensures SweptOnly(s, keep, old(store), store)
      ensures ok ==> SweptAll(s, keep, store) && pubs == s.publications - Collectable(s, keep)
      ensures ok ==> ManifestsOf(s, Collectable(s, keep), removed, order)
    {
      removed, pubs, ok, order := [], s.publications, true, [];
      var todo := s.publications.Keys;
      ghost var gone: set<Version> := {};
      while todo != {}
        invariant todo <= s.publications.Keys
        invariant gone <= Collectable(s, keep) <= gone + todo && gone !! todo
        invariant SweptOnly(s, keep, old(store), store)
        invariant ObjectsGone(s, gone, store)
        invariant pubs == s.publications - gone
        invariant ManifestsOf(s, gone, removed, order)
        decreases |todo|
      {
        var v :| v in todo;
        todo := todo - {v};
        var p := s.publications[v];
        if v !in keep && !InFlight(p.phase) {
          ok := DeleteCollected(s, keep, v, old(store), gone);
          if !ok {
            return;
          }
          OneManifestMore(s, gone, removed, order, v);
          removed, order := removed + [p.manifest], order + [v];
          MinusOneMore(s.publications, gone, v);
          pubs := pubs - {v};
          gone := gone + {v};
        }
      }
      assert gone == Collectable(s, keep);
    }

    lemma RemovedAreGone(s: RunState, keep: set<Version>, store': Store)
      requires SweptAll(s, keep, store')
      ensures forall v :: v in s.publications && v !in s.publications - Collectable(s, keep) ==>
                var p := s.publications[v];
                && p.manifest.artifactUri !in store'.objects
                && (p.materializedUri != "" ==> p.materializedUri !in store'.objects)
    {
      forall v | v in Collectable(s, keep)
        ensures var p := s.publications[v];
                && p.manifest.artifactUri !in store'.objects
                && (p.materializedUri != "" ==> p.materializedUri !in store'.objects)
      {
        var p := s.publications[v];
        assert p.manifest.artifactUri in SweptUris(p);
        assert p.materializedUri != "" ==> p.materializedUri in SweptUris(p);
      }
    }

    /** Keeps what the roots and the newest versions reach, removes the rest that is
        not in flight, and saves.  A failed delete ends the call with nothing saved. */
    method GarbageCollect(runId: string, retainNewest: int, saves: bool)
      returns (r: Result<seq<Manifest>>, ghost keep: set<Version>, ghost s': RunState, ghost order: seq<Version>)
      requires Valid()
      modifies this
      ensures Valid()
      ensures IsCollection(old(Load(runId)), retainNewest, keep, s')
      ensures SweptOnly(old(Load(runId)), keep, old(store), store)
      ensures repository == old(repository) || repository == old(repository)[runId := s']
      ensures r.Err? ==> repository == old(repository)
      ensures r.Ok? ==> Load(runId) == s' && SweptAll(old(Load(runId)), keep, store)
      ensures r.Ok? ==> forall v :: v in old(Load(runId)).publications && v !in Load(runId).publications ==>
                var p := old(Load(runId)).publications[v];
                && p.manifest.artifactUri !in store.objects
                && (p.materializedUri != "" ==> p.materializedUri !in store.objects)
      ensures r.Ok? ==> ManifestsOf(old(Load(runId)), Collectable(old(Load(runId)), keep), r.value, order)
      ensures P.Next(old(Load(runId)), P.Collect(retainNewest), Load(runId))
    {
      var s := Load(runId);
      var kept := KeepSet(s, retainNewest);
      keep := kept;
      s' := s.(publications := s.publications - Collectable(s, keep));
      P.CollectionIsNext(s, retainNewest, keep, s');
      var removed, pubs, ok;
      removed, pubs, ok, order := Sweep(s, kept);
      if !ok {
        return Err(StoreFault), keep, s', order;
      }
      RemovedAreGone(s, keep, store);
      Save(runId, s.(publications := pubs), P.Collect(retainNewest), saves);
      r := if saves then Ok(removed) else Err(SaveFailed);
    }
  }
}
