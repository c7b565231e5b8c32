/** Which versions garbage collection keeps, and why the versions it keeps still
    materialise to the same bytes afterwards. */
module WeightRetention {
  import opened Basics
  import opened WeightModel
  import opened WeightMaterialize

  // ----- Reachability by parent links -----

  /** A path of parent links; only its last version may be missing from the state. */
  ghost predicate IsParentPath(pubs: map<Version, Publication>, path: seq<Version>) {
    && |path| > 0
    && (forall i :: 0 <= i < |path| ==> path[i] != "")
    && (forall i :: 0 <= i < |path| - 1 ==> path[i] in pubs && pubs[path[i]].manifest.parent == path[i + 1])
  }

  ghost predicate Reaches(pubs: map<Version, Publication>, root: Version, v: Version) {
    exists path :: IsParentPath(pubs, path) && path[0] == root && path[|path| - 1] == v
  }

  ghost predicate ReachedFrom(pubs: map<Version, Publication>, roots: set<Version>, v: Version) {
    exists root :: root in roots && Reaches(pubs, root, v)
  }

  lemma ReachesSelf(pubs: map<Version, Publication>, v: Version)
    requires v != ""
    ensures Reaches(pubs, v, v)
  {
    assert IsParentPath(pubs, [v]) && [v][0] == v;
  }

  lemma ReachesParent(pubs: map<Version, Publication>, root: Version, v: Version)
    requires Reaches(pubs, root, v) && v in pubs && pubs[v].manifest.parent != ""
    ensures Reaches(pubs, root, pubs[v].manifest.parent)
  {
    var path :| IsParentPath(pubs, path) && path[0] == root && path[|path| - 1] == v;
    var longer := path + [pubs[v].manifest.parent];
    assert IsParentPath(pubs, longer) && longer[0] == root && longer[|longer| - 1] == pubs[v].manifest.parent;
  }

  /** Every kept version that is stored has its parent kept, bar one parent still to come. */
  ghost predicate ClosedBut(pubs: map<Version, Publication>, keep: set<Version>, pending: Version) {
    forall v :: v in keep && v in pubs ==>
      var parent := pubs[v].manifest.parent;
      parent == "" || parent in keep || parent == pending
  }

  ghost predicate ParentClosed(pubs: map<Version, Publication>, keep: set<Version>) {
    ClosedBut(pubs, keep, "")
  }

  /** A set closed under parents holds everything its members reach. */
  lemma {:induction false} ClosedHoldsPath(pubs: map<Version, Publication>, keep: set<Version>,
                                           path: seq<Version>, i: nat)
    requires ParentClosed(pubs, keep) && IsParentPath(pubs, path) && path[0] in keep && i < |path|
    ensures path[i] in keep
  {
    if i > 0 {
      ClosedHoldsPath(pubs, keep, path, i - 1);
    }
  }

  lemma ClosedHoldsReached(pubs: map<Version, Publication>, keep: set<Version>, root: Version, v: Version)
    requires ParentClosed(pubs, keep) && root in keep && Reaches(pubs, root, v)
    ensures v in keep
  {
    var path :| IsParentPath(pubs, path) && path[0] == root && path[|path| - 1] == v;
    ClosedHoldsPath(pubs, keep, path, |path| - 1);
  }

  // ----- What a collection keeps and removes -----

  function EngineRoots(e: Engine): set<Version> {
    {e.desired, e.current, e.lastGood}
  }

  function Roots(s: RunState): set<Version> {
    {s.active, s.lastGood} + set id, v | id in s.engines && v in EngineRoots(s.engines[id]) :: v
  }

  /** A choice of the n publications with the highest optimizer steps. */
  ghost predicate IsNewest(pubs: map<Version, Publication>, n: int, newest: set<Version>) {
    && newest <= pubs.Keys
    && |newest| == (if n < 0 then 0 else if n < |pubs| then n else |pubs|)
    && forall v, w :: v in newest && w in pubs.Keys - newest ==>
         pubs[w].manifest.optimizerStep <= pubs[v].manifest.optimizerStep
  }

  /** keep is exactly what is reachable from the roots and the chosen newest versions. */
  ghost predicate IsKeepSet(s: RunState, newest: set<Version>, keep: set<Version>) {
    forall v :: v in keep <==> ReachedFrom(s.publications, Roots(s) + newest, v)
  }

  function Collectable(s: RunState, keep: set<Version>): set<Version> {
    set v | v in s.publications && v !in keep && !InFlight(s.publications[v].phase)
  }

  ghost predicate IsCollection(s: RunState, n: int, keep: set<Version>, s': RunState) {
    && (exists newest :: IsNewest(s.publications, n, newest) && IsKeepSet(s, newest, keep))
    && s' == s.(publications := s.publications - Collectable(s, keep))
  }

  lemma KeepSetIsClosed(s: RunState, newest: set<Version>, keep: set<Version>)
    requires IsKeepSet(s, newest, keep)
    ensures ParentClosed(s.publications, keep)
    ensures "" !in keep
    ensures forall v :: v in Roots(s) + newest && v != "" ==> v in keep
  {
    var pubs, roots := s.publications, Roots(s) + newest;
    forall v | v in keep && v in pubs && pubs[v].manifest.parent != "" ensures pubs[v].manifest.parent in keep {
      var root :| root in roots && Reaches(pubs, root, v);
      ReachesParent(pubs, root, v);
    }
    forall v | v in roots && v != "" ensures v in keep {
      ReachesSelf(pubs, v);
    }
  }

  /** Everything reachable from a root, or from one of the newest versions a collection
      chooses, survives it, with its whole chain of parents. */
  lemma CollectionKeepsReached(s: RunState, n: int, keep: set<Version>, s': RunState) returns (newest: set<Version>)
    requires IsCollection(s, n, keep, s')
    ensures IsNewest(s.publications, n, newest)
    ensures forall v :: ReachedFrom(s.publications, Roots(s) + newest, v) ==> v in keep
    ensures forall v :: v in s.publications && ReachedFrom(s.publications, Roots(s) + newest, v) ==>
              v in s'.publications && s'.publications[v] == s.publications[v]
  {
    newest :| IsNewest(s.publications, n, newest) && IsKeepSet(s, newest, keep);
  }

  // ----- Materialisation depends on the kept part only -----

  function UrisOf(runId: string, v: Version, p: Publication): set<Uri> {
    {p.manifest.artifactUri, MaterializedUriOf(runId, v)} + if p.materializedUri == "" then {} else {p.materializedUri}
  }

  predicate SameObject(a: Store, b: Store, uri: Uri) {
    && (uri in a.objects <==> uri in b.objects)
    && (uri in a.objects ==> a.objects[uri] == b.objects[uri])
  }

  predicate SameFaults(a: Store, b: Store) {
    a.unreadable == b.unreadable && a.unwritable == b.unwritable && a.undeletable == b.undeletable
  }

  /** Two states and stores that show the same thing to every version in keep. */
  ghost predicate Agree(runId: string, keep: set<Version>,
                        pubs: map<Version, Publication>, pubs': map<Version, Publication>,
                        store: Store, store': Store)
  {
    && SameFaults(store, store')
    && (forall v :: v in keep ==> (v in pubs <==> v in pubs'))
    && (forall v :: v in keep && v in pubs ==> pubs[v] == pubs'[v])
    && (forall v, uri :: v in keep && v in pubs && uri in UrisOf(runId, v, pubs[v]) ==> SameObject(store, store', uri))
  }

  lemma ConcludeAgrees(runId: string, keep: set<Version>,
                       pubs: map<Version, Publication>, pubs': map<Version, Publication>,
                       store: Store, store': Store, v: Version, result: Bytes)
    requires Agree(runId, keep, pubs, pubs', store, store') && v in keep && v in pubs
    ensures var r, r' := Conclude(runId, pubs, store, v, result), Conclude(runId, pubs', store', v, result);
            r.outcome == r'.outcome && Agree(runId, keep, r.pubs, r'.pubs, r.store, r'.store)
  {
    var uri := MaterializedUriOf(runId, v);
    assert uri in UrisOf(runId, v, pubs[v]);
    assert SameObject(store, store', uri);
    var r, r' := Conclude(runId, pubs, store, v, result), Conclude(runId, pubs', store', v, result);
    if r.outcome.Ok? {
      forall w, u | w in keep && w in r.pubs && u in UrisOf(runId, w, r.pubs[w])
        ensures SameObject(r.store, r'.store, u)
      {
        assert u == uri || u in UrisOf(runId, w, pubs[w]);
        assert u == uri || SameObject(store, store', u);
      }
    }
  }

  lemma {:induction false} MaterializeAgrees(runId: string, keep: set<Version>,
                                             pubs: map<Version, Publication>, pubs': map<Version, Publication>,
                                             store: Store, store': Store, v: Version, visiting: set<Version>)
    requires Agree(runId, keep, pubs, pubs', store, store')
    requires ParentClosed(pubs, keep) && v in keep
    requires DeltasHaveParents(pubs)
    ensures var r := MaterializeFrom(runId, pubs, store, v, visiting);
            var r' := MaterializeFrom(runId, pubs', store', v, visiting);
            r.outcome == r'.outcome && Agree(runId, keep, r.pubs, r'.pubs, r.store, r'.store)
    decreases pubs.Keys - visiting
  {
    if v !in visiting && v in pubs {
      var p := pubs[v];
      assert p.manifest.artifactUri in UrisOf(runId, v, p);
      assert p.materializedUri != "" ==> p.materializedUri in UrisOf(runId, v, p);
      assert SameObject(store, store', p.manifest.artifactUri);
      assert p.materializedUri != "" ==> SameObject(store, store', p.materializedUri);
      assert CachedResult(p, store) == CachedResult(p, store');
      var artifact := FetchArtifact(p, store);
      assert artifact == FetchArtifact(p, store');
      if CachedResult(p, store).None? && artifact.Ok? {
        if p.manifest.format != Delta {
          ConcludeAgrees(runId, keep, pubs, pubs', store, store', v, artifact.value);
        } else {
          MaterializeAgrees(runId, keep, pubs, pubs', store, store', p.manifest.parent, visiting + {v});
          var parent := MaterializeFrom(runId, pubs, store, p.manifest.parent, visiting + {v});
          var parent' := MaterializeFrom(runId, pubs', store', p.manifest.parent, visiting + {v});
          if parent.outcome.Ok? {
            var result := XorDelta(parent.outcome.value, artifact.value);
            if result.Ok? {
              ConcludeAgrees(runId, keep, parent.pubs, parent'.pubs, parent.store, parent'.store, v, result.value);
            }
          }
        }
      }
    }
  }

  // ----- Collection leaves every kept version's bytes alone -----

  /** No two publications of the run share an artifact URI, and none keeps its
      artifact where another's result is cached. */
  ghost predicate SeparateUris(s: RunState) {
    forall v, w :: v in s.publications && w in s.publications && v != w ==>
      && s.publications[v].manifest.artifactUri != s.publications[w].manifest.artifactUri
      && s.publications[v].manifest.artifactUri != MaterializedUriOf(s.runId, w)
  }

  /** Cached results live where materialisation puts them. */
  ghost predicate CachedInPlace(s: RunState) {
    forall v :: v in s.publications ==>
      s.publications[v].materializedUri == "" || s.publications[v].materializedUri == MaterializedUriOf(s.runId, v)
  }

  /** store' is store after deleting some of the objects of collectable versions:
      all of them after a completed collection, fewer after one that failed. */
  ghost predicate SweptOnly(s: RunState, keep: set<Version>, store: Store, store': Store) {
    && SameFaults(store, store')
    && store'.objects.Keys <= store.objects.Keys
    && (forall uri :: uri in store'.objects ==> store'.objects[uri] == store.objects[uri])
    && (forall uri :: uri in store.objects && uri !in store'.objects ==>
          exists v :: v in Collectable(s, keep) && uri in SweptUris(s.publications[v]))
  }

  function SweptUris(p: Publication): set<Uri> {
    if p.materializedUri == "" then {p.manifest.artifactUri} else {p.manifest.artifactUri, p.materializedUri}
  }

  lemma MaterializedUriInjective(runId: string, v: Version, w: Version)
    requires MaterializedUriOf(runId, v) == MaterializedUriOf(runId, w)
    ensures v == w
  {
    var prefix := WEIGHTS_DIR + runId + RESULTS_DIR;
    var a, b := MaterializedUriOf(runId, v), MaterializedUriOf(runId, w);
    assert a == prefix + v + RESULT_SUFFIX && b == prefix + w + RESULT_SUFFIX;
    assert |v| == |w|;
    assert v == a[|prefix|..|prefix| + |v|] && w == b[|prefix|..|prefix| + |w|];
  }

  lemma SweptUrisAreNotKept(s: RunState, keep: set<Version>, v: Version, w: Version)
    requires SeparateUris(s) && CachedInPlace(s)
    requires v in s.publications && v in keep && w in Collectable(s, keep)
    ensures UrisOf(s.runId, v, s.publications[v]) !! SweptUris(s.publications[w])
  {
    if MaterializedUriOf(s.runId, v) == MaterializedUriOf(s.runId, w) {
      MaterializedUriInjective(s.runId, v, w);
    }
  }

  lemma SweepLeavesKeptObjects(s: RunState, keep: set<Version>, store: Store, store': Store, v: Version, uri: Uri)
    requires SeparateUris(s) && CachedInPlace(s) && SweptOnly(s, keep, store, store')
    requires v in s.publications && v in keep && uri in UrisOf(s.runId, v, s.publications[v])
    ensures SameObject(store, store', uri)
  {
    if uri in store.objects && uri !in store'.objects {
      var w :| w in Collectable(s, keep) && uri in SweptUris(s.publications[w]);
      SweptUrisAreNotKept(s, keep, v, w);
    }
  }

  ghost predicate DeltasHaveParents(pubs: map<Version, Publication>) {
    forall v :: v in pubs && pubs[v].manifest.format == Delta ==> pubs[v].manifest.parent != ""
  }

  /** The collector's main promise: every version in keep materialises to the same
      bytes or the same error after a collection, after one whose result was not
      saved, and after one that stopped at a failed delete. */
  lemma CollectionPreservesBytes(s: RunState, n: int, keep: set<Version>, s': RunState,
                                 store: Store, store': Store, v: Version)
    requires IsCollection(s, n, keep, s') && SweptOnly(s, keep, store, store')
    requires SeparateUris(s) && CachedInPlace(s) && DeltasHaveParents(s.publications)
    requires v in keep
    ensures MaterializedBytes(s', store', v) == MaterializedBytes(s, store, v)
    ensures MaterializedBytes(s, store', v) == MaterializedBytes(s, store, v)
  {
    assert ParentClosed(s.publications, keep) by {
      var newest :| IsNewest(s.publications, n, newest) && IsKeepSet(s, newest, keep);
      KeepSetIsClosed(s, newest, keep);
    }
    forall k, uri | k in keep && k in s.publications && uri in UrisOf(s.runId, k, s.publications[k])
      ensures SameObject(store, store', uri)
    {
      SweepLeavesKeptObjects(s, keep, store, store', k, uri);
    }
    MaterializeAgrees(s.runId, keep, s.publications, s'.publications, store, store', v, {});
    MaterializeAgrees(s.runId, keep, s.publications, s.publications, store, store', v, {});
  }

  /** store' has lost every object of every collectable version. */
  ghost predicate SweptAll(s: RunState, keep: set<Version>, store': Store) {
    ObjectsGone(s, Collectable(s, keep), store')
  }

  ghost predicate ObjectsGone(s: RunState, versions: set<Version>, store: Store)
    requires versions <= s.publications.Keys
  {
    forall v :: v in versions ==> SweptUris(s.publications[v]) !! store.objects.Keys
  }

  /** Separate URIs are needed: a kept version that keeps its artifact where a collected
      version kept its own can be materialised after a completed collection if and only if
      its cached result can still be read. */
  lemma SharedArtifactIsLost(s: RunState, n: int, keep: set<Version>, s': RunState, store': Store,
                             v: Version, collected: Version)
    requires IsCollection(s, n, keep, s') && SweptAll(s, keep, store')
    requires v in keep && v in s.publications
    requires collected in Collectable(s, keep)
    requires s.publications[v].manifest.artifactUri == s.publications[collected].manifest.artifactUri
    ensures MaterializedBytes(s', store', v).Ok? <==> CachedResult(s.publications[v], store').Some?
    ensures MaterializedBytes(s', store', v).Err? ==> MaterializedBytes(s', store', v) == Err(ArtifactUnreadable)
  {
    assert s.publications[collected].manifest.artifactUri in SweptUris(s.publications[collected]);
    assert s'.publications[v] == s.publications[v];
  }

  /** Runs share the store: a collection in one run leaves every version of another alone
      when none of the swept objects is one of the other run's. */
  lemma CollectionSparesOtherRuns(s: RunState, keep: set<Version>, other: RunState, store: Store, store': Store,
                                  v: Version)
    requires SweptOnly(s, keep, store, store') && DeltasHaveParents(other.publications)
    requires forall w, u :: w in other.publications && u in Collectable(s, keep) ==>
               UrisOf(other.runId, w, other.publications[w]) !! SweptUris(s.publications[u])
    ensures MaterializedBytes(other, store', v) == MaterializedBytes(other, store, v)
  {
    var pubs := other.publications;
    var all := pubs.Keys + {v} + set w | w in pubs :: pubs[w].manifest.parent;
    forall w, uri | w in all && w in pubs && uri in UrisOf(other.runId, w, pubs[w])
      ensures SameObject(store, store', uri)
    {
      forall u | u in Collectable(s, keep) ensures uri !in SweptUris(s.publications[u]) {
        assert UrisOf(other.runId, w, pubs[w]) !! SweptUris(s.publications[u]);
      }
    }
    MaterializeAgrees(other.runId, all, pubs, pubs, store, store', v, {});
  }
}
