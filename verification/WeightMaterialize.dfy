/** Materialisation: a version's bytes are its artifact, or its artifact XORed
    over its parent's bytes, with a cache of materialised results in the store.
    The parent links may form a cycle. */
module WeightMaterialize {
  import opened Basics
  import opened WeightModel

  // ----- XOR deltas -----

  function XorDelta(parent: Bytes, delta: Bytes): Result<Bytes> {
    if |parent| != |delta| then Err(SizesDiffer)
    else Ok(seq(|parent|, i requires 0 <= i < |parent| => parent[i] ^ delta[i]))
  }

  // ----- The recursive procedure, threading the state it changes -----

  datatype Materialized = Materialized(
    pubs: map<Version, Publication>, store: Store, outcome: Result<Bytes>)

  /** A cached result that can be read and still has the recorded digest. */
  function CachedResult(p: Publication, store: Store): Option<Bytes> {
    if p.materializedUri == "" then None
    else
      var payload := Fetch(store, p.materializedUri);
      if payload.Some? && Sha256(payload.value) == p.resultSha then payload else None
  }

  function FetchArtifact(p: Publication, store: Store): Result<Bytes> {
    var artifact := Fetch(store, p.manifest.artifactUri);
    if artifact.None? then Err(ArtifactUnreadable)
    else if Sha256(artifact.value) != p.artifactSha then Err(ChecksumMismatch)
    else Ok(artifact.value)
  }

  /** Checks, caches and records a computed result. */
  function Conclude(runId: string, pubs: map<Version, Publication>, store: Store,
                    v: Version, result: Bytes): (r: Materialized)
    requires v in pubs
  {
    var p := pubs[v];
    var expected := ExpectedDigest(p);
    if Sha256(result) != expected then Materialized(pubs, store, Err(ChecksumMismatch))
    else
      var uri := MaterializedUriOf(runId, v);
      var put := PutImmutable(store, uri, result, expected);
      if put.Err? then Materialized(pubs, store, Err(put.error))
      else Materialized(
        pubs[v := p.(materializedUri := uri, resultSha := expected, phase := Ready)],
        put.value, Ok(result))
  }

  /** Only what materialisation records may differ: the cache entry and the phase. */
  ghost predicate SameButCache(p: Publication, q: Publication) {
    q == p.(materializedUri := q.materializedUri, resultSha := q.resultSha, phase := q.phase)
  }

  ghost predicate OnlyCacheDiffers(pubs: map<Version, Publication>, pubs': map<Version, Publication>) {
    && pubs'.Keys == pubs.Keys
    && forall v :: v in pubs ==> SameButCache(pubs[v], pubs'[v])
  }

  function MaterializeFrom(runId: string, pubs: map<Version, Publication>, store: Store,
                           v: Version, visiting: set<Version>): (r: Materialized)
    ensures r.pubs.Keys == pubs.Keys
    decreases pubs.Keys - visiting
  {
    if v in visiting then Materialized(pubs, store, Err(ParentCycle))
    else if v !in pubs then Materialized(pubs, store, Err(VersionNotFound))
    else
      var p := pubs[v];
      var cached := CachedResult(p, store);
      if cached.Some? then Materialized(pubs, store, Ok(cached.value))
      else
        var artifact := FetchArtifact(p, store);
        if artifact.Err? then Materialized(pubs, store, artifact)
        else if p.manifest.format != Delta then Conclude(runId, pubs, store, v, artifact.value)
        else
          var parent := MaterializeFrom(runId, pubs, store, p.manifest.parent, visiting + {v});
          if parent.outcome.Err? then parent
          else
            var result := XorDelta(parent.outcome.value, artifact.value);
            if result.Err? then parent.(outcome := result)
            else Conclude(runId, parent.pubs, parent.store, v, result.value)
  }

  /** Materialisation rewrites cache entries and phases only, and none of a version
      whose own materialisation is under way. */
  lemma {:induction false} MaterializeFrame(runId: string, pubs: map<Version, Publication>, store: Store,
                                            v: Version, visiting: set<Version>)
    ensures OnlyCacheDiffers(pubs, MaterializeFrom(runId, pubs, store, v, visiting).pubs)
    ensures forall w :: w in visiting && w in pubs ==>
              MaterializeFrom(runId, pubs, store, v, visiting).pubs[w] == pubs[w]
    decreases pubs.Keys - visiting
  {
    if v !in visiting && v in pubs && pubs[v].manifest.format == Delta {
      MaterializeFrame(runId, pubs, store, pubs[v].manifest.parent, visiting + {v});
    }
  }

  /** The whole operation: a failure marks the version failed. */
  function AfterMaterialize(s: RunState, store: Store, v: Version): RunState {
    var r := MaterializeFrom(s.runId, s.publications, store, v, {});
    s.(publications :=
         if r.outcome.Err? && v in r.pubs then r.pubs[v := r.pubs[v].(phase := Failed)] else r.pubs)
  }

  function MaterializedBytes(s: RunState, store: Store, v: Version): Result<Bytes> {
    MaterializeFrom(s.runId, s.publications, store, v, {}).outcome
  }

  // ----- Cached and recomputed results agree -----

  /** The digest the manifest names for the result; without one, the artifact's. */
  function PromisedDigest(p: Publication): Digest {
    if ResultSum in p.manifest.checksums && p.manifest.checksums[ResultSum] != NoDigest
    then p.manifest.checksums[ResultSum] else p.artifactSha
  }

  /** A recorded cache entry carries the digest the manifest asks for. */
  ghost predicate CacheConsistent(pubs: map<Version, Publication>) {
    forall v :: v in pubs && pubs[v].materializedUri != "" ==> pubs[v].resultSha == ExpectedDigest(pubs[v])
  }

  lemma SuccessHasExpectedDigest(runId: string, pubs: map<Version, Publication>, store: Store,
                                 v: Version, visiting: set<Version>)
    requires CacheConsistent(pubs)
    requires MaterializeFrom(runId, pubs, store, v, visiting).outcome.Ok?
    ensures v in pubs
    ensures ExpectedDigest(pubs[v]) == Sha256(MaterializeFrom(runId, pubs, store, v, visiting).outcome.value)
    ensures PromisedDigest(pubs[v]) == Sha256(MaterializeFrom(runId, pubs, store, v, visiting).outcome.value)
  {
    var p := pubs[v];
    if CachedResult(p, store).None? && p.manifest.format == Delta {
      MaterializeFrame(runId, pubs, store, p.manifest.parent, visiting + {v});
    }
  }

  /** Two successful materialisations of a version agree, whatever is cached in
      either, whatever either store holds and whichever calls fail. */
  lemma CacheIsTransparent(s: RunState, t: RunState, store: Store, store': Store, v: Version)
    requires OnlyCacheDiffers(s.publications, t.publications)
    requires CacheConsistent(s.publications) && CacheConsistent(t.publications)
    requires MaterializedBytes(s, store, v).Ok? && MaterializedBytes(t, store', v).Ok?
    ensures MaterializedBytes(s, store, v) == MaterializedBytes(t, store', v)
  {
    SuccessHasExpectedDigest(s.runId, s.publications, store, v, {});
    SuccessHasExpectedDigest(t.runId, t.publications, store', v, {});
  }

  // ----- Recomputation is the XOR of the chain -----

  /** The versions from v down to a full artifact, newest first. */
  function ChainFrom(pubs: map<Version, Publication>, v: Version, seen: set<Version>): (r: Option<seq<Version>>)
    ensures r.Some? ==> |r.value| > 0 && r.value[0] == v
    ensures r.Some? ==> forall i :: 0 <= i < |r.value| ==> r.value[i] in pubs && r.value[i] !in seen
    decreases pubs.Keys - seen
  {
    if v in seen || v !in pubs then None
    else if pubs[v].manifest.format != Delta then Some([v])
    else
      var rest := ChainFrom(pubs, pubs[v].manifest.parent, seen + {v});
      if rest.None? then None else Some([v] + rest.value)
  }

  /** Column i of a stack of equally long payloads, XORed in the order given. */
  function XorColumn(payloads: seq<Bytes>, i: nat): bv8
    requires forall k :: 0 <= k < |payloads| ==> i < |payloads[k]|
  {
    if payloads == [] then 0
    else XorColumn(payloads[..|payloads| - 1], i) ^ payloads[|payloads| - 1][i]
  }

  ghost predicate IsXorOf(result: Bytes, payloads: seq<Bytes>) {
    && (forall k :: 0 <= k < |payloads| ==> |payloads[k]| == |result|)
    && (forall i :: 0 <= i < |result| ==> result[i] == XorColumn(payloads, i))
  }

  /** The stored artifacts of a chain of versions. */
  ghost predicate ArtifactsOf(pubs: map<Version, Publication>, store: Store,
                              chain: seq<Version>, payloads: seq<Bytes>)
  {
    && |payloads| == |chain|
    && forall k :: 0 <= k < |chain| ==> chain[k] in pubs && FetchArtifact(pubs[chain[k]], store) == Ok(payloads[k])
  }

  lemma {:induction false} XorColumnPrepend(first: Bytes, rest: seq<Bytes>, i: nat)
    requires i < |first|
    requires forall k :: 0 <= k < |rest| ==> i < |rest[k]|
    ensures XorColumn([first] + rest, i) == first[i] ^ XorColumn(rest, i)
  {
    var all := [first] + rest;
    if rest == [] {
      assert all[..0] == [];
      assert XorColumn(all, i) == XorColumn(all[..0], i) ^ first[i];
    } else {
      var last := |rest| - 1;
      assert all[..|all| - 1] == [first] + rest[..last];
      XorColumnPrepend(first, rest[..last], i);
    }
  }

  lemma XorOfOne(artifact: Bytes)
    ensures IsXorOf(artifact, [artifact])
  {
    forall i | 0 <= i < |artifact| ensures artifact[i] == XorColumn([artifact], i) {
      XorColumnPrepend(artifact, [], i);
      assert [artifact] == [artifact] + [];
    }
  }

  lemma XorOfMore(delta: Bytes, payloads: seq<Bytes>, parent: Bytes)
    requires IsXorOf(parent, payloads) && |parent| == |delta|
    ensures IsXorOf(XorDelta(parent, delta).value, [delta] + payloads)
  {
    var result := XorDelta(parent, delta).value;
    forall i | 0 <= i < |result| ensures result[i] == XorColumn([delta] + payloads, i) {
      XorColumnPrepend(delta, payloads, i);
    }
  }

  lemma ArtifactsOfMore(pubs: map<Version, Publication>, store: Store, v: Version, seen: set<Version>, rest: seq<Bytes>)
    requires v in pubs && v !in seen && pubs[v].manifest.format == Delta && FetchArtifact(pubs[v], store).Ok?
    requires ChainFrom(pubs, pubs[v].manifest.parent, seen + {v}).Some?
    requires ArtifactsOf(pubs, store, ChainFrom(pubs, pubs[v].manifest.parent, seen + {v}).value, rest)
    ensures ChainFrom(pubs, v, seen).Some?
    ensures ArtifactsOf(pubs, store, ChainFrom(pubs, v, seen).value, [FetchArtifact(pubs[v], store).value] + rest)
  {
  }

  ghost predicate Uncached(pubs: map<Version, Publication>) {
    forall v :: v in pubs ==> pubs[v].materializedUri == ""
  }

  lemma UncachedSuccess(runId: string, pubs: map<Version, Publication>, store: Store, v: Version,
                        visiting: set<Version>)
    requires Uncached(pubs) && MaterializeFrom(runId, pubs, store, v, visiting).outcome.Ok?
    ensures v !in visiting && v in pubs && FetchArtifact(pubs[v], store).Ok?
    ensures var bytes, artifact := MaterializeFrom(runId, pubs, store, v, visiting).outcome.value,
              FetchArtifact(pubs[v], store).value;
            if pubs[v].manifest.format != Delta then bytes == artifact
            else
              var parent := MaterializeFrom(runId, pubs, store, pubs[v].manifest.parent, visiting + {v}).outcome;
              parent.Ok? && XorDelta(parent.value, artifact) == Ok(bytes)
  {
  }

  /** With nothing cached, a success is the XOR of every artifact on the chain. */
  lemma {:induction false} RecomputedIsChainXor(runId: string, pubs: map<Version, Publication>, store: Store,
                                                v: Version, visiting: set<Version>)
    returns (payloads: seq<Bytes>)
    requires Uncached(pubs)
    requires MaterializeFrom(runId, pubs, store, v, visiting).outcome.Ok?
    ensures ChainFrom(pubs, v, visiting).Some?
    ensures ArtifactsOf(pubs, store, ChainFrom(pubs, v, visiting).value, payloads)
    ensures IsXorOf(MaterializeFrom(runId, pubs, store, v, visiting).outcome.value, payloads)
    decreases pubs.Keys - visiting
  {
    UncachedSuccess(runId, pubs, store, v, visiting);
    var p, artifact := pubs[v], FetchArtifact(pubs[v], store).value;
    if p.manifest.format != Delta {
      payloads := [artifact];
      XorOfOne(artifact);
    } else {
      var rest := RecomputedIsChainXor(runId, pubs, store, p.manifest.parent, visiting + {v});
      payloads := [artifact] + rest;
      ArtifactsOfMore(pubs, store, v, visiting, rest);
      XorOfMore(artifact, rest, MaterializeFrom(runId, pubs, store, p.manifest.parent, visiting + {v}).outcome.value);
    }
  }

  /** Materialising through any set of cached ancestors gives the XOR of the whole
      chain's artifacts, whenever recomputing that chain with no cache succeeds. */
  lemma MaterializedIsChainXor(s: RunState, store: Store, bare: RunState, bareStore: Store, v: Version)
    requires OnlyCacheDiffers(s.publications, bare.publications)
    requires CacheConsistent(s.publications) && Uncached(bare.publications)
    requires MaterializedBytes(s, store, v).Ok? && MaterializedBytes(bare, bareStore, v).Ok?
    ensures ChainFrom(s.publications, v, {}).Some?
    ensures exists payloads ::
      && ArtifactsOf(s.publications, bareStore, ChainFrom(s.publications, v, {}).value, payloads)
      && IsXorOf(MaterializedBytes(s, store, v).value, payloads)
  {
    CacheIsTransparent(s, bare, store, bareStore, v);
    var payloads := RecomputedIsChainXor(bare.runId, bare.publications, bareStore, v, {});
    ChainIgnoresCache(s.publications, bare.publications, v, {});
    assert ArtifactsOf(s.publications, bareStore, ChainFrom(s.publications, v, {}).value, payloads);
  }

  lemma {:induction false} ChainIgnoresCache(pubs: map<Version, Publication>, pubs': map<Version, Publication>,
                                             v: Version, seen: set<Version>)
    requires OnlyCacheDiffers(pubs, pubs')
    ensures ChainFrom(pubs, v, seen) == ChainFrom(pubs', v, seen)
    decreases pubs.Keys - seen
  {
    if v !in seen && v in pubs {
      assert SameButCache(pubs[v], pubs'[v]);
      if pubs[v].manifest.format == Delta {
        ChainIgnoresCache(pubs, pubs', pubs[v].manifest.parent, seen + {v});
      }
    }
  }

  // ----- Cycles -----

  /** Versions that are deltas over one another and have no usable cache entry:
      following parents from any of them never ends. */
  ghost predicate Cyclic(pubs: map<Version, Publication>, store: Store, cycle: set<Version>) {
    forall v :: v in cycle ==>
      && v in pubs && pubs[v].manifest.format == Delta && pubs[v].manifest.parent in cycle
      && CachedResult(pubs[v], store).None?
  }

  ghost predicate ReadableArtifacts(pubs: map<Version, Publication>, store: Store, versions: set<Version>) {
    forall w :: w in versions && w in pubs ==> FetchArtifact(pubs[w], store).Ok?
  }

  lemma DeltaInheritsRefusal(runId: string, pubs: map<Version, Publication>, store: Store, v: Version,
                             visiting: set<Version>)
    requires v !in visiting && v in pubs && pubs[v].manifest.format == Delta && CachedResult(pubs[v], store).None?
    requires MaterializeFrom(runId, pubs, store, pubs[v].manifest.parent, visiting + {v}).outcome.Err?
    ensures MaterializeFrom(runId, pubs, store, v, visiting).outcome ==
            if FetchArtifact(pubs[v], store).Err? then FetchArtifact(pubs[v], store)
            else MaterializeFrom(runId, pubs, store, pubs[v].manifest.parent, visiting + {v}).outcome
  {
  }

  /** A version whose chain runs into a cycle is refused, never answered; and when the
      artifacts on the cycle can all be read, the refusal names the cycle. */
  lemma {:induction false} CycleIsRefused(runId: string, pubs: map<Version, Publication>, store: Store,
                                          cycle: set<Version>, v: Version, visiting: set<Version>)
    requires Cyclic(pubs, store, cycle) && v in cycle
    ensures MaterializeFrom(runId, pubs, store, v, visiting).outcome.Err?
    ensures ReadableArtifacts(pubs, store, cycle) ==>
              MaterializeFrom(runId, pubs, store, v, visiting).outcome == Err(ParentCycle)
    decreases pubs.Keys - visiting
  {
    if v !in visiting {
      CycleIsRefused(runId, pubs, store, cycle, pubs[v].manifest.parent, visiting + {v});
      DeltaInheritsRefusal(runId, pubs, store, v, visiting);
    }
  }
}
