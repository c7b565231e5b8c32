/** When a version can be materialised, and to what: in terms of the manifests, the recorded
    digests and the objects in the store, whatever is cached. */
module WeightSuccess {
  import opened Basics
  import opened WeightModel
  import opened WeightMaterialize
  import opened WeightRetention

  /** The cached result can be read and has the recorded digest. */
  predicate HasCached(p: Publication, store: Store) {
    && p.materializedUri != "" && p.materializedUri in store.objects && p.materializedUri !in store.unreadable
    && Sha256(store.objects[p.materializedUri]) == p.resultSha
  }

  /** The artifact can be read, is these bytes and has the recorded digest. */
  predicate HasArtifact(p: Publication, store: Store, bytes: Bytes) {
    var uri := p.manifest.artifactUri;
    uri in store.objects && uri !in store.unreadable && store.objects[uri] == bytes && Sha256(bytes) == p.artifactSha
  }

  /** The result has the promised digest, and its place can be written and is free or holds it already. */
  predicate CanConclude(runId: string, store: Store, v: Version, p: Publication, result: Bytes) {
    var place := MaterializedUriOf(runId, v);
    && Sha256(result) == PromisedDigest(p)
    && place !in store.unwritable && (place in store.objects ==> store.objects[place] == result)
  }

  /** A chain of parents from the newest version down to one that is cached or full, the bytes
      each contributes, and the bytes each comes to: the XOR of its own and all those below. */
  ghost predicate Builds(runId: string, pubs: map<Version, Publication>, store: Store,
                         chain: seq<Version>, payloads: seq<Bytes>, results: seq<Bytes>)
  {
    && |chain| == |payloads| == |results| > 0
    && (forall j, k :: 0 <= j < k < |chain| ==> chain[j] != chain[k])
    && (forall k :: 0 <= k < |chain| ==> chain[k] in pubs && IsLayer(runId, pubs, store, chain, payloads, results, k))
    && (forall k :: 0 <= k < |chain| ==> IsXorOf(results[k], payloads[k..]))
  }

  ghost predicate IsLayer(runId: string, pubs: map<Version, Publication>, store: Store,
                          chain: seq<Version>, payloads: seq<Bytes>, results: seq<Bytes>, k: nat)
    requires k < |chain| == |payloads| == |results| && chain[k] in pubs
  {
    var p := pubs[chain[k]];
    if HasCached(p, store) then k == |chain| - 1 && payloads[k] == store.objects[p.materializedUri]
    else
      && HasArtifact(p, store, payloads[k]) && CanConclude(runId, store, chain[k], p, results[k])
      && if k < |chain| - 1 then p.manifest.format == Delta && p.manifest.parent == chain[k + 1]
         else p.manifest.format != Delta
  }

  /** The bytes can be built for the version. */
  ghost predicate CanBuild(runId: string, pubs: map<Version, Publication>, store: Store, v: Version, bytes: Bytes) {
    exists chain, payloads, results ::
      Builds(runId, pubs, store, chain, payloads, results) && chain[0] == v && results[0] == bytes
  }

  // ----- One version -----

  /** Materialisation writes the places of other versions than those under way. */
  lemma {:induction false} PlacesUnderWay(runId: string, pubs: map<Version, Publication>, store: Store,
                                          v: Version, visiting: set<Version>, w: Version)
    requires w in visiting
    ensures var after := MaterializeFrom(runId, pubs, store, v, visiting).store;
            SameFaults(store, after) && SameObject(store, after, MaterializedUriOf(runId, w))
    decreases pubs.Keys - visiting
  {
    if v !in visiting && v in pubs {
      if MaterializedUriOf(runId, v) == MaterializedUriOf(runId, w) {
        MaterializedUriInjective(runId, v, w);
      }
      if pubs[v].manifest.format == Delta {
        PlacesUnderWay(runId, pubs, store, pubs[v].manifest.parent, visiting + {v}, w);
      }
    }
  }

  lemma CachedOutcome(runId: string, pubs: map<Version, Publication>, store: Store, v: Version, visiting: set<Version>)
    requires v !in visiting && v in pubs && HasCached(pubs[v], store)
    ensures MaterializeFrom(runId, pubs, store, v, visiting).outcome == Ok(store.objects[pubs[v].materializedUri])
  {
  }

  lemma FullOutcome(runId: string, pubs: map<Version, Publication>, store: Store, v: Version, visiting: set<Version>,
                    bytes: Bytes)
    requires v !in visiting && v in pubs && !HasCached(pubs[v], store) && pubs[v].manifest.format != Delta
    ensures MaterializeFrom(runId, pubs, store, v, visiting).outcome == Ok(bytes) <==>
              HasArtifact(pubs[v], store, bytes) && CanConclude(runId, store, v, pubs[v], bytes)
  {
  }

  lemma DeltaOutcome(runId: string, pubs: map<Version, Publication>, store: Store, v: Version, visiting: set<Version>,
                     artifact: Bytes, bytes: Bytes)
    requires v !in visiting && v in pubs && !HasCached(pubs[v], store) && pubs[v].manifest.format == Delta
    requires HasArtifact(pubs[v], store, artifact)
    ensures var parent := MaterializeFrom(runId, pubs, store, pubs[v].manifest.parent, visiting + {v}).outcome;
            MaterializeFrom(runId, pubs, store, v, visiting).outcome == Ok(bytes) <==>
              && parent.Ok? && |parent.value| == |artifact| && bytes == XorDelta(parent.value, artifact).value
              && CanConclude(runId, store, v, pubs[v], bytes)
  {
    MaterializeFrame(runId, pubs, store, pubs[v].manifest.parent, visiting + {v});
    PlacesUnderWay(runId, pubs, store, pubs[v].manifest.parent, visiting + {v}, v);
  }

  // ----- The whole chain -----

  lemma SameXor(a: Bytes, b: Bytes, payloads: seq<Bytes>)
    requires payloads != [] && IsXorOf(a, payloads) && IsXorOf(b, payloads)
    ensures a == b
  {
    assert |payloads[0]| == |a| == |b|;
  }

  lemma BuiltIsBelow(runId: string, pubs: map<Version, Publication>, store: Store,
                     chain: seq<Version>, payloads: seq<Bytes>, results: seq<Bytes>)
    requires Builds(runId, pubs, store, chain, payloads, results) && |chain| > 1
    ensures Builds(runId, pubs, store, chain[1..], payloads[1..], results[1..])
    ensures |results[1]| == |payloads[0]| && results[0] == XorDelta(results[1], payloads[0]).value
  {
    var c, p, r := chain[1..], payloads[1..], results[1..];
    forall k | 0 <= k < |c| ensures c[k] in pubs && IsLayer(runId, pubs, store, c, p, r, k) && IsXorOf(r[k], p[k..]) {
      assert IsLayer(runId, pubs, store, chain, payloads, results, k + 1) && IsXorOf(results[k + 1], payloads[k + 1..]);
      assert p[k..] == payloads[k + 1..];
    }
    assert payloads[0..] == payloads;
    XorFromBelow(payloads, results[0], results[1]);
  }

  lemma XorFromBelow(payloads: seq<Bytes>, result: Bytes, below: Bytes)
    requires |payloads| > 1 && IsXorOf(result, payloads) && IsXorOf(below, payloads[1..])
    ensures |below| == |payloads[0]| && result == XorDelta(below, payloads[0]).value
  {
    assert payloads == [payloads[0]] + payloads[1..];
    assert |payloads[0]| == |result| && |payloads[1]| == |result| && payloads[1..][0] == payloads[1];
    XorOfMore(payloads[0], payloads[1..], below);
    SameXor(result, XorDelta(below, payloads[0]).value, payloads);
  }

  lemma {:induction false} BuiltIsMaterialized(runId: string, pubs: map<Version, Publication>, store: Store,
                                               chain: seq<Version>, payloads: seq<Bytes>, results: seq<Bytes>,
                                               visiting: set<Version>)
    requires Builds(runId, pubs, store, chain, payloads, results)
    requires forall k :: 0 <= k < |chain| ==> chain[k] !in visiting
    ensures MaterializeFrom(runId, pubs, store, chain[0], visiting).outcome == Ok(results[0])
    decreases |chain|
  {
    var v := chain[0];
    assert IsLayer(runId, pubs, store, chain, payloads, results, 0);
    if |chain| == 1 {
      assert IsXorOf(results[0], payloads[0..]) && payloads[0..] == [payloads[0]];
      XorOfOne(payloads[0]);
      SameXor(results[0], payloads[0], [payloads[0]]);
      if HasCached(pubs[v], store) {
        CachedOutcome(runId, pubs, store, v, visiting);
      } else {
        FullOutcome(runId, pubs, store, v, visiting, results[0]);
      }
    } else {
      BuiltIsBelow(runId, pubs, store, chain, payloads, results);
      BuiltIsMaterialized(runId, pubs, store, chain[1..], payloads[1..], results[1..], visiting + {v});
      DeltaOutcome(runId, pubs, store, v, visiting, payloads[0], results[0]);
    }
  }

  lemma BuiltAlone(runId: string, pubs: map<Version, Publication>, store: Store, v: Version, bytes: Bytes)
    requires v in pubs
    requires if HasCached(pubs[v], store) then store.objects[pubs[v].materializedUri] == bytes
             else && pubs[v].manifest.format != Delta
                  && HasArtifact(pubs[v], store, bytes) && CanConclude(runId, store, v, pubs[v], bytes)
    ensures Builds(runId, pubs, store, [v], [bytes], [bytes])
  {
    XorOfOne(bytes);
    assert [bytes][0..] == [bytes];
    assert IsLayer(runId, pubs, store, [v], [bytes], [bytes], 0);
  }

  lemma BuiltOnTop(runId: string, pubs: map<Version, Publication>, store: Store, v: Version, artifact: Bytes,
                   bytes: Bytes, chain: seq<Version>, payloads: seq<Bytes>, results: seq<Bytes>)
    requires Builds(runId, pubs, store, chain, payloads, results) && v in pubs && v !in chain
    requires !HasCached(pubs[v], store) && pubs[v].manifest.format == Delta && pubs[v].manifest.parent == chain[0]
    requires HasArtifact(pubs[v], store, artifact) && CanConclude(runId, store, v, pubs[v], bytes)
    requires |results[0]| == |artifact| && bytes == XorDelta(results[0], artifact).value
    ensures Builds(runId, pubs, store, [v] + chain, [artifact] + payloads, [bytes] + results)
  {
    var c, p, r := [v] + chain, [artifact] + payloads, [bytes] + results;
    assert payloads[0..] == payloads && IsXorOf(results[0], payloads[0..]);
    XorOfMore(artifact, payloads, results[0]);
    assert p[0..] == p;
    forall k | 0 <= k < |c| ensures c[k] in pubs && IsLayer(runId, pubs, store, c, p, r, k) && IsXorOf(r[k], p[k..]) {
      if k > 0 {
        assert IsLayer(runId, pubs, store, chain, payloads, results, k - 1);
        assert IsXorOf(results[k - 1], payloads[k - 1..]);
        assert p[k..] == payloads[k - 1..];
      }
    }
  }

  lemma {:induction false} MaterializedIsBuilt(runId: string, pubs: map<Version, Publication>, store: Store,
                                               v: Version, visiting: set<Version>)
    returns (chain: seq<Version>, payloads: seq<Bytes>, results: seq<Bytes>)
    requires MaterializeFrom(runId, pubs, store, v, visiting).outcome.Ok?
    ensures Builds(runId, pubs, store, chain, payloads, results) && chain[0] == v
    ensures forall k :: 0 <= k < |chain| ==> chain[k] !in visiting
    ensures results[0] == MaterializeFrom(runId, pubs, store, v, visiting).outcome.value
    decreases pubs.Keys - visiting
  {
    var bytes := MaterializeFrom(runId, pubs, store, v, visiting).outcome.value;
    if HasCached(pubs[v], store) || pubs[v].manifest.format != Delta {
      if HasCached(pubs[v], store) {
        CachedOutcome(runId, pubs, store, v, visiting);
      } else {
        FullOutcome(runId, pubs, store, v, visiting, bytes);
      }
      BuiltAlone(runId, pubs, store, v, bytes);
      chain, payloads, results := [v], [bytes], [bytes];
    } else {
      var artifact := FetchArtifact(pubs[v], store).value;
      DeltaOutcome(runId, pubs, store, v, visiting, artifact, bytes);
      var c, p, r := MaterializedIsBuilt(runId, pubs, store, pubs[v].manifest.parent, visiting + {v});
      assert v !in c;
      BuiltOnTop(runId, pubs, store, v, artifact, bytes, c, p, r);
      chain, payloads, results := [v] + c, [artifact] + p, [bytes] + r;
    }
  }

  /** A version is materialised to these bytes if and only if its parents lead, without repeating,
      to a readable cached result or a full artifact; every artifact above can be read with its
      recorded digest; all are equally long; at each version the XOR from there down has the
      digest its manifest promises; each result can be put in its place; and the bytes are the XOR. */
  lemma MaterializesExactly(s: RunState, store: Store, v: Version, bytes: Bytes)
    ensures MaterializedBytes(s, store, v) == Ok(bytes) <==> CanBuild(s.runId, s.publications, store, v, bytes)
  {
    if MaterializedBytes(s, store, v) == Ok(bytes) {
      var chain, payloads, results := MaterializedIsBuilt(s.runId, s.publications, store, v, {});
    }
    if CanBuild(s.runId, s.publications, store, v, bytes) {
      var chain, payloads, results :|
        Builds(s.runId, s.publications, store, chain, payloads, results) && chain[0] == v && results[0] == bytes;
      BuiltIsMaterialized(s.runId, s.publications, store, chain, payloads, results, {});
    }
  }

  ghost predicate IsBuildable(s: RunState, store: Store, v: Version) {
    exists bytes :: CanBuild(s.runId, s.publications, store, v, bytes)
  }

  lemma SucceedsExactly(s: RunState, store: Store, v: Version)
    ensures MaterializedBytes(s, store, v).Ok? <==> IsBuildable(s, store, v)
    ensures MaterializedBytes(s, store, v).Ok? ==>
              CanBuild(s.runId, s.publications, store, v, MaterializedBytes(s, store, v).value)
  {
    if MaterializedBytes(s, store, v).Ok? {
      MaterializesExactly(s, store, v, MaterializedBytes(s, store, v).value);
    }
    if IsBuildable(s, store, v) {
      var bytes :| CanBuild(s.runId, s.publications, store, v, bytes);
      MaterializesExactly(s, store, v, bytes);
    }
  }

  /** Deltas by parent links down to a full version, none of them twice. */
  ghost predicate IsParentChain(pubs: map<Version, Publication>, chain: seq<Version>) {
    && |chain| > 0 && (forall j, k :: 0 <= j < k < |chain| ==> chain[j] != chain[k])
    && forall k :: 0 <= k < |chain| ==> IsLink(pubs, chain, k)
  }

  predicate IsLink(pubs: map<Version, Publication>, chain: seq<Version>, k: nat)
    requires k < |chain|
  {
    && chain[k] in pubs
    && var m := pubs[chain[k]].manifest;
       if k < |chain| - 1 then m.format == Delta && m.parent == chain[k + 1] else m.format != Delta
  }

  lemma {:induction false} ParentChainIsWhole(pubs: map<Version, Publication>, chain: seq<Version>, seen: set<Version>)
    requires IsParentChain(pubs, chain) && forall k :: 0 <= k < |chain| ==> chain[k] !in seen
    ensures ChainFrom(pubs, chain[0], seen) == Some(chain)
    decreases |chain|
  {
    assert IsLink(pubs, chain, 0);
    if |chain| > 1 {
      var rest := chain[1..];
      forall k | 0 <= k < |rest| ensures IsLink(pubs, rest, k) {
        assert IsLink(pubs, chain, k + 1);
      }
      assert IsParentChain(pubs, rest) && forall k :: 0 <= k < |rest| ==> rest[k] !in seen + {chain[0]};
      ParentChainIsWhole(pubs, rest, seen + {chain[0]});
      assert chain == [chain[0]] + rest;
    } else {
      assert chain == [chain[0]];
    }
  }

  lemma BuiltIsWholeChain(runId: string, pubs: map<Version, Publication>, store: Store,
                          chain: seq<Version>, payloads: seq<Bytes>, results: seq<Bytes>)
    requires Uncached(pubs) && Builds(runId, pubs, store, chain, payloads, results)
    ensures ChainFrom(pubs, chain[0], {}) == Some(chain)
  {
    forall k | 0 <= k < |chain| ensures IsLink(pubs, chain, k) {
      assert IsLayer(runId, pubs, store, chain, payloads, results, k);
    }
    ParentChainIsWhole(pubs, chain, {});
  }

  /** With nothing cached the chain is the whole one, down to the full base. */
  lemma RecomputesExactly(s: RunState, store: Store, v: Version, bytes: Bytes)
    requires Uncached(s.publications)
    ensures MaterializedBytes(s, store, v) == Ok(bytes) <==>
              exists payloads, results ::
                && ChainFrom(s.publications, v, {}).Some?
                && Builds(s.runId, s.publications, store, ChainFrom(s.publications, v, {}).value, payloads, results)
                && results[0] == bytes
  {
    MaterializesExactly(s, store, v, bytes);
    if CanBuild(s.runId, s.publications, store, v, bytes) {
      var chain, payloads, results :|
        Builds(s.runId, s.publications, store, chain, payloads, results) && chain[0] == v && results[0] == bytes;
      BuiltIsWholeChain(s.runId, s.publications, store, chain, payloads, results);
    }
  }

  /** A stored version that cannot be materialised is failed, and stays stored. */
  lemma FailureIsMarked(s: RunState, store: Store, v: Version)
    requires !IsBuildable(s, store, v)
    ensures AfterMaterialize(s, store, v).publications.Keys == s.publications.Keys
    ensures v in s.publications ==> AfterMaterialize(s, store, v).publications[v].phase == Failed
  {
    SucceedsExactly(s, store, v);
  }

  /** A success leaves the bytes in a place from where they are read the next time. */
  lemma MaterializedAgain(s: RunState, store: Store, v: Version)
    requires MaterializedBytes(s, store, v).Ok?
    ensures var after := MaterializeFrom(s.runId, s.publications, store, v, {}).store;
            MaterializedUriOf(s.runId, v) !in after.unreadable ==>
              && HasCached(AfterMaterialize(s, store, v).publications[v], after)
              && MaterializedBytes(AfterMaterialize(s, store, v), after, v) == MaterializedBytes(s, store, v)
  {
    var r := MaterializeFrom(s.runId, s.publications, store, v, {});
    assert AfterMaterialize(s, store, v).publications == r.pubs;
  }
}
