/** The service's operations on a loaded run state, step by step as the service
    takes them: loops over publications and engines, and the recursive retention
    of parent chains. */
module WeightOperations {
  import opened Basics
  import opened WeightModel
  import opened WeightMaterialize
  import opened WeightRetention

  /** The byte loop of applyXORDelta. */
  method ApplyXorDelta(parent: Bytes, delta: Bytes) returns (r: Result<Bytes>)
    ensures r == XorDelta(parent, delta)
  {
    if |parent| != |delta| {
      return Err(SizesDiffer);
    }
    var result := new bv8[|parent|];
    for i := 0 to |parent|
      invariant forall k :: 0 <= k < i ==> result[k] == parent[k] ^ delta[k]
    {
      result[i] := parent[i] ^ delta[i];
    }
    assert result[..] == XorDelta(parent, delta).value;
    return Ok(result[..]);
  }

  // ----- Chain retention -----

  /** Everything in keep is reached from the roots, and keep is closed under parents. */
  ghost predicate Justified(pubs: map<Version, Publication>, roots: set<Version>, keep: set<Version>) {
    && ParentClosed(pubs, keep)
    && (forall v :: v in keep ==> ReachedFrom(pubs, roots, v))
  }

  predicate Holds(keep: set<Version>, v: Version) {
    v == "" || v in keep
  }

  predicate HoldsEngine(keep: set<Version>, e: Engine) {
    Holds(keep, e.desired) && Holds(keep, e.current) && Holds(keep, e.lastGood)
  }

  lemma ReachesThroughParent(pubs: map<Version, Publication>, v: Version, w: Version)
    requires v != "" && v in pubs && Reaches(pubs, pubs[v].manifest.parent, w)
    ensures Reaches(pubs, v, w)
  {
    var path :| IsParentPath(pubs, path) && path[0] == pubs[v].manifest.parent && path[|path| - 1] == w;
    var longer := [v] + path;
    assert IsParentPath(pubs, longer) && longer[0] == v && longer[|longer| - 1] == w;
  }

  /** Terminates on every parent graph: each call keeps one more stored version or stops. */
  method RetainChain(pubs: map<Version, Publication>, version: Version, keep: set<Version>)
    returns (keep': set<Version>)
    requires ClosedBut(pubs, keep, version)
    ensures ParentClosed(pubs, keep')
    ensures keep <= keep' && (version == "" || version in keep')
    ensures forall v :: v in keep' && v !in keep ==> Reaches(pubs, version, v)
    decreases pubs.Keys - keep
  {
    keep' := keep;
    if version == "" || version in keep {
      return;
    }
    keep' := keep' + {version};
    ReachesSelf(pubs, version);
    if version in pubs {
      var parent := pubs[version].manifest.parent;
      keep' := RetainChain(pubs, parent, keep');
      forall v | v in keep' && v !in keep && v != version ensures Reaches(pubs, version, v) {
        ReachesThroughParent(pubs, version, v);
      }
    }
  }

  method RetainRoot(pubs: map<Version, Publication>, version: Version, keep: set<Version>, ghost roots: set<Version>)
    returns (keep': set<Version>)
    requires Justified(pubs, roots, keep) && version in roots
    ensures Justified(pubs, roots, keep') && keep <= keep' && Holds(keep', version)
  {
    keep' := RetainChain(pubs, version, keep);
    forall v | v in keep' ensures ReachedFrom(pubs, roots, v) {
      if v !in keep {
        assert version in roots && Reaches(pubs, version, v);
      }
    }
  }

  lemma KeptIsKeepSet(s: RunState, newest: set<Version>, keep: set<Version>)
    requires Justified(s.publications, Roots(s) + newest, keep)
    requires Holds(keep, s.active) && Holds(keep, s.lastGood)
    requires forall id :: id in s.engines ==> HoldsEngine(keep, s.engines[id])
    requires forall v :: v in newest ==> Holds(keep, v)
    ensures IsKeepSet(s, newest, keep)
  {
    forall v | v in Roots(s) + newest ensures Holds(keep, v) {
    }
    forall v | ReachedFrom(s.publications, Roots(s) + newest, v) ensures v in keep {
      var root :| root in Roots(s) + newest && Reaches(s.publications, root, v);
      ClosedHoldsReached(s.publications, keep, root, v);
    }
  }

  // ----- Newest publications -----

  ghost predicate NewestFirst(pubs: map<Version, Publication>, order: seq<Version>) {
    && (forall v :: v in order ==> v in pubs)
    && (forall i, j :: 0 <= i < j < |order| ==>
          order[i] != order[j] && pubs[order[j]].manifest.optimizerStep <= pubs[order[i]].manifest.optimizerStep)
  }

  lemma {:induction false} SomeNewest(pubs: map<Version, Publication>, rest: set<Version>)
    requires rest <= pubs.Keys && rest != {}
    ensures exists v :: v in rest && forall w :: w in rest ==>
              pubs[w].manifest.optimizerStep <= pubs[v].manifest.optimizerStep
  {
    var v :| v in rest;
    if rest != {v} {
      SomeNewest(pubs, rest - {v});
      var m :| m in rest - {v} && forall w :: w in rest - {v} ==>
        pubs[w].manifest.optimizerStep <= pubs[m].manifest.optimizerStep;
      var top := if pubs[v].manifest.optimizerStep <= pubs[m].manifest.optimizerStep then m else v;
      assert forall w :: w in rest ==> pubs[w].manifest.optimizerStep <= pubs[top].manifest.optimizerStep;
    }
  }

  /** The publications by falling optimizer step; equal steps come in any order. */
  method SortNewestFirst(pubs: map<Version, Publication>) returns (order: seq<Version>)
    ensures NewestFirst(pubs, order) && |order| == |pubs|
    ensures forall v :: v in pubs ==> v in order
  {
    order := [];
    var rest := pubs.Keys;
    while rest != {}
      invariant rest <= pubs.Keys && NewestFirst(pubs, order)
      invariant forall v :: v in pubs <==> v in order || v in rest
      invariant forall v :: v in order ==> v !in rest
      invariant forall v, w :: v in order && w in rest ==>
                  pubs[w].manifest.optimizerStep <= pubs[v].manifest.optimizerStep
      invariant |order| + |rest| == |pubs|
      decreases |rest|
    {
      SomeNewest(pubs, rest);
      var v :| v in rest && forall w :: w in rest ==> pubs[w].manifest.optimizerStep <= pubs[v].manifest.optimizerStep;
      order := order + [v];
      rest := rest - {v};
    }
  }

  lemma {:induction false} PrefixSize(order: seq<Version>, n: nat)
    requires n <= |order| && forall i, j :: 0 <= i < j < |order| ==> order[i] != order[j]
    ensures |Listed(order[..n])| == n
  {
    if n == 0 {
      assert Listed(order[..0]) == {};
    } else {
      PrefixSize(order, n - 1);
      assert order[..n] == order[..n - 1] + [order[n - 1]];
      assert Listed(order[..n]) == Listed(order[..n - 1]) + {order[n - 1]};
      assert order[n - 1] !in order[..n - 1];
    }
  }

  lemma Placement(order: seq<Version>, taken: nat, w: Version)
    requires w in order && taken <= |order|
    ensures w in order[..taken] || exists j :: taken <= j < |order| && order[j] == w
  {
    var j :| 0 <= j < |order| && order[j] == w;
    if j < taken {
      assert order[..taken][j] == w;
    }
  }

  lemma PrefixIsNewest(pubs: map<Version, Publication>, order: seq<Version>, n: int, taken: nat)
    requires NewestFirst(pubs, order) && |order| == |pubs| && forall v :: v in pubs ==> v in order
    requires taken == if n < 0 then 0 else if n < |order| then n else |order|
    ensures IsNewest(pubs, n, Listed(order[..taken]))
  {
    var newest := Listed(order[..taken]);
    PrefixSize(order, taken);
    forall v, w | v in newest && w in pubs.Keys - newest
      ensures pubs[w].manifest.optimizerStep <= pubs[v].manifest.optimizerStep
    {
      var i :| 0 <= i < taken && order[i] == v;
      Placement(order, taken, w);
      var j :| taken <= j < |order| && order[j] == w;
    }
  }

  method RetainEngines(s: RunState, before: set<Version>, ghost roots: set<Version>) returns (keep: set<Version>)
    requires Justified(s.publications, roots, before) && Roots(s) <= roots
    ensures Justified(s.publications, roots, keep) && before <= keep
    ensures forall id :: id in s.engines ==> HoldsEngine(keep, s.engines[id])
  {
    keep := before;
    var todo := s.engines.Keys;
    while todo != {}
      invariant todo <= s.engines.Keys
      invariant Justified(s.publications, roots, keep) && before <= keep
      invariant forall id :: id in s.engines && id !in todo ==> HoldsEngine(keep, s.engines[id])
      decreases |todo|
    {
      var id :| id in todo;
      var e := s.engines[id];
      assert EngineRoots(e) <= roots;
      keep := RetainRoot(s.publications, e.desired, keep, roots);
      keep := RetainRoot(s.publications, e.current, keep, roots);
      keep := RetainRoot(s.publications, e.lastGood, keep, roots);
      todo := todo - {id};
    }
  }

  method RetainAll(pubs: map<Version, Publication>, versions: seq<Version>, before: set<Version>,
                   ghost roots: set<Version>)
    returns (keep: set<Version>)
    requires Justified(pubs, roots, before) && forall v :: v in versions ==> v in roots
    ensures Justified(pubs, roots, keep) && before <= keep
    ensures forall v :: v in versions ==> Holds(keep, v)
  {
    keep := before;
    for i := 0 to |versions|
      invariant Justified(pubs, roots, keep) && before <= keep
      invariant forall k :: 0 <= k < i ==> Holds(keep, versions[k])
    {
      keep := RetainRoot(pubs, versions[i], keep, roots);
    }
  }

  /** The keep set of a collection: the active and last-good versions, every engine's
      versions, then the newest publications, each with its chain of parents. */
  method KeepSet(s: RunState, retainNewest: int) returns (keep: set<Version>)
    ensures exists newest :: IsNewest(s.publications, retainNewest, newest) && IsKeepSet(s, newest, keep)
  {
    var order := SortNewestFirst(s.publications);
    var taken := if retainNewest < 0 then 0 else if retainNewest < |order| then retainNewest else |order|;
    ghost var newest := Listed(order[..taken]);
    ghost var roots := Roots(s) + newest;
    PrefixIsNewest(s.publications, order, retainNewest, taken);
    keep := RetainRoot(s.publications, s.active, {}, roots);
    keep := RetainRoot(s.publications, s.lastGood, keep, roots);
    keep := RetainEngines(s, keep, roots);
    keep := RetainAll(s.publications, order[..taken], keep, roots);
    KeptIsKeepSet(s, newest, keep);
    assert IsNewest(s.publications, retainNewest, newest) && IsKeepSet(s, newest, keep);
  }

  // ----- Registration and publication -----

  method Register(s: RunState, id: EngineId, current: Version) returns (s': RunState)
    ensures s' == AfterRegister(s, id, current)
  {
    var engines := s.engines;
    if id in engines {
      if engines[id].current == "" && current != "" {
        engines := engines[id := engines[id].(current := current, lastGood := current)];
      }
    } else {
      engines := engines[id := Engine("", current, current, 0, NoTrouble, false)];
    }
    s' := s.(engines := engines);
    assert engines == AfterRegister(s, id, current).engines;
  }

  /** The loop of Publish that points every required engine at the new version. */
  method ClaimEngines(before: map<EngineId, Engine>, required: seq<EngineId>, version: Version)
    returns (registered: bool, ids: set<EngineId>, engines: map<EngineId, Engine>)
    ensures registered <==> forall id :: id in required ==> id in before
    ensures registered ==> ids == set id | id in required
    ensures registered ==>
              engines == map id | id in before ::
                if id in ids then before[id].(desired := version, draining := true) else before[id]
  {
    registered, ids, engines := true, {}, before;
    for i := 0 to |required|
      invariant ids == set id | id in required[..i]
      invariant ids <= before.Keys
      invariant engines == map id | id in before ::
                  if id in ids then before[id].(desired := version, draining := true) else before[id]
    {
      var id := required[i];
      if id !in before {
        return false, ids, engines;
      }
      assert required[..i + 1] == required[..i] + [id];
      ids := ids + {id};
      engines := engines[id := engines[id].(desired := version, draining := true)];
    }
    assert required[..|required|] == required;
  }

  /** Checks a manifest against the run and, when it is new and accepted, enters it. */
  method Enter(s: RunState, m: Manifest, required: seq<EngineId>, timeout: int, now: Time, artifact: Option<Bytes>)
    returns (refusal: Option<Error>, s': RunState)
    ensures refusal == PublishRefusal(s, m, required, timeout, artifact)
    ensures s' == AfterPublish(s, m, required, timeout, now, artifact)
  {
    s' := s;
    if !ValidManifest(m) {
      return Some(InvalidManifest), s';
    }
    if timeout <= 0 {
      return Some(InvalidTimeout), s';
    }
    if artifact.None? {
      return Some(ArtifactUnreadable), s';
    }
    var artifactHash := Sha256(artifact.value);
    if ChecksumNamed(m, ArtifactSum) != artifactHash {
      return Some(ChecksumMismatch), s';
    }
    if m.version in s.publications {
      return if s.publications[m.version].artifactSha == artifactHash then None else Some(VersionConflict), s';
    }
    if m.format == Delta {
      if m.parent !in s.publications || s.publications[m.parent].phase == Failed
         || s.publications[m.parent].phase == GarbageCollected {
        return Some(ParentUnavailable), s';
      }
      if ChecksumNamed(m, ResultSum) == NoDigest {
        return Some(ResultChecksumMissing), s';
      }
    }
    var registered, ids, engines := ClaimEngines(s.engines, required, m.version);
    if !registered {
      return Some(EngineNotRegistered), s';
    }
    var publication := Publication(m.(uploadComplete := true, manifestCommitted := true, verified := true),
                                   ids, map[], Published, now + timeout, "", artifactHash, ChecksumNamed(m, ResultSum));
    s' := s.(publications := s.publications[m.version := publication], engines := engines);
    refusal := None;
  }

  // ----- Acknowledgement -----

  /** Every required engine is dereferenced, which the registration check of Publish makes safe. */
  method ActivateLoop(s: RunState, v: Version) returns (s': RunState)
    requires v in s.publications && s.publications[v].required <= s.engines.Keys
    ensures s' == Activate(s, v)
  {
    var pubs, engines := s.publications, s.engines;
    var p := pubs[v];
    if s.active in pubs && s.active != v {
      pubs := pubs[s.active := pubs[s.active].(phase := Superseded)];
    }
    pubs := pubs[v := p.(phase := Active)];
    var todo := p.required;
    while todo != {}
      invariant todo <= p.required
      invariant engines == map id | id in s.engines ::
                  if id in p.required - todo then s.engines[id].(desired := v, draining := false) else s.engines[id]
      decreases |todo|
    {
      var id :| id in todo;
      engines := engines[id := engines[id].(desired := v)];
      engines := engines[id := engines[id].(draining := false)];
      todo := todo - {id};
    }
    s' := s.(publications := pubs, engines := engines, active := v,
             lastGood := if s.lastGood == "" then v else s.lastGood);
  }

  method Receive(s: RunState, id: EngineId, v: Version, applied: Digest, now: Time)
    returns (outcome: Result<bool>, s': RunState)
    requires v in s.publications ==> s.publications[v].required <= s.engines.Keys
    ensures outcome == AckOutcome(s, id, v, applied, now)
    ensures s' == AfterAck(s, id, v, applied, now)
  {
    s' := s;
    if v !in s.publications || id !in s.engines {
      return Err(VersionNotFound), s';
    }
    var p, e := s.publications[v], s.engines[id];
    if s.active == v && e.desired == v {
      if applied != p.resultSha {
        s' := s.(engines := s.engines[id := e.(draining := true, error := RollbackChecksumMismatch)]);
        return Err(AppliedChecksumMismatch), s';
      }
      s' := s.(engines := s.engines[id := e.(current := v, draining := false, error := NoTrouble,
        acknowledgedAt := now)]);
      return Ok(true), s';
    }
    if id !in p.required {
      return Err(NotRequired), s';
    }
    if p.phase != Ready && p.phase != Activating {
      return Err(NotReady), s';
    }
    if now > p.deadline {
      s' := s.(publications := s.publications[v := p.(phase := Failed)],
               engines := s.engines[id := e.(draining := true, error := AckDeadlineExceeded)]);
      return Err(DeadlineExceeded), s';
    }
    if applied != p.resultSha {
      s' := s.(engines := s.engines[id := e.(draining := true, error := AckChecksumMismatch)]);
      return Err(AppliedChecksumMismatch), s';
    }
    p := p.(phase := Activating, acks := p.acks[id := now]);
    e := e.(current := v, acknowledgedAt := now, error := NoTrouble);
    s' := s.(publications := s.publications[v := p], engines := s.engines[id := e]);
    if |p.acks| != |p.required| {
      return Ok(false), s';
    }
    s' := ActivateLoop(s', v);
    outcome := Ok(true);
  }

  // ----- Promotion and rollback -----

  method Promote(s: RunState, v: Version) returns (s': RunState)
    requires s.active == v
    ensures s' == AfterMarkGood(s, v)
  {
    var engines, todo := s.engines, s.engines.Keys;
    while todo != {}
      invariant todo <= s.engines.Keys
      invariant engines == map id | id in s.engines ::
                  if id !in todo && s.engines[id].current == v then s.engines[id].(lastGood := v) else s.engines[id]
      decreases |todo|
    {
      var id :| id in todo;
      if engines[id].current == v {
        engines := engines[id := engines[id].(lastGood := v)];
      }
      todo := todo - {id};
    }
    s' := s.(lastGood := v, engines := engines);
  }

  method ReturnToLastGood(s: RunState, reason: string) returns (s': RunState)
    requires s.lastGood != ""
    ensures s' == AfterRollback(s, reason)
  {
    var pubs := s.publications;
    if s.active in pubs {
      pubs := pubs[s.active := pubs[s.active].(phase := RolledBack)];
    }
    var engines, todo := s.engines, s.engines.Keys;
    while todo != {}
      invariant todo <= s.engines.Keys
      invariant engines == map id | id in s.engines ::
                  if id !in todo
                  then s.engines[id].(desired := s.lastGood, error := RolledBackFor(reason), draining := true)
                  else s.engines[id]
      decreases |todo|
    {
      var id :| id in todo;
      engines := engines[id := engines[id].(desired := s.lastGood, error := RolledBackFor(reason), draining := true)];
      todo := todo - {id};
    }
    s' := s.(publications := pubs, active := s.lastGood, engines := engines);
  }

  // ----- Expiry -----

  /** The engines once one expiring version has been looked at. */
  function Drained(s: RunState, v: Version, before: map<EngineId, Engine>): map<EngineId, Engine>
    requires v in s.publications
  {
    map id | id in before ::
      if id in s.publications[v].required && id !in s.publications[v].acks then TimedOutEngine(s, before[id])
      else before[id]
  }

  /** The inner loop of Expire: engines that did not acknowledge are drained. */
  method DrainMissing(s: RunState, v: Version, before: map<EngineId, Engine>) returns (engines: map<EngineId, Engine>)
    requires v in s.publications && s.publications[v].required <= before.Keys
    ensures engines == Drained(s, v, before)
  {
    var p := s.publications[v];
    engines := before;
    var todo := p.required;
    while todo != {}
      invariant todo <= p.required
      invariant engines == map id | id in before ::
                  if id in p.required - todo && id !in p.acks then TimedOutEngine(s, before[id]) else before[id]
      decreases |todo|
    {
      var id :| id in todo;
      if id !in p.acks {
        var e := engines[id].(draining := true, error := AckTimeout);
        if s.active != "" {
          e := e.(desired := s.active);
        } else {
          e := e.(desired := s.lastGood);
        }
        engines := engines[id := e];
      }
      todo := todo - {id};
    }
  }

  /** The engines once the given versions have been looked at. */
  function EnginesOnce(s: RunState, seen: set<Version>, now: Time): map<EngineId, Engine>
    requires seen <= s.publications.Keys
  {
    map id | id in s.engines ::
      if TimedOutAmong(s, seen, id, now) then TimedOutEngine(s, s.engines[id]) else s.engines[id]
  }

  function PublicationsOnce(s: RunState, seen: set<Version>, now: Time): map<Version, Publication>
    requires seen <= s.publications.Keys
  {
    map v | v in s.publications ::
      if v in seen && IsExpiring(s.publications[v], now) then s.publications[v].(phase := Failed) else s.publications[v]
  }

  lemma TimedOutSplit(s: RunState, seen: set<Version>, v: Version, id: EngineId, now: Time)
    requires seen <= s.publications.Keys && v in s.publications
    ensures TimedOutAmong(s, seen + {v}, id, now) <==>
              TimedOutAmong(s, seen, id, now)
              || (IsExpiring(s.publications[v], now)
                  && id in s.publications[v].required && id !in s.publications[v].acks)
  {
    if TimedOutAmong(s, seen, id, now) {
      var w :| w in seen && IsExpiring(s.publications[w], now)
               && id in s.publications[w].required && id !in s.publications[w].acks;
      assert w in seen + {v};
    }
    if IsExpiring(s.publications[v], now) && id in s.publications[v].required && id !in s.publications[v].acks {
      assert v in seen + {v};
    }
  }

  lemma EnginesOnceMore(s: RunState, seen: set<Version>, v: Version, now: Time)
    requires seen <= s.publications.Keys && v in s.publications
    ensures EnginesOnce(s, seen + {v}, now) ==
            if IsExpiring(s.publications[v], now) then Drained(s, v, EnginesOnce(s, seen, now))
            else EnginesOnce(s, seen, now)
  {
    forall id | id in s.engines ensures TimedOutAmong(s, seen + {v}, id, now) <==>
              TimedOutAmong(s, seen, id, now)
              || (IsExpiring(s.publications[v], now)
                  && id in s.publications[v].required && id !in s.publications[v].acks)
    {
      TimedOutSplit(s, seen, v, id, now);
    }
  }

  function ExpiredAmong(s: RunState, seen: set<Version>, now: Time): set<Version>
    requires seen <= s.publications.Keys
  {
    set v | v in seen && IsExpiring(s.publications[v], now)
  }

  lemma ExpiredOnceMore(s: RunState, seen: set<Version>, v: Version, now: Time)
    requires seen <= s.publications.Keys && v in s.publications
    ensures ExpiredAmong(s, seen + {v}, now) ==
              ExpiredAmong(s, seen, now) + if IsExpiring(s.publications[v], now) then {v} else {}
  {
  }

  lemma PublicationsOnceMore(s: RunState, seen: set<Version>, v: Version, now: Time)
    requires seen <= s.publications.Keys && v in s.publications && v !in seen
    ensures var before, p := PublicationsOnce(s, seen, now), s.publications[v];
            PublicationsOnce(s, seen + {v}, now) ==
            if IsExpiring(p, now) then before[v := p.(phase := Failed)] else before
  {
  }

  lemma AllOnce(s: RunState, now: Time)
    ensures AfterExpire(s, now) == s.(publications := PublicationsOnce(s, s.publications.Keys, now),
                                      engines := EnginesOnce(s, s.publications.Keys, now))
  {
    assert AfterExpire(s, now).publications == PublicationsOnce(s, s.publications.Keys, now);
    assert AfterExpire(s, now).engines == EnginesOnce(s, s.publications.Keys, now);
  }

  /** One turn of the loop: a version that is due fails, and the engines that miss it are drained. */
  method ExpireOne(s: RunState, ghost seen: set<Version>, v: Version, now: Time,
                   expired: set<Version>, pubs: map<Version, Publication>, engines: map<EngineId, Engine>)
    returns (expired': set<Version>, pubs': map<Version, Publication>, engines': map<EngineId, Engine>)
    requires seen <= s.publications.Keys && v in s.publications.Keys - seen
    requires s.publications[v].required <= s.engines.Keys && expired == ExpiredAmong(s, seen, now)
    requires pubs == PublicationsOnce(s, seen, now) && engines == EnginesOnce(s, seen, now)
    ensures expired' == ExpiredAmong(s, seen + {v}, now)
    ensures pubs' == PublicationsOnce(s, seen + {v}, now) && engines' == EnginesOnce(s, seen + {v}, now)
  {
    expired', pubs', engines' := expired, pubs, engines;
    var p := s.publications[v];
    EnginesOnceMore(s, seen, v, now);
    PublicationsOnceMore(s, seen, v, now);
    ExpiredOnceMore(s, seen, v, now);
    if InFlight(p.phase) && now >= p.deadline {
      pubs' := pubs[v := p.(phase := Failed)];
      expired' := expired + {v};
      engines' := DrainMissing(s, v, engines);
    }
  }

  lemma OneLess(keys: set<Version>, seen: set<Version>, v: Version)
    ensures keys - seen - {v} == keys - (seen + {v})
  {
  }

  method ExpireDue(s: RunState, now: Time) returns (expired: set<Version>, s': RunState)
    requires forall v :: v in s.publications ==> s.publications[v].required <= s.engines.Keys
    ensures expired == ExpiredAmong(s, s.publications.Keys, now)
    ensures s' == AfterExpire(s, now)
  {
    var pubs, engines, todo := s.publications, s.engines, s.publications.Keys;
    expired := {};
    ghost var seen: set<Version> := {};
    while todo != {}
      invariant seen <= s.publications.Keys && todo == s.publications.Keys - seen
      invariant expired == ExpiredAmong(s, seen, now)
      invariant pubs == PublicationsOnce(s, seen, now)
      invariant engines == EnginesOnce(s, seen, now)
      decreases |todo|
    {
      var v :| v in todo;
      expired, pubs, engines := ExpireOne(s, seen, v, now, expired, pubs, engines);
      OneLess(s.publications.Keys, seen, v);
      todo := todo - {v};
      seen := seen + {v};
    }
    assert seen == s.publications.Keys;
    AllOnce(s, now);
    s' := s.(publications := pubs, engines := engines);
  }
}
