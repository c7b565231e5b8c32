/** The durable state of the weight publication service and the effect of each
    of its operations on the state of one run, written as values.  WeightService
    holds the operations in the form the service has: loops over a loaded state
    that is saved at the end. */
module WeightModel {
  import opened Basics

  type Version = string
  type EngineId = string
  type Uri = string
  type Bytes = seq<bv8>
  type Time = int

  datatype Result<+T> = Ok(value: T) | Err(error: Error)

  datatype Error =
    | MissingIdentifier | InvalidManifest | InvalidTimeout | ArtifactUnreadable
    | ChecksumMismatch | VersionConflict | ParentUnavailable | ResultChecksumMissing
    | EngineNotRegistered | ParentCycle | VersionNotFound | SizesDiffer
    | ImmutableConflict | StoreFault | NotRequired | NotReady | DeadlineExceeded
    | AppliedChecksumMismatch | NotActive | NoLastGood | SaveFailed

  /** A SHA-256 digest written as text.  Two payloads with the same digest are the
      same payload; a client may also send no digest, or text that is no digest. */
  datatype Digest = NoDigest | Sha256(payload: Bytes) | OtherText(text: string)

  datatype Format = Full | Delta | OtherFormat(text: string)

  datatype Phase =
    | Published | Ready | Activating | Active
    | Superseded | RolledBack | Failed | GarbageCollected

  /** rl.skyscale.dev/v1alpha1, the one version the service takes, or another text. */
  datatype ApiVersion = V1Alpha1 | OtherApi(text: string)

  /** The names under which a manifest lists digests: "artifact", "result" and others. */
  datatype ChecksumName = ArtifactSum | ResultSum | OtherSum(text: string)

  /** The error text an engine carries. */
  datatype Trouble =
    | NoTrouble | RollbackChecksumMismatch | AckDeadlineExceeded | AckChecksumMismatch
    | AckTimeout | RolledBackFor(reason: string)

  datatype Manifest = Manifest(
    apiVersion: ApiVersion, version: Version, runId: string, baseCheckpoint: string,
    parent: Version, format: Format, checksums: map<ChecksumName, Digest>,
    byteSize: int, optimizerStep: int, artifactUri: Uri,
    uploadComplete: bool, manifestCommitted: bool, verified: bool)

  datatype Publication = Publication(
    manifest: Manifest, required: set<EngineId>, acks: map<EngineId, Time>,
    phase: Phase, deadline: Time, materializedUri: Uri,
    artifactSha: Digest, resultSha: Digest)

  datatype Engine = Engine(
    desired: Version, current: Version, lastGood: Version,
    acknowledgedAt: Time, error: Trouble, draining: bool)

  datatype RunState = RunState(
    runId: string, publications: map<Version, Publication>,
    engines: map<EngineId, Engine>, active: Version, lastGood: Version)

  function EmptyRun(runId: string): RunState {
    RunState(runId, map[], map[], "", "")
  }

  function ChecksumNamed(m: Manifest, name: ChecksumName): Digest {
    if name in m.checksums then m.checksums[name] else NoDigest
  }

  predicate ValidManifest(m: Manifest) {
    && m.apiVersion == V1Alpha1 && m.version != "" && m.runId != "" && m.baseCheckpoint != ""
    && (m.format == Full || m.format == Delta)
    && (m.format == Delta ==> m.parent != "")
    && m.byteSize > 0 && m.artifactUri != "" && m.checksums != map[]
  }

  predicate InFlight(phase: Phase) {
    phase == Published || phase == Ready || phase == Activating
  }

  /** The digest a version must materialise to. */
  function ExpectedDigest(p: Publication): Digest {
    var named := ChecksumNamed(p.manifest, ResultSum);
    if named == NoDigest then p.artifactSha else named
  }

  predicate FullyAcknowledged(p: Publication) {
    p.acks.Keys == p.required && p.required != {}
  }

  // ----- The artifact store -----

  /** The objects held, and the objects on which calls fail at the moment. */
  datatype Store = Store(
    objects: map<Uri, Bytes>,
    unreadable: set<Uri>, unwritable: set<Uri>, undeletable: set<Uri>)

  function Fetch(store: Store, uri: Uri): Option<Bytes> {
    if uri in store.objects && uri !in store.unreadable then Some(store.objects[uri]) else None
  }

  function PutImmutable(store: Store, uri: Uri, payload: Bytes, expected: Digest): Result<Store> {
    if Sha256(payload) != expected then Err(ChecksumMismatch)
    else if uri in store.unwritable then Err(StoreFault)
    else if uri in store.objects && store.objects[uri] != payload then Err(ImmutableConflict)
    else Ok(store.(objects := store.objects[uri := payload]))
  }

  const WEIGHTS_DIR := "weights/"
  const RESULTS_DIR := "/materialized/"
  const RESULT_SUFFIX := ".bin"

  function MaterializedUriOf(runId: string, version: Version): Uri {
    WEIGHTS_DIR + runId + RESULTS_DIR + version + RESULT_SUFFIX
  }

  // ----- Registration and publication -----

  function AfterRegister(s: RunState, id: EngineId, current: Version): RunState {
    var engine :=
      if id in s.engines then
        if s.engines[id].current == "" && current != ""
        then s.engines[id].(current := current, lastGood := current)
        else s.engines[id]
      else Engine("", current, current, 0, NoTrouble, false);
    s.(engines := s.engines[id := engine])
  }

  /** Why a publication is turned down, if it is; a manifest whose version exists
      with the same artifact is neither turned down nor published again. */
  function PublishRefusal(s: RunState, m: Manifest, required: seq<EngineId>, timeout: int,
                          artifact: Option<Bytes>): Option<Error>
  {
    if !ValidManifest(m) then Some(InvalidManifest)
    else if timeout <= 0 then Some(InvalidTimeout)
    else if artifact.None? then Some(ArtifactUnreadable)
    else if ChecksumNamed(m, ArtifactSum) != Sha256(artifact.value) then Some(ChecksumMismatch)
    else if m.version in s.publications then
      if s.publications[m.version].artifactSha == Sha256(artifact.value) then None else Some(VersionConflict)
    else if m.format == Delta && (m.parent !in s.publications
                                  || s.publications[m.parent].phase == Failed
                                  || s.publications[m.parent].phase == GarbageCollected)
    then Some(ParentUnavailable)
    else if m.format == Delta && ChecksumNamed(m, ResultSum) == NoDigest then Some(ResultChecksumMissing)
    else if exists id :: id in required && id !in s.engines then Some(EngineNotRegistered)
    else None
  }

  function NewPublication(m: Manifest, required: set<EngineId>, deadline: Time, artifact: Bytes): Publication {
    Publication(m.(uploadComplete := true, manifestCommitted := true, verified := true),
                required, map[], Published, deadline, "", Sha256(artifact), ChecksumNamed(m, ResultSum))
  }

  function AfterPublish(s: RunState, m: Manifest, required: seq<EngineId>, timeout: int, now: Time,
                        artifact: Option<Bytes>): RunState
  {
    if PublishRefusal(s, m, required, timeout, artifact).Some? || m.version in s.publications then s
    else
      var ids := set id | id in required;
      s.(publications := s.publications[m.version := NewPublication(m, ids, now + timeout, artifact.value)],
         engines := map id | id in s.engines ::
           if id in ids then s.engines[id].(desired := m.version, draining := true) else s.engines[id])
  }

  // ----- Acknowledgement, promotion, rollback, expiry -----

  /** An acknowledgement by an engine told to return to the active version. */
  predicate IsReturnAck(s: RunState, id: EngineId, v: Version)
    requires id in s.engines
  {
    s.active == v && s.engines[id].desired == v
  }

  function AckOutcome(s: RunState, id: EngineId, v: Version, applied: Digest, now: Time): Result<bool> {
    if v !in s.publications || id !in s.engines then Err(VersionNotFound)
    else
      var p := s.publications[v];
      if IsReturnAck(s, id, v) then
        if applied != p.resultSha then Err(AppliedChecksumMismatch) else Ok(true)
      else if id !in p.required then Err(NotRequired)
      else if p.phase != Ready && p.phase != Activating then Err(NotReady)
      else if now > p.deadline then Err(DeadlineExceeded)
      else if applied != p.resultSha then Err(AppliedChecksumMismatch)
      else Ok(|p.acks[id := now]| == |p.required|)
  }

  function Activate(s: RunState, v: Version): RunState
    requires v in s.publications
  {
    var demoted :=
      if s.active in s.publications && s.active != v
      then s.publications[s.active := s.publications[s.active].(phase := Superseded)]
      else s.publications;
    var p := s.publications[v];
    s.(publications := demoted[v := p.(phase := Active)],
       engines := map id | id in s.engines ::
         if id in p.required then s.engines[id].(desired := v, draining := false) else s.engines[id],
       active := v,
       lastGood := if s.lastGood == "" then v else s.lastGood)
  }

  /** The state an accepted acknowledgement towards activation leaves, before activation. */
  function RecordAck(s: RunState, id: EngineId, v: Version, now: Time): RunState
    requires v in s.publications && id in s.engines
  {
    var p := s.publications[v];
    s.(publications := s.publications[v := p.(phase := Activating, acks := p.acks[id := now])],
       engines := s.engines[id := s.engines[id].(current := v, acknowledgedAt := now, error := NoTrouble)])
  }

  function AfterAck(s: RunState, id: EngineId, v: Version, applied: Digest, now: Time): RunState {
    var outcome := AckOutcome(s, id, v, applied, now);
    if v !in s.publications || id !in s.engines then s
    else
      var p, e := s.publications[v], s.engines[id];
      if IsReturnAck(s, id, v) then
        if outcome.Err?
        then s.(engines := s.engines[id := e.(draining := true, error := RollbackChecksumMismatch)])
        else
          s.(engines := s.engines[id := e.(current := v, draining := false, error := NoTrouble, acknowledgedAt := now)])
      else if outcome == Err(DeadlineExceeded) then
        s.(publications := s.publications[v := p.(phase := Failed)],
           engines := s.engines[id := e.(draining := true, error := AckDeadlineExceeded)])
      else if outcome == Err(AppliedChecksumMismatch) then
        s.(engines := s.engines[id := e.(draining := true, error := AckChecksumMismatch)])
      else if outcome.Err? then s
      else if outcome.value then Activate(RecordAck(s, id, v, now), v)
      else RecordAck(s, id, v, now)
  }

  function AfterMarkGood(s: RunState, v: Version): RunState {
    if s.active != v then s
    else s.(lastGood := v,
            engines := map id | id in s.engines ::
              if s.engines[id].current == v then s.engines[id].(lastGood := v) else s.engines[id])
  }

  function AfterRollback(s: RunState, reason: string): RunState {
    if s.lastGood == "" then s
    else s.(publications :=
              if s.active in s.publications
              then s.publications[s.active := s.publications[s.active].(phase := RolledBack)]
              else s.publications,
            active := s.lastGood,
            engines := map id | id in s.engines ::
              s.engines[id].(desired := s.lastGood, error := RolledBackFor(reason), draining := true))
  }

  predicate IsExpiring(p: Publication, now: Time) {
    InFlight(p.phase) && now >= p.deadline
  }

  /** One of the given versions expires without this engine's acknowledgement. */
  predicate TimedOutAmong(s: RunState, versions: set<Version>, id: EngineId, now: Time)
    requires versions <= s.publications.Keys
  {
    exists v :: v in versions && IsExpiring(s.publications[v], now)
                && id in s.publications[v].required && id !in s.publications[v].acks
  }

  predicate IsTimedOut(s: RunState, id: EngineId, now: Time) {
    TimedOutAmong(s, s.publications.Keys, id, now)
  }

  function TimedOutEngine(s: RunState, e: Engine): Engine {
    e.(draining := true, error := AckTimeout,
       desired := if s.active != "" then s.active else s.lastGood)
  }

  function AfterExpire(s: RunState, now: Time): RunState {
    s.(publications := map v | v in s.publications ::
         if IsExpiring(s.publications[v], now) then s.publications[v].(phase := Failed) else s.publications[v],
       engines := map id | id in s.engines ::
         if IsTimedOut(s, id, now) then TimedOutEngine(s, s.engines[id]) else s.engines[id])
  }
}
