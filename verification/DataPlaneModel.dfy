/** The grouped sample data plane: sample metadata with leases, and the blobs the
    metadata points at, with the effect of each operation written as a value. */
module DataPlaneModel {
  import opened StringOrder

  type Time = int

  /** The zero time, which lies before every reading of the clock. */
  const NO_TIME: Time := 0

  datatype ApiVersion = V1Alpha1 | OtherApi(text: string)

  /** A sample as producers send it.  `others` stands for the fields the data plane
      stores and never looks at (rewards, status, metadata). */
  datatype Envelope = Envelope(
    apiVersion: ApiVersion, tenant: string, project: string, run: string,
    attempt: string, rollout: string, group: string, sampleId: string,
    promptTokens: seq<int>, responseTokens: seq<int>, responseStart: int,
    lossMask: seq<real>, logProbs: seq<real>,
    policyVersion: string, environmentVersion: string, generatedAt: Time, others: string)

  predicate ValidEnvelope(e: Envelope, maxTokens: int) {
    && e.apiVersion == V1Alpha1 && e.tenant != "" && e.project != "" && e.run != ""
    && e.attempt != "" && e.rollout != "" && e.group != "" && e.sampleId != ""
    && e.policyVersion != "" && e.environmentVersion != "" && e.generatedAt != NO_TIME
    && 0 < |e.promptTokens| + |e.responseTokens| <= maxTokens
    && e.responseStart == |e.promptTokens|
    && |e.lossMask| == |e.responseTokens|
    && (|e.logProbs| != 0 ==> |e.logProbs| == |e.responseTokens|)
  }

  /** Stored bytes: the JSON text of a sample, or text that is none. */
  datatype Raw = Encoded(sample: Envelope) | Undecodable(text: string)

  datatype Digest = Sha256(raw: Raw)

  /** The key <folder><checksum>.json.  A checksum is 64 characters long, so a key
      determines both parts. */
  datatype BlobKey = BlobKey(folder: string, checksum: Digest)

  const SAMPLES_DIR := "samples/"

  function BlobKeyOf(e: Envelope): BlobKey {
    BlobKey(SAMPLES_DIR + e.tenant + "/" + e.run + "/" + e.group + "-", Sha256(Encoded(e)))
  }

  function SampleKey(tenant: string, run: string, sampleId: string): string {
    tenant + ['\0'] + run + ['\0'] + sampleId
  }

  datatype SampleState = Available | Leased | Consumed | Quarantined

  datatype Record = Record(
    tenant: string, project: string, sampleId: string, run: string, group: string,
    policyVersion: string, blobKey: BlobKey, checksum: Digest, state: SampleState,
    createdAt: Time, expiresAt: Time, leaseId: string, leaseOwner: string, leaseExpiresAt: Time)

  datatype Blobs = Blobs(data: map<BlobKey, Raw>, checksums: map<BlobKey, Digest>)

  datatype Plane = Plane(samples: map<string, Record>, blobs: Blobs)

  datatype Config = Config(maxTokens: int, highWatermark: int, retention: int)

  datatype Error =
    | InvalidSample | Backpressure | DuplicateConflict | InvalidClaim | NoCompleteGroup
    | LeaseLost | BlobUnreadable | SampleMalformed | BlobDeleteFailed

  datatype Result<+T> = Ok(value: T) | Err(error: Error)

  // ----- Put -----

  function NewRecord(e: Envelope, now: Time, retention: int): Record {
    Record(e.tenant, e.project, e.sampleId, e.run, e.group, e.policyVersion, BlobKeyOf(e), Sha256(Encoded(e)),
           Available, now, now + retention, "", "", NO_TIME)
  }

  predicate IsAvailable(r: Record, tenant: string, run: string) {
    r.tenant == tenant && r.run == run && r.state == Available
  }

  function AvailableGroups(samples: map<string, Record>, tenant: string, run: string): set<string> {
    set k | k in samples && IsAvailable(samples[k], tenant, run) :: samples[k].group
  }

  function PutIfAbsent(blobs: Blobs, key: BlobKey, raw: Raw, checksum: Digest): Result<Blobs> {
    if key in blobs.checksums && blobs.checksums[key] != checksum then Err(DuplicateConflict)
    else if key in blobs.data then Ok(blobs)
    else Ok(Blobs(blobs.data[key := raw], blobs.checksums[key := checksum]))
  }

  function PutBlob(blobs: Blobs, e: Envelope): Result<Blobs> {
    PutIfAbsent(blobs, BlobKeyOf(e), Encoded(e), Sha256(Encoded(e)))
  }

  /** The record now stored for the sample, and whether this call stored it. */
  function PutOutcome(cfg: Config, p: Plane, e: Envelope, now: Time): Result<(Record, bool)> {
    if !ValidEnvelope(e, cfg.maxTokens) then Err(InvalidSample)
    else if |AvailableGroups(p.samples, e.tenant, e.run)| >= cfg.highWatermark then Err(Backpressure)
    else if PutBlob(p.blobs, e).Err? then Err(DuplicateConflict)
    else
      var key := SampleKey(e.tenant, e.run, e.sampleId);
      if key !in p.samples then Ok((NewRecord(e, now, cfg.retention), true))
      else if p.samples[key].checksum != Sha256(Encoded(e)) then Err(DuplicateConflict)
      else Ok((p.samples[key], false))
  }

  function AfterPut(cfg: Config, p: Plane, e: Envelope, now: Time): Plane {
    if !ValidEnvelope(e, cfg.maxTokens) || |AvailableGroups(p.samples, e.tenant, e.run)| >= cfg.highWatermark
       || PutBlob(p.blobs, e).Err? then p
    else
      var key := SampleKey(e.tenant, e.run, e.sampleId);
      Plane(if key in p.samples then p.samples else p.samples[key := NewRecord(e, now, cfg.retention)],
            PutBlob(p.blobs, e).value)
  }

  // ----- Leases -----

  function GroupKeys(samples: map<string, Record>, tenant: string, run: string, group: string): set<string> {
    set k | k in samples && IsAvailable(samples[k], tenant, run) && samples[k].group == group
  }

  function CompleteGroups(samples: map<string, Record>, tenant: string, run: string, expected: int): set<string> {
    set g | g in AvailableGroups(samples, tenant, run) && |GroupKeys(samples, tenant, run, g)| == expected
  }

  function LeaseTo(r: Record, leaseId: string, owner: string, expires: Time): Record {
    r.(state := Leased, leaseId := leaseId, leaseOwner := owner, leaseExpiresAt := expires)
  }

  function AfterLease(samples: map<string, Record>, keys: set<string>, leaseId: string, owner: string, expires: Time)
    : map<string, Record>
  {
    map k | k in samples :: if k in keys then LeaseTo(samples[k], leaseId, owner, expires) else samples[k]
  }

  datatype Reason = BlobReadFailed | MalformedSample | OtherReason(text: string)

  /** How a lease ends. */
  datatype Finish = Acked | Nacked(reason: Reason)

  function FinalState(finish: Finish): SampleState {
    match finish
    case Acked => Consumed
    case Nacked(MalformedSample) => Quarantined
    case Nacked(OtherReason(text)) => if "quarantine:" <= text then Quarantined else Available
    case Nacked(BlobReadFailed) => Available
  }

  function Release(r: Record, state: SampleState): Record {
    r.(state := state, leaseId := "", leaseOwner := "", leaseExpiresAt := NO_TIME)
  }

  function Holders(samples: map<string, Record>, leaseId: string): set<string> {
    set k | k in samples && samples[k].leaseId == leaseId
  }

  /** The caller has lost its hold on this record. */
  predicate IsLost(r: Record, owner: string, now: Time) {
    r.leaseOwner != owner || now > r.leaseExpiresAt
  }

  predicate FinishFails(samples: map<string, Record>, leaseId: string, owner: string, now: Time) {
    || Holders(samples, leaseId) == {}
    || exists k :: k in Holders(samples, leaseId) && IsLost(samples[k], owner, now)
  }

  function ReleaseLease(samples: map<string, Record>, leaseId: string, state: SampleState): map<string, Record> {
    map k | k in samples :: if samples[k].leaseId == leaseId then Release(samples[k], state) else samples[k]
  }

  function AfterFinish(samples: map<string, Record>, leaseId: string, owner: string, finish: Finish, now: Time)
    : map<string, Record>
  {
    if FinishFails(samples, leaseId, owner, now) then samples else ReleaseLease(samples, leaseId, FinalState(finish))
  }

  // ----- Claim -----

  /** The keys of a group by rising sample identifier. */
  ghost predicate BySample(samples: map<string, Record>, keys: set<string>, order: seq<string>) {
    && keys <= samples.Keys
    && (forall k :: k in order <==> k in keys)
    && (forall i, j :: 0 <= i < j < |order| ==> Less(samples[order[i]].sampleId, samples[order[j]].sampleId))
  }

  datatype ReadBack = Payloads(samples: seq<Envelope>) | Trouble(reason: Reason)

  /** Reading, decoding and validating the samples of a lease in order, up to the first that fails. */
  function ReadSamples(cfg: Config, p: Plane, unreadable: set<BlobKey>, order: seq<string>): ReadBack
    requires forall k :: k in order ==> k in p.samples
  {
    if order == [] then Payloads([])
    else
      var key := p.samples[order[0]].blobKey;
      if key !in p.blobs.data || key in unreadable then Trouble(BlobReadFailed)
      else
        var raw := p.blobs.data[key];
        if raw.Undecodable? || !ValidEnvelope(raw.sample, cfg.maxTokens) then Trouble(MalformedSample)
        else
          var rest := ReadSamples(cfg, p, unreadable, order[1..]);
          if rest.Trouble? then rest else Payloads([raw.sample] + rest.samples)
  }

  // ----- Sweep -----

  predicate LeaseEnded(r: Record, now: Time) {
    r.state == Leased && r.leaseExpiresAt <= now
  }

  predicate Outlived(r: Record, now: Time) {
    r.state != Leased && r.expiresAt <= now
  }

  function AfterRelease(samples: map<string, Record>, now: Time): map<string, Record> {
    map k | k in samples :: if LeaseEnded(samples[k], now) then Release(samples[k], Available) else samples[k]
  }

  function OutlivedKeys(samples: map<string, Record>, now: Time): set<string> {
    set k | k in samples && Outlived(samples[k], now)
  }

  function BlobKeysOf(samples: map<string, Record>, keys: set<string>): set<BlobKey>
    requires keys <= samples.Keys
  {
    set k | k in keys :: samples[k].blobKey
  }

  function DeleteBlobs(blobs: Blobs, keys: set<BlobKey>): Blobs {
    Blobs(blobs.data - keys, blobs.checksums - keys)
  }
}
