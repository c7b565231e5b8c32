/** What every run of the data plane keeps: leases stay whole, settled samples stay
    settled, and metadata and blobs agree. */
module DataPlaneProtocol {
  import opened StringOrder
  import opened DataPlaneModel

  /** What a successful claim took, kept for as long as the run lasts. */
  datatype Claimed = Claimed(
    keys: set<string>, tenant: string, run: string, group: string, owner: string, expires: Time)

  /** Every lease ever granted.  The program keeps no such book; it is the history
      against which the lease fields of the records are read. */
  type Ledger = map<string, Claimed>

  /** A claim reads the clock when it takes its lease, and again should it hand it back. */
  datatype Event =
    | Put(sample: Envelope, now: Time)
    | Claim(tenant: string, run: string, expected: int, owner: string, duration: int, leaseId: string,
            now: Time, returned: Time, unreadable: set<BlobKey>)
    | Finish(leaseId: string, owner: string, finish: DataPlaneModel.Finish, now: Time)
    | Sweep(now: Time, undeletable: set<BlobKey>)

  predicate ValidClaim(tenant: string, run: string, expected: int, owner: string, duration: int) {
    tenant != "" && run != "" && expected > 0 && owner != "" && duration > 0
  }

  function ClaimedBy(p: Plane, e: Event, group: string): Claimed
    requires e.Claim?
  {
    Claimed(GroupKeys(p.samples, e.tenant, e.run, group), e.tenant, e.run, group, e.owner, e.now + e.duration)
  }

  function Lend(p: Plane, leaseId: string, c: Claimed): Plane {
    p.(samples := AfterLease(p.samples, c.keys, leaseId, c.owner, c.expires))
  }

  /** A claim that found a complete group: it leases the least one and reads it back;
      a sample that cannot be read or decoded ends the lease at once. */
  ghost predicate Claims(cfg: Config, p: Plane, l: Ledger, e: Event, group: string, order: seq<string>, p': Plane,
                         l': Ledger)
    requires e.Claim?
  {
    var c := ClaimedBy(p, e, group);
    var leased := Lend(p, e.leaseId, c);
    && IsLeast(CompleteGroups(p.samples, e.tenant, e.run, e.expected), group)
    && BySample(p.samples, c.keys, order)
    && l' == l[e.leaseId := c]
    && p' == Settle(leased, e, ReadSamples(cfg, leased, e.unreadable, order))
  }

  function Settle(leased: Plane, e: Event, back: ReadBack): Plane
    requires e.Claim?
  {
    match back
    case Payloads(_) => leased
    case Trouble(reason) =>
      leased.(samples := AfterFinish(leased.samples, e.leaseId, e.owner, Nacked(reason), e.returned))
  }

  /** Records past their retention go first; a failed blob delete leaves the remaining blobs behind. */
  ghost predicate Sweeps(p: Plane, now: Time, p': Plane) {
    var released := AfterRelease(p.samples, now);
    var gone := OutlivedKeys(released, now);
    && p'.samples == released - gone
    && exists blobKeys :: blobKeys <= BlobKeysOf(released, gone) && p'.blobs == DeleteBlobs(p.blobs, blobKeys)
  }

  ghost predicate Next(cfg: Config, p: Plane, l: Ledger, e: Event, p': Plane, l': Ledger) {
    match e
    case Put(sample, now) => p' == AfterPut(cfg, p, sample, now) && l' == l
    case Claim(tenant, run, expected, owner, duration, leaseId, now, returned, unreadable) =>
      && leaseId != "" && leaseId !in l && NO_TIME < now <= returned
      && if !ValidClaim(tenant, run, expected, owner, duration)
            || CompleteGroups(p.samples, tenant, run, expected) == {}
         then p' == p && l' == l
         else exists group, order :: Claims(cfg, p, l, e, group, order, p', l')
    case Finish(leaseId, owner, finish, now) =>
      now > NO_TIME && p' == p.(samples := AfterFinish(p.samples, leaseId, owner, finish, now)) && l' == l
    case Sweep(now, undeletable) => Sweeps(p, now, p') && l' == l
  }

  const EMPTY := Plane(map[], Blobs(map[], map[]))

  ghost predicate IsRun(cfg: Config, planes: seq<Plane>, ledgers: seq<Ledger>, events: seq<Event>) {
    && |planes| == |ledgers| == |events| + 1
    && planes[0] == EMPTY && ledgers[0] == map[]
    && forall i :: 0 <= i < |events| ==> Next(cfg, planes[i], ledgers[i], events[i], planes[i + 1], ledgers[i + 1])
  }

  // ----- The invariant -----

  /** The sample a record stands for. */
  predicate StandsFor(k: string, r: Record, e: Envelope) {
    && k == SampleKey(e.tenant, e.run, e.sampleId)
    && r.tenant == e.tenant && r.project == e.project && r.run == e.run && r.group == e.group
    && r.sampleId == e.sampleId && r.policyVersion == e.policyVersion
    && r.blobKey == BlobKeyOf(e) && r.checksum == Sha256(Encoded(e))
  }

  predicate RecordOk(cfg: Config, k: string, r: Record) {
    && r.checksum.raw.Encoded?
    && StandsFor(k, r, r.checksum.raw.sample)
    && ValidEnvelope(r.checksum.raw.sample, cfg.maxTokens)
  }

  predicate BlobPresent(blobs: Blobs, r: Record) {
    r.blobKey in blobs.data && blobs.data[r.blobKey] == r.checksum.raw
  }

  predicate BlobsOk(blobs: Blobs) {
    && blobs.data.Keys == blobs.checksums.Keys
    && forall key :: key in blobs.data ==>
         key.checksum == Sha256(blobs.data[key]) && blobs.checksums[key] == key.checksum
  }

  predicate LeaseOk(l: Ledger, k: string, r: Record) {
    if r.state == Leased then
      && r.leaseId != "" && r.leaseId in l && k in l[r.leaseId].keys
      && r.tenant == l[r.leaseId].tenant && r.run == l[r.leaseId].run && r.group == l[r.leaseId].group
      && r.leaseOwner == l[r.leaseId].owner && r.leaseExpiresAt == l[r.leaseId].expires
    else
      r.leaseId == "" && r.leaseOwner == "" && r.leaseExpiresAt == NO_TIME
  }

  /** The records under a lease are all those it was granted for, or none. */
  predicate IsWhole(samples: map<string, Record>, l: Ledger, leaseId: string)
    requires leaseId in l
  {
    Holders(samples, leaseId) == l[leaseId].keys || Holders(samples, leaseId) == {}
  }

  predicate SampleOk(cfg: Config, blobs: Blobs, l: Ledger, k: string, r: Record) {
    RecordOk(cfg, k, r) && BlobPresent(blobs, r) && LeaseOk(l, k, r)
  }

  ghost predicate Inv(cfg: Config, p: Plane, l: Ledger) {
    && BlobsOk(p.blobs)
    && "" !in l
    && (forall k :: k in p.samples ==>
          SampleOk(cfg, p.blobs, l, k, p.samples[k]))
    && (forall id :: id in l ==> IsWhole(p.samples, l, id))
  }

  // ----- Put -----

  lemma PutBlobWorks(blobs: Blobs, e: Envelope)
    requires BlobsOk(blobs)
    ensures PutBlob(blobs, e).Ok?
    ensures var blobs' := PutBlob(blobs, e).value;
            && BlobsOk(blobs') && BlobKeyOf(e) in blobs'.data && blobs'.data[BlobKeyOf(e)] == Encoded(e)
            && forall key :: key in blobs.data ==> key in blobs'.data && blobs'.data[key] == blobs.data[key]
  {
  }

  lemma PutSample(cfg: Config, p: Plane, l: Ledger, e: Envelope, now: Time, k: string)
    requires BlobsOk(p.blobs) && k in AfterPut(cfg, p, e, now).samples
    requires k in p.samples ==> SampleOk(cfg, p.blobs, l, k, p.samples[k])
    ensures SampleOk(cfg, AfterPut(cfg, p, e, now).blobs, l, k, AfterPut(cfg, p, e, now).samples[k])
  {
    PutBlobWorks(p.blobs, e);
    if k !in p.samples {
      assert RecordOk(cfg, k, NewRecord(e, now, cfg.retention));
    }
  }

  lemma PutHolders(cfg: Config, p: Plane, e: Envelope, now: Time, id: string)
    requires id != ""
    ensures Holders(AfterPut(cfg, p, e, now).samples, id) == Holders(p.samples, id)
  {
  }

  lemma PutKeepsInv(cfg: Config, p: Plane, l: Ledger, e: Envelope, now: Time)
    requires Inv(cfg, p, l)
    ensures Inv(cfg, AfterPut(cfg, p, e, now), l)
  {
    var p' := AfterPut(cfg, p, e, now);
    assert BlobsOk(p'.blobs) by {
      PutBlobWorks(p.blobs, e);
    }
    forall k | k in p'.samples ensures SampleOk(cfg, p'.blobs, l, k, p'.samples[k]) {
      PutSample(cfg, p, l, e, now, k);
    }
    forall id | id in l ensures IsWhole(p'.samples, l, id) {
      PutHolders(cfg, p, e, now, id);
      assert IsWhole(p.samples, l, id);
    }
  }

  // ----- Finishing a lease -----

  /** The caller's hold is lost on all records under a lease or on none of them. */
  lemma LossIsUniform(l: Ledger, samples: map<string, Record>, leaseId: string, owner: string, now: Time, j: string,
                      k: string)
    requires j in samples && k in samples && LeaseOk(l, j, samples[j]) && LeaseOk(l, k, samples[k])
    requires samples[j].leaseId == leaseId && samples[k].leaseId == leaseId && now > NO_TIME
    ensures IsLost(samples[j], owner, now) == IsLost(samples[k], owner, now)
    ensures leaseId == "" ==> IsLost(samples[j], owner, now)
  {
  }

  lemma FinishNeedsLease(cfg: Config, p: Plane, l: Ledger, leaseId: string, owner: string, now: Time)
    requires Inv(cfg, p, l) && now > NO_TIME && !FinishFails(p.samples, leaseId, owner, now)
    ensures leaseId in l && Holders(p.samples, leaseId) == l[leaseId].keys
  {
    var k :| k in Holders(p.samples, leaseId);
    assert SampleOk(cfg, p.blobs, l, k, p.samples[k]);
    LossIsUniform(l, p.samples, leaseId, owner, now, k, k);
    assert IsWhole(p.samples, l, leaseId);
  }

  lemma ReleaseHolders(samples: map<string, Record>, leaseId: string, state: SampleState, id: string)
    requires id != "" && leaseId != ""
    ensures Holders(ReleaseLease(samples, leaseId, state), id) == if id == leaseId then {} else Holders(samples, id)
  {
  }

  lemma ReleaseLeaseKeepsInv(cfg: Config, p: Plane, l: Ledger, leaseId: string, state: SampleState)
    requires Inv(cfg, p, l) && leaseId in l && state != Leased
    ensures Inv(cfg, p.(samples := ReleaseLease(p.samples, leaseId, state)), l)
  {
    var samples := ReleaseLease(p.samples, leaseId, state);
    forall k | k in samples ensures SampleOk(cfg, p.blobs, l, k, samples[k]) {
      assert SampleOk(cfg, p.blobs, l, k, p.samples[k]);
    }
    forall id | id in l ensures IsWhole(samples, l, id) {
      assert IsWhole(p.samples, l, id);
      ReleaseHolders(p.samples, leaseId, state, id);
    }
  }

  lemma FinishKeepsInv(cfg: Config, p: Plane, l: Ledger, leaseId: string, owner: string, finish: Finish, now: Time)
    requires Inv(cfg, p, l) && now > NO_TIME
    ensures Inv(cfg, p.(samples := AfterFinish(p.samples, leaseId, owner, finish, now)), l)
  {
    if !FinishFails(p.samples, leaseId, owner, now) {
      FinishNeedsLease(cfg, p, l, leaseId, owner, now);
      ReleaseLeaseKeepsInv(cfg, p, l, leaseId, FinalState(finish));
    }
  }

  // ----- Claiming -----

  lemma LentSample(cfg: Config, p: Plane, l: Ledger, leaseId: string, c: Claimed, k: string)
    requires k in p.samples && SampleOk(cfg, p.blobs, l, k, p.samples[k])
    requires leaseId != "" && leaseId !in l && c.keys == GroupKeys(p.samples, c.tenant, c.run, c.group)
    ensures SampleOk(cfg, p.blobs, l[leaseId := c], k, Lend(p, leaseId, c).samples[k])
    ensures Lend(p, leaseId, c).samples[k].leaseId == if k in c.keys then leaseId else p.samples[k].leaseId
    ensures p.samples[k].leaseId != leaseId && (k in c.keys ==> p.samples[k].leaseId == "")
  {
  }

  lemma LentHolders(cfg: Config, p: Plane, l: Ledger, leaseId: string, c: Claimed, id: string)
    requires Inv(cfg, p, l) && leaseId != "" && leaseId !in l && id in l[leaseId := c]
    requires c.keys == GroupKeys(p.samples, c.tenant, c.run, c.group)
    ensures Holders(Lend(p, leaseId, c).samples, id) == if id == leaseId then c.keys else Holders(p.samples, id)
  {
    var leased := Lend(p, leaseId, c).samples;
    forall k | k in p.samples
      ensures leased[k].leaseId == id <==> (if id == leaseId then k in c.keys else p.samples[k].leaseId == id)
    {
      LentSample(cfg, p, l, leaseId, c, k);
    }
  }

  lemma LeaseKeepsInv(cfg: Config, p: Plane, l: Ledger, leaseId: string, c: Claimed)
    requires Inv(cfg, p, l) && leaseId != "" && leaseId !in l
    requires c.keys == GroupKeys(p.samples, c.tenant, c.run, c.group)
    ensures Inv(cfg, Lend(p, leaseId, c), l[leaseId := c])
  {
    var p', l' := Lend(p, leaseId, c), l[leaseId := c];
    forall k | k in p'.samples ensures SampleOk(cfg, p'.blobs, l', k, p'.samples[k]) {
      LentSample(cfg, p, l, leaseId, c, k);
    }
    forall id | id in l' ensures IsWhole(p'.samples, l', id) {
      LentHolders(cfg, p, l, leaseId, c, id);
      assert id in l ==> IsWhole(p.samples, l, id);
    }
  }

  /** The sample a stored record was made from. */
  function StoredSample(r: Record): Envelope
    requires r.checksum.raw.Encoded?
  {
    r.checksum.raw.sample
  }

  predicate AllStored(cfg: Config, p: Plane, order: seq<string>) {
    forall k :: k in order ==> k in p.samples && RecordOk(cfg, k, p.samples[k]) && BlobPresent(p.blobs, p.samples[k])
  }

  predicate AllReadable(p: Plane, unreadable: set<BlobKey>, order: seq<string>)
    requires forall k :: k in order ==> k in p.samples
  {
    forall k :: k in order ==> p.samples[k].blobKey !in unreadable
  }

  function StoredSamples(cfg: Config, p: Plane, order: seq<string>): seq<Envelope>
    requires AllStored(cfg, p, order)
  {
    seq(|order|, i requires 0 <= i < |order| => assert order[i] in order; StoredSample(p.samples[order[i]]))
  }

  /** Reading back stored samples returns the very samples that were put, unless a blob
      cannot be read; it never finds one malformed. */
  lemma {:induction false} StoredSamplesReadBack(cfg: Config, p: Plane, unreadable: set<BlobKey>, order: seq<string>)
    requires AllStored(cfg, p, order)
    ensures ReadSamples(cfg, p, unreadable, order) ==
            if AllReadable(p, unreadable, order) then Payloads(StoredSamples(cfg, p, order))
            else Trouble(BlobReadFailed)
  {
    if order == [] {
      assert StoredSamples(cfg, p, order) == [];
    } else {
      FirstAndRest(cfg, p, unreadable, order);
      StoredSamplesReadBack(cfg, p, unreadable, order[1..]);
    }
  }

  lemma FirstAndRest(cfg: Config, p: Plane, unreadable: set<BlobKey>, order: seq<string>)
    requires AllStored(cfg, p, order) && order != []
    ensures order[0] in order && AllStored(cfg, p, order[1..])
    ensures AllReadable(p, unreadable, order) <==>
              p.samples[order[0]].blobKey !in unreadable && AllReadable(p, unreadable, order[1..])
    ensures StoredSamples(cfg, p, order) == [StoredSample(p.samples[order[0]])] + StoredSamples(cfg, p, order[1..])
  {
    var first, rest := order[0], order[1..];
    assert order == [first] + rest && first in order;
    forall k | k in rest ensures k in order {
    }
  }

  lemma SettleKeepsInv(cfg: Config, leased: Plane, l: Ledger, e: Event, back: ReadBack)
    requires Inv(cfg, leased, l) && e.Claim? && e.returned > NO_TIME
    ensures Inv(cfg, Settle(leased, e, back), l)
  {
    match back
    case Payloads(_) =>
    case Trouble(reason) => FinishKeepsInv(cfg, leased, l, e.leaseId, e.owner, Nacked(reason), e.returned);
  }

  lemma ClaimKeepsInv(cfg: Config, p: Plane, l: Ledger, e: Event, group: string, order: seq<string>, p': Plane,
                      l': Ledger)
    requires Inv(cfg, p, l) && e.Claim? && e.leaseId != "" && e.leaseId !in l && e.returned > NO_TIME
    requires Claims(cfg, p, l, e, group, order, p', l')
    ensures Inv(cfg, p', l')
  {
    var c := ClaimedBy(p, e, group);
    LeaseKeepsInv(cfg, p, l, e.leaseId, c);
    SettleKeepsInv(cfg, Lend(p, e.leaseId, c), l[e.leaseId := c], e,
                   ReadSamples(cfg, Lend(p, e.leaseId, c), e.unreadable, order));
  }

  // ----- Sweeping -----

  lemma ReleaseExpiredKeepsInv(cfg: Config, p: Plane, l: Ledger, now: Time)
    requires Inv(cfg, p, l)
    ensures Inv(cfg, p.(samples := AfterRelease(p.samples, now)), l)
  {
    var samples := AfterRelease(p.samples, now);
    forall k | k in samples ensures SampleOk(cfg, p.blobs, l, k, samples[k]) {
      assert SampleOk(cfg, p.blobs, l, k, p.samples[k]);
    }
    forall id | id in l ensures IsWhole(samples, l, id) {
      assert IsWhole(p.samples, l, id);
      ExpiryIsUniform(cfg, p, l, now, id);
    }
  }

  /** Expiry releases all records under a lease or none. */
  lemma ExpiryIsUniform(cfg: Config, p: Plane, l: Ledger, now: Time, id: string)
    requires Inv(cfg, p, l) && id in l
    ensures Holders(AfterRelease(p.samples, now), id) == if l[id].expires <= now then {} else Holders(p.samples, id)
  {
    forall k | k in p.samples
      ensures AfterRelease(p.samples, now)[k].leaseId == id <==> p.samples[k].leaseId == id && !(l[id].expires <= now)
    {
      assert SampleOk(cfg, p.blobs, l, k, p.samples[k]);
    }
  }

  lemma DeleteKeepsInv(cfg: Config, p: Plane, l: Ledger, now: Time, blobKeys: set<BlobKey>)
    requires Inv(cfg, p, l) && blobKeys <= BlobKeysOf(p.samples, OutlivedKeys(p.samples, now))
    ensures Inv(cfg, Plane(p.samples - OutlivedKeys(p.samples, now), DeleteBlobs(p.blobs, blobKeys)), l)
  {
    var gone := OutlivedKeys(p.samples, now);
    var p' := Plane(p.samples - gone, DeleteBlobs(p.blobs, blobKeys));
    assert BlobsOk(p'.blobs);
    forall k | k in p'.samples ensures SampleOk(cfg, p'.blobs, l, k, p'.samples[k]) {
      assert SampleOk(cfg, p.blobs, l, k, p.samples[k]);
      KeptBlob(cfg, p, l, gone, blobKeys, k);
    }
    forall id | id in l ensures IsWhole(p'.samples, l, id) {
      assert IsWhole(p.samples, l, id);
      forall k | k in p.samples && p.samples[k].leaseId == id ensures k in p'.samples {
        assert SampleOk(cfg, p.blobs, l, k, p.samples[k]);
      }
      assert Holders(p'.samples, id) == Holders(p.samples, id);
    }
  }

  lemma KeptBlob(cfg: Config, p: Plane, l: Ledger, gone: set<string>, blobKeys: set<BlobKey>, k: string)
    requires Inv(cfg, p, l) && gone <= p.samples.Keys && blobKeys <= BlobKeysOf(p.samples, gone)
    requires k in p.samples && k !in gone
    ensures p.samples[k].blobKey !in blobKeys
  {
    assert SampleOk(cfg, p.blobs, l, k, p.samples[k]);
    forall j | j in gone ensures p.samples[j].blobKey != p.samples[k].blobKey {
      assert SampleOk(cfg, p.blobs, l, j, p.samples[j]);
    }
  }

  lemma SweepKeepsInv(cfg: Config, p: Plane, l: Ledger, now: Time, p': Plane)
    requires Inv(cfg, p, l) && Sweeps(p, now, p')
    ensures Inv(cfg, p', l)
  {
    var released := p.(samples := AfterRelease(p.samples, now));
    ReleaseExpiredKeepsInv(cfg, p, l, now);
    var gone := OutlivedKeys(released.samples, now);
    var blobKeys :| blobKeys <= BlobKeysOf(released.samples, gone) && p'.blobs == DeleteBlobs(p.blobs, blobKeys);
    DeleteKeepsInv(cfg, released, l, now, blobKeys);
  }

  // ----- Every state of every run -----

  lemma StepKeepsInv(cfg: Config, p: Plane, l: Ledger, e: Event, p': Plane, l': Ledger)
    requires Inv(cfg, p, l) && Next(cfg, p, l, e, p', l')
    ensures Inv(cfg, p', l')
  {
    match e
    case Put(sample, now) => PutKeepsInv(cfg, p, l, sample, now);
    case Claim(tenant, run, expected, owner, duration, leaseId, now, returned, unreadable) =>
      if ValidClaim(tenant, run, expected, owner, duration) && CompleteGroups(p.samples, tenant, run, expected) != {} {
        var group, order :| Claims(cfg, p, l, e, group, order, p', l');
        ClaimKeepsInv(cfg, p, l, e, group, order, p', l');
      }
    case Finish(leaseId, owner, finish, now) => FinishKeepsInv(cfg, p, l, leaseId, owner, finish, now);
    case Sweep(now, undeletable) => SweepKeepsInv(cfg, p, l, now, p');
  }

  lemma {:induction false} RunKeepsInv(cfg: Config, planes: seq<Plane>, ledgers: seq<Ledger>, events: seq<Event>,
                                       n: nat)
    requires IsRun(cfg, planes, ledgers, events) && n < |planes|
    ensures Inv(cfg, planes[n], ledgers[n])
  {
    if n > 0 {
      RunKeepsInv(cfg, planes, ledgers, events, n - 1);
      StepKeepsInv(cfg, planes[n - 1], ledgers[n - 1], events[n - 1], planes[n], ledgers[n]);
    }
  }

  // ----- Leases stay whole -----

  /** Where a lease in the book came from: event i granted it, for a complete group. */
  ghost predicate GrantedAt(planes: seq<Plane>, events: seq<Event>, id: string, c: Claimed, i: nat)
    requires |planes| == |events| + 1
  {
    && i < |events| && events[i].Claim? && events[i].leaseId == id
    && c == ClaimedBy(planes[i], events[i], c.group) && |c.keys| == events[i].expected
  }

  lemma {:induction false} LeaseHistory(cfg: Config, planes: seq<Plane>, ledgers: seq<Ledger>, events: seq<Event>,
                                        n: nat, id: string) returns (i: nat)
    requires IsRun(cfg, planes, ledgers, events) && n < |planes| && id in ledgers[n]
    ensures i < n && GrantedAt(planes, events, id, ledgers[n][id], i)
  {
    if n == 0 {
      assert false;
    } else {
      assert Next(cfg, planes[n - 1], ledgers[n - 1], events[n - 1], planes[n], ledgers[n]);
      if id in ledgers[n - 1] {
        i := LeaseHistory(cfg, planes, ledgers, events, n - 1, id);
      } else {
        i := n - 1;
      }
    }
  }

  /** In every reachable state the records carrying a lease are exactly those that one
      earlier claim was granted: the whole available group, of the size asked for, under
      one tenant, run, group, owner and expiry. */
  lemma LeasesAreWhole(cfg: Config, planes: seq<Plane>, ledgers: seq<Ledger>, events: seq<Event>, n: nat, k: string)
    returns (i: nat, group: string)
    requires IsRun(cfg, planes, ledgers, events) && n < |planes|
    requires k in planes[n].samples && planes[n].samples[k].leaseId != ""
    ensures i < n && events[i].Claim? && events[i].leaseId == planes[n].samples[k].leaseId
    ensures Holders(planes[n].samples, events[i].leaseId) ==
              GroupKeys(planes[i].samples, events[i].tenant, events[i].run, group)
    ensures |Holders(planes[n].samples, events[i].leaseId)| == events[i].expected
    ensures forall j :: j in Holders(planes[n].samples, events[i].leaseId) ==>
              var r := planes[n].samples[j];
              && r.state == Leased && r.tenant == events[i].tenant && r.run == events[i].run && r.group == group
              && r.leaseOwner == events[i].owner && r.leaseExpiresAt == events[i].now + events[i].duration
  {
    var p, l, id := planes[n], ledgers[n], planes[n].samples[k].leaseId;
    RunKeepsInv(cfg, planes, ledgers, events, n);
    assert SampleOk(cfg, p.blobs, l, k, p.samples[k]);
    i := LeaseHistory(cfg, planes, ledgers, events, n, id);
    group := l[id].group;
    assert IsWhole(p.samples, l, id) && k in Holders(p.samples, id);
    forall j | j in Holders(p.samples, id)
      ensures SampleOk(cfg, p.blobs, l, j, p.samples[j]) && p.samples[j].state == Leased
    {
    }
  }

  /** A record that is consumed or quarantined. */
  predicate IsSettled(r: Record) {
    r.state == Consumed || r.state == Quarantined
  }

  /** All that one step can do to a record it does not delete. */
  predicate Moves(e: Event, r: Record, r': Record) {
    || r' == r
    || (e.Claim? && r.state == Available && r' == LeaseTo(r, e.leaseId, e.owner, e.now + e.duration))
    || (e.Finish? && r.state == Leased && r.leaseId == e.leaseId && r' == Release(r, FinalState(e.finish)))
    || (e.Sweep? && LeaseEnded(r, e.now) && r' == Release(r, Available))
  }

  lemma OrderIsStored(cfg: Config, p: Plane, l: Ledger, order: seq<string>)
    requires Inv(cfg, p, l) && forall k :: k in order ==> k in p.samples
    ensures AllStored(cfg, p, order)
  {
    forall k | k in order ensures SampleOk(cfg, p.blobs, l, k, p.samples[k]) {
    }
  }

  /** What a claim reads back once it has leased a group: the samples that were put,
      in order, or a blob that cannot be read. */
  lemma ClaimReadsBack(cfg: Config, p: Plane, l: Ledger, e: Event, group: string, order: seq<string>)
    requires Inv(cfg, p, l) && e.Claim? && e.leaseId != "" && e.leaseId !in l
    requires BySample(p.samples, ClaimedBy(p, e, group).keys, order)
    ensures AllStored(cfg, Lend(p, e.leaseId, ClaimedBy(p, e, group)), order)
    ensures var leased := Lend(p, e.leaseId, ClaimedBy(p, e, group));
            ReadSamples(cfg, leased, e.unreadable, order) ==
            if AllReadable(leased, e.unreadable, order) then Payloads(StoredSamples(cfg, leased, order))
            else Trouble(BlobReadFailed)
  {
    var c := ClaimedBy(p, e, group);
    LeaseKeepsInv(cfg, p, l, e.leaseId, c);
    OrderIsStored(cfg, Lend(p, e.leaseId, c), l[e.leaseId := c], order);
    StoredSamplesReadBack(cfg, Lend(p, e.leaseId, c), e.unreadable, order);
  }

  /** Giving a lease back before it ends leaves no trace; after that it has no effect. */
  lemma LendAndReturn(cfg: Config, p: Plane, l: Ledger, e: Event, c: Claimed)
    requires Inv(cfg, p, l) && e.Claim? && e.leaseId != "" && e.leaseId !in l
    requires c.keys == GroupKeys(p.samples, c.tenant, c.run, c.group) && c.keys != {}
    requires c.owner == e.owner && c.expires == e.now + e.duration
    ensures Settle(Lend(p, e.leaseId, c), e, Trouble(BlobReadFailed)) ==
            if e.returned <= c.expires then p else Lend(p, e.leaseId, c)
  {
    var leased := Lend(p, e.leaseId, c).samples;
    LentHolders(cfg, p, l, e.leaseId, c, e.leaseId);
    var some :| some in c.keys;
    assert some in Holders(leased, e.leaseId) && IsLost(leased[some], e.owner, e.returned) == (e.returned > c.expires);
    if e.returned <= c.expires {
      assert !FinishFails(leased, e.leaseId, e.owner, e.returned);
      LentBack(cfg, p, l, e.leaseId, c);
    }
  }

  lemma LentBack(cfg: Config, p: Plane, l: Ledger, leaseId: string, c: Claimed)
    requires Inv(cfg, p, l) && leaseId != "" && leaseId !in l
    requires c.keys == GroupKeys(p.samples, c.tenant, c.run, c.group)
    ensures ReleaseLease(Lend(p, leaseId, c).samples, leaseId, Available) == p.samples
  {
    var back := ReleaseLease(Lend(p, leaseId, c).samples, leaseId, Available);
    forall k | k in p.samples ensures back[k] == p.samples[k] {
      LentSample(cfg, p, l, leaseId, c, k);
    }
  }

  lemma CompleteGroupHasKeys(samples: map<string, Record>, tenant: string, run: string, expected: int, group: string)
    requires group in CompleteGroups(samples, tenant, run, expected)
    ensures GroupKeys(samples, tenant, run, group) != {}
  {
    var k :| k in samples && IsAvailable(samples[k], tenant, run) && samples[k].group == group;
    assert k in GroupKeys(samples, tenant, run, group);
  }

  /** A claim leases its whole group, or leaves everything as it was.  It does the latter
      exactly when a blob of the group cannot be read and the lease is handed back before it
      ends.  It never quarantines a stored sample. */
  lemma ClaimLeasesOrRestores(cfg: Config, p: Plane, l: Ledger, e: Event, group: string, order: seq<string>, p': Plane,
                              l': Ledger)
    requires Inv(cfg, p, l) && e.Claim? && e.leaseId != "" && e.leaseId !in l && e.duration > 0
    requires Claims(cfg, p, l, e, group, order, p', l')
    ensures p' == Lend(p, e.leaseId, ClaimedBy(p, e, group)) || p' == p
    ensures p' == p <==> !AllReadable(p, e.unreadable, order) && e.returned <= e.now + e.duration
  {
    var c := ClaimedBy(p, e, group);
    CompleteGroupHasKeys(p.samples, e.tenant, e.run, e.expected, group);
    ClaimReadsBack(cfg, p, l, e, group, order);
    LendAndReturn(cfg, p, l, e, c);
    var leased := Lend(p, e.leaseId, c);
    assert AllReadable(leased, e.unreadable, order) <==> AllReadable(p, e.unreadable, order);
    var k :| k in c.keys;
    LentSample(cfg, p, l, e.leaseId, c, k);
  }

  lemma ClaimMoves(cfg: Config, p: Plane, l: Ledger, e: Event, group: string, order: seq<string>, p': Plane, l': Ledger,
                   k: string)
    requires Inv(cfg, p, l) && e.Claim? && e.leaseId != "" && e.leaseId !in l && e.duration > 0
    requires Claims(cfg, p, l, e, group, order, p', l') && k in p.samples
    ensures k in p'.samples && Moves(e, p.samples[k], p'.samples[k])
  {
    ClaimLeasesOrRestores(cfg, p, l, e, group, order, p', l');
    LentMoves(p, e, group, k);
  }

  lemma LentMoves(p: Plane, e: Event, group: string, k: string)
    requires e.Claim? && k in p.samples
    ensures var leased := Lend(p, e.leaseId, ClaimedBy(p, e, group)).samples;
            k in leased && Moves(e, p.samples[k], leased[k])
  {
  }

  lemma PutMoves(cfg: Config, p: Plane, e: Event, k: string)
    requires e.Put? && k in AfterPut(cfg, p, e.sample, e.now).samples
    ensures var r := AfterPut(cfg, p, e.sample, e.now).samples[k];
            if k in p.samples then r == p.samples[k]
            else r == NewRecord(e.sample, e.now, cfg.retention) && StandsFor(k, r, e.sample)
  {
  }

  lemma SweepMoves(p: Plane, e: Event, p': Plane, k: string)
    requires e.Sweep? && Sweeps(p, e.now, p') && k in p'.samples
    ensures k in p.samples && Moves(e, p.samples[k], p'.samples[k])
  {
  }

  lemma FinishMoves(cfg: Config, p: Plane, l: Ledger, e: Event, k: string)
    requires Inv(cfg, p, l) && e.Finish? && e.now > NO_TIME && k in p.samples
    ensures var samples := AfterFinish(p.samples, e.leaseId, e.owner, e.finish, e.now);
            k in samples && Moves(e, p.samples[k], samples[k])
  {
    if !FinishFails(p.samples, e.leaseId, e.owner, e.now) {
      FinishNeedsLease(cfg, p, l, e.leaseId, e.owner, e.now);
      assert SampleOk(cfg, p.blobs, l, k, p.samples[k]);
    }
  }

  /** Every step takes every record it keeps through one of the legal moves, and the only
      new record is the one a put makes. */
  lemma RecordMoves(cfg: Config, p: Plane, l: Ledger, e: Event, p': Plane, l': Ledger, k: string)
    requires Inv(cfg, p, l) && Next(cfg, p, l, e, p', l') && k in p'.samples
    ensures if k in p.samples then Moves(e, p.samples[k], p'.samples[k])
            else && e.Put? && p'.samples[k] == NewRecord(e.sample, e.now, cfg.retention)
                 && StandsFor(k, p'.samples[k], e.sample)
  {
    match e
    case Put(_, _) => PutMoves(cfg, p, e, k);
    case Claim(_, _, _, _, _, _, _, _, _) =>
      if p' != p {
        var group, order :| Claims(cfg, p, l, e, group, order, p', l');
        if k in p.samples {
          ClaimMoves(cfg, p, l, e, group, order, p', l', k);
        } else {
          ClaimKeepsKeys(cfg, p, l, e, group, order, p', l');
        }
      }
    case Finish(_, _, _, _) =>
      if k in p.samples {
        FinishMoves(cfg, p, l, e, k);
      }
    case Sweep(_, _) => SweepMoves(p, e, p', k);
  }

  lemma ClaimKeepsKeys(cfg: Config, p: Plane, l: Ledger, e: Event, group: string, order: seq<string>, p': Plane,
                       l': Ledger)
    requires e.Claim? && Claims(cfg, p, l, e, group, order, p', l')
    ensures p'.samples.Keys == p.samples.Keys
  {
  }

  lemma RunMoves(cfg: Config, planes: seq<Plane>, ledgers: seq<Ledger>, events: seq<Event>, n: nat, k: string)
    requires IsRun(cfg, planes, ledgers, events) && 0 < n < |planes| && k in planes[n].samples
    ensures if k in planes[n - 1].samples then Moves(events[n - 1], planes[n - 1].samples[k], planes[n].samples[k])
            else events[n - 1].Put? && StandsFor(k, planes[n].samples[k], events[n - 1].sample)
  {
    RunKeepsInv(cfg, planes, ledgers, events, n - 1);
    RecordMoves(cfg, planes[n - 1], ledgers[n - 1], events[n - 1], planes[n], ledgers[n], k);
  }

  // ----- Settled samples stay settled -----

  /** Over any stretch of a run in which a consumed or quarantined sample stays stored, its
      record does not change: it is never offered or leased again. */
  lemma {:induction false} SettledForGood(cfg: Config, planes: seq<Plane>, ledgers: seq<Ledger>, events: seq<Event>,
                                          m: nat, n: nat, k: string)
    requires IsRun(cfg, planes, ledgers, events) && m <= n < |planes|
    requires forall i :: m <= i <= n ==> k in planes[i].samples
    requires IsSettled(planes[m].samples[k])
    ensures planes[n].samples[k] == planes[m].samples[k]
    decreases n - m
  {
    if m < n {
      SettledForGood(cfg, planes, ledgers, events, m, n - 1, k);
      RunMoves(cfg, planes, ledgers, events, n, k);
    }
  }

  // ----- Leases end whole -----

  lemma BookKept(cfg: Config, p: Plane, l: Ledger, e: Event, p': Plane, l': Ledger, id: string)
    requires Next(cfg, p, l, e, p', l') && id in l
    ensures id in l' && l'[id] == l[id]
  {
  }

  /** After a step all records of a lease are still under it, or none is. */
  lemma LeaseMovesWhole(cfg: Config, p: Plane, l: Ledger, e: Event, p': Plane, l': Ledger, id: string)
    requires Inv(cfg, p, l) && Next(cfg, p, l, e, p', l') && id != "" && Holders(p.samples, id) != {}
    ensures Holders(p'.samples, id) == Holders(p.samples, id) || Holders(p'.samples, id) == {}
  {
    var k :| k in Holders(p.samples, id);
    assert SampleOk(cfg, p.blobs, l, k, p.samples[k]);
    assert IsWhole(p.samples, l, id);
    BookKept(cfg, p, l, e, p', l', id);
    assert IsWhole(p'.samples, l', id) by {
      StepKeepsInv(cfg, p, l, e, p', l');
    }
  }

  /** Two records of one lease that a step leaves stored end up in the same state. */
  lemma LeaseMovesAlike(cfg: Config, p: Plane, l: Ledger, e: Event, p': Plane, l': Ledger, id: string, j: string,
                        k: string)
    requires Inv(cfg, p, l) && Next(cfg, p, l, e, p', l') && id != ""
    requires j in Holders(p.samples, id) && k in Holders(p.samples, id) && j in p'.samples && k in p'.samples
    ensures p'.samples[j].state == p'.samples[k].state && p'.samples[j].leaseId == p'.samples[k].leaseId
  {
    assert p.samples[j].state == Leased && p.samples[k].state == Leased by {
      assert SampleOk(cfg, p.blobs, l, j, p.samples[j]) && SampleOk(cfg, p.blobs, l, k, p.samples[k]);
    }
    LeaseMovesWhole(cfg, p, l, e, p', l', id);
    RecordMoves(cfg, p, l, e, p', l', j);
    RecordMoves(cfg, p, l, e, p', l', k);
    assert j in Holders(p'.samples, id) <==> k in Holders(p'.samples, id);
  }

  // ----- Where stored samples come from -----

  /** Event i put this sample, which was not stored before, and it has been stored as that very sample ever since. */
  ghost predicate PutSince(planes: seq<Plane>, events: seq<Event>, n: nat, k: string, e: Envelope, i: nat)
    requires |planes| == |events| + 1 && n < |planes|
  {
    && i < n && events[i].Put? && events[i].sample == e && k !in planes[i].samples
    && forall j :: i < j <= n ==> k in planes[j].samples && StandsFor(k, planes[j].samples[k], e)
  }

  /** Every stored record is the record of a sample some earlier put accepted, its blob is
      present and holds exactly that sample. */
  lemma {:induction false} StoredSampleWasPut(cfg: Config, planes: seq<Plane>, ledgers: seq<Ledger>, events: seq<Event>,
                                              n: nat, k: string) returns (i: nat)
    requires IsRun(cfg, planes, ledgers, events) && n < |planes| && k in planes[n].samples
    ensures planes[n].samples[k].checksum.raw.Encoded?
    ensures PutSince(planes, events, n, k, StoredSample(planes[n].samples[k]), i)
    ensures BlobPresent(planes[n].blobs, planes[n].samples[k])
  {
    assert SampleOk(cfg, planes[n].blobs, ledgers[n], k, planes[n].samples[k]) by {
      RunKeepsInv(cfg, planes, ledgers, events, n);
    }
    if n == 0 {
      assert false;
    } else {
      RunMoves(cfg, planes, ledgers, events, n, k);
      if k in planes[n - 1].samples {
        i := StoredSampleWasPut(cfg, planes, ledgers, events, n - 1, k);
      } else {
        i := n - 1;
      }
    }
  }

  // ----- Samples are kept for their retention -----

  lemma MovesKeepExpiry(e: Event, r: Record, r': Record)
    requires Moves(e, r, r')
    ensures r'.createdAt == r.createdAt && r'.expiresAt == r.expiresAt
  {
  }

  lemma StepExpiry(cfg: Config, planes: seq<Plane>, ledgers: seq<Ledger>, events: seq<Event>, n: nat, k: string)
    requires IsRun(cfg, planes, ledgers, events) && 0 < n < |planes| && k in planes[n].samples
    ensures var r := planes[n].samples[k];
            if k in planes[n - 1].samples
            then r.createdAt == planes[n - 1].samples[k].createdAt && r.expiresAt == planes[n - 1].samples[k].expiresAt
            else && events[n - 1].Put? && r.createdAt == events[n - 1].now
                 && r.expiresAt == events[n - 1].now + cfg.retention
  {
    RunKeepsInv(cfg, planes, ledgers, events, n - 1);
    RecordMoves(cfg, planes[n - 1], ledgers[n - 1], events[n - 1], planes[n], ledgers[n], k);
    if k in planes[n - 1].samples {
      MovesKeepExpiry(events[n - 1], planes[n - 1].samples[k], planes[n].samples[k]);
    }
  }

  lemma {:induction false} ExpiryIsFixed(cfg: Config, planes: seq<Plane>, ledgers: seq<Ledger>, events: seq<Event>,
                                         n: nat, k: string, e: Envelope, i: nat)
    requires IsRun(cfg, planes, ledgers, events) && n < |planes| && PutSince(planes, events, n, k, e, i)
    ensures planes[n].samples[k].createdAt == events[i].now
    ensures planes[n].samples[k].expiresAt == events[i].now + cfg.retention
  {
    StepExpiry(cfg, planes, ledgers, events, n, k);
    if i < n - 1 {
      assert PutSince(planes, events, n - 1, k, e, i);
      ExpiryIsFixed(cfg, planes, ledgers, events, n - 1, k, e, i);
    }
  }

  /** The record is under a lease that runs beyond this time. */
  predicate IsHeldBeyond(r: Record, now: Time) {
    r.leaseId != "" && r.leaseExpiresAt > now
  }

  lemma SweepRemoves(p: Plane, l: Ledger, now: Time, p': Plane, k: string)
    requires Sweeps(p, now, p') && k in p.samples && LeaseOk(l, k, p.samples[k])
    ensures k !in p'.samples <==> p.samples[k].expiresAt <= now && !IsHeldBeyond(p.samples[k], now)
  {
  }

  lemma OthersRemoveNothing(cfg: Config, p: Plane, l: Ledger, e: Event, p': Plane, l': Ledger, k: string)
    requires Next(cfg, p, l, e, p', l') && !e.Sweep? && k in p.samples
    ensures k in p'.samples
  {
    if e.Claim? && p' != p {
      var group, order :| Claims(cfg, p, l, e, group, order, p', l');
      ClaimKeepsKeys(cfg, p, l, e, group, order, p', l');
    }
  }

  /** Over every run, a stored sample goes if and only if there is a sweep no earlier than its
      retention after it was put, and no lease on it runs beyond that time. */
  lemma RetentionIsKept(cfg: Config, planes: seq<Plane>, ledgers: seq<Ledger>, events: seq<Event>, n: nat, k: string,
                        e: Envelope, i: nat)
    requires IsRun(cfg, planes, ledgers, events) && n < |events| && PutSince(planes, events, n, k, e, i)
    ensures k !in planes[n + 1].samples <==>
              && events[n].Sweep? && events[n].now >= events[i].now + cfg.retention
              && !IsHeldBeyond(planes[n].samples[k], events[n].now)
  {
    assert Next(cfg, planes[n], ledgers[n], events[n], planes[n + 1], ledgers[n + 1]);
    ExpiryIsFixed(cfg, planes, ledgers, events, n, k, e, i);
    if events[n].Sweep? {
      assert SampleOk(cfg, planes[n].blobs, ledgers[n], k, planes[n].samples[k]) by {
        RunKeepsInv(cfg, planes, ledgers, events, n);
      }
      SweepRemoves(planes[n], ledgers[n], events[n].now, planes[n + 1], k);
    } else {
      OthersRemoveNothing(cfg, planes[n], ledgers[n], events[n], planes[n + 1], ledgers[n + 1], k);
    }
  }

  // ----- Which samples are taken -----

  lemma NoNulBefore(a: string, b: string)
    requires '\0' !in a
    ensures forall i :: 0 <= i < |a| ==> (a + ['\0'] + b)[i] != '\0'
  {
    forall i | 0 <= i < |a| ensures (a + ['\0'] + b)[i] != '\0' {
      assert (a + ['\0'] + b)[i] == a[i] && a[i] in a;
    }
  }

  lemma PartsAreSplit(a: string, b: string, c: string, d: string)
    requires '\0' !in a && '\0' !in c && a + ['\0'] + b == c + ['\0'] + d
    ensures a == c && b == d
  {
    var s, t := a + ['\0'] + b, c + ['\0'] + d;
    assert s[|a|] == '\0' && t[|c|] == '\0';
    NoNulBefore(a, b);
    NoNulBefore(c, d);
    assert |a| == |c|;
    assert a == s[..|a|] && c == t[..|c|] && b == s[|a| + 1..] && d == t[|c| + 1..];
  }

  /** Samples of different tenants, runs or identifiers are stored under different keys, as long
      as no tenant and no run has a NUL in its name. */
  lemma KeysAreApart(tenant: string, run: string, id: string, tenant': string, run': string, id': string)
    requires '\0' !in tenant && '\0' !in run && '\0' !in tenant' && '\0' !in run'
    requires SampleKey(tenant, run, id) == SampleKey(tenant', run', id')
    ensures tenant == tenant' && run == run' && id == id'
  {
    var rest, rest' := run + ['\0'] + id, run' + ['\0'] + id';
    assert SampleKey(tenant, run, id) == tenant + ['\0'] + rest;
    assert SampleKey(tenant', run', id') == tenant' + ['\0'] + rest';
    PartsAreSplit(tenant, rest, tenant', rest');
    PartsAreSplit(run, id, run', id');
  }

  /** The groups of the tenant's run that have a sample nobody has taken. */
  ghost predicate IsOpenGroup(samples: map<string, Record>, tenant: string, run: string, group: string) {
    exists k :: k in samples && samples[k].tenant == tenant && samples[k].run == run
                && samples[k].state == Available && samples[k].group == group
  }

  /** A valid sample is taken, or already there, if and only if fewer groups than the high watermark
      are open and no other sample is stored under its identifier; a new one is then stored as
      available, with no lease, and every other record is left alone. */
  lemma PutsExactly(cfg: Config, p: Plane, l: Ledger, e: Envelope, now: Time, open: set<string>)
    requires Inv(cfg, p, l) && ValidEnvelope(e, cfg.maxTokens)
    requires forall g :: g in open <==> IsOpenGroup(p.samples, e.tenant, e.run, g)
    ensures var k, p' := SampleKey(e.tenant, e.run, e.sampleId), AfterPut(cfg, p, e, now);
            var taken := |open| < cfg.highWatermark && (k in p.samples ==> p.samples[k].checksum.raw == Encoded(e));
            && (PutOutcome(cfg, p, e, now).Ok? <==> taken)
            && (PutOutcome(cfg, p, e, now).Err? ==> p'.samples == p.samples)
            && (taken ==> p'.samples.Keys == p.samples.Keys + {k})
            && (taken ==> PutOutcome(cfg, p, e, now).value == (p'.samples[k], k !in p.samples))
            && (forall j :: j in p.samples ==> j in p'.samples && p'.samples[j] == p.samples[j])
            && (taken && k !in p.samples ==>
                  p'.samples[k].state == Available && p'.samples[k].leaseId == "" && StandsFor(k, p'.samples[k], e))
  {
    OpenGroups(p.samples, e.tenant, e.run, open);
    PutBlobWorks(p.blobs, e);
    var k := SampleKey(e.tenant, e.run, e.sampleId);
    if k in p.samples {
      assert SampleOk(cfg, p.blobs, l, k, p.samples[k]);
      assert p.samples[k].checksum == Sha256(p.samples[k].checksum.raw);
    }
  }

  lemma OpenGroups(samples: map<string, Record>, tenant: string, run: string, open: set<string>)
    requires forall g :: g in open <==> IsOpenGroup(samples, tenant, run, g)
    ensures open == AvailableGroups(samples, tenant, run)
  {
    forall g ensures g in open <==> g in AvailableGroups(samples, tenant, run) {
      if g in open {
        var k :| k in samples && samples[k].tenant == tenant && samples[k].run == run
                 && samples[k].state == Available && samples[k].group == g;
        assert IsAvailable(samples[k], tenant, run);
      }
    }
  }

  /** No two stored records share a blob, in any reachable state. */
  lemma ReachableBlobsAreNotShared(cfg: Config, planes: seq<Plane>, ledgers: seq<Ledger>, events: seq<Event>,
                                   n: nat, j: string, k: string)
    requires IsRun(cfg, planes, ledgers, events) && n < |planes|
    requires j in planes[n].samples && k in planes[n].samples && j != k
    ensures planes[n].samples[j].blobKey != planes[n].samples[k].blobKey
  {
    RunKeepsInv(cfg, planes, ledgers, events, n);
    var p, l := planes[n], ledgers[n];
    assert SampleOk(cfg, p.blobs, l, j, p.samples[j]) && SampleOk(cfg, p.blobs, l, k, p.samples[k]);
  }

  /** An event put this sample under this key, where it has been stored ever since. */
  ghost predicate WasPut(planes: seq<Plane>, events: seq<Event>, n: nat, k: string, e: Envelope)
    requires |planes| == |events| + 1 && n < |planes|
  {
    exists i :: PutSince(planes, events, n, k, e, i)
  }

  /** Each of the samples was put by an event, and has been stored under its key ever since. */
  ghost predicate WerePut(planes: seq<Plane>, events: seq<Event>, n: nat, order: seq<string>, samples: seq<Envelope>)
    requires |planes| == |events| + 1 && n < |planes|
  {
    && |samples| == |order|
    && forall j :: 0 <= j < |order| ==> WasPut(planes, events, n, order[j], samples[j])
  }

  /** Whatever stored samples are read back in a reachable state, by a claim or by an export,
      each was put by an earlier event. */
  lemma RunStoresWhatWasPut(cfg: Config, planes: seq<Plane>, ledgers: seq<Ledger>, events: seq<Event>, n: nat,
                            order: seq<string>)
    requires IsRun(cfg, planes, ledgers, events) && n < |planes| && forall k :: k in order ==> k in planes[n].samples
    ensures AllStored(cfg, planes[n], order)
    ensures WerePut(planes, events, n, order, StoredSamples(cfg, planes[n], order))
  {
    assert AllStored(cfg, planes[n], order) by {
      RunKeepsInv(cfg, planes, ledgers, events, n);
      OrderIsStored(cfg, planes[n], ledgers[n], order);
    }
    forall j | 0 <= j < |order| ensures WasPut(planes, events, n, order[j], StoredSamples(cfg, planes[n], order)[j]) {
      assert order[j] in order;
      var i := StoredSampleWasPut(cfg, planes, ledgers, events, n, order[j]);
      assert StoredSamples(cfg, planes[n], order)[j] == StoredSample(planes[n].samples[order[j]]);
    }
  }

  /** A claim in a reachable state that finds a complete group and can read its blobs
      leases exactly that group and hands over exactly the samples that were put: each has
      been stored since a put of that very sample. */
  lemma ClaimReturnsWhatWasPut(cfg: Config, planes: seq<Plane>, ledgers: seq<Ledger>, events: seq<Event>,
                               n: nat, e: Event, group: string, order: seq<string>, p': Plane, l': Ledger)
    requires IsRun(cfg, planes, ledgers, events) && n < |planes|
    requires e.Claim? && e.leaseId != "" && e.leaseId !in ledgers[n] && e.duration > 0
    requires Claims(cfg, planes[n], ledgers[n], e, group, order, p', l')
    ensures AllStored(cfg, planes[n], order)
    ensures if AllReadable(planes[n], e.unreadable, order)
            then p' == Lend(planes[n], e.leaseId, ClaimedBy(planes[n], e, group))
                 && ReadSamples(cfg, p', e.unreadable, order) == Payloads(StoredSamples(cfg, planes[n], order))
            else e.returned <= e.now + e.duration ==> p' == planes[n]
    ensures WerePut(planes, events, n, order, StoredSamples(cfg, planes[n], order))
  {
    RunStoresWhatWasPut(cfg, planes, ledgers, events, n, order);
    var p, l := planes[n], ledgers[n];
    RunKeepsInv(cfg, planes, ledgers, events, n);
    OrderIsStored(cfg, p, l, order);
    ClaimLeasesOrRestores(cfg, p, l, e, group, order, p', l');
    ClaimReadsBack(cfg, p, l, e, group, order);
    LendingKeepsSamples(cfg, p, e.leaseId, ClaimedBy(p, e, group), e.unreadable, order);
  }

  lemma LendingKeepsSamples(cfg: Config, p: Plane, leaseId: string, c: Claimed, unreadable: set<BlobKey>,
                            order: seq<string>)
    requires AllStored(cfg, p, order) && AllStored(cfg, Lend(p, leaseId, c), order)
    ensures AllReadable(Lend(p, leaseId, c), unreadable, order) == AllReadable(p, unreadable, order)
    ensures StoredSamples(cfg, Lend(p, leaseId, c), order) == StoredSamples(cfg, p, order)
  {
    var leased := Lend(p, leaseId, c);
    forall k | k in order
      ensures leased.samples[k].blobKey == p.samples[k].blobKey && leased.samples[k].checksum == p.samples[k].checksum
    {
    }
    forall i | 0 <= i < |order| ensures StoredSamples(cfg, leased, order)[i] == StoredSamples(cfg, p, order)[i] {
      assert order[i] in order;
    }
  }

  // ----- A clock that moves while a lease is being finished -----

  /** Finishing the records of a lease in turn, each against its own reading of the
      clock; the first that is lost ends the call. */
  function FinishInTurn(samples: map<string, Record>, order: seq<string>, owner: string, state: SampleState,
                        clock: seq<Time>)
    : map<string, Record>
    requires |clock| == |order| && forall k :: k in order ==> k in samples
  {
    if order == [] || IsLost(samples[order[0]], owner, clock[0]) then samples
    else FinishInTurn(samples[order[0] := Release(samples[order[0]], state)], order[1..], owner, state, clock[1..])
  }

  ghost predicate Distinct(order: seq<string>) {
    forall i, j :: 0 <= i < j < |order| ==> order[i] != order[j]
  }

  /** The records in `order` are held by one owner until one time. */
  ghost predicate HeldAlike(samples: map<string, Record>, order: seq<string>, owner: string, expires: Time) {
    && Distinct(order)
    && forall k :: k in order ==> k in samples && samples[k].leaseOwner == owner && samples[k].leaseExpiresAt == expires
  }

  ghost predicate Rising(clock: seq<Time>) {
    forall i, j :: 0 <= i <= j < |clock| ==> clock[i] <= clock[j]
  }

  lemma TailIsHeldAlike(samples: map<string, Record>, order: seq<string>, owner: string, expires: Time,
                        state: SampleState)
    requires HeldAlike(samples, order, owner, expires) && order != []
    ensures HeldAlike(samples[order[0] := Release(samples[order[0]], state)], order[1..], owner, expires)
  {
    forall k | k in order[1..] ensures k in order && k != order[0] {
    }
  }

  /** A record is released exactly when its turn comes before the lease ends. */
  lemma {:induction false} ReleasedInTurn(samples: map<string, Record>, order: seq<string>, owner: string,
                                          expires: Time, state: SampleState, clock: seq<Time>, k: string)
    requires HeldAlike(samples, order, owner, expires) && |clock| == |order| && Rising(clock) && k in samples
    ensures k in FinishInTurn(samples, order, owner, state, clock)
    ensures FinishInTurn(samples, order, owner, state, clock)[k] ==
            if exists i :: 0 <= i < |order| && order[i] == k && clock[i] <= expires then Release(samples[k], state)
            else samples[k]
  {
    if order != [] && !IsLost(samples[order[0]], owner, clock[0]) {
      TailIsHeldAlike(samples, order, owner, expires, state);
      ReleasedInTurn(samples[order[0] := Release(samples[order[0]], state)], order[1..], owner, expires, state,
        clock[1..], k);
      forall i | 0 < i < |order|
        ensures order[i] == order[1..][i - 1] && clock[i] == clock[1..][i - 1] && order[i] != order[0]
      {
      }
    }
  }

  lemma {:induction false} OnlyStored(samples: map<string, Record>, order: seq<string>, owner: string,
                                      state: SampleState, clock: seq<Time>)
    requires |clock| == |order| && forall k :: k in order ==> k in samples
    ensures FinishInTurn(samples, order, owner, state, clock).Keys == samples.Keys
  {
    if order != [] && !IsLost(samples[order[0]], owner, clock[0]) {
      OnlyStored(samples[order[0] := Release(samples[order[0]], state)], order[1..], owner, state, clock[1..]);
    }
  }

  lemma FinishedInTime(samples: map<string, Record>, leaseId: string, order: seq<string>, owner: string, expires: Time,
                       state: SampleState, clock: seq<Time>)
    requires |clock| == |order| && Rising(clock) && (forall i :: 0 <= i < |clock| ==> clock[i] <= expires)
    requires HeldAlike(samples, order, owner, expires) && forall k :: k in order <==> k in Holders(samples, leaseId)
    ensures FinishInTurn(samples, order, owner, state, clock) == ReleaseLease(samples, leaseId, state)
  {
    OnlyStored(samples, order, owner, state, clock);
    forall k | k in samples
      ensures FinishInTurn(samples, order, owner, state, clock)[k] == ReleaseLease(samples, leaseId, state)[k]
    {
      ReleasedInTurn(samples, order, owner, expires, state, clock, k);
      if k in Holders(samples, leaseId) {
        assert k in order;
      }
    }
  }

  /** Finishing moves all records of a lease or none if and only if the clock does not
      pass the end of the lease between the first record and the last. */
  lemma FinishIsWhole(samples: map<string, Record>, leaseId: string, order: seq<string>, owner: string, expires: Time,
                      state: SampleState, clock: seq<Time>)
    requires leaseId != "" && order != [] && |clock| == |order| && Rising(clock)
    requires HeldAlike(samples, order, owner, expires) && forall k :: k in order <==> k in Holders(samples, leaseId)
    ensures var after := FinishInTurn(samples, order, owner, state, clock);
            after == samples || after == ReleaseLease(samples, leaseId, state)
            <==> !(clock[0] <= expires < clock[|clock| - 1])
  {
    var first, last := order[0], order[|order| - 1];
    assert first in order && last in order;
    if clock[|clock| - 1] <= expires {
      FinishedInTime(samples, leaseId, order, owner, expires, state, clock);
    } else if clock[0] <= expires {
      ReleasedInTurn(samples, order, owner, expires, state, clock, first);
      ReleasedInTurn(samples, order, owner, expires, state, clock, last);
      assert samples[first].leaseId != "" && samples[last].leaseId != "";
    }
  }

  /** With one reading for the whole call, finishing in turn is finishing at once. */
  lemma FinishAtOnce(samples: map<string, Record>, leaseId: string, order: seq<string>, owner: string, expires: Time,
                     finish: DataPlaneModel.Finish, now: Time)
    requires order != [] && HeldAlike(samples, order, owner, expires)
    requires forall k :: k in order <==> k in Holders(samples, leaseId)
    ensures FinishInTurn(samples, order, owner, FinalState(finish), seq(|order|, _ => now)) ==
            AfterFinish(samples, leaseId, owner, finish, now)
  {
    assert order[0] in Holders(samples, leaseId);
    if now <= expires {
      FinishedInTime(samples, leaseId, order, owner, expires, FinalState(finish), seq(|order|, _ => now));
    } else {
      assert IsLost(samples[order[0]], owner, now);
    }
  }
}
