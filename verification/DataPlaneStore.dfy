/** The data plane's stores and the service over them: loops that rewrite the sample
    records in place, and blobs that are written, read and deleted beside them. */
module DataPlaneStore {
  import opened Basics
  import opened StringOrder
  import opened DataPlaneModel
  import P = DataPlaneProtocol

  // ----- Passes over the samples, in any order -----

  /** The groups met among the given keys. */
  function GroupsAmong(samples: map<string, Record>, seen: set<string>, tenant: string, run: string): set<string>
    requires seen <= samples.Keys
  {
    set k | k in seen && IsAvailable(samples[k], tenant, run) :: samples[k].group
  }

  method CollectGroups(samples: map<string, Record>, tenant: string, run: string) returns (groups: set<string>)
    ensures groups == AvailableGroups(samples, tenant, run)
  {
    groups := {};
    var todo := samples.Keys;
    ghost var seen: set<string> := {};
    while todo != {}
      invariant seen <= samples.Keys && todo == samples.Keys - seen
      invariant groups == GroupsAmong(samples, seen, tenant, run)
      decreases |todo|
    {
      var k :| k in todo;
      if IsAvailable(samples[k], tenant, run) {
        groups := groups + {samples[k].group};
      }
      seen, todo := seen + {k}, todo - {k};
    }
    assert seen == samples.Keys;
  }

  /** The available keys of each group met among the given keys. */
  ghost predicate IsByGroup(samples: map<string, Record>, seen: set<string>, tenant: string, run: string,
                            byGroup: map<string, set<string>>)
    requires seen <= samples.Keys
  {
    && byGroup.Keys == GroupsAmong(samples, seen, tenant, run)
    && forall g :: g in byGroup ==> byGroup[g] == GroupKeys(samples, tenant, run, g) * seen
  }

  method CollectByGroup(samples: map<string, Record>, tenant: string, run: string)
    returns (byGroup: map<string, set<string>>)
    ensures byGroup.Keys == AvailableGroups(samples, tenant, run)
    ensures forall g :: g in byGroup ==> byGroup[g] == GroupKeys(samples, tenant, run, g)
  {
    byGroup := map[];
    var todo := samples.Keys;
    ghost var seen: set<string> := {};
    while todo != {}
      invariant seen <= samples.Keys && todo == samples.Keys - seen
      invariant IsByGroup(samples, seen, tenant, run, byGroup)
      decreases |todo|
    {
      var k :| k in todo;
      ByGroupStep(samples, seen, tenant, run, byGroup, k);
      if IsAvailable(samples[k], tenant, run) {
        var g := samples[k].group;
        byGroup := byGroup[g := (if g in byGroup then byGroup[g] else {}) + {k}];
      }
      seen, todo := seen + {k}, todo - {k};
    }
    assert seen == samples.Keys;
    forall g | g in byGroup ensures byGroup[g] == GroupKeys(samples, tenant, run, g) {
      assert GroupKeys(samples, tenant, run, g) * seen == GroupKeys(samples, tenant, run, g);
    }
  }

  lemma ByGroupStep(samples: map<string, Record>, seen: set<string>, tenant: string, run: string,
                    byGroup: map<string, set<string>>, k: string)
    requires seen <= samples.Keys && k in samples && k !in seen && IsByGroup(samples, seen, tenant, run, byGroup)
    ensures var g := samples[k].group;
            IsByGroup(samples, seen + {k}, tenant, run,
                      if IsAvailable(samples[k], tenant, run)
                      then byGroup[g := (if g in byGroup then byGroup[g] else {}) + {k}] else byGroup)
  {
    var g := samples[k].group;
    forall h | h in byGroup && (h != g || !IsAvailable(samples[k], tenant, run))
      ensures GroupKeys(samples, tenant, run, h) * (seen + {k}) == GroupKeys(samples, tenant, run, h) * seen
    {
    }
    if g !in byGroup {
      assert GroupKeys(samples, tenant, run, g) * seen == {};
    }
  }

  /** The samples once those outside todo have been passed by. */
  function ReleasedBut(samples: map<string, Record>, todo: set<string>, leaseId: string,
                       state: SampleState): map<string, Record>
  {
    map k | k in samples ::
      if k !in todo && samples[k].leaseId == leaseId then Release(samples[k], state) else samples[k]
  }

  lemma NothingReleased(samples: map<string, Record>, todo: set<string>, leaseId: string, state: SampleState)
    requires forall k :: k in samples && samples[k].leaseId == leaseId ==> k in todo
    ensures ReleasedBut(samples, todo, leaseId, state) == samples
  {
  }

  lemma AllReleased(samples: map<string, Record>, leaseId: string, state: SampleState)
    ensures ReleasedBut(samples, {}, leaseId, state) == ReleaseLease(samples, leaseId, state)
  {
  }

  lemma OneMoreReleased(samples: map<string, Record>, todo: set<string>, leaseId: string, state: SampleState, k: string)
    requires k in todo && k in samples
    ensures ReleasedBut(samples, todo, leaseId, state)[k] == samples[k]
    ensures ReleasedBut(samples, todo - {k}, leaseId, state) ==
            if samples[k].leaseId == leaseId
            then ReleasedBut(samples, todo, leaseId, state)[k := Release(samples[k], state)]
            else ReleasedBut(samples, todo, leaseId, state)
  {
  }

  /** Each reading of the clock lies on the same side of the lease's end as `now` does. */
  ghost predicate OneSided(samples: map<string, Record>, leaseId: string, now: Time, clock: string -> Time) {
    forall k :: k in Holders(samples, leaseId) ==>
      (clock(k) > samples[k].leaseExpiresAt <==> now > samples[k].leaseExpiresAt)
  }

  /** Some holders of the lease, those whose turn came in time, have been released. */
  ghost predicate PartlyFinished(samples: map<string, Record>, leaseId: string, owner: string, state: SampleState,
                                 clock: string -> Time, after: map<string, Record>)
  {
    && after.Keys == samples.Keys
    && forall k :: k in samples && after[k] != samples[k] ==>
         && k in Holders(samples, leaseId) && !IsLost(samples[k], owner, clock(k))
         && after[k] == Release(samples[k], state)
  }

  /** What finishing a lease comes to, with a reading of the clock for each record: whatever
      happens some holders have been released, on success all of them; and as long as the lease
      does not end between two readings it is the finish at one time. */
  ghost predicate Finishes(samples: map<string, Record>, leaseId: string, owner: string, finish: Finish,
                           clock: string -> Time, now: Time, after: map<string, Record>, ok: bool)
  {
    && PartlyFinished(samples, leaseId, owner, FinalState(finish), clock, after)
    && (ok ==> after == ReleaseLease(samples, leaseId, FinalState(finish)) && Holders(samples, leaseId) != {})
    && (OneSided(samples, leaseId, now, clock) ==>
          && ok == !FinishFails(samples, leaseId, owner, now)
          && after == AfterFinish(samples, leaseId, owner, finish, now))
  }

  /** The holders outside todo were looked at in time. */
  ghost predicate InTime(samples: map<string, Record>, leaseId: string, owner: string, clock: string -> Time,
                         todo: set<string>)
  {
    forall k :: k in Holders(samples, leaseId) && k !in todo ==> !IsLost(samples[k], owner, clock(k))
  }

  /** The loop of FinishLease, which reads the clock anew for each record it looks at.  Unless
      the lease ends between two readings its early return is harmless, because a hold is
      lost on all records of a lease or on none. */
  method FinishLoop(samples: map<string, Record>, leaseId: string, owner: string, finish: Finish, clock: string -> Time,
                    ghost now: Time, ghost l: P.Ledger)
    returns (after: map<string, Record>, ok: bool)
    requires now > NO_TIME && forall k :: k in samples ==> P.LeaseOk(l, k, samples[k])
    ensures Finishes(samples, leaseId, owner, finish, clock, now, after, ok)
  {
    after := samples;
    var found := false;
    var state := FinalState(finish);
    var todo := samples.Keys;
    NothingReleased(samples, todo, leaseId, state);
    while todo != {}
      invariant todo <= samples.Keys
      invariant after == ReleasedBut(samples, todo, leaseId, state)
      invariant found <==> !(Holders(samples, leaseId) <= todo)
      invariant InTime(samples, leaseId, owner, clock, todo)
      decreases |todo|
    {
      var k :| k in todo;
      OneMoreReleased(samples, todo, leaseId, state, k);
      var record := after[k];
      if record.leaseId == leaseId {
        if record.leaseOwner != owner || clock(k) > record.leaseExpiresAt {
          FinishStops(samples, leaseId, owner, finish, clock, now, l, todo, k);
          return after, false;
        }
        found := true;
        after := after[k := Release(record, state)];
      }
      todo := todo - {k};
    }
    FinishEnds(samples, leaseId, owner, finish, clock, now);
    ok := found;
  }

  lemma PartlyReleased(samples: map<string, Record>, leaseId: string, owner: string, state: SampleState,
                       clock: string -> Time, todo: set<string>)
    requires InTime(samples, leaseId, owner, clock, todo)
    ensures PartlyFinished(samples, leaseId, owner, state, clock, ReleasedBut(samples, todo, leaseId, state))
  {
  }

  /** A holder whose hold is lost ends the loop; it is the first holder that is looked at. */
  lemma FinishStops(samples: map<string, Record>, leaseId: string, owner: string, finish: Finish, clock: string -> Time,
                    now: Time, l: P.Ledger, todo: set<string>, k: string)
    requires now > NO_TIME && forall k :: k in samples ==> P.LeaseOk(l, k, samples[k])
    requires k in Holders(samples, leaseId) && IsLost(samples[k], owner, clock(k))
    requires InTime(samples, leaseId, owner, clock, todo)
    ensures Finishes(samples, leaseId, owner, finish, clock, now,
              ReleasedBut(samples, todo, leaseId, FinalState(finish)), false)
  {
    PartlyReleased(samples, leaseId, owner, FinalState(finish), clock, todo);
    if OneSided(samples, leaseId, now, clock) {
      assert IsLost(samples[k], owner, now);
      forall j | j in samples && samples[j].leaseId == leaseId ensures j in todo {
        P.LossIsUniform(l, samples, leaseId, owner, now, j, k);
        assert j in Holders(samples, leaseId) && IsLost(samples[j], owner, clock(j));
      }
      NothingReleased(samples, todo, leaseId, FinalState(finish));
    }
  }

  lemma FinishEnds(samples: map<string, Record>, leaseId: string, owner: string, finish: Finish, clock: string -> Time,
                   now: Time)
    requires InTime(samples, leaseId, owner, clock, {})
    ensures Finishes(samples, leaseId, owner, finish, clock, now, ReleasedBut(samples, {}, leaseId, FinalState(finish)),
                     Holders(samples, leaseId) != {})
  {
    PartlyReleased(samples, leaseId, owner, FinalState(finish), clock, {});
    AllReleased(samples, leaseId, FinalState(finish));
    if Holders(samples, leaseId) == {} {
      forall k | k in samples ensures samples[k].leaseId != leaseId {
        assert k !in Holders(samples, leaseId);
      }
      NothingReleased(samples, {}, leaseId, FinalState(finish));
    }
  }

  function EndedKeys(samples: map<string, Record>, now: Time): set<string> {
    set k | k in samples && LeaseEnded(samples[k], now)
  }

  method ReleaseLoop(samples: map<string, Record>, now: Time) returns (after: map<string, Record>, count: nat)
    ensures after == AfterRelease(samples, now)
    ensures count == |EndedKeys(samples, now)|
  {
    after, count := samples, 0;
    var todo := samples.Keys;
    ghost var released: set<string> := {};
    while todo != {}
      invariant todo <= samples.Keys
      invariant released == set k | k in samples && k !in todo && LeaseEnded(samples[k], now)
      invariant count == |released|
      invariant after == map k | k in samples :: if k in released then Release(samples[k], Available) else samples[k]
      decreases |todo|
    {
      var k :| k in todo;
      if after[k].state == Leased && after[k].leaseExpiresAt <= now {
        after := after[k := Release(after[k], Available)];
        released, count := released + {k}, count + 1;
      }
      todo := todo - {k};
    }
    assert released == EndedKeys(samples, now);
    assert after == AfterRelease(samples, now);
  }

  method DeleteLoop(samples: map<string, Record>, now: Time) returns (after: map<string, Record>, deleted: seq<string>)
    ensures after == samples - OutlivedKeys(samples, now)
    ensures forall k :: k in deleted <==> k in OutlivedKeys(samples, now)
    ensures forall i, j :: 0 <= i < j < |deleted| ==> deleted[i] != deleted[j]
  {
    after, deleted := samples, [];
    var todo := samples.Keys;
    while todo != {}
      invariant todo <= samples.Keys
      invariant forall k :: k in deleted <==> k in samples && k !in todo && Outlived(samples[k], now)
      invariant forall i, j :: 0 <= i < j < |deleted| ==> deleted[i] != deleted[j]
      invariant after == map k | k in samples && k !in deleted :: samples[k]
      decreases |todo|
    {
      var k :| k in todo;
      if samples[k].state != Leased && samples[k].expiresAt <= now {
        deleted := deleted + [k];
        after := after - {k};
      }
      todo := todo - {k};
    }
    assert after == samples - OutlivedKeys(samples, now);
  }

  /** The loop of Claim over the leased records. */
  method ReadLoop(cfg: Config, p: Plane, unreadable: set<BlobKey>, order: seq<string>) returns (back: ReadBack)
    requires forall k :: k in order ==> k in p.samples
    ensures back == ReadSamples(cfg, p, unreadable, order)
  {
    var payloads := [];
    for i := 0 to |order|
      invariant ReadSamples(cfg, p, unreadable, order) ==
                  Continue(payloads, ReadSamples(cfg, p, unreadable, order[i..]))
    {
      assert order[i] in order && order[i..][0] == order[i] && order[i..][1..] == order[i + 1..];
      var key := p.samples[order[i]].blobKey;
      if key !in p.blobs.data || key in unreadable {
        return Trouble(BlobReadFailed);
      }
      var raw := p.blobs.data[key];
      if raw.Undecodable? {
        return Trouble(MalformedSample);
      }
      if !ValidEnvelope(raw.sample, cfg.maxTokens) {
        return Trouble(MalformedSample);
      }
      payloads := payloads + [raw.sample];
    }
    return Payloads(payloads);
  }

  function Continue(before: seq<Envelope>, back: ReadBack): ReadBack {
    if back.Trouble? then back else Payloads(before + back.samples)
  }

  // ----- Sorting a group by sample identifier -----

  ghost predicate KeyedBySample(samples: map<string, Record>, keys: set<string>, tenant: string, run: string) {
    keys <= samples.Keys && forall k :: k in keys ==> k == SampleKey(tenant, run, samples[k].sampleId)
  }

  /** The keys of records of one tenant and run, by rising sample identifier. */
  method SortBySample(samples: map<string, Record>, keys: set<string>, tenant: string, run: string)
    returns (order: seq<string>)
    requires KeyedBySample(samples, keys, tenant, run)
    ensures BySample(samples, keys, order)
  {
    var ids := set k | k in keys :: samples[k].sampleId;
    var sorted := Sort(ids);
    order := seq(|sorted|, i requires 0 <= i < |sorted| => SampleKey(tenant, run, sorted[i]));
    forall i | 0 <= i < |sorted| ensures order[i] in keys && samples[order[i]].sampleId == sorted[i] {
      assert sorted[i] in sorted;
      var k :| k in keys && samples[k].sampleId == sorted[i];
      assert k == order[i];
    }
    forall k | k in keys ensures k in order {
      assert samples[k].sampleId in ids;
      var i :| 0 <= i < |sorted| && sorted[i] == samples[k].sampleId;
      assert order[i] == k;
    }
  }

  /** The loop of ClaimGroup that leases the chosen records one by one. */
  method LeaseLoop(samples: map<string, Record>, order: seq<string>, leaseId: string, owner: string, expires: Time,
                   ghost keys: set<string>)
    returns (after: map<string, Record>)
    requires BySample(samples, keys, order)
    requires forall i, j :: 0 <= i < j < |order| ==> order[i] != order[j]
    ensures after == AfterLease(samples, keys, leaseId, owner, expires)
  {
    after := samples;
    for i := 0 to |order|
      invariant after == map k | k in samples ::
                  if k in order[..i] then LeaseTo(samples[k], leaseId, owner, expires) else samples[k]
    {
      assert order[i] in order && order[i] !in order[..i] && order[..i + 1] == order[..i] + [order[i]];
      after := after[order[i] := LeaseTo(after[order[i]], leaseId, owner, expires)];
    }
    assert order[..|order|] == order;
  }

  /** Writes the blob first and the record after it. */
  method Insert(cfg: Config, p: Plane, e: Envelope, now: Time) returns (r: Result<(Record, bool)>, p': Plane)
    ensures r == PutOutcome(cfg, p, e, now)
    ensures p' == AfterPut(cfg, p, e, now)
  {
    p' := p;
    if !ValidEnvelope(e, cfg.maxTokens) {
      return Err(InvalidSample), p';
    }
    var groups := CollectGroups(p.samples, e.tenant, e.run);
    if |groups| >= cfg.highWatermark {
      return Err(Backpressure), p';
    }
    var raw := Encoded(e);
    var checksum := Sha256(raw);
    var put := PutIfAbsent(p.blobs, BlobKeyOf(e), raw, checksum);
    if put.Err? {
      return Err(put.error), p';
    }
    p' := p'.(blobs := put.value);
    var key := SampleKey(e.tenant, e.run, e.sampleId);
    if key in p.samples {
      return if p.samples[key].checksum != checksum then Err(DuplicateConflict) else Ok((p.samples[key], false)), p';
    }
    var record := Record(e.tenant, e.project, e.sampleId, e.run, e.group, e.policyVersion, BlobKeyOf(e), checksum,
                         Available, now, now + cfg.retention, "", "", NO_TIME);
    p' := p'.(samples := p.samples[key := record]);
    return Ok((record, true)), p';
  }

  // ----- The service -----

  /** There is a lease of this name, it is the owner's, and it has not ended. */
  ghost predicate HeldBy(samples: map<string, Record>, leaseId: string, owner: string, now: Time) {
    && (exists k :: k in samples && samples[k].leaseId == leaseId)
    && forall k :: k in samples && samples[k].leaseId == leaseId ==>
         samples[k].leaseOwner == owner && now <= samples[k].leaseExpiresAt
  }

  /** A sample is set aside for a malformed content, or for a reason that asks for it. */
  predicate IsDamning(reason: Reason) {
    match reason
    case BlobReadFailed => false
    case MalformedSample => true
    case OtherReason(text) => |text| >= 11 && text[..11] == "quarantine:"
  }

  lemma FinishesExactly(samples: map<string, Record>, leaseId: string, owner: string, now: Time)
    ensures FinishFails(samples, leaseId, owner, now) <==> !HeldBy(samples, leaseId, owner, now)
  {
    if exists k :: k in samples && samples[k].leaseId == leaseId {
      var k :| k in samples && samples[k].leaseId == leaseId;
      assert k in Holders(samples, leaseId);
    }
    forall k | k in samples && samples[k].leaseId == leaseId ensures k in Holders(samples, leaseId) {
    }
  }

  lemma FinishedAs(samples: map<string, Record>, leaseId: string, owner: string, finish: Finish, clock: string -> Time,
                   now: Time, after: map<string, Record>, ok: bool)
    requires Finishes(samples, leaseId, owner, finish, clock, now, after, ok)
    ensures ok ==> forall k :: k in Holders(samples, leaseId) ==> k in after && after[k].state == FinalState(finish)
    ensures OneSided(samples, leaseId, now, clock) ==>
              ok == HeldBy(samples, leaseId, owner, now) && (!ok ==> after == samples)
  {
    FinishesExactly(samples, leaseId, owner, now);
  }

  lemma DamnedAreSetAside(reason: Reason)
    ensures FinalState(Nacked(reason)) == if IsDamning(reason) then Quarantined else Available
  {
  }

  /** The least group that has as many available samples as were asked for. */
  method ChooseGroup(samples: map<string, Record>, tenant: string, run: string, expected: int)
    returns (found: bool, group: string, keys: set<string>)
    ensures found <==> CompleteGroups(samples, tenant, run, expected) != {}
    ensures found ==> IsLeast(CompleteGroups(samples, tenant, run, expected), group)
    ensures found ==> keys == GroupKeys(samples, tenant, run, group)
  {
    var byGroup := CollectByGroup(samples, tenant, run);
    var complete := set g | g in byGroup && |byGroup[g]| == expected;
    assert complete == CompleteGroups(samples, tenant, run, expected);
    found, group, keys := complete != {}, "", {};
    if found {
      group := Least(complete);
      keys := byGroup[group];
    }
  }

  class Store {
    const cfg: Config
    var samples: map<string, Record>
    var blobs: Blobs
    ghost var ledger: P.Ledger

    ghost function State(): Plane
      reads this
    {
      Plane(samples, blobs)
    }

    ghost predicate Valid()
      reads this
    {
      P.Inv(cfg, State(), ledger)
    }

    constructor (cfg: Config)
      ensures Valid() && this.cfg == cfg && State() == P.EMPTY && ledger == map[]
    {
      this.cfg, samples, blobs, ledger := cfg, map[], Blobs(map[], map[]), map[];
    }

    method Put(e: Envelope, now: Time) returns (r: Result<(Record, bool)>)
      requires Valid()
      modifies this`samples, this`blobs
      ensures Valid()
      ensures r == PutOutcome(cfg, old(State()), e, now)
      ensures P.Next(cfg, old(State()), ledger, P.Put(e, now), State(), ledger)
    {
      P.PutKeepsInv(cfg, State(), ledger, e, now);
      var p;
      r, p := Insert(cfg, Plane(samples, blobs), e, now);
      samples, blobs := p.samples, p.blobs;
    }

    lemma GroupIsKeyed(tenant: string, run: string, group: string)
      requires Valid()
      ensures KeyedBySample(samples, GroupKeys(samples, tenant, run, group), tenant, run)
    {
      forall k | k in GroupKeys(samples, tenant, run, group) ensures k == SampleKey(tenant, run, samples[k].sampleId) {
        assert P.SampleOk(cfg, blobs, ledger, k, samples[k]);
      }
    }

    /** Leases the least complete group, all of it, or finds none. */
    method ClaimGroup(tenant: string, run: string, expected: int, leaseId: string, owner: string, expires: Time,
                      ghost e: P.Event)
      returns (found: bool, group: string, order: seq<string>)
      requires Valid()
      requires e.Claim? && (e.tenant, e.run, e.owner, e.now + e.duration) == (tenant, run, owner, expires)
      modifies this`samples
      ensures found <==> CompleteGroups(old(samples), tenant, run, expected) != {}
      ensures !found ==> samples == old(samples)
      ensures found ==> IsLeast(CompleteGroups(old(samples), tenant, run, expected), group)
      ensures found ==> BySample(old(samples), P.ClaimedBy(old(State()), e, group).keys, order)
      ensures found ==> State() == P.Lend(old(State()), leaseId, P.ClaimedBy(old(State()), e, group))
    {
      order := [];
      var keys;
      found, group, keys := ChooseGroup(samples, tenant, run, expected);
      if !found {
        return;
      }
      GroupIsKeyed(tenant, run, group);
      order := SortBySample(samples, keys, tenant, run);
      OrderIsDistinct(samples, keys, order);
      ghost var c := P.ClaimedBy(State(), e, group);
      assert c.owner == owner && c.expires == expires;
      samples := LeaseLoop(samples, order, leaseId, owner, expires, c.keys);
      assert samples == P.Lend(old(State()), leaseId, c).samples;
    }

    /** Reads the clock once for each record of the lease.  As long as the lease does not end
        between two readings, all of its records move or none. */
    method FinishLease(leaseId: string, owner: string, finish: Finish, clock: string -> Time, ghost now: Time)
      returns (ok: bool)
      requires Valid() && now > NO_TIME
      modifies this`samples
      ensures Finishes(old(samples), leaseId, owner, finish, clock, now, samples, ok)
      ensures OneSided(old(samples), leaseId, now, clock) ==> Valid()
    {
      P.FinishKeepsInv(cfg, State(), ledger, leaseId, owner, finish, now);
      forall k | k in samples ensures P.LeaseOk(ledger, k, samples[k]) {
        assert P.SampleOk(cfg, blobs, ledger, k, samples[k]);
      }
      samples, ok := FinishLoop(samples, leaseId, owner, finish, clock, now, ledger);
    }

    /** Finishing a lease at one time. */
    method HandBack(leaseId: string, owner: string, reason: Reason, now: Time)
      requires Valid() && now > NO_TIME
      modifies this`samples
      ensures Valid() && samples == AfterFinish(old(samples), leaseId, owner, Nacked(reason), now)
    {
      var _ := FinishLease(leaseId, owner, Nacked(reason), _ => now, now);
    }

    /** Acknowledging and refusing a lease, the two public ways of finishing one. */
    method Ack(leaseId: string, owner: string, clock: string -> Time, ghost now: Time) returns (ok: bool)
      requires Valid() && now > NO_TIME
      modifies this`samples
      ensures ok ==> forall k :: k in Holders(old(samples), leaseId) ==> k in samples && samples[k].state == Consumed
      ensures OneSided(old(samples), leaseId, now, clock) ==>
                && Valid() && ok == HeldBy(old(samples), leaseId, owner, now) && (!ok ==> samples == old(samples))
                && P.Next(cfg, old(State()), ledger, P.Finish(leaseId, owner, Acked, now), State(), ledger)
    {
      ghost var before := samples;
      ok := FinishLease(leaseId, owner, Acked, clock, now);
      FinishedAs(before, leaseId, owner, Acked, clock, now, samples, ok);
    }

    method Nack(leaseId: string, owner: string, reason: Reason, clock: string -> Time, ghost now: Time)
      returns (ok: bool)
      requires Valid() && now > NO_TIME
      modifies this`samples
      ensures ok ==> forall k :: k in Holders(old(samples), leaseId) ==>
                k in samples && samples[k].state == if IsDamning(reason) then Quarantined else Available
      ensures OneSided(old(samples), leaseId, now, clock) ==>
                && Valid() && ok == HeldBy(old(samples), leaseId, owner, now) && (!ok ==> samples == old(samples))
                && P.Next(cfg, old(State()), ledger, P.Finish(leaseId, owner, Nacked(reason), now), State(), ledger)
    {
      ghost var before := samples;
      ok := FinishLease(leaseId, owner, Nacked(reason), clock, now);
      FinishedAs(before, leaseId, owner, Nacked(reason), clock, now, samples, ok);
      DamnedAreSetAside(reason);
    }

    /** Reads back a group that was just leased and ends the lease on trouble. */
    method Deliver(ghost p: Plane, ghost l: P.Ledger, ghost e: P.Event, ghost group: string, order: seq<string>,
                   leaseId: string, owner: string, returned: Time, unreadable: set<BlobKey>)
      returns (r: Result<seq<Envelope>>)
      requires P.Inv(cfg, p, l) && e.Claim? && leaseId != "" && leaseId !in l && returned > NO_TIME
      requires (e.leaseId, e.owner, e.returned, e.unreadable) == (leaseId, owner, returned, unreadable)
      requires IsLeast(CompleteGroups(p.samples, e.tenant, e.run, e.expected), group)
      requires BySample(p.samples, P.ClaimedBy(p, e, group).keys, order)
      requires State() == P.Lend(p, leaseId, P.ClaimedBy(p, e, group))
      requires ledger == l[leaseId := P.ClaimedBy(p, e, group)]
      modifies this`samples
      ensures Valid() && P.Claims(cfg, p, l, e, group, order, State(), ledger)
      ensures var leased := P.Lend(p, leaseId, P.ClaimedBy(p, e, group));
              && (forall k :: k in order ==> k in leased.samples)
              && r == Delivered(ReadSamples(cfg, leased, unreadable, order))
    {
      P.LeaseKeepsInv(cfg, p, l, leaseId, P.ClaimedBy(p, e, group));
      var back := ReadLoop(cfg, Plane(samples, blobs), unreadable, order);
      if back.Trouble? {
        HandBack(leaseId, owner, back.reason, returned);
      }
      r := Delivered(back);
    }

    /** Leases a group and reads it back.  What comes back is what was put, by rising
        sample identifier; a blob that cannot be read hands the group back untouched, unless
        the lease has ended by then. */
    method Claim(tenant: string, run: string, expected: int, owner: string, duration: int, leaseId: string, now: Time,
                 returned: Time, unreadable: set<BlobKey>)
      returns (r: Result<seq<Envelope>>, group: string, order: seq<string>)
      requires Valid() && leaseId != "" && leaseId !in ledger && NO_TIME < now <= returned
      modifies this`samples, this`ledger
      ensures Valid()
      ensures P.Next(cfg, old(State()), old(ledger),
                     P.Claim(tenant, run, expected, owner, duration, leaseId, now, returned, unreadable),
                     State(), ledger)
      ensures !P.ValidClaim(tenant, run, expected, owner, duration) ==> r == Err(InvalidClaim)
      ensures P.ValidClaim(tenant, run, expected, owner, duration)
              && CompleteGroups(old(samples), tenant, run, expected) == {} ==>
                r == Err(NoCompleteGroup)
      ensures P.ValidClaim(tenant, run, expected, owner, duration)
              && CompleteGroups(old(samples), tenant, run, expected) != {} ==>
                && IsLeast(CompleteGroups(old(samples), tenant, run, expected), group)
                && BySample(old(samples), GroupKeys(old(samples), tenant, run, group), order)
                && (r.Ok? <==> forall k :: k in order ==> old(samples)[k].blobKey !in unreadable)
      ensures r.Ok? ==> P.AllStored(cfg, old(State()), order) && r.value == P.StoredSamples(cfg, old(State()), order)
      ensures r.Err? ==> r.error != SampleMalformed && (returned <= now + duration ==> State() == old(State()))
    {
      group, order := "", [];
      if !P.ValidClaim(tenant, run, expected, owner, duration) {
        return Err(InvalidClaim), group, order;
      }
      ghost var p, l := State(), ledger;
      ghost var e := P.Claim(tenant, run, expected, owner, duration, leaseId, now, returned, unreadable);
      var found;
      found, group, order := ClaimGroup(tenant, run, expected, leaseId, owner, now + duration, e);
      if !found {
        return Err(NoCompleteGroup), group, order;
      }
      ledger := ledger[leaseId := P.ClaimedBy(p, e, group)];
      r := Deliver(p, l, e, group, order, leaseId, owner, returned, unreadable);
      DeliveredIsStored(cfg, p, l, e, group, order, State(), ledger);
    }

    /** Deletes the blobs of deleted records in turn; the first that fails ends the call. */
    method DeleteBlobsLoop(before: map<string, Record>, deleted: seq<string>, undeletable: set<BlobKey>)
      returns (count: nat)
      requires forall k :: k in deleted ==> k in before
      modifies this`blobs
      ensures count <= |deleted| && blobs == DeleteBlobs(old(blobs), BlobKeysOf(before, Listed(deleted[..count])))
      ensures count < |deleted| ==> before[deleted[count]].blobKey in undeletable
    {
      count := 0;
      assert BlobKeysOf(before, Listed(deleted[..0])) == {};
      while count < |deleted|
        invariant count <= |deleted| && blobs == DeleteBlobs(old(blobs), BlobKeysOf(before, Listed(deleted[..count])))
      {
        var key := before[deleted[count]].blobKey;
        if key in undeletable {
          return;
        }
        OneMoreBlob(old(blobs), before, deleted, count);
        blobs := Blobs(blobs.data - {key}, blobs.checksums - {key});
        count := count + 1;
      }
    }

    /** Releases ended leases, then drops records past their retention and their blobs. */
    method Sweep(now: Time, undeletable: set<BlobKey>) returns (released: nat, deleted: nat, ok: bool)
      requires Valid()
      modifies this`samples, this`blobs
      ensures Valid()
      ensures P.Next(cfg, old(State()), ledger, P.Sweep(now, undeletable), State(), ledger)
      ensures released == |EndedKeys(old(samples), now)| && (undeletable == {} ==> ok)
      ensures ok ==> deleted == |old(samples.Keys) - samples.Keys|
      ensures ok ==> forall k :: k in old(samples) && k !in samples ==> old(samples)[k].blobKey !in blobs.data
    {
      ghost var p := State();
      released, deleted, ok := SweepBoth(now, undeletable);
      P.SweepKeepsInv(cfg, p, ledger, now, State());
    }

    /** The sweep of the metadata and of the blobs, whatever state they are in. */
    method SweepBoth(now: Time, undeletable: set<BlobKey>) returns (released: nat, deleted: nat, ok: bool)
      modifies this`samples, this`blobs
      ensures P.Sweeps(old(State()), now, State())
      ensures released == |EndedKeys(old(samples), now)| && (undeletable == {} ==> ok)
      ensures ok ==> deleted == |old(samples.Keys) - samples.Keys|
      ensures ok ==> forall k :: k in old(samples) && k !in samples ==> old(samples)[k].blobKey !in blobs.data
    {
      ghost var p := State();
      samples, released := ReleaseLoop(samples, now);
      var before := samples;
      var gone;
      samples, gone := DeleteLoop(samples, now);
      deleted := DeleteBlobsLoop(before, gone, undeletable);
      ok := deleted == |gone|;
      SweepEnds(p, before, gone, deleted, State(), now);
    }

    /** All samples of a run that are still stored, by rising sample identifier. */
    method Export(tenant: string, run: string, unreadable: set<BlobKey>)
      returns (r: Result<seq<Envelope>>, order: seq<string>)
      requires Valid()
      ensures BySample(samples, RunKeys(samples, tenant, run), order) && P.AllStored(cfg, State(), order)
      ensures r == if P.AllReadable(State(), unreadable, order)
                   then Ok(P.StoredSamples(cfg, State(), order)) else Err(BlobUnreadable)
    {
      var keys := RunKeys(samples, tenant, run);
      forall k | k in keys ensures k == SampleKey(tenant, run, samples[k].sampleId) {
        assert P.SampleOk(cfg, blobs, ledger, k, samples[k]);
      }
      order := SortBySample(samples, keys, tenant, run);
      P.OrderIsStored(cfg, State(), ledger, order);
      var out := [];
      for i := 0 to |order|
        invariant out == P.StoredSamples(cfg, State(), order)[..i]
        invariant forall j :: 0 <= j < i ==> samples[order[j]].blobKey !in unreadable
      {
        assert order[i] in order;
        var key := samples[order[i]].blobKey;
        if key !in blobs.data || key in unreadable {
          return Err(BlobUnreadable), order;
        }
        // A stored blob is the encoding of a sample, so decoding it cannot fail.
        var raw := blobs.data[key];
        out := out + [raw.sample];
      }
      assert P.StoredSamples(cfg, State(), order)[..|order|] == P.StoredSamples(cfg, State(), order);
      r := Ok(out);
    }
  }

  lemma OneMoreBlob(blobs: Blobs, before: map<string, Record>, deleted: seq<string>, count: nat)
    requires count < |deleted| && forall k :: k in deleted ==> k in before
    ensures var key := before[deleted[count]].blobKey;
            var was := DeleteBlobs(blobs, BlobKeysOf(before, Listed(deleted[..count])));
            DeleteBlobs(blobs, BlobKeysOf(before, Listed(deleted[..count + 1]))) ==
              Blobs(was.data - {key}, was.checksums - {key})
  {
    var key := before[deleted[count]].blobKey;
    var some := BlobKeysOf(before, Listed(deleted[..count]));
    assert deleted[..count + 1] == deleted[..count] + [deleted[count]];
    assert BlobKeysOf(before, Listed(deleted[..count + 1])) == some + {key};
    assert blobs.data - some - {key} == blobs.data - (some + {key});
    assert blobs.checksums - some - {key} == blobs.checksums - (some + {key});
  }

  lemma {:induction false} ListedSize(keys: seq<string>)
    requires forall i, j :: 0 <= i < j < |keys| ==> keys[i] != keys[j]
    ensures |Listed(keys)| == |keys|
  {
    if keys != [] {
      var front, last := keys[..|keys| - 1], keys[|keys| - 1];
      ListedSize(front);
      assert Listed(keys) == Listed(front) + {last} && last !in Listed(front);
    }
  }

  lemma ReleaseKeepsBlobs(samples: map<string, Record>, now: Time)
    ensures AfterRelease(samples, now).Keys == samples.Keys
    ensures forall k :: k in samples ==> AfterRelease(samples, now)[k].blobKey == samples[k].blobKey
  {
  }

  /** Every record and every blob that was to go is gone. */
  lemma SweptThoroughly(samples: map<string, Record>, before: map<string, Record>, outlived: set<string>,
                        gone: seq<string>, blobs: Blobs)
    requires before.Keys == samples.Keys && outlived <= before.Keys
    requires forall k :: k in samples ==> before[k].blobKey == samples[k].blobKey
    requires forall k :: k in gone <==> k in outlived
    requires forall i, j :: 0 <= i < j < |gone| ==> gone[i] != gone[j]
    ensures |samples.Keys - (before - outlived).Keys| == |gone|
    ensures var after := DeleteBlobs(blobs, BlobKeysOf(before, Listed(gone[..|gone|])));
            forall k :: k in samples && k !in before - outlived ==> samples[k].blobKey !in after.data
  {
    ListedSize(gone);
    assert gone[..|gone|] == gone;
    assert samples.Keys - (before - outlived).Keys == Listed(gone);
    forall k | k in samples && k !in before - outlived ensures samples[k].blobKey in BlobKeysOf(before, Listed(gone)) {
      assert k in Listed(gone);
    }
  }

  lemma SweepEnds(p: Plane, before: map<string, Record>, gone: seq<string>, deleted: nat, p': Plane, now: Time)
    requires before == AfterRelease(p.samples, now) && p'.samples == before - OutlivedKeys(before, now)
    requires forall k :: k in gone <==> k in OutlivedKeys(before, now)
    requires forall k :: k in gone ==> k in before
    requires forall i, j :: 0 <= i < j < |gone| ==> gone[i] != gone[j]
    requires deleted <= |gone| && p'.blobs == DeleteBlobs(p.blobs, BlobKeysOf(before, Listed(gone[..deleted])))
    ensures P.Sweeps(p, now, p')
    ensures deleted == |gone| ==> deleted == |p.samples.Keys - p'.samples.Keys|
    ensures deleted == |gone| ==>
              forall k :: k in p.samples && k !in p'.samples ==> p.samples[k].blobKey !in p'.blobs.data
  {
    SomeBlobs(before, gone, deleted, OutlivedKeys(before, now));
    ReleaseKeepsBlobs(p.samples, now);
    SweptThoroughly(p.samples, before, OutlivedKeys(before, now), gone, p.blobs);
  }

  lemma SomeBlobs(before: map<string, Record>, deleted: seq<string>, count: nat, gone: set<string>)
    requires count <= |deleted| && gone <= before.Keys && forall k :: k in deleted <==> k in gone
    ensures BlobKeysOf(before, Listed(deleted[..count])) <= BlobKeysOf(before, gone)
  {
  }

  /** The records of a run, whatever their state. */
  function RunKeys(samples: map<string, Record>, tenant: string, run: string): set<string> {
    set k | k in samples && samples[k].tenant == tenant && samples[k].run == run
  }

  function Delivered(back: ReadBack): Result<seq<Envelope>> {
    match back
    case Payloads(samples) => Ok(samples)
    case Trouble(reason) => Err(if reason == BlobReadFailed then BlobUnreadable else SampleMalformed)
  }

  lemma DeliveredIsStored(cfg: Config, p: Plane, l: P.Ledger, e: P.Event, group: string, order: seq<string>, p': Plane,
                          l': P.Ledger)
    requires P.Inv(cfg, p, l) && e.Claim? && e.leaseId != "" && e.leaseId !in l && e.duration > 0
    requires P.Claims(cfg, p, l, e, group, order, p', l')
    ensures P.AllStored(cfg, p, order) && P.AllStored(cfg, P.Lend(p, e.leaseId, P.ClaimedBy(p, e, group)), order)
    ensures var r := Delivered(ReadSamples(cfg, P.Lend(p, e.leaseId, P.ClaimedBy(p, e, group)), e.unreadable, order));
            if forall k :: k in order ==> p.samples[k].blobKey !in e.unreadable
            then r.Ok? && r.value == P.StoredSamples(cfg, p, order)
            else r.Err? && r.error == BlobUnreadable && (e.returned <= e.now + e.duration ==> p' == p)
  {
    P.OrderIsStored(cfg, p, l, order);
    P.ClaimLeasesOrRestores(cfg, p, l, e, group, order, p', l');
    P.ClaimReadsBack(cfg, p, l, e, group, order);
    P.LendingKeepsSamples(cfg, p, e.leaseId, P.ClaimedBy(p, e, group), e.unreadable, order);
  }

  lemma OrderIsDistinct(samples: map<string, Record>, keys: set<string>, order: seq<string>)
    requires BySample(samples, keys, order)
    ensures forall i, j :: 0 <= i < j < |order| ==> order[i] != order[j]
  {
    forall i, j | 0 <= i < j < |order| ensures order[i] != order[j] {
      LessIsIrreflexive(samples[order[i]].sampleId);
    }
  }
}
