# Skyscale control plane: verified models

A Dafny model of the stateful protocols in Skyscale's Go control plane, and proofs of
what they promise over every input, every reachable state and every run.

* **Weight publication** (`Weight*.dfy`). Versions are published as full artifacts or as XOR
  deltas over a parent, materialised along the chain of parents with a cache,
  acknowledged by the engines they are required of, activated, promoted, rolled back, expired
  and garbage-collected. `WeightModel` holds the state and the effect of each call,
  `WeightMaterialize` the recursive materialisation, `WeightSuccess` when it succeeds,
  `WeightRetention` what a collection keeps, `WeightProtocol` and `WeightGuarantees` what holds over
  whole runs, `WeightProgress` what the calls bring about, `WeightOperations` and `WeightService` the
  calls as the service makes them.
* **Grouped sample data plane** (`DataPlane*.dfy`). Prompt groups leased to consumers with
  expiry, acknowledgement, refusal and quarantine, over metadata and blobs that must agree.
* **Fair scheduling** (`FairClaim.dfy`, `FairTickets.dfy`, `FairQueue.dfy`). The durable rotation of trainer claims
  between tenants, and the in-memory round robin.
* **Run reconciler** (`Reconciler*.dfy`, `RunCleanup.dfy`, `Autoscale.dfy`). Retries; evaluation,
  canary and promotion; deletion of exactly what a run owns; rollout scaling.
* **Printers and parsers** (`ShellQuoting.dfy`, `DeploymentSlugs.dfy`). Shell quoting, deployment
  slugs and proxy paths.

Conventions. Each public call is one atomic step. What a call reads from the clock is handed in;
the zero time comes before every reading. What a call meets outside (a store call that
fails, a job status, an object that lingers after its deletion) is handed in as well and is
otherwise arbitrary. SHA-256 is injective: a digest is a datatype value over the
payload. JSON decoding undoes encoding. Metrics and thresholds are real numbers. Status words,
error texts and checksum names are enumerations wherever the code only compares them. Unicode's
lower case and its letters and digits are parameters; a dash, a slash and the other punctuation that
matters here are neither letter nor digit.
A run is a sequence of states linked by steps; the theorems below quantify over all of them.

Where code and documentation differ, the code is followed: the comment above `FairQueue` calls it
deficit round robin, but it keeps no deficits, and plain round robin is what is modelled.

Results on properties the code does not have without a condition:

* Collection preserves the bytes of kept versions while publications keep their objects apart
  (`WeightRetention.CollectionPreservesBytes`). A kept version that shares its artifact with a
  collected one survives if and only if its cached result can still be read
  (`WeightRetention.SharedArtifactIsLost`), and the loss is reachable
  (`WeightGuarantees.LossIsReachable`).
* Finishing a lease moves all of its records or none if and only if the clock, which the code reads
  anew for each record, stays on one side of the lease's end (`DataPlaneProtocol.FinishIsWhole`).
  The protocol's steps take one reading for each call; the methods take one for each record.
* Promotion is earned unless somebody else points a run whose canary is out at a version still in
  its main evaluation. `ReconcilerGuarantees.UnearnedPromotion` is the equivalence,
  `ReconcilerGuarantees.UnearnedPromotionIsReachable` a run in which it happens.
* A published URL leads back to its deployment if and only if the web path is empty, or starts with
  a slash, is tidy and holds no character with a meaning in URLs
  (`DeploymentSlugs.DeployedPathIsFound`). The router in front of the proxy, gorilla/mux as
  control-plane/main.go:79-90 sets it up, redirects untidy paths.

## Model

| member | source | states |
|---|---|---|
| `WeightMaterialize.CacheIsTransparent` | control-plane/weights/service.go:249-296 | two states that differ in cached results only give the same bytes whenever both succeed, against two arbitrary stores |
| `WeightMaterialize.SuccessHasExpectedDigest` | control-plane/weights/service.go:257-289 | a successful materialisation, cached or computed, has the digest the manifest's own result checksum names, or the artifact's where it names none |
| `WeightMaterialize.RecomputedIsChainXor` | control-plane/weights/service.go:238-282 | with nothing cached a success is, byte by byte, the XOR of the artifacts of the whole chain down to the full base |
| `WeightMaterialize.MaterializedIsChainXor` | control-plane/weights/service.go:238-296 | the same through any set of cached ancestors, whenever the uncached recomputation succeeds |
| `WeightSuccess.MaterializesExactly` | control-plane/weights/service.go:249-296 | a version materialises to given bytes if and only if its parents lead without repetition to a readable cached result or a full artifact, every artifact above is readable with its recorded digest, all are equally long, the XOR from each version down has the digest its manifest promises, each result's place is writable and free or already holds it, and the bytes are the XOR |
| `WeightSuccess.RecomputesExactly` | control-plane/weights/service.go:263-295 | with nothing cached the same, over the whole chain down to the full base |
| `WeightSuccess.MaterializedAgain` | control-plane/weights/service.go:257-262 | a success is cached: materialising again from the store it leaves gives the same bytes |
| `WeightSuccess.FailureIsMarked` | control-plane/weights/service.go:305-310 | a stored version whose bytes cannot be built is failed |
| `WeightMaterialize.MaterializeFrame` | control-plane/weights/service.go:272-294 | materialisation changes cache entries and phases only, and none of a version whose own materialisation is under way |
| `WeightMaterialize.CycleIsRefused` | control-plane/weights/service.go:249-282 | a version whose parents run in a cycle of usable deltas is refused, with the cycle error when the artifacts can be read |
| `WeightGuarantees.CyclesAreReachable` | control-plane/weights/service.go:443-494 | any two versions can end up as deltas over each other: expiry, collection and republication reach such a state |
| `WeightGuarantees.CachedBytesAreTheChain` | control-plane/weights/service.go:249-296 | in every reachable state cached and recomputed bytes agree and are the chain's XOR, against arbitrary stores |
| `WeightGuarantees.CollectionPreservesReachableBytes` | control-plane/weights/service.go:443-494 | in every reachable state with separate URIs a collection leaves every kept version's result as it was, bytes or error, whether it is saved, unsaved or stopped by a failed delete |
| `WeightGuarantees.LossIsReachable` | control-plane/weights/service.go:443-494 | such a loss is reachable: two versions published on one artifact, the older timed out, and a collection after which the kept newer one, which materialised before, no longer does |
| `WeightGuarantees.ActivationIsReachable` | control-plane/weights/service.go:158-373 | registration, publication, materialisation and one acknowledgement reach a state in which any given version is active |
| `WeightRetention.CollectionKeepsReached` | control-plane/weights/service.go:450-480 | what a root (active, last-good, any engine's versions) or a chosen newest version reaches by parent links survives a collection unchanged |
| `WeightRetention.KeepSetIsClosed` | control-plane/weights/service.go:450-475 | the kept versions are closed under parents and include every root and every chosen newest version |
| `WeightRetention.MaterializeAgrees` | control-plane/weights/service.go:249-296 | materialising a version depends only on a parent-closed set of publications around it and on their objects |
| `WeightRetention.CollectionPreservesBytes` | control-plane/weights/service.go:476-493 | kept versions materialise to the same bytes or the same error after a full, unsaved or partial collection |
| `WeightRetention.SharedArtifactIsLost` | control-plane/weights/service.go:481-488 | without separate URIs it fails: a kept version sharing its artifact with a collected one can be materialised afterwards if and only if its cached result can still be read, and is otherwise reported unreadable |
| `WeightRetention.CollectionSparesOtherRuns` | control-plane/weights/service.go:481-488 | a collection leaves another run's versions alone when it sweeps none of that run's objects |
| `WeightRetention.MaterializedUriInjective` | control-plane/weights/service.go:290 | within a run no two versions cache their result in the same place |
| `WeightProtocol.ReachableStatesAreSafe` | control-plane/weights/service.go:221-235 | in every reachable state only the named version is active, active and last-good are stored and fully acknowledged, required engines are registered, and an engine not draining serves nothing or a fully acknowledged stored version |
| `WeightProtocol.RunKeepsInv` | control-plane/weights/service.go:158-494 | the full invariant holds of every state of every run of register, publish, materialise, acknowledge, mark-good, rollback, expire and collect steps |
| `WeightProtocol.ActivationHasQuorum` | control-plane/weights/service.go:319-373 | a publication enters the active state only by an acknowledgement, with acknowledgements equal to its non-empty required set, each traced to an earlier call for this very release with the expected digest before the deadline |
| `WeightProtocol.AckHistory` | control-plane/weights/service.go:339-357 | every recorded acknowledgement goes back to such a call, and the release has been stored with it ever since |
| `WeightProtocol.RollbackTargetIsServable` | control-plane/weights/service.go:394-412 | the version a rollback answers with is stored, fully acknowledged, and materialised in place under its expected digest |
| `WeightProtocol.AckCompletesQuorum` | control-plane/weights/service.go:355-364 | counting acknowledgements is enough: equal counts mean equal sets |
| `WeightProgress.QuorumActivates` | control-plane/weights/service.go:339-372 | for every non-empty set of missing engines and every order of them: acknowledging in time with the result digest is accepted each time, activates at the last call and not before, and then every required engine is to serve the version |
| `WeightProgress.LastAckActivates` | control-plane/weights/service.go:355-372 | the last missing acknowledgement makes the version active and last-good if there was none, supersedes the previous one, and points and undrains every required engine |
| `WeightProgress.AckIsRecorded` | control-plane/weights/service.go:355-360 | an earlier one is recorded and leaves the version waiting |
| `WeightProgress.WrongDigestDrains` | control-plane/weights/service.go:350-354 | an engine reporting other bytes is refused and drained, and nothing else changes |
| `WeightProgress.LateAckFails` | control-plane/weights/service.go:345-349 | an engine past the deadline fails the version and is drained |
| `WeightProgress.StrayAckIsRefused` | control-plane/weights/service.go:339-344 | an acknowledgement nobody waits for changes nothing |
| `WeightProgress.RollbackRepoints` | control-plane/weights/service.go:394-412 | a rollback makes last-good active, points every engine at it and drains it, and marks only the version that was active |
| `WeightProgress.ReturnedEngineServes` | control-plane/weights/service.go:330-338 | after a rollback an engine that reports the digest of the last-good version serves it again |
| `WeightProgress.RegistrationIsMild` | control-plane/weights/service.go:168-174 | a new engine is entered idle, a known one at most learns the version it runs, and no other changes |
| `WeightProgress.PublishesExactly` | control-plane/weights/service.go:194-234 | a new version is accepted if and only if its checksum, parent, result checksum and engines are in order; it is stored waiting until its deadline, and exactly the required engines are drained for it |
| `WeightProgress.RepublishingIsIdempotent` | control-plane/weights/service.go:206-211 | a stored version is refused if and only if the artifact differs, and never changes |
| `WeightProgress.PromotionRecords` | control-plane/weights/service.go:382-390 | promotion records last-good for the run and exactly the engines running the version |
| `WeightProgress.ExpiresExactly` | control-plane/weights/service.go:421-438 | exactly the overdue waiting versions fail; exactly the engines one of them lacks are drained and sent back to the active or last-good version |
| `WeightProgress.CollectsExactly` | control-plane/weights/service.go:450-492 | a collection removes exactly the versions that neither wait for acknowledgements nor are led to from the run, an engine or the newest |
| `WeightProtocol.MaterializeKeepsCache` | control-plane/weights/service.go:283-295 | recorded cache entries are in place and carry the expected digest |
| `WeightProtocol.MaterializedIsInPlace` | control-plane/weights/service.go:298-317 | after a success the version is cached in its place under the digest of its bytes |
| `WeightProtocol.CollectKeepsInv` | control-plane/weights/service.go:461-492 | a collection never removes the active, last-good or any desired version, so the invariant survives |
| `WeightOperations.ApplyXorDelta` | control-plane/weights/service.go:238-247 | the byte loop gives the pointwise XOR, or the size error |
| `WeightOperations.RetainChain` | control-plane/weights/service.go:451-460 | terminates on every parent graph; the result is closed under parents and adds only what the version reaches |
| `WeightOperations.SortNewestFirst` | control-plane/weights/service.go:468-472 | every publication once, by falling optimizer step |
| `WeightOperations.PrefixIsNewest` | control-plane/weights/service.go:472-475 | the first n of that order are a choice of the n highest steps |
| `WeightOperations.KeepSet` | control-plane/weights/service.go:450-475 | the computed set is exactly what the roots and some n newest publications reach |
| `WeightOperations.Enter` | control-plane/weights/service.go:184-234 | every refusal of a publication and the state after an accepted one |
| `WeightOperations.ClaimEngines` | control-plane/weights/service.go:221-229 | all required engines are registered or the publication is refused; each is pointed at the version and drained |
| `WeightOperations.Receive` | control-plane/weights/service.go:326-372 | outcome and new state of an acknowledgement, in all eight branches |
| `WeightOperations.ActivateLoop` | control-plane/weights/service.go:361-371 | activation supersedes the previous version and sets exactly the required engines |
| `WeightOperations.Promote` | control-plane/weights/service.go:385-390 | promotion marks the version last-good for the run and for the engines on it |
| `WeightOperations.ReturnToLastGood` | control-plane/weights/service.go:404-410 | rollback re-points and drains every engine |
| `WeightOperations.ExpireDue` | control-plane/weights/service.go:421-438 | exactly the in-flight publications past their deadline fail, and exactly the engines missing from one of them are drained |
| `WeightService.Service.RegisterEngine` | control-plane/weights/service.go:158-176 | the saved state, the error cases, and a legal protocol step |
| `WeightService.Service.Publish` | control-plane/weights/service.go:183-236 | refusal, idempotence, the saved state, and a legal protocol step |
| `WeightService.Service.MaterializeLocked` | control-plane/weights/service.go:249-296 | the recursion changes store and state as the specification function says, and terminates on cyclic graphs |
| `WeightService.Service.Materialize` | control-plane/weights/service.go:298-317 | succeeds if and only if the bytes can be built and the outcome is saved; answers their place and their digest; a failure marks the version failed |
| `WeightService.Service.Acknowledge` | control-plane/weights/service.go:319-373 | outcome, what is saved in each branch, and a legal protocol step |
| `WeightService.Service.MarkGood` | control-plane/weights/service.go:375-392 | succeeds for the active version only |
| `WeightService.Service.Rollback` | control-plane/weights/service.go:394-412 | answers a stored, fully acknowledged version, which is then active and every engine's desired version |
| `WeightService.Service.Expire` | control-plane/weights/service.go:414-441 | exactly the expired versions in increasing order, the saved state, and a legal protocol step |
| `WeightService.Service.Sweep` | control-plane/weights/service.go:476-492 | deletes only objects of collectable versions; without a failed delete all of them, each removed manifest listed once |
| `WeightService.Service.GarbageCollect` | control-plane/weights/service.go:443-494 | a collection whose keep set is exactly what the roots and the newest versions reach; an error saves nothing; a success has deleted the artifact and the cached result of every removed version and lists every removed manifest once |
| `DataPlaneProtocol.RunKeepsInv` | control-plane/dataplane/store.go:98-194 | in every reachable state every record's blob is present with its checksum, lease fields match the granted lease, and leases are whole |
| `DataPlaneProtocol.LeasesAreWhole` | control-plane/dataplane/store.go:300-327 | the records under a lease are exactly the group one earlier claim was granted: one tenant, run, group, owner and expiry, of the size asked for |
| `DataPlaneProtocol.LeaseMovesWhole` | control-plane/dataplane/store.go:329-383 | a step takes all records of a lease out of it or none |
| `DataPlaneProtocol.LeaseMovesAlike` | control-plane/dataplane/store.go:329-370 | records of one lease that stay stored end up in the same state |
| `DataPlaneProtocol.LossIsUniform` | control-plane/dataplane/store.go:333-339 | a caller has lost its hold on all records of a lease or on none, and always on the empty lease |
| `DataPlaneProtocol.ExpiryIsUniform` | control-plane/dataplane/store.go:358-370 | expiry releases all records of a lease or none |
| `DataPlaneProtocol.FinishIsWhole` | control-plane/dataplane/store.go:333-351 | with the clock read anew for each record, finishing moves all records of a lease or none if and only if the clock does not pass the lease's end between the first and the last |
| `DataPlaneProtocol.FinishAtOnce` | control-plane/dataplane/store.go:333-351 | with one reading, finishing record by record in any order is the one-step finish of the protocol |
| `DataPlaneProtocol.RecordMoves` | control-plane/dataplane/store.go:277-383 | every step takes a record it keeps through one of four legal moves, and only a put makes a new one |
| `DataPlaneProtocol.SettledForGood` | control-plane/dataplane/store.go:329-370 | a consumed or quarantined record never changes again while it is stored, in any run |
| `DataPlaneProtocol.StoredSampleWasPut` | control-plane/dataplane/store.go:98-133 | every stored record is that of a sample an earlier put accepted, stored as that sample ever since, its blob holding exactly it |
| `DataPlaneProtocol.RetentionIsKept` | control-plane/dataplane/store.go:372-383 | over every run a stored sample goes if and only if a sweep comes no earlier than the retention after its put and no lease on it runs beyond that time |
| `DataPlaneProtocol.PutsExactly` | control-plane/dataplane/store.go:98-133 | a valid sample is taken if and only if fewer groups than the high watermark are open and no other sample has its identifier; a new one is then available and unleased, and no other record changes |
| `DataPlaneProtocol.KeysAreApart` | control-plane/dataplane/store.go:269-271 | different tenants, runs or identifiers have different keys, as long as no tenant or run has a NUL in its name |
| `DataPlaneProtocol.ReachableBlobsAreNotShared` | control-plane/dataplane/store.go:113-118 | no two stored records share a blob |
| `DataPlaneProtocol.StoredSamplesReadBack` | control-plane/dataplane/store.go:144-161 | reading stored samples back gives the samples put, or a read failure, never a malformed one |
| `DataPlaneProtocol.ClaimLeasesOrRestores` | control-plane/dataplane/store.go:135-163 | a claim leases its whole group, or leaves everything as it was: the latter exactly when a blob cannot be read and the lease is handed back before it ends |
| `DataPlaneProtocol.ClaimReturnsWhatWasPut` | control-plane/dataplane/store.go:135-163 | in every reachable state a readable claim hands over exactly the stored samples, and for each there is an earlier put of that very sample, stored ever since |
| `DataPlaneProtocol.RunStoresWhatWasPut` | control-plane/dataplane/store.go:144-161 | for any stored keys read back in a reachable state, by a claim or by an export, each sample was put by an earlier event and stored ever since |
| `DataPlaneProtocol.DeleteKeepsInv` | control-plane/dataplane/store.go:183-192 | deleting outlived records and any part of their blobs takes no other record's blob |
| `DataPlaneStore.CollectGroups` | control-plane/dataplane/store.go:288-298 | the groups with an available sample |
| `DataPlaneStore.CollectByGroup` | control-plane/dataplane/store.go:303-308 | the available samples of each group |
| `DataPlaneStore.ChooseGroup` | control-plane/dataplane/store.go:309-320 | the least group with exactly as many available samples as asked for, if there is one |
| `DataPlaneStore.FinishLoop` | control-plane/dataplane/store.go:329-356 | with a reading of the clock for each record: only holders looked at in time are released; on success all of them; and unless the lease ends between two readings the early return is harmless in any order of iteration |
| `DataPlaneStore.ReleaseLoop` | control-plane/dataplane/store.go:358-370 | exactly the ended leases are released, and counted |
| `DataPlaneStore.DeleteLoop` | control-plane/dataplane/store.go:372-383 | exactly the outlived records that are not leased go, each listed once |
| `DataPlaneStore.ReadLoop` | control-plane/dataplane/store.go:144-161 | reads up to the first failure |
| `DataPlaneStore.SortBySample` | control-plane/dataplane/store.go:321 | the group's keys by rising sample identifier |
| `DataPlaneStore.Insert` | control-plane/dataplane/store.go:98-133 | outcome and state of a put, in every branch |
| `DataPlaneStore.Store.Put` | control-plane/dataplane/store.go:98-133 | a put is a legal step and keeps the invariant |
| `DataPlaneStore.Store.ClaimGroup` | control-plane/dataplane/store.go:300-327 | leases all of the least complete group, or finds none |
| `DataPlaneStore.Store.FinishLease` | control-plane/dataplane/store.go:329-356 | the same, without any condition on the clock; while the readings stay on one side of the lease's end it fails exactly when the lease is missing, expired or another's, and then changes nothing |
| `DataPlaneStore.Store.Ack` | control-plane/dataplane/store.go:165-167 | on success all records of the lease are consumed; while the readings stay on one side of the lease's end it succeeds if and only if the lease exists, is the owner's and has not ended, changes nothing otherwise, and is a legal step |
| `DataPlaneStore.Store.Nack` | control-plane/dataplane/store.go:169-171 | on success all records are quarantined for a malformed sample or a reason that asks for it, and available otherwise; it succeeds exactly when an acknowledgement would |
| `DataPlaneStore.Store.Claim` | control-plane/dataplane/store.go:135-163 | finds the least complete group; succeeds if and only if all its blobs can be read, with the samples put, in order; never a malformed sample; an error leaves the state unchanged unless the lease ended before the hand-back |
| `DataPlaneStore.Store.Sweep` | control-plane/dataplane/store.go:178-194 | a legal step that keeps the invariant, also when a blob delete fails; otherwise every removed record's blob is gone and counted |
| `DataPlaneStore.Store.Export` | control-plane/dataplane/store.go:196-214 | every stored sample of the run, exactly as put, by sample identifier |
| `FairClaim.OthersGoAtMostOnce` | control-plane/state/state.go:762-811 | while a tenant waits ungranted every other tenant is granted at most one turn, whoever comes and goes |
| `FairClaim.NextTenantIsOnTheWay` | control-plane/state/state.go:786-795 | the rotation never passes over a waiting tenant |
| `FairClaim.RotationStaysBehind` | control-plane/state/state.go:786-800 | after a turn the rotation stays between the served and the waiting tenant |
| `FairClaim.GrantIsFirstComeFirstServed` | control-plane/state/state.go:769-807 | a granted turn takes the tenant's oldest ticket, which is the caller's own, and removes nothing else |
| `FairTickets.CallLeaves` | control-plane/state/state.go:762-811 | over every run: a caller's first refused call adds one ticket at the end, a later one changes nothing, a granted one takes the caller's ticket away; every other caller's tickets stay as they are, in order |
| `FairTickets.OneTicketEach` | control-plane/state/state.go:765-768 | over every run no two tickets are of the same run and owner |
| `FairTickets.HeadIsGranted` | control-plane/state/state.go:786-808 | whoever holds the first ticket of the tenant whose turn it is gets the turn by calling |
| `FairTickets.SomebodyIsUp` | control-plane/state/state.go:786-796 | as long as anybody waits it is some waiting tenant's turn |
| `FairClaim.RunIsInOrder` | control-plane/state/state.go:765-772 | under a clock that does not go back the table is read in order of arrival |
| `FairClaim.FirstByTenant` | control-plane/state/state.go:773-780 | the first ticket of each tenant |
| `FairClaim.SelectTenant` | control-plane/state/state.go:786-795 | the least tenant above the last one served, or the least of all |
| `FairClaim.Claims.AcquireTurn` | control-plane/state/state.go:762-811 | one call as the specification says: granted exactly when the next tenant's first ticket is the caller's |
| `FairQueue.ItemsAreConserved` | control-plane/rlservice/policy.go:102-131 | per tenant, what was pushed is what was popped followed by what waits, in order |
| `FairQueue.EveryoneIsServedInBetween` | control-plane/rlservice/policy.go:112-131 | between two items of one tenant every other tenant with a non-empty queue is served, with the tenants fixed |
| `FairQueue.CursorStaysBehind` | control-plane/rlservice/policy.go:118-129 | after a pop the cursor stays between the served place and the waiting one |
| `FairQueue.RoundRobin.Push` | control-plane/rlservice/policy.go:102-110 | appends to the tenant's queue and keeps the tenants sorted |
| `FairQueue.RoundRobin.Pop` | control-plane/rlservice/policy.go:112-131 | serves the first non-empty tenant round from the cursor, and fails exactly when all queues are empty |
| `ReconcilerRuns.PromotionIsEarned` | control-plane/rlservice/reconciler.go:413-521 | the last-good version changes only to the version under evaluation, with main and canary gates passed by reports whose passes have stood since, no failed verdict, and active with a full quorum in the weight service, as long as nobody points a run whose canary is out at a version still in its main evaluation |
| `ReconcilerRuns.LastGoodChangesByPromotion` | control-plane/rlservice/reconciler.go:500-512 | a step changes the last-good version exactly when it is a promoting reconcile |
| `ReconcilerRuns.RunKeepsCanary` | control-plane/rlservice/reconciler.go:445-469 | while the canary is out the main evaluation is over: a pass on passed gates, or a failure |
| `ReconcilerRuns.PassHistory` | control-plane/api/rl_services.go:524-538 | a recorded pass goes back to a report whose metrics met every gate, and has stood ever since |
| `ReconcilerProgress.EvaluationSettles` | control-plane/rlservice/reconciler.go:413-521 | how a reconcile of an evaluation ends, from the record and the observed jobs: a failure rolls run, weight service and every engine back to last-good whenever that is possible, a passed canary promotes whenever that is possible, a passed main evaluation sends the canary out, and nothing else moves run or weights |
| `ReconcilerProgress.JobDecides` | control-plane/rlservice/reconciler.go:307-402 | the observed job decides how its attempt and the run go on; a run without a checkpoint takes over the latest; earlier attempts and weights stay |
| `ReconcilerProgress.PostExactly` | control-plane/api/rl_services.go:516-542 | a report leaves a pass of its phase if and only if every gate is met, and a failure otherwise; the other phase and other records stay |
| `ReconcilerGuarantees.UnearnedPromotion` | control-plane/rlservice/reconciler.go:500-507 | a run repointed in mid-canary can be promoted unearned by the next reconcile if and only if the version is promotable and its main evaluation was not over when the run was pointed at it |
| `ReconcilerGuarantees.RepointedCanBePromoted` | control-plane/rlservice/reconciler.go:413-515 | a repointed run can be promoted if and only if the version has an unfailed record with a passed canary, the attempt is stored and the weight service has the version active |
| `ReconcilerGuarantees.PromotionIsReachable` | control-plane/rlservice/reconciler.go:413-521 | whenever the gates can be met, any version can come to be promoted with its promotion earned |
| `ReconcilerGuarantees.UnearnedPromotionIsReachable` | control-plane/api/rl_services.go:413-420 | whenever the gates can be met, some run reaches a canary that an acknowledgement can repoint to a version promotable without any main report |
| `ReconcilerRuns.AttemptsAreBounded` | control-plane/rlservice/reconciler.go:307-332 | attempts are numbered 1, 2, 3 without a gap, at most maxRetries + 1 and never more than 11 |
| `ReconcilerRuns.AlwaysFailing` | control-plane/rlservice/reconciler.go:348-403 | in any interleaving in which no job is seen to succeed, with running jobs, failed calls, suspensions and evaluations in between: attempts are the failures seen, plus one while an attempt is open; and the run is failed if and only if maxRetries + 1 failures were seen |
| `ReconcilerRuns.EarlierAttemptsFailed` | control-plane/rlservice/reconciler.go:374-390 | over every run only a failed attempt is followed by another, and a failed run has made exactly maxRetries + 1 attempts, all of them failed |
| `ReconcilerModel.MaxRetries` | control-plane/rlservice/reconciler.go:380-385 | the retry bound is the argument where that is 0 to 10, and 2 otherwise |
| `Reconciler.EvaluateGates` | control-plane/rlservice/policy.go:47-69 | passes if and only if no gate lacks its metric, has an unknown operator or is beyond its threshold |
| `Reconciler.RunController.EnsureCurrent` | control-plane/rlservice/reconciler.go:307-332 | afterwards the current attempt is the last one and stored, earlier ones are untouched and have failed, and there are at most maxRetries + 1 |
| `Reconciler.RunController.ObserveRayJob` | control-plane/rlservice/reconciler.go:348-403 | no status adds an attempt; the run fails if and only if the failed job is that of attempt maxRetries + 1, and otherwise a failed job leaves room for another |
| `Reconciler.RunController.TryAttempt` | control-plane/rlservice/reconciler.go:131-188 | keeps the invariant and the last-good version; attempts only grow, up to maxRetries + 1; a run that fails has used them all up |
| `Reconciler.RunController.WindDown` | control-plane/rlservice/reconciler.go:99-127 | a cancelling run is cancelled if and only if its resources are reported deleted; another is cancelling or suspended if and only if its resources were suspended; nothing but the status changes |
| `Reconciler.RunController.FollowJobs` | control-plane/rlservice/reconciler.go:432-485 | a canary goes out only for a version that passed its gates, and no job status makes a canary pass |
| `Reconciler.RunController.ReconcileEvaluation` | control-plane/rlservice/reconciler.go:413-485 | keeps the invariant and the attempts; rolls back, promotes or sends the canary out exactly as the record and the jobs call for; last-good changes only if earned |
| `Reconciler.RunController.Conclude` | control-plane/rlservice/reconciler.go:486-520 | a failed verdict points run and weight service at last-good whenever that is possible; last-good changes only beside a passed canary and no failed verdict, and then run and weight service agree on it |
| `Reconciler.RunController.Reconcile` | control-plane/rlservice/reconciler.go:61-189 | a legal step that keeps the invariant: attempts only grow, up to maxRetries + 1; a failed run has used them all up; an evaluation is rolled back, promoted or carried on exactly as called for; last-good changes only if earned |
| `Reconciler.RunController.Report` | control-plane/api/rl_services.go:497-548 | accepted if and only if the version is under evaluation and every gate is met; leaves a pass of its phase exactly then and a failure otherwise, and no other record changes; a legal step that keeps the invariant |
| `RunCleanup.Cleaner.DiscoverKind` | control-plane/rlservice/reconciler.go:208-230 | exactly the labelled objects of the kind are recorded, under their present identity |
| `RunCleanup.Cleaner.DiscoverOwned` | control-plane/rlservice/reconciler.go:205-232 | every labelled object of the six kinds is recorded; other records stay |
| `RunCleanup.FilterFinalizers` | control-plane/rlservice/reconciler.go:544-550 | drops the controller's finalizer and keeps all others, in order |
| `RunCleanup.Cleaner.DeleteOne` | control-plane/rlservice/reconciler.go:535-576 | touches one object, and only with the run's labels and the recorded identity; a stranger is refused and kept |
| `RunCleanup.Cleaner.DeleteOwned` | control-plane/rlservice/reconciler.go:523-579 | reports completion only when every recorded resource of a known kind is gone, and leaves exactly the records of unknown kinds; touches owned objects only; completes when nothing stands in the way |
| `RunCleanup.Cleaner.FinishCancelling` | control-plane/rlservice/reconciler.go:96-119 | the run's status becomes cancelled only when no recorded resource of a known kind and no labelled resource is left; nothing unowned was touched; and the status is the one the reconciler's model gives for these answers |
| `ShellQuoting.CommandLineReadsBack` | control-plane/k8s/render.go:268-275 | tokenising the command line by the POSIX shell's quoting rules gives back exactly the arguments, for every list |
| `ShellQuoting.CommandLineIsInjective` | control-plane/k8s/render.go:268-275 | two argument lists never print alike |
| `ShellQuoting.ReadEscaped` | control-plane/k8s/render.go:272 | a quoted argument is read as one word, embedded quotes included |
| `ShellQuoting.ShellCommand` | control-plane/k8s/render.go:268-275 | the loop prints every argument quoted, joined by blanks |
| `DeploymentSlugs.Slugify` | control-plane/deployment/deployment.go:71-90 | the loop computes the runs of letters and digits joined by single dashes |
| `DeploymentSlugs.Collapse` | control-plane/deployment/deployment.go:86-88 | halving until no double dash is left squeezes every run of dashes to one |
| `DeploymentSlugs.SlugIsClean` | control-plane/deployment/deployment.go:71-90 | no dash at either end, no double dash, no slash |
| `DeploymentSlugs.SlugSplitsUniquely` | control-plane/deployment/deployment.go:94 | a joined slug determines both of its parts |
| `DeploymentSlugs.DeploymentsAreKeptApart` | control-plane/deployment/deployment.go:94-98 | two deployments share a slug exactly when both parts agree |
| `DeploymentSlugs.ProxyRecovers` | control-plane/deployment/deployment.go:214-230 | a published path is taken apart into exactly its slug and web path if and only if the web path starts with a slash |
| `DeploymentSlugs.SplitIsExact` | control-plane/deployment/deployment.go:214-249 | only the published path itself, or the bare slug for the root, is taken apart into a given slug and web path |
| `DeploymentSlugs.PlainIsReadBack` | control-plane/deployment/deployment.go:215 | cutting a URL text at its query or fragment and decoding it gives the text back exactly when it holds no such character and no escape |
| `DeploymentSlugs.DeployedPathIsFound` | control-plane/deployment/deployment.go:94-253 | a request for a deployment's published URL arrives at its slug and web path if and only if the web path is empty, or starts with a slash, has no empty or dot segment, and holds no '?', '#' or '%' |
| `DeploymentSlugs.BareSlugIsRoot` | control-plane/deployment/deployment.go:222-249 | a request for the bare slug is one for the root |
| `Autoscale.DesiredRolloutReplicas` | control-plane/rlservice/autoscale.go:19-42 | the least count within the bounds that covers queue, trainer and current count, and exceeds the current one when generation is slow; the upper bound if none does; the lower bound under backpressure |
| `Autoscale.DesiredIsLeastEnough` | control-plane/rlservice/autoscale.go:19-42 | the specification used for repeated reconciles is that least count |
| `Autoscale.QueueTargetIsLeast` | control-plane/rlservice/autoscale.go:24-25 | the queue target is the least number of replicas whose capacity covers the queue |
| `Autoscale.StaysInBounds` | control-plane/rlservice/autoscale.go:35-41 | the result is within the topology's bounds |
| `Autoscale.NeverFalls` | control-plane/rlservice/reconciler.go:142-155 | under steady metrics without backpressure the count is in bounds after each reconcile and never falls from then on |
| `Autoscale.Settles` | control-plane/rlservice/reconciler.go:142-155 | under steady metrics without backpressure the count no longer changes after as many reconciles as the bound allows replicas |

## Left out

- HTTP routing, request decoding, SQL, object-store, Redis and Kubernetes transport, provider clients and the Python training code: foreign calls, present only as the maps and answers they stand for.
- The dashboard, the command line, metrics, the event log and the benchmark scripts: plumbing with easy properties only.
- Kubernetes manifest rendering apart from the command line: large literal maps.
- EngineInstruction, MaterializedArtifact and State of the weight service: reads with easy properties only.
- The SQL metadata store and the object-store adapters of the data plane: the in-memory stores are modelled.
- EvaluateSample, ValidateQuota and the suspension of resources: easy members only.
- RunCleanup.Cleaner.DeleteOwned: takes the recorded resources in any order, where the database lists them by kind and name.
- ReconcilerRuns.PromotionIsEarned: each reconcile is atomic; a report that arrives between a reconcile's read and its save is not modelled.
- DataPlaneStore.Store.FinishLease: promises the invariant only while the lease does not end between two readings; `DataPlaneProtocol.FinishIsWhole` shows that this is exactly when its records move together.
- DataPlaneStore.Store.Claim: one reading covers the whole hand-back of an unreadable group.
- WeightRetention.CollectionPreservesBytes: separate URIs are sufficient; the exact condition is proved for a kept version that shares its own artifact, not for one whose ancestors do.
- ReconcilerRuns.AttemptsAreBounded: database writes succeed; an attempt saved without its run is not modelled.
- FairQueue.EveryoneIsServedInBetween: needs a fixed set of tenants, since a new tenant shifts the places the cursor points at.
- Autoscale.Settles: arithmetic is over real numbers, without floating-point rounding; draining runs are not covered.
- Spaces, control characters and letters beyond ASCII in a published URL, which clients encode or refuse in their own ways, and the host part of the URL.
- A file-store read error when loading a run's weight state: it ends the call before anything changes.
