/** Cleaning up after a cancelled run: rebuilding the record of what the run owns in the
    cluster, and deleting exactly that. */
module RunCleanup {
  import opened Basics
  import M = ReconcilerModel

  datatype Kind = RayJob | Deployment | Service | ConfigMap | Job | PersistentVolumeClaim
    | Secret | OtherKind(text: string)

  datatype ObjectKey = ObjectKey(kind: Kind, namespace: string, name: string)

  /** managedBy and run are the two ownership labels; a missing label reads as "". */
  datatype Object = Object(uid: string, managedBy: string, run: string, finalizers: seq<string>)

  datatype Record = Record(uid: string, deletionPending: bool)

  const MANAGER := "skyscale"
  const FINALIZER := "rl.skyscale.dev/finalizer"
  const RUN_TYPES: seq<Kind> := [RayJob, Deployment, Service, ConfigMap, Job, PersistentVolumeClaim]

  /** The six kinds a run's resources are made of. */
  predicate IsRunType(kind: Kind) {
    kind.RayJob? || kind.Deployment? || kind.Service? || kind.ConfigMap? || kind.Job? || kind.PersistentVolumeClaim?
  }

  /** The kinds a client is known for. */
  predicate IsKnown(kind: Kind) {
    !kind.OtherKind?
  }

  predicate IsOwned(resource: Object, runId: string) {
    resource.managedBy == MANAGER && resource.run == runId
  }

  /** What the cluster answers during one call: the calls that fail, and the objects that
      linger after a delete, waiting for their dependents. */
  datatype Answers = Answers(
    unlisted: set<Kind>, unread: set<ObjectKey>, unapplied: set<ObjectKey>, undeleted: set<ObjectKey>,
    lingering: set<ObjectKey>, unconfirmed: set<ObjectKey>)

  /** Every call goes through and no object lingers. */
  predicate IsSmooth(a: Answers) {
    a == Answers({}, {}, {}, {}, {}, {})
  }

  /** Removes the controller's own finalizer and keeps the others, in order. */
  function OtherFinalizers(finalizers: seq<string>): seq<string> {
    if finalizers == [] then []
    else (if finalizers[0] == FINALIZER then [] else [finalizers[0]]) + OtherFinalizers(finalizers[1..])
  }

  lemma {:induction false} KeepsOtherFinalizers(finalizers: seq<string>)
    ensures FINALIZER !in OtherFinalizers(finalizers)
    ensures forall f :: f != FINALIZER ==> multiset(OtherFinalizers(finalizers))[f] == multiset(finalizers)[f]
  {
    if finalizers != [] {
      KeepsOtherFinalizers(finalizers[1..]);
      assert finalizers == [finalizers[0]] + finalizers[1..];
    }
  }

  method FilterFinalizers(finalizers: seq<string>) returns (kept: seq<string>)
    ensures kept == OtherFinalizers(finalizers)
    ensures FINALIZER !in kept && forall f :: f != FINALIZER ==> multiset(kept)[f] == multiset(finalizers)[f]
  {
    KeepsOtherFinalizers(finalizers);
    kept := [];
    for i := 0 to |finalizers|
      invariant OtherFinalizers(finalizers) == kept + OtherFinalizers(finalizers[i..])
    {
      assert finalizers[i..][0] == finalizers[i] && finalizers[i..][1..] == finalizers[i + 1..];
      if finalizers[i] != FINALIZER {
        kept := kept + [finalizers[i]];
      }
    }
  }

  datatype Fate = Gone | Lingers | Refused

  /** The run may touch this object: it carries the run's labels and, where an identity was
      recorded, it is still the same object. */
  ghost predicate MayTouch(runId: string, key: ObjectKey, objects: map<ObjectKey, Object>,
                           records: map<ObjectKey, Record>)
    requires key in objects
  {
    key in records && IsOwned(objects[key], runId) && (records[key].uid == "" || records[key].uid == objects[key].uid)
  }

  /** Every recorded object of a known kind that exists may be touched. */
  ghost predicate AllTouchable(runId: string, objects: map<ObjectKey, Object>, records: map<ObjectKey, Record>) {
    forall key :: key in records && IsKnown(key.kind) && key in objects ==> MayTouch(runId, key, objects, records)
  }

  /** What is left when everything known has been deleted: the records of unknown kinds. */
  ghost predicate IsCleared(objects: map<ObjectKey, Object>, records: map<ObjectKey, Record>,
                            recorded: map<ObjectKey, Record>)
  {
    && (forall key :: key in records && IsKnown(key.kind) ==> key !in objects)
    && (forall key :: key in recorded <==> key in records && !IsKnown(key.kind))
  }

  /** The two maps agree about this key. */
  ghost predicate Same<T(!new)>(key: ObjectKey, a: map<ObjectKey, T>, b: map<ObjectKey, T>) {
    (key in a <==> key in b) && (key in a ==> a[key] == b[key])
  }

  /** An object is left as it was, or was one the run may touch and is gone or has lost the
      controller's finalizer. */
  ghost predicate TouchedIfOwned(runId: string, key: ObjectKey, objects: map<ObjectKey, Object>,
                                 records: map<ObjectKey, Record>,
                                 after: map<ObjectKey, Object>)
  {
    || Same(key, objects, after)
    || (key in objects && MayTouch(runId, key, objects, records)
        && (key in after ==> after[key] == objects[key].(finalizers := OtherFinalizers(objects[key].finalizers))))
  }

  ghost predicate TouchedOnlyOwned(runId: string, objects: map<ObjectKey, Object>, records: map<ObjectKey, Record>,
                                   after: map<ObjectKey, Object>)
  {
    forall key :: TouchedIfOwned(runId, key, objects, records, after)
  }

  /** What has become of a recorded resource that was dealt with. */
  ghost predicate DealtWith(runId: string, key: ObjectKey, objects: map<ObjectKey, Object>,
                            records: map<ObjectKey, Record>,
                            after: map<ObjectKey, Object>, recorded: map<ObjectKey, Record>, pending: bool)
  {
    && key in records && IsKnown(key.kind)
    && (key in objects ==> MayTouch(runId, key, objects, records))
    && TouchedIfOwned(runId, key, objects, records, after)
    && (if pending then key in after && key in recorded && recorded[key].deletionPending
        else key !in after && key !in recorded)
  }

  class Cleaner {
    const runId: string
    const namespace: string
    var cluster: map<ObjectKey, Object>
    var tracked: map<ObjectKey, Record>
    var status: M.Status

    constructor (runId: string, namespace: string, cluster: map<ObjectKey, Object>, tracked: map<ObjectKey, Record>)
      ensures this.runId == runId && this.namespace == namespace && this.cluster == cluster && this.tracked == tracked
      ensures status == M.Cancelling
    {
      this.runId, this.namespace, this.cluster, this.tracked := runId, namespace, cluster, tracked;
      status := M.Cancelling;
    }

    /** An object of the run's namespace that carries both of its labels. */
    ghost predicate IsLabelled(key: ObjectKey, objects: map<ObjectKey, Object>)
    {
      key in objects && key.namespace == namespace && IsRunType(key.kind) && IsOwned(objects[key], runId)
    }

    // ----- Discovery -----

    /** Records the labelled objects of one kind under the identity they have now. */
    method DiscoverKind(kind: Kind)
      requires kind in RUN_TYPES
      modifies this`tracked
      ensures forall key :: key in tracked <==> key in old(tracked) || (key.kind == kind && IsLabelled(key, cluster))
      ensures forall key :: key in tracked ==>
                tracked[key] == if key.kind == kind && IsLabelled(key, cluster)
                                then Record(cluster[key].uid, false) else old(tracked)[key]
    {
      var todo := cluster.Keys;
      while todo != {}
        invariant todo <= cluster.Keys
        invariant forall key :: key in tracked <==>
                    key in old(tracked) || (key !in todo && key.kind == kind && IsLabelled(key, cluster))
        invariant forall key :: key in tracked ==>
                    tracked[key] == if key !in todo && key.kind == kind && IsLabelled(key, cluster)
                                    then Record(cluster[key].uid, false) else old(tracked)[key]
        decreases |todo|
      {
        var key :| key in todo;
        var found := cluster[key];
        if key.kind == kind && key.namespace == namespace && found.run == runId && found.managedBy == MANAGER {
          tracked := tracked[key := Record(cluster[key].uid, false)];
        }
        todo := todo - {key};
      }
    }

    /** Rebuilds the record of owned resources, kind by kind; a kind that cannot be listed
        ends the call. */
    method DiscoverOwned(a: Answers) returns (ok: bool)
      modifies this`tracked
      ensures old(tracked.Keys) <= tracked.Keys
      ensures a.unlisted == {} ==> ok
      ensures ok ==> forall key :: IsLabelled(key, cluster) ==>
                key in tracked && tracked[key] == Record(cluster[key].uid, false)
      ensures forall key :: key in tracked ==>
                (key in old(tracked) && tracked[key] == old(tracked)[key])
                || (IsLabelled(key, cluster) && tracked[key] == Record(cluster[key].uid, false))
    {
      for i := 0 to |RUN_TYPES|
        invariant old(tracked.Keys) <= tracked.Keys
        invariant forall key :: IsLabelled(key, cluster) && key.kind in RUN_TYPES[..i] ==>
                    key in tracked && tracked[key] == Record(cluster[key].uid, false)
        invariant forall key :: key in tracked ==>
                    (key in old(tracked) && tracked[key] == old(tracked)[key])
                    || (IsLabelled(key, cluster) && tracked[key] == Record(cluster[key].uid, false))
      {
        assert RUN_TYPES[..i + 1] == RUN_TYPES[..i] + [RUN_TYPES[i]];
        if RUN_TYPES[i] in a.unlisted {
          return false;
        }
        DiscoverKind(RUN_TYPES[i]);
      }
      assert RUN_TYPES[..|RUN_TYPES|] == RUN_TYPES;
      return true;
    }

    // ----- Deletion -----

    /** Deletes one recorded resource. */
    method DeleteOne(key: ObjectKey, a: Answers) returns (fate: Fate)
      requires key in tracked && IsKnown(key.kind)
      modifies this`cluster, this`tracked
      ensures forall other :: other != key ==> Same(other, old(cluster), cluster) && Same(other, old(tracked), tracked)
      ensures TouchedIfOwned(runId, key, old(cluster), old(tracked), cluster)
      ensures fate != Refused ==> DealtWith(runId, key, old(cluster), old(tracked), cluster, tracked, fate == Lingers)
      ensures fate == Refused ==> Same(key, old(tracked), tracked)
      ensures key in old(cluster) && !MayTouch(runId, key, old(cluster), old(tracked)) ==>
                fate == Refused && key in cluster
      ensures IsSmooth(a) && (key in old(cluster) ==> MayTouch(runId, key, old(cluster), old(tracked))) ==> fate == Gone
    {
      var record := tracked[key];
      if key in a.unread {
        return Refused;
      }
      if key in cluster {
        var found := cluster[key];
        if record.uid != "" && found.uid != record.uid {
          return Refused;
        }
        if found.managedBy != MANAGER || found.run != runId {
          return Refused;
        }
        var kept := FilterFinalizers(found.finalizers);
        if |kept| != |found.finalizers| {
          if key in a.unapplied {
            return Refused;
          }
          cluster := cluster[key := found.(finalizers := kept)];
        }
      }
      if key in a.undeleted {
        return Refused;
      }
      if key !in a.lingering {
        cluster := cluster - {key};
      }
      if key in a.unconfirmed {
        return Refused;
      }
      if key in cluster {
        tracked := tracked[key := record.(deletionPending := true)];
        return Lingers;
      }
      tracked := tracked - {key};
      return Gone;
    }

    /** Deletes every recorded resource of a known kind, in any order, and passes over the
        others.  done: all of those are gone; failed: the call stopped at one it could not or
        must not delete. */
    method DeleteOwned(a: Answers) returns (done: bool, failed: bool)
      modifies this`cluster, this`tracked
      ensures TouchedOnlyOwned(runId, old(cluster), old(tracked), cluster)
      ensures done ==> !failed && IsCleared(cluster, old(tracked), tracked)
      ensures !done && !failed ==> exists key :: key in tracked && tracked[key].deletionPending && key in cluster
      ensures !failed ==> AllTouchable(runId, old(cluster), old(tracked))
      ensures IsSmooth(a) && AllTouchable(runId, old(cluster), old(tracked)) ==> done
    {
      done, failed := true, false;
      var todo := tracked.Keys;
      ghost var objects, records := cluster, tracked;
      ghost var pending: set<ObjectKey> := {};
      while todo != {}
        invariant todo <= records.Keys && !failed
        invariant done <==> pending == {}
        invariant IsSmooth(a) ==> done
        invariant forall key :: Progress(runId, key, objects, records, cluster, tracked, todo, pending)
        decreases |todo|
      {
        var key :| key in todo;
        if IsKnown(key.kind) {
          ghost var c, t := cluster, tracked;
          assert Progress(runId, key, objects, records, c, t, todo, pending);
          var fate := DeleteOne(key, a);
          DealtWithSince(runId, key, objects, records, c, t, cluster, tracked, fate == Lingers);
          if fate == Refused {
            forall other ensures TouchedIfOwned(runId, other, objects, records, cluster) {
              assert Progress(runId, other, objects, records, c, t, todo, pending);
              assert other != key ==> Same(other, c, cluster);
            }
            return false, true;
          }
          ghost var pending' := if fate == Lingers then pending + {key} else pending;
          forall other ensures Progress(runId, other, objects, records, cluster, tracked, todo - {key}, pending') {
            assert Progress(runId, other, objects, records, c, t, todo, pending);
            assert other != key ==> Same(other, c, cluster) && Same(other, t, tracked);
          }
          if fate == Lingers {
            done := false;
          }
          pending := pending';
        } else {
          forall other ensures Progress(runId, other, objects, records, cluster, tracked, todo - {key}, pending) {
            assert Progress(runId, other, objects, records, cluster, tracked, todo, pending);
          }
        }
        todo := todo - {key};
      }
      AllDealtWith(runId, objects, records, cluster, tracked, pending);
    }

    /** A cancelling run's reconcile: the run is marked cancelled only when nothing of a known
        kind that was recorded for it and nothing that carries its labels is left.  Along the
        way it touches owned objects only: those it labels now, or the very objects it had
        recorded.  The answers name what the reconciler makes of it. */
    method FinishCancelling(a: Answers) returns (discovered: bool, deleted: Option<bool>)
      requires status == M.Cancelling
      modifies this`cluster, this`tracked, this`status
      ensures status == M.Cancelled ==> forall key :: key in old(tracked) && IsKnown(key.kind) ==> key !in cluster
      ensures status == M.Cancelled ==> forall key :: key in tracked <==> key in old(tracked) && !IsKnown(key.kind)
      ensures status == M.Cancelled ==> forall key :: !IsLabelled(key, cluster)
      ensures IsSmooth(a) && AllTouchable(runId, old(cluster), old(tracked)) ==> status == M.Cancelled
      ensures forall key :: !Same(key, old(cluster), cluster) ==>
                && key in old(cluster) && IsOwned(old(cluster)[key], runId)
                && (IsLabelled(key, old(cluster))
                    || (key in old(tracked)
                        && (old(tracked)[key].uid == "" || old(tracked)[key].uid == old(cluster)[key].uid)))
      ensures forall spec, s: M.State, b: M.Answers ::
                s.run.status == M.Cancelling && b.discovered == discovered && b.deleted == deleted ==>
                  M.AfterReconcile(spec, s, b).run.status == status
    {
      deleted := None;
      discovered := DiscoverOwned(a);
      if !discovered {
        return;
      }
      ghost var records := tracked;
      var done, failed := DeleteOwned(a);
      forall key
        ensures IsLabelled(key, cluster) ==> IsLabelled(key, old(cluster))
        ensures !Same(key, old(cluster), cluster) ==> key in old(cluster) && MayTouch(runId, key, old(cluster), records)
      {
        assert TouchedIfOwned(runId, key, old(cluster), records, cluster);
      }
      if failed {
        return;
      }
      deleted := Some(done);
      if done {
        status := M.Cancelled;
      }
    }
  }

  /** Where the deletion loop stands with one key. */
  ghost predicate Progress(runId: string, key: ObjectKey, objects: map<ObjectKey, Object>,
                           records: map<ObjectKey, Record>,
                           after: map<ObjectKey, Object>, recorded: map<ObjectKey, Record>, todo: set<ObjectKey>,
                           pending: set<ObjectKey>)
  {
    if key in todo || key !in records || !IsKnown(key.kind)
    then Same(key, objects, after) && Same(key, records, recorded) && key !in pending
    else DealtWith(runId, key, objects, records, after, recorded, key in pending)
  }

  lemma DealtWithSince(runId: string, key: ObjectKey, objects: map<ObjectKey, Object>, records: map<ObjectKey, Record>,
                       c: map<ObjectKey, Object>, t: map<ObjectKey, Record>,
                       after: map<ObjectKey, Object>, recorded: map<ObjectKey, Record>, pending: bool)
    requires Same(key, objects, c) && Same(key, records, t)
    ensures TouchedIfOwned(runId, key, c, t, after) ==> TouchedIfOwned(runId, key, objects, records, after)
    ensures DealtWith(runId, key, c, t, after, recorded, pending) ==>
              DealtWith(runId, key, objects, records, after, recorded, pending)
  {
  }

  lemma AllDealtWith(runId: string, objects: map<ObjectKey, Object>, records: map<ObjectKey, Record>,
                     after: map<ObjectKey, Object>, recorded: map<ObjectKey, Record>, pending: set<ObjectKey>)
    requires forall key :: Progress(runId, key, objects, records, after, recorded, {}, pending)
    ensures TouchedOnlyOwned(runId, objects, records, after)
    ensures pending == {} ==> IsCleared(after, records, recorded)
    ensures pending != {} ==> exists key :: key in recorded && recorded[key].deletionPending && key in after
    ensures AllTouchable(runId, objects, records)
  {
    forall key ensures TouchedIfOwned(runId, key, objects, records, after)
                       && (key in records && IsKnown(key.kind) && key in objects ==>
                            MayTouch(runId, key, objects, records))
                       && (pending == {} ==> (key in recorded <==> key in records && !IsKnown(key.kind)))
                       && (pending == {} && key in records && IsKnown(key.kind) ==> key !in after) {
      assert Progress(runId, key, objects, records, after, recorded, {}, pending);
    }
    if pending != {} {
      var key :| key in pending;
      assert Progress(runId, key, objects, records, after, recorded, {}, pending);
    }
  }
}
