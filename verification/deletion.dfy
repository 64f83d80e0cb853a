/** The deletion / removal state machine of pkg/util/util.go:
    `EnsureDeleted`, `ComponentResourceRemoval`, `getResourceForDeletion`,
    `getDeletionOption`, `doDeleteResource` and `validateDeletion`.

    The cluster client is replaced by a scripted `Cluster` that answers each
    request the state machine makes, and every request is recorded in a call
    trace. Only a `Delete` without the dry-run option mutates the store, so
    "the store is not mutated" is stated as `!MutatesStore(calls)`. The
    context deadline of the polling loop is a number of poll intervals. */
module Deletion {
  import opened Optional
  import opened Labels

  /** Identity of an object: kind, namespace and name. */
  datatype ObjectKey = ObjectKey(kind: string, namespace: string, name: string)

  /** The errors the state machine distinguishes. */
  datatype ApiError =
    | NotFound                        // apierrors.IsNotFound
    | NoMatch                         // meta.IsNoMatchError: the kind is not served
    | GroupDiscoveryFailed            // discovery.ErrGroupDiscoveryFailed
    | ApiFailure(reason: string)      // any other error of the client, surfaced verbatim
    | DeletionTimeout(kind: string, name: string)  // raised by the polling loop

  /** Reply of the cluster to a Get: the object (with its labels) or an error. */
  datatype GetReply = Found(labels: LabelMap) | GetFailed(err: ApiError)

  /** Reply of the cluster to a Delete. */
  datatype DeleteReply = DeleteAccepted | DeleteFailed(err: ApiError)

  const DryRunAll: string := "All"
  const DeletePropagationForeground: string := "Foreground"

  /** client.DeleteOptions restricted to the two fields the source sets. */
  datatype DeleteOptions = DeleteOptions(dryRun: seq<string>, propagationPolicy: Option<string>)

  /** A request issued to the cluster. */
  datatype Call = GetCall(key: ObjectKey) | DeleteCall(key: ObjectKey, opts: DeleteOptions)

  /** The scripted cluster: the replies to the existence probe of `EnsureDeleted`,
      to the lookup of `getResourceForDeletion`, to the Delete, and to the i-th
      Get of the polling loop. */
  datatype Cluster = Cluster(probe: GetReply, lookup: GetReply, deletion: DeleteReply, poll: nat -> GetReply)

  /** Go's `(bool, error)` result together with the requests that produced it. */
  datatype Removal = Removal(deleted: bool, err: Option<ApiError>, calls: seq<Call>)

  predicate ReportsAbsent(reply: GetReply)
  {
    reply.GetFailed? && reply.err.NotFound?
  }

  predicate IsDelete(c: Call)
  {
    c.DeleteCall?
  }

  /** Some request of the trace is a Delete that the store carries out. */
  predicate MutatesStore(calls: seq<Call>)
  {
    exists i :: 0 <= i < |calls| && IsDelete(calls[i]) && calls[i].opts.dryRun == []
  }

  predicate IssuesDelete(calls: seq<Call>)
  {
    exists i :: 0 <= i < |calls| && IsDelete(calls[i])
  }

  /** Delete options: dry-run iff `dryRun`, foreground propagation iff `wait`. */
  function GetDeletionOption(dryRun: bool, wait: bool): (opts: DeleteOptions)
    ensures dryRun <==> opts.dryRun != []
    ensures dryRun ==> opts.dryRun == [DryRunAll]
    ensures wait <==> opts.propagationPolicy.Some?
    ensures wait ==> opts.propagationPolicy == Some(DeletePropagationForeground)
  {
    DeleteOptions(if dryRun then [DryRunAll] else [],
                  if wait then Some(DeletePropagationForeground) else None)
  }

  /** Outcome of `getResourceForDeletion`: carry on with the live labels, or stop with `(false, err)`. */
  datatype Lookup = Present(labels: LabelMap) | Stop(err: Option<ApiError>)

  function GetResourceForDeletion(reply: GetReply): (r: Lookup)
    ensures r.Present? <==> reply.Found?
    ensures r.Present? ==> r.labels == reply.labels
    ensures r.Stop? ==> (r.err.None? <==> ReportsAbsent(reply))
    ensures r.Stop? && r.err.Some? ==> reply == GetFailed(r.err.value)
  {
    match reply
    case Found(labels) => Present(labels)
    case GetFailed(NotFound) => Stop(None)
    case GetFailed(e) => Stop(Some(e))
  }

  /** `doDeleteResource`: a NotFound on delete is success without deletion (idempotence). */
  function DoDeleteResource(reply: DeleteReply): (r: (bool, Option<ApiError>))
    ensures r.0 <==> reply.DeleteAccepted?
    ensures r.0 ==> r.1.None?
    ensures r.1.None? <==> (reply.DeleteAccepted? || reply.err.NotFound?)
    ensures r.1.Some? ==> reply == DeleteFailed(r.1.value)
  {
    match reply
    case DeleteAccepted => (true, None)
    case DeleteFailed(NotFound) => (false, None)
    case DeleteFailed(e) => (false, Some(e))
  }

  /** `validateDeletion` from poll number `tick` on: Get the object; NotFound is
      success; otherwise, once the deadline is reached, fail with a timeout, else
      wait one interval and Get again. */
  function ValidateDeletion(key: ObjectKey, poll: nat -> GetReply, deadline: nat, tick: nat): (r: Removal)
    requires tick <= deadline
    decreases deadline - tick
    ensures r.deleted <==> exists i :: tick <= i <= deadline && ReportsAbsent(poll(i))
    ensures r.deleted ==> r.err.None?
    ensures !r.deleted ==> r.err == Some(DeletionTimeout(key.kind, key.name))
    ensures 1 <= |r.calls| <= deadline - tick + 1
    ensures forall j :: 0 <= j < |r.calls| ==> r.calls[j] == GetCall(key)
    ensures r.deleted ==> ReportsAbsent(poll(tick + |r.calls| - 1))
    ensures forall i :: tick <= i < tick + |r.calls| - 1 ==> !ReportsAbsent(poll(i))
  {
    if ReportsAbsent(poll(tick)) then
      Removal(true, None, [GetCall(key)])
    else if tick == deadline then
      Removal(false, Some(DeletionTimeout(key.kind, key.name)), [GetCall(key)])
    else
      var rest := ValidateDeletion(key, poll, deadline, tick + 1);
      Removal(rest.deleted, rest.err, [GetCall(key)] + rest.calls)
  }

  /** `ComponentResourceRemoval`: look the object up, check ownership when
      protecting foreign objects, delete it, and optionally wait until it is gone. */
  function ComponentResourceRemoval(key: ObjectKey, cluster: Cluster, hcoName: string,
                                    dryRun: bool, wait: bool, protectNonHCOObjects: bool,
                                    deadline: nat): (r: Removal)
    // never both "deleted" and an error
    ensures r.deleted ==> r.err.None?
    // absent object: nothing to do, no delete issued
    ensures ReportsAbsent(cluster.lookup) ==> r == Removal(false, None, [GetCall(key)])
    // any other failed lookup is surfaced
    ensures cluster.lookup.GetFailed? && !ReportsAbsent(cluster.lookup) ==>
              r == Removal(false, Some(cluster.lookup.err), [GetCall(key)])
    // a protected foreign object is skipped without error and without a delete
    ensures cluster.lookup.Found? && protectNonHCOObjects && !ShouldDeleteResource(cluster.lookup.labels, hcoName) ==>
              r == Removal(false, None, [GetCall(key)])
    // a delete is issued exactly for a present object that may be deleted, with the options of the flags
    ensures IssuesDelete(r.calls) <==>
              cluster.lookup.Found? && (!protectNonHCOObjects || ShouldDeleteResource(cluster.lookup.labels, hcoName))
    // the lookup comes first
    ensures |r.calls| >= 1 && r.calls[0] == GetCall(key)
    ensures IssuesDelete(r.calls) ==> |r.calls| >= 2 && r.calls[1] == DeleteCall(key, GetDeletionOption(dryRun, wait))
    // the delete itself reports NotFound: idempotent success; any other error is surfaced
    ensures IssuesDelete(r.calls) && cluster.deletion.DeleteFailed? ==>
              !r.deleted && (r.err.None? <==> cluster.deletion.err.NotFound?)
    ensures IssuesDelete(r.calls) && cluster.deletion.DeleteFailed? && !cluster.deletion.err.NotFound? ==>
              r.err == Some(cluster.deletion.err)
    // after an accepted delete: dry-run gives (false, nil), no wait gives (true, nil)
    ensures IssuesDelete(r.calls) && cluster.deletion.DeleteAccepted? && dryRun ==> !r.deleted && r.err.None?
    ensures IssuesDelete(r.calls) && cluster.deletion.DeleteAccepted? && !dryRun && !wait ==> r.deleted && r.err.None?
    // only wait && !dryRun enters the polling loop
    ensures |r.calls| > 2 <==> IssuesDelete(r.calls) && cluster.deletion.DeleteAccepted? && wait && !dryRun
    ensures |r.calls| > 2 ==> r == (var v := ValidateDeletion(key, cluster.poll, deadline, 0);
                                    Removal(v.deleted, v.err, r.calls[..2] + v.calls))
    // a dry run never mutates the store and never reports a deletion
    ensures dryRun ==> !MutatesStore(r.calls) && !r.deleted
  {
    var lookup := [GetCall(key)];
    match GetResourceForDeletion(cluster.lookup)
    case Stop(err) => Removal(false, err, lookup)
    case Present(labels) =>
      if protectNonHCOObjects && !ShouldDeleteResource(labels, hcoName) then
        Removal(false, None, lookup)
      else
        var opts := GetDeletionOption(dryRun, wait);
        var calls := lookup + [DeleteCall(key, opts)];
        assert IsDelete(calls[1]);
        var (deleted, err) := DoDeleteResource(cluster.deletion);
        if !deleted then
          Removal(false, err, calls)
        else if !wait || dryRun then
          Removal(!dryRun, None, calls)
        else
          var v := ValidateDeletion(key, cluster.poll, deadline, 0);
          var all := calls + v.calls;
          assert all[..2] == calls;
          assert forall j :: 2 <= j < |all| ==> all[j] == v.calls[j - 2];
          Removal(v.deleted, v.err, all)
  }

  /** `EnsureDeleted`: probe for the object first; NotFound, an unserved kind and
      a failed API group discovery all mean "nothing to remove". */
  function EnsureDeleted(key: ObjectKey, cluster: Cluster, hcoName: string,
                         dryRun: bool, wait: bool, protectNonHCOObjects: bool,
                         deadline: nat): (r: Removal)
    ensures r.deleted ==> r.err.None?
    ensures cluster.probe.GetFailed? ==> !r.deleted && r.calls == [GetCall(key)] && !IssuesDelete(r.calls)
    ensures cluster.probe.GetFailed? ==>
              (r.err.None? <==> cluster.probe.err in {NotFound, NoMatch, GroupDiscoveryFailed})
    ensures cluster.probe.GetFailed? && r.err.Some? ==> r.err.value == cluster.probe.err
    // otherwise the removal's result is returned as is, after the probe's Get
    ensures cluster.probe.Found? ==>
              var rem := ComponentResourceRemoval(key, cluster, hcoName, dryRun, wait, protectNonHCOObjects, deadline);
              r.deleted == rem.deleted && r.err == rem.err && r.calls == [GetCall(key)] + rem.calls
    ensures dryRun ==> !MutatesStore(r.calls) && !r.deleted
  {
    match cluster.probe
    case GetFailed(e) =>
      if e.NotFound? || e.NoMatch? || e.GroupDiscoveryFailed? then Removal(false, None, [GetCall(key)])
      else Removal(false, Some(e), [GetCall(key)])
    case Found(_) =>
      var rem := ComponentResourceRemoval(key, cluster, hcoName, dryRun, wait, protectNonHCOObjects, deadline);
      var calls := [GetCall(key)] + rem.calls;
      assert forall i :: 1 <= i < |calls| ==> calls[i] == rem.calls[i - 1];
      Removal(rem.deleted, rem.err, calls)
  }

  // ---------------------------------------------------------------------------
  // A well-behaved cluster: replies come from a store of objects and deletes
  // take effect at once. Used to state what the state machine achieves.

  type Store = map<ObjectKey, LabelMap>

  function StoreReply(store: Store, key: ObjectKey): GetReply
  {
    if key in store then Found(store[key]) else GetFailed(NotFound)
  }

  /** A cluster that answers from `store` and has already removed the object
      by the time the first poll asks for it. */
  function HonestCluster(store: Store, key: ObjectKey): Cluster
  {
    Cluster(StoreReply(store, key), StoreReply(store, key),
            if key in store then DeleteAccepted else DeleteFailed(NotFound),
            (_: nat) => GetFailed(NotFound))
  }

  /** The store after it has carried out the requests of a trace. */
  function AfterCalls(store: Store, calls: seq<Call>): Store
    decreases |calls|
  {
    if calls == [] then store
    else
      var next := if IsDelete(calls[0]) && calls[0].opts.dryRun == [] then store - {calls[0].key} else store;
      AfterCalls(next, calls[1..])
  }

  lemma {:induction false} AfterCallsUnchanged(store: Store, calls: seq<Call>)
    requires !MutatesStore(calls)
    ensures AfterCalls(store, calls) == store
    decreases |calls|
  {
    if calls != [] {
      forall i | 0 <= i < |calls[1..]|
        ensures !(IsDelete(calls[1..][i]) && calls[1..][i].opts.dryRun == [])
      {
        assert calls[1..][i] == calls[i + 1];
      }
      AfterCallsUnchanged(store, calls[1..]);
    }
  }

  lemma {:induction false} AfterCallsRemovesKey(store: Store, key: ObjectKey, calls: seq<Call>)
    requires forall i :: 0 <= i < |calls| ==> calls[i].key == key
    requires MutatesStore(calls)
    ensures AfterCalls(store, calls) == store - {key}
    decreases |calls|
  {
    var next := if IsDelete(calls[0]) && calls[0].opts.dryRun == [] then store - {calls[0].key} else store;
    if IsDelete(calls[0]) && calls[0].opts.dryRun == [] {
      if MutatesStore(calls[1..]) {
        AfterCallsRemovesKey(next, key, calls[1..]);
        assert next - {key} == store - {key};
      } else {
        AfterCallsUnchanged(next, calls[1..]);
      }
    } else {
      var i :| 0 <= i < |calls| && IsDelete(calls[i]) && calls[i].opts.dryRun == [];
      assert i != 0;
      assert calls[1..][i - 1] == calls[i];
      AfterCallsRemovesKey(next, key, calls[1..]);
    }
  }

  /** What `EnsureDeleted` achieves on a well-behaved cluster: the object is
      removed exactly when it exists, may be deleted, and this is not a dry
      run; otherwise the store is left as it was. */
  lemma EnsureDeletedOnStore(store: Store, key: ObjectKey, hcoName: string,
                             dryRun: bool, wait: bool, protectNonHCOObjects: bool, deadline: nat)
    ensures var r := EnsureDeleted(key, HonestCluster(store, key), hcoName, dryRun, wait, protectNonHCOObjects, deadline);
            var removes := key in store && (!protectNonHCOObjects || ShouldDeleteResource(store[key], hcoName)) && !dryRun;
            && r.err.None?
            && r.deleted == removes
            && AfterCalls(store, r.calls) == (if removes then store - {key} else store)
  {
    var cluster := HonestCluster(store, key);
    var r := EnsureDeleted(key, cluster, hcoName, dryRun, wait, protectNonHCOObjects, deadline);
    var removes := key in store && (!protectNonHCOObjects || ShouldDeleteResource(store[key], hcoName)) && !dryRun;
    if key in store && (!protectNonHCOObjects || ShouldDeleteResource(store[key], hcoName)) {
      var rem := ComponentResourceRemoval(key, cluster, hcoName, dryRun, wait, protectNonHCOObjects, deadline);
      if wait && !dryRun {
        assert ReportsAbsent(cluster.poll(0));
      }
      assert forall i :: 0 <= i < |r.calls| ==> r.calls[i].key == key;
      if !dryRun {
        assert r.calls[2] == DeleteCall(key, GetDeletionOption(dryRun, wait));
        assert MutatesStore(r.calls);
        AfterCallsRemovesKey(store, key, r.calls);
      } else {
        AfterCallsUnchanged(store, r.calls);
      }
    } else {
      assert !IssuesDelete(r.calls);
      AfterCallsUnchanged(store, r.calls);
    }
  }

  /** An object without an `app` label naming the HyperConverged resource
      survives a protected removal: the run reports `(false, nil)` after the
      probe and the lookup, issues no delete, and the store keeps the object. */
  lemma ForeignObjectSurvives(store: Store, key: ObjectKey, hcoName: string,
                              dryRun: bool, wait: bool, deadline: nat)
    requires key in store
    requires AppLabel !in store[key] || store[key][AppLabel] != hcoName
    ensures var r := EnsureDeleted(key, HonestCluster(store, key), hcoName, dryRun, wait, true, deadline);
            && r == Removal(false, None, [GetCall(key), GetCall(key)])
            && !IssuesDelete(r.calls)
            && key in AfterCalls(store, r.calls)
            && AfterCalls(store, r.calls) == store
  {
    EnsureDeletedOnStore(store, key, hcoName, dryRun, wait, true, deadline);
  }

  /** Re-running `EnsureDeleted` after a successful removal is a quiet no-op:
      no error, no delete, store unchanged. */
  lemma EnsureDeletedIdempotent(store: Store, key: ObjectKey, hcoName: string,
                                dryRun: bool, wait: bool, protectNonHCOObjects: bool, deadline: nat)
    ensures var first := EnsureDeleted(key, HonestCluster(store, key), hcoName, dryRun, wait, protectNonHCOObjects, deadline);
            var after := AfterCalls(store, first.calls);
            var second := EnsureDeleted(key, HonestCluster(after, key), hcoName, dryRun, wait, protectNonHCOObjects, deadline);
            first.deleted ==> second == Removal(false, None, [GetCall(key)]) && AfterCalls(after, second.calls) == after
  {
    EnsureDeletedOnStore(store, key, hcoName, dryRun, wait, protectNonHCOObjects, deadline);
    var first := EnsureDeleted(key, HonestCluster(store, key), hcoName, dryRun, wait, protectNonHCOObjects, deadline);
    var after := AfterCalls(store, first.calls);
    var second := EnsureDeleted(key, HonestCluster(after, key), hcoName, dryRun, wait, protectNonHCOObjects, deadline);
    if first.deleted {
      assert key !in after;
      AfterCallsUnchanged(after, second.calls);
    }
  }

  /** With `wait` and no dry run, the result is `(true, nil)` exactly when some
      poll, up to and including the one at the deadline, finds the object gone, and a timeout error otherwise. */
  lemma WaitingRemovalOutcome(key: ObjectKey, cluster: Cluster, hcoName: string,
                              protectNonHCOObjects: bool, deadline: nat)
    requires cluster.probe.Found? && cluster.lookup.Found?
    requires !protectNonHCOObjects || ShouldDeleteResource(cluster.lookup.labels, hcoName)
    requires cluster.deletion.DeleteAccepted?
    ensures var r := EnsureDeleted(key, cluster, hcoName, false, true, protectNonHCOObjects, deadline);
            && (r.deleted <==> exists i :: 0 <= i <= deadline && ReportsAbsent(cluster.poll(i)))
            && (!r.deleted ==> r.err == Some(DeletionTimeout(key.kind, key.name)))
            && |r.calls| <= deadline + 4
  {
    var rem := ComponentResourceRemoval(key, cluster, hcoName, false, true, protectNonHCOObjects, deadline);
    assert IsDelete(rem.calls[1]);
  }
}
