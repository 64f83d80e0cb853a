/** Related-object bookkeeping: `AddCrToTheRelatedObjectList` of pkg/util/util.go.

    The list helpers it calls (FindObjectReference, SetObjectReference and
    RemoveObjectReference of the custom-resource-status library) are not part
    of this model's sources; they are defined here with the behaviour the
    model relies on:
      - two references are "equal" when apiVersion, kind, name and namespace agree;
      - Find returns the first equal entry;
      - Set overwrites the first equal entry in place, or appends;
      - Remove drops every equal entry.
    `reference.GetReference` is replaced by an already resolved reference or
    its failure. */
module RelatedObjects {
  import opened Optional

  datatype ObjectReference = ObjectReference(
    kind: string, namespace: string, name: string,
    apiVersion: string, uid: string, resourceVersion: string)

  /** Outcome of resolving the reference of an object (reference.GetReference). */
  datatype Resolution = Resolved(ref: ObjectReference) | Unresolvable(reason: string)

  /** Result of `AddCrToTheRelatedObjectList`: Go's `(bool, error)` plus the updated list. */
  datatype AddResult = AddResult(changed: bool, refs: seq<ObjectReference>, err: Option<string>)

  /** Same object: kind, namespace and name agree (the identity of an operand). */
  predicate SameIdentity(a: ObjectReference, b: ObjectReference)
  {
    a.kind == b.kind && a.namespace == b.namespace && a.name == b.name
  }

  /** Library equality of references: same object and same apiVersion. */
  predicate ReferenceEqual(a: ObjectReference, b: ObjectReference)
  {
    SameIdentity(a, b) && a.apiVersion == b.apiVersion
  }

  /** `x` is an outdated entry for the object of `ref`. */
  predicate Stale(x: ObjectReference, ref: ObjectReference)
  {
    SameIdentity(x, ref) && x.apiVersion != ref.apiVersion
  }

  /** At most one entry per object identity. */
  predicate UniqueIdentities(refs: seq<ObjectReference>)
  {
    forall i, j :: 0 <= i < j < |refs| ==> !SameIdentity(refs[i], refs[j])
  }

  /** Index of the first entry equal to `find`. */
  function FindObjectReference(refs: seq<ObjectReference>, find: ObjectReference): (r: Option<nat>)
    ensures r.Some? ==> r.value < |refs| && ReferenceEqual(refs[r.value], find)
    ensures r.Some? ==> forall i :: 0 <= i < r.value ==> !ReferenceEqual(refs[i], find)
    ensures r.None? ==> forall i :: 0 <= i < |refs| ==> !ReferenceEqual(refs[i], find)
  {
    if refs == [] then None
    else if ReferenceEqual(refs[0], find) then Some(0)
    else
      match FindObjectReference(refs[1..], find)
      case None => None
      case Some(i) => Some(i + 1)
  }

  /** Overwrite the first equal entry with `ref`, or append `ref`. */
  function SetObjectReference(refs: seq<ObjectReference>, ref: ObjectReference): (r: seq<ObjectReference>)
    ensures ref in r
    ensures forall x :: x in refs && !ReferenceEqual(x, ref) ==> x in r
    ensures forall x :: x in r ==> x in refs || x == ref
  {
    match FindObjectReference(refs, ref)
    case None => refs + [ref]
    case Some(i) =>
      var r := refs[i := ref];
      assert r[i] == ref;
      assert forall j :: 0 <= j < |refs| && j != i ==> r[j] == refs[j];
      r
  }

  /** Drop every entry equal to `ref`, keeping the others in order. */
  function RemoveObjectReference(refs: seq<ObjectReference>, ref: ObjectReference): (r: seq<ObjectReference>)
    ensures forall x :: x in r <==> x in refs && !ReferenceEqual(x, ref)
  {
    if refs == [] then []
    else (if ReferenceEqual(refs[0], ref) then [] else [refs[0]]) + RemoveObjectReference(refs[1..], ref)
  }

  /** The loop of the source that walks the list as it was after Set (Go
      evaluates the range expression once) and removes every stale entry
      from the current list. */
  function RemoveStale(snapshot: seq<ObjectReference>, current: seq<ObjectReference>, ref: ObjectReference): (r: seq<ObjectReference>)
    decreases |snapshot|
    // entries are only ever removed, never added
    ensures forall x :: x in r ==> x in current
    // an entry that is not a stale version of the reference is never removed
    ensures forall x :: x in current && !Stale(x, ref) ==> x in r
  {
    if snapshot == [] then current
    else
      var next := if Stale(snapshot[0], ref) then RemoveObjectReference(current, snapshot[0]) else current;
      RemoveStale(snapshot[1..], next, ref)
  }

  /** Reference definition of what the loop leaves: the list without stale entries. */
  function WithoutStale(refs: seq<ObjectReference>, ref: ObjectReference): (r: seq<ObjectReference>)
    ensures forall x :: x in r <==> x in refs && !Stale(x, ref)
    ensures |r| <= |refs|
  {
    if refs == [] then []
    else (if Stale(refs[0], ref) then [] else [refs[0]]) + WithoutStale(refs[1..], ref)
  }

  /** Removing the entries equal to a stale one removes only stale entries. */
  lemma {:induction false} WithoutStaleAbsorbsRemove(refs: seq<ObjectReference>, y: ObjectReference, ref: ObjectReference)
    requires Stale(y, ref)
    ensures WithoutStale(RemoveObjectReference(refs, y), ref) == WithoutStale(refs, ref)
    decreases |refs|
  {
    if refs != [] {
      WithoutStaleAbsorbsRemove(refs[1..], y, ref);
      var head := if ReferenceEqual(refs[0], y) then [] else [refs[0]];
      assert RemoveObjectReference(refs, y) == head + RemoveObjectReference(refs[1..], y);
      WithoutStaleAppend(head, RemoveObjectReference(refs[1..], y), ref);
    }
  }

  lemma {:induction false} WithoutStaleAppend(a: seq<ObjectReference>, b: seq<ObjectReference>, ref: ObjectReference)
    ensures WithoutStale(a + b, ref) == WithoutStale(a, ref) + WithoutStale(b, ref)
    decreases |a|
  {
    if a == [] {
      assert a + b == b;
    } else {
      assert (a + b)[1..] == a[1..] + b;
      WithoutStaleAppend(a[1..], b, ref);
    }
  }

  /** The loop over the snapshot computes `WithoutStale`, provided every stale
      entry still in the current list occurs in the rest of the snapshot. */
  lemma {:induction false} RemoveStaleIsFilter(snapshot: seq<ObjectReference>, current: seq<ObjectReference>, ref: ObjectReference)
    requires forall x :: x in current && Stale(x, ref) ==> x in snapshot
    ensures RemoveStale(snapshot, current, ref) == WithoutStale(current, ref)
    decreases |snapshot|
  {
    if snapshot == [] {
      WithoutStaleKeepsFresh(current, ref);
    } else {
      var y := snapshot[0];
      var next := if Stale(y, ref) then RemoveObjectReference(current, y) else current;
      forall x | x in next && Stale(x, ref)
        ensures x in snapshot[1..]
      {
        assert x in snapshot;
        assert x != y;
      }
      RemoveStaleIsFilter(snapshot[1..], next, ref);
      if Stale(y, ref) {
        WithoutStaleAbsorbsRemove(current, y, ref);
      }
    }
  }

  lemma {:induction false} WithoutStaleKeepsFresh(refs: seq<ObjectReference>, ref: ObjectReference)
    requires forall x :: x in refs ==> !Stale(x, ref)
    ensures WithoutStale(refs, ref) == refs
    decreases |refs|
  {
    if refs != [] {
      assert refs[0] in refs;
      assert forall x :: x in refs[1..] ==> x in refs;
      WithoutStaleKeepsFresh(refs[1..], ref);
      assert refs == [refs[0]] + refs[1..];
    }
  }

  /** `ref` is already recorded exactly as it is: the first equal entry is identical. */
  predicate AlreadyRecorded(refs: seq<ObjectReference>, ref: ObjectReference)
  {
    var found := FindObjectReference(refs, ref);
    found.Some? && refs[found.value] == ref
  }

  /** `AddCrToTheRelatedObjectList`: record the reference of `found` among the
      related objects, migrating an entry with an outdated apiVersion. */
  function AddCrToTheRelatedObjectList(refs: seq<ObjectReference>, found: Resolution): (r: AddResult)
    // a failure to resolve the reference changes nothing
    ensures found.Unresolvable? ==> r == AddResult(false, refs, Some(found.reason))
    // an identical entry already present: false, list untouched
    ensures found.Resolved? ==> (!r.changed <==> AlreadyRecorded(refs, found.ref))
    ensures !r.changed ==> r.refs == refs
    ensures found.Resolved? ==> r.err.None?
    // after a change: the reference is present and no entry for the same
    // object with another apiVersion remains
    ensures r.changed ==> found.Resolved? && found.ref in r.refs
    ensures r.changed ==> forall x :: x in r.refs ==> !Stale(x, found.ref)
    // entries of other objects are kept; nothing but the reference is added
    ensures r.changed ==> forall x :: x in refs && !SameIdentity(x, found.ref) ==> x in r.refs
    ensures r.changed ==> forall x :: x in r.refs ==> x in refs || x == found.ref
  {
    match found
    case Unresolvable(reason) => AddResult(false, refs, Some(reason))
    case Resolved(ref) =>
      if AlreadyRecorded(refs, ref) then AddResult(false, refs, None)
      else
        var updated := SetObjectReference(refs, ref);
        RemoveStaleIsFilter(updated, updated, ref);
        AddResult(true, RemoveStale(updated, updated, ref), None)
  }

  /** Adding a reference a second time changes nothing. */
  lemma AddIsIdempotent(refs: seq<ObjectReference>, ref: ObjectReference)
    ensures var once := AddCrToTheRelatedObjectList(refs, Resolved(ref));
            var twice := AddCrToTheRelatedObjectList(once.refs, Resolved(ref));
            !twice.changed && twice.refs == once.refs
  {
    var once := AddCrToTheRelatedObjectList(refs, Resolved(ref));
    if once.changed {
      var updated := SetObjectReference(refs, ref);
      RemoveStaleIsFilter(updated, updated, ref);
      FirstEqualIsRef(refs, ref);
    }
  }

  /** After Set and the stale-entry loop, the first entry equal to `ref` is `ref` itself. */
  lemma FirstEqualIsRef(refs: seq<ObjectReference>, ref: ObjectReference)
    ensures AlreadyRecorded(WithoutStale(SetObjectReference(refs, ref), ref), ref)
  {
    var updated := SetObjectReference(refs, ref);
    match FindObjectReference(refs, ref)
    case None =>
      WithoutStaleAppend(refs, [ref], ref);
      var kept := WithoutStale(refs, ref);
      assert WithoutStale([ref], ref) == [ref];
      FindAppended(kept, ref);
    case Some(i) =>
      assert updated == refs[..i] + [ref] + refs[i + 1..] by {
        assert refs[i := ref] == refs[..i] + [ref] + refs[i + 1..];
      }
      WithoutStaleAppend(refs[..i] + [ref], refs[i + 1..], ref);
      WithoutStaleAppend(refs[..i], [ref], ref);
      assert WithoutStale([ref], ref) == [ref];
      var prefix := WithoutStale(refs[..i], ref);
      forall k | 0 <= k < |prefix| ensures !ReferenceEqual(prefix[k], ref) {
        assert prefix[k] in refs[..i];
      }
      FindAfterPrefix(prefix, WithoutStale(refs[i + 1..], ref), ref);
  }

  lemma {:induction false} FindAppended(kept: seq<ObjectReference>, ref: ObjectReference)
    requires forall x :: x in kept ==> !ReferenceEqual(x, ref)
    ensures AlreadyRecorded(kept + [ref], ref)
  {
    FindAfterPrefix(kept, [], ref);
    assert kept + [ref] + [] == kept + [ref];
  }

  lemma {:induction false} FindAfterPrefix(prefix: seq<ObjectReference>, suffix: seq<ObjectReference>, ref: ObjectReference)
    requires forall k :: 0 <= k < |prefix| ==> !ReferenceEqual(prefix[k], ref)
    ensures FindObjectReference(prefix + [ref] + suffix, ref) == Some(|prefix|)
    ensures AlreadyRecorded(prefix + [ref] + suffix, ref)
    decreases |prefix|
  {
    var all := prefix + [ref] + suffix;
    if prefix != [] {
      assert all[1..] == prefix[1..] + [ref] + suffix;
      FindAfterPrefix(prefix[1..], suffix, ref);
    }
  }

  /** The "one entry per object" invariant of the related-object list is preserved. */
  lemma AddPreservesUniqueness(refs: seq<ObjectReference>, ref: ObjectReference)
    requires UniqueIdentities(refs)
    ensures UniqueIdentities(AddCrToTheRelatedObjectList(refs, Resolved(ref)).refs)
  {
    var r := AddCrToTheRelatedObjectList(refs, Resolved(ref));
    if r.changed {
      var updated := SetObjectReference(refs, ref);
      RemoveStaleIsFilter(updated, updated, ref);
      match FindObjectReference(refs, ref)
      case Some(i) =>
        assert updated == refs[i := ref];
        forall a, b | 0 <= a < b < |updated| ensures !SameIdentity(updated[a], updated[b]) {
          assert SameIdentity(refs[a], updated[a]) && SameIdentity(refs[b], updated[b]);
        }
        WithoutStaleUnique(updated, ref);
      case None =>
        WithoutStaleAppend(refs, [ref], ref);
        WithoutStaleUnique(refs, ref);
        assert WithoutStale([ref], ref) == [ref];
        var kept := WithoutStale(refs, ref);
        forall a | 0 <= a < |kept| ensures !SameIdentity(kept[a], ref) {
          assert kept[a] in refs;
          assert !Stale(kept[a], ref);
          var j :| 0 <= j < |refs| && refs[j] == kept[a];
        }
    }
  }

  lemma {:induction false} WithoutStaleUnique(refs: seq<ObjectReference>, ref: ObjectReference)
    requires UniqueIdentities(refs)
    ensures UniqueIdentities(WithoutStale(refs, ref))
    decreases |refs|
  {
    if refs != [] {
      var tail := refs[1..];
      assert UniqueIdentities(tail) by {
        forall a, b | 0 <= a < b < |tail| ensures !SameIdentity(tail[a], tail[b]) {
          assert tail[a] == refs[a + 1] && tail[b] == refs[b + 1];
        }
      }
      WithoutStaleUnique(tail, ref);
      var rest := WithoutStale(tail, ref);
      var head := if Stale(refs[0], ref) then [] else [refs[0]];
      var all := head + rest;
      forall a, b | 0 <= a < b < |all| ensures !SameIdentity(all[a], all[b]) {
        if head != [] && a == 0 {
          assert all[b] == rest[b - 1];
          assert rest[b - 1] in tail;
          var k :| 0 <= k < |tail| && tail[k] == rest[b - 1];
          assert refs[k + 1] == tail[k];
        } else {
          assert all[a] == rest[a - |head|] && all[b] == rest[b - |head|];
        }
      }
    }
  }
}
