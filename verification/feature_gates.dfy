/** Feature-gate reconciliation for the KubeVirt operands, as pinned by
    pkg/controller/operands/kubevirt_test.go.

    `managed` is the list of gates the operator owns (managedKvFeatureGates),
    `declared` the HyperConverged `FeatureGates` map, `current` the gate list
    found on the operand. Managed gates follow the map; every other gate is
    left in place and in order. */
module FeatureGates {
  import opened Optional
  import opened GateList

  /** A gate the HyperConverged resource sets to true. A missing entry and `false` both mean disabled. */
  predicate Enabled(declared: map<Gate, bool>, g: Gate)
  {
    g in declared && declared[g]
  }

  predicate NoDuplicates(gates: seq<Gate>)
  {
    forall i, j :: 0 <= i < j < |gates| ==> gates[i] != gates[j]
  }

  /** The managed gates the HyperConverged resource enables, in managed-list order. */
  function EnabledManaged(managed: seq<Gate>, declared: map<Gate, bool>): (r: seq<Gate>)
    ensures forall g :: g in r <==> g in managed && Enabled(declared, g)
    ensures NoDuplicates(managed) ==> NoDuplicates(r)
  {
    if managed == [] then []
    else
      var rest := EnabledManaged(managed[1..], declared);
      assert NoDuplicates(managed) ==> NoDuplicates(managed[1..]) && managed[0] !in managed[1..] by {
        if NoDuplicates(managed) {
          forall i, j | 0 <= i < j < |managed[1..]| ensures managed[1..][i] != managed[1..][j] {
            assert managed[1..][i] == managed[i + 1] && managed[1..][j] == managed[j + 1];
          }
          forall k | 0 <= k < |managed[1..]| ensures managed[1..][k] != managed[0] {
            assert managed[1..][k] == managed[k + 1];
          }
        }
      }
      (if Enabled(declared, managed[0]) then [managed[0]] else []) + rest
  }

  /** The entries of `gates` the operator does not manage, in order. */
  function Unmanaged(gates: seq<Gate>, managed: seq<Gate>): (r: seq<Gate>)
    ensures forall g :: g in r <==> g in gates && g !in managed
  {
    if gates == [] then []
    else (if gates[0] in managed then [] else [gates[0]]) + Unmanaged(gates[1..], managed)
  }

  /** Drop the managed gates that are not enabled; everything else stays in place. */
  function DropDisabled(current: seq<Gate>, managed: seq<Gate>, declared: map<Gate, bool>): (r: seq<Gate>)
    ensures forall g :: g in r <==> g in current && (g !in managed || Enabled(declared, g))
  {
    if current == [] then []
    else
      (if current[0] in managed && !Enabled(declared, current[0]) then [] else [current[0]])
      + DropDisabled(current[1..], managed, declared)
  }

  /** Append, in order, each of `gates` not already present. */
  function AddMissing(acc: seq<Gate>, gates: seq<Gate>): (r: seq<Gate>)
    ensures acc <= r
    ensures forall g :: g in r <==> g in acc || g in gates
    ensures forall i :: |acc| <= i < |r| ==> r[i] in gates && r[i] !in acc
    ensures NoDuplicates(acc) ==> NoDuplicates(r)
    ensures (forall g :: g in gates ==> g in acc) ==> r == acc
    decreases |gates|
  {
    if gates == [] then acc
    else
      var next := if gates[0] in acc then acc else acc + [gates[0]];
      AddMissing(next, gates[1..])
  }

  /** The next gate list of an operand outside upgrade mode. */
  function Merge(current: seq<Gate>, managed: seq<Gate>, declared: map<Gate, bool>): (r: seq<Gate>)
    // managed gates follow the HyperConverged map
    ensures forall g :: g in managed ==> (g in r <==> Enabled(declared, g))
    // the other gates are kept, in place and in order
    ensures DropDisabled(current, managed, declared) <= r
    ensures Unmanaged(r, managed) == Unmanaged(current, managed)
    // nothing else is introduced, and no duplicate
    ensures forall g :: g in r ==> g in current || g in managed
    ensures NoDuplicates(current) ==> NoDuplicates(r)
  {
    var kept := DropDisabled(current, managed, declared);
    var r := AddMissing(kept, EnabledManaged(managed, declared));
    UnmanagedOfDropDisabled(current, managed, declared);
    UnmanagedOfAdded(kept, r, managed, EnabledManaged(managed, declared));
    DropDisabledKeepsDistinct(current, managed, declared);
    r
  }

  lemma {:induction false} UnmanagedAppend(a: seq<Gate>, b: seq<Gate>, managed: seq<Gate>)
    ensures Unmanaged(a + b, managed) == Unmanaged(a, managed) + Unmanaged(b, managed)
    decreases |a|
  {
    if a == [] {
      assert a + b == b;
    } else {
      assert (a + b)[1..] == a[1..] + b;
      UnmanagedAppend(a[1..], b, managed);
    }
  }

  lemma {:induction false} UnmanagedOfDropDisabled(current: seq<Gate>, managed: seq<Gate>, declared: map<Gate, bool>)
    ensures Unmanaged(DropDisabled(current, managed, declared), managed) == Unmanaged(current, managed)
    decreases |current|
  {
    if current != [] {
      UnmanagedOfDropDisabled(current[1..], managed, declared);
      var head := if current[0] in managed && !Enabled(declared, current[0]) then [] else [current[0]];
      UnmanagedAppend(head, DropDisabled(current[1..], managed, declared), managed);
    }
  }

  lemma {:induction false} UnmanagedOfManaged(gates: seq<Gate>, managed: seq<Gate>)
    requires forall i :: 0 <= i < |gates| ==> gates[i] in managed
    ensures Unmanaged(gates, managed) == []
    decreases |gates|
  {
    if gates != [] {
      UnmanagedOfManaged(gates[1..], managed);
    }
  }

  lemma UnmanagedOfAdded(kept: seq<Gate>, r: seq<Gate>, managed: seq<Gate>, added: seq<Gate>)
    requires kept <= r
    requires forall g :: g in added ==> g in managed
    requires forall i :: |kept| <= i < |r| ==> r[i] in added
    ensures Unmanaged(r, managed) == Unmanaged(kept, managed)
  {
    var tail := r[|kept|..];
    assert r == kept + tail;
    UnmanagedOfManaged(tail, managed);
    UnmanagedAppend(kept, tail, managed);
  }

  lemma {:induction false} DropDisabledKeepsDistinct(current: seq<Gate>, managed: seq<Gate>, declared: map<Gate, bool>)
    ensures NoDuplicates(current) ==> NoDuplicates(DropDisabled(current, managed, declared))
    decreases |current|
  {
    if current != [] && NoDuplicates(current) {
      var tail := current[1..];
      assert NoDuplicates(tail) by {
        forall i, j | 0 <= i < j < |tail| ensures tail[i] != tail[j] {
          assert tail[i] == current[i + 1] && tail[j] == current[j + 1];
        }
      }
      DropDisabledKeepsDistinct(tail, managed, declared);
      var rest := DropDisabled(tail, managed, declared);
      assert current[0] !in tail;
      assert current[0] !in rest;
    }
  }

  /** The managed gates on the list agree with the HyperConverged map. */
  predicate ManagedAgree(current: seq<Gate>, managed: seq<Gate>, declared: map<Gate, bool>)
  {
    && (forall g :: g in managed && Enabled(declared, g) ==> g in current)
    && (forall g :: g in current && g in managed ==> Enabled(declared, g))
  }

  lemma {:induction false} DropDisabledNoop(current: seq<Gate>, managed: seq<Gate>, declared: map<Gate, bool>)
    requires forall g :: g in current && g in managed ==> Enabled(declared, g)
    ensures DropDisabled(current, managed, declared) == current
    decreases |current|
  {
    if current != [] {
      assert current[0] in current;
      assert forall g :: g in current[1..] ==> g in current;
      DropDisabledNoop(current[1..], managed, declared);
      assert current == [current[0]] + current[1..];
    }
  }

  /** The list is left exactly as found if and only if its managed gates already agree with the map. */
  lemma MergeNoopIff(current: seq<Gate>, managed: seq<Gate>, declared: map<Gate, bool>)
    ensures Merge(current, managed, declared) == current <==> ManagedAgree(current, managed, declared)
  {
    if ManagedAgree(current, managed, declared) {
      DropDisabledNoop(current, managed, declared);
    }
  }

  /** Reconciling twice is the same as reconciling once. */
  lemma MergeIdempotent(current: seq<Gate>, managed: seq<Gate>, declared: map<Gate, bool>)
    ensures var once := Merge(current, managed, declared);
            Merge(once, managed, declared) == once
  {
    var once := Merge(current, managed, declared);
    MergeNoopIff(once, managed, declared);
  }

  lemma {:induction false} DropDisabledAppend(a: seq<Gate>, b: seq<Gate>, managed: seq<Gate>, declared: map<Gate, bool>)
    ensures DropDisabled(a + b, managed, declared) == DropDisabled(a, managed, declared) + DropDisabled(b, managed, declared)
    decreases |a|
  {
    if a == [] {
      assert a + b == b;
    } else {
      assert (a + b)[1..] == a[1..] + b;
      DropDisabledAppend(a[1..], b, managed, declared);
    }
  }

  /** `run` occurs in `gates` as a contiguous slice starting at `i`. */
  predicate RunAt(gates: seq<Gate>, run: seq<Gate>, i: int)
  {
    0 <= i <= |gates| - |run| && gates[i..i + |run|] == run
  }

  /** A run of user-added gates survives as a contiguous, in-order run
      (the test checks the joined run is still a substring). */
  lemma UserRunSurvives(pre: seq<Gate>, run: seq<Gate>, post: seq<Gate>, managed: seq<Gate>, declared: map<Gate, bool>)
    requires forall g :: g in run ==> g !in managed
    ensures var r := Merge(pre + run + post, managed, declared);
            exists i :: RunAt(r, run, i)
  {
    var pd := DropDisabled(pre, managed, declared);
    var kept := DropDisabled(pre + run + post, managed, declared);
    DropDisabledAppend(pre + run, post, managed, declared);
    DropDisabledAppend(pre, run, managed, declared);
    DropDisabledNoop(run, managed, declared);
    assert kept == pd + run + DropDisabled(post, managed, declared);
    RunInMiddle(pd, run, DropDisabled(post, managed, declared));
    RunSurvivesExtension(kept, Merge(pre + run + post, managed, declared), run, |pd|);
  }

  lemma RunInMiddle(a: seq<Gate>, run: seq<Gate>, c: seq<Gate>)
    ensures RunAt(a + run + c, run, |a|)
  {
    assert (a + run + c)[|a|..|a| + |run|] == run;
  }

  lemma RunSurvivesExtension(kept: seq<Gate>, r: seq<Gate>, run: seq<Gate>, i: int)
    requires kept <= r
    requires RunAt(kept, run, i)
    ensures RunAt(r, run, i)
  {
    assert r[i..i + |run|] == kept[i..i + |run|];
  }

  // ---------------------------------------------------------------------------
  // The gate lists of the two KubeVirt operands.

  /** Gate list of a freshly generated config map: the base list followed by the enabled managed gates. */
  function DesiredConfigMapGates(base: seq<Gate>, managed: seq<Gate>, declared: map<Gate, bool>): (r: seq<Gate>)
    ensures base <= r
    ensures forall g :: g in r <==> g in base || (g in managed && Enabled(declared, g))
    // each gate is written once when the two lists are duplicate-free and disjoint
    ensures NoDuplicates(base) && NoDuplicates(managed) && (forall g :: g in base ==> g !in managed) ==> NoDuplicates(r)
  {
    var enabled := EnabledManaged(managed, declared);
    var r := base + enabled;
    assert NoDuplicates(base) && NoDuplicates(managed) && (forall g :: g in base ==> g !in managed) ==> NoDuplicates(r) by {
      if NoDuplicates(base) && NoDuplicates(managed) && (forall g :: g in base ==> g !in managed) {
        forall i, j | 0 <= i < j < |r| ensures r[i] != r[j] {
          if j >= |base| && i < |base| {
            assert r[i] in base && r[j] == enabled[j - |base|];
            assert r[j] in enabled;
          } else if i >= |base| {
            assert r[i] == enabled[i - |base|] && r[j] == enabled[j - |base|];
          }
        }
      }
    }
    r
  }

  /** Developer configuration of the generated KubeVirt resource: absent when no managed gate is enabled. */
  function KubeVirtDeveloperGates(managed: seq<Gate>, declared: map<Gate, bool>): (r: Option<seq<Gate>>)
    ensures r.None? <==> forall g :: g in managed ==> !Enabled(declared, g)
    ensures r.Some? ==> forall g :: g in r.value <==> g in managed && Enabled(declared, g)
  {
    var gates := EnabledManaged(managed, declared);
    if gates == [] then None
    else
      assert gates[0] in gates;
      Some(gates)
  }

  lemma {:induction false} DropDisabledAllDisabled(gates: seq<Gate>, managed: seq<Gate>, declared: map<Gate, bool>)
    requires forall g :: g in gates ==> g in managed && !Enabled(declared, g)
    ensures DropDisabled(gates, managed, declared) == []
    decreases |gates|
  {
    if gates != [] {
      assert gates[0] in gates;
      assert forall g :: g in gates[1..] ==> g in gates;
      DropDisabledAllDisabled(gates[1..], managed, declared);
    }
  }

  lemma {:induction false} NoneEnabledIsEmpty(managed: seq<Gate>, declared: map<Gate, bool>)
    requires forall g :: g in managed ==> !Enabled(declared, g)
    ensures EnabledManaged(managed, declared) == []
    decreases |managed|
  {
    if managed != [] {
      assert managed[0] in managed;
      assert forall g :: g in managed[1..] ==> g in managed;
      NoneEnabledIsEmpty(managed[1..], declared);
    }
  }

  /** Outside upgrade mode, with no managed gate enabled, a config-map list made of
      the base list plus managed gates reduces to the base list. */
  lemma NoneEnabledReducesToBase(base: seq<Gate>, extra: seq<Gate>, managed: seq<Gate>, declared: map<Gate, bool>)
    requires forall g :: g in base ==> g !in managed
    requires forall g :: g in extra ==> g in managed
    requires forall g :: g in managed ==> !Enabled(declared, g)
    ensures Merge(base + extra, managed, declared) == base
  {
    DropDisabledAppend(base, extra, managed, declared);
    DropDisabledNoop(base, managed, declared);
    DropDisabledAllDisabled(extra, managed, declared);
    NoneEnabledIsEmpty(managed, declared);
    assert base + [] == base;
  }

  /** Outside upgrade mode the base list is not re-added: a base gate is on the
      result only if it was already on the operand. */
  lemma BaseNotReAdded(current: seq<Gate>, base: seq<Gate>, managed: seq<Gate>, declared: map<Gate, bool>)
    requires forall g :: g in base ==> g !in managed
    ensures forall g :: g in base && g in Merge(current, managed, declared) ==> g in current
  {
  }

  /** In upgrade mode the list is replaced by the generated one: the base list
      comes back, managed gates follow the map and user gates are dropped. */
  lemma UpgradeRestoresBase(base: seq<Gate>, managed: seq<Gate>, declared: map<Gate, bool>, user: Gate)
    requires forall g :: g in base ==> g !in managed
    requires user !in base && user !in managed
    ensures var r := DesiredConfigMapGates(base, managed, declared);
            && base <= r
            && user !in r
            && (forall g :: g in managed ==> (g in r <==> Enabled(declared, g)))
  {
  }
}
