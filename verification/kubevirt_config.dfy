/** The restricted update of the KubeVirt config map, as pinned by
    pkg/controller/operands/kubevirt_test.go ("should update only a few keys
    and only when in upgrade mode", "should not touch it when not in upgrade
    mode", and the feature-gate cases).

    In upgrade mode the updatable keys take the generated values and the
    removable key is dropped; every other key is preserved. Outside upgrade
    mode only the managed feature gates of the `feature-gates` value follow
    the HyperConverged map. */
module KvConfig {
  import opened GateList
  import opened FeatureGates

  type Data = map<string, string>

  // Config map keys (KubeVirt's virt-config package).
  const SmbiosConfigKey: string := "smbios"
  const MachineTypeKey: string := "machine-type"
  const SELinuxLauncherTypeKey: string := "selinuxLauncherType"
  const FeatureGatesKey: string := "feature-gates"
  const MigrationsConfigKey: string := "migrations"
  const NetworkInterfaceKey: string := "default-network-interface"

  /** Keys copied from the generated config map in upgrade mode. */
  const UpdatableKeys: set<string> := {SmbiosConfigKey, MachineTypeKey, SELinuxLauncherTypeKey, FeatureGatesKey}

  /** Keys removed in upgrade mode. */
  const RemovedKeys: set<string> := {MigrationsConfigKey}

  /** The gate list held by a config map (none when the key is missing). */
  function GatesOf(data: Data): seq<Gate>
  {
    Parse(if FeatureGatesKey in data then data[FeatureGatesKey] else "")
  }

  /** The generated config map data: the builder's fixed entries plus the generated gate list. */
  function DesiredData(defaults: Data, base: seq<Gate>, managed: seq<Gate>, declared: map<Gate, bool>): (d: Data)
    ensures FeatureGatesKey in d && d[FeatureGatesKey] == Join(DesiredConfigMapGates(base, managed, declared))
    ensures forall k :: k != FeatureGatesKey ==> (k in d <==> k in defaults) && (k in d ==> d[k] == defaults[k])
  {
    defaults[FeatureGatesKey := Join(DesiredConfigMapGates(base, managed, declared))]
  }

  /** Upgrade mode: copy the updatable keys the generated map declares, drop the removable ones. */
  function UpgradeData(found: Data, desired: Data): (r: Data)
    ensures forall k :: k in UpdatableKeys && k in desired ==> k in r && r[k] == desired[k]
    ensures forall k :: k in RemovedKeys ==> k !in r
    ensures forall k :: !(k in UpdatableKeys && k in desired) && k !in RemovedKeys ==>
              (k in r <==> k in found) && (k in r ==> r[k] == found[k])
  {
    map k | k in (found.Keys + (UpdatableKeys * desired.Keys)) - RemovedKeys ::
      if k in UpdatableKeys && k in desired then desired[k] else found[k]
  }

  /** Outside upgrade mode: reconcile the managed gates of the stored list, touch nothing else. */
  function MergeGatesData(found: Data, managed: seq<Gate>, declared: map<Gate, bool>): (r: Data)
    ensures forall k :: k != FeatureGatesKey ==> (k in r <==> k in found) && (k in r ==> r[k] == found[k])
    ensures r == found || (FeatureGatesKey in r && r[FeatureGatesKey] == Join(Merge(GatesOf(found), managed, declared)))
    ensures ManagedAgree(GatesOf(found), managed, declared) ==> r == found
  {
    var current := GatesOf(found);
    var merged := Merge(current, managed, declared);
    MergeNoopIff(current, managed, declared);
    if merged == current then found else found[FeatureGatesKey := Join(merged)]
  }

  datatype DataUpdate = DataUpdate(data: Data, changed: bool)

  /** The config map's `updateCr`: the new data and whether it must be written back. */
  function UpdateConfigMap(found: Data, desired: Data, managed: seq<Gate>, declared: map<Gate, bool>, upgradeMode: bool): (r: DataUpdate)
    ensures r.changed <==> r.data != found
    ensures upgradeMode ==> r.data == UpgradeData(found, desired)
    ensures !upgradeMode ==> r.data == MergeGatesData(found, managed, declared)
  {
    var data := if upgradeMode then UpgradeData(found, desired) else MergeGatesData(found, managed, declared);
    DataUpdate(data, data != found)
  }

  /** In upgrade mode the updatable keys take the generated values, the
      migrations key is removed and the network-interface key keeps its value. */
  lemma UpgradeUpdatesOnlyAllowedKeys(found: Data, desired: Data, managed: seq<Gate>, declared: map<Gate, bool>)
    requires forall k :: k in UpdatableKeys ==> k in desired
    ensures var r := UpdateConfigMap(found, desired, managed, declared, true).data;
            && (forall k :: k in UpdatableKeys ==> k in r && r[k] == desired[k])
            && MigrationsConfigKey !in r
            && (NetworkInterfaceKey in r <==> NetworkInterfaceKey in found)
            && (NetworkInterfaceKey in found ==> r[NetworkInterfaceKey] == found[NetworkInterfaceKey])
  {
  }

  /** Outside upgrade mode the data is left exactly as found if and only if the
      managed gates on it already agree with the HyperConverged map. */
  lemma NoUpgradeLeavesDataAlone(found: Data, desired: Data, managed: seq<Gate>, declared: map<Gate, bool>)
    requires AllWellFormed(managed)
    ensures !UpdateConfigMap(found, desired, managed, declared, false).changed <==>
              ManagedAgree(GatesOf(found), managed, declared)
  {
    var current := GatesOf(found);
    var merged := Merge(current, managed, declared);
    MergeNoopIff(current, managed, declared);
    if merged != current && MergeGatesData(found, managed, declared) == found {
      MergedStoresBack(found, managed, declared);
    }
  }

  /** When the merged list differs from the stored one, what is written back
      parses to the merged list, except for the lone empty gate: it is written
      as the empty value, which holds no gate, and then no managed gate is enabled. */
  lemma MergedStoresBack(found: Data, managed: seq<Gate>, declared: map<Gate, bool>)
    requires AllWellFormed(managed)
    requires Merge(GatesOf(found), managed, declared) != GatesOf(found)
    ensures var merged := Merge(GatesOf(found), managed, declared);
            && (merged != [""] ==> GatesOf(MergeGatesData(found, managed, declared)) == merged)
            && (merged == [""] ==> GatesOf(MergeGatesData(found, managed, declared)) == []
                                   && forall g :: g in managed ==> !Enabled(declared, g))
    ensures MergeGatesData(found, managed, declared) != found
  {
    var current := GatesOf(found);
    var merged := Merge(current, managed, declared);
    assert "" !in managed by {
      forall j | 0 <= j < |managed| ensures managed[j] != "" {
        assert WellFormed(managed[j]);
      }
    }
    if merged == [""] {
      assert "" in merged;
      assert "" in current;
    } else {
      assert forall i :: 0 <= i < |merged| ==> Separator !in merged[i] by {
        forall i | 0 <= i < |merged| ensures Separator !in merged[i] {
          assert merged[i] in merged;
          if merged[i] in managed {
            var j :| 0 <= j < |managed| && managed[j] == merged[i];
          } else {
            var j :| 0 <= j < |current| && current[j] == merged[i];
          }
        }
      }
      ParseJoinAny(merged);
    }
  }

  /** Updating twice in a row: the second update changes nothing. */
  lemma UpdateConfigMapIdempotent(found: Data, desired: Data, managed: seq<Gate>, declared: map<Gate, bool>, upgradeMode: bool)
    requires AllWellFormed(managed)
    ensures var once := UpdateConfigMap(found, desired, managed, declared, upgradeMode);
            !UpdateConfigMap(once.data, desired, managed, declared, upgradeMode).changed
  {
    var once := UpdateConfigMap(found, desired, managed, declared, upgradeMode);
    if upgradeMode {
      assert UpgradeData(once.data, desired) == once.data;
    } else {
      var current := GatesOf(found);
      var merged := Merge(current, managed, declared);
      if merged != current {
        MergedStoresBack(found, managed, declared);
        MergeIdempotent(current, managed, declared);
      } else {
        MergeNoopIff(current, managed, declared);
      }
      NoUpgradeLeavesDataAlone(once.data, desired, managed, declared);
      MergeNoopIff(GatesOf(once.data), managed, declared);
    }
  }

  /** The generated config map needs no update: its gate list is the base list
      followed by the enabled managed gates, which already agree with the map. */
  lemma DesiredDataIsStable(defaults: Data, base: seq<Gate>, managed: seq<Gate>, declared: map<Gate, bool>, upgradeMode: bool)
    requires AllWellFormed(managed) && AllWellFormed(base)
    requires forall g :: g in base ==> g !in managed
    requires MigrationsConfigKey !in defaults
    ensures var d := DesiredData(defaults, base, managed, declared);
            !UpdateConfigMap(d, d, managed, declared, upgradeMode).changed
  {
    var d := DesiredData(defaults, base, managed, declared);
    var gates := DesiredConfigMapGates(base, managed, declared);
    if upgradeMode {
      assert UpgradeData(d, d) == d;
    } else {
      assert AllWellFormed(gates) by {
        forall i | 0 <= i < |gates| ensures WellFormed(gates[i]) {
          if i >= |base| {
            assert gates[i] in managed;
            var j :| 0 <= j < |managed| && managed[j] == gates[i];
          }
        }
      }
      ParseJoin(gates);
      assert GatesOf(d) == gates;
      NoUpgradeLeavesDataAlone(d, d, managed, declared);
    }
  }
}
