# KubeVirt operand reconciliation and safe deletion, in Dafny

A model of two pieces of the hyperconverged-cluster-operator.

**The deletion state machine and its helpers in `pkg/util/util.go`.**
- `EnsureDeleted` probes for an object first.
- `ComponentResourceRemoval` then works through the remaining steps:
  - looks the object up;
  - skips objects that carry no `app` label naming the HyperConverged resource, when foreign objects are protected;
  - deletes the object, with dry-run and foreground-propagation options;
  - optionally polls until the object is gone or the context deadline passes.
- The same file also holds the label set stamped on deployed objects (`GetLabels`) and the related-objects bookkeeping (`AddCrToTheRelatedObjectList`).

**The operand reconciler for the KubeVirt priority class, config map and KubeVirt resource.** Its behaviour is stated by `pkg/controller/operands/kubevirt_test.go`. It covers:
- creation with owner labels, and recording present objects among the related objects;
- the restricted config-map update: updatable, removed and preserved keys, depending on upgrade mode;
- the feature-gate merge: managed gates follow the HyperConverged map, user gates survive outside upgrade mode, and the base list is restored in upgrade mode;
- node placement following the HyperConverged resource, with the `Updated` and `Overwritten` flags;
- the per-handler `getFullCr` cache and its `reset`;
- all-or-nothing failure of a bad patch annotation.

Modules:
- `Optional`: `Option` and `Result`.
- `Labels`: label keys, `GetLabels`, the ownership test.
- `Deletion`: the cluster is a script of replies to each Get and Delete and to the i-th poll. Every request is recorded in a trace. A well-behaved store (`HonestCluster`, `AfterCalls`) is the reference the outcomes are proved against.
- `RelatedObjects`: object references, the list helpers, `AddCrToTheRelatedObjectList`.
- `GateList`: Go's `strings.Split` and `strings.Join` on `,`.
- `FeatureGates`: the managed-gate merge.
- `NodePlacement`: placement types and the test fixtures.
- `Overlay`: the all-or-nothing patch fold.
- `KvConfig`: the config-map update.
- `Operands`: generated objects, the cache and `Ensure`.

Modelling choices that differ from a literal reading:
- The context deadline of `validateDeletion` is a number of polls. The Get after poll number `deadline` is the last one.
- Go's `select` may pick the deadline or the timer when both are ready. The model always checks the deadline after a failed Get.
- The `objectreferencesv1` helpers are not part of this model. They are defined here as explicit assumptions:
  - equality is kind, namespace, name and apiVersion;
  - `Set` replaces the first equal entry in place, or appends;
  - `Remove` drops every equal entry.
- The stale-entry loop of `AddCrToTheRelatedObjectList` ranges over the list as it stood after `Set`, because Go evaluates a `range` operand once. `RelatedObjects.RemoveStale` is that loop as written. `RelatedObjects.RemoveStaleIsFilter` shows it equals a plain filter.
- The production `ensure`, hooks and object builders are not part of this model. They are modelled so that every assertion of the test file holds:
  - The KubeVirt resource and the priority class take the generated content as a whole.
  - The config map takes the restricted key update.
  - `Overwritten` is "updated, and the reconcile was not triggered by the HyperConverged resource".
  - Creation does not touch the related objects.
- In upgrade mode an updatable key is copied only when the generated map declares it.
- A config-map gate value is split on `,`; the empty value holds no gate.
- A merged gate list that is the single empty gate is therefore written back as the empty value, which holds no gate. `KvConfig.MergedStoresBack` states this case.

## Model

| member | source | states |
|---|---|---|
| Labels.GetLabels | pkg/util/util.go:265-273 | exactly five labels: `app` is the resource name, managed-by is the operator, version is the given version, part-of is `hyperconverged-cluster`, component as given |
| Labels.ShouldDeleteResource | pkg/util/util.go:157-164 | an object may be removed on behalf of a resource exactly when its `app` label exists and names that resource; a missing label protects the object |
| Labels.OwnLabelsAuthoriseDeletion | pkg/util/util.go:157-164 | objects labelled for resource `h` pass the ownership test for `h2` exactly when `h == h2` |
| Deletion.GetDeletionOption | pkg/util/util.go:166-175 | dry-run set iff `dryRun` (to "All"), foreground propagation iff `wait`, independently |
| Deletion.GetResourceForDeletion | pkg/util/util.go:177-187 | carry on iff the object was found; NotFound stops without error; other errors stop and are surfaced |
| Deletion.DoDeleteResource | pkg/util/util.go:143-155 | deleted iff the delete was accepted; NotFound is `(false, nil)`; any other error is surfaced |
| Deletion.ValidateDeletion | pkg/util/util.go:189-204 | deleted iff some poll up to the deadline reports NotFound; otherwise a timeout error; polls stop at the first NotFound; only Gets are issued |
| Deletion.ComponentResourceRemoval | pkg/util/util.go:109-141 | the lookup Get comes first; absent object: `(false, nil)`, no delete; other lookup errors surfaced; a delete error other than NotFound is returned as `(false, err)` with that same error; protected foreign objects skipped; a delete is issued exactly for an owned present object, with the flags' options; dry run returns `(false, nil)`, no wait returns `(true, nil)`; only wait without dry run polls; a dry run never mutates the store |
| Deletion.EnsureDeleted | pkg/util/util.go:206-223 | NotFound, NoMatch and group-discovery failures on the probe give `(false, nil)` with no delete; other probe errors are surfaced; otherwise the removal's `(deleted, err)` result is returned unchanged, after the probe's Get |
| Deletion.EnsureDeletedOnStore | pkg/util/util.go:109-141 | on a well-behaved store: no error; deleted iff present, owned (when protecting) and not a dry run; the store loses exactly that object in that case and is otherwise unchanged |
| Deletion.ForeignObjectSurvives | pkg/util/util.go:126-128 | on a well-behaved store, a protected removal of an object whose `app` label is missing or names another resource reports `(false, nil)` after the probe and the lookup, issues no delete, and the store keeps the object |
| Deletion.EnsureDeletedIdempotent | pkg/util/util.go:206-223 | after a successful removal, running again issues one Get, reports `(false, nil)` and changes nothing |
| Deletion.WaitingRemovalOutcome | pkg/util/util.go:136-140 | with wait and no dry run: `(true, nil)` iff some poll, up to and including the poll at the deadline, finds the object gone, else the timeout error; the trace is bounded by the deadline |
| RelatedObjects.FindObjectReference | pkg/util/util.go:242-245 | the index of the first equal entry, or none when no entry is equal |
| RelatedObjects.SetObjectReference | pkg/util/util.go:246-250 | the reference is present, unequal entries are kept, nothing else is added |
| RelatedObjects.RemoveObjectReference | pkg/util/util.go:252-258 | exactly the entries unequal to the given one remain |
| RelatedObjects.WithoutStale | pkg/util/util.go:251-259 | exactly the entries that are not stale versions of the reference remain |
| RelatedObjects.RemoveStale | pkg/util/util.go:251-259 | the stale-entry loop as written, over the post-Set snapshot: it only removes entries, and never removes one that is not a stale version of the reference |
| RelatedObjects.RemoveStaleIsFilter | pkg/util/util.go:251-259 | the as-written loop over the post-Set snapshot equals the stale filter |
| RelatedObjects.AddCrToTheRelatedObjectList | pkg/util/util.go:234-263 | unchanged, false, no error iff an identical entry is already found; when changed the reference is present, no entry with the same kind, namespace and name but another apiVersion remains, other objects' entries are kept and nothing else is added; an unresolvable reference is an error with the list untouched |
| RelatedObjects.AddIsIdempotent | pkg/util/util.go:243-262 | adding the same reference again reports false and leaves the list unchanged |
| RelatedObjects.AddPreservesUniqueness | pkg/util/util.go:246-259 | a list with one entry per object keeps that shape after an add |
| RelatedObjects.WithoutStaleUnique | pkg/util/util.go:251-259 | filtering keeps a list with one entry per object in that shape |
| GateList.JoinSplit | pkg/controller/operands/kubevirt_test.go:316-336 | joining the split parts of any stored value gives the value back |
| GateList.ParseJoin | pkg/controller/operands/kubevirt_test.go:285-295 | a list of well-formed gate names survives joining and parsing |
| GateList.ParseJoinAny | pkg/controller/operands/kubevirt_test.go:316-336 | any separator-free list except the lone empty gate survives joining and parsing |
| FeatureGates.Merge | pkg/controller/operands/kubevirt_test.go:316-346 | a managed gate is in the result iff the map enables it; unmanaged gates keep their order and multiplicity; the kept prefix is the old list without disabled gates; nothing foreign is added; no duplicates introduced |
| FeatureGates.MergeNoopIff | pkg/controller/operands/kubevirt_test.go:228-261 | the list is left as found iff its managed gates already agree with the map |
| FeatureGates.MergeIdempotent | pkg/controller/operands/kubevirt_test.go:316-336 | merging twice equals merging once |
| FeatureGates.UserRunSurvives | pkg/controller/operands/kubevirt_test.go:348-370 | a run of user gates survives the merge contiguous and in order |
| FeatureGates.BaseNotReAdded | pkg/controller/operands/kubevirt_test.go:348-370 | a base gate the user removed is not re-added outside upgrade mode |
| FeatureGates.UpgradeRestoresBase | pkg/controller/operands/kubevirt_test.go:372-395 | the generated list starts with the base list, holds the enabled managed gates and no user gate |
| FeatureGates.NoneEnabledReducesToBase | pkg/controller/operands/kubevirt_test.go:338-346 | with no managed gate enabled, the base list plus managed gates reduces to the base list |
| FeatureGates.DesiredConfigMapGates | pkg/controller/operands/kubevirt_test.go:278-295 | the generated list starts with the base list and holds exactly the base and the enabled managed gates; each gate once when the base and managed lists are duplicate-free and disjoint |
| FeatureGates.KubeVirtDeveloperGates | pkg/controller/operands/kubevirt_test.go:669-798 | none iff no managed gate is enabled; otherwise exactly the enabled managed gates |
| Overlay.ApplyPatch | pkg/controller/operands/kubevirt_test.go:900-911 | an empty patch leaves the document; a successful patch uses supported verbs only; a failure names an unsupported verb or a failing operation of the patch (the in-order fold itself is stated by the two lemmas below) |
| Overlay.ApplyPatchSingle | pkg/controller/operands/kubevirt_test.go:900-911 | a one-operation patch: an unknown verb is rejected, a failing step fails the patch, a successful step yields its document |
| Overlay.ApplyPatchCompose | pkg/controller/operands/kubevirt_test.go:913-957 | applying `a + b` is applying `a` and then `b` to its result; a failure in `a` is the whole patch's failure |
| Overlay.UnknownVerbFails | pkg/controller/operands/kubevirt_test.go:960-983 | an unknown verb anywhere fails the whole patch |
| KvConfig.DesiredData | pkg/controller/operands/kubevirt_test.go:278-295 | the generated config map holds the joined generated gate list and the fixed entries otherwise |
| KvConfig.UpgradeData | pkg/controller/operands/kubevirt_test.go:182-226 | updatable keys the generated map declares take its values; the removable key is gone; every other key is kept as found |
| KvConfig.MergeGatesData | pkg/controller/operands/kubevirt_test.go:228-261 | only the feature-gate value may change, to the merged list; untouched when the managed gates agree |
| KvConfig.UpdateConfigMap | pkg/controller/operands/kubevirt_test.go:182-261 | the config map's restricted update: upgrade mode takes the key-level upgrade, otherwise only the gate merge; reported changed iff the data differs from what was found |
| KvConfig.UpgradeUpdatesOnlyAllowedKeys | pkg/controller/operands/kubevirt_test.go:182-226 | in upgrade mode updatable keys take generated values, migrations is removed, the network-interface key keeps its value |
| KvConfig.NoUpgradeLeavesDataAlone | pkg/controller/operands/kubevirt_test.go:228-261 | outside upgrade mode the data is unchanged iff the managed gates on it agree with the map |
| KvConfig.MergedStoresBack | pkg/controller/operands/kubevirt_test.go:316-346 | what is written back parses to the merged list (or to no gate when no managed gate is enabled), and differs from what was found |
| KvConfig.UpdateConfigMapIdempotent | pkg/controller/operands/kubevirt_test.go:228-261 | a second update right after the first changes nothing |
| KvConfig.DesiredDataIsStable | pkg/controller/operands/kubevirt_test.go:144-163 | the generated config map needs no update in either mode |
| Operands.DesiredKey | pkg/controller/operands/kubevirt_test.go:144-163 | the generated object's kind; config map and KubeVirt live in the resource's namespace |
| Operands.BaseKvSpec | pkg/controller/operands/kubevirt_test.go:465-527 | uninstall strategy the default, no CPU request before the patch; placement copied from the resource; developer gates absent iff no managed gate is enabled, else exactly the enabled ones |
| Operands.MakeDesired | pkg/controller/operands/kubevirt_test.go:865-911 | the object carries the owner labels and the kind's identity; only the KubeVirt patch can fail it, exactly when the patch fails |
| Operands.NewHandler | pkg/controller/operands/kubevirt_test.go:1073-1075 | a new handler starts with an empty cache |
| Operands.GetFullCr | pkg/controller/operands/kubevirt_test.go:1077-1091 | a cached instance is returned unchanged; otherwise a new instance with the next generation becomes the cached one; failure leaves the handler as it was |
| Operands.Reset | pkg/controller/operands/kubevirt_test.go:1093-1096 | the cache is empty afterwards |
| Operands.CacheKeepsInstance | pkg/controller/operands/kubevirt_test.go:1077-1091 | two reads without a reset give the same instance, which is the cached one |
| Operands.ResetGivesNewInstance | pkg/controller/operands/kubevirt_test.go:1098-1115 | for any handler keeping its generation counter ahead of its cache: after a reset the next read gives a newly generated instance of another generation than the one read before, and it becomes the cached one |
| Operands.UpdateBody | pkg/controller/operands/kubevirt_test.go:81-123 | updated iff the content changes; the config map takes the restricted update, the other kinds the generated content |
| Operands.Reconcile | pkg/controller/operands/kubevirt_test.go:408-463 | created iff absent and then stored as generated; when present it is recorded among the related objects and only its content may change; overwritten iff updated and not triggered by the resource |
| Operands.Ensure | pkg/controller/operands/kubevirt_test.go:51-79 | a generation failure is reported with store and related objects unchanged; otherwise created iff absent, else recorded and reconciled; overwritten iff updated and not triggered by the resource |
| Operands.CreatedOperandIsOwned | pkg/controller/operands/kubevirt_test.go:408-426 | an absent operand is created with `app` set to the resource name, in its namespace, and only that owner may delete it |
| Operands.PresentOperandIsRecorded | pkg/controller/operands/kubevirt_test.go:165-180 | a present operand's reference is among the related objects, with one entry per object and no outdated apiVersion |
| Operands.KubeVirtFollowsHyperConverged | pkg/controller/operands/kubevirt_test.go:465-606 | after `ensure` the KubeVirt uninstall strategy is the default, and its placement and developer gates are the generated ones; updated iff the stored spec differed; overwritten iff updated and operand-triggered |
| Operands.MissingUninstallStrategyRestored | pkg/controller/operands/kubevirt_test.go:465-489 | a stored KubeVirt resource whose uninstall strategy was cleared gets the default back; a reconcile triggered by the resource reports updated and not overwritten |
| Operands.DirectPlacementEditReverted | pkg/controller/operands/kubevirt_test.go:608-655 | a placement edited on the KubeVirt resource is reverted to the fixture (two tolerations) with Updated and Overwritten |
| Operands.ConfigMapRestrictedUpdate | pkg/controller/operands/kubevirt_test.go:182-261 | upgrade mode: updatable keys generated, migrations gone, network interface kept; otherwise data untouched iff the managed gates agree |
| Operands.ConfigMapGatesFollowHyperConverged | pkg/controller/operands/kubevirt_test.go:316-395 | a managed gate is on the stored list iff the map enables it; in upgrade mode the list is the base list plus the enabled managed gates |
| Operands.PatchedSpecIsDeployed | pkg/controller/operands/kubevirt_test.go:913-1034 | a patch that applies cleanly: the KubeVirt resource is created with, or reconciled to, the patched specification; updated iff the stored one differed |
| Operands.BadPatchChangesNothing | pkg/controller/operands/kubevirt_test.go:1036-1066 | an unknown patch verb makes `ensure` fail with nothing created or modified, related objects and cache untouched |
| Operands.EnsureIsIdempotent | pkg/controller/operands/kubevirt_test.go:68-79 | a second `ensure` on what the first left neither creates nor updates and leaves the store as it is |

## Left out

- `GetOperatorNamespaceFromEnv`, `IsRunModeLocal`, `GetOperatorNamespace` and `GetHcoKvIoVersion` read the environment or the filesystem. The operator version is a parameter of `GetLabels`.
- `ToUnstructured` and `GetRuntimeObject` convert through the scheme and call the client. The object is its identity key, and their outcomes are the scripted replies. Conversion errors are not modelled.
- Wall-clock time and context cancellation in `validateDeletion` are a poll count. A context without a deadline, which polls forever, is not modelled.
- Log messages are not modelled.
- The JSON Patch interpreter (section 4 of RFC 6902, with paths per RFC 6901) is a caller-supplied step function. Only the fold and its all-or-nothing outcome are modelled. So the concrete effect of the three-operation patch on the CPU request and developer gates is not derived; `Operands.PatchedSpecIsDeployed` states that whatever the patch yields is what gets deployed.
- Condition reasons and messages, and `UpgradeDone`, are not modelled.
- In `ensure`, the store's Get, Create and Update always succeed. Their error paths are not modelled.
- Operands.Ensure: the stored object keeps its metadata on update, and only its content is replaced.
- Operands.ReferenceOf: the resource version of a reference is not modelled and is left empty.
- Label keys, config-map key names, object names, the priority-class value and the apiVersions are defined in files that are not part of this model. They are written here as constants.
- `pkg/controller/commonTestUtils/testUtils.go` contributes only the node-placement fixtures (`NodePlacement.NewNodePlacement`, `NodePlacement.NewOtherNodePlacement`).
- Operands.ConfigMapRestrictedUpdate and KvConfig.NoUpgradeLeavesDataAlone: the test at kubevirt_test.go:228-261 expects no change for the stock resource's gate map. The model states the condition under which that holds: the managed gates agree.
