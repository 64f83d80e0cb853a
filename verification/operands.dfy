/** The generic operand reconciler (`genericOperand.ensure` and its hooks) for
    the three KubeVirt operands: the priority class, the config map and the
    KubeVirt resource, as its behaviour is pinned by
    pkg/controller/operands/kubevirt_test.go.

    One `Ensure` call: read the generated object through the handler's cache
    (`getFullCr`), then either create it when the store does not hold it, or
    record the stored object among the HyperConverged resource's related
    objects and reconcile it with the generated one (`updateCr`). The store is
    a map from object identity to object; its Get, Create and Update always
    succeed. */
module Operands {
  import opened Optional
  import opened Labels
  import opened GateList
  import opened FeatureGates
  import opened NodePlacement
  import opened Overlay
  import opened RelatedObjects
  import KvConfig
  import Deletion

  type Key = Deletion.ObjectKey

  datatype Kind = PriorityClassKind | ConfigMapKind | KubeVirtKind

  /** The part of the KubeVirt specification the operator generates. */
  datatype KvSpec = KvSpec(
    uninstallStrategy: string,
    infra: Option<Placement>,
    workloads: Option<Placement>,
    developerGates: Option<seq<Gate>>,
    cpuRequest: Option<string>)

  datatype Body =
    | PriorityClassBody(value: int, globalDefault: bool, description: string)
    | ConfigMapBody(data: KvConfig.Data)
    | KubeVirtBody(spec: KvSpec)

  /** A deployed object: identity, reference metadata, labels and content. */
  datatype Operand = Operand(key: Key, apiVersion: string, uid: string, labels: LabelMap, body: Body)

  type Store = map<Key, Operand>

  /** The fields of the HyperConverged resource the three operands read. */
  datatype HyperConverged = HyperConverged(
    name: string,
    namespace: string,
    featureGates: map<Gate, bool>,
    infra: Option<Placement>,
    workloads: Option<Placement>,
    kvPatch: seq<PatchOp>,
    relatedObjects: seq<ObjectReference>)

  /** One reconcile request: the resource, upgrade mode, and whether the
      HyperConverged resource (rather than an operand) triggered it. */
  datatype Request = Request(instance: HyperConverged, upgradeMode: bool, hcoTriggered: bool)

  /** Deployment-wide inputs: the operator version (read from the environment
      by the source), the fixed config-map entries, the base gate list, the
      managed gate names, the default uninstall strategy, and the one-step
      interpreter of the patch annotation. */
  datatype Settings = Settings(
    version: string,
    cmDefaults: KvConfig.Data,
    cmBaseGates: seq<Gate>,
    managedGates: seq<Gate>,
    uninstallStrategy: string,
    applyOp: (KvSpec, PatchOp) -> Option<KvSpec>)

  /** Settings of a sane deployment: gate names without separators, base and
      managed gates disjoint, no removable key among the generated entries. */
  predicate ValidSettings(s: Settings)
  {
    && AllWellFormed(s.managedGates)
    && AllWellFormed(s.cmBaseGates)
    && (forall g :: g in s.cmBaseGates ==> g !in s.managedGates)
    && KvConfig.MigrationsConfigKey !in s.cmDefaults
  }

  // Names and fixed values of the generated objects.
  const ComponentCompute: string := "compute"
  const KvPriorityClassName: string := "kubevirt-cluster-critical"
  const KvPriorityClassValue: int := 1000000000
  const KvPriorityClassDescription: string := "This priority class should be used for KubeVirt core components only."
  const KvConfigMapName: string := "kubevirt-config"
  const KubeVirtNamePrefix: string := "kubevirt-"

  function KindName(kind: Kind): string
  {
    match kind
    case PriorityClassKind => "PriorityClass"
    case ConfigMapKind => "ConfigMap"
    case KubeVirtKind => "KubeVirt"
  }

  function ApiVersion(kind: Kind): string
  {
    match kind
    case PriorityClassKind => "scheduling.k8s.io/v1"
    case ConfigMapKind => "v1"
    case KubeVirtKind => "kubevirt.io/v1alpha3"
  }

  /** Identity of the object generated for `hc`: the priority class is
      cluster-scoped, the other two live in the resource's namespace. */
  function DesiredKey(kind: Kind, hc: HyperConverged): (k: Key)
    ensures k.kind == KindName(kind)
    ensures kind != PriorityClassKind ==> k.namespace == hc.namespace
  {
    match kind
    case PriorityClassKind => Deletion.ObjectKey(KindName(kind), "", KvPriorityClassName)
    case ConfigMapKind => Deletion.ObjectKey(KindName(kind), hc.namespace, KvConfigMapName)
    case KubeVirtKind => Deletion.ObjectKey(KindName(kind), hc.namespace, KubeVirtNamePrefix + hc.name)
  }

  predicate BodyOfKind(kind: Kind, b: Body)
  {
    match kind
    case PriorityClassKind => b.PriorityClassBody?
    case ConfigMapKind => b.ConfigMapBody?
    case KubeVirtKind => b.KubeVirtBody?
  }

  /** The KubeVirt specification before the patch annotation: placement
      copied from the resource, developer gates the enabled managed ones. */
  function BaseKvSpec(hc: HyperConverged, s: Settings): (spec: KvSpec)
    ensures spec.uninstallStrategy == s.uninstallStrategy && spec.cpuRequest.None?
    ensures spec.infra == hc.infra && spec.workloads == hc.workloads
    ensures spec.developerGates.None? <==> forall g :: g in s.managedGates ==> !Enabled(hc.featureGates, g)
    ensures spec.developerGates.Some? ==>
              forall g :: g in spec.developerGates.value <==> g in s.managedGates && Enabled(hc.featureGates, g)
  {
    KvSpec(s.uninstallStrategy, hc.infra, hc.workloads, KubeVirtDeveloperGates(s.managedGates, hc.featureGates), None)
  }

  /** The object generated for `hc` (`NewKubeVirtPriorityClass`,
      `NewKubeVirtConfigForCR`, `NewKubeVirt`); only the patch annotation of
      the KubeVirt resource can make it fail. */
  function MakeDesired(kind: Kind, hc: HyperConverged, s: Settings): (r: Result<Operand, PatchError>)
    ensures r.Ok? ==> r.value.key == DesiredKey(kind, hc) && r.value.apiVersion == ApiVersion(kind)
    ensures r.Ok? ==> r.value.labels == GetLabels(hc.name, ComponentCompute, s.version)
    ensures r.Ok? ==> BodyOfKind(kind, r.value.body)
    ensures r.Err? <==> kind == KubeVirtKind && ApplyPatch(BaseKvSpec(hc, s), hc.kvPatch, s.applyOp).Err?
    ensures r.Ok? && kind == ConfigMapKind ==>
              r.value.body.data == KvConfig.DesiredData(s.cmDefaults, s.cmBaseGates, s.managedGates, hc.featureGates)
    ensures r.Ok? && kind == KubeVirtKind && hc.kvPatch == [] ==> r.value.body.spec == BaseKvSpec(hc, s)
  {
    var labels := GetLabels(hc.name, ComponentCompute, s.version);
    var key := DesiredKey(kind, hc);
    match kind
    case PriorityClassKind =>
      Ok(Operand(key, ApiVersion(kind), "", labels,
                 PriorityClassBody(KvPriorityClassValue, false, KvPriorityClassDescription)))
    case ConfigMapKind =>
      Ok(Operand(key, ApiVersion(kind), "", labels,
                 ConfigMapBody(KvConfig.DesiredData(s.cmDefaults, s.cmBaseGates, s.managedGates, hc.featureGates))))
    case KubeVirtKind =>
      match ApplyPatch(BaseKvSpec(hc, s), hc.kvPatch, s.applyOp)
      case Err(e) => Err(e)
      case Ok(spec) => Ok(Operand(key, ApiVersion(kind), "", labels, KubeVirtBody(spec)))
  }

  /** The reference the reconciler records for a stored object. */
  function ReferenceOf(o: Operand): (ref: ObjectReference)
    ensures ref.kind == o.key.kind && ref.namespace == o.key.namespace && ref.name == o.key.name
    ensures ref.apiVersion == o.apiVersion && ref.uid == o.uid
  {
    ObjectReference(o.key.kind, o.key.namespace, o.key.name, o.apiVersion, o.uid, "")
  }

  // ---------------------------------------------------------------------------
  // The per-handler cache of the generated object. The identity of the
  // cached instance (compared by address in the source) is modelled by a
  // generation number drawn from a counter.

  datatype Instance = Instance(generation: nat, operand: Operand)

  datatype Handler = Handler(kind: Kind, cache: Option<Instance>, nextGeneration: nat)

  /** Every instance handed out so far has a generation below the counter. */
  predicate Valid(h: Handler)
  {
    h.cache.Some? ==> h.cache.value.generation < h.nextGeneration
  }

  /** A handler as constructed: empty cache. */
  function NewHandler(kind: Kind): (h: Handler)
    ensures h.kind == kind && h.cache.None? && Valid(h)
  {
    Handler(kind, None, 0)
  }

  datatype Read = Read(result: Result<Instance, PatchError>, handler: Handler)

  /** `getFullCr`: the cached instance when there is one, otherwise a newly
      generated instance that becomes the cached one. A generation failure
      leaves the cache empty. */
  function GetFullCr(h: Handler, hc: HyperConverged, s: Settings): (r: Read)
    ensures r.handler.kind == h.kind
    ensures Valid(h) ==> Valid(r.handler)
    ensures h.cache.Some? ==> r.result == Ok(h.cache.value) && r.handler == h
    ensures h.cache.None? && r.result.Ok? ==>
              && r.handler.cache == Some(r.result.value)
              && r.result.value.generation == h.nextGeneration
              && r.handler.nextGeneration == h.nextGeneration + 1
              && MakeDesired(h.kind, hc, s).Ok?
              && r.result.value.operand == MakeDesired(h.kind, hc, s).value
    ensures h.cache.None? ==> (r.result.Err? <==> MakeDesired(h.kind, hc, s).Err?)
    ensures r.result.Err? ==> r.handler == h
  {
    match h.cache
    case Some(inst) => Read(Ok(inst), h)
    case None =>
      match MakeDesired(h.kind, hc, s)
      case Err(e) => Read(Err(e), h)
      case Ok(o) =>
        var inst := Instance(h.nextGeneration, o);
        Read(Ok(inst), h.(cache := Some(inst), nextGeneration := h.nextGeneration + 1))
  }

  /** `reset`: forget the cached instance. */
  function Reset(h: Handler): (r: Handler)
    ensures r.cache.None? && r.kind == h.kind
    ensures Valid(h) ==> Valid(r)
  {
    h.(cache := None)
  }

  /** Two reads without a reset in between yield the same instance. */
  lemma CacheKeepsInstance(h: Handler, hc: HyperConverged, hc2: HyperConverged, s: Settings)
    requires GetFullCr(h, hc, s).result.Ok?
    ensures var first := GetFullCr(h, hc, s);
            var second := GetFullCr(first.handler, hc2, s);
            second.result == first.result && second.handler == first.handler
            && first.handler.cache == Some(first.result.value)
  {
  }

  /** After a reset the next read yields a new instance, which becomes the
      cached one. `Valid` makes the counter tell the new instance apart from
      the one read before the reset, whether that one was cached already or
      generated by the first read. */
  lemma ResetGivesNewInstance(h: Handler, hc: HyperConverged, s: Settings)
    requires Valid(h)
    requires MakeDesired(h.kind, hc, s).Ok?
    ensures var first := GetFullCr(h, hc, s);
            var second := GetFullCr(Reset(first.handler), hc, s);
            && first.result.Ok?
            && Reset(first.handler).cache.None?
            && second.result.Ok?
            && second.result.value.generation != first.result.value.generation
            && second.handler.cache == Some(second.result.value)
            && second.result.value.operand == MakeDesired(h.kind, hc, s).value
            && (h.cache.None? ==> second.result.value.operand == first.result.value.operand)
  {
  }

  // ---------------------------------------------------------------------------
  // Reconciling a stored object with the generated one (`updateCr`).

  datatype BodyUpdate = BodyUpdate(body: Body, updated: bool)

  /** The config map takes the restricted key update; the priority class and
      the KubeVirt resource take the generated content as a whole. */
  function UpdateBody(found: Body, desired: Body, req: Request, s: Settings): (r: BodyUpdate)
    ensures r.updated <==> r.body != found
    ensures !(found.ConfigMapBody? && desired.ConfigMapBody?) ==> r.body == desired
    ensures found.ConfigMapBody? && desired.ConfigMapBody? ==>
              r.body == ConfigMapBody(KvConfig.UpdateConfigMap(found.data, desired.data, s.managedGates,
                                                               req.instance.featureGates, req.upgradeMode).data)
  {
    if found.ConfigMapBody? && desired.ConfigMapBody? then
      var u := KvConfig.UpdateConfigMap(found.data, desired.data, s.managedGates, req.instance.featureGates, req.upgradeMode);
      BodyUpdate(ConfigMapBody(u.data), u.changed)
    else
      BodyUpdate(desired, found != desired)
  }

  datatype EnsureResult = EnsureResult(created: bool, updated: bool, overwritten: bool, err: Option<PatchError>)

  /** Outcome of one `ensure`: result flags, the store, the resource (with its
      related objects) and the handler (with its cache) afterwards. */
  datatype Ensured = Ensured(result: EnsureResult, store: Store, instance: HyperConverged, handler: Handler)

  /** What `ensure` changes apart from the handler. */
  datatype Reconciled = Reconciled(result: EnsureResult, store: Store, instance: HyperConverged)

  /** `ensure` once the generated object `d` is known: create it when absent,
      otherwise record the stored object and reconcile its content. */
  function Reconcile(d: Operand, req: Request, store: Store, s: Settings): (r: Reconciled)
    ensures r.result.err.None?
    // created exactly when absent, and then stored as generated
    ensures r.result.created <==> d.key !in store
    ensures r.result.created ==> r.store == store[d.key := d] && r.instance == req.instance && !r.result.updated
    // present: recorded among the related objects, only its content may change
    ensures !r.result.created ==>
              && d.key in r.store
              && r.store - {d.key} == store - {d.key}
              && r.store[d.key] == store[d.key].(body := r.store[d.key].body)
              && ReferenceOf(store[d.key]) in r.instance.relatedObjects
              && (!AlreadyRecorded(req.instance.relatedObjects, ReferenceOf(store[d.key])) ==>
                    forall x :: x in r.instance.relatedObjects ==> !Stale(x, ReferenceOf(store[d.key])))
              && (r.result.updated <==> r.store != store)
    // an overwrite is an update the HyperConverged resource did not ask for
    ensures r.result.overwritten <==> r.result.updated && !req.hcoTriggered
    ensures r.instance.name == req.instance.name && r.instance.featureGates == req.instance.featureGates
  {
    if d.key !in store then
      Reconciled(EnsureResult(true, false, false, None), store[d.key := d], req.instance)
    else
      var found := store[d.key];
      var added := AddCrToTheRelatedObjectList(req.instance.relatedObjects, Resolved(ReferenceOf(found)));
      AlreadyRecordedContains(req.instance.relatedObjects, ReferenceOf(found));
      var u := UpdateBody(found.body, d.body, req, s);
      var store' := if u.updated then store[d.key := found.(body := u.body)] else store;
      assert u.updated ==> store'[d.key] != store[d.key];
      Reconciled(EnsureResult(false, u.updated, u.updated && !req.hcoTriggered, None),
              store', req.instance.(relatedObjects := added.refs))
  }

  /** `genericOperand.ensure`: read the generated object through the cache,
      report a generation failure, or create / record-and-reconcile it. */
  function Ensure(h: Handler, req: Request, store: Store, s: Settings): (r: Ensured)
    ensures r.handler == GetFullCr(h, req.instance, s).handler
    // a generation failure is reported and nothing else happens
    ensures GetFullCr(h, req.instance, s).result.Err? ==>
              && r.result == EnsureResult(false, false, false, Some(GetFullCr(h, req.instance, s).result.error))
              && r.store == store && r.instance == req.instance
    ensures GetFullCr(h, req.instance, s).result.Ok? ==>
              var d := GetFullCr(h, req.instance, s).result.value.operand;
              && r.result.err.None?
              && (r.result.created <==> d.key !in store)
              && (r.result.created ==> r.store == store[d.key := d] && r.instance == req.instance && !r.result.updated)
              && (!r.result.created ==>
                    && d.key in r.store
                    && r.store - {d.key} == store - {d.key}
                    && r.store[d.key] == store[d.key].(body := r.store[d.key].body)
                    && ReferenceOf(store[d.key]) in r.instance.relatedObjects
                    && (!AlreadyRecorded(req.instance.relatedObjects, ReferenceOf(store[d.key])) ==>
                          forall x :: x in r.instance.relatedObjects ==> !Stale(x, ReferenceOf(store[d.key])))
                    && (r.result.updated <==> r.store != store))
    ensures r.result.overwritten <==> r.result.updated && !req.hcoTriggered
    ensures r.instance.name == req.instance.name && r.instance.featureGates == req.instance.featureGates
  {
    var read := GetFullCr(h, req.instance, s);
    match read.result
    case Err(e) => Ensured(EnsureResult(false, false, false, Some(e)), store, req.instance, read.handler)
    case Ok(inst) =>
      var c := Reconcile(inst.operand, req, store, s);
      Ensured(c.result, c.store, c.instance, read.handler)
  }

  /** An already recorded reference is in the list. */
  lemma AlreadyRecordedContains(refs: seq<ObjectReference>, ref: ObjectReference)
    ensures AlreadyRecorded(refs, ref) ==> ref in refs
  {
    if AlreadyRecorded(refs, ref) {
      var i := FindObjectReference(refs, ref).value;
      assert refs[i] == ref;
    }
  }

  // ---------------------------------------------------------------------------
  // Scenario properties.

  /** An absent operand is created carrying the owner's `app` label, in the
      resource's namespace, so the deletion state machine may later remove it
      on behalf of that owner and of no other. */
  lemma CreatedOperandIsOwned(kind: Kind, req: Request, store: Store, s: Settings, owner: string)
    requires MakeDesired(kind, req.instance, s).Ok?
    requires DesiredKey(kind, req.instance) !in store
    ensures var r := Ensure(NewHandler(kind), req, store, s);
            var key := DesiredKey(kind, req.instance);
            && r.result.created && !r.result.updated && r.result.err.None?
            && key in r.store
            && AppLabel in r.store[key].labels && r.store[key].labels[AppLabel] == req.instance.name
            && (kind != PriorityClassKind ==> r.store[key].key.namespace == req.instance.namespace)
            && (ShouldDeleteResource(r.store[key].labels, owner) <==> owner == req.instance.name)
  {
    OwnLabelsAuthoriseDeletion(req.instance.name, ComponentCompute, s.version, owner);
  }

  /** A present operand's reference ends up among the related objects; a list
      with one entry per object keeps that shape and holds no entry for the
      operand under another apiVersion. */
  lemma PresentOperandIsRecorded(kind: Kind, req: Request, store: Store, s: Settings)
    requires MakeDesired(kind, req.instance, s).Ok?
    requires DesiredKey(kind, req.instance) in store
    requires UniqueIdentities(req.instance.relatedObjects)
    ensures var r := Ensure(NewHandler(kind), req, store, s);
            var found := store[DesiredKey(kind, req.instance)];
            && !r.result.created && r.result.err.None?
            && ReferenceOf(found) in r.instance.relatedObjects
            && UniqueIdentities(r.instance.relatedObjects)
            && (forall x :: x in r.instance.relatedObjects ==> !Stale(x, ReferenceOf(found)))
  {
    var refs := req.instance.relatedObjects;
    var ref := ReferenceOf(store[DesiredKey(kind, req.instance)]);
    AddPreservesUniqueness(refs, ref);
    if AlreadyRecorded(refs, ref) {
      AlreadyRecordedContains(refs, ref);
      var j := FindObjectReference(refs, ref).value;
      forall i | 0 <= i < |refs| ensures !Stale(refs[i], ref) {
        if i < j {
          assert !SameIdentity(refs[i], refs[j]);
        } else if j < i {
          assert !SameIdentity(refs[j], refs[i]);
        }
      }
    }
  }

  /** The KubeVirt resource follows the HyperConverged resource: its node
      placement and developer gates are the generated ones afterwards; it is
      updated exactly when they (or another generated field) differed, and the
      update is an overwrite exactly when an operand triggered the reconcile. */
  lemma KubeVirtFollowsHyperConverged(req: Request, store: Store, s: Settings)
    requires req.instance.kvPatch == []
    requires DesiredKey(KubeVirtKind, req.instance) in store
    requires store[DesiredKey(KubeVirtKind, req.instance)].body.KubeVirtBody?
    ensures var r := Ensure(NewHandler(KubeVirtKind), req, store, s);
            var key := DesiredKey(KubeVirtKind, req.instance);
            var spec := r.store[key].body.spec;
            && r.result.err.None? && !r.result.created
            && r.store[key].body.KubeVirtBody?
            && spec.uninstallStrategy == s.uninstallStrategy
            && spec.infra == req.instance.infra
            && spec.workloads == req.instance.workloads
            && spec.developerGates == KubeVirtDeveloperGates(s.managedGates, req.instance.featureGates)
            && (r.result.updated <==> store[key].body.spec != BaseKvSpec(req.instance, s))
            && (r.result.overwritten <==> r.result.updated && !req.hcoTriggered)
  {
    var key := DesiredKey(KubeVirtKind, req.instance);
    var r := Ensure(NewHandler(KubeVirtKind), req, store, s);
    var found := store[key];
    assert MakeDesired(KubeVirtKind, req.instance, s).value.body == KubeVirtBody(BaseKvSpec(req.instance, s));
    var u := UpdateBody(found.body, KubeVirtBody(BaseKvSpec(req.instance, s)), req, s);
    assert r.store[key] == found.(body := u.body);
  }

  /** A KubeVirt resource whose uninstall strategy was cleared gets the
      default back; the reconcile triggered by the HyperConverged resource
      reports an update that is not an overwrite. */
  lemma MissingUninstallStrategyRestored(req: Request, store: Store, s: Settings)
    requires req.instance.kvPatch == [] && req.hcoTriggered
    requires s.uninstallStrategy != ""
    requires DesiredKey(KubeVirtKind, req.instance) in store
    requires store[DesiredKey(KubeVirtKind, req.instance)].body ==
               KubeVirtBody(BaseKvSpec(req.instance, s).(uninstallStrategy := ""))
    ensures var r := Ensure(NewHandler(KubeVirtKind), req, store, s);
            var key := DesiredKey(KubeVirtKind, req.instance);
            && r.result.err.None? && !r.result.created
            && r.result.updated && !r.result.overwritten
            && r.store[key].body.KubeVirtBody?
            && r.store[key].body.spec.uninstallStrategy == s.uninstallStrategy
  {
    KubeVirtFollowsHyperConverged(req, store, s);
  }

  /** A placement set directly on the KubeVirt resource is reverted to the
      HyperConverged fixture (two tolerations again), reported as an overwrite
      when an operand triggered the reconcile. */
  lemma DirectPlacementEditReverted(req: Request, store: Store, s: Settings, edited: Placement)
    requires req.instance.kvPatch == []
    requires req.instance.infra == Some(NewNodePlacement()) && req.instance.workloads == Some(NewNodePlacement())
    requires !req.hcoTriggered
    requires edited != NewNodePlacement()
    requires DesiredKey(KubeVirtKind, req.instance) in store
    requires store[DesiredKey(KubeVirtKind, req.instance)].body.KubeVirtBody?
    requires store[DesiredKey(KubeVirtKind, req.instance)].body.spec.infra == Some(edited)
    ensures var r := Ensure(NewHandler(KubeVirtKind), req, store, s);
            var spec := r.store[DesiredKey(KubeVirtKind, req.instance)].body.spec;
            && r.result.updated && r.result.overwritten
            && spec.infra == Some(NewNodePlacement())
            && |spec.infra.value.tolerations| == 2
            && spec.infra.value.nodeSelector["key1"] == "value1"
  {
    KubeVirtFollowsHyperConverged(req, store, s);
  }

  /** The config map after `ensure`: in upgrade mode the updatable keys take the
      generated values, the migrations key is gone and the network-interface
      key is kept; outside upgrade mode the data is untouched exactly when its
      managed gates already agree with the resource. */
  lemma ConfigMapRestrictedUpdate(req: Request, store: Store, s: Settings)
    requires ValidSettings(s)
    requires DesiredKey(ConfigMapKind, req.instance) in store
    requires store[DesiredKey(ConfigMapKind, req.instance)].body.ConfigMapBody?
    requires forall k :: k in KvConfig.UpdatableKeys ==> k in s.cmDefaults
    ensures var r := Ensure(NewHandler(ConfigMapKind), req, store, s);
            var key := DesiredKey(ConfigMapKind, req.instance);
            var before := store[key].body.data;
            var after := r.store[key].body.data;
            var desired := KvConfig.DesiredData(s.cmDefaults, s.cmBaseGates, s.managedGates, req.instance.featureGates);
            && r.result.err.None? && !r.result.created
            && r.store[key].body.ConfigMapBody?
            && (req.upgradeMode ==>
                  && (forall k :: k in KvConfig.UpdatableKeys ==> k in after && after[k] == desired[k])
                  && KvConfig.MigrationsConfigKey !in after
                  && (KvConfig.NetworkInterfaceKey in after <==> KvConfig.NetworkInterfaceKey in before)
                  && (KvConfig.NetworkInterfaceKey in before ==> after[KvConfig.NetworkInterfaceKey] == before[KvConfig.NetworkInterfaceKey]))
            && (!req.upgradeMode ==>
                  ((after == before && !r.result.updated) <==> ManagedAgree(KvConfig.GatesOf(before), s.managedGates, req.instance.featureGates)))
  {
    var key := DesiredKey(ConfigMapKind, req.instance);
    var desired := KvConfig.DesiredData(s.cmDefaults, s.cmBaseGates, s.managedGates, req.instance.featureGates);
    var before := store[key].body.data;
    var u := KvConfig.UpdateConfigMap(before, desired, s.managedGates, req.instance.featureGates, req.upgradeMode);
    var r := Ensure(NewHandler(ConfigMapKind), req, store, s);
    assert r.store[key] == store[key].(body := ConfigMapBody(u.data));
    if req.upgradeMode {
      KvConfig.UpgradeUpdatesOnlyAllowedKeys(before, desired, s.managedGates, req.instance.featureGates);
    } else {
      KvConfig.NoUpgradeLeavesDataAlone(before, desired, s.managedGates, req.instance.featureGates);
    }
  }

  /** The gate list of the config map after `ensure`: outside upgrade mode a
      managed gate is on it exactly when the resource enables it; in upgrade
      mode the list is the base list followed by the enabled managed gates,
      user gates dropped. */
  lemma ConfigMapGatesFollowHyperConverged(req: Request, store: Store, s: Settings)
    requires ValidSettings(s)
    requires DesiredKey(ConfigMapKind, req.instance) in store
    requires store[DesiredKey(ConfigMapKind, req.instance)].body.ConfigMapBody?
    ensures var r := Ensure(NewHandler(ConfigMapKind), req, store, s);
            var gates := KvConfig.GatesOf(r.store[DesiredKey(ConfigMapKind, req.instance)].body.data);
            && r.store[DesiredKey(ConfigMapKind, req.instance)].body.ConfigMapBody?
            && (forall g :: g in s.managedGates ==> (g in gates <==> Enabled(req.instance.featureGates, g)))
            && (req.upgradeMode ==> gates == DesiredConfigMapGates(s.cmBaseGates, s.managedGates, req.instance.featureGates))
  {
    var key := DesiredKey(ConfigMapKind, req.instance);
    var declared := req.instance.featureGates;
    var desired := KvConfig.DesiredData(s.cmDefaults, s.cmBaseGates, s.managedGates, declared);
    var before := store[key].body.data;
    var u := KvConfig.UpdateConfigMap(before, desired, s.managedGates, declared, req.upgradeMode);
    var r := Ensure(NewHandler(ConfigMapKind), req, store, s);
    assert r.store[key] == store[key].(body := ConfigMapBody(u.data));
    if req.upgradeMode {
      DesiredGatesWellFormed(s, declared);
      ParseJoin(DesiredConfigMapGates(s.cmBaseGates, s.managedGates, declared));
      assert u.data[KvConfig.FeatureGatesKey] == desired[KvConfig.FeatureGatesKey];
    } else {
      var current := KvConfig.GatesOf(before);
      if Merge(current, s.managedGates, declared) != current {
        KvConfig.MergedStoresBack(before, s.managedGates, declared);
      } else {
        MergeNoopIff(current, s.managedGates, declared);
      }
    }
  }

  lemma DesiredGatesWellFormed(s: Settings, declared: map<Gate, bool>)
    requires ValidSettings(s)
    ensures AllWellFormed(DesiredConfigMapGates(s.cmBaseGates, s.managedGates, declared))
  {
    var gates := DesiredConfigMapGates(s.cmBaseGates, s.managedGates, declared);
    forall i | 0 <= i < |gates| ensures WellFormed(gates[i]) {
      if i >= |s.cmBaseGates| {
        assert gates[i] in s.managedGates;
        var j :| 0 <= j < |s.managedGates| && s.managedGates[j] == gates[i];
      }
    }
  }

  /** A patch annotation with an unknown operation fails `ensure` on the
      KubeVirt resource: the error is reported, nothing is created or
      modified, and the related objects are untouched. */
  lemma BadPatchChangesNothing(req: Request, store: Store, s: Settings, i: nat)
    requires i < |req.instance.kvPatch| && !Supported(req.instance.kvPatch[i])
    ensures var r := Ensure(NewHandler(KubeVirtKind), req, store, s);
            && r.result.err.Some?
            && !r.result.created && !r.result.updated
            && r.store == store
            && r.instance == req.instance
            && r.handler.cache.None?
  {
    UnknownVerbFails(BaseKvSpec(req.instance, s), req.instance.kvPatch, s.applyOp, i);
  }

  /** A patch annotation that applies cleanly shapes the KubeVirt resource:
      created with the patched specification when absent, reconciled to it
      when present (updated exactly when the stored one differed). */
  lemma PatchedSpecIsDeployed(req: Request, store: Store, s: Settings)
    requires ApplyPatch(BaseKvSpec(req.instance, s), req.instance.kvPatch, s.applyOp).Ok?
    ensures var r := Ensure(NewHandler(KubeVirtKind), req, store, s);
            var key := DesiredKey(KubeVirtKind, req.instance);
            var patched := ApplyPatch(BaseKvSpec(req.instance, s), req.instance.kvPatch, s.applyOp).value;
            && r.result.err.None?
            && (r.result.created <==> key !in store)
            && key in r.store && r.store[key].body == KubeVirtBody(patched)
            && (key in store ==> (r.result.updated <==> store[key].body != KubeVirtBody(patched)))
  {
    var key := DesiredKey(KubeVirtKind, req.instance);
    var patched := ApplyPatch(BaseKvSpec(req.instance, s), req.instance.kvPatch, s.applyOp).value;
    assert MakeDesired(KubeVirtKind, req.instance, s).value.body == KubeVirtBody(patched);
  }

  /** Reconciling twice: the second `ensure`, given what the first left
      behind, neither creates nor updates and leaves the store as it is. */
  lemma EnsureIsIdempotent(kind: Kind, req: Request, store: Store, s: Settings)
    requires ValidSettings(s)
    ensures var first := Ensure(NewHandler(kind), req, store, s);
            var second := Ensure(first.handler, req.(instance := first.instance), first.store, s);
            first.result.err.None? ==>
              && second.result.err.None?
              && !second.result.created && !second.result.updated
              && second.store == first.store
  {
    var h := NewHandler(kind);
    var first := Ensure(h, req, store, s);
    if first.result.err.None? {
      var read := GetFullCr(h, req.instance, s);
      var d := read.result.value.operand;
      var req2 := req.(instance := first.instance);
      assert GetFullCr(first.handler, req2.instance, s).result == read.result;
      var stored := first.store[d.key];
      var u2 := UpdateBody(stored.body, d.body, req2, s);
      if stored.body.ConfigMapBody? && d.body.ConfigMapBody? {
        assert kind == ConfigMapKind;
        var desired := KvConfig.DesiredData(s.cmDefaults, s.cmBaseGates, s.managedGates, req.instance.featureGates);
        assert d.body.data == desired;
        if d.key !in store || !store[d.key].body.ConfigMapBody? {
          assert stored.body.data == desired;
          KvConfig.DesiredDataIsStable(s.cmDefaults, s.cmBaseGates, s.managedGates, req.instance.featureGates, req.upgradeMode);
        } else {
          KvConfig.UpdateConfigMapIdempotent(store[d.key].body.data, desired, s.managedGates,
                                             req.instance.featureGates, req.upgradeMode);
        }
      }
    }
  }
}
