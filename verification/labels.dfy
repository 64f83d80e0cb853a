/** The labels the operator stamps on every object it deploys, and the
    ownership test the deletion state machine applies to them
    (pkg/util/util.go, `GetLabels` and `shouldDeleteResource`). */
module Labels {

  type LabelMap = map<string, string>

  // Label keys and fixed values. They are declared in a constants file that
  // is not part of this model; only their distinctness matters to the proofs.
  const AppLabel: string := "app"
  const AppLabelManagedBy: string := "app.kubernetes.io/managed-by"
  const AppLabelVersion: string := "app.kubernetes.io/version"
  const AppLabelPartOf: string := "app.kubernetes.io/part-of"
  const AppLabelComponent: string := "app.kubernetes.io/component"
  const OperatorName: string := "kubevirt-hyperconverged-operator"
  const HyperConvergedCluster: string := "hyperconverged-cluster"

  /** The labels of an object deployed for the HyperConverged resource `hcName`.
      The operator version, read from the environment by the source, is a parameter here. */
  function GetLabels(hcName: string, component: string, version: string): (labels: LabelMap)
    ensures |labels| == 5
    ensures AppLabel in labels && labels[AppLabel] == hcName
    ensures AppLabelManagedBy in labels && labels[AppLabelManagedBy] == OperatorName
    ensures AppLabelComponent in labels && labels[AppLabelComponent] == component
    ensures AppLabelVersion in labels && labels[AppLabelVersion] == version
    ensures AppLabelPartOf in labels && labels[AppLabelPartOf] == HyperConvergedCluster
  {
    var labels := map[
      AppLabel := hcName,
      AppLabelManagedBy := OperatorName,
      AppLabelVersion := version,
      AppLabelPartOf := HyperConvergedCluster,
      AppLabelComponent := component];
    assert labels.Keys == {AppLabel, AppLabelManagedBy, AppLabelVersion, AppLabelPartOf, AppLabelComponent};
    labels
  }

  /** An object may be removed on behalf of `hcoName` only when its `app`
      label exists and names that HyperConverged resource. */
  predicate ShouldDeleteResource(labels: LabelMap, hcoName: string)
  {
    AppLabel in labels && labels[AppLabel] == hcoName
  }

  /** What the operator creates, the same owner may delete, and no other owner may. */
  lemma OwnLabelsAuthoriseDeletion(hcName: string, component: string, version: string, hcoName: string)
    ensures ShouldDeleteResource(GetLabels(hcName, component, version), hcoName) <==> hcName == hcoName
  {
  }
}
