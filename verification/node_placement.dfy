/** Node placement of the infra and workloads components: the shape the
    HyperConverged resource declares and the KubeVirt resource mirrors.
    Equality of placements is Dafny's structural equality: selector maps are
    compared irrespective of order, toleration lists as exact sequences
    including the optional toleration seconds. */
module NodePlacement {
  import opened Optional

  datatype Requirement = Requirement(key: string, operator: string, values: seq<string>)

  datatype SelectorTerm = SelectorTerm(matchExpressions: seq<Requirement>, matchFields: seq<Requirement>)

  /** Required node affinity: a list of node selector terms. */
  datatype Affinity = Affinity(requiredTerms: seq<SelectorTerm>)

  /** A toleration; `seconds` is Go's optional int64 TolerationSeconds (its width is not modelled). */
  datatype Toleration = Toleration(key: string, operator: string, value: string, effect: string, seconds: Option<int>)

  datatype Placement = Placement(nodeSelector: map<string, string>, affinity: Option<Affinity>, tolerations: seq<Toleration>)

  /** The test fixtures' NewNodePlacement: selector key1/key2, one affinity term, two tolerations. */
  function NewNodePlacement(): Placement
  {
    var reqs := [Requirement("key1", "operator1", ["value11, value12"]),
                 Requirement("key2", "operator2", ["value21, value22"])];
    Placement(
      map["key1" := "value1", "key2" := "value2"],
      Some(Affinity([SelectorTerm(reqs, reqs)])),
      [Toleration("key1", "operator1", "value1", "effect1", Some(1)),
       Toleration("key2", "operator2", "value2", "effect2", Some(2))])
  }

  /** The test fixtures' NewOtherNodePlacement: the same shape over key3/key4. */
  function NewOtherNodePlacement(): Placement
  {
    var reqs := [Requirement("key3", "operator3", ["value31, value32"]),
                 Requirement("key4", "operator4", ["value41, value42"])];
    Placement(
      map["key3" := "value3", "key4" := "value4"],
      Some(Affinity([SelectorTerm(reqs, reqs)])),
      [Toleration("key3", "operator3", "value3", "effect3", Some(3)),
       Toleration("key4", "operator4", "value4", "effect4", Some(4))])
  }

  /** The two fixtures differ, so a switch from one to the other is a change. */
  lemma FixturesDiffer()
    ensures NewNodePlacement() != NewOtherNodePlacement()
  {
    assert NewNodePlacement().tolerations[0].key != NewOtherNodePlacement().tolerations[0].key;
  }
}
