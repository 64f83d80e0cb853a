/** The patch annotation of the HyperConverged resource: an ordered list of
    JSON Patch operations (section 4 of RFC 6902) applied to the generated
    KubeVirt specification before it is compared with the live object.

    The interpreter itself belongs to a library outside this model: one
    supported operation is an `apply` function supplied by the caller, which
    may fail (bad path, type mismatch, failed test). What is modelled is the
    all-or-nothing outcome: an unsupported verb or a failing operation fails
    the whole patch, and no partially patched document escapes. */
module Overlay {
  import opened Optional

  datatype PatchOp = PatchOp(op: string, path: string, value: string)

  /** The six operations of section 4 of RFC 6902. */
  const SupportedOps: set<string> := {"add", "remove", "replace", "move", "copy", "test"}

  datatype PatchError = UnsupportedOp(op: string) | OpFailed(op: string, path: string)

  predicate Supported(p: PatchOp)
  {
    p.op in SupportedOps
  }

  /** Apply the operations in order; stop at the first failure. */
  function ApplyPatch<T(==)>(doc: T, ops: seq<PatchOp>, apply: (T, PatchOp) -> Option<T>): (r: Result<T, PatchError>)
    ensures ops == [] ==> r == Ok(doc)
    // a patch that succeeds uses supported verbs only
    ensures r.Ok? ==> forall i :: 0 <= i < |ops| ==> Supported(ops[i])
    // an unsupported verb is reported as the first failing operation
    ensures r.Err? && r.error.UnsupportedOp? ==>
              exists i :: 0 <= i < |ops| && !Supported(ops[i]) && ops[i].op == r.error.op
    ensures r.Err? && r.error.OpFailed? ==>
              exists i :: 0 <= i < |ops| && Supported(ops[i]) && ops[i].op == r.error.op && ops[i].path == r.error.path
    decreases |ops|
  {
    if ops == [] then Ok(doc)
    else if !Supported(ops[0]) then Err(UnsupportedOp(ops[0].op))
    else
      match apply(doc, ops[0])
      case None => Err(OpFailed(ops[0].op, ops[0].path))
      case Some(next) =>
        var rest := ApplyPatch(next, ops[1..], apply);
        assert forall i :: 0 <= i < |ops[1..]| ==> ops[1..][i] == ops[i + 1];
        rest
  }

  /** A single operation: an unknown verb is rejected, a failing step fails
      the patch, and a successful step yields its document. */
  lemma ApplyPatchSingle<T>(doc: T, op: PatchOp, apply: (T, PatchOp) -> Option<T>)
    ensures ApplyPatch(doc, [op], apply) ==
              if !Supported(op) then Err(UnsupportedOp(op.op))
              else if apply(doc, op).None? then Err(OpFailed(op.op, op.path))
              else Ok(apply(doc, op).value)
  {
    assert [op][1..] == [];
  }

  /** Applying `a + b` is applying `a`, then `b` to its result; a failure in
      `a` is the failure of the whole patch and `b` is never looked at. */
  lemma {:induction false} ApplyPatchCompose<T>(doc: T, a: seq<PatchOp>, b: seq<PatchOp>, apply: (T, PatchOp) -> Option<T>)
    ensures ApplyPatch(doc, a + b, apply) ==
              match ApplyPatch(doc, a, apply)
              case Ok(d) => ApplyPatch(d, b, apply)
              case Err(e) => Err(e)
    decreases |a|
  {
    if a == [] {
      assert a + b == b;
    } else {
      assert (a + b)[0] == a[0];
      assert (a + b)[1..] == a[1..] + b;
      if Supported(a[0]) && apply(doc, a[0]).Some? {
        ApplyPatchCompose(apply(doc, a[0]).value, a[1..], b, apply);
      }
    }
  }

  /** One operation with an unknown verb anywhere in the list fails the patch. */
  lemma UnknownVerbFails<T>(doc: T, ops: seq<PatchOp>, apply: (T, PatchOp) -> Option<T>, i: nat)
    requires i < |ops| && !Supported(ops[i])
    ensures ApplyPatch(doc, ops, apply).Err?
  {
  }
}
