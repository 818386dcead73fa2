/** Validation of the Path Item Object of Swagger 2.0: each operation at `path.method`, then the shared parameters. */
module V2PathItem {
  import opened Strings
  import opened SortedMap
  import opened Helpers
  import opened Locality
  import opened V2Types
  import opened V2Operation

  /** The operations from the `i`-th on, in method order. */
  function ValidateOperations(spec: Spec, ops: Entries<Operation>, i: nat, c: Context, path: string, fuel: nat): (r: Context)
    requires i <= |ops|
    ensures Extends(c, r) && Localized(c, r, path)
    decreases |ops| - i
  {
    if i == |ops| then c
    else
      var c1 := ValidateOperation(spec, ops[i].1, c, path + ("." + ops[i].0), fuel);
      Narrow(c, c1, path, "." + ops[i].0);
      var r := ValidateOperations(spec, ops, i + 1, c1, path, fuel);
      Chain(c, c1, r, path);
      r
  }

  /** `PathItem::validate_with_context`; the operationId of every operation counts as seen. */
  function ValidatePathItem(spec: Spec, item: PathItem, c: Context, path: string, fuel: nat): (r: Context)
    ensures Extends(c, r) && Localized(c, r, path)
    ensures forall k :: 0 <= k < |item.operations| && item.operations[k].1.operationId.Some? ==>
      OperationKey(item.operations[k].1.operationId.value) in r.visited
  {
    var c1 := ValidateOperations(spec, item.operations, 0, c, path, fuel);
    var r := ValidateParameters(spec, item.parameters, 0, c1, path, fuel);
    Chain(c, c1, r, path);
    forall k | 0 <= k < |item.operations| && item.operations[k].1.operationId.Some?
      ensures OperationKey(item.operations[k].1.operationId.value) in r.visited
    {
      OperationKept(spec, item.operations, 0, k, c, path, fuel);
    }
    r
  }

  /** The context the loop from operation `i` on, started at `c`, hands operation `k`. */
  ghost function OperationsUpTo(spec: Spec, ops: Entries<Operation>, i: nat, k: nat, c: Context, path: string, fuel: nat): (r: Context)
    requires i <= k < |ops|
    decreases k - i
  {
    if i == k then c
    else OperationsUpTo(spec, ops, i + 1, k, ValidateOperation(spec, ops[i].1, c, path + ("." + ops[i].0), fuel), path, fuel)
  }

  /** What operation `k` reports and marks visited in its turn, the loop from operation `i` on keeps. */
  lemma {:induction false} OperationKept(spec: Spec, ops: Entries<Operation>, i: nat, k: nat, c: Context, path: string, fuel: nat)
    requires i <= k < |ops|
    ensures Extends(c, OperationsUpTo(spec, ops, i, k, c, path, fuel))
    ensures var b := OperationsUpTo(spec, ops, i, k, c, path, fuel);
            var d := ValidateOperation(spec, ops[k].1, b, path + ("." + ops[k].0), fuel);
            var r := ValidateOperations(spec, ops, i, c, path, fuel);
            Extends(d, r) && forall m :: m in Added(b, d) ==> m in Added(c, r)
    decreases k - i
  {
    var b := OperationsUpTo(spec, ops, i, k, c, path, fuel);
    var d := ValidateOperation(spec, ops[k].1, b, path + ("." + ops[k].0), fuel);
    var r := ValidateOperations(spec, ops, i, c, path, fuel);
    var c1 := ValidateOperation(spec, ops[i].1, c, path + ("." + ops[i].0), fuel);
    if i < k {
      OperationKept(spec, ops, i + 1, k, c1, path, fuel);
      forall m | m in Added(b, d) ensures m in Added(c, r) { AddedLater(c, c1, r, m); }
    } else {
      forall m | m in Added(b, d) ensures m in Added(c, r) { AddedEarlier(c, d, r, m); }
    }
  }

  /** What an operation reports in its turn, its path item reports. */
  lemma OperationReportKept(spec: Spec, item: PathItem, c: Context, path: string, fuel: nat, k: nat, m: string)
    requires k < |item.operations|
    requires m in Added(OperationsUpTo(spec, item.operations, 0, k, c, path, fuel),
                        ValidateOperation(spec, item.operations[k].1, OperationsUpTo(spec, item.operations, 0, k, c, path, fuel),
                                          path + ("." + item.operations[k].0), fuel))
    ensures m in Added(c, ValidatePathItem(spec, item, c, path, fuel))
  {
    var all := ValidateOperations(spec, item.operations, 0, c, path, fuel);
    OperationKept(spec, item.operations, 0, k, c, path, fuel);
    AddedEarlier(c, all, ValidatePathItem(spec, item, c, path, fuel), m);
  }
}
