/**
 * The Operation, Path Item and Callback Objects of OpenAPI 3.0, which
 * contain one another: an operation holds callbacks, a callback maps
 * expressions to path items, and a path item holds operations. A callback
 * given by reference is descended into with one step of fuel less; with
 * none left, the context is cut instead.
 *
 * The operationId is not looked at here: the document registers every
 * operationId before it validates the paths. A missing tag is reported, as
 * in the source, at `path.tags[i].tags[i]` (see `MissingTagDoubled`).
 */
module V30Operation {
  import opened Wrappers
  import opened Strings
  import opened SortedMap
  import opened Validation
  import opened Helpers
  import opened Rules
  import opened Locality
  import opened Reference
  import opened RefValidation
  import opened Each
  import opened V30Types
  import opened V30Resolve
  import opened V30Server
  import opened V30Schema
  import opened V30Content
  import opened V30Security
  import V2Operation
  import V2ExternalDocs

  /** The document's tag a tag name refers to. */
  function SpecTag(spec: Spec, tag: string): Option<Tag>
  {
    TagDefinition(spec, V2Operation.TagKeyPrefix + tag)
  }

  /**
   * The message for an undeclared tag. As written, the source formats the
   * `.tags[i]` suffix onto a path that already carries it; the intended
   * message is the one Swagger 2.0 reports, at `path.tags[i]`.
   */
  function MissingTag(tag: string, path: string, i: nat, asWritten: bool): (m: string)
    ensures StartsWith(m, V2Operation.TagPath(path, i))
  {
    var at := V2Operation.TagPath(path, i);
    V2Operation.MissingTagAt(tag, at);
    if asWritten then
      V2Operation.MissingTagAt(tag, V2Operation.TagPath(at, i));
      StartsWithShorter(V2Operation.MissingTagMessage(tag, V2Operation.TagPath(at, i)), at, ".tags[" + NatToString(i) + "]");
      V2Operation.MissingTagMessage(tag, V2Operation.TagPath(at, i))
    else V2Operation.MissingTagMessage(tag, at)
  }

  /** The tags from the `i`-th on, each at `path.tags[i]`. */
  function TagsPass(spec: Spec, tags: seq<string>, i: nat, c: Context, path: string, asWritten: bool): (r: Context)
    requires i <= |tags|
    ensures Extends(c, r) && Localized(c, r, path)
    ensures forall k :: i <= k < |tags| && tags[k] != "" && SpecTag(spec, tags[k]).Some? ==>
      V2Operation.TagKeyPrefix + tags[k] in r.visited
    decreases |tags| - i
  {
    if i == |tags| then c
    else
      var at := V2Operation.TagPath(path, i);
      var c1 := V2Operation.UseTag(SpecTag(spec, tags[i]), tags[i], c, at, MissingTag(tags[i], path, i, asWritten));
      Narrow(c, c1, path, ".tags[" + NatToString(i) + "]");
      var r := TagsPass(spec, tags, i + 1, c1, path, asWritten);
      Chain(c, c1, r, path);
      r
  }

  /** The tags of an operation, as the source reports them. */
  function ValidateTags(spec: Spec, tags: seq<string>, c: Context, path: string): (r: Context)
    ensures Extends(c, r) && Localized(c, r, path)
    ensures forall k :: 0 <= k < |tags| && tags[k] != "" && SpecTag(spec, tags[k]).Some? ==>
      V2Operation.TagKeyPrefix + tags[k] in r.visited
  {
    TagsPass(spec, tags, 0, c, path, true)
  }

  /** The tags of an operation, with undeclared tags reported at their own path. */
  function ValidateTagsIntended(spec: Spec, tags: seq<string>, c: Context, path: string): (r: Context)
    ensures Extends(c, r) && Localized(c, r, path)
  {
    TagsPass(spec, tags, 0, c, path, false)
  }

  /** Every undeclared, non-empty tag is reported while the rule is on, with the pass's message. */
  lemma {:induction false} MissingTagReported(spec: Spec, tags: seq<string>, i: nat, c: Context, path: string,
                                              asWritten: bool, k: nat)
    requires i <= k < |tags| && tags[k] != "" && SpecTag(spec, tags[k]).None?
    requires RuleActive(c.options, IgnoreMissingTags)
    ensures MissingTag(tags[k], path, k, asWritten) in Added(c, TagsPass(spec, tags, i, c, path, asWritten))
    decreases |tags| - i
  {
    var at := V2Operation.TagPath(path, i);
    var c1 := V2Operation.UseTag(SpecTag(spec, tags[i]), tags[i], c, at, MissingTag(tags[i], path, i, asWritten));
    var r := TagsPass(spec, tags, i + 1, c1, path, asWritten);
    if k == i {
      assert c1.errors == c.errors + [MissingTag(tags[k], path, k, asWritten)];
      AddedFirst(c, c1, r, MissingTag(tags[k], path, k, asWritten));
    } else {
      MissingTagReported(spec, tags, i + 1, c1, path, asWritten, k);
      AddedLater(c, c1, r, MissingTag(tags[k], path, k, asWritten));
    }
  }

  /**
   * As the source runs it, an undeclared tag is reported at
   * `path.tags[i].tags[i]`, a path that names no field of the document.
   */
  lemma MissingTagDoubled(spec: Spec, tags: seq<string>, c: Context, path: string, k: nat)
    requires k < |tags| && tags[k] != "" && SpecTag(spec, tags[k]).None?
    requires RuleActive(c.options, IgnoreMissingTags)
    ensures V2Operation.MissingTagMessage(tags[k], V2Operation.TagPath(V2Operation.TagPath(path, k), k))
            in Added(c, ValidateTags(spec, tags, c, path))
    ensures MissingTag(tags[k], path, k, true) != V2Operation.MissingTagMessage(tags[k], V2Operation.TagPath(path, k))
  {
    MissingTagReported(spec, tags, 0, c, path, true, k);
    var at := V2Operation.TagPath(path, k);
    var suffix := ".tags[" + NatToString(k) + "]";
    assert V2Operation.TagPath(at, k) == at + suffix;
    assert |MissingTag(tags[k], path, k, true)| == |V2Operation.MissingTagMessage(tags[k], at)| + |suffix|;
  }

  /** With the intended message, an undeclared tag is reported at its own path `path.tags[i]`. */
  lemma MissingTagAtOwnPath(spec: Spec, tags: seq<string>, c: Context, path: string, k: nat)
    requires k < |tags| && tags[k] != "" && SpecTag(spec, tags[k]).None?
    requires RuleActive(c.options, IgnoreMissingTags)
    ensures V2Operation.MissingTagMessage(tags[k], V2Operation.TagPath(path, k)) in Added(c, ValidateTagsIntended(spec, tags, c, path))
  {
    MissingTagReported(spec, tags, 0, c, path, false, k);
  }

  /** The operation's own fields before its callbacks: tags, parameters, request body, servers. */
  function ValidateOperationHead(spec: Spec, op: Operation, c: Context, path: string, fuel: nat): (r: Context)
    ensures Extends(c, r) && Localized(c, r, path)
    ensures forall k :: 0 <= k < |op.tags| && op.tags[k] != "" && SpecTag(spec, op.tags[k]).Some? ==>
      V2Operation.TagKeyPrefix + op.tags[k] in r.visited
  {
    var c1 := ValidateTags(spec, op.tags, c, path);
    var c2 := EachItem(op.parameters, 0, c1, path, "parameters",
                       (x: RefOr<Parameter>, c0: Context, at: string) => ValidateParameterRef(spec, x, c0, at));
    var c3 := if op.requestBody.Some? then ValidateRequestBodyRef(spec, op.requestBody.value, c2, path + ".requestBody", fuel) else c2;
    assert Localized(c2, c3, path) by {
      if op.requestBody.Some? { Narrow(c2, c3, path, ".requestBody"); } else { Unchanged(c2, c3, path); }
    }
    var r := EachItem(op.servers, 0, c3, path, "servers", (s: Server, c0: Context, at: string) => ValidateServer(s, c0, at));
    Chain(c, c1, c2, path);
    Chain(c, c2, c3, path);
    Chain(c, c3, r, path);
    r
  }

  /** The operation's fields after its callbacks: responses, external docs, security. */
  function ValidateOperationTail(spec: Spec, op: Operation, c: Context, path: string, fuel: nat): (r: Context)
    ensures Extends(c, r) && Localized(c, r, path)
  {
    var c1 := ValidateResponses(spec, op.responses, c, path + ".responses", fuel);
    Narrow(c, c1, path, ".responses");
    var c2 := if op.externalDocs.Some? then V2ExternalDocs.ValidateExternalDocs(op.externalDocs.value, c1, path + ".externalDocs") else c1;
    assert Localized(c1, c2, path) by {
      if op.externalDocs.Some? {
        var e := V2ExternalDocs.ExternalDocsErrors(op.externalDocs.value, c1.options, path + ".externalDocs");
        Appended(c1, c2, e, path + ".externalDocs");
        Narrow(c1, c2, path, ".externalDocs");
      } else {
        Unchanged(c1, c2, path);
      }
    }
    var r := ValidateSecurity(spec, op.security, c2, path);
    Chain(c, c1, c2, path);
    Chain(c, c2, r, path);
    r
  }

  /** `Operation::validate_with_context`. */
  function ValidateOperation(spec: Spec, op: Operation, c: Context, path: string, fuel: nat): (r: Context)
    ensures Extends(c, r) && Localized(c, r, path)
    ensures forall k :: 0 <= k < |op.tags| && op.tags[k] != "" && SpecTag(spec, op.tags[k]).Some? ==>
      V2Operation.TagKeyPrefix + op.tags[k] in r.visited
    decreases fuel, op, 2
  {
    var c1 := ValidateOperationHead(spec, op, c, path, fuel);
    var c2 := ValidateCallbacks(spec, op, 0, c1, path, fuel);
    var r := ValidateOperationTail(spec, op, c2, path, fuel);
    Chain(c, c1, c2, path);
    Chain(c, c2, r, path);
    r
  }

  /** The callbacks from the `i`-th on, in key order, at `path.callbacks[name]`. */
  function ValidateCallbacks(spec: Spec, op: Operation, i: nat, c: Context, path: string, fuel: nat): (r: Context)
    requires i <= |op.callbacks|
    ensures Extends(c, r) && Localized(c, r, path)
    decreases fuel, op, 1, |op.callbacks| - i
  {
    if i == |op.callbacks| then c
    else
      var c1 := ValidateCallbackRef(spec, op.callbacks[i].1, c, EntryPath(path, "callbacks", op.callbacks[i].0), fuel);
      Narrow(c, c1, path, "." + "callbacks" + "[" + op.callbacks[i].0 + "]");
      var r := ValidateCallbacks(spec, op, i + 1, c1, path, fuel);
      Chain(c, c1, r, path);
      r
  }

  /** The `Ref` arm for callbacks up to the descent. */
  function CallbackStep(spec: Spec, reference: string, c: Context, path: string): (r: Step<Callback>)
    ensures Extends(c, r.ctx) && Localized(c, r.ctx, path)
    ensures r.ctx.visited == c.visited + {reference}
    ensures r.Descend? ==> StartsWith(reference, Internal)
    ensures reference != "" && reference in c.visited ==> r == Stop(c)
  {
    var resolved := CallbackItem(spec, Ref(reference));
    FollowRefLocalized(c, path, reference, resolved);
    RevisitIsSilent(c, path, reference, resolved);
    FollowRef(c, path, reference, resolved)
  }

  /** `RefOr<Callback>::validate_with_context`; a referenced callback is descended into with one step less. */
  function ValidateCallbackRef(spec: Spec, x: RefOr<Callback>, c: Context, path: string, fuel: nat): (r: Context)
    ensures Extends(c, r) && Localized(c, r, path)
    ensures x.Ref? ==> x.reference in r.visited
    ensures x.Ref? && x.reference != "" && x.reference in c.visited ==> r == c
    decreases fuel, x, 0
  {
    match x
    case Item(cb) => ValidateCallback(spec, cb, c, path, fuel)
    case Ref(reference) =>
      var step := CallbackStep(spec, reference, c, path);
      if step.Descend? && fuel > 0 then
        var r := ValidateCallback(spec, step.target, step.ctx, reference, fuel - 1);
        AtReference(step.ctx, r, reference, path);
        Chain(c, step.ctx, r, path);
        r
      else if step.Descend? then Cut(step.ctx) else step.ctx
  }

  function CallbackPath(path: string, expression: string): string
  {
    path + ("[" + expression + "]")
  }

  /** `Callback::validate_with_context`: each path item at `path[expression]`. */
  function ValidateCallback(spec: Spec, cb: Callback, c: Context, path: string, fuel: nat): (r: Context)
    ensures Extends(c, r) && Localized(c, r, path)
    decreases fuel, cb, 1
  {
    ValidateCallbackPaths(spec, cb, 0, c, path, fuel)
  }

  function ValidateCallbackPaths(spec: Spec, cb: Callback, i: nat, c: Context, path: string, fuel: nat): (r: Context)
    requires i <= |cb.paths|
    ensures Extends(c, r) && Localized(c, r, path)
    decreases fuel, cb, 0, |cb.paths| - i
  {
    if i == |cb.paths| then c
    else
      var c1 := ValidatePathItem(spec, cb.paths[i].1, c, CallbackPath(path, cb.paths[i].0), fuel);
      Narrow(c, c1, path, "[" + cb.paths[i].0 + "]");
      var r := ValidateCallbackPaths(spec, cb, i + 1, c1, path, fuel);
      Chain(c, c1, r, path);
      r
  }

  function MethodPath(path: string, verb: string): string
  {
    path + ("." + verb)
  }

  /** `PathItem::validate_with_context`: the operations at `path.method`, then servers and parameters. */
  function ValidatePathItem(spec: Spec, p: PathItem, c: Context, path: string, fuel: nat): (r: Context)
    ensures Extends(c, r) && Localized(c, r, path)
    decreases fuel, p, 1
  {
    var c1 := ValidateOperations(spec, p, 0, c, path, fuel);
    var c2 := EachItem(p.servers, 0, c1, path, "servers", (s: Server, c0: Context, at: string) => ValidateServer(s, c0, at));
    var r := EachItem(p.parameters, 0, c2, path, "parameters",
                      (x: RefOr<Parameter>, c0: Context, at: string) => ValidateParameterRef(spec, x, c0, at));
    Chain(c, c1, c2, path);
    Chain(c, c2, r, path);
    r
  }

  function ValidateOperations(spec: Spec, p: PathItem, i: nat, c: Context, path: string, fuel: nat): (r: Context)
    requires i <= |p.operations|
    ensures Extends(c, r) && Localized(c, r, path)
    decreases fuel, p, 0, |p.operations| - i
  {
    if i == |p.operations| then c
    else
      var c1 := ValidateOperation(spec, p.operations[i].1, c, MethodPath(path, p.operations[i].0), fuel);
      Narrow(c, c1, path, "." + p.operations[i].0);
      var r := ValidateOperations(spec, p, i + 1, c1, path, fuel);
      Chain(c, c1, r, path);
      r
  }

  /** The context the loop from operation `i` on, started at `c`, hands operation `k`. */
  ghost function OperationsUpTo(spec: Spec, p: PathItem, i: nat, k: nat, c: Context, path: string, fuel: nat): (r: Context)
    requires i <= k < |p.operations|
    decreases k - i
  {
    if i == k then c
    else OperationsUpTo(spec, p, i + 1, k, ValidateOperation(spec, p.operations[i].1, c, MethodPath(path, p.operations[i].0), fuel), path, fuel)
  }

  /** What operation `k` reports and marks visited in its turn, the loop from operation `i` on keeps. */
  lemma {:induction false} OperationKept(spec: Spec, p: PathItem, i: nat, k: nat, c: Context, path: string, fuel: nat)
    requires i <= k < |p.operations|
    ensures Extends(c, OperationsUpTo(spec, p, i, k, c, path, fuel))
    ensures var b := OperationsUpTo(spec, p, i, k, c, path, fuel);
            var d := ValidateOperation(spec, p.operations[k].1, b, MethodPath(path, p.operations[k].0), fuel);
            var r := ValidateOperations(spec, p, i, c, path, fuel);
            Extends(d, r) && forall m :: m in Added(b, d) ==> m in Added(c, r)
    decreases k - i
  {
    var b := OperationsUpTo(spec, p, i, k, c, path, fuel);
    var d := ValidateOperation(spec, p.operations[k].1, b, MethodPath(path, p.operations[k].0), fuel);
    var r := ValidateOperations(spec, p, i, c, path, fuel);
    var c1 := ValidateOperation(spec, p.operations[i].1, c, MethodPath(path, p.operations[i].0), fuel);
    if i < k {
      OperationKept(spec, p, i + 1, k, c1, path, fuel);
      forall m | m in Added(b, d) ensures m in Added(c, r) { AddedLater(c, c1, r, m); }
    } else {
      forall m | m in Added(b, d) ensures m in Added(c, r) { AddedEarlier(c, d, r, m); }
    }
  }

  /** What an operation reports in its turn, its path item reports. */
  lemma OperationReportKept(spec: Spec, p: PathItem, c: Context, path: string, fuel: nat, k: nat, m: string)
    requires k < |p.operations|
    requires m in Added(OperationsUpTo(spec, p, 0, k, c, path, fuel),
                        ValidateOperation(spec, p.operations[k].1, OperationsUpTo(spec, p, 0, k, c, path, fuel),
                                          MethodPath(path, p.operations[k].0), fuel))
    ensures m in Added(c, ValidatePathItem(spec, p, c, path, fuel))
  {
    OperationKept(spec, p, 0, k, c, path, fuel);
    AddedEarlier(c, ValidateOperations(spec, p, 0, c, path, fuel), ValidatePathItem(spec, p, c, path, fuel), m);
  }

  /** Every tag an operation of the path item names, and the document declares, counts as used. */
  lemma OperationTagsUsed(spec: Spec, p: PathItem, c: Context, path: string, fuel: nat, k: nat, j: nat)
    requires k < |p.operations| && j < |p.operations[k].1.tags|
    requires p.operations[k].1.tags[j] != "" && SpecTag(spec, p.operations[k].1.tags[j]).Some?
    ensures V2Operation.TagKeyPrefix + p.operations[k].1.tags[j] in ValidatePathItem(spec, p, c, path, fuel).visited
  {
    OperationKept(spec, p, 0, k, c, path, fuel);
  }

  /** A callback given by reference is traversed once: a second use of the same reference reports nothing. */
  lemma CallbackOnce(spec: Spec, reference: string, c: Context, path: string, again: string, fuel: nat)
    requires reference != ""
    ensures ValidateCallbackRef(spec, Ref(reference), ValidateCallbackRef(spec, Ref(reference), c, path, fuel), again, fuel)
         == ValidateCallbackRef(spec, Ref(reference), c, path, fuel)
  {
  }
}
