/**
 * `Validate for Spec` of OpenAPI 3.1, from the registration of the
 * operationIds on: a pass that looks every path up and registers the
 * operationIds of its operations, then the paths (each key must start with
 * `/`), the webhooks (whose keys are not checked), the components, the rule
 * that a document uses at least one of paths, webhooks and components, the
 * external docs, and last the tags nothing used. The Info and Server
 * Objects of this dialect are not part of this model, so the info and
 * server steps that open the pass are not either.
 *
 * As in OpenAPI 3.0 the components are handed `{}.components`, so their
 * rules report outside `#`; `ValidateSpecIntended` uses `#.components`.
 */
module V31Spec {
  import opened Wrappers
  import opened Strings
  import opened SortedMap
  import opened Validation
  import opened Helpers
  import opened Locality
  import opened Reference
  import opened RefValidation
  import opened Unused
  import opened Each
  import opened V31Types
  import opened V31Resolve
  import opened V31Components
  import V30Spec
  import V30Content
  import V2ExternalDocs
  import V2Operation
  import V2Spec

  const ComponentsPathAsWritten := "{}.components"
  const ComponentsPath := "#.components"

  function PathEntries(spec: Spec): Entries<RefOr<PathItem>>
  {
    if spec.paths.Some? then spec.paths.value else []
  }

  /** The operationId pass from the `i`-th path on: look each path up, register its operations' ids. */
  function IdsPass(spec: Spec, paths: Entries<RefOr<PathItem>>, i: nat, c: Context): (r: Context)
    requires i <= |paths|
    ensures Extends(c, r) && Localized(c, r, "#")
    ensures i < |paths| ==> r == IdsPass(spec, paths, i + 1, RegisterPathItem(spec, paths[i].0, paths[i].1, c))
    decreases |paths| - i
  {
    if i == |paths| then c
    else
      var c1 := RegisterPathItem(spec, paths[i].0, paths[i].1, c);
      var r := IdsPass(spec, paths, i + 1, c1);
      Chain(c, c1, r, "#");
      r
  }

  /** Every operationId of a path that resolves is registered by the pass. */
  lemma {:induction false} PathIdsRegistered(spec: Spec, paths: Entries<RefOr<PathItem>>, i: nat, c: Context, k: nat,
                                             u: V30Spec.IdUse)
    requires i <= k < |paths| && PathItemItem(spec, paths[k].1).Resolved?
    requires u in ItemIds(paths[k].0, PathItemItem(spec, paths[k].1).item.operations)
    ensures OperationKey(u.id) in IdsPass(spec, paths, i, c).visited
    decreases |paths| - i
  {
    var c1 := RegisterPathItem(spec, paths[i].0, paths[i].1, c);
    if k == i {
      var uses := ItemIds(paths[k].0, PathItemItem(spec, paths[k].1).item.operations);
      var j :| 0 <= j < |uses| && uses[j] == u;
      assert OperationKey(u.id) in c1.visited;
    } else {
      PathIdsRegistered(spec, paths, i + 1, c1, k, u);
    }
  }

  /** A path that does not resolve is reported at `#` by the pass. */
  lemma {:induction false} UnresolvedPathReported(spec: Spec, paths: Entries<RefOr<PathItem>>, i: nat, c: Context, k: nat)
    requires i <= k < |paths| && PathItemItem(spec, paths[k].1).Failed?
    ensures LookupMessage(paths[k].0, PathItemItem(spec, paths[k].1).error) in Added(c, IdsPass(spec, paths, i, c))
    decreases |paths| - i
  {
    var c1 := RegisterPathItem(spec, paths[i].0, paths[i].1, c);
    var r := IdsPass(spec, paths, i + 1, c1);
    if k == i {
      AddedFirst(c, c1, r, LookupMessage(paths[k].0, PathItemItem(spec, paths[k].1).error));
    } else {
      UnresolvedPathReported(spec, paths, i + 1, c1, k);
      AddedLater(c, c1, r, LookupMessage(paths[k].0, PathItemItem(spec, paths[k].1).error));
    }
  }

  /** One path: the key rule, then the item (or its reference) at `#.paths[name]`. */
  function ValidatePath(spec: Spec, name: string, x: RefOr<PathItem>, c: Context): (r: Context)
    ensures Extends(c, r) && Localized(c, r, "#")
    ensures !StartsWith(name, "/") ==> |r.errors| > |c.errors| && r.errors[|c.errors|] == V2Spec.PathKeyMessage(name)
    ensures StartsWith(name, "/") ==> r == ValidatePathItemRef(spec, x, c, V2Spec.PathKey(name))
  {
    var c1 := V2Spec.CheckPathKey(name, c);
    var r := ValidatePathItemRef(spec, x, c1, V2Spec.PathKey(name));
    BothBelow(c, c1, r, "#", ".paths[" + name + "]");
    if StartsWith(name, "/") then r
    else
      FirstKept(c, c1, r);
      r
  }

  /** The paths from the `i`-th on, in key order. */
  function PathsPass(spec: Spec, paths: Entries<RefOr<PathItem>>, i: nat, c: Context): (r: Context)
    requires i <= |paths|
    ensures Extends(c, r) && Localized(c, r, "#")
    decreases |paths| - i
  {
    if i == |paths| then c
    else
      var c1 := ValidatePath(spec, paths[i].0, paths[i].1, c);
      var r := PathsPass(spec, paths, i + 1, c1);
      Chain(c, c1, r, "#");
      r
  }

  /** Every path whose key does not start with `/` is reported. */
  lemma {:induction false} PathKeyInPass(spec: Spec, paths: Entries<RefOr<PathItem>>, i: nat, c: Context, k: nat)
    requires i <= k < |paths| && !StartsWith(paths[k].0, "/")
    ensures V2Spec.PathKeyMessage(paths[k].0) in Added(c, PathsPass(spec, paths, i, c))
    decreases |paths| - i
  {
    var c1 := ValidatePath(spec, paths[i].0, paths[i].1, c);
    var r := PathsPass(spec, paths, i + 1, c1);
    if k == i {
      AddedFirst(c, c1, r, V2Spec.PathKeyMessage(paths[k].0));
    } else {
      PathKeyInPass(spec, paths, i + 1, c1, k);
      AddedLater(c, c1, r, V2Spec.PathKeyMessage(paths[k].0));
    }
  }

  /** The webhooks at `#.webhooks[name]`; their keys are not checked. */
  function WebhooksPass(spec: Spec, c: Context): (r: Context)
    ensures Extends(c, r) && Localized(c, r, "#")
    ensures spec.webhooks.None? ==> r == c
  {
    if spec.webhooks.Some? then EachEntry(spec.webhooks.value, 0, c, "#", "webhooks", PathItemRefs(spec))
    else c
  }

  /** Webhooks written in place report nothing, whatever their keys. */
  lemma {:induction false} InlineWebhooksSilent(spec: Spec, hooks: Entries<RefOr<PathItem>>, i: nat, c: Context)
    requires i <= |hooks| && forall k :: i <= k < |hooks| ==> hooks[k].1.Item?
    ensures EachEntry(hooks, i, c, "#", "webhooks", PathItemRefs(spec)) == c
    decreases |hooks| - i
  {
    if i < |hooks| {
      var at := EntryPath("#", "webhooks", hooks[i].0);
      assert ValidatePathItemRef(spec, hooks[i].1, c, at) == c;
      assert PathItemRefs(spec)(hooks[i].1, c, at) == c;
      InlineWebhooksSilent(spec, hooks, i + 1, c);
    }
  }

  /** The operationIds, then the paths, then the webhooks. */
  function Traverse(spec: Spec, c: Context): (r: Context)
    ensures Extends(c, r) && Localized(c, r, "#")
    ensures r == WebhooksPass(spec, PathsPass(spec, PathEntries(spec), 0, IdsPass(spec, PathEntries(spec), 0, c)))
  {
    var c1 := IdsPass(spec, PathEntries(spec), 0, c);
    var c2 := PathsPass(spec, PathEntries(spec), 0, c1);
    var r := WebhooksPass(spec, c2);
    Chain(c, c1, c2, "#");
    Chain(c, c2, r, "#");
    r
  }

  /** The components at `at`, when the document has them. */
  function ComponentsStep(spec: Spec, c: Context, at: string, fuel: nat): (r: Context)
    ensures Extends(c, r)
    ensures StartsWith(at, "#") ==> Localized(c, r, "#")
    ensures spec.components.None? ==> r == c
  {
    if spec.components.Some? then ValidateComponents(spec, spec.components.value, c, at, fuel)
    else
      Unchanged(c, c, "#");
      c
  }

  const NothingUsed := "at least one of `paths`, `webhooks` or `components` must be used"

  function NothingUsedMessage(): string
  {
    Message("#", NothingUsed)
  }

  /** A document must hold paths, webhooks or components; an empty map counts as present. */
  function AtLeastOne(spec: Spec, c: Context): (r: Context)
    ensures Extends(c, r) && Localized(c, r, "#") && r.visited == c.visited
    ensures r.errors == c.errors + (if spec.paths.None? && spec.webhooks.None? && spec.components.None? then [NothingUsedMessage()] else [])
  {
    if spec.components.None? && spec.paths.None? && spec.webhooks.None? then
      Pushed(c, "#", NothingUsed);
      PushError(c, "#", NothingUsed)
    else
      Unchanged(c, c, "#");
      c
  }

  /** The external docs at `#.externalDocs`. */
  function DocsStep(spec: Spec, c: Context): (r: Context)
    ensures Extends(c, r) && Localized(c, r, "#") && r.visited == c.visited
  {
    if spec.externalDocs.Some? then
      var r := V2ExternalDocs.ValidateExternalDocs(spec.externalDocs.value, c, "#" + ".externalDocs");
      V2Spec.BelowRoot(c, r, V2ExternalDocs.ExternalDocsErrors(spec.externalDocs.value, c.options, "#" + ".externalDocs"), ".externalDocs");
      r
    else
      Unchanged(c, c, "#");
      c
  }

  function TagEntries(tags: seq<Tag>): (r: seq<(string, Tag)>)
    ensures |r| == |tags| && forall i :: 0 <= i < |tags| ==> r[i] == (tags[i].name, tags[i])
  {
    seq(|tags|, i requires 0 <= i < |tags| => (tags[i].name, tags[i]))
  }

  /** The Tag Object's own rules are not part of this model. */
  function TagValidator(): (D: (Tag, Context, string) -> Context)
    ensures WellBehaved(D) && Visitless(D)
  {
    (t: Tag, c: Context, p: string) => V30Content.NoChecks(t, c, p)
  }

  /** The declared tags nothing used, each under `#/tags/name`. */
  function TagsPass(spec: Spec, c: Context): (r: Context)
    ensures Extends(c, r) && Localized(c, r, "#")
  {
    StartsWithConcat("#", "/tags/");
    assert V2Operation.TagKeyPrefix == "#" + "/tags/";
    StartsWithConcat("#", "/");
    StartsWithChain(V2Operation.TagKeyPrefix, Internal, "#");
    var r := UnusedPass(TagEntries(spec.tags), 0, V2Operation.TagKeyPrefix, IgnoreUnusedTags, c, TagValidator());
    AtReference(c, r, Internal, "#");
    r
  }

  /** Everything after the components: the at-least-one rule, the external docs, the tags. */
  function Closing(spec: Spec, c: Context): (r: Context)
    ensures Extends(c, r) && Localized(c, r, "#")
    ensures r == TagsPass(spec, DocsStep(spec, AtLeastOne(spec, c)))
  {
    var c1 := AtLeastOne(spec, c);
    var c2 := DocsStep(spec, c1);
    var r := TagsPass(spec, c2);
    Chain(c, c1, c2, "#");
    Chain(c, c2, r, "#");
    r
  }

  /** The traversal, then the components at `at`. */
  function Opening(spec: Spec, c: Context, at: string, fuel: nat): (r: Context)
    ensures Extends(c, r)
    ensures StartsWith(at, "#") ==> Localized(c, r, "#")
    ensures r == ComponentsStep(spec, Traverse(spec, c), at, fuel)
  {
    var t := Traverse(spec, c);
    var r := ComponentsStep(spec, t, at, fuel);
    if StartsWith(at, "#") then
      Chain(c, t, r, "#");
      r
    else r
  }

  /** The whole pass, with the components at `at`. */
  function ValidateSpecAt(spec: Spec, c: Context, at: string, fuel: nat): (r: Context)
    ensures Extends(c, r)
    ensures StartsWith(at, "#") ==> Localized(c, r, "#")
    ensures r == Closing(spec, Opening(spec, c, at, fuel))
  {
    var c1 := Opening(spec, c, at, fuel);
    var r := Closing(spec, c1);
    if StartsWith(at, "#") then
      Chain(c, c1, r, "#");
      r
    else r
  }

  function ValidateSpecAsWritten(spec: Spec, c: Context, fuel: nat): (r: Context)
    ensures Extends(c, r)
  {
    ValidateSpecAt(spec, c, ComponentsPathAsWritten, fuel)
  }

  function ValidateSpecIntended(spec: Spec, c: Context, fuel: nat): (r: Context)
    ensures Extends(c, r) && Localized(c, r, "#")
  {
    StartsWithConcat("#", ".components");
    ValidateSpecAt(spec, c, ComponentsPath, fuel)
  }

  /** `Spec::validate`: no verdict when the traversal was cut, else Ok exactly when nothing was reported. */
  function Validate(spec: Spec, options: set<Options>, regex: map<string, string>, fuel: nat)
    : (r: Option<Result<(), Validation.Error>>)
    ensures r.None? <==> ValidateSpecAsWritten(spec, NewContext(options, regex), fuel).cut
    ensures r.Some? ==> (r.value.Ok? <==> ValidateSpecAsWritten(spec, NewContext(options, regex), fuel).errors == [])
    ensures r.Some? && r.value.Err? ==> r.value.error.errors == ValidateSpecAsWritten(spec, NewContext(options, regex), fuel).errors
  {
    var c := ValidateSpecAsWritten(spec, NewContext(options, regex), fuel);
    if c.cut then None else Some(IntoResult(c))
  }

  /** `Validate` with the components at `#.components`: every error it reports is rooted at `#`. */
  function ValidateIntended(spec: Spec, options: set<Options>, regex: map<string, string>, fuel: nat)
    : (r: Option<Result<(), Validation.Error>>)
    ensures r.None? <==> ValidateSpecIntended(spec, NewContext(options, regex), fuel).cut
    ensures r.Some? ==> (r.value.Ok? <==> ValidateSpecIntended(spec, NewContext(options, regex), fuel).errors == [])
    ensures r.Some? && r.value.Err? ==> forall i :: 0 <= i < |r.value.error.errors| ==> StartsWith(r.value.error.errors[i], "#")
  {
    var c := ValidateSpecIntended(spec, NewContext(options, regex), fuel);
    RootedErrors(NewContext(options, regex), c);
    if c.cut then None else Some(IntoResult(c))
  }

  /** What the closing steps report, the whole pass reports. */
  lemma ClosingKept(spec: Spec, c: Context, at: string, fuel: nat, m: string)
    requires m in Added(Opening(spec, c, at, fuel), Closing(spec, Opening(spec, c, at, fuel)))
    ensures m in Added(c, ValidateSpecAt(spec, c, at, fuel))
  {
    AddedLater(c, Opening(spec, c, at, fuel), ValidateSpecAt(spec, c, at, fuel), m);
  }

  /**
   * A document with none of paths, webhooks and components is reported at
   * `#`; one with any of them, even an empty one, is not reported by the rule.
   */
  lemma AtLeastOneRule(spec: Spec, c: Context, at: string, fuel: nat)
    ensures spec.paths.None? && spec.webhooks.None? && spec.components.None? ==>
      NothingUsedMessage() in Added(c, ValidateSpecAt(spec, c, at, fuel))
    ensures !(spec.paths.None? && spec.webhooks.None? && spec.components.None?) ==>
      forall d: Context :: AtLeastOne(spec, d) == d
  {
    if spec.paths.None? && spec.webhooks.None? && spec.components.None? {
      var c2 := Opening(spec, c, at, fuel);
      var c3 := AtLeastOne(spec, c2);
      var r := Closing(spec, c2);
      assert c3.errors[|c2.errors|] == NothingUsedMessage();
      AddedFirst(c2, c3, r, NothingUsedMessage());
      ClosingKept(spec, c, at, fuel, NothingUsedMessage());
    }
  }

  /** An empty document is invalid: the one thing it reports is that nothing is used. */
  lemma EmptyDocument(options: set<Options>, regex: map<string, string>, fuel: nat)
    ensures Validate(Spec(None, None, None, [], None), options, regex, fuel) == Some(Err(Validation.Error([NothingUsedMessage()])))
  {
    var spec := Spec(None, None, None, [], None);
    var c := NewContext(options, regex);
    assert PathEntries(spec) == [];
    assert WebhooksPass(spec, PathsPass(spec, [], 0, IdsPass(spec, [], 0, c))) == c;
    assert Opening(spec, c, ComponentsPathAsWritten, fuel) == c;
    var c1 := AtLeastOne(spec, c);
    assert c1.errors == [NothingUsedMessage()] && !c1.cut;
    assert DocsStep(spec, c1) == c1;
    assert TagEntries(spec.tags) == [];
    assert TagsPass(spec, c1) == c1;
    assert ValidateSpecAsWritten(spec, c, fuel) == c1;
  }

  /** What the traversal reported, the whole pass reports. */
  lemma TraversalKept(spec: Spec, c: Context, at: string, fuel: nat, m: string)
    requires m in Added(c, Traverse(spec, c))
    ensures m in Added(c, ValidateSpecAt(spec, c, at, fuel))
  {
    var t := Traverse(spec, c);
    var o := Opening(spec, c, at, fuel);
    AddedEarlier(c, t, o, m);
    AddedEarlier(c, o, ValidateSpecAt(spec, c, at, fuel), m);
  }

  /**
   * The second of two operations, across the document's paths, whose
   * operationId an earlier path already registered is reported as in use;
   * the registrations happen before any link is validated.
   */
  lemma TakenPathIdReported(spec: Spec, c: Context, at: string, fuel: nat, k: nat, j: nat)
    requires k < |PathEntries(spec)| && PathItemItem(spec, PathEntries(spec)[k].1).Resolved?
    requires j < |ItemIds(PathEntries(spec)[k].0, PathItemItem(spec, PathEntries(spec)[k].1).item.operations)|
    requires OperationKey(ItemIds(PathEntries(spec)[k].0, PathItemItem(spec, PathEntries(spec)[k].1).item.operations)[j].id)
             in IdsBefore(spec, PathEntries(spec), k, c).visited
    ensures V30Spec.DuplicateIdMessage(ItemIds(PathEntries(spec)[k].0, PathItemItem(spec, PathEntries(spec)[k].1).item.operations)[j])
            in Added(c, ValidateSpecAt(spec, c, at, fuel))
  {
    var paths := PathEntries(spec);
    var uses := ItemIds(paths[k].0, PathItemItem(spec, paths[k].1).item.operations);
    var m := V30Spec.DuplicateIdMessage(uses[j]);
    var b := IdsBefore(spec, paths, k, c);
    V30Spec.TakenIdReported(uses, 0, b, j);
    IdsSplit(spec, paths, k, c);
    var c1 := RegisterPathItem(spec, paths[k].0, paths[k].1, b);
    var ids := IdsPass(spec, paths, 0, c);
    AddedEarlier(b, c1, IdsPass(spec, paths, k + 1, c1), m);
    AddedLater(c, b, ids, m);
    var t := Traverse(spec, c);
    AddedEarlier(c, ids, t, m);
    TraversalKept(spec, c, at, fuel, m);
  }

  /** The context after the operationIds of the first `k` paths, ready for path `k`. */
  function IdsBefore(spec: Spec, paths: Entries<RefOr<PathItem>>, k: nat, c: Context): (r: Context)
    requires k <= |paths|
    ensures Extends(c, r)
    decreases k
  {
    if k == 0 then c
    else
      var b := IdsBefore(spec, paths, k - 1, c);
      RegisterPathItem(spec, paths[k - 1].0, paths[k - 1].1, b)
  }

  /** The pass over all paths is the pass from path `k` on, started where the first `k` left off. */
  lemma {:induction false} IdsSplit(spec: Spec, paths: Entries<RefOr<PathItem>>, k: nat, c: Context)
    requires k <= |paths|
    ensures IdsPass(spec, paths, 0, c) == IdsPass(spec, paths, k, IdsBefore(spec, paths, k, c))
    decreases k
  {
    if k > 0 {
      IdsSplit(spec, paths, k - 1, c);
      var b := IdsBefore(spec, paths, k - 1, c);
      assert IdsBefore(spec, paths, k, c) == RegisterPathItem(spec, paths[k - 1].0, paths[k - 1].1, b);
      assert IdsPass(spec, paths, k - 1, b) == IdsPass(spec, paths, k, IdsBefore(spec, paths, k, c));
    }
  }

  /**
   * A link whose operationId belongs to an operation of a path that
   * resolves finds it registered, wherever the link sits: the paths' ids
   * are registered before anything else is validated.
   */
  lemma LinkFindsPathOperation(spec: Spec, c: Context, k: nat, u: V30Spec.IdUse, d: Context, path: string)
    requires k < |PathEntries(spec)| && PathItemItem(spec, PathEntries(spec)[k].1).Resolved?
    requires u in ItemIds(PathEntries(spec)[k].0, PathItemItem(spec, PathEntries(spec)[k].1).item.operations)
    requires Extends(IdsPass(spec, PathEntries(spec), 0, c), d)
    ensures V31Content.ValidateLink(V31Types.Link(None, Some(u.id)), d, path) == d
  {
    PathIdsRegistered(spec, PathEntries(spec), 0, c, k, u);
  }

  lemma AsWrittenUnrooted()
    ensures |ComponentsPathAsWritten| > 0 && !StartsWith(ComponentsPathAsWritten, "#")
  {
    assert ComponentsPathAsWritten[0] == '{';
  }

  /** A badly named schema is reported under the components path. */
  lemma BadSchemaNameReported(spec: Spec, c: Context, at: string, fuel: nat, k: nat)
    requires spec.components.Some? && k < |spec.components.value.schemas|
    requires !PatternMatches(ComponentName, spec.components.value.schemas[k].0)
    ensures V30Components.NameMessage(at, "schemas", spec.components.value.schemas[k].0) in Added(c, ValidateSpecAt(spec, c, at, fuel))
  {
    var comp := spec.components.value;
    var m := V30Components.NameMessage(at, "schemas", comp.schemas[k].0);
    var t := Traverse(spec, c);
    var o := Opening(spec, c, at, fuel);
    BadSchemaNameInComponents(spec, comp, t, at, fuel, k);
    assert o == ValidateComponents(spec, comp, t, at, fuel);
    AddedEarlier(t, o, ValidateSpecAt(spec, c, at, fuel), m);
    AddedLater(c, t, ValidateSpecAt(spec, c, at, fuel), m);
  }

  /**
   * As written, a badly named schema is reported under `{}.components`, so
   * the document's errors are no longer all rooted at `#`; with the
   * components at `#.components` the same report is rooted.
   */
  lemma ComponentNameOutsideRoot(spec: Spec, c: Context, fuel: nat, k: nat)
    requires spec.components.Some? && k < |spec.components.value.schemas|
    requires !PatternMatches(ComponentName, spec.components.value.schemas[k].0)
    ensures exists m :: m in Added(c, ValidateSpecAsWritten(spec, c, fuel)) && !StartsWith(m, "#")
    ensures V30Components.NameMessage(ComponentsPath, "schemas", spec.components.value.schemas[k].0)
            in Added(c, ValidateSpecIntended(spec, c, fuel))
  {
    var m := V30Components.NameMessage(ComponentsPathAsWritten, "schemas", spec.components.value.schemas[k].0);
    BadSchemaNameReported(spec, c, ComponentsPathAsWritten, fuel, k);
    BadSchemaNameReported(spec, c, ComponentsPath, fuel, k);
    AsWrittenUnrooted();
    V30Components.NameMessageUnrooted(ComponentsPathAsWritten, "schemas", spec.components.value.schemas[k].0);
    assert m in Added(c, ValidateSpecAsWritten(spec, c, fuel)) && !StartsWith(m, "#");
  }

  /**
   * A declared tag that nothing visited before the tags pass, and that no
   * earlier tag shares a name with, is reported unused while the rule is on.
   */
  lemma UnusedTagReported(spec: Spec, c: Context, k: nat)
    requires k < |spec.tags| && RuleActive(c.options, IgnoreUnusedTags)
    requires V2Operation.TagKeyPrefix + spec.tags[k].name !in c.visited
    requires forall j :: 0 <= j < k ==> spec.tags[j].name != spec.tags[k].name
    ensures UnusedMessage(V2Operation.TagKeyPrefix + spec.tags[k].name) in Added(c, TagsPass(spec, c))
  {
    StartsWithConcat("#", "/tags/");
    assert V2Operation.TagKeyPrefix == "#" + "/tags/";
    StartsWithConcat("#", "/");
    StartsWithChain(V2Operation.TagKeyPrefix, Internal, "#");
    UnvisitedReported(TagEntries(spec.tags), 0, V2Operation.TagKeyPrefix, IgnoreUnusedTags, c, TagValidator(), k);
  }
}
