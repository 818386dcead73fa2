/**
 * The Components Object of OpenAPI 3.1: the OpenAPI 3.0 kinds, in the same
 * order and with the same per-entry steps (unused test, name pattern,
 * entry), with the path items between the security schemes and the links.
 *
 * A component path item is first looked up: one that does not resolve is
 * reported at `#` (under `.paths[name]`, as the document's own paths are)
 * and skipped; one that does has the operationIds of its operations
 * registered, each taken one reported, before its own unused test, name
 * pattern and entry. Path items are the one kind whose unused test the
 * default options switch off. The Path Item Object's own rules are not part
 * of this model.
 */
module V31Components {
  import opened Wrappers
  import opened Strings
  import opened SortedMap
  import opened Validation
  import opened Helpers
  import opened Locality
  import opened Reference
  import opened RefValidation
  import opened Unused
  import opened V31Types
  import opened V31Resolve
  import V30Resolve
  import V31Schema
  import V31Parameter
  import V31Content
  import V30Content
  import V30Components
  import V30Security
  import V30Spec
  import Each

  /** The operationIds of one path item's operations, in method order. */
  function ItemIds(name: string, ops: Entries<Operation>): (r: seq<V30Spec.IdUse>)
    ensures forall u :: u in r <==>
      u.name == name && exists j :: 0 <= j < |ops| && ops[j].0 == u.verb && ops[j].1.operationId == Some(u.id)
  {
    if ops == [] then []
    else
      var rest := ItemIds(name, ops[1..]);
      assert forall j :: 1 <= j < |ops| ==> ops[j] == ops[1..][j - 1];
      (if ops[0].1.operationId.Some? then [V30Spec.IdUse(name, ops[0].0, ops[0].1.operationId.value)] else []) + rest
  }

  function LookupMessage(name: string, e: ResolveError): string
  {
    "#" + (".paths[" + name + "]: `" + ResolveErrorText(e) + "`")
  }

  /**
   * The first half of a path-item entry, shared with the document's paths:
   * a failed lookup is reported at `#`, a looping one cuts the context, and
   * a resolved item has its operationIds registered.
   */
  function RegisterPathItem(spec: Spec, name: string, x: RefOr<PathItem>, c: Context): (r: Context)
    ensures Extends(c, r) && Localized(c, r, "#")
    ensures PathItemItem(spec, x).Failed? ==> r == c.(errors := c.errors + [LookupMessage(name, PathItemItem(spec, x).error)])
    ensures PathItemItem(spec, x).Diverged? ==> r == Cut(c)
    ensures PathItemItem(spec, x).Resolved? ==> r == V30Spec.RegisterIds(ItemIds(name, PathItemItem(spec, x).item.operations), 0, c)
  {
    match PathItemItem(spec, x)
    case Failed(e) =>
      var msg := ".paths[" + name + "]: `" + ResolveErrorText(e) + "`";
      Pushed(c, "#", msg);
      assert Message("#", msg) == LookupMessage(name, e);
      PushError(c, "#", msg)
    case Diverged =>
      Unchanged(c, Cut(c), "#");
      Cut(c)
    case Resolved(item) => V30Spec.RegisterIds(ItemIds(name, item.operations), 0, c)
  }

  /** `RefOr<PathItem>::validate_with_context`: the item's own rules are not part of this model. */
  function ValidatePathItemRef(spec: Spec, x: RefOr<PathItem>, c: Context, path: string): (r: Context)
    ensures Extends(c, r) && Localized(c, r, path)
    ensures x.Item? ==> r == c
    ensures x.Ref? ==> x.reference in r.visited
  {
    ValidateRefOr(x, (s: string) => V30Resolve.Resolve(ComponentsOf(spec).pathItems, PathItemsPrefix, s), c, path, V30Content.NoChecks)
  }

  function PathItemRefs(spec: Spec): (v: (RefOr<PathItem>, Context, string) -> Context)
    ensures WellBehaved(v)
  {
    (x: RefOr<PathItem>, c0: Context, at: string) => ValidatePathItemRef(spec, x, c0, at)
  }

  /** One path item of the components. */
  function PathItemComponent(spec: Spec, name: string, x: RefOr<PathItem>, c: Context, path: string): (r: Context)
    ensures Extends(c, r)
    ensures StartsWith(path, "#") ==> Localized(c, r, "#")
    ensures !PathItemItem(spec, x).Resolved? ==> r == RegisterPathItem(spec, name, x, c)
    ensures PathItemItem(spec, x).Resolved? ==>
      r == V30Components.ValidateComponent(name, x, PathItemsPrefix, "pathItems", IgnoreUnusedPathItems,
                                           RegisterPathItem(spec, name, x, c), path, PathItemRefs(spec))
  {
    var c1 := RegisterPathItem(spec, name, x, c);
    if !PathItemItem(spec, x).Resolved? then c1
    else
      PathItemsPrefixInternal();
      var r := V30Components.ValidateComponent(name, x, PathItemsPrefix, "pathItems", IgnoreUnusedPathItems, c1, path,
                                               PathItemRefs(spec));
      if StartsWith(path, "#") then
        V30Spec.Rooted(c1, r, path);
        Chain(c, c1, r, "#");
        r
      else r
  }

  /** The path items from the `i`-th on, in key order. */
  function PathItemPass(spec: Spec, items: Entries<RefOr<PathItem>>, i: nat, c: Context, path: string): (r: Context)
    requires i <= |items|
    ensures Extends(c, r)
    ensures StartsWith(path, "#") ==> Localized(c, r, "#")
    ensures i < |items| ==>
      r == PathItemPass(spec, items, i + 1, PathItemComponent(spec, items[i].0, items[i].1, c, path), path)
    decreases |items| - i
  {
    if i == |items| then
      Unchanged(c, c, "#");
      c
    else
      var c1 := PathItemComponent(spec, items[i].0, items[i].1, c, path);
      var r := PathItemPass(spec, items, i + 1, c1, path);
      if StartsWith(path, "#") then
        Chain(c, c1, r, "#");
        r
      else r
  }

  /** A path item that does not resolve is reported at `#`, and nothing else is done with it. */
  lemma {:induction false} UnresolvedPathItemReported(spec: Spec, items: Entries<RefOr<PathItem>>, i: nat, c: Context,
                                                      path: string, k: nat)
    requires i <= k < |items| && PathItemItem(spec, items[k].1).Failed?
    ensures LookupMessage(items[k].0, PathItemItem(spec, items[k].1).error) in Added(c, PathItemPass(spec, items, i, c, path))
    decreases |items| - i
  {
    var c1 := PathItemComponent(spec, items[i].0, items[i].1, c, path);
    var r := PathItemPass(spec, items, i + 1, c1, path);
    if k == i {
      AddedFirst(c, c1, r, LookupMessage(items[k].0, PathItemItem(spec, items[k].1).error));
    } else {
      UnresolvedPathItemReported(spec, items, i + 1, c1, path, k);
      AddedLater(c, c1, r, LookupMessage(items[k].0, PathItemItem(spec, items[k].1).error));
    }
  }

  /** Every operationId of a resolved path item is registered once the pass is over. */
  lemma {:induction false} PathItemIdsRegistered(spec: Spec, items: Entries<RefOr<PathItem>>, i: nat, c: Context,
                                                 path: string, k: nat, u: V30Spec.IdUse)
    requires i <= k < |items| && PathItemItem(spec, items[k].1).Resolved?
    requires u in ItemIds(items[k].0, PathItemItem(spec, items[k].1).item.operations)
    ensures OperationKey(u.id) in PathItemPass(spec, items, i, c, path).visited
    decreases |items| - i
  {
    var c1 := PathItemComponent(spec, items[i].0, items[i].1, c, path);
    if k == i {
      var uses := ItemIds(items[k].0, PathItemItem(spec, items[k].1).item.operations);
      var j :| 0 <= j < |uses| && uses[j] == u;
      assert OperationKey(u.id) in RegisterPathItem(spec, items[k].0, items[k].1, c).visited;
    } else {
      PathItemIdsRegistered(spec, items, i + 1, c1, path, k, u);
    }
  }

  /**
   * An operationId of a component path item that is already registered (by
   * the document's paths, or an earlier path item) is reported as in use.
   */
  lemma TakenIdInPathItem(spec: Spec, name: string, x: RefOr<PathItem>, c: Context, path: string, k: nat)
    requires PathItemItem(spec, x).Resolved?
    requires k < |ItemIds(name, PathItemItem(spec, x).item.operations)|
    requires OperationKey(ItemIds(name, PathItemItem(spec, x).item.operations)[k].id) in c.visited
    ensures V30Spec.DuplicateIdMessage(ItemIds(name, PathItemItem(spec, x).item.operations)[k])
            in Added(c, PathItemComponent(spec, name, x, c, path))
  {
    var uses := ItemIds(name, PathItemItem(spec, x).item.operations);
    var c1 := RegisterPathItem(spec, name, x, c);
    V30Spec.TakenIdReported(uses, 0, c, k);
    AddedEarlier(c, c1, PathItemComponent(spec, name, x, c, path), V30Spec.DuplicateIdMessage(uses[k]));
  }

  /** No operationId key is a path item's key. */
  lemma KeysApart(id: string, name: string)
    ensures OperationKey(id) != PathItemsPrefix + name
  {
    assert OperationKey(id)[2] == 'p' && (PathItemsPrefix + name)[2] == 'c';
  }

  /**
   * With the rule on, a resolved path item nobody referenced is reported
   * unused: registering its operationIds does not mark it.
   */
  lemma UnusedPathItemReported(spec: Spec, name: string, x: RefOr<PathItem>, c: Context, path: string)
    requires PathItemItem(spec, x).Resolved? && PathItemsPrefix + name !in c.visited
    requires RuleActive(c.options, IgnoreUnusedPathItems)
    ensures UnusedMessage(PathItemsPrefix + name) in Added(c, PathItemComponent(spec, name, x, c, path))
  {
    var uses := ItemIds(name, PathItemItem(spec, x).item.operations);
    var c1 := RegisterPathItem(spec, name, x, c);
    var r := PathItemComponent(spec, name, x, c, path);
    assert c1.visited == c.visited + set j | 0 <= j < |uses| :: OperationKey(uses[j].id);
    forall j | 0 <= j < |uses|
      ensures OperationKey(uses[j].id) != PathItemsPrefix + name
    {
      KeysApart(uses[j].id, name);
    }
    assert PathItemsPrefix + name !in c1.visited;
    AddedFirst(c1, r, r, UnusedMessage(PathItemsPrefix + name));
    AddedLater(c, c1, r, UnusedMessage(PathItemsPrefix + name));
  }

  /** Under the default options the unused test is off: the name pattern and the entry are all that run. */
  lemma UnusedPathItemDefault(spec: Spec, name: string, x: RefOr<PathItem>, c: Context, path: string)
    requires PathItemItem(spec, x).Resolved? && c.options == New()
    ensures PathItemComponent(spec, name, x, c, path)
         == ValidatePathItemRef(spec, x, ValidateStringMatches(name, ComponentName, RegisterPathItem(spec, name, x, c),
                                                               V30Components.NamePath(path, "pathItems")),
                                Each.EntryPath(path, "pathItems", name))
  {
    assert IsOption(RegisterPathItem(spec, name, x, c), IgnoreUnusedPathItems);
  }

  /** The scope names of a scheme's implicit flow, in key order; other schemes have none. */
  function ImplicitScopes(spec: Spec, x: RefOr<SecurityScheme>): (r: seq<string>)
    ensures |r| > 0 ==> SecuritySchemeItem(spec, x).Resolved? && SecuritySchemeItem(spec, x).item.OAuth2?
  {
    match SecuritySchemeItem(spec, x)
    case Resolved(OAuth2(flows)) =>
      if flows.implicit.Some? then
        var scopes := flows.implicit.value.scopes;
        seq(|scopes|, k requires 0 <= k < |scopes| => scopes[k].0)
      else []
    case _ => []
  }

  /** `RefOr<SecurityScheme>::validate_with_context`: the scheme's own rules are not part of this model. */
  function ValidateSecuritySchemeRef(spec: Spec, x: RefOr<SecurityScheme>, c: Context, path: string): (r: Context)
    ensures Extends(c, r) && Localized(c, r, path)
    ensures x.Item? ==> r == c
    ensures x.Ref? ==> x.reference in r.visited
  {
    ValidateRefOr(x, (s: string) => V30Resolve.Resolve(ComponentsOf(spec).securitySchemes, V30Resolve.SecuritySchemesPrefix, s),
                  c, path, V30Content.NoChecks)
  }

  /** One security scheme: as any entry, then the unused test for its implicit scopes. */
  function ValidateSchemeComponent(spec: Spec, name: string, x: RefOr<SecurityScheme>, c: Context, path: string): (r: Context)
    ensures Extends(c, r) && Localized(c, r, path)
    ensures forall s :: (s in ImplicitScopes(spec, x) && V30Security.ScopeKey(V30Security.SchemeReference(name), s) !in r.visited
                         && !IsOption(c, IgnoreUnusedSecuritySchemes)) ==>
      UnusedMessage(V30Security.ScopeKey(V30Security.SchemeReference(name), s)) in Added(c, r)
    ensures SecuritySchemeItem(spec, x).Diverged? ==> r.cut
  {
    var validate := (x0: RefOr<SecurityScheme>, c0: Context, at: string) => ValidateSecuritySchemeRef(spec, x0, c0, at);
    V30Resolve.PrefixesInternal();
    var c1 := V30Components.ValidateComponent(name, x, V30Resolve.SecuritySchemesPrefix, "securitySchemes",
                                              IgnoreUnusedSecuritySchemes, c, path, validate);
    var reference := V30Security.SchemeReference(name);
    // the implicit scopes look the scheme up whether or not it was visited
    var c2 := if SecuritySchemeItem(spec, x).Diverged? then Cut(c1) else c1;
    var r := V30Components.UnusedScopes(reference, ImplicitScopes(spec, x), 0, c2);
    PrefixOfPrefix(V30Resolve.SecuritySchemesPrefix, name);
    StartsWithChain(reference, V30Resolve.SecuritySchemesPrefix, Internal);
    AtReference(c2, r, reference, path);
    Chain(c, c2, r, path);
    assert forall m :: m in Added(c2, r) ==> m in Added(c, r) by {
      forall m | m in Added(c2, r) ensures m in Added(c, r) { AddedLater(c, c2, r, m); }
    }
    r
  }

  /** The security schemes from the `i`-th on, in key order. */
  function SchemePass(spec: Spec, schemes: Entries<RefOr<SecurityScheme>>, i: nat, c: Context, path: string): (r: Context)
    requires i <= |schemes|
    ensures Extends(c, r) && Localized(c, r, path)
    decreases |schemes| - i
  {
    if i == |schemes| then c
    else
      var c1 := ValidateSchemeComponent(spec, schemes[i].0, schemes[i].1, c, path);
      var r := SchemePass(spec, schemes, i + 1, c1, path);
      Chain(c, c1, r, path);
      r
  }

  /** The validator each kind's entries get. */
  function SchemaValidator(spec: Spec, fuel: nat): (D: (RefOr<Schema>, Context, string) -> Context)
    ensures WellBehaved(D)
  {
    (x: RefOr<Schema>, c: Context, at: string) => V31Schema.ValidateSchemaRef(spec, x, c, at, fuel)
  }

  function ResponseValidator(spec: Spec): (D: (RefOr<Response>, Context, string) -> Context)
    ensures WellBehaved(D)
  {
    (x: RefOr<Response>, c: Context, at: string) => V31Content.ValidateResponseRef(spec, x, c, at)
  }

  function ParameterValidator(spec: Spec): (D: (RefOr<Parameter>, Context, string) -> Context)
    ensures WellBehaved(D)
  {
    (x: RefOr<Parameter>, c: Context, at: string) => V31Parameter.ValidateParameterRef(spec, x, c, at)
  }

  function RequestBodyValidator(spec: Spec): (D: (RefOr<RequestBody>, Context, string) -> Context)
    ensures WellBehaved(D)
  {
    (x: RefOr<RequestBody>, c: Context, at: string) =>
      ValidateRefOr(x, (s: string) => V30Resolve.Resolve(ComponentsOf(spec).requestBodies, V30Resolve.RequestBodiesPrefix, s),
                    c, at, V30Content.NoChecks)
  }

  function CallbackValidator(spec: Spec): (D: (RefOr<Callback>, Context, string) -> Context)
    ensures WellBehaved(D)
  {
    (x: RefOr<Callback>, c: Context, at: string) =>
      ValidateRefOr(x, (s: string) => V30Resolve.Resolve(ComponentsOf(spec).callbacks, V30Resolve.CallbacksPrefix, s),
                    c, at, V30Content.NoChecks)
  }

  function SchemasPass(spec: Spec, comp: Components, c: Context, path: string, fuel: nat): (r: Context)
    ensures Extends(c, r) && Localized(c, r, path)
  {
    V30Resolve.PrefixesInternal();
    V30Components.ComponentPass(comp.schemas, 0, V30Resolve.SchemasPrefix, "schemas", IgnoreUnusedSchemas, c, path,
                                SchemaValidator(spec, fuel))
  }

  /** Responses, parameters, examples. */
  function AfterSchemas(spec: Spec, comp: Components, c: Context, path: string): (r: Context)
    ensures Extends(c, r) && Localized(c, r, path)
  {
    V30Resolve.PrefixesInternal();
    var c2 := V30Components.ComponentPass(comp.responses, 0, V30Resolve.ResponsesPrefix, "responses", IgnoreUnusedResponses,
                                          c, path, ResponseValidator(spec));
    var c3 := V30Components.ComponentPass(comp.parameters, 0, V30Resolve.ParametersPrefix, "parameters", IgnoreUnusedParameters,
                                          c2, path, ParameterValidator(spec));
    var r := V30Components.ComponentPass(comp.examples, 0, V30Resolve.ExamplesPrefix, "examples", IgnoreUnusedExamples,
                                         c3, path, V31Content.ExampleRefs(spec));
    Chain(c, c2, c3, path);
    Chain(c, c3, r, path);
    r
  }

  /** Schemas, responses, parameters, examples. */
  function ComponentsFirst(spec: Spec, comp: Components, c: Context, path: string, fuel: nat): (r: Context)
    ensures Extends(c, r) && Localized(c, r, path)
    ensures r == AfterSchemas(spec, comp, SchemasPass(spec, comp, c, path, fuel), path)
  {
    var c1 := SchemasPass(spec, comp, c, path, fuel);
    var r := AfterSchemas(spec, comp, c1, path);
    Chain(c, c1, r, path);
    r
  }

  /** Request bodies, headers, security schemes. */
  function ComponentsSecond(spec: Spec, comp: Components, c: Context, path: string): (r: Context)
    ensures Extends(c, r) && Localized(c, r, path)
  {
    V30Resolve.PrefixesInternal();
    var c1 := V30Components.ComponentPass(comp.requestBodies, 0, V30Resolve.RequestBodiesPrefix, "requestBodies",
                                          IgnoreUnusedRequestBodies, c, path, RequestBodyValidator(spec));
    var c2 := V30Components.ComponentPass(comp.headers, 0, V30Resolve.HeadersPrefix, "headers", IgnoreUnusedHeaders,
                                          c1, path, V31Content.HeaderRefs(spec));
    var r := SchemePass(spec, comp.securitySchemes, 0, c2, path);
    Chain(c, c1, c2, path);
    Chain(c, c2, r, path);
    r
  }

  /** Links, callbacks. */
  function ComponentsLast(spec: Spec, comp: Components, c: Context, path: string): (r: Context)
    ensures Extends(c, r) && Localized(c, r, path)
  {
    V30Resolve.PrefixesInternal();
    var c1 := V30Components.ComponentPass(comp.links, 0, V30Resolve.LinksPrefix, "links", IgnoreUnusedLinks, c, path,
                                          V31Content.LinkRefs(spec));
    var r := V30Components.ComponentPass(comp.callbacks, 0, V30Resolve.CallbacksPrefix, "callbacks", IgnoreUnusedCallbacks,
                                         c1, path, CallbackValidator(spec));
    Chain(c, c1, r, path);
    r
  }

  /**
   * `Components::validate_with_context`: the kinds in the source's order,
   * the path items between the security schemes and the links. The lookups
   * of the path items report at `#`, so the whole is rooted at `#` only when
   * `path` is.
   */
  function ValidateComponents(spec: Spec, comp: Components, c: Context, path: string, fuel: nat): (r: Context)
    ensures Extends(c, r)
    ensures StartsWith(path, "#") ==> Localized(c, r, "#")
    ensures r == ComponentsLast(spec, comp, PathItemPass(spec, comp.pathItems, 0,
                  ComponentsSecond(spec, comp, ComponentsFirst(spec, comp, c, path, fuel), path), path), path)
  {
    var c1 := ComponentsFirst(spec, comp, c, path, fuel);
    var c2 := ComponentsSecond(spec, comp, c1, path);
    var c3 := PathItemPass(spec, comp.pathItems, 0, c2, path);
    var r := ComponentsLast(spec, comp, c3, path);
    if StartsWith(path, "#") then
      Chain(c, c1, c2, path);
      V30Spec.Rooted(c, c2, path);
      V30Spec.Rooted(c3, r, path);
      Chain(c, c2, c3, "#");
      Chain(c, c3, r, "#");
      r
    else r
  }

  /** A schema whose name breaks the component-name pattern is reported by the components pass. */
  lemma BadSchemaNameInComponents(spec: Spec, comp: Components, c: Context, path: string, fuel: nat, k: nat)
    requires k < |comp.schemas| && !PatternMatches(ComponentName, comp.schemas[k].0)
    ensures V30Components.NameMessage(path, "schemas", comp.schemas[k].0) in Added(c, ValidateComponents(spec, comp, c, path, fuel))
  {
    V30Resolve.PrefixesInternal();
    var m := V30Components.NameMessage(path, "schemas", comp.schemas[k].0);
    V30Components.BadNameReported(comp.schemas, 0, V30Resolve.SchemasPrefix, "schemas", IgnoreUnusedSchemas, c, path,
                                  SchemaValidator(spec, fuel), k);
    var c1 := SchemasPass(spec, comp, c, path, fuel);
    var f := ComponentsFirst(spec, comp, c, path, fuel);
    var s := ComponentsSecond(spec, comp, f, path);
    var p := PathItemPass(spec, comp.pathItems, 0, s, path);
    var v := ValidateComponents(spec, comp, c, path, fuel);
    AddedEarlier(c, c1, f, m);
    AddedEarlier(c, f, s, m);
    AddedEarlier(c, s, p, m);
    AddedEarlier(c, p, v, m);
  }
}
