/**
 * The Components Object of OpenAPI 3.0. Each kind is walked in key order,
 * in a fixed order of kinds; for every entry, first the unused test (which
 * only looks at `visited`, so it sees the references made before it and
 * marks nothing), then the name pattern at `path.<kind>[<name>]` (the
 * literal `<name>`), then the entry itself at `path.<kind>[name]`. After an
 * OAuth2 security scheme, each scope of its implicit flow that no
 * operation asked for is reported under `<reference>/<scope>`.
 */
module V30Components {
  import opened Wrappers
  import opened Strings
  import opened SortedMap
  import opened Validation
  import opened Helpers
  import opened Locality
  import opened Reference
  import opened RefValidation
  import opened Unused
  import opened Each
  import opened V30Types
  import opened V30Resolve
  import opened V30Schema
  import opened V30Content
  import opened V30Security
  import opened V30Operation

  /** Where a bad component name is reported: the name itself is not part of the path. */
  function NamePath(path: string, kind: string): string
  {
    path + ("." + kind + "[<name>]")
  }

  function NameMessage(path: string, kind: string, name: string): string
  {
    NamePath(path, kind) + ": " + ("must match pattern `" + PatternText(ComponentName) + "`, found `" + name + "`")
  }

  /** The unused test: it reads `visited` and never adds to it. */
  function UnusedCheck(key: string, flag: Options, c: Context): (r: Context)
    ensures r.visited == c.visited && Extends(c, r) && Localized(c, r, key)
    ensures key in c.visited || IsOption(c, flag) ==> r == c
    ensures key !in c.visited && !IsOption(c, flag) ==> r.errors == c.errors + [UnusedMessage(key)]
  {
    if key !in c.visited && !IsOption(c, flag) then
      Pushed(c, key, "unused");
      assert Message(key, "unused") == UnusedMessage(key);
      PushError(c, key, "unused")
    else c
  }

  /**
   * The unused test is `validate_not_visited` without the marking: once
   * the key is marked, the two leave the same context behind.
   */
  lemma CheckIsNotVisitedUnmarked(key: string, flag: Options, c: Context)
    ensures ValidateNotVisited((), c, flag, key, (u: (), c0: Context, p: string) => c0)
         == UnusedCheck(key, flag, c).(visited := c.visited + {key})
  {
  }

  /** One entry of a kind: the unused test, the name pattern, the entry. */
  function ValidateComponent<T(!new)>(name: string, obj: T, prefix: string, kind: string, flag: Options,
                                      c: Context, path: string, validate: (T, Context, string) -> Context): (r: Context)
    requires StartsWith(prefix, Internal) && WellBehaved(validate)
    ensures Extends(c, r) && Localized(c, r, path)
    ensures prefix + name !in c.visited && !IsOption(c, flag) ==>
      |r.errors| > |c.errors| && r.errors[|c.errors|] == UnusedMessage(prefix + name)
    ensures prefix + name in c.visited || IsOption(c, flag) ==>
      r == validate(obj, ValidateStringMatches(name, ComponentName, c, NamePath(path, kind)), EntryPath(path, kind, name))
    ensures !PatternMatches(ComponentName, name) ==> NameMessage(path, kind, name) in Added(c, r)
  {
    var key := prefix + name;
    var c1 := UnusedCheck(key, flag, c);
    PrefixOfPrefix(prefix, name);
    StartsWithChain(key, prefix, Internal);
    AtReference(c, c1, key, path);
    var c2 := ValidateStringMatches(name, ComponentName, c1, NamePath(path, kind));
    assert Localized(c1, c2, path) by {
      if !PatternMatches(ComponentName, name) {
        Pushed(c1, NamePath(path, kind), "must match pattern `" + PatternText(ComponentName) + "`, found `" + name + "`");
        Narrow(c1, c2, path, "." + kind + "[<name>]");
      } else {
        Unchanged(c1, c2, path);
      }
    }
    var r := validate(obj, c2, EntryPath(path, kind, name));
    Narrow(c2, r, path, "." + kind + "[" + name + "]");
    Chain(c, c1, c2, path);
    Chain(c, c2, r, path);
    assert !PatternMatches(ComponentName, name) ==> NameMessage(path, kind, name) in Added(c, r) by {
      if !PatternMatches(ComponentName, name) {
        assert c2.errors[|c1.errors|] == NameMessage(path, kind, name);
        AddedFirst(c1, c2, r, NameMessage(path, kind, name));
        AddedLater(c, c1, r, NameMessage(path, kind, name));
      }
    }
    r
  }

  /** The entries of one kind from the `i`-th on, in key order. */
  function ComponentPass<T(!new)>(entries: seq<(string, T)>, i: nat, prefix: string, kind: string, flag: Options,
                                  c: Context, path: string, validate: (T, Context, string) -> Context): (r: Context)
    requires i <= |entries| && StartsWith(prefix, Internal) && WellBehaved(validate)
    ensures Extends(c, r) && Localized(c, r, path)
    ensures i < |entries| ==>
      r == ComponentPass(entries, i + 1, prefix, kind, flag,
                         ValidateComponent(entries[i].0, entries[i].1, prefix, kind, flag, c, path, validate),
                         path, validate)
    decreases |entries| - i
  {
    if i == |entries| then c
    else
      var c1 := ValidateComponent(entries[i].0, entries[i].1, prefix, kind, flag, c, path, validate);
      var r := ComponentPass(entries, i + 1, prefix, kind, flag, c1, path, validate);
      Chain(c, c1, r, path);
      r
  }

  /**
   * A component still unvisited at the end of its kind's pass was unvisited
   * at its turn, so it was reported, while the rule is on: nothing after
   * the test can take the report back.
   */
  lemma {:induction false} UnvisitedComponentReported<T(!new)>(entries: seq<(string, T)>, i: nat, prefix: string, kind: string,
                                                               flag: Options, c: Context, path: string,
                                                               validate: (T, Context, string) -> Context, k: nat)
    requires i <= k < |entries| && StartsWith(prefix, Internal) && WellBehaved(validate)
    requires RuleActive(c.options, flag)
    requires prefix + entries[k].0 !in ComponentPass(entries, i, prefix, kind, flag, c, path, validate).visited
    ensures UnusedMessage(prefix + entries[k].0) in Added(c, ComponentPass(entries, i, prefix, kind, flag, c, path, validate))
    decreases |entries| - i
  {
    var c1 := ValidateComponent(entries[i].0, entries[i].1, prefix, kind, flag, c, path, validate);
    var r := ComponentPass(entries, i + 1, prefix, kind, flag, c1, path, validate);
    if k == i {
      AddedFirst(c, c1, r, UnusedMessage(prefix + entries[k].0));
    } else {
      UnvisitedComponentReported(entries, i + 1, prefix, kind, flag, c1, path, validate, k);
      AddedLater(c, c1, r, UnusedMessage(prefix + entries[k].0));
    }
  }

  /** Every badly named component of a kind is reported. */
  lemma {:induction false} BadNameReported<T(!new)>(entries: seq<(string, T)>, i: nat, prefix: string, kind: string,
                                                    flag: Options, c: Context, path: string,
                                                    validate: (T, Context, string) -> Context, k: nat)
    requires i <= k < |entries| && StartsWith(prefix, Internal) && WellBehaved(validate)
    requires !PatternMatches(ComponentName, entries[k].0)
    ensures NameMessage(path, kind, entries[k].0) in Added(c, ComponentPass(entries, i, prefix, kind, flag, c, path, validate))
    decreases |entries| - i
  {
    var c1 := ValidateComponent(entries[i].0, entries[i].1, prefix, kind, flag, c, path, validate);
    var r := ComponentPass(entries, i + 1, prefix, kind, flag, c1, path, validate);
    if k == i {
      AddedEarlier(c, c1, r, NameMessage(path, kind, entries[k].0));
    } else {
      BadNameReported(entries, i + 1, prefix, kind, flag, c1, path, validate, k);
      AddedLater(c, c1, r, NameMessage(path, kind, entries[k].0));
    }
  }

  /** The scope names of a scheme's implicit flow, in key order; other schemes have none. */
  function ImplicitScopes(spec: Spec, x: RefOr<SecurityScheme>): (r: seq<string>)
    ensures |r| > 0 ==> SecuritySchemeItem(spec, x).Resolved? && SecuritySchemeItem(spec, x).item.OAuth2?
  {
    match SecuritySchemeItem(spec, x)
    case Resolved(OAuth2(flows)) =>
      if flows.implicit.Some? then
        var scopes := flows.implicit.value.scopes;
        seq(|scopes|, k requires 0 <= k < |scopes| => scopes[k].0)
      else []
    case _ => []
  }

  /** Distinct scopes of one scheme are reported with distinct messages. */
  lemma ScopeMessageInjective(reference: string, s: string, t: string)
    requires UnusedMessage(ScopeKey(reference, s)) == UnusedMessage(ScopeKey(reference, t))
    ensures s == t
  {
    var m := UnusedMessage(ScopeKey(reference, s));
    assert |s| == |t|;
    assert s == m[|reference| + 1..|reference| + 1 + |s|];
    assert t == m[|reference| + 1..|reference| + 1 + |t|];
  }

  /** The unused test for the scopes from the `i`-th on. */
  function UnusedScopes(reference: string, scopes: seq<string>, i: nat, c: Context): (r: Context)
    requires i <= |scopes|
    ensures r.visited == c.visited && Extends(c, r) && Localized(c, r, reference)
    ensures forall s :: UnusedMessage(ScopeKey(reference, s)) in Added(c, r) <==>
      (exists k :: i <= k < |scopes| && scopes[k] == s) && ScopeKey(reference, s) !in c.visited
      && !IsOption(c, IgnoreUnusedSecuritySchemes)
    decreases |scopes| - i
  {
    if i == |scopes| then c
    else
      var key := ScopeKey(reference, scopes[i]);
      var c1 := UnusedCheck(key, IgnoreUnusedSecuritySchemes, c);
      StartsWithConcat(reference, "/" + scopes[i]);
      assert key == reference + ("/" + scopes[i]);
      Narrow(c, c1, reference, "/" + scopes[i]);
      var r := UnusedScopes(reference, scopes, i + 1, c1);
      Chain(c, c1, r, reference);
      assert Added(c, r) == Added(c, c1) + Added(c1, r);
      assert forall s :: UnusedMessage(ScopeKey(reference, s)) in Added(c, c1) <==>
          s == scopes[i] && key !in c.visited && !IsOption(c, IgnoreUnusedSecuritySchemes) by {
        forall s ensures UnusedMessage(ScopeKey(reference, s)) in Added(c, c1) <==>
            s == scopes[i] && key !in c.visited && !IsOption(c, IgnoreUnusedSecuritySchemes) {
          if UnusedMessage(ScopeKey(reference, s)) in Added(c, c1) {
            ScopeMessageInjective(reference, s, scopes[i]);
          }
        }
      }
      r
  }

  /** `RefOr<SecurityScheme>::validate_with_context`: the scheme's own rules are not part of this model. */
  function ValidateSecuritySchemeRef(spec: Spec, x: RefOr<SecurityScheme>, c: Context, path: string): (r: Context)
    ensures Extends(c, r) && Localized(c, r, path)
    ensures x.Item? ==> r == c
    ensures x.Ref? ==> x.reference in r.visited
  {
    ValidateRefOr(x, (s: string) => Resolve(ComponentsOf(spec).securitySchemes, SecuritySchemesPrefix, s), c, path, NoChecks)
  }

  /** One security scheme: as any entry, then the unused test for its implicit scopes. */
  function ValidateSchemeComponent(spec: Spec, name: string, x: RefOr<SecurityScheme>, c: Context, path: string): (r: Context)
    ensures Extends(c, r) && Localized(c, r, path)
    ensures forall s :: (s in ImplicitScopes(spec, x) && ScopeKey(SchemeReference(name), s) !in r.visited
                         && !IsOption(c, IgnoreUnusedSecuritySchemes)) ==>
      UnusedMessage(ScopeKey(SchemeReference(name), s)) in Added(c, r)
    ensures SecuritySchemeItem(spec, x).Diverged? ==> r.cut
  {
    var validate := (x0: RefOr<SecurityScheme>, c0: Context, at: string) => ValidateSecuritySchemeRef(spec, x0, c0, at);
    PrefixesInternal();
    var c1 := ValidateComponent(name, x, SecuritySchemesPrefix, "securitySchemes", IgnoreUnusedSecuritySchemes, c, path, validate);
    var reference := SchemeReference(name);
    // the implicit scopes look the scheme up whether or not it was visited
    var c2 := if SecuritySchemeItem(spec, x).Diverged? then Cut(c1) else c1;
    var r := UnusedScopes(reference, ImplicitScopes(spec, x), 0, c2);
    PrefixOfPrefix(SecuritySchemesPrefix, name);
    StartsWithChain(reference, SecuritySchemesPrefix, Internal);
    AtReference(c2, r, reference, path);
    Chain(c, c2, r, path);
    assert forall m :: m in Added(c2, r) ==> m in Added(c, r) by {
      forall m | m in Added(c2, r) ensures m in Added(c, r) { AddedLater(c, c2, r, m); }
    }
    r
  }

  /** The security schemes from the `i`-th on, in key order. */
  function SchemePass(spec: Spec, schemes: Entries<RefOr<SecurityScheme>>, i: nat, c: Context, path: string): (r: Context)
    requires i <= |schemes|
    ensures Extends(c, r) && Localized(c, r, path)
    decreases |schemes| - i
  {
    if i == |schemes| then c
    else
      var c1 := ValidateSchemeComponent(spec, schemes[i].0, schemes[i].1, c, path);
      var r := SchemePass(spec, schemes, i + 1, c1, path);
      Chain(c, c1, r, path);
      r
  }

  /** The validator each kind's entries get. */
  function SchemaValidator(spec: Spec, fuel: nat): (D: (RefOr<Schema>, Context, string) -> Context)
    ensures WellBehaved(D)
  {
    (x: RefOr<Schema>, c: Context, at: string) => ValidateSchemaRef(spec, x, c, at, fuel)
  }

  function ResponseValidator(spec: Spec, fuel: nat): (D: (RefOr<Response>, Context, string) -> Context)
    ensures WellBehaved(D)
  {
    (x: RefOr<Response>, c: Context, at: string) => ValidateResponseRef(spec, x, c, at, fuel)
  }

  function ParameterValidator(spec: Spec): (D: (RefOr<Parameter>, Context, string) -> Context)
    ensures WellBehaved(D)
  {
    (x: RefOr<Parameter>, c: Context, at: string) => ValidateParameterRef(spec, x, c, at)
  }

  function ExampleValidator(spec: Spec): (D: (RefOr<Example>, Context, string) -> Context)
    ensures WellBehaved(D)
  {
    (x: RefOr<Example>, c: Context, at: string) => ValidateExampleRef(spec, x, c, at)
  }

  function RequestBodyValidator(spec: Spec, fuel: nat): (D: (RefOr<RequestBody>, Context, string) -> Context)
    ensures WellBehaved(D)
  {
    (x: RefOr<RequestBody>, c: Context, at: string) => ValidateRequestBodyRef(spec, x, c, at, fuel)
  }

  function HeaderValidator(spec: Spec): (D: (RefOr<Header>, Context, string) -> Context)
    ensures WellBehaved(D)
  {
    (x: RefOr<Header>, c: Context, at: string) => ValidateHeaderRef(spec, x, c, at)
  }

  function LinkValidator(spec: Spec): (D: (RefOr<Link>, Context, string) -> Context)
    ensures WellBehaved(D)
  {
    (x: RefOr<Link>, c: Context, at: string) => ValidateLinkRef(spec, x, c, at)
  }

  function CallbackValidator(spec: Spec, fuel: nat): (D: (RefOr<Callback>, Context, string) -> Context)
    ensures WellBehaved(D)
  {
    (x: RefOr<Callback>, c: Context, at: string) => ValidateCallbackRef(spec, x, c, at, fuel)
  }

  /** The schemas. */
  function SchemasPass(spec: Spec, comp: Components, c: Context, path: string, fuel: nat): (r: Context)
    ensures Extends(c, r) && Localized(c, r, path)
  {
    PrefixesInternal();
    ComponentPass(comp.schemas, 0, SchemasPrefix, "schemas", IgnoreUnusedSchemas, c, path, SchemaValidator(spec, fuel))
  }

  /** Schemas, responses, parameters. */
  function ComponentsFirst(spec: Spec, comp: Components, c: Context, path: string, fuel: nat): (r: Context)
    ensures Extends(c, r) && Localized(c, r, path)
  {
    PrefixesInternal();
    var c1 := SchemasPass(spec, comp, c, path, fuel);
    var c2 := ComponentPass(comp.responses, 0, ResponsesPrefix, "responses", IgnoreUnusedResponses, c1, path,
                            ResponseValidator(spec, fuel));
    var r := ComponentPass(comp.parameters, 0, ParametersPrefix, "parameters", IgnoreUnusedParameters, c2, path,
                           ParameterValidator(spec));
    Chain(c, c1, c2, path);
    Chain(c, c2, r, path);
    r
  }

  /** Examples, request bodies, headers. */
  function ComponentsSecond(spec: Spec, comp: Components, c: Context, path: string, fuel: nat): (r: Context)
    ensures Extends(c, r) && Localized(c, r, path)
  {
    PrefixesInternal();
    var c1 := ComponentPass(comp.examples, 0, ExamplesPrefix, "examples", IgnoreUnusedExamples, c, path,
                            ExampleValidator(spec));
    var c2 := ComponentPass(comp.requestBodies, 0, RequestBodiesPrefix, "requestBodies", IgnoreUnusedRequestBodies, c1, path,
                            RequestBodyValidator(spec, fuel));
    var r := ComponentPass(comp.headers, 0, HeadersPrefix, "headers", IgnoreUnusedHeaders, c2, path,
                           HeaderValidator(spec));
    Chain(c, c1, c2, path);
    Chain(c, c2, r, path);
    r
  }

  /** Links, callbacks. */
  function ComponentsLast(spec: Spec, comp: Components, c: Context, path: string, fuel: nat): (r: Context)
    ensures Extends(c, r) && Localized(c, r, path)
  {
    PrefixesInternal();
    var c1 := ComponentPass(comp.links, 0, LinksPrefix, "links", IgnoreUnusedLinks, c, path, LinkValidator(spec));
    var r := ComponentPass(comp.callbacks, 0, CallbacksPrefix, "callbacks", IgnoreUnusedCallbacks, c1, path,
                           CallbackValidator(spec, fuel));
    Chain(c, c1, r, path);
    r
  }

  /** `Components::validate_with_context`: the kinds in the source's order. */
  function ValidateComponents(spec: Spec, comp: Components, c: Context, path: string, fuel: nat): (r: Context)
    ensures Extends(c, r) && Localized(c, r, path)
  {
    var c1 := ComponentsFirst(spec, comp, c, path, fuel);
    var c2 := ComponentsSecond(spec, comp, c1, path, fuel);
    var c3 := SchemePass(spec, comp.securitySchemes, 0, c2, path);
    var r := ComponentsLast(spec, comp, c3, path, fuel);
    Chain(c, c1, c2, path);
    Chain(c, c2, c3, path);
    Chain(c, c3, r, path);
    r
  }

  /** Whatever the schemas pass leaves behind, the rest of the components only extends. */
  lemma SchemasFirst(spec: Spec, comp: Components, c: Context, path: string, fuel: nat)
    ensures Extends(SchemasPass(spec, comp, c, path, fuel), ValidateComponents(spec, comp, c, path, fuel))
  {
    var f := ComponentsFirst(spec, comp, c, path, fuel);
    assert Extends(SchemasPass(spec, comp, c, path, fuel), f);
  }

  lemma NameMessageAt(path: string, kind: string, name: string)
    ensures StartsWith(NameMessage(path, kind, name), path)
  {
    assert NameMessage(path, kind, name) == path + (("." + kind + "[<name>]") + ": " + ("must match pattern `" + PatternText(ComponentName) + "`, found `" + name + "`"));
    StartsWithConcat(path, ("." + kind + "[<name>]") + ": " + ("must match pattern `" + PatternText(ComponentName) + "`, found `" + name + "`"));
  }

  /** A path that does not start with `#` gives a name message that does not either. */
  lemma NameMessageUnrooted(path: string, kind: string, name: string)
    requires |path| > 0 && !StartsWith(path, "#")
    ensures !StartsWith(NameMessage(path, kind, name), "#")
  {
    NameMessageAt(path, kind, name);
    assert NameMessage(path, kind, name)[0] == path[0];
  }
}
