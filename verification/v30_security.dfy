/**
 * The security requirements of an OpenAPI 3.0 operation. Each scheme name
 * is followed as a reference into `#/components/securitySchemes/`; when it
 * names an OAuth2 scheme and scopes are asked for, every scope is marked
 * used (under `<reference>/<scope>`) and must be declared by one of the
 * scheme's four flows. Scopes of any other kind of scheme are not checked.
 */
module V30Security {
  import opened Wrappers
  import opened Strings
  import opened SortedMap
  import opened Helpers
  import opened Rules
  import opened Locality
  import opened Reference
  import opened RefValidation
  import opened Each
  import opened V30Types
  import opened V30Resolve
  import opened V30Content

  /** Some flow of the scheme declares the scope; the flows are tried in the source's order. */
  predicate ScopeDeclared(flows: Flows, scope: string)
  {
    (flows.implicit.Some? && scope in Keys(flows.implicit.value.scopes))
    || (flows.password.Some? && scope in Keys(flows.password.value.scopes))
    || (flows.clientCredentials.Some? && scope in Keys(flows.clientCredentials.value.scopes))
    || (flows.authorizationCode.Some? && scope in Keys(flows.authorizationCode.value.scopes))
  }

  /** The `visited` entry that marks a scope of a scheme as used. */
  function ScopeKey(reference: string, scope: string): string
  {
    reference + "/" + scope
  }

  function SchemeReference(name: string): string
  {
    SecuritySchemesPrefix + name
  }

  function ScopeMessage(at: string, scope: string, reference: string): string
  {
    at + (": scope `" + scope + "` not found in spec by reference `" + reference + "`")
  }

  /** One complaint per undeclared scope, in the order the scopes are asked for. */
  function ScopeErrors(flows: Flows, scopes: seq<string>, reference: string, at: string): (e: seq<string>)
    ensures e == [] <==> forall k :: 0 <= k < |scopes| ==> ScopeDeclared(flows, scopes[k])
    ensures forall k :: 0 <= k < |scopes| && !ScopeDeclared(flows, scopes[k]) ==> ScopeMessage(at, scopes[k], reference) in e
    ensures AllAt(e, at)
  {
    if scopes == [] then []
    else
      StartsWithConcat(at, ": scope `" + scopes[0] + "` not found in spec by reference `" + reference + "`");
      var rest := ScopeErrors(flows, scopes[1..], reference, at);
      assert forall k :: 1 <= k < |scopes| ==> scopes[k] == scopes[1..][k - 1];
      (if ScopeDeclared(flows, scopes[0]) then [] else [ScopeMessage(at, scopes[0], reference)]) + rest
  }

  /** The `visited` entries of the scopes asked of a scheme. */
  function ScopeKeys(reference: string, scopes: seq<string>): set<string>
  {
    set s | s in scopes :: ScopeKey(reference, s)
  }

  /**
   * Mark every scope used, and report the undeclared ones. The source does
   * both in one loop; the marks and the reports land in different fields, so
   * they are taken here as the loop's two effects.
   */
  function CheckScopes(flows: Flows, scopes: seq<string>, reference: string, c: Context, at: string): (r: Context)
    ensures r.errors == c.errors + ScopeErrors(flows, scopes, reference, at)
    ensures forall k :: 0 <= k < |scopes| ==> ScopeKey(reference, scopes[k]) in r.visited
    ensures Extends(c, r) && Localized(c, r, at)
  {
    var e := ScopeErrors(flows, scopes, reference, at);
    var r := c.(visited := c.visited + ScopeKeys(reference, scopes), errors := c.errors + e);
    Appended(c, r, e, at);
    r
  }

  /** The flows of the scheme a name refers to, when it is an OAuth2 scheme. */
  function OAuth2Flows(spec: Spec, name: string): Option<Flows>
  {
    match SecuritySchemeItem(spec, Ref(SchemeReference(name)))
    case Resolved(OAuth2(flows)) => Some(flows)
    case _ => None
  }

  /** One entry `name: scopes` of a requirement, reported at `at`. */
  function ValidateScheme(spec: Spec, name: string, scopes: seq<string>, c: Context, at: string): (r: Context)
    ensures Extends(c, r) && Localized(c, r, at)
    ensures SchemeReference(name) in r.visited
    ensures scopes != [] && OAuth2Flows(spec, name).Some? ==>
      (forall k :: 0 <= k < |scopes| ==> ScopeKey(SchemeReference(name), scopes[k]) in r.visited)
      && (forall k :: 0 <= k < |scopes| && !ScopeDeclared(OAuth2Flows(spec, name).value, scopes[k]) ==>
            ScopeMessage(at, scopes[k], SchemeReference(name)) in Added(c, r))
    ensures scopes != [] && SecuritySchemeItem(spec, Ref(SchemeReference(name))).Diverged? ==> r.cut
  {
    var reference := SchemeReference(name);
    var c1 := ValidateRefOr(Ref(reference), (s: string) => Resolve(ComponentsOf(spec).securitySchemes, SecuritySchemesPrefix, s),
                            c, at, NoChecks);
    if scopes != [] && SecuritySchemeItem(spec, Ref(reference)).Diverged? then
      // the scopes look the scheme up again, visited or not
      Cut(c1)
    else if scopes != [] && OAuth2Flows(spec, name).Some? then
      var r := CheckScopes(OAuth2Flows(spec, name).value, scopes, reference, c1, at);
      Chain(c, c1, r, at);
      assert forall m :: m in ScopeErrors(OAuth2Flows(spec, name).value, scopes, reference, at) ==> m in Added(c1, r);
      assert forall m :: m in Added(c1, r) ==> m in Added(c, r) by {
        forall m | m in Added(c1, r) ensures m in Added(c, r) { AddedLater(c, c1, r, m); }
      }
      r
    else c1
  }

  function SchemePath(at: string, name: string): string
  {
    at + ("[" + name + "]")
  }

  /** The entries of one requirement from the `i`-th on, each at `at[name]`. */
  function ValidateRequirement(spec: Spec, req: SecurityRequirement, i: nat, c: Context, at: string): (r: Context)
    requires i <= |req|
    ensures Extends(c, r) && Localized(c, r, at)
    decreases |req| - i
  {
    if i == |req| then c
    else
      var c1 := ValidateEntry(spec, req[i].0, req[i].1, c, at);
      var r := ValidateRequirement(spec, req, i + 1, c1, at);
      Chain(c, c1, r, at);
      r
  }

  /** Every scheme a requirement names is marked used, so it is never reported unused. */
  lemma {:induction false} RequirementMarksSchemes(spec: Spec, req: SecurityRequirement, i: nat, c: Context, at: string, k: nat)
    requires i <= k < |req|
    ensures SchemeReference(req[k].0) in ValidateRequirement(spec, req, i, c, at).visited
    decreases |req| - i
  {
    var c1 := ValidateEntry(spec, req[i].0, req[i].1, c, at);
    if k > i {
      RequirementMarksSchemes(spec, req, i + 1, c1, at, k);
    }
  }

  /** One entry of a requirement at `at[name]`, seen from the requirement's path. */
  function ValidateEntry(spec: Spec, name: string, scopes: seq<string>, c: Context, at: string): (r: Context)
    ensures Extends(c, r) && Localized(c, r, at)
    ensures SchemeReference(name) in r.visited
  {
    var r := ValidateScheme(spec, name, scopes, c, SchemePath(at, name));
    Narrow(c, r, at, "[" + name + "]");
    r
  }

  /** Every requirement in order, at `path.security[i]`. */
  function ValidateSecurity(spec: Spec, security: seq<SecurityRequirement>, c: Context, path: string): (r: Context)
    ensures Extends(c, r) && Localized(c, r, path)
  {
    EachItem(security, 0, c, path, "security",
             (req: SecurityRequirement, c0: Context, at: string) => ValidateRequirement(spec, req, 0, c0, at))
  }

  /**
   * A scheme that is not OAuth2, or a reference that does not resolve, has
   * its scopes ignored: only the reference is followed. (A looping lookup
   * cuts the context instead.)
   */
  lemma OtherSchemeScopesIgnored(spec: Spec, name: string, scopes: seq<string>, c: Context, at: string)
    requires OAuth2Flows(spec, name).None? && !SecuritySchemeItem(spec, Ref(SchemeReference(name))).Diverged?
    ensures ValidateScheme(spec, name, scopes, c, at) == ValidateScheme(spec, name, [], c, at)
  {
  }

  /** With no scope asked for, an OAuth2 scheme marks no scope used and reports none. */
  lemma NoScopesNoChecks(spec: Spec, name: string, c: Context, at: string, scope: string)
    requires ScopeKey(SchemeReference(name), scope) !in c.visited
    requires SchemeReference(name) != ScopeKey(SchemeReference(name), scope)
    ensures ScopeKey(SchemeReference(name), scope) !in ValidateScheme(spec, name, [], c, at).visited
  {
    var reference := SchemeReference(name);
    var lookup := (s: string) => Resolve(ComponentsOf(spec).securitySchemes, SecuritySchemesPrefix, s);
    var r := ValidateScheme(spec, name, [], c, at);
    assert r == ValidateRefOr(Ref(reference), lookup, c, at, NoChecks);
    var step := FollowRef(c, at, reference, GetItem(Ref(reference), lookup));
    assert r == step.ctx;
  }
}
