/**
 * `Validate for Spec` of OpenAPI 3.0: the info at `#.info`, the servers at
 * `#.servers[i]`, a pass that registers every operationId before any path
 * is looked at, the paths (each key must start with `/`), the components,
 * the external docs, and last the tags nothing used, in that order.
 *
 * The source hands the components the path `{}.components`, a format
 * string that was never formatted, so the component rules report outside
 * `#`. `ValidateSpecAsWritten` keeps that path and is what `Validate`
 * runs; `ValidateSpecIntended` uses `#.components`, where every other error
 * of the document is rooted.
 */
module V30Spec {
  import opened Wrappers
  import opened Strings
  import opened SortedMap
  import opened Validation
  import opened Helpers
  import opened Rules
  import opened Locality
  import opened Reference
  import opened RefValidation
  import opened Unused
  import opened Each
  import opened V30Types
  import opened V30Resolve
  import opened V30Server
  import opened V30Operation
  import opened V30Components
  import V2Info
  import V2ExternalDocs
  import V2Operation
  import V2Spec

  const ComponentsPathAsWritten := "{}.components"
  const ComponentsPath := "#.components"

  /** The info at `#.info`, then the servers at `#.servers[i]`. */
  function Preamble(spec: Spec, c: Context): (r: Context)
    ensures Extends(c, r) && Localized(c, r, "#")
    ensures r.visited == c.visited
  {
    var c1 := V2Info.ValidateInfo(spec.info, c, "#" + ".info");
    V2Spec.BelowRoot(c, c1, V2Info.InfoErrors(spec.info, c.options, "#" + ".info"), ".info");
    var r := EachItem(spec.servers, 0, c1, "#", "servers", (s: Server, c0: Context, at: string) => ValidateServer(s, c0, at));
    assert r.visited == c1.visited by { ServersVisitNothing(spec.servers, 0, c1); }
    Chain(c, c1, r, "#");
    r
  }

  /** Servers mark nothing as visited. */
  lemma {:induction false} ServersVisitNothing(servers: seq<Server>, i: nat, c: Context)
    requires i <= |servers|
    ensures EachItem(servers, i, c, "#", "servers", (s: Server, c0: Context, at: string) => ValidateServer(s, c0, at)).visited == c.visited
    decreases |servers| - i
  {
    if i < |servers| {
      var c1 := ValidateServer(servers[i], c, IndexPath("#", "servers", i));
      assert c1.visited == c.visited;
      ServersVisitNothing(servers, i + 1, c1);
      assert EachItem(servers, i, c, "#", "servers", (s: Server, c0: Context, at: string) => ValidateServer(s, c0, at))
          == EachItem(servers, i + 1, c1, "#", "servers", (s: Server, c0: Context, at: string) => ValidateServer(s, c0, at));
    }
  }

  /** One operation that carries an operationId: the path it is under, its method, the id. */
  datatype IdUse = IdUse(name: string, verb: string, id: string)

  /** The operationIds of one path item's operations, in method order. */
  function ItemIds(name: string, ops: Entries<Operation>): (r: seq<IdUse>)
    ensures forall u :: u in r <==>
      u.name == name && exists j :: 0 <= j < |ops| && ops[j].0 == u.verb && ops[j].1.operationId == Some(u.id)
  {
    if ops == [] then []
    else
      var rest := ItemIds(name, ops[1..]);
      assert forall j :: 1 <= j < |ops| ==> ops[j] == ops[1..][j - 1];
      (if ops[0].1.operationId.Some? then [IdUse(name, ops[0].0, ops[0].1.operationId.value)] else []) + rest
  }

  /** The operationIds of the whole document, path by path in key order. */
  function PathIds(paths: Entries<PathItem>): (r: seq<IdUse>)
    ensures forall u :: u in r <==> exists i :: 0 <= i < |paths| && u in ItemIds(paths[i].0, paths[i].1.operations)
  {
    if paths == [] then []
    else
      var rest := PathIds(paths[1..]);
      assert forall i :: 1 <= i < |paths| ==> paths[i] == paths[1..][i - 1];
      ItemIds(paths[0].0, paths[0].1.operations) + rest
  }

  function DuplicateIdMessage(u: IdUse): string
  {
    "#" + (".paths[" + u.name + "]." + u.verb + ".operationId: `" + u.id + "` already in use")
  }

  /** Register one operationId; a taken one is reported at the document root. */
  function RegisterId(u: IdUse, c: Context): (r: Context)
    ensures Extends(c, r) && Localized(c, r, "#")
    ensures r.visited == c.visited + {OperationKey(u.id)}
    ensures OperationKey(u.id) !in c.visited ==> r.errors == c.errors
    ensures OperationKey(u.id) in c.visited ==> r.errors == c.errors + [DuplicateIdMessage(u)]
  {
    var (isNew, c1) := Visit(c, OperationKey(u.id));
    if isNew then c1
    else
      var msg := ".paths[" + u.name + "]." + u.verb + ".operationId: `" + u.id + "` already in use";
      Pushed(c1, "#", msg);
      assert Message("#", msg) == DuplicateIdMessage(u);
      PushError(c1, "#", msg)
  }

  /** The operationIds from the `i`-th on. */
  function RegisterIds(uses: seq<IdUse>, i: nat, c: Context): (r: Context)
    requires i <= |uses|
    ensures Extends(c, r) && Localized(c, r, "#")
    ensures r.visited == c.visited + set k | i <= k < |uses| :: OperationKey(uses[k].id)
    decreases |uses| - i
  {
    if i == |uses| then c
    else
      var c1 := RegisterId(uses[i], c);
      var r := RegisterIds(uses, i + 1, c1);
      Chain(c, c1, r, "#");
      r
  }

  /**
   * An operationId that was taken before its turn, by the context or by an
   * earlier operation, is reported as already in use.
   */
  lemma {:induction false} TakenIdReported(uses: seq<IdUse>, i: nat, c: Context, k: nat)
    requires i <= k < |uses|
    requires OperationKey(uses[k].id) in c.visited || exists j :: i <= j < k && uses[j].id == uses[k].id
    ensures DuplicateIdMessage(uses[k]) in Added(c, RegisterIds(uses, i, c))
    decreases |uses| - i
  {
    var c1 := RegisterId(uses[i], c);
    var r := RegisterIds(uses, i + 1, c1);
    if k == i {
      assert c1.errors[|c.errors|] == DuplicateIdMessage(uses[k]);
      AddedFirst(c, c1, r, DuplicateIdMessage(uses[k]));
    } else {
      TakenIdReported(uses, i + 1, c1, k);
      AddedLater(c, c1, r, DuplicateIdMessage(uses[k]));
    }
  }

  /** Distinct operationIds that nothing took before report nothing. */
  lemma {:induction false} DistinctIdsSilent(uses: seq<IdUse>, i: nat, c: Context)
    requires i <= |uses|
    requires forall k :: i <= k < |uses| ==> OperationKey(uses[k].id) !in c.visited
    requires forall j, k :: i <= j < k < |uses| ==> uses[j].id != uses[k].id
    ensures RegisterIds(uses, i, c).errors == c.errors
    decreases |uses| - i
  {
    if i < |uses| {
      var c1 := RegisterId(uses[i], c);
      forall k | i + 1 <= k < |uses| ensures OperationKey(uses[k].id) !in c1.visited {
        assert OperationKey(uses[k].id) != OperationKey(uses[i].id) by {
          assert uses[k].id == OperationKey(uses[k].id)[|"#/paths/operations/"|..];
          assert uses[i].id == OperationKey(uses[i].id)[|"#/paths/operations/"|..];
        }
      }
      DistinctIdsSilent(uses, i + 1, c1);
    }
  }

  /** One path: the key rule, then the item at `#.paths[name]`. */
  function ValidatePath(spec: Spec, name: string, item: PathItem, c: Context, fuel: nat): (r: Context)
    ensures Extends(c, r) && Localized(c, r, "#")
    ensures !StartsWith(name, "/") ==> |r.errors| > |c.errors| && r.errors[|c.errors|] == V2Spec.PathKeyMessage(name)
  {
    var c1 := V2Spec.CheckPathKey(name, c);
    var r := ValidatePathItem(spec, item, c1, V2Spec.PathKey(name), fuel);
    BothBelow(c, c1, r, "#", ".paths[" + name + "]");
    if StartsWith(name, "/") then r
    else
      FirstKept(c, c1, r);
      r
  }

  /** The paths from the `i`-th on, in key order. */
  function PathsPass(spec: Spec, i: nat, c: Context, fuel: nat): (r: Context)
    requires i <= |spec.paths|
    ensures Extends(c, r) && Localized(c, r, "#")
    decreases |spec.paths| - i
  {
    if i == |spec.paths| then c
    else
      var c1 := ValidatePath(spec, spec.paths[i].0, spec.paths[i].1, c, fuel);
      var r := PathsPass(spec, i + 1, c1, fuel);
      Chain(c, c1, r, "#");
      r
  }

  /** Every path whose key does not start with `/` is reported. */
  lemma {:induction false} PathKeyInPass(spec: Spec, i: nat, c: Context, fuel: nat, k: nat)
    requires i <= k < |spec.paths| && !StartsWith(spec.paths[k].0, "/")
    ensures V2Spec.PathKeyMessage(spec.paths[k].0) in Added(c, PathsPass(spec, i, c, fuel))
    decreases |spec.paths| - i
  {
    var c1 := ValidatePath(spec, spec.paths[i].0, spec.paths[i].1, c, fuel);
    var r := PathsPass(spec, i + 1, c1, fuel);
    if k == i {
      AddedFirst(c, c1, r, V2Spec.PathKeyMessage(spec.paths[k].0));
    } else {
      PathKeyInPass(spec, i + 1, c1, fuel, k);
      AddedLater(c, c1, r, V2Spec.PathKeyMessage(spec.paths[k].0));
    }
  }

  /** Everything before the components: preamble, operationIds, paths. */
  function Traverse(spec: Spec, c: Context, fuel: nat): (r: Context)
    ensures Extends(c, r) && Localized(c, r, "#")
    ensures forall u :: u in PathIds(spec.paths) ==> OperationKey(u.id) in r.visited
  {
    var c1 := Preamble(spec, c);
    var uses := PathIds(spec.paths);
    var c2 := RegisterIds(uses, 0, c1);
    assert forall u :: u in uses ==> OperationKey(u.id) in c2.visited;
    var r := PathsPass(spec, 0, c2, fuel);
    Chain(c, c1, c2, "#");
    Chain(c, c2, r, "#");
    r
  }

  /** Errors below a path that starts with `#` are below `#`. */
  lemma Rooted(c: Context, r: Context, at: string)
    requires Localized(c, r, at) && StartsWith(at, "#")
    ensures Localized(c, r, "#")
  {
    forall i | |c.errors| <= i < |r.errors| && StartsWith(r.errors[i], at)
      ensures StartsWith(r.errors[i], "#")
    {
      StartsWithChain(r.errors[i], at, "#");
    }
  }

  /** The components at `at`, when the document has them. */
  function ComponentsStep(spec: Spec, c: Context, at: string, fuel: nat): (r: Context)
    ensures Extends(c, r) && Localized(c, r, at)
    ensures StartsWith(at, "#") ==> Localized(c, r, "#")
    ensures spec.components.None? ==> r == c
  {
    if spec.components.Some? then
      var r := ValidateComponents(spec, spec.components.value, c, at, fuel);
      if StartsWith(at, "#") then
        Rooted(c, r, at);
        r
      else r
    else
      Unchanged(c, c, at);
      c
  }

  /** The external docs at `#.externalDocs`. */
  function DocsStep(spec: Spec, c: Context): (r: Context)
    ensures Extends(c, r) && Localized(c, r, "#") && r.visited == c.visited
  {
    if spec.externalDocs.Some? then
      var r := V2ExternalDocs.ValidateExternalDocs(spec.externalDocs.value, c, "#" + ".externalDocs");
      V2Spec.BelowRoot(c, r, V2ExternalDocs.ExternalDocsErrors(spec.externalDocs.value, c.options, "#" + ".externalDocs"), ".externalDocs");
      r
    else
      Unchanged(c, c, "#");
      c
  }

  /** The components at `at`, then the external docs. */
  function AfterPaths(spec: Spec, c: Context, at: string, fuel: nat): (r: Context)
    ensures Extends(c, r)
    ensures StartsWith(at, "#") ==> Localized(c, r, "#")
  {
    var c1 := ComponentsStep(spec, c, at, fuel);
    var r := DocsStep(spec, c1);
    if StartsWith(at, "#") then
      Chain(c, c1, r, "#");
      r
    else r
  }

  /** Everything before the tags, with the components at `at`. */
  function BeforeTags(spec: Spec, c: Context, at: string, fuel: nat): (r: Context)
    ensures Extends(c, r)
    ensures StartsWith(at, "#") ==> Localized(c, r, "#")
  {
    var c1 := Traverse(spec, c, fuel);
    var r := AfterPaths(spec, c1, at, fuel);
    if StartsWith(at, "#") then
      Chain(c, c1, r, "#");
      r
    else r
  }

  /** The declared tags nothing used, each validated at `#/tags/name`. */
  function TagsPass(spec: Spec, c: Context): (r: Context)
    ensures Extends(c, r) && Localized(c, r, "#")
  {
    var r := UnusedPass(V2Spec.TagEntries(spec.tags), 0, V2Operation.TagKeyPrefix, IgnoreUnusedTags, c, V2Spec.TagValidator());
    StartsWithConcat("#", "/");
    AtReference(c, r, Internal, "#");
    r
  }

  /** The whole pass, with the components at `at`. */
  function ValidateSpecAt(spec: Spec, c: Context, at: string, fuel: nat): (r: Context)
    ensures Extends(c, r)
    ensures StartsWith(at, "#") ==> Localized(c, r, "#")
  {
    var c1 := BeforeTags(spec, c, at, fuel);
    var r := TagsPass(spec, c1);
    if StartsWith(at, "#") then
      Chain(c, c1, r, "#");
      r
    else r
  }

  /** The pass as the source runs it, with the components at `{}.components`. */
  function ValidateSpecAsWritten(spec: Spec, c: Context, fuel: nat): (r: Context)
    ensures Extends(c, r)
  {
    ValidateSpecAt(spec, c, ComponentsPathAsWritten, fuel)
  }

  /** The pass with the components at `#.components`: every error is rooted at the document. */
  function ValidateSpecIntended(spec: Spec, c: Context, fuel: nat): (r: Context)
    ensures Extends(c, r) && Localized(c, r, "#")
  {
    StartsWithConcat("#", ".components");
    ValidateSpecAt(spec, c, ComponentsPath, fuel)
  }

  /**
   * `Spec::validate`: a fresh context, and Ok exactly when it collected no
   * error. There is no verdict (`None`) when the traversal was cut: on a
   * cyclic reference the source never returns.
   */
  function Validate(spec: Spec, options: set<Options>, regex: map<string, string>, fuel: nat)
    : (r: Option<Result<(), Validation.Error>>)
    ensures r.None? <==> ValidateSpecAsWritten(spec, NewContext(options, regex), fuel).cut
    ensures r.Some? ==> (r.value.Ok? <==> ValidateSpecAsWritten(spec, NewContext(options, regex), fuel).errors == [])
    ensures r.Some? && r.value.Err? ==> r.value.error.errors == ValidateSpecAsWritten(spec, NewContext(options, regex), fuel).errors
  {
    var c := ValidateSpecAsWritten(spec, NewContext(options, regex), fuel);
    if c.cut then None else Some(IntoResult(c))
  }

  /** `Validate` with the components at `#.components`: every error it reports is rooted at `#`. */
  function ValidateIntended(spec: Spec, options: set<Options>, regex: map<string, string>, fuel: nat)
    : (r: Option<Result<(), Validation.Error>>)
    ensures r.None? <==> ValidateSpecIntended(spec, NewContext(options, regex), fuel).cut
    ensures r.Some? ==> (r.value.Ok? <==> ValidateSpecIntended(spec, NewContext(options, regex), fuel).errors == [])
    ensures r.Some? && r.value.Err? ==> forall i :: 0 <= i < |r.value.error.errors| ==> StartsWith(r.value.error.errors[i], "#")
  {
    var c := ValidateSpecIntended(spec, NewContext(options, regex), fuel);
    RootedErrors(NewContext(options, regex), c);
    if c.cut then None else Some(IntoResult(c))
  }

  /** What the traversal reported, the whole pass reports. */
  lemma TraversalKept(spec: Spec, c: Context, at: string, fuel: nat, m: string)
    requires m in Added(c, Traverse(spec, c, fuel))
    ensures m in Added(c, ValidateSpecAt(spec, c, at, fuel))
  {
    var t := Traverse(spec, c, fuel);
    var b := BeforeTags(spec, c, at, fuel);
    assert b == AfterPaths(spec, t, at, fuel);
    AddedEarlier(c, t, b, m);
    AddedEarlier(c, b, ValidateSpecAt(spec, c, at, fuel), m);
  }

  /** A path key without the leading `/` is reported, at `#.paths[name]`. */
  lemma PathKeyReported(spec: Spec, c: Context, fuel: nat, k: nat)
    requires k < |spec.paths| && !StartsWith(spec.paths[k].0, "/")
    ensures V2Spec.PathKeyMessage(spec.paths[k].0) in Added(c, ValidateSpecAsWritten(spec, c, fuel))
  {
    var m := V2Spec.PathKeyMessage(spec.paths[k].0);
    var c1 := Preamble(spec, c);
    var c2 := RegisterIds(PathIds(spec.paths), 0, c1);
    PathKeyInPass(spec, 0, c2, fuel, k);
    AddedLater(c, c2, PathsPass(spec, 0, c2, fuel), m);
    TraversalKept(spec, c, ComponentsPathAsWritten, fuel, m);
  }

  /**
   * The second of two operations that share an operationId is reported as
   * already in use, whatever paths and methods the two are under.
   */
  lemma DuplicateIdReported(spec: Spec, c: Context, fuel: nat, j: nat, k: nat)
    requires j < k < |PathIds(spec.paths)| && PathIds(spec.paths)[j].id == PathIds(spec.paths)[k].id
    ensures DuplicateIdMessage(PathIds(spec.paths)[k]) in Added(c, ValidateSpecAsWritten(spec, c, fuel))
  {
    var uses := PathIds(spec.paths);
    var m := DuplicateIdMessage(uses[k]);
    var c1 := Preamble(spec, c);
    TakenIdReported(uses, 0, c1, k);
    var c2 := RegisterIds(uses, 0, c1);
    AddedLater(c, c1, c2, m);
    AddedEarlier(c, c2, PathsPass(spec, 0, c2, fuel), m);
    TraversalKept(spec, c, ComponentsPathAsWritten, fuel, m);
  }

  /**
   * A declared tag that nothing visited before the tags pass, and that no
   * earlier tag shares a name with, is reported unused by it while the rule
   * is on.
   */
  lemma TagsPassReports(spec: Spec, c: Context, k: nat)
    requires k < |spec.tags| && RuleActive(c.options, IgnoreUnusedTags)
    requires V2Operation.TagKeyPrefix + spec.tags[k].name !in c.visited
    requires forall j :: 0 <= j < k ==> spec.tags[j].name != spec.tags[k].name
    ensures UnusedMessage(V2Operation.TagKeyPrefix + spec.tags[k].name) in Added(c, TagsPass(spec, c))
  {
    StartsWithConcat("#", "/tags/");
    assert V2Operation.TagKeyPrefix == "#" + "/tags/";
    UnvisitedReported(V2Spec.TagEntries(spec.tags), 0, V2Operation.TagKeyPrefix, IgnoreUnusedTags, c, V2Spec.TagValidator(), k);
  }

  /** The same, for the whole pass. */
  lemma UnusedTagReported(spec: Spec, c: Context, fuel: nat, k: nat)
    requires k < |spec.tags| && RuleActive(c.options, IgnoreUnusedTags)
    requires V2Operation.TagKeyPrefix + spec.tags[k].name !in BeforeTags(spec, c, ComponentsPathAsWritten, fuel).visited
    requires forall j :: 0 <= j < k ==> spec.tags[j].name != spec.tags[k].name
    ensures UnusedMessage(V2Operation.TagKeyPrefix + spec.tags[k].name) in Added(c, ValidateSpecAsWritten(spec, c, fuel))
  {
    var b := BeforeTags(spec, c, ComponentsPathAsWritten, fuel);
    TagsPassReports(spec, b, k);
    AddedLater(c, b, TagsPass(spec, b), UnusedMessage(V2Operation.TagKeyPrefix + spec.tags[k].name));
  }

  /** Whatever the components leave behind, the rest of the pass only extends. */
  lemma ComponentsThenRest(spec: Spec, c: Context, at: string, fuel: nat)
    requires spec.components.Some?
    ensures Extends(ValidateComponents(spec, spec.components.value, Traverse(spec, c, fuel), at, fuel),
                    ValidateSpecAt(spec, c, at, fuel))
  {
    var t := Traverse(spec, c, fuel);
    assert AfterPaths(spec, t, at, fuel) == DocsStep(spec, ComponentsStep(spec, t, at, fuel));
  }

  /** A schema with a name outside the component-name pattern is reported, at `at.schemas[<name>]`. */
  lemma BadSchemaNameReported(spec: Spec, c: Context, at: string, fuel: nat, k: nat)
    requires spec.components.Some? && k < |spec.components.value.schemas|
    requires !PatternMatches(ComponentName, spec.components.value.schemas[k].0)
    ensures NameMessage(at, "schemas", spec.components.value.schemas[k].0) in Added(c, ValidateSpecAt(spec, c, at, fuel))
  {
    var comp := spec.components.value;
    var m := NameMessage(at, "schemas", comp.schemas[k].0);
    var t := Traverse(spec, c, fuel);
    PrefixesInternal();
    BadNameReported(comp.schemas, 0, SchemasPrefix, "schemas", IgnoreUnusedSchemas, t, at, SchemaValidator(spec, fuel), k);
    var p := SchemasPass(spec, comp, t, at, fuel);
    var v := ValidateComponents(spec, comp, t, at, fuel);
    var r := ValidateSpecAt(spec, c, at, fuel);
    SchemasFirst(spec, comp, t, at, fuel);
    ComponentsThenRest(spec, c, at, fuel);
    AddedEarlier(t, p, v, m);
    AddedEarlier(t, v, r, m);
    AddedLater(c, t, r, m);
  }

  lemma AsWrittenUnrooted()
    ensures |ComponentsPathAsWritten| > 0 && !StartsWith(ComponentsPathAsWritten, "#")
  {
    assert ComponentsPathAsWritten[0] == '{';
  }

  /**
   * As written, a badly named schema is reported under `{}.components`, so
   * the document's errors are no longer all rooted at `#`.
   */
  lemma ComponentNameOutsideRoot(spec: Spec, c: Context, fuel: nat, k: nat)
    requires spec.components.Some? && k < |spec.components.value.schemas|
    requires !PatternMatches(ComponentName, spec.components.value.schemas[k].0)
    ensures exists m :: m in Added(c, ValidateSpecAsWritten(spec, c, fuel)) && !StartsWith(m, "#")
  {
    var m := NameMessage(ComponentsPathAsWritten, "schemas", spec.components.value.schemas[k].0);
    BadSchemaNameReported(spec, c, ComponentsPathAsWritten, fuel, k);
    AsWrittenUnrooted();
    NameMessageUnrooted(ComponentsPathAsWritten, "schemas", spec.components.value.schemas[k].0);
    assert m in Added(c, ValidateSpecAsWritten(spec, c, fuel)) && !StartsWith(m, "#");
  }

  /** With the components at `#.components`, the same schema is reported under `#`. */
  lemma ComponentNameRooted(spec: Spec, c: Context, fuel: nat, k: nat)
    requires spec.components.Some? && k < |spec.components.value.schemas|
    requires !PatternMatches(ComponentName, spec.components.value.schemas[k].0)
    ensures NameMessage(ComponentsPath, "schemas", spec.components.value.schemas[k].0) in Added(c, ValidateSpecIntended(spec, c, fuel))
    ensures StartsWith(NameMessage(ComponentsPath, "schemas", spec.components.value.schemas[k].0), "#")
  {
    BadSchemaNameReported(spec, c, ComponentsPath, fuel, k);
    NameMessageAt(ComponentsPath, "schemas", spec.components.value.schemas[k].0);
    StartsWithConcat("#", ".components");
    StartsWithChain(NameMessage(ComponentsPath, "schemas", spec.components.value.schemas[k].0), ComponentsPath, "#");
  }

  /**
   * A schema that nothing referenced during the whole pass was reported
   * unused while the rule is on: its test ran before anything later could
   * visit it, and nothing earlier did.
   */
  lemma UnusedSchemaReported(spec: Spec, c: Context, fuel: nat, k: nat)
    requires spec.components.Some? && k < |spec.components.value.schemas|
    requires RuleActive(c.options, IgnoreUnusedSchemas)
    requires SchemasPrefix + spec.components.value.schemas[k].0 !in ValidateSpecAsWritten(spec, c, fuel).visited
    ensures UnusedMessage(SchemasPrefix + spec.components.value.schemas[k].0) in Added(c, ValidateSpecAsWritten(spec, c, fuel))
  {
    var comp := spec.components.value;
    var m := UnusedMessage(SchemasPrefix + comp.schemas[k].0);
    var t := Traverse(spec, c, fuel);
    var p := SchemasPass(spec, comp, t, ComponentsPathAsWritten, fuel);
    var v := ValidateComponents(spec, comp, t, ComponentsPathAsWritten, fuel);
    var r := ValidateSpecAt(spec, c, ComponentsPathAsWritten, fuel);
    SchemasFirst(spec, comp, t, ComponentsPathAsWritten, fuel);
    ComponentsThenRest(spec, c, ComponentsPathAsWritten, fuel);
    PrefixesInternal();
    UnvisitedComponentReported(comp.schemas, 0, SchemasPrefix, "schemas", IgnoreUnusedSchemas, t, ComponentsPathAsWritten,
                               SchemaValidator(spec, fuel), k);
    AddedEarlier(t, p, v, m);
    AddedEarlier(t, v, r, m);
    AddedLater(c, t, r, m);
  }
}
