/**
 * `Validate for Spec` of Swagger 2.0: the document-level pass. It checks
 * the info, the host pattern and the base path, traverses the paths (each
 * key must start with `/`), the external docs, and then reports as unused
 * the tags, definitions, parameters and responses nothing visited so far,
 * in that order, validating each of them on the way. The security
 * definitions are never validated by this pass.
 */
module V2Spec {
  import opened Wrappers
  import opened Strings
  import opened SortedMap
  import opened Validation
  import opened Helpers
  import opened Rules
  import opened Locality
  import opened Reference
  import opened RefValidation
  import opened Unused
  import opened V2Types
  import opened V2Resolve
  import opened V2ExternalDocs
  import opened V2Info
  import opened V2Tag
  import opened V2Schema
  import opened V2Parameter
  import opened V2Response
  import opened V2Operation
  import opened V2PathItem

  /** The only version the document accepts is `2.0`; see `Versions.ParseV2`. */

  /** The host must match the host pattern when present. */
  function HostErrors(host: Option<string>, path: string): (e: seq<string>)
    ensures e == [] <==> host.None? || PatternMatches(Host, host.value)
    ensures e != [] ==> e == [path + ": " + ("must match pattern `" + PatternText(Host) + "`, found `" + host.value + "`")]
    ensures AllAt(e, path)
  {
    if host.None? || PatternMatches(Host, host.value) then []
    else
      AllAtMessage(path, "must match pattern `" + PatternText(Host) + "`, found `" + host.value + "`");
      [path + ": " + ("must match pattern `" + PatternText(Host) + "`, found `" + host.value + "`")]
  }

  function BasePathMessage(basePath: string, path: string): string
  {
    path + ": " + ("must start with `/`, found `" + basePath + "`")
  }

  /** The base path must start with `/` when present. */
  function BasePathErrors(basePath: Option<string>, path: string): (e: seq<string>)
    ensures e == [] <==> basePath.None? || StartsWith(basePath.value, "/")
    ensures e != [] ==> e == [BasePathMessage(basePath.value, path)]
    ensures AllAt(e, path)
  {
    if basePath.None? || StartsWith(basePath.value, "/") then []
    else
      AllAtMessage(path, "must start with `/`, found `" + basePath.value + "`");
      [BasePathMessage(basePath.value, path)]
  }

  /** A step that appends errors all below `#` + `suffix` reports below `#`. */
  lemma BelowRoot(c: Context, r: Context, e: seq<string>, suffix: string)
    requires r == c.(errors := c.errors + e) && AllAt(e, "#" + suffix)
    ensures Extends(c, r) && Localized(c, r, "#")
  {
    AllAtNarrow(e, "#", suffix);
    Appended(c, r, e, "#");
  }

  /** Info at `#.info`, then the host at `#.host`, then the base path at `#.basePath`. */
  function Preamble(spec: Spec, c: Context): (r: Context)
    ensures r.errors == c.errors + (InfoErrors(spec.info, c.options, "#" + ".info")
                                    + HostErrors(spec.host, "#" + ".host")
                                    + BasePathErrors(spec.basePath, "#" + ".basePath"))
    ensures r.visited == c.visited && r.options == c.options
    ensures Extends(c, r) && Localized(c, r, "#")
  {
    var i := InfoErrors(spec.info, c.options, "#" + ".info");
    var h := HostErrors(spec.host, "#" + ".host");
    var b := BasePathErrors(spec.basePath, "#" + ".basePath");
    var c1 := ValidateInfo(spec.info, c, "#" + ".info");
    var c2 := c1.(errors := c1.errors + h);
    var r := c2.(errors := c2.errors + b);
    BelowRoot(c, c1, i, ".info");
    BelowRoot(c1, c2, h, ".host");
    BelowRoot(c2, r, b, ".basePath");
    Then3(c, c1, c2, r, i, h, b);
    Chain(c, c1, c2, "#");
    Chain(c, c2, r, "#");
    r
  }

  function PathKey(name: string): string
  {
    "#" + (".paths[" + name + "]")
  }

  function PathKeyMessage(name: string): string
  {
    PathKey(name) + ": " + "must start with `/`"
  }

  /** The key rule of one path. */
  function CheckPathKey(name: string, c: Context): (r: Context)
    ensures Extends(c, r) && Localized(c, r, PathKey(name))
    ensures StartsWith(name, "/") ==> r == c
    ensures !StartsWith(name, "/") ==> r.errors == c.errors + [PathKeyMessage(name)]
  {
    if StartsWith(name, "/") then
      Unchanged(c, c, PathKey(name));
      c
    else
      Pushed(c, PathKey(name), "must start with `/`");
      PushError(c, PathKey(name), "must start with `/`")
  }

  /** One path: the key rule, then the item at `#.paths[name]`. */
  function ValidatePath(spec: Spec, name: string, item: PathItem, c: Context, fuel: nat): (r: Context)
    ensures Extends(c, r) && Localized(c, r, "#")
    ensures !StartsWith(name, "/") ==> |r.errors| > |c.errors| && r.errors[|c.errors|] == PathKeyMessage(name)
  {
    var c1 := CheckPathKey(name, c);
    var r := ValidatePathItem(spec, item, c1, PathKey(name), fuel);
    BothBelow(c, c1, r, "#", ".paths[" + name + "]");
    if StartsWith(name, "/") then r
    else
      FirstKept(c, c1, r);
      r
  }

  /** The paths from the `i`-th on, in key order. */
  function PathsPass(spec: Spec, i: nat, c: Context, fuel: nat): (r: Context)
    requires i <= |spec.paths|
    ensures Extends(c, r) && Localized(c, r, "#")
    decreases |spec.paths| - i
  {
    if i == |spec.paths| then c
    else
      var c1 := ValidatePath(spec, spec.paths[i].0, spec.paths[i].1, c, fuel);
      var r := PathsPass(spec, i + 1, c1, fuel);
      Chain(c, c1, r, "#");
      r
  }

  /** Everything before the unused passes: the preamble, the paths and the external docs. */
  function Traverse(spec: Spec, c: Context, fuel: nat): (r: Context)
    ensures Extends(c, r) && Localized(c, r, "#")
    ensures Extends(PathsPass(spec, 0, Preamble(spec, c), fuel), r)
  {
    var c1 := Preamble(spec, c);
    var c2 := PathsPass(spec, 0, c1, fuel);
    var r := if spec.externalDocs.Some? then ValidateExternalDocs(spec.externalDocs.value, c2, "#" + ".externalDocs") else c2;
    assert Localized(c2, r, "#") by {
      if spec.externalDocs.Some? {
        BelowRoot(c2, r, ExternalDocsErrors(spec.externalDocs.value, c2.options, "#" + ".externalDocs"), ".externalDocs");
      } else {
        Unchanged(c2, r, "#");
      }
    }
    Chain(c, c1, c2, "#");
    Chain(c, c2, r, "#");
    r
  }

  /** The declared tags keyed by name, in declaration order. */
  function TagEntries(tags: seq<Tag>): (r: seq<(string, Tag)>)
    ensures |r| == |tags| && forall i :: 0 <= i < |tags| ==> r[i] == (tags[i].name, tags[i])
  {
    seq(|tags|, i requires 0 <= i < |tags| => (tags[i].name, tags[i]))
  }

  function TagValidator(): (D: (Tag, Context, string) -> Context)
    ensures WellBehaved(D) && Visitless(D)
  {
    var v := (t: Tag, c: Context, p: string) => ValidateTag(t, c, p);
    assert forall t, c, p :: Localized(c, v(t, c, p), p) by {
      forall t, c, p ensures Localized(c, v(t, c, p), p) {
        Appended(c, v(t, c, p), TagErrors(t, c.options, p), p);
      }
    }
    v
  }

  function SchemaValidator(spec: Spec, fuel: nat): (D: (Schema, Context, string) -> Context)
    ensures WellBehaved(D)
  {
    (s: Schema, c: Context, p: string) => ValidateSchema(spec, s, c, p, fuel)
  }

  function ParameterValidator(spec: Spec, fuel: nat): (D: (Parameter, Context, string) -> Context)
    ensures WellBehaved(D)
  {
    (x: Parameter, c: Context, p: string) => ValidateParameter(spec, x, c, p, fuel)
  }

  function ResponseValidator(spec: Spec, fuel: nat): (D: (Response, Context, string) -> Context)
    ensures WellBehaved(D)
  {
    (x: Response, c: Context, p: string) => ValidateResponse(spec, x, c, p, fuel)
  }

  /** The unused passes: tags, definitions, parameters, responses. */
  function UnusedPasses(spec: Spec, c: Context, fuel: nat): (r: Context)
    ensures Extends(c, r) && Localized(c, r, Internal)
  {
    var c1 := UnusedPass(TagEntries(spec.tags), 0, TagKeyPrefix, IgnoreUnusedTags, c, TagValidator());
    var c2 := UnusedPass(spec.definitions, 0, DefinitionsPrefix, IgnoreUnusedSchemas, c1, SchemaValidator(spec, fuel));
    var c3 := UnusedPass(spec.parameters, 0, ParametersPrefix, IgnoreUnusedParameters, c2, ParameterValidator(spec, fuel));
    var r := UnusedPass(spec.responses, 0, ResponsesPrefix, IgnoreUnusedResponses, c3, ResponseValidator(spec, fuel));
    Chain(c, c1, c2, Internal);
    Chain(c, c2, c3, Internal);
    Chain(c, c3, r, Internal);
    r
  }

  /** The whole pass over a context. */
  function ValidateSpec(spec: Spec, c: Context, fuel: nat): (r: Context)
    ensures Extends(c, r) && Localized(c, r, "#")
  {
    var c1 := Traverse(spec, c, fuel);
    var r := UnusedPasses(spec, c1, fuel);
    StartsWithConcat("#", "/");
    AtReference(c1, r, Internal, "#");
    Chain(c, c1, r, "#");
    r
  }

  /**
   * `Spec::validate`: a fresh context, and Ok exactly when it collected no
   * error. There is no verdict (`None`) when the traversal was cut: on a
   * cyclic reference the source never returns.
   */
  function Validate(spec: Spec, options: set<Options>, regex: map<string, string>, fuel: nat)
    : (r: Option<Result<(), Validation.Error>>)
    ensures r.None? <==> ValidateSpec(spec, NewContext(options, regex), fuel).cut
    ensures r.Some? ==> (r.value.Ok? <==> ValidateSpec(spec, NewContext(options, regex), fuel).errors == [])
    ensures r.Some? && r.value.Err? ==> forall i :: 0 <= i < |r.value.error.errors| ==> StartsWith(r.value.error.errors[i], "#")
  {
    var c := ValidateSpec(spec, NewContext(options, regex), fuel);
    RootedErrors(NewContext(options, regex), c);
    if c.cut then None else Some(IntoResult(c))
  }

  /** A path key without the leading `/` is reported, at `#.paths[name]`. */
  lemma PathKeyReported(spec: Spec, c: Context, fuel: nat, k: nat)
    requires k < |spec.paths| && !StartsWith(spec.paths[k].0, "/")
    ensures PathKeyMessage(spec.paths[k].0) in Added(c, ValidateSpec(spec, c, fuel))
  {
    PathKeyTraversed(spec, c, fuel, k);
    TraversalKept(spec, c, fuel, PathKeyMessage(spec.paths[k].0));
  }

  lemma PathKeyTraversed(spec: Spec, c: Context, fuel: nat, k: nat)
    requires k < |spec.paths| && !StartsWith(spec.paths[k].0, "/")
    ensures PathKeyMessage(spec.paths[k].0) in Added(c, Traverse(spec, c, fuel))
  {
    var c1 := Preamble(spec, c);
    PathKeyInPass(spec, 0, c1, fuel, k);
    var c2 := PathsPass(spec, 0, c1, fuel);
    AddedLater(c, c1, c2, PathKeyMessage(spec.paths[k].0));
    AddedEarlier(c, c2, Traverse(spec, c, fuel), PathKeyMessage(spec.paths[k].0));
  }

  /** Whatever the traversal reports, the whole validation reports. */
  lemma TraversalKept(spec: Spec, c: Context, fuel: nat, m: string)
    requires m in Added(c, Traverse(spec, c, fuel))
    ensures m in Added(c, ValidateSpec(spec, c, fuel))
  {
    AddedEarlier(c, Traverse(spec, c, fuel), ValidateSpec(spec, c, fuel), m);
  }

  lemma {:induction false} PathKeyInPass(spec: Spec, i: nat, c: Context, fuel: nat, k: nat)
    requires i <= k < |spec.paths| && !StartsWith(spec.paths[k].0, "/")
    ensures PathKeyMessage(spec.paths[k].0) in Added(c, PathsPass(spec, i, c, fuel))
    decreases |spec.paths| - i
  {
    var c1 := ValidatePath(spec, spec.paths[i].0, spec.paths[i].1, c, fuel);
    var r := PathsPass(spec, i + 1, c1, fuel);
    if k == i {
      AddedFirst(c, c1, r, PathKeyMessage(spec.paths[k].0));
    } else {
      PathKeyInPass(spec, i + 1, c1, fuel, k);
      AddedLater(c, c1, r, PathKeyMessage(spec.paths[k].0));
    }
  }

  /** A base path without the leading `/` is reported, at `#.basePath`. */
  lemma BasePathReported(spec: Spec, c: Context, fuel: nat)
    requires spec.basePath.Some? && !StartsWith(spec.basePath.value, "/")
    ensures BasePathMessage(spec.basePath.value, "#" + ".basePath") in Added(c, ValidateSpec(spec, c, fuel))
  {
    var m := BasePathMessage(spec.basePath.value, "#" + ".basePath");
    BasePathTraversed(spec, c, fuel);
    TraversalKept(spec, c, fuel, m);
  }

  lemma BasePathTraversed(spec: Spec, c: Context, fuel: nat)
    requires spec.basePath.Some? && !StartsWith(spec.basePath.value, "/")
    ensures BasePathMessage(spec.basePath.value, "#" + ".basePath") in Added(c, Traverse(spec, c, fuel))
  {
    var m := BasePathMessage(spec.basePath.value, "#" + ".basePath");
    var c1 := Preamble(spec, c);
    assert c1.errors[|c1.errors| - 1] == m;
    assert Added(c, c1)[|Added(c, c1)| - 1] == m;
    AddedEarlier(c, c1, Traverse(spec, c, fuel), m);
  }

  /**
   * A declared tag that the traversal did not visit, and that no earlier tag
   * shares a name with, is reported unused while the rule is on.
   */
  lemma UnusedTagReported(spec: Spec, c: Context, fuel: nat, k: nat)
    requires k < |spec.tags| && RuleActive(c.options, IgnoreUnusedTags)
    requires TagKeyPrefix + spec.tags[k].name !in Traverse(spec, c, fuel).visited
    requires forall j :: 0 <= j < k ==> spec.tags[j].name != spec.tags[k].name
    ensures UnusedMessage(TagKeyPrefix + spec.tags[k].name) in Added(c, ValidateSpec(spec, c, fuel))
  {
    var c1 := Traverse(spec, c, fuel);
    var entries := TagEntries(spec.tags);
    UnvisitedReported(entries, 0, TagKeyPrefix, IgnoreUnusedTags, c1, TagValidator(), k);
    var t := UnusedPass(entries, 0, TagKeyPrefix, IgnoreUnusedTags, c1, TagValidator());
    var r := ValidateSpec(spec, c, fuel);
    AddedLater(c, c1, t, UnusedMessage(TagKeyPrefix + spec.tags[k].name));
    AddedEarlier(c, t, r, UnusedMessage(TagKeyPrefix + spec.tags[k].name));
  }
}
