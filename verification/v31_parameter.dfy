/**
 * The Parameter Object of OpenAPI 3.1, in its four locations. Each checks
 * its name, then that an inline example and a map of examples are not both
 * given, then that a schema and a content map are not both given; a path
 * parameter must also be required. Nothing below a parameter is descended
 * into: its schema, examples and media types are not validated from here.
 * The exclusion pair is shared with the Header Object.
 */
module V31Parameter {
  import opened Wrappers
  import opened Strings
  import opened Validation
  import opened Helpers
  import opened Rules
  import opened Locality
  import opened Reference
  import opened RefValidation
  import opened V31Types
  import opened V31Resolve
  import V30Resolve

  function ExampleClashMessage(path: string): string
  {
    path + ": " + "example and examples are mutually exclusive"
  }

  function SchemaClashMessage(path: string): string
  {
    path + ": " + "schema and content are mutually exclusive"
  }

  /** The message continues the path with the parameter's name. */
  function RequiredMessage(path: string, name: string): string
  {
    path + ("." + name + ": must be required")
  }

  function NameMessage(path: string): string
  {
    path + ".name" + ": " + "must not be empty"
  }

  /** The two exclusions, in order: example against examples, then schema against content. */
  function Exclusions(exampleBoth: bool, schemaBoth: bool, path: string): (e: seq<string>)
    ensures ExampleClashMessage(path) in e <==> exampleBoth
    ensures SchemaClashMessage(path) in e <==> schemaBoth
    ensures |e| <= 2 && AllAt(e, path)
  {
    ClashMessagesDistinct(path);
    AllAtMessage(path, "example and examples are mutually exclusive");
    AllAtMessage(path, "schema and content are mutually exclusive");
    (if exampleBoth then [ExampleClashMessage(path)] else [])
    + (if schemaBoth then [SchemaClashMessage(path)] else [])
  }

  lemma ClashMessagesDistinct(path: string)
    ensures ExampleClashMessage(path) != SchemaClashMessage(path)
  {
    assert |ExampleClashMessage(path)| != |SchemaClashMessage(path)|;
  }

  /** `must_be_required`: only a flag that is present and true passes. */
  function MustBeRequired(flag: Option<bool>, path: string, name: string): (e: seq<string>)
    ensures e == [] <==> flag == Some(true)
    ensures e != [] ==> e == [RequiredMessage(path, name)]
  {
    if !(flag.Some? && flag.value) then [RequiredMessage(path, name)] else []
  }

  /** A path parameter hands its plain flag to `must_be_required`; the others skip the test. */
  function RequiredErrors(p: Parameter, path: string): (e: seq<string>)
    ensures e == [] <==> !p.InPath? || p.required
  {
    if p.InPath? then MustBeRequired(Some(p.required), path, p.body.name) else []
  }

  /**
   * The messages of one parameter, in the order the checks run: the name,
   * the required flag (path parameters only), the two exclusions.
   */
  function ParameterErrors(p: Parameter, path: string): (e: seq<string>)
    ensures |e| <= 4 && AllAt(e, path)
  {
    var b := p.body;
    var n := RequiredString(b.name, path + ".name");
    var q := RequiredErrors(p, path);
    var x := Exclusions(b.example.Some? && b.examples.Some?, b.schema.Some? && b.content.Some?, path);
    AllAtNarrow(n, path, ".name");
    StartsWithConcat(path, "." + b.name + ": must be required");
    AllAtConcat(n, q, path);
    AllAtConcat(n + q, x, path);
    n + q + x
  }

  /** Each message is reported exactly when its rule is broken. */
  lemma ParameterReports(p: Parameter, path: string)
    ensures NameMessage(path) in ParameterErrors(p, path) <==> p.body.name == ""
    ensures RequiredMessage(path, p.body.name) in ParameterErrors(p, path) <==> p.InPath? && !p.required
    ensures ExampleClashMessage(path) in ParameterErrors(p, path) <==> p.body.example.Some? && p.body.examples.Some?
    ensures SchemaClashMessage(path) in ParameterErrors(p, path) <==> p.body.schema.Some? && p.body.content.Some?
  {
    var b := p.body;
    var n := RequiredString(b.name, path + ".name");
    var q := RequiredErrors(p, path);
    var x := Exclusions(b.example.Some? && b.examples.Some?, b.schema.Some? && b.content.Some?, path);
    assert ParameterErrors(p, path) == n + q + x;
    assert n == (if b.name == "" then [NameMessage(path)] else []);
    assert q == (if p.InPath? && !p.required then [RequiredMessage(path, b.name)] else []);
    MessagesDistinct(path, b.name);
    assert forall m :: m in x ==> m == ExampleClashMessage(path) || m == SchemaClashMessage(path);
  }

  /** The four kinds of message never coincide. */
  lemma MessagesDistinct(path: string, name: string)
    ensures NameMessage(path) != RequiredMessage(path, name)
    ensures NameMessage(path) != ExampleClashMessage(path) && NameMessage(path) != SchemaClashMessage(path)
    ensures RequiredMessage(path, name) != ExampleClashMessage(path)
    ensures RequiredMessage(path, name) != SchemaClashMessage(path)
  {
    var a := NameMessage(path);
    var b := RequiredMessage(path, name);
    assert a[|a| - 1] == 'y' && b[|b| - 1] == 'd';
    assert a[|path|] == '.' && b[|path|] == '.';
    assert ExampleClashMessage(path)[|path|] == ':' && SchemaClashMessage(path)[|path|] == ':';
  }

  /** `Parameter::validate_with_context`: the messages appended, nothing visited. */
  function ValidateParameter(p: Parameter, c: Context, path: string): (r: Context)
    ensures r == c.(errors := c.errors + ParameterErrors(p, path))
    ensures Extends(c, r) && Localized(c, r, path)
  {
    Appended(c, c.(errors := c.errors + ParameterErrors(p, path)), ParameterErrors(p, path), path);
    c.(errors := c.errors + ParameterErrors(p, path))
  }

  /** Outside the path, the `required` field is never read: the location and the flag change nothing. */
  lemma RequiredOnlyInPath(b: ParameterBody, f: Option<bool>, g: Option<bool>, path: string)
    ensures ParameterErrors(InQuery(b, f), path) == ParameterErrors(InHeader(b, g), path)
    ensures ParameterErrors(InHeader(b, f), path) == ParameterErrors(InCookie(b, g), path)
    ensures ParameterErrors(InQuery(b, f), path) == ParameterErrors(InQuery(b, g), path)
  {
  }

  /** A required path parameter reports exactly what the same parameter does anywhere else. */
  lemma RequiredPathLikeQuery(b: ParameterBody, f: Option<bool>, path: string)
    ensures ParameterErrors(InPath(b, true), path) == ParameterErrors(InQuery(b, f), path)
    ensures ParameterErrors(InPath(b, false), path)
         == ParameterErrors(InQuery(b, f), path)[..|RequiredString(b.name, path + ".name")|]
            + [RequiredMessage(path, b.name)]
            + ParameterErrors(InQuery(b, f), path)[|RequiredString(b.name, path + ".name")|..]
  {
  }

  /** `RefOr<Parameter>::validate_with_context`, through `#/components/parameters/`. */
  function ValidateParameterRef(spec: Spec, x: RefOr<Parameter>, c: Context, path: string): (r: Context)
    ensures Extends(c, r) && Localized(c, r, path)
    ensures x.Item? ==> r == c.(errors := c.errors + ParameterErrors(x.item, path))
    ensures x.Ref? ==> x.reference in r.visited
  {
    ValidateRefOr(x, (s: string) => V30Resolve.Resolve(ComponentsOf(spec).parameters, V30Resolve.ParametersPrefix, s), c, path,
                  ValidateParameter)
  }
}
