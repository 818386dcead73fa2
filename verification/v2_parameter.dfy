/**
 * The Parameter Object of Swagger 2.0, dispatched on its `in` location.
 * A body parameter checks its name (at `path + "name"`, without a dot) and
 * its schema; the other locations run fixed rules: query, header and form
 * parameters need a name, path parameters must be required, path and
 * header parameters must not allow empty values, and only a header string
 * parameter has its pattern compiled.
 */
module V2Parameter {
  import opened Wrappers
  import opened Strings
  import opened Helpers
  import opened Rules
  import opened Locality
  import opened Reference
  import opened RefValidation
  import opened V2Types
  import opened V2Resolve
  import opened V2Schema

  /** The non-body parameter's fields; a body parameter has none of them. */
  function SimpleOf(p: Parameter): Simple
    requires !p.Body?
  {
    match p
    case Header(s) => s
    case Query(s) => s
    case Path(s) => s
    case FormData(s) => s
  }

  /** `must_be_required`: only an explicit `required: true` passes. */
  function MustBeRequired(required: Option<bool>, path: string, name: string): (e: seq<string>)
    ensures e == [] <==> required == Some(true)
    ensures AllAt(e, path)
  {
    if required == Some(true) then []
    else
      AllAtMessage(path, "." + name + ": must be required");
      assert path + "." + name + ": must be required" == path + ("." + name + ": must be required");
      [path + "." + name + ": must be required"]
  }

  /** `must_not_allow_empty_value`: only an explicit `allowEmptyValue: true` fails. */
  function MustNotAllowEmptyValue(allowEmptyValue: Option<bool>, path: string, name: string): (e: seq<string>)
    ensures e == [] <==> allowEmptyValue != Some(true)
    ensures AllAt(e, path)
  {
    if allowEmptyValue != Some(true) then []
    else
      AllAtMessage(path, "." + name + ": must not allow empty value");
      assert path + "." + name + ": must not allow empty value" == path + ("." + name + ": must not allow empty value");
      [path + "." + name + ": must not allow empty value"]
  }

  /** What `validate_pattern` appends: the engine's complaint about an invalid pattern. */
  function PatternErrors(pattern: string, regex: map<string, string>, path: string): (e: seq<string>)
    ensures e == [] <==> pattern !in regex
    ensures AllAt(e, path)
  {
    if pattern !in regex then []
    else
      AllAtMessage(path, "pattern `" + pattern + "` is invalid: " + regex[pattern]);
      [path + ": " + ("pattern `" + pattern + "` is invalid: " + regex[pattern])]
  }

  /** The rules of each non-body location. */
  predicate NameChecked(p: Parameter)
  {
    p.Header? || p.Query? || p.FormData?
  }

  predicate PatternChecked(p: Parameter)
  {
    p.Header? && p.header.paramType == StringParam && p.header.pattern.Some?
  }

  predicate SimpleOk(p: Parameter, regex: map<string, string>)
    requires !p.Body?
  {
    var s := SimpleOf(p);
    (NameChecked(p) ==> s.name != "")
    && (p.Path? ==> s.required == Some(true))
    && (p.Path? || p.Header? ==> s.allowEmptyValue != Some(true))
    && (PatternChecked(p) ==> s.pattern.value !in regex)
  }

  /** The errors of a non-body parameter, in the order the rules run. */
  function SimpleErrors(p: Parameter, regex: map<string, string>, path: string): (e: seq<string>)
    requires !p.Body?
    ensures e == [] <==> SimpleOk(p, regex)
    ensures AllAt(e, path)
  {
    var s := SimpleOf(p);
    var name := if NameChecked(p) then RequiredString(s.name, path + ".name") else [];
    var required := if p.Path? then MustBeRequired(s.required, path, s.name) else [];
    var empty := if p.Path? || p.Header? then MustNotAllowEmptyValue(s.allowEmptyValue, path, s.name) else [];
    var pattern := if PatternChecked(p) then PatternErrors(s.pattern.value, regex, path + ".pattern") else [];
    AllAtNarrow(name, path, ".name");
    AllAtNarrow(pattern, path, ".pattern");
    AllAtConcat(name, required, path);
    AllAtConcat(name + required, empty, path);
    AllAtConcat(name + required + empty, pattern, path);
    name + required + empty + pattern
  }

  function ValidateSimple(p: Parameter, c: Context, path: string): (r: Context)
    requires !p.Body?
    ensures r == c.(errors := c.errors + SimpleErrors(p, c.regex, path))
    ensures Extends(c, r) && Localized(c, r, path)
  {
    var e := SimpleErrors(p, c.regex, path);
    Appended(c, c.(errors := c.errors + e), e, path);
    c.(errors := c.errors + e)
  }

  /** `InBody::validate_with_context`: the name at `path + "name"`, then the schema at `path.schema`. */
  function ValidateBody(spec: Spec, p: Parameter, c: Context, path: string, fuel: nat): (r: Context)
    requires p.Body?
    ensures Extends(c, r) && Localized(c, r, path)
    ensures p.schema.Ref? && p.schema.reference != "" && p.schema.reference in c.visited ==>
      r == c.(errors := c.errors + RequiredString(p.name, path + "name"))
  {
    var n := RequiredString(p.name, path + "name");
    var c1 := c.(errors := c.errors + n);
    AllAtNarrow(n, path, "name");
    Appended(c, c1, n, path);
    var r := ValidateSchemaRef(spec, p.schema, c1, path + ".schema", fuel);
    Narrow(c1, r, path, ".schema");
    Chain(c, c1, r, path);
    r
  }

  /** `Parameter::validate_with_context`. */
  function ValidateParameter(spec: Spec, p: Parameter, c: Context, path: string, fuel: nat): (r: Context)
    ensures Extends(c, r) && Localized(c, r, path)
    ensures !p.Body? ==> r == c.(errors := c.errors + SimpleErrors(p, c.regex, path))
  {
    if p.Body? then ValidateBody(spec, p, c, path, fuel) else ValidateSimple(p, c, path)
  }

  /** `RefOr<Parameter>::validate_with_context`, resolving under `#/parameters/`. */
  function ValidateParameterRef(spec: Spec, x: RefOr<Parameter>, c: Context, path: string, fuel: nat): (r: Context)
    ensures Extends(c, r) && Localized(c, r, path)
    ensures x.Item? ==> r == ValidateParameter(spec, x.item, c, path, fuel)
    ensures x.Ref? && x.reference != "" && x.reference in c.visited ==> r == c
    ensures x.Ref? && x.reference !in c.visited && ParameterItem(spec, x).Resolved? ==>
      r == ValidateParameter(spec, ParameterItem(spec, x).item, c.(visited := c.visited + {x.reference}), x.reference, fuel)
  {
    var validate := (p: Parameter, c0: Context, at: string) => ValidateParameter(spec, p, c0, at, fuel);
    ValidateRefOr(x, (s: string) => AsLookup(ParameterDefinition(spec, s)), c, path, validate)
  }

  /** A path parameter never has its name checked: an empty name passes when the other two rules do. */
  lemma PathNameUnchecked(s: Simple, regex: map<string, string>, path: string)
    requires s.required == Some(true) && s.allowEmptyValue != Some(true)
    ensures SimpleErrors(Path(s.(name := "")), regex, path) == []
    ensures SimpleErrors(Query(s.(name := "")), regex, path) != []
  {
  }

  /** A pattern is compiled only on a header string parameter. */
  lemma PatternOnlyInHeader(s: Simple, regex: map<string, string>, path: string)
    requires s.name != "" && s.allowEmptyValue != Some(true) && s.required == Some(true)
    requires s.pattern.Some? && s.pattern.value in regex
    ensures SimpleErrors(Header(s), regex, path) != [] <==> s.paramType == StringParam
    ensures SimpleErrors(Query(s), regex, path) == []
    ensures SimpleErrors(Path(s), regex, path) == []
    ensures SimpleErrors(FormData(s), regex, path) == []
  {
  }
}
