/**
 * `ResolveReference` for the Swagger 2.0 document: each kind of target lives
 * in its own top-level map, addressed by a fixed prefix that is stripped
 * (every leading copy of it) before the lookup. Unlike OpenAPI 3, the maps
 * hold plain objects, so a lookup never follows a further reference.
 */
module V2Resolve {
  import opened Wrappers
  import opened Strings
  import opened SortedMap
  import opened Reference
  import opened V2Types

  const DefinitionsPrefix := "#/definitions/"
  const ParametersPrefix := "#/parameters/"
  const ResponsesPrefix := "#/responses/"
  const SecurityPrefix := "#/securityDefinitions/"
  const TagsPrefix := "#/tags/"

  /** Strip the prefix, then look the rest up. */
  function Lookup<T>(m: Entries<T>, prefix: string, reference: string): (r: Option<T>)
    ensures r.Some? ==> exists i :: 0 <= i < |m| && m[i] == (TrimStartMatches(reference, prefix), r.value)
    ensures r.None? <==> TrimStartMatches(reference, prefix) !in Keys(m)
  {
    Get(m, TrimStartMatches(reference, prefix))
  }

  /** A reference that repeats the prefix, or omits it, names the same entry. */
  lemma LookupPrefixForms<T>(m: Entries<T>, prefix: string, name: string, n: nat)
    requires |prefix| > 0 && !StartsWith(name, prefix)
    ensures Lookup(m, prefix, Repeat(prefix, n) + name) == Get(m, name)
    ensures Lookup(m, prefix, name) == Get(m, name)
  {
    TrimRepeatedPrefix(prefix, name, n);
  }

  function Definition(spec: Spec, reference: string): Option<Schema>
  {
    Lookup(spec.definitions, DefinitionsPrefix, reference)
  }

  /** `ResolveReference<ObjectSchema>`: only a definition of the object variant resolves. */
  function ObjectDefinition(spec: Spec, reference: string): (r: Option<ObjectSchema>)
    ensures r.Some? <==> Definition(spec, reference).Some? && Definition(spec, reference).value.Object?
    ensures r.Some? ==> Definition(spec, reference) == Some(Object(r.value))
  {
    match Definition(spec, reference)
    case Some(Object(o)) => Some(o)
    case _ => None
  }

  function ParameterDefinition(spec: Spec, reference: string): Option<Parameter>
  {
    Lookup(spec.parameters, ParametersPrefix, reference)
  }

  function ResponseDefinition(spec: Spec, reference: string): Option<Response>
  {
    Lookup(spec.responses, ResponsesPrefix, reference)
  }

  function SecurityDefinition(spec: Spec, reference: string): Option<SecurityScheme>
  {
    Lookup(spec.securityDefinitions, SecurityPrefix, reference)
  }

  /** The first tag carrying the name. */
  function FirstTagNamed(tags: seq<Tag>, name: string): (r: Option<Tag>)
    ensures r.None? <==> forall i :: 0 <= i < |tags| ==> tags[i].name != name
    ensures r.Some? ==> exists i :: 0 <= i < |tags| && tags[i] == r.value && r.value.name == name
                                    && forall j :: 0 <= j < i ==> tags[j].name != name
  {
    if |tags| == 0 then None
    else if tags[0].name == name then Some(tags[0])
    else
      var r := FirstTagNamed(tags[1..], name);
      assert forall j :: 1 <= j < |tags| ==> tags[j] == tags[1..][j - 1];
      r
  }

  /** `ResolveReference<Tag>`: the first tag whose name is the reference without `#/tags/`. */
  function TagDefinition(spec: Spec, reference: string): Option<Tag>
  {
    FirstTagNamed(spec.tags, TrimStartMatches(reference, TagsPrefix))
  }

  function AsLookup<T>(o: Option<T>): (r: Reference.Lookup<T>)
    ensures r.Found? <==> o.Some?
    ensures r.Diverges? == false
    ensures o.Some? ==> r.item == o.value
  {
    if o.Some? then Found(o.value) else Missing
  }

  /** `get_item` of the four kinds a Swagger 2.0 reference can name. */
  function SchemaItem(spec: Spec, r: RefOr<Schema>): Resolved<Schema>
  {
    GetItem(r, (s: string) => AsLookup(Definition(spec, s)))
  }

  function ObjectSchemaItem(spec: Spec, r: RefOr<ObjectSchema>): Resolved<ObjectSchema>
  {
    GetItem(r, (s: string) => AsLookup(ObjectDefinition(spec, s)))
  }

  function ParameterItem(spec: Spec, r: RefOr<Parameter>): Resolved<Parameter>
  {
    GetItem(r, (s: string) => AsLookup(ParameterDefinition(spec, s)))
  }

  function ResponseItem(spec: Spec, r: RefOr<Response>): Resolved<Response>
  {
    GetItem(r, (s: string) => AsLookup(ResponseDefinition(spec, s)))
  }

  /** A lookup that never diverges makes `get_item` either resolve or fail. */
  lemma {:induction false} NeverDiverges<T>(r: RefOr<T>, o: string -> Option<T>)
    ensures !GetItem(r, (s: string) => AsLookup(o(s))).Diverged?
  {
    if r.Ref? && StartsWith(r.reference, Internal) {
      assert !AsLookup(o(r.reference)).Diverges?;
    }
  }

  /** A reference to a definition of another variant resolves as a Schema but not as an ObjectSchema. */
  lemma NonObjectDefinition(spec: Spec, reference: string)
    requires StartsWith(reference, Internal)
    requires Definition(spec, reference).Some? && !Definition(spec, reference).value.Object?
    ensures SchemaItem(spec, Ref(reference)) == Resolved(Definition(spec, reference).value)
    ensures ObjectSchemaItem(spec, Ref(reference)) == Failed(NotFound(reference))
  {
    var lookup := (s: string) => AsLookup(ObjectDefinition(spec, s));
    assert lookup(reference).Missing?;
  }
}
