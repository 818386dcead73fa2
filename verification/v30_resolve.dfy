/**
 * `ResolveReference` for the OpenAPI 3.0 document: every kind lives in its
 * own map of the Components Object, addressed by `#/components/<kind>/`.
 * The stored entries are themselves references or items, so a lookup
 * follows a chain of references through the map; it is given as many steps
 * as the map has entries, which is enough for every chain that does not
 * come back to a name it already passed. A document without components
 * resolves nothing.
 */
module V30Resolve {
  import opened Wrappers
  import opened Strings
  import opened SortedMap
  import opened Reference
  import opened V30Types
  import V2Resolve

  const SchemasPrefix := "#/components/schemas/"
  const ResponsesPrefix := "#/components/responses/"
  const ParametersPrefix := "#/components/parameters/"
  const ExamplesPrefix := "#/components/examples/"
  const RequestBodiesPrefix := "#/components/requestBodies/"
  const HeadersPrefix := "#/components/headers/"
  const SecuritySchemesPrefix := "#/components/securitySchemes/"
  const LinksPrefix := "#/components/links/"
  const CallbacksPrefix := "#/components/callbacks/"

  const NoComponents := Components([], [], [], [], [], [], [], [], [])

  /** Every component prefix is an internal reference. */
  lemma PrefixesInternal()
    ensures StartsWith(SchemasPrefix, Internal) && StartsWith(ResponsesPrefix, Internal)
    ensures StartsWith(ParametersPrefix, Internal) && StartsWith(ExamplesPrefix, Internal)
    ensures StartsWith(RequestBodiesPrefix, Internal) && StartsWith(HeadersPrefix, Internal)
    ensures StartsWith(SecuritySchemesPrefix, Internal) && StartsWith(LinksPrefix, Internal)
    ensures StartsWith(CallbacksPrefix, Internal)
  {
  }

  /** An absent Components Object answers every lookup like an empty one. */
  function ComponentsOf(spec: Spec): (r: Components)
    ensures spec.components.None? ==> r == NoComponents
    ensures spec.components.Some? ==> r == spec.components.value
  {
    if spec.components.Some? then spec.components.value else NoComponents
  }

  /** `resolve_in_map` with one step per entry of the map. */
  function Resolve<T>(m: Entries<RefOr<T>>, prefix: string, reference: string): Lookup<T>
  {
    ResolveInMap(m, prefix, reference, |m|)
  }

  function SchemaItem(spec: Spec, x: RefOr<Schema>): Resolved<Schema>
  {
    GetItem(x, (s: string) => Resolve(ComponentsOf(spec).schemas, SchemasPrefix, s))
  }

  function ResponseItem(spec: Spec, x: RefOr<Response>): Resolved<Response>
  {
    GetItem(x, (s: string) => Resolve(ComponentsOf(spec).responses, ResponsesPrefix, s))
  }

  function ParameterItem(spec: Spec, x: RefOr<Parameter>): Resolved<Parameter>
  {
    GetItem(x, (s: string) => Resolve(ComponentsOf(spec).parameters, ParametersPrefix, s))
  }

  function ExampleItem(spec: Spec, x: RefOr<Example>): Resolved<Example>
  {
    GetItem(x, (s: string) => Resolve(ComponentsOf(spec).examples, ExamplesPrefix, s))
  }

  function RequestBodyItem(spec: Spec, x: RefOr<RequestBody>): Resolved<RequestBody>
  {
    GetItem(x, (s: string) => Resolve(ComponentsOf(spec).requestBodies, RequestBodiesPrefix, s))
  }

  function HeaderItem(spec: Spec, x: RefOr<Header>): Resolved<Header>
  {
    GetItem(x, (s: string) => Resolve(ComponentsOf(spec).headers, HeadersPrefix, s))
  }

  function SecuritySchemeItem(spec: Spec, x: RefOr<SecurityScheme>): Resolved<SecurityScheme>
  {
    GetItem(x, (s: string) => Resolve(ComponentsOf(spec).securitySchemes, SecuritySchemesPrefix, s))
  }

  function LinkItem(spec: Spec, x: RefOr<Link>): Resolved<Link>
  {
    GetItem(x, (s: string) => Resolve(ComponentsOf(spec).links, LinksPrefix, s))
  }

  function CallbackItem(spec: Spec, x: RefOr<Callback>): Resolved<Callback>
  {
    GetItem(x, (s: string) => Resolve(ComponentsOf(spec).callbacks, CallbacksPrefix, s))
  }

  /** `ResolveReference<Tag>`: the first tag whose name is the reference without `#/tags/`. */
  function TagDefinition(spec: Spec, reference: string): (r: Option<Tag>)
    ensures r.Some? ==> r.value.name == TrimStartMatches(reference, V2Resolve.TagsPrefix)
    ensures r.None? <==> forall i :: 0 <= i < |spec.tags| ==> spec.tags[i].name != TrimStartMatches(reference, V2Resolve.TagsPrefix)
  {
    V2Resolve.FirstTagNamed(spec.tags, TrimStartMatches(reference, V2Resolve.TagsPrefix))
  }

  /** A reference to a schema stored inline resolves to it, whether it repeats the prefix or not. */
  lemma SchemaByName(spec: Spec, name: string, n: nat, s: Schema)
    requires !StartsWith(name, SchemasPrefix) && Get(ComponentsOf(spec).schemas, name) == Some(Item(s))
    ensures SchemaItem(spec, Ref(Repeat(SchemasPrefix, n + 1) + name)) == Resolved(s)
  {
    PrefixesInternal();
    RepeatedPrefixGetItem(ComponentsOf(spec).schemas, SchemasPrefix, name, n, s);
  }
}
