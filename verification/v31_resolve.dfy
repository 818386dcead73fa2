/**
 * `ResolveReference` for the OpenAPI 3.1 document: the OpenAPI 3.0 kinds at
 * the same prefixes, and path items at `#/components/pathItems/`. As there,
 * a lookup follows a chain of references through the kind's map with one
 * step per entry, and a document without components resolves nothing.
 */
module V31Resolve {
  import opened Wrappers
  import opened Strings
  import opened SortedMap
  import opened Reference
  import opened V31Types
  import V30Resolve

  const PathItemsPrefix := "#/components/pathItems/"

  const NoComponents := Components([], [], [], [], [], [], [], [], [], [])

  lemma PathItemsPrefixInternal()
    ensures StartsWith(PathItemsPrefix, Internal)
  {
  }

  /** An absent Components Object answers every lookup like an empty one. */
  function ComponentsOf(spec: Spec): (r: Components)
    ensures spec.components.None? ==> r == NoComponents
    ensures spec.components.Some? ==> r == spec.components.value
  {
    if spec.components.Some? then spec.components.value else NoComponents
  }

  function SchemaItem(spec: Spec, x: RefOr<Schema>): Resolved<Schema>
  {
    GetItem(x, (s: string) => V30Resolve.Resolve(ComponentsOf(spec).schemas, V30Resolve.SchemasPrefix, s))
  }

  function ExampleItem(spec: Spec, x: RefOr<Example>): Resolved<Example>
  {
    GetItem(x, (s: string) => V30Resolve.Resolve(ComponentsOf(spec).examples, V30Resolve.ExamplesPrefix, s))
  }

  function HeaderItem(spec: Spec, x: RefOr<Header>): Resolved<Header>
  {
    GetItem(x, (s: string) => V30Resolve.Resolve(ComponentsOf(spec).headers, V30Resolve.HeadersPrefix, s))
  }

  function SecuritySchemeItem(spec: Spec, x: RefOr<SecurityScheme>): Resolved<SecurityScheme>
  {
    GetItem(x, (s: string) => V30Resolve.Resolve(ComponentsOf(spec).securitySchemes, V30Resolve.SecuritySchemesPrefix, s))
  }

  /** `ResolveReference<PathItem>` through `get_item`. */
  function PathItemItem(spec: Spec, x: RefOr<PathItem>): (r: Resolved<PathItem>)
    ensures spec.components.None? && x.Ref? ==> !r.Resolved?
  {
    GetItem(x, (s: string) => V30Resolve.Resolve(ComponentsOf(spec).pathItems, PathItemsPrefix, s))
  }

  /**
   * A path item stored inline in the components is what a reference to it
   * resolves to, however many times the reference repeats the prefix.
   */
  lemma PathItemByName(spec: Spec, name: string, n: nat, item: PathItem)
    requires !StartsWith(name, PathItemsPrefix) && Get(ComponentsOf(spec).pathItems, name) == Some(Item(item))
    ensures PathItemItem(spec, Ref(Repeat(PathItemsPrefix, n + 1) + name)) == Resolved(item)
  {
    PathItemsPrefixInternal();
    RepeatedPrefixGetItem(ComponentsOf(spec).pathItems, PathItemsPrefix, name, n, item);
  }

  /** A reference to a name the pathItems map does not hold is not found, even when another kind holds it. */
  lemma PathItemNotFound(spec: Spec, name: string)
    requires !StartsWith(name, PathItemsPrefix) && Get(ComponentsOf(spec).pathItems, name).None?
    ensures PathItemItem(spec, Ref(PathItemsPrefix + name)) == Failed(NotFound(PathItemsPrefix + name))
  {
    PathItemsPrefixInternal();
    PrefixOfPrefix(PathItemsPrefix, name);
    StartsWithChain(PathItemsPrefix + name, PathItemsPrefix, Internal);
    TrimOnce(PathItemsPrefix, name);
  }
}
