/**
 * The Schema Object of Swagger 2.0: its `type` tag, its default, and the
 * recursive validation traversal. Scalars check only their external docs
 * and XML; arrays descend into `items`; objects into properties, a schema-
 * valued `additionalProperties` and the `allOf` members, which may only
 * name object definitions. References are followed once per reference
 * string; `fuel` bounds how many references one traversal may descend
 * through, and a descent refused for want of it cuts the context.
 */
module V2Schema {
  import opened Wrappers
  import opened Strings
  import opened SortedMap
  import opened Helpers
  import opened Rules
  import opened Locality
  import opened Reference
  import opened BoolOr
  import opened V2Types
  import opened V2Resolve
  import opened V2ExternalDocs
  import opened V2Xml

  /** The variant, as the `type` tag names it. */
  datatype Kind = ScalarKind(scalar: ScalarType) | ArrayKind | ObjectKind

  function KindOf(s: Schema): Kind
  {
    match s
    case Scalar(t, _, _) => ScalarKind(t)
    case Array(_, _, _) => ArrayKind
    case Object(_) => ObjectKind
  }

  /** `impl Display for Schema`. */
  function DisplayName(k: Kind): string
  {
    match k
    case ScalarKind(StringType) => "string"
    case ScalarKind(IntegerType) => "integer"
    case ScalarKind(NumberType) => "number"
    case ScalarKind(BooleanType) => "boolean"
    case ScalarKind(NullType) => "null"
    case ArrayKind => "array"
    case ObjectKind => "object"
  }

  /** The `type` tag the (de)serializer uses: the null variant is spelled `bull`. */
  function Tag(k: Kind): string
  {
    if k == ScalarKind(NullType) then "bull" else DisplayName(k)
  }

  /** Decoding the tag: the inverse of `Tag`. */
  function ParseTag(t: string): (r: Option<Kind>)
    ensures r.Some? ==> Tag(r.value) == t
  {
    if t == "string" then Some(ScalarKind(StringType))
    else if t == "integer" then Some(ScalarKind(IntegerType))
    else if t == "number" then Some(ScalarKind(NumberType))
    else if t == "boolean" then Some(ScalarKind(BooleanType))
    else if t == "bull" then Some(ScalarKind(NullType))
    else if t == "array" then Some(ArrayKind)
    else if t == "object" then Some(ObjectKind)
    else None
  }

  lemma TagRoundTrip(k: Kind)
    ensures ParseTag(Tag(k)) == Some(k)
  {
  }

  /** As written, the name the null schema displays under is not a tag the decoder accepts. */
  lemma NullTagAsWritten()
    ensures Tag(ScalarKind(NullType)) == "bull"
    ensures ParseTag(DisplayName(ScalarKind(NullType))).None?
    ensures forall k :: k != ScalarKind(NullType) ==> ParseTag(DisplayName(k)) == Some(k)
  {
  }

  /** The evidently intended tag: the displayed name itself. */
  function TagIntended(k: Kind): string
  {
    DisplayName(k)
  }

  function ParseTagIntended(t: string): (r: Option<Kind>)
    ensures r.Some? ==> TagIntended(r.value) == t
  {
    if t == "null" then Some(ScalarKind(NullType))
    else if t == "bull" then None
    else ParseTag(t)
  }

  /** With the intended tag every displayed name decodes back to its variant. */
  lemma TagIntendedRoundTrip(k: Kind)
    ensures ParseTagIntended(DisplayName(k)) == Some(k)
    ensures ParseTagIntended(TagIntended(k)) == Some(k)
  {
  }

  /** `Schema::default()`: an object with nothing in it. */
  const DefaultSchema: Schema := Object(ObjectSchema(None, None, [], None, [], None, []))

  /** The checks every variant starts with: external docs, then XML. */
  function DocsXmlErrors(docs: Option<ExternalDocs>, xml: Option<Xml>, options: set<Validation.Options>, path: string): (e: seq<string>)
    ensures e == [] <==> (docs.Some? ==> ExternalDocsErrors(docs.value, options, path + ".externalDocs") == [])
                         && (xml.Some? ==> XmlOk(xml.value, options))
    ensures AllAt(e, path)
  {
    var d := if docs.Some? then ExternalDocsErrors(docs.value, options, path + ".externalDocs") else [];
    var x := if xml.Some? then XmlErrors(xml.value, options, path + ".xml") else [];
    AllAtNarrow(d, path, ".externalDocs");
    AllAtNarrow(x, path, ".xml");
    AllAtConcat(d, x, path);
    d + x
  }

  function ValidateDocsXml(docs: Option<ExternalDocs>, xml: Option<Xml>, c: Context, path: string): (r: Context)
    ensures r == c.(errors := c.errors + DocsXmlErrors(docs, xml, c.options, path))
    ensures Extends(c, r) && Localized(c, r, path)
  {
    var c1 := if docs.Some? then ValidateExternalDocs(docs.value, c, path + ".externalDocs") else c;
    var r := if xml.Some? then ValidateXml(xml.value, c1, path + ".xml") else c1;
    Then(c, c1, r, if docs.Some? then ExternalDocsErrors(docs.value, c.options, path + ".externalDocs") else [],
         if xml.Some? then XmlErrors(xml.value, c.options, path + ".xml") else []);
    Appended(c, r, DocsXmlErrors(docs, xml, c.options, path), path);
    r
  }

  /** `Schema::validate_with_context`. */
  function ValidateSchema(spec: Spec, s: Schema, c: Context, path: string, fuel: nat): (r: Context)
    ensures Extends(c, r) && Localized(c, r, path)
    decreases fuel, s, 0
  {
    match s
    case Scalar(_, docs, xml) => ValidateDocsXml(docs, xml, c, path)
    case Array(docs, xml, items) =>
      var c1 := ValidateDocsXml(docs, xml, c, path);
      if items.None? then c1
      else
        var r := ValidateSchemaRef(spec, items.value, c1, path + ".items", fuel);
        Narrow(c1, r, path, ".items");
        Chain(c, c1, r, path);
        r
    case Object(o) => ValidateObject(spec, o, c, path, fuel)
  }

  /** `ObjectSchema::validate_with_context`; `required` and `discriminator` are never checked. */
  function ValidateObject(spec: Spec, o: ObjectSchema, c: Context, path: string, fuel: nat): (r: Context)
    ensures Extends(c, r) && Localized(c, r, path)
    decreases fuel, o, |o.properties| + |o.allOf| + 1
  {
    var c1 := ValidateDocsXml(o.docs, o.xml, c, path);
    var c2 := ValidateProperties(spec, o, 0, c1, path, fuel);
    var c3 := ValidateAdditional(spec, o, c2, path, fuel);
    var r := ValidateAllOf(spec, o, 0, c3, path, fuel);
    Chain(c, c1, c2, path);
    Chain(c, c2, c3, path);
    Chain(c, c3, r, path);
    r
  }

  function PropertySuffix(name: string): string
  {
    ".properties." + name
  }

  /** Each property from the `i`-th on, in key order, at `path.properties.name`. */
  function ValidateProperties(spec: Spec, o: ObjectSchema, i: nat, c: Context, path: string, fuel: nat): (r: Context)
    requires i <= |o.properties|
    ensures Extends(c, r) && Localized(c, r, path)
    decreases fuel, o, |o.properties| - i
  {
    if i == |o.properties| then c
    else
      var suffix := PropertySuffix(o.properties[i].0);
      var c1 := ValidateSchemaRef(spec, o.properties[i].1, c, path + suffix, fuel);
      Narrow(c, c1, path, suffix);
      var r := ValidateProperties(spec, o, i + 1, c1, path, fuel);
      Chain(c, c1, r, path);
      r
  }

  /** A boolean `additionalProperties` is skipped; a schema is validated at `path.additionalProperties`. */
  function ValidateAdditional(spec: Spec, o: ObjectSchema, c: Context, path: string, fuel: nat): (r: Context)
    ensures Extends(c, r) && Localized(c, r, path)
    ensures o.additionalProperties.None? || o.additionalProperties.value.Bool? ==> r == c
    decreases fuel, o, 0
  {
    match o.additionalProperties
    case Some(Item(schema)) =>
      var r := ValidateSchemaRef(spec, schema, c, path + ".additionalProperties", fuel);
      Narrow(c, r, path, ".additionalProperties");
      r
    case _ => c
  }

  function AllOfSuffix(i: nat): string
  {
    ".allOf[" + NatToString(i) + "]"
  }

  /** Each `allOf` member from the `i`-th on, at `path.allOf[i]`. */
  function ValidateAllOf(spec: Spec, o: ObjectSchema, i: nat, c: Context, path: string, fuel: nat): (r: Context)
    requires i <= |o.allOf|
    ensures Extends(c, r) && Localized(c, r, path)
    decreases fuel, o, |o.allOf| - i
  {
    if i == |o.allOf| then c
    else
      var suffix := AllOfSuffix(i);
      var c1 := ValidateObjectRef(spec, o.allOf[i], c, path + suffix, fuel);
      Narrow(c, c1, path, suffix);
      var r := ValidateAllOf(spec, o, i + 1, c1, path, fuel);
      Chain(c, c1, r, path);
      r
  }

  /** `RefOr<Schema>::validate_with_context`: an item in place, a reference at its own string, once. */
  function ValidateSchemaRef(spec: Spec, x: RefOr<Schema>, c: Context, path: string, fuel: nat): (r: Context)
    ensures Extends(c, r) && Localized(c, r, path)
    ensures x.Item? ==> r == ValidateSchema(spec, x.item, c, path, fuel)
    ensures x.Ref? && x.reference != "" && x.reference in c.visited ==> r == c
    decreases fuel, x, 0
  {
    match x
    case Item(s) => ValidateSchema(spec, s, c, path, fuel)
    case Ref(reference) =>
      var resolved := SchemaItem(spec, x);
      var step := FollowRef(c, path, reference, resolved);
      FollowRefLocalized(c, path, reference, resolved);
      RevisitIsSilent(c, path, reference, resolved);
      if step.Descend? && fuel > 0 then
        var r := ValidateSchema(spec, step.target, step.ctx, reference, fuel - 1);
        AtReference(step.ctx, r, reference, path);
        Chain(c, step.ctx, r, path);
        r
      else if step.Descend? then Cut(step.ctx) else step.ctx
  }

  /** `RefOr<ObjectSchema>::validate_with_context`: the reference must name an object definition. */
  function ValidateObjectRef(spec: Spec, x: RefOr<ObjectSchema>, c: Context, path: string, fuel: nat): (r: Context)
    ensures Extends(c, r) && Localized(c, r, path)
    ensures x.Item? ==> r == ValidateObject(spec, x.item, c, path, fuel)
    ensures x.Ref? && x.reference != "" && x.reference in c.visited ==> r == c
    decreases fuel, x, 0
  {
    match x
    case Item(o) => ValidateObject(spec, o, c, path, fuel)
    case Ref(reference) =>
      var resolved := ObjectSchemaItem(spec, x);
      var step := FollowRef(c, path, reference, resolved);
      FollowRefLocalized(c, path, reference, resolved);
      RevisitIsSilent(c, path, reference, resolved);
      if step.Descend? && fuel > 0 then
        var r := ValidateObject(spec, step.target, step.ctx, reference, fuel - 1);
        AtReference(step.ctx, r, reference, path);
        Chain(c, step.ctx, r, path);
        r
      else if step.Descend? then Cut(step.ctx) else step.ctx
  }

  /** An `allOf` reference to a definition of another variant does not resolve: it is reported, not validated. */
  lemma AllOfNonObject(spec: Spec, reference: string, c: Context, path: string, fuel: nat)
    requires StartsWith(reference, Internal) && reference !in c.visited
    requires Definition(spec, reference).Some? && !Definition(spec, reference).value.Object?
    ensures ValidateObjectRef(spec, Ref(reference), c, path, fuel)
         == c.(visited := c.visited + {reference},
               errors := c.errors + [path + (".$ref: `" + reference + "` not found")])
  {
    NonObjectDefinition(spec, reference);
  }

  /** The same reference as a property schema does resolve, and the definition is validated at the reference. */
  lemma PropertyNonObject(spec: Spec, reference: string, c: Context, path: string, fuel: nat)
    requires StartsWith(reference, Internal) && reference !in c.visited && fuel > 0
    requires Definition(spec, reference).Some? && !Definition(spec, reference).value.Object?
    ensures ValidateSchemaRef(spec, Ref(reference), c, path, fuel)
         == ValidateSchema(spec, Definition(spec, reference).value, c.(visited := c.visited + {reference}), reference, fuel - 1)
  {
    NonObjectDefinition(spec, reference);
  }

  /** The properties pass reads nothing of the object but its properties. */
  lemma {:induction false} PropertiesOnly(spec: Spec, o: ObjectSchema, o': ObjectSchema, i: nat, c: Context, path: string, fuel: nat)
    requires o.properties == o'.properties && i <= |o.properties|
    ensures ValidateProperties(spec, o, i, c, path, fuel) == ValidateProperties(spec, o', i, c, path, fuel)
    decreases |o.properties| - i
  {
    if i < |o.properties| {
      var c1 := ValidateSchemaRef(spec, o.properties[i].1, c, path + PropertySuffix(o.properties[i].0), fuel);
      PropertiesOnly(spec, o, o', i + 1, c1, path, fuel);
    }
  }

  /** The `allOf` pass reads nothing of the object but its `allOf` list. */
  lemma {:induction false} AllOfOnly(spec: Spec, o: ObjectSchema, o': ObjectSchema, i: nat, c: Context, path: string, fuel: nat)
    requires o.allOf == o'.allOf && i <= |o.allOf|
    ensures ValidateAllOf(spec, o, i, c, path, fuel) == ValidateAllOf(spec, o', i, c, path, fuel)
    decreases |o.allOf| - i
  {
    if i < |o.allOf| {
      var c1 := ValidateObjectRef(spec, o.allOf[i], c, path + AllOfSuffix(i), fuel);
      AllOfOnly(spec, o, o', i + 1, c1, path, fuel);
    }
  }

  /** `required` and `discriminator` are never checked, not even against the properties. */
  lemma UncheckedFields(spec: Spec, o: ObjectSchema, required: seq<string>, discriminator: Option<string>,
                        c: Context, path: string, fuel: nat)
    ensures ValidateObject(spec, o.(required := required, discriminator := discriminator), c, path, fuel)
         == ValidateObject(spec, o, c, path, fuel)
  {
    var o' := o.(required := required, discriminator := discriminator);
    var c1 := ValidateDocsXml(o.docs, o.xml, c, path);
    PropertiesOnly(spec, o, o', 0, c1, path, fuel);
    var c2 := ValidateProperties(spec, o, 0, c1, path, fuel);
    var c3 := ValidateAdditional(spec, o, c2, path, fuel);
    AllOfOnly(spec, o, o', 0, c3, path, fuel);
  }
}
