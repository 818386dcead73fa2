/**
 * The Schema Object of OpenAPI 3.0. Every single-typed schema checks its
 * external docs and XML; a string schema also hands its pattern to the
 * regular-expression engine; arrays descend into `items`, objects into their
 * properties and a schema-valued `additionalProperties`. The compositions
 * descend into each member and then into the discriminator, whose mapping
 * values name schemas of the Components Object. References are followed
 * once each; the fuel bounds how deep referenced schemas are descended into,
 * and a descent refused for want of it cuts the context.
 */
module V30Schema {
  import opened Wrappers
  import opened Strings
  import opened SortedMap
  import opened Validation
  import opened Helpers
  import opened Rules
  import opened Locality
  import opened Reference
  import opened BoolOr
  import opened V30Types
  import opened V30Resolve
  import opened V2ExternalDocs
  import opened V30Xml

  /** The checks every single-typed schema starts with: external docs, then XML. */
  function DocsXmlErrors(docs: Option<ExternalDocs>, xml: Option<Xml>, options: set<Options>, path: string): (e: seq<string>)
    ensures e == [] <==> (docs.Some? ==> ExternalDocsErrors(docs.value, options, path + ".externalDocs") == [])
                         && (xml.Some? ==> XmlErrors(xml.value, options, path + ".xml") == [])
    ensures AllAt(e, path)
  {
    var d := if docs.Some? then ExternalDocsErrors(docs.value, options, path + ".externalDocs") else [];
    var x := if xml.Some? then XmlErrors(xml.value, options, path + ".xml") else [];
    AllAtNarrow(d, path, ".externalDocs");
    AllAtNarrow(x, path, ".xml");
    AllAtConcat(d, x, path);
    d + x
  }

  function ValidateDocsXml(docs: Option<ExternalDocs>, xml: Option<Xml>, c: Context, path: string): (r: Context)
    ensures r == c.(errors := c.errors + DocsXmlErrors(docs, xml, c.options, path))
    ensures Extends(c, r) && Localized(c, r, path)
  {
    var c1 := if docs.Some? then ValidateExternalDocs(docs.value, c, path + ".externalDocs") else c;
    var r := if xml.Some? then ValidateXml(xml.value, c1, path + ".xml") else c1;
    Then(c, c1, r, if docs.Some? then ExternalDocsErrors(docs.value, c.options, path + ".externalDocs") else [],
         if xml.Some? then XmlErrors(xml.value, c.options, path + ".xml") else []);
    Appended(c, r, DocsXmlErrors(docs, xml, c.options, path), path);
    r
  }

  /** What the engine says of a string schema's pattern, at `path.pattern`. */
  function PatternErrors(scalar: ScalarType, regex: map<string, string>, path: string): (e: seq<string>)
    ensures e == [] <==> !(scalar.StringType? && scalar.pattern.Some? && scalar.pattern.value in regex)
    ensures AllAt(e, path)
  {
    if scalar.StringType? && scalar.pattern.Some? && scalar.pattern.value in regex then
      var msg := "pattern `" + scalar.pattern.value + "` is invalid: " + regex[scalar.pattern.value];
      AllAtMessage(path + ".pattern", msg);
      AllAtNarrow([path + ".pattern" + ": " + msg], path, ".pattern");
      [path + ".pattern" + ": " + msg]
    else []
  }

  /** A scalar schema: docs, XML, and for a string its pattern. */
  function ValidateScalar(scalar: ScalarType, docs: Option<ExternalDocs>, xml: Option<Xml>, c: Context, path: string): (r: Context)
    ensures r == c.(errors := c.errors + (DocsXmlErrors(docs, xml, c.options, path) + PatternErrors(scalar, c.regex, path)))
    ensures Extends(c, r) && Localized(c, r, path)
  {
    var c1 := ValidateDocsXml(docs, xml, c, path);
    var r := if scalar.StringType? && scalar.pattern.Some? then ValidatePattern(scalar.pattern.value, c1, path + ".pattern") else c1;
    Then(c, c1, r, DocsXmlErrors(docs, xml, c.options, path), PatternErrors(scalar, c.regex, path));
    Appended(c, r, DocsXmlErrors(docs, xml, c.options, path) + PatternErrors(scalar, c.regex, path), path);
    r
  }

  function CompositionName(k: Composition): string
  {
    match k
    case AllOfKind => "allOf"
    case AnyOfKind => "anyOf"
    case OneOfKind => "oneOf"
  }

  function MemberSuffix(k: Composition, i: nat): string
  {
    "." + CompositionName(k) + "[" + NatToString(i) + "]"
  }

  /** `Schema::validate_with_context`. */
  function ValidateSchema(spec: Spec, s: Schema, c: Context, path: string, fuel: nat): (r: Context)
    ensures Extends(c, r) && Localized(c, r, path)
    decreases fuel, s, 1
  {
    match s
    case Composite(kind, members, discriminator) =>
      var c1 := ValidateMembers(spec, s, 0, c, path, fuel);
      if discriminator.None? then c1
      else
        var r := ValidateDiscriminator(spec, discriminator.value, c1, path + ".discriminator", fuel);
        Narrow(c1, r, path, ".discriminator");
        Chain(c, c1, r, path);
        r
    case Not(x) =>
      var r := ValidateSchemaRef(spec, x, c, path + ".not", fuel);
      Narrow(c, r, path, ".not");
      r
    case Single(single) => ValidateSingle(spec, single, c, path, fuel)
  }

  /** The members of a composition from the `i`-th on, at `path.allOf[i]`, `path.anyOf[i]` or `path.oneOf[i]`. */
  function ValidateMembers(spec: Spec, s: Schema, i: nat, c: Context, path: string, fuel: nat): (r: Context)
    requires s.Composite? && i <= |s.members|
    ensures Extends(c, r) && Localized(c, r, path)
    decreases fuel, s, 0, |s.members| - i
  {
    if i == |s.members| then c
    else
      var suffix := MemberSuffix(s.kind, i);
      var c1 := ValidateSchemaRef(spec, s.members[i], c, path + suffix, fuel);
      Narrow(c, c1, path, suffix);
      var r := ValidateMembers(spec, s, i + 1, c1, path, fuel);
      Chain(c, c1, r, path);
      r
  }

  /** Every referenced member of a composition is marked visited, so it is validated at most once. */
  lemma {:induction false} MembersMarkReferences(spec: Spec, s: Schema, i: nat, c: Context, path: string, fuel: nat, k: nat)
    requires s.Composite? && i <= k < |s.members| && s.members[k].Ref?
    ensures s.members[k].reference in ValidateMembers(spec, s, i, c, path, fuel).visited
    decreases |s.members| - i
  {
    var c1 := ValidateSchemaRef(spec, s.members[i], c, path + MemberSuffix(s.kind, i), fuel);
    if k > i {
      MembersMarkReferences(spec, s, i + 1, c1, path, fuel, k);
    }
  }

  /** `SingleSchema::validate_with_context`. */
  function ValidateSingle(spec: Spec, single: Single, c: Context, path: string, fuel: nat): (r: Context)
    ensures Extends(c, r) && Localized(c, r, path)
    ensures single.Scalar? ==>
      r == c.(errors := c.errors + (DocsXmlErrors(single.docs, single.xml, c.options, path) + PatternErrors(single.scalar, c.regex, path)))
    decreases fuel, single, 1
  {
    match single
    case Scalar(scalar, docs, xml) => ValidateScalar(scalar, docs, xml, c, path)
    case Array(docs, xml, items) =>
      var c1 := ValidateDocsXml(docs, xml, c, path);
      if items.None? then c1
      else
        var r := ValidateSchemaRef(spec, items.value, c1, path + ".items", fuel);
        Narrow(c1, r, path, ".items");
        Chain(c, c1, r, path);
        r
    case Object(docs, xml, _, _, _) =>
      var c1 := ValidateDocsXml(docs, xml, c, path);
      var c2 := ValidateProperties(spec, single, 0, c1, path, fuel);
      var r := ValidateAdditional(spec, single, c2, path, fuel);
      Chain(c, c1, c2, path);
      Chain(c, c2, r, path);
      r
  }

  function PropertySuffix(name: string): string
  {
    ".properties." + name
  }

  /** Each property from the `i`-th on, in key order, at `path.properties.name`. */
  function ValidateProperties(spec: Spec, o: Single, i: nat, c: Context, path: string, fuel: nat): (r: Context)
    requires o.Object? && i <= |o.properties|
    ensures Extends(c, r) && Localized(c, r, path)
    decreases fuel, o, 0, |o.properties| - i
  {
    if i == |o.properties| then c
    else
      var suffix := PropertySuffix(o.properties[i].0);
      var c1 := ValidateSchemaRef(spec, o.properties[i].1, c, path + suffix, fuel);
      Narrow(c, c1, path, suffix);
      var r := ValidateProperties(spec, o, i + 1, c1, path, fuel);
      Chain(c, c1, r, path);
      r
  }

  /** A boolean `additionalProperties` is skipped; a schema is validated at `path.additionalProperties`. */
  function ValidateAdditional(spec: Spec, o: Single, c: Context, path: string, fuel: nat): (r: Context)
    requires o.Object?
    ensures Extends(c, r) && Localized(c, r, path)
    ensures o.additionalProperties.None? || o.additionalProperties.value.Bool? ==> r == c
    decreases fuel, o, 0, 0
  {
    match o.additionalProperties
    case Some(Item(schema)) =>
      var r := ValidateSchemaRef(spec, schema, c, path + ".additionalProperties", fuel);
      Narrow(c, r, path, ".additionalProperties");
      r
    case _ => c
  }

  /** `Discriminator::validate_with_context`: the property name, then every mapping target. */
  function ValidateDiscriminator(spec: Spec, d: Discriminator, c: Context, path: string, fuel: nat): (r: Context)
    ensures Extends(c, r) && Localized(c, r, path)
    ensures d.propertyName == "" ==> |r.errors| > |c.errors| && r.errors[|c.errors|] == path + ".propertyName" + ": " + "must not be empty"
    ensures forall k :: 0 <= k < |d.mapping| ==> SchemasPrefix + d.mapping[k].1 in r.visited
    decreases fuel, d, 1
  {
    var c1 := ValidateRequiredString(d.propertyName, c, path + ".propertyName");
    assert Localized(c, c1, path) by {
      HelpersAgree(c, d.propertyName, None, None, path + ".propertyName");
      Appended(c, c1, RequiredString(d.propertyName, path + ".propertyName"), path + ".propertyName");
      Narrow(c, c1, path, ".propertyName");
    }
    var r := ValidateMapping(spec, d, 0, c1, path, fuel);
    Chain(c, c1, r, path);
    r
  }

  /** The reference a mapping value stands for. */
  function MappedReference(value: string): string
  {
    SchemasPrefix + value
  }

  /** The mapping from the `i`-th entry on: each value is followed as a schema reference at `path.mapping[key]`. */
  function ValidateMapping(spec: Spec, d: Discriminator, i: nat, c: Context, path: string, fuel: nat): (r: Context)
    requires i <= |d.mapping|
    ensures Extends(c, r) && Localized(c, r, path)
    ensures forall k :: i <= k < |d.mapping| ==> MappedReference(d.mapping[k].1) in r.visited
    decreases fuel, d, 0, |d.mapping| - i
  {
    if i == |d.mapping| then c
    else
      var suffix := ".mapping[" + d.mapping[i].0 + "]";
      var reference := MappedReference(d.mapping[i].1);
      var step := SchemaStep(spec, reference, c, path + suffix);
      var c1 := if step.Descend? && fuel > 0 then
        var t := ValidateSchema(spec, step.target, step.ctx, reference, fuel - 1);
        AtReference(step.ctx, t, reference, path + suffix);
        Chain(c, step.ctx, t, path + suffix);
        t
      else if step.Descend? then Cut(step.ctx) else step.ctx;
      Narrow(c, c1, path, suffix);
      var r := ValidateMapping(spec, d, i + 1, c1, path, fuel);
      Chain(c, c1, r, path);
      r
  }

  /** The `Ref` arm for schemas up to the descent: report, visit, and resolve the reference once. */
  function SchemaStep(spec: Spec, reference: string, c: Context, path: string): (r: Step<Schema>)
    ensures Extends(c, r.ctx) && Localized(c, r.ctx, path)
    ensures r.ctx.visited == c.visited + {reference}
    ensures r.Descend? ==> StartsWith(reference, Internal)
    ensures reference != "" && reference in c.visited ==> r == Stop(c)
  {
    var resolved := SchemaItem(spec, Ref(reference));
    FollowRefLocalized(c, path, reference, resolved);
    RevisitIsSilent(c, path, reference, resolved);
    FollowRef(c, path, reference, resolved)
  }

  /** `RefOr<Schema>::validate_with_context`: an item in place, a reference at its own string, once. */
  function ValidateSchemaRef(spec: Spec, x: RefOr<Schema>, c: Context, path: string, fuel: nat): (r: Context)
    ensures Extends(c, r) && Localized(c, r, path)
    ensures x.Item? ==> r == ValidateSchema(spec, x.item, c, path, fuel)
    ensures x.Ref? ==> x.reference in r.visited
    ensures x.Ref? && x.reference != "" && x.reference in c.visited ==> r == c
    decreases fuel, x, 0
  {
    match x
    case Item(s) => ValidateSchema(spec, s, c, path, fuel)
    case Ref(reference) =>
      var step := SchemaStep(spec, reference, c, path);
      if step.Descend? && fuel > 0 then
        var r := ValidateSchema(spec, step.target, step.ctx, reference, fuel - 1);
        AtReference(step.ctx, r, reference, path);
        Chain(c, step.ctx, r, path);
        r
      else if step.Descend? then Cut(step.ctx) else step.ctx
  }

  /** The properties pass reads nothing of the object but its properties. */
  lemma {:induction false} PropertiesOnly(spec: Spec, o: Single, o': Single, i: nat, c: Context, path: string, fuel: nat)
    requires o.Object? && o'.Object? && o.properties == o'.properties && i <= |o.properties|
    ensures ValidateProperties(spec, o, i, c, path, fuel) == ValidateProperties(spec, o', i, c, path, fuel)
    decreases |o.properties| - i
  {
    if i < |o.properties| {
      var c1 := ValidateSchemaRef(spec, o.properties[i].1, c, path + PropertySuffix(o.properties[i].0), fuel);
      PropertiesOnly(spec, o, o', i + 1, c1, path, fuel);
    }
  }

  /** `required` is never checked, not even against the properties. */
  lemma RequiredUnchecked(spec: Spec, o: Single, required: seq<string>, c: Context, path: string, fuel: nat)
    requires o.Object?
    ensures ValidateSingle(spec, o.(required := required), c, path, fuel) == ValidateSingle(spec, o, c, path, fuel)
  {
    var c1 := ValidateDocsXml(o.docs, o.xml, c, path);
    PropertiesOnly(spec, o, o.(required := required), 0, c1, path, fuel);
  }
}
