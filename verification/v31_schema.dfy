/**
 * The Schema Object of OpenAPI 3.1. A single-typed schema checks only its
 * external docs (its XML Object is not part of this model, and a string's
 * pattern is not checked in this dialect); arrays descend into a
 * schema-valued `items`, objects into their properties, pattern properties
 * (whose keys go to the regular-expression engine), a schema-valued
 * `additionalProperties` and `unevaluatedProperties`, and `propertyNames`.
 * The compositions descend into each member (their discriminator is not
 * part of this model), the negation into its one schema. A schema whose
 * `type` is a list has each name checked against the supported ones and
 * for repetition, in list order. References are followed once each; the
 * fuel bounds how deep referenced schemas are descended into, and a descent
 * refused for want of it cuts the context.
 *
 * The supported names leave out `integer`, which is a type of this very
 * dialect; `TypeErrors` takes the set of supported names so that the
 * as-written set and the intended one can be compared.
 */
module V31Schema {
  import opened Wrappers
  import opened Strings
  import opened SortedMap
  import opened Validation
  import opened Helpers
  import opened Rules
  import opened Locality
  import opened Reference
  import opened BoolOr
  import opened V31Types
  import opened V31Resolve
  import opened V31SchemaKeys
  import opened V2ExternalDocs
  import V30Schema

  /** The names a list of types may hold, as written. */
  const AllowedTypes: set<string> := {"string", "number", "object", "array", "boolean", "null"}

  /** The names it evidently should accept: every type name of the dialect. */
  const AllowedTypesIntended: set<string> := AllowedTypes + {"integer"}

  /** As written, every type name but `integer` is accepted; the intended set accepts them all. */
  lemma AllowedTypeNames(t: TypeTag)
    ensures TypeName(t) in AllowedTypes <==> t != IntegerTag
    ensures TypeName(t) in AllowedTypesIntended
  {
  }

  function UnsupportedMessage(path: string, t: string): string
  {
    path + ".type" + ": " + ("type `" + t + "` is not supported")
  }

  function NotUniqueMessage(path: string, t: string): string
  {
    path + ".type" + ": " + ("type `" + t + "` is not unique")
  }

  /** The two messages are told apart by their last letter, and each names its type. */
  lemma TypeMessagesDistinct(path: string, t: string, u: string)
    ensures UnsupportedMessage(path, t) != NotUniqueMessage(path, u)
    ensures UnsupportedMessage(path, t) == UnsupportedMessage(path, u) ==> t == u
    ensures NotUniqueMessage(path, t) == NotUniqueMessage(path, u) ==> t == u
  {
    var a := UnsupportedMessage(path, t);
    var b := NotUniqueMessage(path, u);
    assert a[|a| - 1] == 'd' && b[|b| - 1] == 'e';
    var p := path + ".type" + ": " + "type `";
    assert UnsupportedMessage(path, t) == p + t + "` is not supported";
    assert UnsupportedMessage(path, u) == p + u + "` is not supported";
    assert NotUniqueMessage(path, t) == p + t + "` is not unique";
    assert NotUniqueMessage(path, u) == p + u + "` is not unique";
    if UnsupportedMessage(path, t) == UnsupportedMessage(path, u) {
      assert t == UnsupportedMessage(path, t)[|p|..|p| + |t|];
      assert u == UnsupportedMessage(path, u)[|p|..|p| + |u|];
    }
    if NotUniqueMessage(path, t) == NotUniqueMessage(path, u) {
      assert t == NotUniqueMessage(path, t)[|p|..|p| + |t|];
      assert u == NotUniqueMessage(path, u)[|p|..|p| + |u|];
    }
  }

  /** A complaint about one occurrence of a name in a list of types. */
  datatype TypeComplaint = Unsupported(name: string) | NotUnique(name: string)

  function ComplaintMessage(path: string, k: TypeComplaint): string
  {
    match k
    case Unsupported(t) => UnsupportedMessage(path, t)
    case NotUnique(t) => NotUniqueMessage(path, t)
  }

  /**
   * The complaints for a list of type names, in list order: for each name,
   * first whether it is supported, then whether it was seen before (`seen`
   * holds the names before the list). Each unsupported occurrence is
   * reported once, and every occurrence after the first once more.
   */
  function TypeComplaints(types: seq<string>, allowed: set<string>, seen: set<string>): (e: seq<TypeComplaint>)
    ensures forall t :: multiset(e)[Unsupported(t)] == (if t in allowed then 0 else multiset(types)[t])
    ensures forall t :: multiset(e)[NotUnique(t)]
                        == (if t in seen then multiset(types)[t] else if multiset(types)[t] == 0 then 0 else multiset(types)[t] - 1)
  {
    if types == [] then []
    else
      var t := types[0];
      var u := if t !in allowed then [Unsupported(t)] else [];
      var n := if t in seen then [NotUnique(t)] else [];
      var rest := TypeComplaints(types[1..], allowed, seen + {t});
      forall x
        ensures multiset(u + n + rest)[Unsupported(x)] == (if x in allowed then 0 else multiset(types)[x])
        ensures multiset(u + n + rest)[NotUnique(x)]
                == (if x in seen then multiset(types)[x] else if multiset(types)[x] == 0 then 0 else multiset(types)[x] - 1)
      {
        CountsStep(types, allowed, seen, rest, x);
      }
      u + n + rest
  }

  /** One name more in front of the list: its own complaints, then those of the rest, counted per name. */
  lemma CountsStep(types: seq<string>, allowed: set<string>, seen: set<string>, rest: seq<TypeComplaint>, x: string)
    requires |types| > 0
    requires multiset(rest)[Unsupported(x)] == (if x in allowed then 0 else multiset(types[1..])[x])
    requires multiset(rest)[NotUnique(x)]
             == (if x in seen + {types[0]} then multiset(types[1..])[x]
                 else if multiset(types[1..])[x] == 0 then 0 else multiset(types[1..])[x] - 1)
    ensures var u := if types[0] !in allowed then [Unsupported(types[0])] else [];
            var n := if types[0] in seen then [NotUnique(types[0])] else [];
            multiset(u + n + rest)[Unsupported(x)] == (if x in allowed then 0 else multiset(types)[x])
            && multiset(u + n + rest)[NotUnique(x)]
               == (if x in seen then multiset(types)[x] else if multiset(types)[x] == 0 then 0 else multiset(types)[x] - 1)
  {
    var t := types[0];
    assert types == [t] + types[1..];
    assert multiset(types)[x] == multiset(types[1..])[x] + (if x == t then 1 else 0);
  }

  /** Every complaint is about a name of the list. */
  lemma {:induction false} ComplaintAboutListed(types: seq<string>, allowed: set<string>, seen: set<string>, k: TypeComplaint)
    requires k in TypeComplaints(types, allowed, seen)
    ensures k.name in types
    decreases |types|
  {
    var t := types[0];
    if k in TypeComplaints(types[1..], allowed, seen + {t}) {
      ComplaintAboutListed(types[1..], allowed, seen + {t}, k);
    }
  }

  /** A list of names draws no complaint exactly when every name is supported and none repeats. */
  lemma TypeComplaintsSilent(types: seq<string>, allowed: set<string>)
    ensures TypeComplaints(types, allowed, {}) == [] <==>
      forall t :: multiset(types)[t] > 0 ==> t in allowed && multiset(types)[t] == 1
  {
    var e := TypeComplaints(types, allowed, {});
    if e != [] {
      var k := e[0];
      assert multiset(e)[k] > 0;
      if k.Unsupported? {
        assert multiset(e)[Unsupported(k.name)] > 0;
      } else {
        assert multiset(e)[NotUnique(k.name)] > 0;
      }
    }
  }

  /** The messages of the complaints, in the same order, all at `path.type`. */
  function TypeErrors(types: seq<string>, allowed: set<string>, path: string): (e: seq<string>)
    ensures |e| == |TypeComplaints(types, allowed, {})|
    ensures forall i :: 0 <= i < |e| ==> e[i] == ComplaintMessage(path, TypeComplaints(types, allowed, {})[i])
    ensures AllAt(e, path)
  {
    var ks := TypeComplaints(types, allowed, {});
    var e := seq(|ks|, i requires 0 <= i < |ks| => ComplaintMessage(path, ks[i]));
    forall i | 0 <= i < |e|
      ensures StartsWith(e[i], path + ".type")
    {
      AllAtMessage(path + ".type", "type `" + ks[i].name + "` is not supported");
      AllAtMessage(path + ".type", "type `" + ks[i].name + "` is not unique");
    }
    AllAtNarrow(e, path, ".type");
    e
  }

  /** Each complaint has its own message: the messages can be counted by complaint. */
  lemma MessageNamesComplaint(path: string, k: TypeComplaint, l: TypeComplaint)
    ensures ComplaintMessage(path, k) == ComplaintMessage(path, l) <==> k == l
  {
    TypeMessagesDistinct(path, k.name, l.name);
    TypeMessagesDistinct(path, l.name, k.name);
  }

  /** As written, a list holding `integer` is reported; the intended set lets it through. */
  lemma IntegerInTypeList(path: string)
    ensures TypeComplaints(["integer"], AllowedTypes, {}) == [Unsupported("integer")]
    ensures TypeErrors(["integer"], AllowedTypes, path) == [UnsupportedMessage(path, "integer")]
    ensures TypeComplaints(["integer"], AllowedTypesIntended, {}) == []
  {
    assert "integer" !in AllowedTypes by {
      assert "integer"[0] == 'i' && "boolean"[0] == 'b';
    }
    assert ["integer"][1..] == [];
  }

  /** The external docs of a schema, at `path.externalDocs`. */
  function DocsErrors(docs: Option<ExternalDocs>, options: set<Options>, path: string): (e: seq<string>)
    ensures e == [] <==> docs.None? || ExternalDocsErrors(docs.value, options, path + ".externalDocs") == []
    ensures AllAt(e, path)
  {
    if docs.Some? then
      AllAtNarrow(ExternalDocsErrors(docs.value, options, path + ".externalDocs"), path, ".externalDocs");
      ExternalDocsErrors(docs.value, options, path + ".externalDocs")
    else []
  }

  function ValidateDocs(docs: Option<ExternalDocs>, c: Context, path: string): (r: Context)
    ensures r == c.(errors := c.errors + DocsErrors(docs, c.options, path))
    ensures Extends(c, r) && Localized(c, r, path)
  {
    Appended(c, c.(errors := c.errors + DocsErrors(docs, c.options, path)), DocsErrors(docs, c.options, path), path);
    if docs.Some? then ValidateExternalDocs(docs.value, c, path + ".externalDocs") else c
  }

  /** `MultiSchema::validate_with_context`: the type names, then the external docs. */
  function ValidateMulti(types: seq<string>, docs: Option<ExternalDocs>, c: Context, path: string): (r: Context)
    ensures r == c.(errors := c.errors + (TypeErrors(types, AllowedTypes, path) + DocsErrors(docs, c.options, path)))
    ensures Extends(c, r) && Localized(c, r, path)
  {
    var e := TypeErrors(types, AllowedTypes, path);
    var c1 := c.(errors := c.errors + e);
    Appended(c, c1, e, path);
    var r := ValidateDocs(docs, c1, path);
    Then(c, c1, r, e, DocsErrors(docs, c.options, path));
    Chain(c, c1, r, path);
    r
  }

  /** `Schema::validate_with_context`. */
  function ValidateSchema(spec: Spec, s: Schema, c: Context, path: string, fuel: nat): (r: Context)
    ensures Extends(c, r) && Localized(c, r, path)
    ensures s.Multi? ==> r == ValidateMulti(s.types, s.docs, c, path)
    decreases fuel, s, 1
  {
    match s
    case Composite(kind, members) => ValidateMembers(spec, s, 0, c, path, fuel)
    case Not(x) =>
      var r := ValidateSchemaRef(spec, x, c, path + ".not", fuel);
      Narrow(c, r, path, ".not");
      r
    case Multi(types, docs) => ValidateMulti(types, docs, c, path)
    case Single(single) => ValidateSingle(spec, single, c, path, fuel)
  }

  /** The members of a composition from the `i`-th on, at `path.allOf[i]`, `path.anyOf[i]` or `path.oneOf[i]`. */
  function ValidateMembers(spec: Spec, s: Schema, i: nat, c: Context, path: string, fuel: nat): (r: Context)
    requires s.Composite? && i <= |s.members|
    ensures Extends(c, r) && Localized(c, r, path)
    decreases fuel, s, 0, |s.members| - i
  {
    if i == |s.members| then c
    else
      var suffix := V30Schema.MemberSuffix(s.kind, i);
      var c1 := ValidateSchemaRef(spec, s.members[i], c, path + suffix, fuel);
      Narrow(c, c1, path, suffix);
      var r := ValidateMembers(spec, s, i + 1, c1, path, fuel);
      Chain(c, c1, r, path);
      r
  }

  /** `SingleSchema::validate_with_context`: only a schema with children descends. */
  function ValidateSingle(spec: Spec, single: Single, c: Context, path: string, fuel: nat): (r: Context)
    ensures Extends(c, r) && Localized(c, r, path)
    ensures single.Scalar? ==> r == c.(errors := c.errors + DocsErrors(single.docs, c.options, path))
    decreases fuel, single, 1
  {
    match single
    case Scalar(_, docs) => ValidateDocs(docs, c, path)
    case Array(docs, items) =>
      var c1 := ValidateDocs(docs, c, path);
      var r := ValidateSubschema(spec, single, ItemsField, c1, path, fuel);
      Chain(c, c1, r, path);
      r
    case Object(docs, _, _, _, _, names) =>
      var c1 := ValidateDocs(docs, c, path);
      var c2 := ValidateProperties(spec, single, 0, c1, path, fuel);
      var c3 := ValidatePatternProperties(spec, single, 0, c2, path, fuel);
      var c4 := ValidateSubschema(spec, single, AdditionalField, c3, path, fuel);
      var c5 := ValidateSubschema(spec, single, UnevaluatedField, c4, path, fuel);
      var r := if names.Some? then ValidateSchemaRef(spec, names.value, c5, path + ".propertyNames", fuel) else c5;
      assert Localized(c5, r, path) by {
        if names.Some? { Narrow(c5, r, path, ".propertyNames"); } else { Unchanged(c5, r, path); }
      }
      Chain(c, c1, c2, path);
      Chain(c, c2, c3, path);
      Chain(c, c3, c4, path);
      Chain(c, c4, c5, path);
      Chain(c, c5, r, path);
      r
  }

  /** The fields that hold a boolean or a schema. */
  datatype SubField = ItemsField | AdditionalField | UnevaluatedField

  function FieldSuffix(f: SubField): string
  {
    match f
    case ItemsField => ".items"
    case AdditionalField => ".additionalProperties"
    case UnevaluatedField => ".unevaluatedProperties"
  }

  function FieldOf(o: Single, f: SubField): Option<BoolOr<RefOr<Schema>>>
    requires if f == ItemsField then o.Array? else o.Object?
  {
    match f
    case ItemsField => o.items
    case AdditionalField => o.additionalProperties
    case UnevaluatedField => o.unevaluatedProperties
  }

  /** Such a field: a boolean (or nothing) is skipped, a schema is validated at `path` and the field's name. */
  function ValidateSubschema(spec: Spec, o: Single, f: SubField, c: Context, path: string, fuel: nat): (r: Context)
    requires if f == ItemsField then o.Array? else o.Object?
    ensures Extends(c, r) && Localized(c, r, path)
    ensures FieldOf(o, f).None? || FieldOf(o, f).value.Bool? ==> r == c
    ensures FieldOf(o, f).Some? && FieldOf(o, f).value.Item? ==>
      r == ValidateSchemaRef(spec, FieldOf(o, f).value.item, c, path + FieldSuffix(f), fuel)
    decreases fuel, o, 0, 0
  {
    var x := match f
      case ItemsField => o.items
      case AdditionalField => o.additionalProperties
      case UnevaluatedField => o.unevaluatedProperties;
    match x
    case Some(Item(schema)) =>
      var r := ValidateSchemaRef(spec, schema, c, path + FieldSuffix(f), fuel);
      Narrow(c, r, path, FieldSuffix(f));
      r
    case _ => c
  }

  function PropertySuffix(name: string): string
  {
    ".properties." + name
  }

  /** Each property from the `i`-th on, in key order, at `path.properties.name`. */
  function ValidateProperties(spec: Spec, o: Single, i: nat, c: Context, path: string, fuel: nat): (r: Context)
    requires o.Object? && i <= |o.properties|
    ensures Extends(c, r) && Localized(c, r, path)
    decreases fuel, o, 0, |o.properties| - i
  {
    if i == |o.properties| then c
    else
      var suffix := PropertySuffix(o.properties[i].0);
      var c1 := ValidateSchemaRef(spec, o.properties[i].1, c, path + suffix, fuel);
      Narrow(c, c1, path, suffix);
      var r := ValidateProperties(spec, o, i + 1, c1, path, fuel);
      Chain(c, c1, r, path);
      r
  }

  function PatternSuffix(pattern: string): string
  {
    ".pattern_properties[" + pattern + "]"
  }

  /** What the engine's verdict on a pattern key reads, at the pattern's own entry. */
  function PatternKeyMessage(path: string, pattern: string, error: string): string
  {
    path + PatternSuffix(pattern) + ": " + ("pattern `" + pattern + "` is invalid: " + error)
  }

  /**
   * One pattern property: its schema, then its key handed to the engine,
   * both at `path.pattern_properties[pattern]`.
   */
  function ValidatePatternProperty(spec: Spec, o: Single, i: nat, c: Context, path: string, fuel: nat): (r: Context)
    requires o.Object? && i < |o.patternProperties|
    ensures Extends(c, r) && Localized(c, r, path)
    ensures o.patternProperties[i].0 in c.regex ==>
      |r.errors| > 0 && r.errors[|r.errors| - 1] == PatternKeyMessage(path, o.patternProperties[i].0, c.regex[o.patternProperties[i].0])
    ensures o.patternProperties[i].0 !in c.regex ==>
      r == ValidateSchemaRef(spec, o.patternProperties[i].1, c, path + PatternSuffix(o.patternProperties[i].0), fuel)
    decreases fuel, o, 0, |o.patternProperties| - i, 0
  {
    var pattern := o.patternProperties[i].0;
    var at := path + PatternSuffix(pattern);
    var c1 := ValidateSchemaRef(spec, o.patternProperties[i].1, c, at, fuel);
    var r := ValidatePattern(pattern, c1, at);
    assert Localized(c1, r, at) by {
      if pattern in c1.regex {
        Pushed(c1, at, "pattern `" + pattern + "` is invalid: " + c1.regex[pattern]);
      } else {
        Unchanged(c1, r, at);
      }
    }
    Chain(c, c1, r, at);
    Narrow(c, r, path, PatternSuffix(pattern));
    r
  }

  /** The pattern properties from the `i`-th on, in key order. */
  function ValidatePatternProperties(spec: Spec, o: Single, i: nat, c: Context, path: string, fuel: nat): (r: Context)
    requires o.Object? && i <= |o.patternProperties|
    ensures Extends(c, r) && Localized(c, r, path)
    decreases fuel, o, 0, |o.patternProperties| - i, 1
  {
    if i == |o.patternProperties| then c
    else
      var c1 := ValidatePatternProperty(spec, o, i, c, path, fuel);
      var r := ValidatePatternProperties(spec, o, i + 1, c1, path, fuel);
      Chain(c, c1, r, path);
      r
  }

  /** Every pattern key the engine rejects is reported at its own entry, whatever its schema reports. */
  lemma {:induction false} PatternKeyReported(spec: Spec, o: Single, i: nat, c: Context, path: string, fuel: nat, k: nat)
    requires o.Object? && i <= k < |o.patternProperties| && o.patternProperties[k].0 in c.regex
    ensures PatternKeyMessage(path, o.patternProperties[k].0, c.regex[o.patternProperties[k].0])
            in Added(c, ValidatePatternProperties(spec, o, i, c, path, fuel))
    decreases |o.patternProperties| - i
  {
    var c1 := ValidatePatternProperty(spec, o, i, c, path, fuel);
    var r := ValidatePatternProperties(spec, o, i + 1, c1, path, fuel);
    var m := PatternKeyMessage(path, o.patternProperties[k].0, c.regex[o.patternProperties[k].0]);
    if k == i {
      assert Added(c, c1)[|c1.errors| - 1 - |c.errors|] == m;
      AddedEarlier(c, c1, r, m);
    } else {
      PatternKeyReported(spec, o, i + 1, c1, path, fuel, k);
      AddedLater(c, c1, r, m);
    }
  }

  /** The `Ref` arm for schemas up to the descent: report, visit, and resolve the reference once. */
  function SchemaStep(spec: Spec, reference: string, c: Context, path: string): (r: Step<Schema>)
    ensures Extends(c, r.ctx) && Localized(c, r.ctx, path)
    ensures r.ctx.visited == c.visited + {reference}
    ensures r.Descend? ==> StartsWith(reference, Internal)
    ensures reference != "" && reference in c.visited ==> r == Stop(c)
  {
    var resolved := SchemaItem(spec, Ref(reference));
    FollowRefLocalized(c, path, reference, resolved);
    RevisitIsSilent(c, path, reference, resolved);
    FollowRef(c, path, reference, resolved)
  }

  /** `RefOr<Box<Schema>>::validate_with_context_boxed`: an item in place, a reference at its own string, once. */
  function ValidateSchemaRef(spec: Spec, x: RefOr<Schema>, c: Context, path: string, fuel: nat): (r: Context)
    ensures Extends(c, r) && Localized(c, r, path)
    ensures x.Item? ==> r == ValidateSchema(spec, x.item, c, path, fuel)
    ensures x.Ref? ==> x.reference in r.visited
    ensures x.Ref? && x.reference != "" && x.reference in c.visited ==> r == c
    decreases fuel, x, 0
  {
    match x
    case Item(s) => ValidateSchema(spec, s, c, path, fuel)
    case Ref(reference) =>
      var step := SchemaStep(spec, reference, c, path);
      if step.Descend? && fuel > 0 then
        var r := ValidateSchema(spec, step.target, step.ctx, reference, fuel - 1);
        AtReference(step.ctx, r, reference, path);
        Chain(c, step.ctx, r, path);
        r
      else if step.Descend? then Cut(step.ctx) else step.ctx
  }

  /** The default schema, an empty object, reports nothing and visits nothing. */
  lemma DefaultSilent(spec: Spec, c: Context, path: string, fuel: nat)
    ensures ValidateSchema(spec, DefaultSchema(), c, path, fuel) == c
  {
    var o := DefaultSchema().single;
    var c2 := ValidateProperties(spec, o, 0, c, path, fuel);
    assert c2 == c;
    assert ValidatePatternProperties(spec, o, 0, c2, path, fuel) == c;
  }

  /** A string schema's pattern is not checked in this dialect: it changes nothing. */
  lemma PatternIgnored(spec: Spec, p: Option<string>, docs: Option<ExternalDocs>, c: Context, path: string, fuel: nat)
    ensures ValidateSchema(spec, Single(Scalar(StringKind(p), docs)), c, path, fuel)
         == ValidateSchema(spec, Single(Scalar(StringKind(None), docs)), c, path, fuel)
  {
  }
}
