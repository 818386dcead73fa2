/**
 * How an OpenAPI 3.0 Schema Object is told apart on input, as for 3.1: the
 * untagged decoder tries `allOf`, `anyOf`, `oneOf`, the negation, then a
 * single-typed schema, which is last and is what an empty object becomes.
 * A list composition carries its discriminator beside the list.
 *
 * The negation's field is renamed to `allOf` here too, so `KeyOf` and
 * `Decode` are the as-written codec and `KeyOfIntended` and
 * `DecodeIntended` the one that writes and reads `not`. The display names
 * of the single-typed schemas are the 3.1 ones.
 */
module V30SchemaKeys {
  import opened Wrappers
  import opened Reference
  import opened V30Types
  import V31SchemaKeys

  /** The value under a composition keyword, with the discriminator written beside a list. */
  datatype KeywordValue =
    | One(schema: RefOr<Schema>)
    | Many(schemas: seq<RefOr<Schema>>, discriminator: Option<Discriminator>)

  predicate IsComposition(s: Schema)
  {
    s.Composite? || s.Not?
  }

  /** The keyword a composition is written under, as the source renames the fields. */
  function KeyOf(s: Schema): (k: string)
    requires IsComposition(s)
    ensures s.Not? ==> k == "allOf"
  {
    if s.Composite? then V31SchemaKeys.CompositionKeyword(s.kind) else "allOf"
  }

  /** The keyword the negation is evidently meant to have. */
  function KeyOfIntended(s: Schema): (k: string)
    requires IsComposition(s)
    ensures s.Not? ==> k == "not"
  {
    if s.Composite? then V31SchemaKeys.CompositionKeyword(s.kind) else "not"
  }

  function ValueOf(s: Schema): KeywordValue
    requires IsComposition(s)
  {
    if s.Composite? then Many(s.members, s.discriminator) else One(s.not)
  }

  function Encode(s: Schema): (r: (string, KeywordValue))
    requires IsComposition(s)
  {
    (KeyOf(s), ValueOf(s))
  }

  function EncodeIntended(s: Schema): (r: (string, KeywordValue))
    requires IsComposition(s)
  {
    (KeyOfIntended(s), ValueOf(s))
  }

  /** The list compositions in the order the untagged decoder tries them. */
  function DecodeList(key: string, v: KeywordValue): (r: Option<Schema>)
    ensures r.Some? ==> v.Many? && r.value.Composite? && r.value.members == v.schemas
                        && r.value.discriminator == v.discriminator
                        && V31SchemaKeys.CompositionKeyword(r.value.kind) == key
    ensures v.Many? && key in {"allOf", "anyOf", "oneOf"} ==> r.Some?
  {
    if !v.Many? then None
    else if key == "allOf" then Some(Composite(AllOfKind, v.schemas, v.discriminator))
    else if key == "anyOf" then Some(Composite(AnyOfKind, v.schemas, v.discriminator))
    else if key == "oneOf" then Some(Composite(OneOfKind, v.schemas, v.discriminator))
    else None
  }

  /** The untagged decoder, up to the negation, whose keyword is `negation`. */
  function DecodeWith(negation: string, key: string, v: KeywordValue): (r: Option<Schema>)
  {
    if DecodeList(key, v).Some? then DecodeList(key, v)
    else if key == negation && v.One? then Some(Not(v.schema))
    else None
  }

  function Decode(key: string, v: KeywordValue): Option<Schema>
  {
    DecodeWith("allOf", key, v)
  }

  function DecodeIntended(key: string, v: KeywordValue): Option<Schema>
  {
    DecodeWith("not", key, v)
  }

  /** As written, every composition, discriminator included, reads back as itself. */
  lemma RoundTrip(s: Schema)
    requires IsComposition(s)
    ensures Decode(Encode(s).0, Encode(s).1) == Some(s)
  {
  }

  lemma DecodeInverse(key: string, v: KeywordValue)
    requires Decode(key, v).Some?
    ensures IsComposition(Decode(key, v).value) && Encode(Decode(key, v).value) == (key, v)
  {
  }

  lemma RoundTripIntended(s: Schema)
    requires IsComposition(s)
    ensures DecodeIntended(EncodeIntended(s).0, EncodeIntended(s).1) == Some(s)
  {
  }

  lemma DecodeIntendedInverse(key: string, v: KeywordValue)
    requires DecodeIntended(key, v).Some?
    ensures IsComposition(DecodeIntended(key, v).value) && EncodeIntended(DecodeIntended(key, v).value) == (key, v)
  {
  }

  /** As written, the negation shares the `allOf` keyword and a written `not` is not a negation. */
  lemma NotKeyword(x: RefOr<Schema>, members: seq<RefOr<Schema>>, d: Option<Discriminator>)
    ensures KeyOf(Not(x)) == KeyOf(Composite(AllOfKind, members, d))
    ensures Decode("not", One(x)).None?
    ensures DecodeIntended("not", One(x)) == Some(Not(x))
    ensures KeyOfIntended(Not(x)) != KeyOfIntended(Composite(AllOfKind, members, d))
  {
  }

  /** `impl Display for SingleSchema`: the type a single-typed schema is fixed to. */
  function TagOf(s: Single): (t: V31SchemaKeys.TypeTag)
    ensures s.Array? <==> t == V31SchemaKeys.ArrayTag
    ensures s.Object? <==> t == V31SchemaKeys.ObjectTag
    ensures s.Scalar? && s.scalar.StringType? <==> t == V31SchemaKeys.StringTag
  {
    match s
    case Scalar(StringType(_), _, _) => V31SchemaKeys.StringTag
    case Scalar(IntegerType, _, _) => V31SchemaKeys.IntegerTag
    case Scalar(NumberType, _, _) => V31SchemaKeys.NumberTag
    case Scalar(BooleanType, _, _) => V31SchemaKeys.BooleanTag
    case Scalar(NullType, _, _) => V31SchemaKeys.NullTag
    case Array(_, _, _) => V31SchemaKeys.ArrayTag
    case Object(_, _, _, _, _) => V31SchemaKeys.ObjectTag
  }

  /** Distinct kinds of single-typed schema display distinct names. */
  lemma DisplayDistinct(a: Single, b: Single)
    ensures V31SchemaKeys.TypeName(TagOf(a)) == V31SchemaKeys.TypeName(TagOf(b)) <==> TagOf(a) == TagOf(b)
  {
    V31SchemaKeys.TypeNameRoundTrip(TagOf(a), V31SchemaKeys.TypeName(TagOf(b)));
  }

  /** `impl Default for Schema`: a single-typed object schema with nothing in it. */
  function DefaultSchema(): (r: Schema)
    ensures r.Single? && TagOf(r.single) == V31SchemaKeys.ObjectTag
    ensures r.single.properties == [] && r.single.required == []
    ensures r.single.docs.None? && r.single.xml.None? && r.single.additionalProperties.None?
  {
    Single(Object(None, None, [], None, []))
  }
}
