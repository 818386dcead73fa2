/**
 * How an OpenAPI 3.1 Schema Object is told apart on input. The enum is
 * untagged: the decoder tries `allOf`, `anyOf`, `oneOf`, then the negation,
 * then a list of types, then a single-typed schema, which is last and is
 * what an empty object becomes. Here a composition is reduced to the
 * keyword it is written under and the shape of the value there: one schema
 * or a list of them.
 *
 * The negation's one field is renamed to `allOf` in the source, so it is
 * written, and read back, under the same keyword as the `allOf`
 * composition, told apart from it only by the value's shape; a document
 * that says `not` is not read as a negation at all. `KeyOf` and `Decode`
 * are the as-written codec; `KeyOfIntended` and `DecodeIntended` use `not`.
 *
 * The single-typed schemas are named, on output and in messages, by the
 * `type` value each one is fixed to.
 */
module V31SchemaKeys {
  import opened Wrappers
  import opened SortedMap
  import opened Reference
  import opened V31Types
  import V30Types

  /** The value under a composition keyword. */
  datatype KeywordValue = One(schema: RefOr<Schema>) | Many(schemas: seq<RefOr<Schema>>)

  predicate IsComposition(s: Schema)
  {
    s.Composite? || s.Not?
  }

  function CompositionKeyword(k: Composition): string
  {
    match k
    case AllOfKind => "allOf"
    case AnyOfKind => "anyOf"
    case OneOfKind => "oneOf"
  }

  /** The keyword a composition is written under, as the source renames the fields. */
  function KeyOf(s: Schema): (k: string)
    requires IsComposition(s)
    ensures s.Not? ==> k == "allOf"
  {
    if s.Composite? then CompositionKeyword(s.kind) else "allOf"
  }

  /** The keyword the negation is evidently meant to have. */
  function KeyOfIntended(s: Schema): (k: string)
    requires IsComposition(s)
    ensures s.Not? ==> k == "not"
  {
    if s.Composite? then CompositionKeyword(s.kind) else "not"
  }

  function ValueOf(s: Schema): KeywordValue
    requires IsComposition(s)
  {
    if s.Composite? then Many(s.members) else One(s.not)
  }

  /** Serialization of a composition: keyword and value. */
  function Encode(s: Schema): (r: (string, KeywordValue))
    requires IsComposition(s)
  {
    (KeyOf(s), ValueOf(s))
  }

  function EncodeIntended(s: Schema): (r: (string, KeywordValue))
    requires IsComposition(s)
  {
    (KeyOfIntended(s), ValueOf(s))
  }

  /** The list compositions in the order the untagged decoder tries them. */
  function DecodeList(key: string, v: KeywordValue): (r: Option<Schema>)
    ensures r.Some? ==> v.Many? && r.value.Composite? && r.value.members == v.schemas && CompositionKeyword(r.value.kind) == key
    ensures v.Many? && key in {"allOf", "anyOf", "oneOf"} ==> r.Some?
  {
    if !v.Many? then None
    else if key == "allOf" then Some(Composite(V30Types.AllOfKind, v.schemas))
    else if key == "anyOf" then Some(Composite(V30Types.AnyOfKind, v.schemas))
    else if key == "oneOf" then Some(Composite(V30Types.OneOfKind, v.schemas))
    else None
  }

  /**
   * The untagged decoder, up to the negation: a list under a composition
   * keyword, then one schema under the negation's keyword `negation`.
   * Anything else is left to the typed schemas, which are not read here.
   */
  function DecodeWith(negation: string, key: string, v: KeywordValue): (r: Option<Schema>)
  {
    if DecodeList(key, v).Some? then DecodeList(key, v)
    else if key == negation && v.One? then Some(Not(v.schema))
    else None
  }

  function Decode(key: string, v: KeywordValue): Option<Schema>
  {
    DecodeWith("allOf", key, v)
  }

  function DecodeIntended(key: string, v: KeywordValue): Option<Schema>
  {
    DecodeWith("not", key, v)
  }

  /** As written, every composition reads back as itself: the value's shape keeps the negation apart. */
  lemma RoundTrip(s: Schema)
    requires IsComposition(s)
    ensures Decode(Encode(s).0, Encode(s).1) == Some(s)
  {
  }

  /** And what the decoder accepts, the encoder writes back the same way. */
  lemma DecodeInverse(key: string, v: KeywordValue)
    requires Decode(key, v).Some?
    ensures IsComposition(Decode(key, v).value) && Encode(Decode(key, v).value) == (key, v)
  {
  }

  lemma RoundTripIntended(s: Schema)
    requires IsComposition(s)
    ensures DecodeIntended(EncodeIntended(s).0, EncodeIntended(s).1) == Some(s)
  {
  }

  lemma DecodeIntendedInverse(key: string, v: KeywordValue)
    requires DecodeIntended(key, v).Some?
    ensures IsComposition(DecodeIntended(key, v).value) && EncodeIntended(DecodeIntended(key, v).value) == (key, v)
  {
  }

  /**
   * As written, a negation and an `allOf` composition share their keyword,
   * and a document that writes `not` does not hold a negation; with the
   * keyword the standard gives it, it does.
   */
  lemma NotKeyword(x: RefOr<Schema>, members: seq<RefOr<Schema>>)
    ensures KeyOf(Not(x)) == KeyOf(Composite(V30Types.AllOfKind, members))
    ensures Decode("not", One(x)).None?
    ensures DecodeIntended("not", One(x)) == Some(Not(x))
    ensures KeyOfIntended(Not(x)) != KeyOfIntended(Composite(V30Types.AllOfKind, members))
  {
  }

  /** The `type` a single-typed schema is fixed to. */
  datatype TypeTag = StringTag | IntegerTag | NumberTag | BooleanTag | ArrayTag | NullTag | ObjectTag

  function TagOf(s: Single): (t: TypeTag)
    ensures s.Array? <==> t == ArrayTag
    ensures s.Object? <==> t == ObjectTag
  {
    match s
    case Scalar(StringKind(_), _) => StringTag
    case Scalar(IntegerKind, _) => IntegerTag
    case Scalar(NumberKind, _) => NumberTag
    case Scalar(BooleanKind, _) => BooleanTag
    case Scalar(NullKind, _) => NullTag
    case Array(_, _) => ArrayTag
    case Object(_, _, _, _, _, _) => ObjectTag
  }

  /** `impl Display for SingleSchema`: the type name. */
  function TypeName(t: TypeTag): string
  {
    match t
    case StringTag => "string"
    case IntegerTag => "integer"
    case NumberTag => "number"
    case BooleanTag => "boolean"
    case ArrayTag => "array"
    case NullTag => "null"
    case ObjectTag => "object"
  }

  /** Reading a `type` value back: only the seven names are types. */
  function TagNamed(name: string): (r: Option<TypeTag>)
  {
    if name == "string" then Some(StringTag)
    else if name == "integer" then Some(IntegerTag)
    else if name == "number" then Some(NumberTag)
    else if name == "boolean" then Some(BooleanTag)
    else if name == "array" then Some(ArrayTag)
    else if name == "null" then Some(NullTag)
    else if name == "object" then Some(ObjectTag)
    else None
  }

  /** The display names are the `type` values: distinct, and read back as the same type. */
  lemma TypeNameRoundTrip(t: TypeTag, name: string)
    ensures TagNamed(TypeName(t)) == Some(t)
    ensures TagNamed(name) == Some(t) ==> TypeName(t) == name
  {
  }

  /** `impl Default for Schema`: a single-typed object schema with nothing in it. */
  function DefaultSchema(): (r: Schema)
    ensures r.Single? && TagOf(r.single) == ObjectTag
    ensures r.single.properties == [] && r.single.patternProperties == []
    ensures r.single.docs.None? && r.single.additionalProperties.None?
    ensures r.single.unevaluatedProperties.None? && r.single.propertyNames.None?
  {
    Single(Object(None, [], [], None, None, None))
  }
}
