/**
 * `BoolOr<T>`: a field that holds either a boolean or an object, as JSON
 * Schema allows for `items`, `additionalProperties` and the like. The enum
 * is untagged: on input the boolean form is tried first.
 */
module BoolOr {
  import opened Wrappers
  import Json

  datatype BoolOr<T> = Bool(b: bool) | Item(item: T)

  function Encode<T>(x: BoolOr<T>, encode: T -> Json.Value): (r: Json.Value)
    ensures x.Bool? ==> r == Json.Bool(x.b)
    ensures x.Item? ==> r == encode(x.item)
  {
    match x
    case Bool(b) => Json.Bool(b)
    case Item(t) => encode(t)
  }

  /** Untagged decoding: a JSON boolean is `Bool`, anything the item decoder accepts is `Item`. */
  function Decode<T>(v: Json.Value, decode: Json.Value -> Option<T>): (r: Option<BoolOr<T>>)
    ensures v.Bool? ==> r == Some(BoolOr.Bool(v.b))
    ensures !v.Bool? ==> (r.Some? <==> decode(v).Some?)
    ensures !v.Bool? && r.Some? ==> r.value == Item(decode(v).value)
  {
    match v
    case Bool(b) => Some(BoolOr.Bool(b))
    case _ =>
      match decode(v)
      case Some(t) => Some(Item(t))
      case None => None
  }

  /** Encoding then decoding is the identity when the item codec round-trips and never yields a boolean. */
  lemma RoundTrip<T>(x: BoolOr<T>, encode: T -> Json.Value, decode: Json.Value -> Option<T>)
    requires forall t :: !encode(t).Bool? && decode(encode(t)) == Some(t)
    ensures Decode(Encode(x, encode), decode) == Some(x)
  {
    if x.Item? {
      assert !encode(x.item).Bool? && decode(encode(x.item)) == Some(x.item);
    }
  }
}
