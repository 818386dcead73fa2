/**
 * The version strings of the three dialects: the `swagger` field of
 * Swagger 2.0 and the `openapi` field of OpenAPI 3.0.x and 3.1.0. Decoding
 * rejects every other string with the message the enum deserializer gives.
 */
module Versions {
  import opened Wrappers

  /** Swagger 2.0 knows a single version. */
  datatype V2 = V2_0

  function PrintV2(v: V2): string
  {
    "2.0"
  }

  function ParseV2(s: string): (r: Result<V2, string>)
    ensures r.Ok? <==> s == "2.0"
    ensures r.Err? ==> r.error == "unknown variant `" + s + "`, expected `2.0`"
  {
    if s == "2.0" then Ok(V2_0) else Err("unknown variant `" + s + "`, expected `2.0`")
  }

  lemma V2RoundTrip(v: V2, s: string)
    ensures ParseV2(PrintV2(v)) == Ok(v)
    ensures ParseV2(s).Ok? ==> PrintV2(ParseV2(s).value) == s
  {
  }

  /** OpenAPI 3.0: five patch levels; `3.0` is an alias of the newest one, which is also the default. */
  datatype V30 = V3_0_0 | V3_0_1 | V3_0_2 | V3_0_3 | V3_0_4

  const DefaultV30: V30 := V3_0_4

  function PrintV30(v: V30): string
  {
    match v
    case V3_0_0 => "3.0.0"
    case V3_0_1 => "3.0.1"
    case V3_0_2 => "3.0.2"
    case V3_0_3 => "3.0.3"
    case V3_0_4 => "3.0.4"
  }

  const V30Expected := "expected one of `3.0.0`, `3.0.1`, `3.0.2`, `3.0.3`, `3.0`, `3.0.4`"

  function ParseV30(s: string): (r: Result<V30, string>)
    ensures r.Ok? <==> s in {"3.0.0", "3.0.1", "3.0.2", "3.0.3", "3.0.4", "3.0"}
    ensures r.Err? ==> r.error == "unknown variant `" + s + "`, " + V30Expected
  {
    if s == "3.0.0" then Ok(V3_0_0)
    else if s == "3.0.1" then Ok(V3_0_1)
    else if s == "3.0.2" then Ok(V3_0_2)
    else if s == "3.0.3" then Ok(V3_0_3)
    else if s == "3.0.4" || s == "3.0" then Ok(V3_0_4)
    else Err("unknown variant `" + s + "`, " + V30Expected)
  }

  /** Printing is injective and decodes back; the alias is the one accepted string that is never printed. */
  lemma V30RoundTrip(v: V30, w: V30)
    ensures ParseV30(PrintV30(v)) == Ok(v)
    ensures PrintV30(v) == PrintV30(w) ==> v == w
    ensures PrintV30(v) != "3.0"
  {
  }

  lemma V30Alias()
    ensures ParseV30("3.0") == Ok(DefaultV30)
    ensures PrintV30(DefaultV30) == "3.0.4"
    ensures ParseV30("").Err? && ParseV30("3.1.0").Err?
  {
  }

  /** OpenAPI 3.1 accepts exactly `3.1.0`. */
  datatype V31 = V3_1_0

  function PrintV31(v: V31): string
  {
    "3.1.0"
  }

  function ParseV31(s: string): (r: Result<V31, string>)
    ensures r.Ok? <==> s == "3.1.0"
    ensures r.Err? ==> r.error == "unknown variant `" + s + "`, expected `3.1.0`"
  {
    if s == "3.1.0" then Ok(V3_1_0) else Err("unknown variant `" + s + "`, expected `3.1.0`")
  }

  lemma V31RoundTrip(v: V31, s: string)
    ensures ParseV31(PrintV31(v)) == Ok(v)
    ensures ParseV31(s).Ok? ==> PrintV31(ParseV31(s).value) == s
  {
  }
}
