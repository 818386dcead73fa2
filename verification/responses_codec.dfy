/**
 * The hand-written (de)serializer of the Responses Object, identical in the
 * three dialects: a `default` entry, `x-` extensions, and status-code keys.
 * The response values themselves are carried as opaque JSON.
 */
module ResponsesCodec {
  import opened Wrappers
  import opened Strings
  import opened SortedMap
  import opened KeyedObject
  import opened StatusCode
  import opened Json
  import Extensions

  datatype Responses = Responses(
    default: Option<Value>,
    responses: Option<Entries<Value>>,
    extensions: Option<Entries<Value>>)

  /** serde's `unknown_field` message with the visitor's field list. */
  function UnknownField(k: string): string
  {
    "unknown field `" + k + "`, expected one of `default`, `x-...`, `1xx`, `2xx`, `3xx`, `4xx`, `5xx`"
  }

  function Classify(k: string): (s: Slot)
    ensures s.Member? ==> s.name == k && IsStatusCode(k)
  {
    if k == "default" then Fixed("default", "default")
    else if Extensions.IsExtensionKey(k) then Extension
    else if IsStatusCode(k) then Member(k)
    else Reject(UnknownField(k))
  }

  /** A status-code key is neither `default` nor an extension, so it is always stored as a code. */
  lemma StatusCodeIsMember(k: string)
    requires IsStatusCode(k)
    ensures Classify(k) == Member(k)
  {
    assert k[0] == '+' || '0' <= k[0] <= '9';
    assert k != "default" by { assert "default"[0] == 'd'; }
    FirstCharDiffers(k, "x-");
  }

  /**
   * `Responses::deserialize`: accepted exactly when no key is refused or
   * repeated; otherwise the message names the first offending entry.
   */
  function Decode(obj: seq<(string, Value)>): (r: Result<Responses, string>)
    ensures r.Ok? <==> Clean(obj, Classify)
    ensures r.Err? ==> exists j :: FirstBad(obj, Classify, j) && r.error == EntryError((obj[j].0, Classify), Backtick)
  {
    var res := Run(obj, Classify, Backtick);
    if res.Err? then Err(res.error) else Ok(Shape(res.value))
  }

  /**
   * What a successful decode holds: the last `default` entry, and non-empty
   * sorted maps giving, for each status code and `x-` key, its last value.
   */
  lemma DecodeFields(obj: seq<(string, Value)>)
    requires Decode(obj).Ok?
    ensures Decode(obj).value.default.Some? <==> "default" in Stored(obj, Classify)
    ensures Decode(obj).value.default.Some? ==> Decode(obj).value.default.value == Stored(obj, Classify)["default"]
    ensures Decode(obj).value.responses.Some? ==>
      |Decode(obj).value.responses.value| > 0 && Sorted(Decode(obj).value.responses.value)
      && forall k :: Get(Decode(obj).value.responses.value, k) == FindMember(obj, Classify, k)
    ensures Decode(obj).value.responses.None? ==> forall k :: FindMember(obj, Classify, k).None?
    ensures Decode(obj).value.extensions.Some? ==>
      |Decode(obj).value.extensions.value| > 0 && Sorted(Decode(obj).value.extensions.value)
      && forall k :: Get(Decode(obj).value.extensions.value, k) == FindExtension(obj, Classify, k)
    ensures Decode(obj).value.extensions.None? ==> forall k :: FindExtension(obj, Classify, k).None?
  {
  }

  /** The fields of the visitor's result: empty maps collapse to `None`. */
  function Shape(d: Decoded<Value>): (r: Responses)
    ensures r.default.Some? <==> "default" in d.fixed
    ensures r.default.Some? ==> r.default.value == d.fixed["default"]
    ensures r.responses.None? <==> d.members == []
    ensures r.responses.Some? ==> r.responses.value == d.members
    ensures r.extensions.None? <==> d.extensions == []
    ensures r.extensions.Some? ==> r.extensions.value == d.extensions
  {
    Responses(
      if "default" in d.fixed then Some(d.fixed["default"]) else None,
      if |d.members| == 0 then None else Some(d.members),
      if |d.extensions| == 0 then None else Some(d.extensions))
  }

  /** `Responses::serialize`: `default`, then the codes in key order, then the `x-` extensions. */
  function Encode(r: Responses): (out: seq<(string, Value)>)
  {
    DefaultBlock(r.default)
    + (if r.responses.Some? then r.responses.value else [])
    + Extensions.Encode(r.extensions)
  }

  /** What a decoder can produce: non-empty sorted maps of status codes and of `x-` keys. */
  predicate WellFormed(r: Responses)
  {
    (r.responses.Some? ==>
       |r.responses.value| > 0 && Sorted(r.responses.value)
       && forall i :: 0 <= i < |r.responses.value| ==> IsStatusCode(r.responses.value[i].0))
    && (r.extensions.Some? ==>
          |r.extensions.value| > 0 && Sorted(r.extensions.value)
          && forall i :: 0 <= i < |r.extensions.value| ==> Extensions.IsExtensionKey(r.extensions.value[i].0))
  }

  /** Encoding a well-formed Responses object and decoding the result gives it back. */
  lemma RoundTrip(r: Responses)
    requires WellFormed(r)
    ensures Decode(Encode(r)) == Ok(r)
  {
    var d := DefaultBlock(r.default);
    var c := if r.responses.Some? then r.responses.value else [];
    var x := if r.extensions.Some? then r.extensions.value else [];
    EncodeIsBlocks(r);
    CodesAreMembers(c);
    ExtensionKeysAreExtensions(x);
    BlocksDecode(d, c, x, true, Classify, Backtick);
    ShapeOfBlocks(r);
  }

  /** The encoding is the three blocks, `default` first. */
  lemma EncodeIsBlocks(r: Responses)
    requires WellFormed(r)
    ensures Encode(r) == Blocks(DefaultBlock(r.default), if r.responses.Some? then r.responses.value else [],
                                if r.extensions.Some? then r.extensions.value else [], true)
  {
    if r.extensions.Some? {
      Extensions.FilterKeepsAll(r.extensions.value, Extensions.IsExtensionKey);
    }
  }

  /** The blocks decoded back give the object's fields. */
  lemma ShapeOfBlocks(r: Responses)
    requires WellFormed(r)
    ensures Shape(Decoded(Stored(DefaultBlock(r.default), Classify), if r.responses.Some? then r.responses.value else [],
                          if r.extensions.Some? then r.extensions.value else [])) == r
  {
  }

  lemma CodesAreMembers(c: Entries<Value>)
    requires forall i :: 0 <= i < |c| ==> IsStatusCode(c[i].0)
    ensures forall i :: 0 <= i < |c| ==> Classify(c[i].0) == Member(c[i].0)
  {
    forall i | 0 <= i < |c| ensures Classify(c[i].0) == Member(c[i].0) {
      StatusCodeIsMember(c[i].0);
    }
  }

  lemma ExtensionKeysAreExtensions(x: Entries<Value>)
    requires forall i :: 0 <= i < |x| ==> Extensions.IsExtensionKey(x[i].0)
    ensures forall i :: 0 <= i < |x| ==> Classify(x[i].0) == Extension
  {
    assert !Extensions.IsExtensionKey("default") by { FirstCharDiffers("default", "x-"); }
  }

  /** The encoding of the `default` field, which decodes back to it. */
  function DefaultBlock(v: Option<Value>): (d: seq<(string, Value)>)
    ensures Clean(d, Classify)
    ensures Stored(d, Classify) == if v.Some? then map["default" := v.value] else map[]
    ensures forall i :: 0 <= i < |d| ==> Classify(d[i].0).Fixed?
  {
    if v.Some? then
      var e := ("default", v.value);
      assert [e][..0] == [];
      assert Classify(e.0) == Fixed("default", "default");
      assert EntryOk([], e, Classify);
      [e]
    else []
  }

  /** Keys outside the three classes are refused with serde's unknown-field message. */
  lemma UnknownKeys(v: Value)
    ensures Decode([("foo", v)]) == Err(UnknownField("foo"))
    ensures Decode([("600", v)]) == Err(UnknownField("600"))
    ensures Decode([("2XX", v)]) == Err(UnknownField("2XX"))
  {
    StatusCode.Examples();
    FirstCharDiffers("foo", "x-");
    FirstCharDiffers("600", "x-");
    FirstCharDiffers("2XX", "x-");
    SingleRejected("foo", v);
    SingleRejected("600", v);
    SingleRejected("2XX", v);
  }

  lemma SingleRejected(k: string, v: Value)
    requires Classify(k).Reject?
    ensures Decode([(k, v)]) == Err(Classify(k).message)
  {
    assert [(k, v)][..0] == [];
  }

  /** A repeated status code or `default` is a duplicate field, named by its key. */
  lemma Duplicates(k: string, v: Value, w: Value)
    requires IsStatusCode(k) || k == "default"
    ensures Decode([(k, v), (k, w)]) == Err("duplicate field `" + k + "`")
  {
    if IsStatusCode(k) {
      StatusCodeIsMember(k);
    }
    RepeatedKey(k, k, v, w, Classify, Backtick);
  }
}
