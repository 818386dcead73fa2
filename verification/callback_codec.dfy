/**
 * The hand-written (de)serializer of the OpenAPI 3.0 Callback Object: `x-`
 * keys are extensions and every other key is a runtime expression naming a
 * Path Item, kept verbatim. Path Items are carried as opaque JSON.
 */
module CallbackCodec {
  import opened Wrappers
  import opened Strings
  import opened SortedMap
  import opened KeyedObject
  import opened Json
  import Extensions

  /** `paths` is always present, possibly empty; `extensions` collapses to `None` when empty. */
  datatype Callback = Callback(paths: Entries<Value>, extensions: Option<Entries<Value>>)

  function Classify(k: string): (s: Slot)
    ensures s.Extension? <==> Extensions.IsExtensionKey(k)
    ensures !s.Extension? ==> s == Member(k)
  {
    if Extensions.IsExtensionKey(k) then Extension else Member(k)
  }

  /**
   * `Callback::deserialize`: accepted exactly when no key repeats; the
   * message names the first repeated key in backticks.
   */
  function Decode(obj: seq<(string, Value)>): (r: Result<Callback, string>)
    ensures r.Ok? <==> Clean(obj, Classify)
    ensures r.Err? ==> exists j :: FirstBad(obj, Classify, j) && r.error == "duplicate field `" + obj[j].0 + "`"
  {
    var res := Run(obj, Classify, Backtick);
    if res.Err? then Err(res.error) else Ok(Shape(res.value))
  }

  function Shape(d: Decoded<Value>): (r: Callback)
    ensures r.paths == d.members
    ensures r.extensions.None? <==> d.extensions == []
    ensures r.extensions.Some? ==> r.extensions.value == d.extensions
  {
    Callback(d.members, if |d.extensions| == 0 then None else Some(d.extensions))
  }

  /** What a successful decode holds: every path and `x-` key with its last value. */
  lemma DecodeFields(obj: seq<(string, Value)>)
    requires Decode(obj).Ok?
    ensures Sorted(Decode(obj).value.paths)
    ensures forall k :: Get(Decode(obj).value.paths, k) == FindMember(obj, Classify, k)
    ensures Decode(obj).value.extensions.Some? ==>
      |Decode(obj).value.extensions.value| > 0 && Sorted(Decode(obj).value.extensions.value)
      && forall k :: Get(Decode(obj).value.extensions.value, k) == FindExtension(obj, Classify, k)
    ensures Decode(obj).value.extensions.None? ==> forall k :: FindExtension(obj, Classify, k).None?
  {
  }

  /** `Callback::serialize`: all paths in key order, then the `x-` extensions. */
  function Encode(c: Callback): seq<(string, Value)>
  {
    c.paths + Extensions.Encode(c.extensions)
  }

  /** What a decoder can produce: sorted paths without `x-`, and a non-empty sorted map of `x-` keys. */
  predicate WellFormed(c: Callback)
  {
    Sorted(c.paths)
    && (forall i :: 0 <= i < |c.paths| ==> !Extensions.IsExtensionKey(c.paths[i].0))
    && (c.extensions.Some? ==>
          |c.extensions.value| > 0 && Sorted(c.extensions.value)
          && forall i :: 0 <= i < |c.extensions.value| ==> Extensions.IsExtensionKey(c.extensions.value[i].0))
  }

  lemma EncodeBlocks(c: Callback)
    requires WellFormed(c)
    ensures Encode(c) == Blocks([], c.paths, if c.extensions.Some? then c.extensions.value else [], true)
  {
    var x := if c.extensions.Some? then c.extensions.value else [];
    Extensions.FilterKeepsAll(x, Extensions.IsExtensionKey);
    assert Extensions.Encode(c.extensions) == x;
    assert [] + c.paths == c.paths;
  }

  /** Encoding a well-formed Callback and decoding the result gives it back. */
  lemma RoundTrip(c: Callback)
    requires WellFormed(c)
    ensures Decode(Encode(c)) == Ok(c)
  {
    var x := if c.extensions.Some? then c.extensions.value else [];
    EncodeBlocks(c);
    assert forall i :: 0 <= i < |c.paths| ==> Classify(c.paths[i].0) == Member(c.paths[i].0);
    var none: seq<(string, Value)> := [];
    assert Clean(none, Classify);
    BlocksDecode(none, c.paths, x, true, Classify, Backtick);
    var s := Shape(Run(Blocks(none, c.paths, x, true), Classify, Backtick).value);
    assert s.paths == c.paths;
    assert s.extensions == c.extensions;
  }

  /** The empty object is a Callback with no paths (not a missing map). */
  lemma EmptyObject()
    ensures Decode([]) == Ok(Callback([], None))
  {
  }

  /** A path key is kept verbatim: no lower-casing, unlike Path Item operations. */
  lemma PathVerbatim(k: string, v: Value)
    requires !Extensions.IsExtensionKey(k)
    ensures Decode([(k, v)]) == Ok(Callback([(k, v)], None))
  {
    SingleMember(k, v, Classify, Backtick);
    assert Decode([(k, v)]) == Ok(Shape(Decoded(map[], [(k, v)], [])));
  }

  /** Any repeated key, path or extension, is refused with the key in backticks. */
  lemma Duplicates(k: string, v: Value, w: Value)
    ensures Decode([(k, v), (k, w)]) == Err("duplicate field `" + k + "`")
  {
    RepeatedKey(k, k, v, w, Classify, Backtick);
  }
}
