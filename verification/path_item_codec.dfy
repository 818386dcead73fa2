/**
 * The hand-written (de)serializers of the Path Item Object of Swagger 2.0
 * and OpenAPI 3.0. Keys are `parameters`, `servers` (3.0 only), `x-`
 * extensions, and anything else, which is lower-cased and taken as an
 * operation (so custom methods such as `search` are accepted). Values are
 * carried as opaque JSON.
 */
module PathItemCodec {
  import opened Wrappers
  import opened Strings
  import opened SortedMap
  import opened KeyedObject
  import opened Json
  import Extensions

  /** In the Swagger 2.0 dialect `servers` is always `None`. */
  datatype PathItem = PathItem(
    operations: Option<Entries<Value>>,
    parameters: Option<Value>,
    servers: Option<Value>,
    extensions: Option<Entries<Value>>)

  /** Keys other than the fixed fields: `x-` extensions, else lower-cased operations. */
  function OperationOrExtension(k: string): (s: Slot)
    ensures s.Extension? || s == Member(ToLower(k))
  {
    if Extensions.IsExtensionKey(k) then Extension else Member(ToLower(k))
  }

  /** The Swagger 2.0 visitor. */
  function ClassifyV2(k: string): Slot
  {
    if k == "parameters" then Fixed("parameters", "parameters") else OperationOrExtension(k)
  }

  /** The OpenAPI 3.0 visitor as written: `servers` is checked against its own slot but stored as `parameters`. */
  function ClassifyV3(k: string): Slot
  {
    if k == "servers" then Fixed("servers", "parameters") else ClassifyV2(k)
  }

  /** The OpenAPI 3.0 visitor with `servers` stored in its own slot. */
  function ClassifyV3Intended(k: string): Slot
  {
    if k == "servers" then Fixed("servers", "servers") else ClassifyV2(k)
  }

  /** The three visitors: Swagger 2.0, OpenAPI 3.0 as written, OpenAPI 3.0 as intended. */
  datatype Visitor = V2 | V3 | V3Intended

  function ClassifierOf(v: Visitor): string -> Slot
  {
    match v
    case V2 => ClassifyV2
    case V3 => ClassifyV3
    case V3Intended => ClassifyV3Intended
  }

  /** The fields of the visitor's result: empty maps collapse to `None`. */
  function Shape(d: Decoded<Value>): (r: PathItem)
    ensures r.operations.None? <==> d.members == []
    ensures r.operations.Some? ==> r.operations.value == d.members
    ensures r.parameters.Some? <==> "parameters" in d.fixed
    ensures r.parameters.Some? ==> r.parameters.value == d.fixed["parameters"]
    ensures r.servers.Some? <==> "servers" in d.fixed
    ensures r.servers.Some? ==> r.servers.value == d.fixed["servers"]
    ensures r.extensions.None? <==> d.extensions == []
    ensures r.extensions.Some? ==> r.extensions.value == d.extensions
  {
    PathItem(
      if |d.members| == 0 then None else Some(d.members),
      if "parameters" in d.fixed then Some(d.fixed["parameters"]) else None,
      if "servers" in d.fixed then Some(d.fixed["servers"]) else None,
      if |d.extensions| == 0 then None else Some(d.extensions))
  }

  /**
   * `PathItem::deserialize` of Swagger 2.0: accepted exactly when no key is
   * repeated (operations compared after lower-casing); the message names the
   * first offending entry, with `parameters` in backticks and operations and
   * extensions in single quotes.
   */
  function DecodeV2(obj: seq<(string, Value)>): (r: Result<PathItem, string>)
    ensures r.Ok? <==> Clean(obj, ClassifyV2)
    ensures r.Err? ==> exists j :: FirstBad(obj, ClassifyV2, j) && r.error == EntryError((obj[j].0, ClassifyV2), Apostrophe)
  {
    var res := Run(obj, ClassifyV2, Apostrophe);
    if res.Err? then Err(res.error) else Ok(Shape(res.value))
  }

  /** `PathItem::deserialize` of OpenAPI 3.0, as written. */
  function DecodeV3(obj: seq<(string, Value)>): (r: Result<PathItem, string>)
    ensures r.Ok? <==> Clean(obj, ClassifyV3)
    ensures r.Err? ==> exists j :: FirstBad(obj, ClassifyV3, j) && r.error == EntryError((obj[j].0, ClassifyV3), Apostrophe)
  {
    var res := Run(obj, ClassifyV3, Apostrophe);
    if res.Err? then Err(res.error) else Ok(Shape(res.value))
  }

  /** `PathItem::deserialize` of OpenAPI 3.0 with `servers` decoded into `servers`. */
  function DecodeV3Intended(obj: seq<(string, Value)>): (r: Result<PathItem, string>)
    ensures r.Ok? <==> Clean(obj, ClassifyV3Intended)
    ensures r.Err? ==> exists j :: FirstBad(obj, ClassifyV3Intended, j)
                                   && r.error == EntryError((obj[j].0, ClassifyV3Intended), Apostrophe)
  {
    var res := Run(obj, ClassifyV3Intended, Apostrophe);
    if res.Err? then Err(res.error) else Ok(Shape(res.value))
  }

  /** Neither as-written decoder ever fills `servers`: both store only into `parameters`. */
  lemma ServersNeverDecoded(obj: seq<(string, Value)>)
    ensures DecodeV2(obj).Ok? ==> DecodeV2(obj).value.servers.None?
    ensures DecodeV3(obj).Ok? ==> DecodeV3(obj).value.servers.None?
  {
    StoredOnlyParameters(obj, ClassifyV2);
    StoredOnlyParameters(obj, ClassifyV3);
  }

  lemma StoredOnlyParameters(obj: seq<(string, Value)>, classify: string -> Slot)
    requires forall k :: classify(k).Fixed? ==> classify(k).store == "parameters"
    ensures "servers" !in Stored(obj, classify)
  {
    if "servers" in Stored(obj, classify) {
      StoredFromSlot(obj, classify, "servers");
      assert false;
    }
  }

  /** Operation names are stored lower-cased, whichever spelling the input used. */
  lemma OperationNamesLowerCase(obj: seq<(string, Value)>, v: Visitor, n: string)
    requires FindMember(obj, ClassifierOf(v), n).Some?
    ensures ToLower(n) == n
  {
    var classify := ClassifierOf(v);
    FoundMemberHasKey(obj, classify, n);
    var i :| 0 <= i < |obj| && classify(obj[i].0) == Member(n);
    ToLowerIdempotent(obj[i].0);
  }

  /** `PathItem::serialize` of Swagger 2.0: operations, then `parameters`, then the `x-` extensions. */
  function EncodeV2(p: PathItem): seq<(string, Value)>
  {
    (if p.operations.Some? then p.operations.value else [])
    + ParametersBlock(p.parameters)
    + Extensions.Encode(p.extensions)
  }

  /** `PathItem::serialize` of OpenAPI 3.0: operations, `parameters`, `servers`, then the `x-` extensions. */
  function EncodeV3(p: PathItem): seq<(string, Value)>
  {
    (if p.operations.Some? then p.operations.value else [])
    + ParametersBlock(p.parameters) + ServersBlock(p.servers)
    + Extensions.Encode(p.extensions)
  }

  function ParametersBlock(v: Option<Value>): (d: seq<(string, Value)>)
    ensures |d| <= 1 && (|d| == 1 <==> v.Some?)
    ensures forall i :: 0 <= i < |d| ==> d[i].0 == "parameters" && d[i].1 == v.value
  {
    if v.Some? then [("parameters", v.value)] else []
  }

  function ServersBlock(v: Option<Value>): (d: seq<(string, Value)>)
    ensures |d| <= 1 && (|d| == 1 <==> v.Some?)
    ensures forall i :: 0 <= i < |d| ==> d[i].0 == "servers" && d[i].1 == v.value
  {
    if v.Some? then [("servers", v.value)] else []
  }

  /**
   * Operation keys a decoder can produce and that encode back to operations:
   * lower-case, not a fixed field name of the dialect, and without `x-`.
   */
  predicate OperationsWellFormed(ops: Option<Entries<Value>>, fixedNames: set<string>)
  {
    ops.Some? ==>
      |ops.value| > 0 && Sorted(ops.value)
      && forall i :: 0 <= i < |ops.value| ==>
           ToLower(ops.value[i].0) == ops.value[i].0 && ops.value[i].0 !in fixedNames
           && !Extensions.IsExtensionKey(ops.value[i].0)
  }

  predicate ExtensionsWellFormed(ext: Option<Entries<Value>>)
  {
    ext.Some? ==>
      |ext.value| > 0 && Sorted(ext.value)
      && forall i :: 0 <= i < |ext.value| ==> Extensions.IsExtensionKey(ext.value[i].0)
  }

  predicate WellFormedV2(p: PathItem)
  {
    OperationsWellFormed(p.operations, {"parameters"}) && p.servers.None? && ExtensionsWellFormed(p.extensions)
  }

  predicate WellFormedV3(p: PathItem)
  {
    OperationsWellFormed(p.operations, {"parameters", "servers"}) && ExtensionsWellFormed(p.extensions)
  }

  lemma OperationsAreMembers(c: Entries<Value>, fixedNames: set<string>, v: Visitor)
    requires "parameters" in fixedNames && (v != V2 ==> "servers" in fixedNames)
    requires forall i :: 0 <= i < |c| ==>
               ToLower(c[i].0) == c[i].0 && c[i].0 !in fixedNames && !Extensions.IsExtensionKey(c[i].0)
    ensures forall i :: 0 <= i < |c| ==> ClassifierOf(v)(c[i].0) == Member(c[i].0)
  {
  }

  lemma ExtensionKeysAreExtensions(x: Entries<Value>, v: Visitor)
    requires forall i :: 0 <= i < |x| ==> Extensions.IsExtensionKey(x[i].0)
    ensures forall i :: 0 <= i < |x| ==> ClassifierOf(v)(x[i].0) == Extension
  {
    assert !Extensions.IsExtensionKey("parameters") by { FirstCharDiffers("parameters", "x-"); }
    assert !Extensions.IsExtensionKey("servers") by { FirstCharDiffers("servers", "x-"); }
  }

  /** The fixed block of an encoding, `parameters` then `servers`, is accepted by every visitor. */
  lemma FixedBlockClean(params: Option<Value>, servers: Option<Value>, v: Visitor)
    requires v == V2 ==> servers.None?
    ensures Clean(ParametersBlock(params) + ServersBlock(servers), ClassifierOf(v))
    ensures forall i :: 0 <= i < |ParametersBlock(params) + ServersBlock(servers)| ==>
              ClassifierOf(v)((ParametersBlock(params) + ServersBlock(servers))[i].0).Fixed?
  {
    var classify := ClassifierOf(v);
    var pb := ParametersBlock(params);
    var sb := ServersBlock(servers);
    var d := pb + sb;
    assert classify("parameters") == Fixed("parameters", "parameters");
    assert v != V2 ==> classify("servers") == if v == V3Intended then Fixed("servers", "servers")
                                             else Fixed("servers", "parameters");
    assert pb[..0] == [];
    if params.Some? {
      assert EntryOk([], pb[0], classify);
    }
    assert Clean(pb, classify);
    if servers.Some? {
      assert d[..|d| - 1] == pb && d[|d| - 1] == sb[0];
      assert EntryOk(pb, sb[0], classify);
    } else {
      assert d == pb;
    }
  }

  /** As written, the fixed block stores its last entry into `parameters`. */
  lemma FixedBlockStoredAsWritten(params: Option<Value>, servers: Option<Value>, v: Visitor)
    requires v != V3Intended
    requires v == V2 ==> servers.None?
    ensures var st := Stored(ParametersBlock(params) + ServersBlock(servers), ClassifierOf(v));
            ("parameters" in st <==> params.Some? || servers.Some?)
            && "servers" !in st
            && (servers.Some? ==> st["parameters"] == servers.value)
            && (servers.None? && params.Some? ==> st["parameters"] == params.value)
  {
    var classify := ClassifierOf(v);
    var pb := ParametersBlock(params);
    var sb := ServersBlock(servers);
    var d := pb + sb;
    assert classify("parameters") == Fixed("parameters", "parameters");
    assert pb[..0] == [];
    assert Stored(pb, classify) == if params.Some? then map["parameters" := params.value] else map[];
    if servers.Some? {
      assert classify("servers") == Fixed("servers", "parameters");
      assert d[..|d| - 1] == pb && d[|d| - 1] == sb[0];
      assert Stored(d, classify) == Stored(pb, classify)["parameters" := servers.value];
    } else {
      assert d == pb;
    }
  }

  /** With `servers` in its own slot, the fixed block stores each field into its own slot. */
  lemma FixedBlockStoredIntended(params: Option<Value>, servers: Option<Value>)
    ensures var st := Stored(ParametersBlock(params) + ServersBlock(servers), ClassifyV3Intended);
            ("parameters" in st <==> params.Some?) && ("servers" in st <==> servers.Some?)
            && (params.Some? ==> st["parameters"] == params.value)
            && (servers.Some? ==> st["servers"] == servers.value)
  {
    var pb := ParametersBlock(params);
    var sb := ServersBlock(servers);
    var d := pb + sb;
    assert ClassifyV3Intended("parameters") == Fixed("parameters", "parameters");
    assert ClassifyV3Intended("servers") == Fixed("servers", "servers");
    assert pb[..0] == [];
    if servers.Some? {
      assert d[..|d| - 1] == pb && d[|d| - 1] == sb[0];
    } else {
      assert d == pb;
    }
  }

  function OperationsOf(p: PathItem): Entries<Value>
  {
    if p.operations.Some? then p.operations.value else []
  }

  function ExtensionsOf(p: PathItem): Entries<Value>
  {
    if p.extensions.Some? then p.extensions.value else []
  }

  /** The encodings are the three blocks: operations, fixed fields, extensions. */
  lemma EncodeBlocks(p: PathItem)
    requires ExtensionsWellFormed(p.extensions)
    ensures EncodeV3(p) == Blocks(ParametersBlock(p.parameters) + ServersBlock(p.servers), OperationsOf(p), ExtensionsOf(p), false)
    ensures p.servers.None? ==>
      EncodeV2(p) == Blocks(ParametersBlock(p.parameters) + ServersBlock(p.servers), OperationsOf(p), ExtensionsOf(p), false)
  {
    var o := OperationsOf(p);
    var pb := ParametersBlock(p.parameters);
    var sb := ServersBlock(p.servers);
    ExtensionsEncoded(p);
    assert EncodeV3(p) == o + pb + sb + ExtensionsOf(p);
    Regroup(o, pb, sb, ExtensionsOf(p));
    if p.servers.None? {
      assert EncodeV2(p) == o + pb + ExtensionsOf(p);
      assert pb + sb == pb;
    }
  }

  lemma ExtensionsEncoded(p: PathItem)
    requires ExtensionsWellFormed(p.extensions)
    ensures Extensions.Encode(p.extensions) == ExtensionsOf(p)
  {
    if p.extensions.Some? {
      Extensions.FilterKeepsAll(p.extensions.value, Extensions.IsExtensionKey);
    }
  }

  lemma Regroup<T>(a: seq<T>, b: seq<T>, c: seq<T>, d: seq<T>)
    ensures a + b + c + d == a + (b + c) + d
  {
  }

  /** Encoding a well-formed Swagger 2.0 Path Item and decoding the result gives it back. */
  lemma RoundTripV2(p: PathItem)
    requires WellFormedV2(p)
    ensures DecodeV2(EncodeV2(p)) == Ok(p)
  {
    EncodeBlocks(p);
    FixedBlockStoredAsWritten(p.parameters, p.servers, V2);
    EncodingDecodes(p, V2);
    ShapeOfBlocks(p, Stored(ParametersBlock(p.parameters) + ServersBlock(p.servers), ClassifyV2));
  }

  /** With `servers` decoded into its own slot, OpenAPI 3.0 Path Items round-trip. */
  lemma RoundTripV3Intended(p: PathItem)
    requires WellFormedV3(p)
    ensures DecodeV3Intended(EncodeV3(p)) == Ok(p)
  {
    EncodeBlocks(p);
    FixedBlockStoredIntended(p.parameters, p.servers);
    EncodingDecodes(p, V3Intended);
    ShapeOfBlocks(p, Stored(ParametersBlock(p.parameters) + ServersBlock(p.servers), ClassifyV3Intended));
  }

  /**
   * As written, an OpenAPI 3.0 Path Item does not round-trip once it has
   * servers: they come back in `parameters` and `servers` is lost.
   */
  lemma RoundTripV3(p: PathItem)
    requires WellFormedV3(p)
    ensures DecodeV3(EncodeV3(p)) == Ok(p.(parameters := if p.servers.Some? then p.servers else p.parameters,
                                           servers := None))
    ensures p.servers.Some? ==> DecodeV3(EncodeV3(p)) != Ok(p)
  {
    EncodeBlocks(p);
    FixedBlockStoredAsWritten(p.parameters, p.servers, V3);
    EncodingDecodes(p, V3);
    ShapeOfBlocks(p.(parameters := if p.servers.Some? then p.servers else p.parameters, servers := None),
                  Stored(ParametersBlock(p.parameters) + ServersBlock(p.servers), ClassifyV3));
  }

  /** The blocks of a well-formed Path Item decode to its operations, its fixed block and its extensions. */
  lemma EncodingDecodes(p: PathItem, v: Visitor)
    requires v == V2 ==> WellFormedV2(p)
    requires v != V2 ==> WellFormedV3(p)
    ensures var d := ParametersBlock(p.parameters) + ServersBlock(p.servers);
            Run(Blocks(d, OperationsOf(p), ExtensionsOf(p), false), ClassifierOf(v), Apostrophe)
            == Ok(Decoded(Stored(d, ClassifierOf(v)), OperationsOf(p), ExtensionsOf(p)))
  {
    var c := OperationsOf(p);
    var d := ParametersBlock(p.parameters) + ServersBlock(p.servers);
    var x := ExtensionsOf(p);
    if v == V2 {
      OperationsAreMembers(c, {"parameters"}, v);
    } else {
      OperationsAreMembers(c, {"parameters", "servers"}, v);
    }
    ExtensionKeysAreExtensions(x, v);
    FixedBlockClean(p.parameters, p.servers, v);
    BlocksDecode(d, c, x, false, ClassifierOf(v), Apostrophe);
  }

  /** A decoded result whose blocks and fixed slots are those of `p` has `p`'s shape. */
  lemma ShapeOfBlocks(p: PathItem, fixed: map<string, Value>)
    requires OperationsWellFormed(p.operations, {}) && ExtensionsWellFormed(p.extensions)
    requires "parameters" in fixed <==> p.parameters.Some?
    requires "servers" in fixed <==> p.servers.Some?
    requires p.parameters.Some? ==> fixed["parameters"] == p.parameters.value
    requires p.servers.Some? ==> fixed["servers"] == p.servers.value
    ensures Shape(Decoded(fixed, OperationsOf(p), ExtensionsOf(p))) == p
  {
  }

  /** A second `parameters` key is serde's duplicate-field error, in both dialects. */
  lemma ParametersTwice(v: Value, w: Value)
    ensures DecodeV2([("parameters", v), ("parameters", w)]) == Err("duplicate field `parameters`")
    ensures DecodeV3([("parameters", v), ("parameters", w)]) == Err("duplicate field `parameters`")
  {
    assert ClassifyV3("parameters") == ClassifyV2("parameters") == Fixed("parameters", "parameters");
    TwoFixed("parameters", "parameters", v, w, ClassifyV2, Apostrophe);
    TwoFixed("parameters", "parameters", v, w, ClassifyV3, Apostrophe);
    var o := [("parameters", v), ("parameters", w)];
    assert Run(o, ClassifyV2, Apostrophe) == Err(DuplicateField("parameters"));
    assert DuplicateField("parameters") == "duplicate field `parameters`";
    assert DecodeV2(o) == Err(DuplicateField("parameters"));
    assert DecodeV3(o) == Err(DuplicateField("parameters"));
  }

  /** Two keys equal after lower-casing (`GET`, `get`) collide as one operation. */
  lemma MethodCollision(k1: string, k2: string, v: Value, w: Value)
    requires ToLower(k1) == ToLower(k2)
    requires k1 != "parameters" && !Extensions.IsExtensionKey(k1)
    requires k2 != "parameters" && !Extensions.IsExtensionKey(k2)
    ensures DecodeV2([(k1, v), (k2, w)]) == Err("duplicate field '" + ToLower(k2) + "'")
  {
    RepeatedKey(k1, k2, v, w, ClassifyV2, Apostrophe);
  }

  /** Any other key, a custom method such as `SEARCH` included, is an operation under its lower-cased name. */
  lemma SingleOperation(k: string, v: Value)
    requires k != "parameters" && !Extensions.IsExtensionKey(k)
    ensures DecodeV2([(k, v)]) == Ok(PathItem(Some([(ToLower(k), v)]), None, None, None))
  {
    assert ClassifyV2(k) == Member(ToLower(k));
    SingleMember(k, v, ClassifyV2, Apostrophe);
    assert DecodeV2([(k, v)]) == Ok(Shape(Decoded(map[], [(ToLower(k), v)], [])));
  }

  /** A repeated `x-` key is refused, quoted with single quotes. */
  lemma ExtensionTwice(k: string, v: Value, w: Value)
    requires Extensions.IsExtensionKey(k)
    ensures DecodeV2([(k, v), (k, w)]) == Err("duplicate field '" + k + "'")
    ensures DecodeV3([(k, v), (k, w)]) == Err("duplicate field '" + k + "'")
  {
    assert k != "parameters" && k != "servers" by {
      FirstCharDiffers("parameters", "x-");
      FirstCharDiffers("servers", "x-");
    }
    RepeatedKey(k, k, v, w, ClassifyV2, Apostrophe);
    RepeatedKey(k, k, v, w, ClassifyV3, Apostrophe);
  }

  /**
   * As written, `servers` lands in the `parameters` slot: after it, a
   * `parameters` key is a duplicate, while a second `servers` is not and
   * simply overwrites the first.
   */
  lemma ServersQuirk(v: Value, w: Value)
    ensures DecodeV3([("servers", v)]) == Ok(PathItem(None, Some(v), None, None))
    ensures DecodeV3([("servers", v), ("parameters", w)]) == Err("duplicate field `parameters`")
    ensures DecodeV3([("servers", v), ("servers", w)]) == Ok(PathItem(None, Some(w), None, None))
  {
    assert ClassifyV3("servers") == Fixed("servers", "parameters");
    assert ClassifyV3("parameters") == Fixed("parameters", "parameters");
    TwoFixed("servers", "parameters", v, w, ClassifyV3, Apostrophe);
    TwoFixed("servers", "servers", v, w, ClassifyV3, Apostrophe);
    assert map["parameters" := v]["parameters" := w] == map["parameters" := w];
    assert DecodeV3([("servers", v)]) == Ok(Shape(Decoded(map["parameters" := v], [], [])));
    assert DecodeV3([("servers", v), ("parameters", w)]) == Err(DuplicateField("parameters"));
    assert DuplicateField("parameters") == "duplicate field `parameters`";
    assert DecodeV3([("servers", v), ("servers", w)]) == Ok(Shape(Decoded(map["parameters" := w], [], [])));
  }

  /** The same two inputs with `servers` in its own slot. */
  lemma ServersIntended(v: Value, w: Value)
    ensures DecodeV3Intended([("servers", v)]) == Ok(PathItem(None, None, Some(v), None))
    ensures DecodeV3Intended([("servers", v), ("parameters", w)]) == Ok(PathItem(None, Some(w), Some(v), None))
    ensures DecodeV3Intended([("servers", v), ("servers", w)]) == Err("duplicate field `servers`")
  {
    assert ClassifyV3Intended("servers") == Fixed("servers", "servers");
    assert ClassifyV3Intended("parameters") == Fixed("parameters", "parameters");
    TwoFixed("servers", "parameters", v, w, ClassifyV3Intended, Apostrophe);
    TwoFixed("servers", "servers", v, w, ClassifyV3Intended, Apostrophe);
    assert DecodeV3Intended([("servers", v)]) == Ok(Shape(Decoded(map["servers" := v], [], [])));
    assert DecodeV3Intended([("servers", v), ("parameters", w)])
           == Ok(Shape(Decoded(map["servers" := v]["parameters" := w], [], [])));
    assert DecodeV3Intended([("servers", v), ("servers", w)]) == Err(DuplicateField("servers"));
    assert DuplicateField("servers") == "duplicate field `servers`";
  }
}
