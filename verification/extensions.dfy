/**
 * Specification Extensions: the `x-` fields every object may carry, kept
 * in a separate map that is flattened into the object when encoded.
 */
module Extensions {
  import opened Wrappers
  import opened Strings
  import opened SortedMap
  import opened KeyedObject
  import opened Json

  predicate IsExtensionKey(k: string)
  {
    StartsWith(k, "x-")
  }

  /** The extension visitor: `x-` keys are kept, every other key is skipped. */
  function Classify(k: string): Slot
  {
    if IsExtensionKey(k) then Extension else Ignore
  }

  /** `extensions::deserialize`: keep the `x-` keys; an empty result is `None`. */
  function Decode(obj: seq<(string, Value)>): (r: Result<Option<Entries<Value>>, string>)
    ensures r.Ok? <==> Clean(obj, Classify)
    ensures r.Ok? && r.value.Some? ==> Sorted(r.value.value) && |r.value.value| > 0
    ensures r.Ok? && r.value.Some? ==> forall k :: Get(r.value.value, k) == FindExtension(obj, Classify, k)
    ensures r.Ok? && r.value.Some? ==> forall k :: k in Keys(r.value.value) ==> IsExtensionKey(k)
    ensures r.Ok? && r.value.None? ==> forall k :: FindExtension(obj, Classify, k).None?
    ensures r.Err? ==> exists k :: IsExtensionKey(k) && r.error == "duplicate field `" + k + "`"
  {
    match Run(obj, Classify, Backtick)
    case Err(e) =>
      var j :| FirstBad(obj, Classify, j) && e == EntryError((obj[j].0, Classify), Backtick);
      assert IsExtensionKey(obj[j].0);
      Err(e)
    case Ok(d) =>
      assert forall k :: k in Keys(d.extensions) ==> IsExtensionKey(k) by {
        forall k | k in Keys(d.extensions) ensures IsExtensionKey(k) {
          FoundIsExtension(obj, k);
        }
      }
      if |d.extensions| == 0 then Ok(None) else Ok(Some(d.extensions))
  }

  lemma {:induction false} FoundIsExtension(obj: seq<(string, Value)>, k: string)
    ensures FindExtension(obj, Classify, k).Some? ==> IsExtensionKey(k)
    decreases |obj|
  {
    if |obj| > 0 {
      FoundIsExtension(obj[..|obj| - 1], k);
    }
  }

  /** `extensions::serialize`: nothing for `None`, otherwise only the `x-` keys in key order. */
  function Encode(ext: Option<Entries<Value>>): (r: seq<(string, Value)>)
    ensures ext.None? ==> r == []
    ensures forall i :: 0 <= i < |r| ==> IsExtensionKey(r[i].0)
    ensures ext.Some? ==> forall e :: e in ext.value && IsExtensionKey(e.0) ==> e in r
    ensures ext.Some? ==> forall e :: e in r ==> e in ext.value
    ensures ext.Some? && Sorted(ext.value) ==> Sorted(r)
  {
    match ext
    case None => []
    case Some(m) => Filter(m, IsExtensionKey)
  }

  /** Encoding a non-empty extension map of `x-` keys and decoding it gives it back. */
  lemma RoundTrip(m: Entries<Value>)
    requires Sorted(m) && |m| > 0
    requires forall i :: 0 <= i < |m| ==> IsExtensionKey(m[i].0)
    ensures Decode(Encode(Some(m))) == Ok(Some(m))
  {
    var enc := Encode(Some(m));
    FilterKeepsAll(m, IsExtensionKey);
    ExtensionsDecode(m, Classify);
    var d := Run(m, Classify, Backtick);
    SortedExtensional(d.value.extensions, m);
  }

  /** Filtering by a test every key passes changes nothing. */
  lemma {:induction false} FilterKeepsAll<V>(m: Entries<V>, p: string -> bool)
    requires forall i :: 0 <= i < |m| ==> p(m[i].0)
    ensures Filter(m, p) == m
    decreases |m|
  {
    if |m| > 0 {
      FilterKeepsAll(m[1..], p);
    }
  }
}
