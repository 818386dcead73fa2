/**
 * The hand-written map visitors share one shape: each incoming key is put in
 * one class (a fixed field, an `x-` extension, a member of an open-ended
 * family such as status codes or methods, a key to skip, or an error), and a
 * key seen twice in its class is rejected. `Run` is that loop, written once;
 * each visitor supplies its own classifier.
 */
module KeyedObject {
  import opened Wrappers
  import opened SortedMap

  /**
   * `Fixed(check, store)`: a named field whose duplicate test looks at slot
   * `check` and whose value goes to slot `store` (the two agree except for
   * one visitor). `Member(name)`: stored under `name`, which may differ from
   * the key (lower-casing). `Reject(message)`: the key is refused.
   */
  datatype Slot =
    | Fixed(check: string, store: string)
    | Extension
    | Member(name: string)
    | Ignore
    | Reject(message: string)

  /** How a visitor words a duplicate extension or member key (the quote character differs). */
  datatype Quote = Backtick | Apostrophe

  function Duplicate(q: Quote, key: string): string
  {
    match q
    case Backtick => "duplicate field `" + key + "`"
    case Apostrophe => "duplicate field '" + key + "'"
  }

  /** serde's `Error::duplicate_field`. */
  function DuplicateField(name: string): string
  {
    "duplicate field `" + name + "`"
  }

  datatype Decoded<V> = Decoded(fixed: map<string, V>, members: Entries<V>, extensions: Entries<V>)

  /** The fixed slots: each holds the value of the last entry stored into it. */
  function Stored<V>(obj: seq<(string, V)>, classify: string -> Slot): map<string, V>
  {
    if |obj| == 0 then map[]
    else
      var last := obj[|obj| - 1];
      var slot := classify(last.0);
      var m := Stored(obj[..|obj| - 1], classify);
      if slot.Fixed? then m[slot.store := last.1] else m
  }

  /** The value of the last entry classified as member `n`. */
  function FindMember<V>(obj: seq<(string, V)>, classify: string -> Slot, n: string): Option<V>
  {
    if |obj| == 0 then None
    else
      var last := obj[|obj| - 1];
      if classify(last.0) == Member(n) then Some(last.1) else FindMember(obj[..|obj| - 1], classify, n)
  }

  /** The value of the last extension entry with key `k`. */
  function FindExtension<V>(obj: seq<(string, V)>, classify: string -> Slot, k: string): Option<V>
  {
    if |obj| == 0 then None
    else
      var last := obj[|obj| - 1];
      if classify(last.0) == Extension && last.0 == k then Some(last.1)
      else FindExtension(obj[..|obj| - 1], classify, k)
  }

  /** Entry `e` is accepted after the entries `prev`. */
  predicate EntryOk<V>(prev: seq<(string, V)>, e: (string, V), classify: string -> Slot)
  {
    match classify(e.0)
    case Fixed(check, _) => check !in Stored(prev, classify)
    case Extension => FindExtension(prev, classify, e.0).None?
    case Member(n) => FindMember(prev, classify, n).None?
    case Ignore => true
    case Reject(_) => false
  }

  /** The message for a refused entry. */
  function EntryError(e: (string, string -> Slot), q: Quote): string
  {
    match e.1(e.0)
    case Fixed(check, _) => DuplicateField(check)
    case Reject(m) => m
    case Member(n) => Duplicate(q, n)
    case _ => Duplicate(q, e.0)
  }

  /** Every entry is accepted after those before it. */
  predicate Clean<V>(obj: seq<(string, V)>, classify: string -> Slot)
  {
    |obj| == 0 || (Clean(obj[..|obj| - 1], classify) && EntryOk(obj[..|obj| - 1], obj[|obj| - 1], classify))
  }

  /** Entry `j` is the first one refused. */
  predicate FirstBad<V>(obj: seq<(string, V)>, classify: string -> Slot, j: int)
  {
    0 <= j < |obj| && Clean(obj[..j], classify) && !EntryOk(obj[..j], obj[j], classify)
  }

  /**
   * The visitor loop over the keys in input order. It succeeds exactly when
   * every entry is accepted; the decoded slots then hold, for every fixed
   * slot, member name and extension key, the value of the last entry that
   * went there; on failure the message is that of the first refused entry.
   */
  function Run<V>(obj: seq<(string, V)>, classify: string -> Slot, q: Quote): (r: Result<Decoded<V>, string>)
    ensures r.Ok? <==> Clean(obj, classify)
    ensures r.Ok? ==> Sorted(r.value.members) && Sorted(r.value.extensions)
    ensures r.Ok? ==> r.value.fixed == Stored(obj, classify)
    ensures r.Ok? ==> forall n :: Get(r.value.members, n) == FindMember(obj, classify, n)
    ensures r.Ok? ==> forall k :: Get(r.value.extensions, k) == FindExtension(obj, classify, k)
    ensures r.Err? ==> exists j :: FirstBad(obj, classify, j) && r.error == EntryError((obj[j].0, classify), q)
  {
    if |obj| == 0 then Ok(Decoded(map[], [], []))
    else
      var prev := obj[..|obj| - 1];
      var e := obj[|obj| - 1];
      match Run(prev, classify, q)
      case Err(msg) =>
        assert forall j :: FirstBad(prev, classify, j) ==> FirstBad(obj, classify, j) by {
          forall j | FirstBad(prev, classify, j) ensures FirstBad(obj, classify, j) {
            assert prev[..j] == obj[..j] && prev[j] == obj[j];
          }
        }
        Err(msg)
      case Ok(acc) =>
        var r := Accept(acc, prev, e, classify, q);
        assert prev + [e] == obj;
        if r.Err? then
          assert FirstBad(obj, classify, |obj| - 1);
          r
        else r
  }

  /** The decoded slots agree with the entries `prev` read so far. */
  ghost predicate Reads<V>(acc: Decoded<V>, prev: seq<(string, V)>, classify: string -> Slot)
  {
    && Sorted(acc.members) && Sorted(acc.extensions)
    && acc.fixed == Stored(prev, classify)
    && (forall n :: Get(acc.members, n) == FindMember(prev, classify, n))
    && (forall k :: Get(acc.extensions, k) == FindExtension(prev, classify, k))
  }

  /** One step of the visitor loop: entry `e` after the entries `prev` decoded into `acc`. */
  function Accept<V>(acc: Decoded<V>, prev: seq<(string, V)>, e: (string, V), classify: string -> Slot, q: Quote)
    : (r: Result<Decoded<V>, string>)
    requires Reads(acc, prev, classify)
    ensures r.Ok? <==> EntryOk(prev, e, classify)
    ensures r.Ok? ==> Reads(r.value, prev + [e], classify)
    ensures r.Err? ==> r.error == EntryError((e.0, classify), q)
  {
    AppendOne(prev, e, classify);
    match classify(e.0)
    case Fixed(check, store) =>
      if check in acc.fixed then Err(DuplicateField(check))
      else Ok(acc.(fixed := acc.fixed[store := e.1]))
    case Extension =>
      if Get(acc.extensions, e.0).Some? then Err(Duplicate(q, e.0))
      else Ok(acc.(extensions := Insert(acc.extensions, e.0, e.1)))
    case Member(n) =>
      if Get(acc.members, n).Some? then Err(Duplicate(q, n))
      else Ok(acc.(members := Insert(acc.members, n, e.1)))
    case Ignore => Ok(acc)
    case Reject(m) => Err(m)
  }

  /** What one more entry changes in the slots. */
  lemma AppendOne<V>(prev: seq<(string, V)>, e: (string, V), classify: string -> Slot)
    ensures Stored(prev + [e], classify)
         == if classify(e.0).Fixed? then Stored(prev, classify)[classify(e.0).store := e.1] else Stored(prev, classify)
    ensures forall n :: FindMember(prev + [e], classify, n)
                     == if classify(e.0) == Member(n) then Some(e.1) else FindMember(prev, classify, n)
    ensures forall k :: FindExtension(prev + [e], classify, k)
                     == if classify(e.0) == Extension && e.0 == k then Some(e.1) else FindExtension(prev, classify, k)
  {
    var obj := prev + [e];
    assert obj[..|obj| - 1] == prev && obj[|obj| - 1] == e;
  }

  /** The last entry of `a + b` going somewhere comes from `b` if `b` has one. */
  lemma {:induction false} FindAppend<V>(a: seq<(string, V)>, b: seq<(string, V)>, classify: string -> Slot, n: string)
    ensures FindMember(a + b, classify, n) ==
      if FindMember(b, classify, n).Some? then FindMember(b, classify, n) else FindMember(a, classify, n)
    ensures FindExtension(a + b, classify, n) ==
      if FindExtension(b, classify, n).Some? then FindExtension(b, classify, n) else FindExtension(a, classify, n)
    ensures Stored(a + b, classify) == Stored(a, classify) + Stored(b, classify)
    decreases |b|
  {
    if |b| > 0 {
      assert (a + b)[..|a + b| - 1] == a + b[..|b| - 1];
      assert (a + b)[|a + b| - 1] == b[|b| - 1];
      FindAppend(a, b[..|b| - 1], classify, n);
    } else {
      assert a + b == a;
    }
  }

  /** Entries none of which is a member, extension or fixed field contribute nothing to that class. */
  lemma {:induction false} FindNone<V>(b: seq<(string, V)>, classify: string -> Slot, n: string)
    ensures (forall i :: 0 <= i < |b| ==> !classify(b[i].0).Member?) ==> FindMember(b, classify, n).None?
    ensures (forall i :: 0 <= i < |b| ==> !classify(b[i].0).Extension?) ==> FindExtension(b, classify, n).None?
    ensures (forall i :: 0 <= i < |b| ==> !classify(b[i].0).Fixed?) ==> Stored(b, classify) == map[]
    decreases |b|
  {
    if |b| > 0 {
      FindNone(b[..|b| - 1], classify, n);
    }
  }

  /** Appending entries each acceptable after `a` alone keeps a clean object clean. */
  lemma {:induction false} CleanAppend<V>(a: seq<(string, V)>, b: seq<(string, V)>, classify: string -> Slot)
    requires Clean(a, classify) && Clean(b, classify)
    requires forall j :: 0 <= j < |b| ==> EntryOk(a, b[j], classify)
    ensures Clean(a + b, classify)
    decreases |b|
  {
    if |b| == 0 {
      assert a + b == a;
    } else {
      var b' := b[..|b| - 1];
      var e := b[|b| - 1];
      assert (a + b)[..|a + b| - 1] == a + b';
      assert (a + b)[|a + b| - 1] == e;
      forall j | 0 <= j < |b'| ensures EntryOk(a, b'[j], classify) {
        assert b'[j] == b[j];
      }
      CleanAppend(a, b', classify);
      assert EntryOk(a, e, classify);
      assert EntryOk(b', e, classify);
      match classify(e.0)
      case Fixed(check, _) => FindAppend(a, b', classify, check);
      case Extension => FindAppend(a, b', classify, e.0);
      case Member(n) => FindAppend(a, b', classify, n);
      case Ignore =>
      case Reject(_) =>
    }
  }

  /** A sorted map whose keys are members named by themselves decodes to itself. */
  lemma {:induction false} MembersDecode<V>(m: Entries<V>, classify: string -> Slot)
    requires Sorted(m)
    requires forall i :: 0 <= i < |m| ==> classify(m[i].0) == Member(m[i].0)
    ensures Clean(m, classify)
    ensures forall n :: FindMember(m, classify, n) == Get(m, n)
    decreases |m|
  {
    if |m| > 0 {
      var m' := m[..|m| - 1];
      var e := m[|m| - 1];
      assert m == m' + [e];
      PrefixSorted(m);
      MembersDecode(m', classify);
      forall n ensures FindMember(m, classify, n) == Get(m, n) {
        GetAppend(m', e, n);
      }
    }
  }

  /** A sorted map of extension keys decodes to itself. */
  lemma {:induction false} ExtensionsDecode<V>(m: Entries<V>, classify: string -> Slot)
    requires Sorted(m)
    requires forall i :: 0 <= i < |m| ==> classify(m[i].0) == Extension
    ensures Clean(m, classify)
    ensures forall k :: FindExtension(m, classify, k) == Get(m, k)
    decreases |m|
  {
    if |m| > 0 {
      var m' := m[..|m| - 1];
      var e := m[|m| - 1];
      assert m == m' + [e];
      PrefixSorted(m);
      ExtensionsDecode(m', classify);
      forall k ensures FindExtension(m, classify, k) == Get(m, k) {
        GetAppend(m', e, k);
      }
    }
  }

  /** The object `d + c + x` (or `c + d + x`) of `BlocksDecode`. */
  function Blocks<V>(d: seq<(string, V)>, c: seq<(string, V)>, x: seq<(string, V)>, fixedFirst: bool): (obj: seq<(string, V)>)
    ensures |obj| == |d| + |c| + |x|
  {
    if fixedFirst then d + c + x else c + d + x
  }

  lemma {:induction false} BlocksClean<V>(d: seq<(string, V)>, c: Entries<V>, x: Entries<V>, fixedFirst: bool,
                                          classify: string -> Slot)
    requires Clean(d, classify) && forall i :: 0 <= i < |d| ==> classify(d[i].0).Fixed?
    requires Sorted(c) && forall i :: 0 <= i < |c| ==> classify(c[i].0) == Member(c[i].0)
    requires Sorted(x) && forall i :: 0 <= i < |x| ==> classify(x[i].0) == Extension
    ensures Clean(Blocks(d, c, x, fixedFirst), classify)
  {
    var dc := if fixedFirst then d + c else c + d;
    FrontClean(d, c, fixedFirst, classify);
    ExtensionsDecode(x, classify);
    forall j | 0 <= j < |x| ensures EntryOk(dc, x[j], classify) {
      assert FindExtension(dc, classify, x[j].0).None?;
    }
    CleanAppend(dc, x, classify);
    assert Blocks(d, c, x, fixedFirst) == dc + x;
  }

  /** The fixed fields and the members, in either order, are accepted and hold no extension. */
  lemma FrontClean<V>(d: seq<(string, V)>, c: Entries<V>, fixedFirst: bool, classify: string -> Slot)
    requires Clean(d, classify) && forall i :: 0 <= i < |d| ==> classify(d[i].0).Fixed?
    requires Sorted(c) && forall i :: 0 <= i < |c| ==> classify(c[i].0) == Member(c[i].0)
    ensures var dc := if fixedFirst then d + c else c + d;
            Clean(dc, classify) && forall k :: FindExtension(dc, classify, k).None?
  {
    MembersDecode(c, classify);
    if fixedFirst {
      forall j | 0 <= j < |c| ensures EntryOk(d, c[j], classify) {
        FindNone(d, classify, c[j].0);
      }
      CleanAppend(d, c, classify);
    } else {
      forall j | 0 <= j < |d| ensures EntryOk(c, d[j], classify) {
        FindNone(c, classify, classify(d[j].0).check);
      }
      CleanAppend(c, d, classify);
    }
    var dc := if fixedFirst then d + c else c + d;
    forall k ensures FindExtension(dc, classify, k).None? {
      FindNone(d, classify, k);
      FindNone(c, classify, k);
      if fixedFirst { FindAppend(d, c, classify, k); } else { FindAppend(c, d, classify, k); }
    }
  }

  lemma {:induction false} BlocksFind<V>(d: seq<(string, V)>, c: Entries<V>, x: Entries<V>, fixedFirst: bool,
                                         classify: string -> Slot, k: string)
    requires forall i :: 0 <= i < |d| ==> classify(d[i].0).Fixed?
    requires Sorted(c) && forall i :: 0 <= i < |c| ==> classify(c[i].0) == Member(c[i].0)
    requires Sorted(x) && forall i :: 0 <= i < |x| ==> classify(x[i].0) == Extension
    ensures FindMember(Blocks(d, c, x, fixedFirst), classify, k) == Get(c, k)
    ensures FindExtension(Blocks(d, c, x, fixedFirst), classify, k) == Get(x, k)
    ensures Stored(Blocks(d, c, x, fixedFirst), classify) == Stored(d, classify)
  {
    var dc := if fixedFirst then d + c else c + d;
    assert Blocks(d, c, x, fixedFirst) == dc + x;
    FindAppend(dc, x, classify, k);
    BlocksMember(d, c, x, fixedFirst, classify, k);
    BlocksExtension(d, c, x, fixedFirst, classify, k);
    BlocksStored(d, c, x, fixedFirst, classify, k);
  }

  lemma BlocksMember<V>(d: seq<(string, V)>, c: Entries<V>, x: Entries<V>, fixedFirst: bool,
                        classify: string -> Slot, k: string)
    requires forall i :: 0 <= i < |d| ==> classify(d[i].0).Fixed?
    requires Sorted(c) && forall i :: 0 <= i < |c| ==> classify(c[i].0) == Member(c[i].0)
    requires forall i :: 0 <= i < |x| ==> classify(x[i].0) == Extension
    ensures FindMember(x, classify, k).None?
    ensures FindMember(if fixedFirst then d + c else c + d, classify, k) == Get(c, k)
  {
    FindNone(x, classify, k);
    FindNone(d, classify, k);
    MembersDecode(c, classify);
    FrontBlocks(d, c, fixedFirst, classify, k);
  }

  lemma BlocksExtension<V>(d: seq<(string, V)>, c: Entries<V>, x: Entries<V>, fixedFirst: bool,
                           classify: string -> Slot, k: string)
    requires forall i :: 0 <= i < |d| ==> classify(d[i].0).Fixed?
    requires forall i :: 0 <= i < |c| ==> classify(c[i].0) == Member(c[i].0)
    requires Sorted(x) && forall i :: 0 <= i < |x| ==> classify(x[i].0) == Extension
    ensures FindExtension(x, classify, k) == Get(x, k)
    ensures FindExtension(if fixedFirst then d + c else c + d, classify, k).None?
  {
    FindNone(d, classify, k);
    FindNone(c, classify, k);
    ExtensionsDecode(x, classify);
    FrontBlocks(d, c, fixedFirst, classify, k);
  }

  lemma BlocksStored<V>(d: seq<(string, V)>, c: Entries<V>, x: Entries<V>, fixedFirst: bool,
                        classify: string -> Slot, k: string)
    requires forall i :: 0 <= i < |c| ==> classify(c[i].0) == Member(c[i].0)
    requires forall i :: 0 <= i < |x| ==> classify(x[i].0) == Extension
    ensures Stored(x, classify) == map[]
    ensures Stored(if fixedFirst then d + c else c + d, classify) == Stored(d, classify)
  {
    FindNone(x, classify, k);
    FindNone(c, classify, k);
    FrontBlocks(d, c, fixedFirst, classify, k);
  }

  /** The front of the object, fixed fields and members in either order. */
  lemma FrontBlocks<V>(d: seq<(string, V)>, c: Entries<V>, fixedFirst: bool, classify: string -> Slot, k: string)
    ensures var dc := if fixedFirst then d + c else c + d;
            && (FindMember(d, classify, k).None? ==> FindMember(dc, classify, k) == FindMember(c, classify, k))
            && (FindExtension(d, classify, k).None? && FindExtension(c, classify, k).None? ==> FindExtension(dc, classify, k).None?)
            && (Stored(c, classify) == map[] ==> Stored(dc, classify) == Stored(d, classify))
  {
    if fixedFirst {
      FindAppend(d, c, classify, k);
    } else {
      FindAppend(c, d, classify, k);
    }
    assert Stored(d, classify) + map[] == Stored(d, classify);
    assert map[] + Stored(d, classify) == Stored(d, classify);
  }

  /**
   * An object made of a block `d` of distinct fixed fields, a sorted block `c`
   * of members named by their keys, and a sorted block `x` of extensions, in
   * the order fixed-members-extensions or members-fixed-extensions, is
   * accepted and decodes to exactly those blocks.
   */
  lemma BlocksDecode<V>(d: seq<(string, V)>, c: Entries<V>, x: Entries<V>, fixedFirst: bool,
                        classify: string -> Slot, q: Quote)
    requires Clean(d, classify) && forall i :: 0 <= i < |d| ==> classify(d[i].0).Fixed?
    requires Sorted(c) && forall i :: 0 <= i < |c| ==> classify(c[i].0) == Member(c[i].0)
    requires Sorted(x) && forall i :: 0 <= i < |x| ==> classify(x[i].0) == Extension
    ensures Run(Blocks(d, c, x, fixedFirst), classify, q).Ok?
    ensures Run(Blocks(d, c, x, fixedFirst), classify, q).value.members == c
    ensures Run(Blocks(d, c, x, fixedFirst), classify, q).value.extensions == x
    ensures Run(Blocks(d, c, x, fixedFirst), classify, q).value.fixed == Stored(d, classify)
    ensures Run(Blocks(d, c, x, fixedFirst), classify, q) == Ok(Decoded(Stored(d, classify), c, x))
  {
    var obj := Blocks(d, c, x, fixedFirst);
    BlocksClean(d, c, x, fixedFirst, classify);
    BlocksFind(d, c, x, fixedFirst, classify, "");
    forall k
      ensures FindMember(obj, classify, k) == Get(c, k)
      ensures FindExtension(obj, classify, k) == Get(x, k)
    {
      BlocksFind(d, c, x, fixedFirst, classify, k);
    }
    var r := Run(obj, classify, q);
    SortedExtensional(r.value.members, c);
    SortedExtensional(r.value.extensions, x);
  }

  /**
   * A second key landing in the same slot as the first is refused with that
   * slot's message (for extensions the keys themselves must agree).
   */
  lemma RepeatedKey<V>(k1: string, k2: string, v: V, w: V, classify: string -> Slot, q: Quote)
    requires classify(k1) == classify(k2)
    requires classify(k1).Member? || (classify(k1).Extension? && k1 == k2)
             || (classify(k1).Fixed? && classify(k1).check == classify(k1).store)
    ensures Run([(k1, v), (k2, w)], classify, q) == Err(EntryError((k2, classify), q))
  {
    assert [(k1, v), (k2, w)][..1] == [(k1, v)];
    assert [(k1, v)][..0] == [];
  }

  /** Every member name found comes from some entry classified into it. */
  lemma {:induction false} FoundMemberHasKey<V>(obj: seq<(string, V)>, classify: string -> Slot, n: string)
    requires FindMember(obj, classify, n).Some?
    ensures exists i :: 0 <= i < |obj| && classify(obj[i].0) == Member(n)
    decreases |obj|
  {
    var last := obj[|obj| - 1];
    if classify(last.0) != Member(n) {
      FoundMemberHasKey(obj[..|obj| - 1], classify, n);
      var i :| 0 <= i < |obj| - 1 && classify(obj[..|obj| - 1][i].0) == Member(n);
      assert obj[i] == obj[..|obj| - 1][i];
    }
  }

  /** Every fixed slot filled was named as the store of some entry's class. */
  lemma {:induction false} StoredFromSlot<V>(obj: seq<(string, V)>, classify: string -> Slot, s: string)
    requires s in Stored(obj, classify)
    ensures exists i :: 0 <= i < |obj| && classify(obj[i].0).Fixed? && classify(obj[i].0).store == s
    decreases |obj|
  {
    var last := obj[|obj| - 1];
    if !(classify(last.0).Fixed? && classify(last.0).store == s) {
      StoredFromSlot(obj[..|obj| - 1], classify, s);
      var i :| 0 <= i < |obj| - 1 && classify(obj[..|obj| - 1][i].0).Fixed? && classify(obj[..|obj| - 1][i].0).store == s;
      assert obj[i] == obj[..|obj| - 1][i];
    }
  }

  /**
   * Two fixed-field entries: the second is refused exactly when its check
   * slot was filled by the first; otherwise both are stored, the second
   * winning if they share a slot.
   */
  lemma TwoFixed<V>(k1: string, k2: string, v: V, w: V, classify: string -> Slot, q: Quote)
    requires classify(k1).Fixed? && classify(k2).Fixed?
    ensures Run([(k1, v)], classify, q) == Ok(Decoded(map[classify(k1).store := v], [], []))
    ensures Run([(k1, v), (k2, w)], classify, q)
            == if classify(k2).check == classify(k1).store then Err(DuplicateField(classify(k2).check))
               else Ok(Decoded(map[classify(k1).store := v][classify(k2).store := w], [], []))
  {
    assert [(k1, v), (k2, w)][..1] == [(k1, v)];
    assert [(k1, v)][..0] == [];
  }

  /** A lone member entry decodes to a one-entry member map. */
  lemma SingleMember<V>(k: string, v: V, classify: string -> Slot, q: Quote)
    requires classify(k).Member?
    ensures Run([(k, v)], classify, q) == Ok(Decoded(map[], [(classify(k).name, v)], []))
  {
    assert [(k, v)][..0] == [];
    assert Insert([], classify(k).name, v) == [(classify(k).name, v)];
  }
}
