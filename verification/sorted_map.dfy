/**
 * Rust's `BTreeMap<String, V>` as an association list kept in strictly
 * increasing key order, so that iteration order (which decides the order
 * of reported errors and of encoded keys) is part of the model.
 */
module SortedMap {
  import opened Wrappers
  import Strings

  type Entries<V> = seq<(string, V)>

  /** Keys strictly increase, hence are unique. */
  predicate Sorted<V>(m: Entries<V>)
  {
    forall i, j :: 0 <= i < j < |m| ==> Strings.Less(m[i].0, m[j].0)
  }

  function Keys<V>(m: Entries<V>): (r: set<string>)
    ensures forall i :: 0 <= i < |m| ==> m[i].0 in r
    ensures forall k :: k in r ==> exists i :: 0 <= i < |m| && m[i].0 == k
  {
    if |m| == 0 then {} else {m[0].0} + Keys(m[1..])
  }

  /** `BTreeMap::get`. */
  function Get<V>(m: Entries<V>, k: string): (r: Option<V>)
    ensures r.Some? <==> k in Keys(m)
    ensures r.Some? ==> exists i :: 0 <= i < |m| && m[i] == (k, r.value)
  {
    if |m| == 0 then None else if m[0].0 == k then Some(m[0].1) else Get(m[1..], k)
  }

  /** `BTreeMap::insert` on a key: the new value replaces any old one. */
  function Insert<V>(m: Entries<V>, k: string, v: V): (r: Entries<V>)
    requires Sorted(m)
    ensures Sorted(r)
    ensures Keys(r) == Keys(m) + {k}
    ensures Get(r, k) == Some(v)
    ensures forall k' :: k' != k ==> Get(r, k') == Get(m, k')
  {
    if |m| == 0 then [(k, v)]
    else if m[0].0 == k then
      HeadBelowTail(m);
      ConsEntry((k, v), m[1..]);
      ConsEntry(m[0], m[1..]);
      [(k, v)] + m[1..]
    else if Strings.Less(k, m[0].0) then
      HeadBelowTail(m);
      LessThanAll(k, m);
      ConsEntry((k, v), m);
      [(k, v)] + m
    else
      Strings.LessTotal(k, m[0].0);
      var t := Insert(m[1..], k, v);
      HeadBelowTail(m);
      ConsEntry(m[0], m[1..]);
      ConsEntry(m[0], t);
      [m[0]] + t
  }

  /** An entry put in front of a sorted map with larger keys. */
  lemma ConsEntry<V>(e: (string, V), t: Entries<V>)
    requires Sorted(t) && forall key :: key in Keys(t) ==> Strings.Less(e.0, key)
    ensures Sorted([e] + t)
    ensures Keys([e] + t) == {e.0} + Keys(t)
    ensures forall k :: Get([e] + t, k) == if k == e.0 then Some(e.1) else Get(t, k)
  {
    var m := [e] + t;
    assert m[1..] == t;
    forall i, j | 0 <= i < j < |m|
      ensures Strings.Less(m[i].0, m[j].0)
    {
      if i > 0 {
        assert m[i] == t[i - 1] && m[j] == t[j - 1];
      } else {
        assert m[j].0 == t[j - 1].0;
      }
    }
  }

  lemma HeadBelowTail<V>(m: Entries<V>)
    requires Sorted(m) && |m| > 0
    ensures Sorted(m[1..])
    ensures forall key :: key in Keys(m[1..]) ==> Strings.Less(m[0].0, key)
    ensures m[0].0 !in Keys(m[1..])
  {
    forall key | key in Keys(m[1..])
      ensures Strings.Less(m[0].0, key)
    {
      var i :| 0 <= i < |m[1..]| && m[1..][i].0 == key;
      assert m[i + 1].0 == key;
    }
    if m[0].0 in Keys(m[1..]) {
      Strings.LessIrreflexive(m[0].0);
    }
  }

  lemma LessThanAll<V>(k: string, m: Entries<V>)
    requires Sorted(m) && |m| > 0 && Strings.Less(k, m[0].0)
    ensures forall i :: 0 <= i < |m| ==> Strings.Less(k, m[i].0)
  {
    forall i | 0 < i < |m|
      ensures Strings.Less(k, m[i].0)
    {
      Strings.LessTransitive(k, m[0].0, m[i].0);
    }
  }

  /** The entries whose key satisfies `p`, in order (used by the encoders). */
  function Filter<V>(m: Entries<V>, p: string -> bool): (r: Entries<V>)
    ensures forall i :: 0 <= i < |r| ==> p(r[i].0)
    ensures forall i :: 0 <= i < |m| && p(m[i].0) ==> m[i] in r
    ensures forall e :: e in r ==> e in m
    ensures Sorted(m) ==> Sorted(r)
  {
    if |m| == 0 then []
    else
      var t := Filter(m[1..], p);
      SubsetOfTailAbove(m, t);
      if p(m[0].0) then [m[0]] + t else t
  }

  lemma SubsetOfTailAbove<V>(m: Entries<V>, t: Entries<V>)
    requires |m| > 0
    requires forall e :: e in t ==> e in m[1..]
    ensures Sorted(m) ==> forall e :: e in t ==> Strings.Less(m[0].0, e.0)
  {
    if Sorted(m) {
      forall e | e in t
        ensures Strings.Less(m[0].0, e.0)
      {
        var j :| 0 <= j < |m[1..]| && m[1..][j] == e;
        assert m[j + 1] == e;
      }
    }
  }

  /** `Get` on a map extended at the end. */
  lemma {:induction false} GetAppend<V>(a: Entries<V>, e: (string, V), k: string)
    ensures Get(a + [e], k) == if k in Keys(a) then Get(a, k) else if e.0 == k then Some(e.1) else None
  {
    if |a| > 0 {
      assert (a + [e])[1..] == a[1..] + [e];
      GetAppend(a[1..], e, k);
    } else {
      assert a + [e] == [e];
    }
  }

  /** Two sorted maps that answer every lookup alike are the same list. */
  lemma {:induction false} SortedExtensional<V>(a: Entries<V>, b: Entries<V>)
    requires Sorted(a) && Sorted(b)
    requires forall k :: Get(a, k) == Get(b, k)
    ensures a == b
    decreases |a|
  {
    if |a| == 0 {
      forall k
        ensures k !in Keys(b)
      {
        assert Get(a, k) == Get(b, k);
      }
      EmptyKeys(b);
    } else {
      assert Get(b, a[0].0).Some?;
      assert |b| > 0;
      HeadBelowTail(a);
      HeadBelowTail(b);
      if a[0].0 != b[0].0 {
        assert Get(a, b[0].0) == Get(b, b[0].0);
        assert a[0].0 in Keys(b[1..]);
        assert b[0].0 in Keys(a[1..]);
        Strings.LessAsymmetric(a[0].0, b[0].0);
      }
      assert a[0] == b[0] by {
        assert Get(a, a[0].0) == Some(a[0].1);
      }
      forall k
        ensures Get(a[1..], k) == Get(b[1..], k)
      {
        if k == a[0].0 {
        } else {
          assert Get(a, k) == Get(a[1..], k);
        }
      }
      SortedExtensional(a[1..], b[1..]);
      assert a == [a[0]] + a[1..] && b == [b[0]] + b[1..];
    }
  }

  lemma EmptyKeys<V>(m: Entries<V>)
    ensures Keys(m) == {} ==> m == []
  {
  }

  /** Dropping the last entry keeps a map sorted, and the dropped key was not among the rest. */
  lemma PrefixSorted<V>(m: Entries<V>)
    requires Sorted(m) && |m| > 0
    ensures Sorted(m[..|m| - 1])
    ensures m[|m| - 1].0 !in Keys(m[..|m| - 1])
  {
    var m' := m[..|m| - 1];
    if m[|m| - 1].0 in Keys(m') {
      var i :| 0 <= i < |m'| && m'[i].0 == m[|m| - 1].0;
      Strings.LessIrreflexive(m[i].0);
    }
  }
}
