/**
 * String helpers used by the validators and decoders: prefix tests,
 * `trim_start_matches`, ASCII lower-casing, byte-wise ordering and decimal
 * formatting of indices.
 */
module Strings {

  predicate StartsWith(s: string, prefix: string)
  {
    |prefix| <= |s| && s[..|prefix|] == prefix
  }

  lemma StartsWithConcat(p: string, q: string)
    ensures StartsWith(p + q, p)
  {
    assert (p + q)[..|p|] == p;
  }

  /** A string that starts with `p + q` starts with `p`. */
  lemma StartsWithShorter(s: string, p: string, q: string)
    requires StartsWith(s, p + q)
    ensures StartsWith(s, p)
  {
    assert s[..|p|] == (p + q)[..|p|];
  }

  lemma StartsWithChain(s: string, t: string, u: string)
    requires StartsWith(s, t) && StartsWith(t, u)
    ensures StartsWith(s, u)
  {
    assert s[..|u|] == t[..|u|];
  }

  predicate Contains(s: string, c: char)
  {
    exists i :: 0 <= i < |s| && s[i] == c
  }

  /** Rust's `str::trim_start_matches(prefix)`: strip every leading copy of a non-empty prefix. */
  function TrimStartMatches(s: string, prefix: string): (r: string)
    ensures |r| <= |s|
    ensures |prefix| > 0 ==> !StartsWith(r, prefix)
    decreases |s|
  {
    if |prefix| > 0 && StartsWith(s, prefix) then TrimStartMatches(s[|prefix|..], prefix) else s
  }

  lemma {:induction false} TrimIdempotent(s: string, prefix: string)
    ensures TrimStartMatches(TrimStartMatches(s, prefix), prefix) == TrimStartMatches(s, prefix)
  {
  }

  /** Prepending any number of copies of the prefix does not change the trimmed result. */
  lemma {:induction false} TrimRepeatedPrefix(prefix: string, s: string, n: nat)
    requires |prefix| > 0
    ensures TrimStartMatches(Repeat(prefix, n) + s, prefix) == TrimStartMatches(s, prefix)
    decreases n
  {
    if n > 0 {
      var t := Repeat(prefix, n - 1) + s;
      calc {
        TrimStartMatches(Repeat(prefix, n) + s, prefix);
        == { RepeatUnfold(prefix, s, n); }
        TrimStartMatches(prefix + t, prefix);
        == { TrimOnce(prefix, t); }
        TrimStartMatches(t, prefix);
        == { TrimRepeatedPrefix(prefix, s, n - 1); }
        TrimStartMatches(s, prefix);
      }
    } else {
      assert Repeat(prefix, n) + s == s;
    }
  }

  lemma RepeatUnfold(prefix: string, s: string, n: nat)
    requires n > 0
    ensures Repeat(prefix, n) + s == prefix + (Repeat(prefix, n - 1) + s)
  {
    assert Repeat(prefix, n) == prefix + Repeat(prefix, n - 1);
  }

  /** One leading copy of the prefix is trimmed away. */
  lemma TrimOnce(prefix: string, t: string)
    requires |prefix| > 0
    ensures TrimStartMatches(prefix + t, prefix) == TrimStartMatches(t, prefix)
  {
    assert (prefix + t)[..|prefix|] == prefix;
    assert (prefix + t)[|prefix|..] == t;
  }

  /** `n` copies of `s`. */
  function Repeat(s: string, n: nat): string
  {
    if n == 0 then "" else s + Repeat(s, n - 1)
  }

  /** Rust's `to_lowercase`, restricted to the ASCII letters. */
  function ToLower(s: string): (r: string)
    ensures |r| == |s|
    ensures forall i :: 0 <= i < |s| ==> r[i] == LowerChar(s[i])
  {
    if |s| == 0 then "" else [LowerChar(s[0])] + ToLower(s[1..])
  }

  function LowerChar(c: char): char
  {
    if 'A' <= c <= 'Z' then (c as int - 'A' as int + 'a' as int) as char else c
  }

  lemma ToLowerIdempotent(s: string)
    ensures ToLower(ToLower(s)) == ToLower(s)
  {
    var t := ToLower(s);
    assert forall i :: 0 <= i < |s| ==> LowerChar(t[i]) == t[i];
  }

  /** Strict lexicographic order on strings (byte order of UTF-8 agrees with code-point order). */
  predicate Less(a: string, b: string)
  {
    if |a| == 0 then |b| > 0
    else if |b| == 0 then false
    else if a[0] < b[0] then true
    else if a[0] > b[0] then false
    else Less(a[1..], b[1..])
  }

  lemma {:induction false} LessIrreflexive(a: string)
    ensures !Less(a, a)
  {
    if |a| > 0 {
      LessIrreflexive(a[1..]);
    }
  }

  lemma {:induction false} LessTransitive(a: string, b: string, c: string)
    requires Less(a, b) && Less(b, c)
    ensures Less(a, c)
  {
    if |a| > 0 && |b| > 0 && |c| > 0 && a[0] == b[0] == c[0] {
      LessTransitive(a[1..], b[1..], c[1..]);
    }
  }

  lemma {:induction false} LessTotal(a: string, b: string)
    ensures a == b || Less(a, b) || Less(b, a)
  {
    if |a| > 0 && |b| > 0 && a[0] == b[0] {
      LessTotal(a[1..], b[1..]);
      if a[1..] == b[1..] {
        assert a == [a[0]] + a[1..] && b == [b[0]] + b[1..];
      }
    }
  }

  lemma LessAsymmetric(a: string, b: string)
    requires Less(a, b)
    ensures !Less(b, a)
  {
    if Less(b, a) {
      LessTransitive(a, b, a);
      LessIrreflexive(a);
    }
  }

  function DigitChar(d: nat): char
    requires d < 10
  {
    "0123456789"[d]
  }

  /** Decimal rendering of a non-negative integer, as `format!("{i}")`. */
  function NatToString(n: nat): (r: string)
    ensures |r| > 0
    ensures forall i :: 0 <= i < |r| ==> '0' <= r[i] <= '9'
    ensures r[0] == '0' ==> n == 0
    decreases n
  {
    if n < 10 then [DigitChar(n)] else NatToString(n / 10) + [DigitChar(n % 10)]
  }

  /** Strings that differ in their first character do not extend one another. */
  lemma FirstCharDiffers(s: string, prefix: string)
    requires |s| > 0 && |prefix| > 0 && s[0] != prefix[0]
    ensures !StartsWith(s, prefix)
  {
    if |prefix| <= |s| {
      assert s[..|prefix|][0] == s[0];
    }
  }
}
