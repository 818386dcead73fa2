/**
 * The three fixed regular expressions of the validator, written out as
 * character-class predicates: component names, the Swagger 2.0 `host`
 * field, and `{name}` placeholders in server URL templates.
 */
module Patterns {
  import opened Wrappers

  /** `[a-zA-Z0-9.\-_]` */
  predicate IsNameChar(c: char)
  {
    ('a' <= c <= 'z') || ('A' <= c <= 'Z') || ('0' <= c <= '9') || c == '.' || c == '-' || c == '_'
  }

  predicate IsAsciiDigit(c: char)
  {
    '0' <= c <= '9'
  }

  /** `[^{}/ :\\]` */
  predicate IsHostChar(c: char)
  {
    c != '{' && c != '}' && c != '/' && c != ' ' && c != ':' && c != '\\'
  }

  /** `^[a-zA-Z0-9.\-_]+$` */
  predicate IsComponentName(s: string)
  {
    |s| > 0 && forall i :: 0 <= i < |s| ==> IsNameChar(s[i])
  }

  /** `^[^{}/ :\\]+(?::\d+)?$`: a host name, optionally followed by a colon and a port. */
  predicate IsHost(s: string)
  {
    exists k :: 1 <= k <= |s| && IsHostSplit(s, k)
  }

  /** `s[..k]` is the host-name run and `s[k..]` is empty or a `:port` suffix. */
  predicate IsHostSplit(s: string, k: int)
    requires 1 <= k <= |s|
  {
    (forall i :: 0 <= i < k ==> IsHostChar(s[i]))
    && (k == |s| || (s[k] == ':' && k + 1 < |s| && forall i :: k + 1 <= i < |s| ==> IsAsciiDigit(s[i])))
  }

  /** The first `:` of `s`, if any. */
  function FirstColon(s: string): (r: Option<nat>)
    ensures r.Some? ==> r.value < |s| && s[r.value] == ':' && forall i :: 0 <= i < r.value ==> s[i] != ':'
    ensures r.None? ==> forall i :: 0 <= i < |s| ==> s[i] != ':'
  {
    if |s| == 0 then None
    else if s[0] == ':' then Some(0)
    else match FirstColon(s[1..])
      case None => None
      case Some(j) => Some(j + 1)
  }

  /** A direct decision procedure for `IsHost`: split at the first colon. */
  function CheckHost(s: string): (r: bool)
    ensures r <==> IsHost(s)
  {
    match FirstColon(s)
    case None =>
      var ok := |s| > 0 && forall i :: 0 <= i < |s| ==> IsHostChar(s[i]);
      if ok then assert IsHostSplit(s, |s|); true
      else
        assert forall k :: 1 <= k <= |s| ==> !IsHostSplit(s, k);
        false
    case Some(k) =>
      var ok := k >= 1 && (forall i :: 0 <= i < k ==> IsHostChar(s[i]))
        && k + 1 < |s| && (forall i :: k + 1 <= i < |s| ==> IsAsciiDigit(s[i]));
      if ok then assert IsHostSplit(s, k); true
      else
        assert forall j :: 1 <= j <= |s| ==> !IsHostSplit(s, j) by {
          forall j | 1 <= j <= |s|
            ensures !IsHostSplit(s, j)
          {
            if j < k {
              assert s[j] != ':';
            } else if j > k {
              assert !IsHostChar(s[k]);
            }
          }
        }
        false
  }

  /** End of the maximal run of name characters starting at `i`. */
  function NameRunEnd(s: string, i: nat): (r: nat)
    requires i <= |s|
    ensures i <= r <= |s|
    ensures forall j :: i <= j < r ==> IsNameChar(s[j])
    ensures r < |s| ==> !IsNameChar(s[r])
    decreases |s| - i
  {
    if i < |s| && IsNameChar(s[i]) then NameRunEnd(s, i + 1) else i
  }

  /** `\{([a-zA-Z0-9.\-_]+)}` matches at position `i`. */
  predicate PlaceholderAt(s: string, i: nat)
  {
    i < |s| && s[i] == '{' && NameRunEnd(s, i + 1) > i + 1
      && NameRunEnd(s, i + 1) < |s| && s[NameRunEnd(s, i + 1)] == '}'
  }

  /**
   * The captured names of `Regex::captures_iter` over the URL template:
   * leftmost matches, scanned left to right without overlap.
   */
  function Placeholders(s: string, from: nat): (r: seq<string>)
    requires from <= |s|
    ensures forall k :: 0 <= k < |r| ==> IsComponentName(r[k])
    decreases |s| - from
  {
    if from == |s| then []
    else if PlaceholderAt(s, from) then
      var e := NameRunEnd(s, from + 1);
      [s[from + 1..e]] + Placeholders(s, e + 1)
    else Placeholders(s, from + 1)
  }

  /** A template without `{` has no placeholders. */
  lemma {:induction false} NoBraceNoPlaceholders(s: string, from: nat)
    requires from <= |s|
    requires forall i :: from <= i < |s| ==> s[i] != '{'
    ensures Placeholders(s, from) == []
    decreases |s| - from
  {
    if from < |s| {
      NoBraceNoPlaceholders(s, from + 1);
    }
  }

  /** A `{name}` in front of a template contributes `name` first, then the rest is scanned. */
  lemma PlaceholderPrefix(name: string, rest: string)
    requires IsComponentName(name)
    ensures Placeholders("{" + name + "}" + rest, 0) == [name] + Placeholders("{" + name + "}" + rest, |name| + 2)
  {
    var s := "{" + name + "}" + rest;
    NameRunEndOfName(s, name, 1);
    assert s[1..|name| + 1] == name;
  }

  lemma {:induction false} NameRunEndOfName(s: string, name: string, i: nat)
    requires 1 <= i <= |name| + 1
    requires |s| >= |name| + 2
    requires s[1..|name| + 1] == name && s[|name| + 1] == '}'
    requires IsComponentName(name)
    ensures NameRunEnd(s, i) == |name| + 1
    decreases |name| + 1 - i
  {
    if i <= |name| {
      assert s[i] == name[i - 1];
      NameRunEndOfName(s, name, i + 1);
    }
  }
}
