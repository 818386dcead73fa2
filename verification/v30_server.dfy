/**
 * The Server and Server Variable Objects of OpenAPI 3.0. The url must be
 * non-empty; every declared variable is validated (a non-empty default that
 * belongs to the enum, if there is one); every `{name}` placeholder of the
 * url consumes its variable, so a placeholder whose variable is missing or
 * already consumed is undefined; the variables no placeholder consumed are
 * unused unless that rule is off. The source reports the unused variables in
 * the iteration order of a hash set; here they come in key order, and the
 * properties below are stated over the set of names.
 */
module V30Server {
  import opened Wrappers
  import opened Strings
  import opened SortedMap
  import opened Validation
  import opened Helpers
  import opened Rules
  import opened Locality
  import opened Patterns
  import opened V30Types

  /** The characters `{:?}` writes escaped inside a string. */
  function EscapeChar(ch: char): string
  {
    match ch
    case '"' => "\\\""
    case '\\' => "\\\\"
    case '\n' => "\\n"
    case '\r' => "\\r"
    case '\t' => "\\t"
    case '\0' => "\\0"
    case _ => [ch]
  }

  function DebugEscape(s: string): string
  {
    if s == [] then [] else EscapeChar(s[0]) + DebugEscape(s[1..])
  }

  /** Reading an escaped string back. */
  function Unescape(s: string): string
    decreases |s|
  {
    if s == [] then []
    else if s[0] == '\\' && |s| >= 2 then
      (match s[1]
       case 'n' => "\n"
       case 'r' => "\r"
       case 't' => "\t"
       case '0' => "\0"
       case other => [other]) + Unescape(s[2..])
    else [s[0]] + Unescape(s[1..])
  }

  /** One escaped character reads back as itself. */
  lemma UnescapeChar(ch: char, t: string)
    ensures Unescape(EscapeChar(ch) + t) == [ch] + Unescape(t)
  {
    var e := EscapeChar(ch);
    if ch in "\"\\\n\r\t\0" {
      assert |e| == 2 && e[0] == '\\';
      assert (e + t)[0] == '\\' && (e + t)[1] == e[1] && (e + t)[2..] == t;
    } else {
      assert e == [ch] && (e + t)[0] == ch && (e + t)[1..] == t;
    }
  }

  /** The escaping loses nothing: the enum values can be read back from the message. */
  lemma {:induction false} EscapeRoundTrip(s: string)
    ensures Unescape(DebugEscape(s)) == s
  {
    if s != [] {
      EscapeRoundTrip(s[1..]);
      UnescapeChar(s[0], DebugEscape(s[1..]));
      assert s == [s[0]] + s[1..];
    }
  }

  /** `{:?}` of a list of strings: `["a", "b"]`. */
  function DebugList(vs: seq<string>): string
  {
    "[" + DebugItems(vs) + "]"
  }

  function DebugItems(vs: seq<string>): string
  {
    if vs == [] then ""
    else if |vs| == 1 then "\"" + DebugEscape(vs[0]) + "\""
    else "\"" + DebugEscape(vs[0]) + "\", " + DebugItems(vs[1..])
  }

  function EnumMessage(path: string, default: string, values: seq<string>): string
  {
    path + (".default: `" + default + "` must be in enum values: " + DebugList(values))
  }

  predicate VariableOk(v: ServerVariable)
  {
    v.default != "" && (v.enumValues.Some? ==> v.default in v.enumValues.value)
  }

  /** `ServerVariable::validate_with_context`: the default, then its membership in the enum. */
  function VariableErrors(v: ServerVariable, path: string): (e: seq<string>)
    ensures e == [] <==> VariableOk(v)
    ensures v.enumValues.Some? && v.default !in v.enumValues.value ==> e[|e| - 1] == EnumMessage(path, v.default, v.enumValues.value)
    ensures AllAt(e, path)
  {
    var d := RequiredString(v.default, path + ".default");
    var m := if v.enumValues.Some? && v.default !in v.enumValues.value then
               AllAtMessage(path, ".default: `" + v.default + "` must be in enum values: " + DebugList(v.enumValues.value));
               [EnumMessage(path, v.default, v.enumValues.value)]
             else [];
    AllAtNarrow(d, path, ".default");
    AllAtConcat(d, m, path);
    d + m
  }

  function VariablePath(path: string, name: string): string
  {
    path + (".variables[" + name + "]")
  }

  /** The declared variables from the `i`-th on, in key order, each at `path.variables[name]`. */
  function VariablesErrors(vars: Entries<ServerVariable>, i: nat, path: string): (e: seq<string>)
    requires i <= |vars|
    ensures e == [] <==> forall k :: i <= k < |vars| ==> VariableOk(vars[k].1)
    ensures AllAt(e, path)
    decreases |vars| - i
  {
    if i == |vars| then []
    else
      var v := VariableErrors(vars[i].1, VariablePath(path, vars[i].0));
      var rest := VariablesErrors(vars, i + 1, path);
      AllAtNarrow(v, path, ".variables[" + vars[i].0 + "]");
      AllAtConcat(v, rest, path);
      v + rest
  }

  /**
   * Each placeholder in turn removes its name from the declared ones; the
   * first component lists, in order, the placeholders that found nothing to
   * remove, the second the declared names left over.
   */
  function Consume(ps: seq<string>, declared: set<string>): (r: (seq<string>, set<string>))
    ensures r.1 <= declared
  {
    if ps == [] then ([], declared)
    else if ps[0] in declared then Consume(ps[1..], declared - {ps[0]})
    else
      var rest := Consume(ps[1..], declared);
      ([ps[0]] + rest.0, rest.1)
  }

  /** The names left over are the declared ones no placeholder names. */
  lemma {:induction false} ConsumeLeftOver(ps: seq<string>, declared: set<string>)
    ensures Consume(ps, declared).1 == declared - set k | 0 <= k < |ps| :: ps[k]
  {
    if ps != [] {
      var d' := if ps[0] in declared then declared - {ps[0]} else declared;
      ConsumeLeftOver(ps[1..], d');
      var tail := set k | 0 <= k < |ps[1..]| :: ps[1..][k];
      assert (set k | 0 <= k < |ps| :: ps[k]) == {ps[0]} + tail by {
        forall x | x in tail ensures x in (set k | 0 <= k < |ps| :: ps[k]) {
          var k :| 0 <= k < |ps[1..]| && ps[1..][k] == x;
          assert ps[k + 1] == x;
        }
      }
    }
  }

  /**
   * A name is reported undefined once for every use beyond the one that
   * consumed its variable: as often as it occurs, less one when declared.
   */
  lemma {:induction false} ConsumeUndefinedCount(ps: seq<string>, declared: set<string>, x: string)
    ensures multiset(Consume(ps, declared).0)[x]
         == multiset(ps)[x] - (if x in declared && x in ps then 1 else 0)
  {
    if ps != [] {
      assert ps == [ps[0]] + ps[1..];
      assert multiset(ps) == multiset{ps[0]} + multiset(ps[1..]);
      assert x in ps <==> x == ps[0] || x in ps[1..];
      if ps[0] in declared {
        ConsumeUndefinedCount(ps[1..], declared - {ps[0]}, x);
      } else {
        ConsumeUndefinedCount(ps[1..], declared, x);
        var rest := Consume(ps[1..], declared);
        assert multiset([ps[0]] + rest.0) == multiset{ps[0]} + multiset(rest.0);
      }
    }
  }

  /** The declared names, in key order, that are among `left`. */
  function UnusedNames(vars: Entries<ServerVariable>, left: set<string>): (r: seq<string>)
    ensures forall n :: n in r <==> n in left && n in Keys(vars)
  {
    if vars == [] then []
    else
      var rest := UnusedNames(vars[1..], left);
      assert Keys(vars) == {vars[0].0} + Keys(vars[1..]);
      if vars[0].0 in left then [vars[0].0] + rest else rest
  }

  function UndefinedMessage(path: string, name: string): string
  {
    path + (".url: `" + name + "` is not defined in `variables`")
  }

  function UnusedVariableMessage(path: string, name: string): string
  {
    path + (".variables[" + name + "]: unused in `url`")
  }

  function UndefinedErrors(names: seq<string>, path: string): (e: seq<string>)
    ensures |e| == |names| && forall k :: 0 <= k < |e| ==> e[k] == UndefinedMessage(path, names[k])
    ensures AllAt(e, path)
  {
    if names == [] then []
    else
      StartsWithConcat(path, ".url: `" + names[0] + "` is not defined in `variables`");
      [UndefinedMessage(path, names[0])] + UndefinedErrors(names[1..], path)
  }

  function UnusedVariableErrors(names: seq<string>, path: string): (e: seq<string>)
    ensures |e| == |names| && forall k :: 0 <= k < |e| ==> e[k] == UnusedVariableMessage(path, names[k])
    ensures AllAt(e, path)
  {
    if names == [] then []
    else
      StartsWithConcat(path, ".variables[" + names[0] + "]: unused in `url`");
      [UnusedVariableMessage(path, names[0])] + UnusedVariableErrors(names[1..], path)
  }

  /** The undefined placeholders of a server. */
  function Undefined(s: Server): seq<string>
  {
    Consume(Placeholders(s.url, 0), Keys(s.variables)).0
  }

  /** The declared variables of a server that its url never uses. */
  function Unused(s: Server): seq<string>
  {
    UnusedNames(s.variables, Consume(Placeholders(s.url, 0), Keys(s.variables)).1)
  }

  predicate ServerOk(s: Server, options: set<Options>)
  {
    s.url != ""
    && (forall k :: 0 <= k < |s.variables| ==> VariableOk(s.variables[k].1))
    && Undefined(s) == []
    && (RuleActive(options, IgnoreUnusedServerVariables) ==> Unused(s) == [])
  }

  /** `Server::validate_with_context`: url, variables, undefined placeholders, unused variables. */
  function ServerErrors(s: Server, options: set<Options>, path: string): (e: seq<string>)
    ensures e == [] <==> ServerOk(s, options)
    ensures AllAt(e, path)
  {
    var u := RequiredString(s.url, path + ".url");
    var v := VariablesErrors(s.variables, 0, path);
    var d := UndefinedErrors(Undefined(s), path);
    var n := if RuleActive(options, IgnoreUnusedServerVariables) then UnusedVariableErrors(Unused(s), path) else [];
    AllAtNarrow(u, path, ".url");
    AllAtConcat(u, v, path);
    AllAtConcat(u + v, d, path);
    AllAtConcat(u + v + d, n, path);
    u + v + d + n
  }

  function ValidateServer(s: Server, c: Context, path: string): (r: Context)
    ensures r == c.(errors := c.errors + ServerErrors(s, c.options, path))
    ensures Extends(c, r) && Localized(c, r, path)
  {
    var e := ServerErrors(s, c.options, path);
    Appended(c, c.(errors := c.errors + e), e, path);
    c.(errors := c.errors + e)
  }

  /** A variable is unused exactly when it is declared and no placeholder names it. */
  lemma UnusedExactly(s: Server, name: string)
    ensures name in Unused(s) <==> name in Keys(s.variables) && name !in Placeholders(s.url, 0)
  {
    var ps := Placeholders(s.url, 0);
    ConsumeLeftOver(ps, Keys(s.variables));
    if name in ps {
      var k :| 0 <= k < |ps| && ps[k] == name;
      assert name in set k | 0 <= k < |ps| :: ps[k];
    }
  }

  lemma TwiceCounted(s: seq<string>, i: nat, j: nat)
    requires i < j < |s| && s[i] == s[j]
    ensures multiset(s)[s[i]] >= 2
  {
    assert s == s[..i + 1] + s[i + 1..];
    assert s[i] in multiset(s[..i + 1]) by { assert s[..i + 1][i] == s[i]; }
    assert s[j] in multiset(s[i + 1..]) by { assert s[i + 1..][j - i - 1] == s[j]; }
  }

  /** A placeholder used twice with its variable declared is reported undefined on its second use. */
  lemma RepeatedPlaceholder(s: Server, i: nat, j: nat)
    requires i < j < |Placeholders(s.url, 0)|
    requires Placeholders(s.url, 0)[i] == Placeholders(s.url, 0)[j]
    ensures Placeholders(s.url, 0)[i] in Undefined(s)
  {
    var ps := Placeholders(s.url, 0);
    ConsumeUndefinedCount(ps, Keys(s.variables), ps[i]);
    TwiceCounted(ps, i, j);
  }

  /** Without declared variables every placeholder is undefined, in url order. */
  lemma NoVariables(s: Server)
    requires s.variables == []
    ensures Undefined(s) == Placeholders(s.url, 0) && Unused(s) == []
  {
    NothingDeclared(Placeholders(s.url, 0));
  }

  lemma {:induction false} NothingDeclared(ps: seq<string>)
    ensures Consume(ps, {}).0 == ps
  {
    if ps != [] {
      NothingDeclared(ps[1..]);
    }
  }

  /** The unused-variable errors are the only ones the option suppresses. */
  lemma IgnoreUnusedOnlyDropsUnused(s: Server, options: set<Options>, path: string)
    requires RuleActive(options, IgnoreUnusedServerVariables)
    ensures ServerErrors(s, options, path)
         == ServerErrors(s, options + {IgnoreUnusedServerVariables}, path) + UnusedVariableErrors(Unused(s), path)
  {
  }
}
