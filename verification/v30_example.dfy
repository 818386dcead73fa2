/**
 * The Example Object of OpenAPI 3.0, whose rules OpenAPI 3.1 repeats: a
 * literal value and an external one exclude each other, and a present
 * external value must be an http(s) URL.
 */
module V30Example {
  import opened Wrappers
  import opened Strings
  import opened Validation
  import opened Helpers
  import opened Rules
  import opened Locality
  import opened V30Types

  function ExclusiveMessage(path: string): string
  {
    path + ": " + "value and externalValue are mutually exclusive"
  }

  predicate ExampleOk(x: Example, options: set<Options>)
  {
    !(x.value.Some? && x.externalValue.Some?)
    && (x.externalValue.Some? && RuleActive(options, IgnoreInvalidUrls) ==> IsHttpUrl(x.externalValue.value))
  }

  /** The exclusion is reported before the url. */
  function ExampleErrors(x: Example, options: set<Options>, path: string): (e: seq<string>)
    ensures e == [] <==> ExampleOk(x, options)
    ensures x.value.Some? && x.externalValue.Some? <==> |e| > 0 && e[0] == ExclusiveMessage(path)
    ensures AllAt(e, path)
  {
    var m := if x.value.Some? && x.externalValue.Some? then [ExclusiveMessage(path)] else [];
    var u := Url(x.externalValue, options, path + ".externalValue");
    AllAtMessage(path, "value and externalValue are mutually exclusive");
    AllAtNarrow(u, path, ".externalValue");
    AllAtConcat(m, u, path);
    assert u != [] ==> StartsWith(u[0], path + ".externalValue");
    assert u != [] ==> u[0] != ExclusiveMessage(path) by {
      if u != [] {
        NotBoth(path, u[0]);
      }
    }
    m + u
  }

  /** No message is both the exclusion and below `.externalValue`. */
  lemma NotBoth(path: string, m: string)
    requires StartsWith(m, path + ".externalValue")
    ensures m != ExclusiveMessage(path)
  {
    assert m[|path|] == '.';
    assert ExclusiveMessage(path)[|path|] == ':';
  }

  function ValidateExample(x: Example, c: Context, path: string): (r: Context)
    ensures r == c.(errors := c.errors + ExampleErrors(x, c.options, path))
    ensures Extends(c, r) && Localized(c, r, path)
  {
    Appended(c, c.(errors := c.errors + ExampleErrors(x, c.options, path)), ExampleErrors(x, c.options, path), path);
    var c1 := if x.value.Some? && x.externalValue.Some? then
      c.(errors := c.errors + [ExclusiveMessage(path)])
    else c;
    HelpersAgree(c1, "", x.externalValue, None, path + ".externalValue");
    assert c1.options == c.options;
    ValidateOptionalUrl(x.externalValue, c1, path + ".externalValue")
  }

  /** Dropping either value makes the two compatible; only the url can still fail. */
  lemma EitherAlone(x: Example, options: set<Options>, path: string)
    ensures ExampleErrors(x.(value := None), options, path) == Url(x.externalValue, options, path + ".externalValue")
    ensures ExampleErrors(x.(externalValue := None), options, path) == []
  {
  }
}
