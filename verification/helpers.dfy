/**
 * The validation context every validator threads through, and the small
 * checking helpers shared by all three dialects. A validator is a function
 * from a context to a context; errors are only ever appended.
 */
module Helpers {
  import opened Wrappers
  import opened Strings
  import opened Validation
  import Patterns

  /**
   * `visited` records the references, operation ids and tag paths seen so far;
   * `errors` the messages in the order they were reported. `regex` is the
   * regular-expression engine's verdict on user patterns: a pattern that is a
   * key maps to the engine's compile error; every other pattern compiles.
   * `cut` is not part of the source's context: it records that the model
   * stopped where the source goes on, because a chain of references loops
   * (the source then never returns) or the model's step bound ran out.
   */
  datatype Context = Context(
    options: set<Options>,
    visited: set<string>,
    errors: seq<string>,
    regex: map<string, string>,
    cut: bool)

  /**
   * `d` is a context some validation can reach from `c`: same options and
   * regex engine, errors extended at the end, visited grown, and a cut
   * traversal stays cut.
   */
  predicate Extends(c: Context, d: Context)
  {
    d.options == c.options && d.regex == c.regex && c.errors <= d.errors && c.visited <= d.visited
    && (c.cut ==> d.cut)
  }

  /** Mark the traversal as stopped short of the source's; nothing the source keeps changes. */
  function Cut(c: Context): (r: Context)
    ensures Extends(c, r) && r.cut
    ensures r.errors == c.errors && r.visited == c.visited
  {
    c.(cut := true)
  }

  lemma ExtendsTransitive(a: Context, b: Context, c: Context)
    requires Extends(a, b) && Extends(b, c)
    ensures Extends(a, c)
  {
  }

  /** The errors `d` added on top of `c`. */
  function Added(c: Context, d: Context): seq<string>
    requires Extends(c, d)
  {
    d.errors[|c.errors|..]
  }

  /** A message added by a later step is added by the whole run. */
  lemma AddedLater(a: Context, b: Context, c: Context, m: string)
    requires Extends(a, b) && Extends(b, c) && m in Added(b, c)
    ensures m in Added(a, c)
  {
    var j :| 0 <= j < |Added(b, c)| && Added(b, c)[j] == m;
    assert Added(a, c)[|b.errors| - |a.errors| + j] == m;
  }

  /** A message an earlier step added stays added. */
  lemma AddedEarlier(a: Context, b: Context, c: Context, m: string)
    requires Extends(a, b) && Extends(b, c) && m in Added(a, b)
    ensures m in Added(a, c)
  {
    var j :| 0 <= j < |Added(a, b)| && Added(a, b)[j] == m;
    assert Added(a, c)[j] == m;
  }

  /** A message the first step adds first stays added. */
  lemma AddedFirst(a: Context, b: Context, c: Context, m: string)
    requires Extends(a, b) && Extends(b, c) && |b.errors| > |a.errors| && b.errors[|a.errors|] == m
    ensures m in Added(a, c)
  {
    assert Added(a, c)[0] == m;
  }

  /** The first message a step adds is still in place after later steps. */
  lemma FirstKept(a: Context, b: Context, c: Context)
    requires Extends(a, b) && Extends(b, c) && |b.errors| > |a.errors|
    ensures |c.errors| > |a.errors| && c.errors[|a.errors|] == b.errors[|a.errors|]
  {
  }

  /** `Context::new(spec, options)`. */
  function NewContext(options: set<Options>, regex: map<string, string>): (r: Context)
    ensures r.visited == {} && r.errors == [] && !r.cut
    ensures r.options == options && r.regex == regex
  {
    Context(options, {}, [], regex, false)
  }

  /** `Context::reset`. */
  function Reset(c: Context): (r: Context)
    ensures r.visited == {} && r.errors == []
    ensures r.options == c.options && r.regex == c.regex
  {
    c.(visited := {}, errors := [])
  }

  /** The text `error(path, msg)` reports: a message starting with '.' continues the path. */
  function Message(path: string, msg: string): (r: string)
    ensures |msg| > 0 && msg[0] == '.' ==> r == path + msg
    ensures !(|msg| > 0 && msg[0] == '.') ==> r == path + ": " + msg
  {
    if |msg| > 0 && msg[0] == '.' then path + msg else path + ": " + msg
  }

  /** `PushError::error`: append one message and change nothing else. */
  function PushError(c: Context, path: string, msg: string): (r: Context)
    ensures Extends(c, r) && r.visited == c.visited
    ensures r.errors == c.errors + [Message(path, msg)]
  {
    c.(errors := c.errors + [Message(path, msg)])
  }

  /** `Context::visit`: set insertion reporting whether the element was new. */
  function Visit(c: Context, p: string): (r: (bool, Context))
    ensures r.0 <==> p !in c.visited
    ensures Extends(c, r.1) && r.1.errors == c.errors
    ensures r.1.visited == c.visited + {p}
  {
    (p !in c.visited, c.(visited := c.visited + {p}))
  }

  /** `Context::is_visited`. */
  predicate IsVisited(c: Context, p: string)
  {
    p in c.visited
  }

  /** `Context::is_option`: the flag is set, so its rule is off. */
  predicate IsOption(c: Context, o: Options)
  {
    !RuleActive(c.options, o)
  }

  /** `From<Context> for Result<(), Error>`. */
  function IntoResult(c: Context): (r: Result<(), Validation.Error>)
    ensures r.Ok? <==> c.errors == []
    ensures r.Err? ==> r.error.errors == c.errors
  {
    if c.errors == [] then Ok(()) else Err(Validation.Error(c.errors))
  }

  /** A valid address contains '@'. */
  predicate EmailOk(email: Option<string>)
  {
    email.None? || Contains(email.value, '@')
  }

  /** `validate_email`. */
  function ValidateEmail(email: Option<string>, c: Context, path: string): (r: Context)
    ensures Extends(c, r) && r.visited == c.visited
    ensures r.errors == c.errors <==> EmailOk(email)
    ensures !EmailOk(email) ==>
      r.errors == c.errors + [path + ": " + ("must be a valid email address, found `" + email.value + "`")]
  {
    if email.Some? && !Contains(email.value, '@') then
      PushError(c, path, "must be a valid email address, found `" + email.value + "`")
    else c
  }

  /** The URL test of `validate_required_url`. */
  predicate IsHttpUrl(url: string)
  {
    StartsWith(url, "http://") || StartsWith(url, "https://")
  }

  /** `validate_required_url`. */
  function ValidateRequiredUrl(url: string, c: Context, path: string): (r: Context)
    ensures Extends(c, r) && r.visited == c.visited
    ensures IsOption(c, IgnoreInvalidUrls) ==> r == c
    ensures r.errors == c.errors <==> IsOption(c, IgnoreInvalidUrls) || IsHttpUrl(url)
    ensures r.errors != c.errors ==> r.errors == c.errors + [path + ": " + ("must be a valid URL, found `" + url + "`")]
  {
    if IsOption(c, IgnoreInvalidUrls) then c
    else if !StartsWith(url, "http://") && !StartsWith(url, "https://") then
      PushError(c, path, "must be a valid URL, found `" + url + "`")
    else c
  }

  /** `validate_optional_url`. */
  function ValidateOptionalUrl(url: Option<string>, c: Context, path: string): (r: Context)
    ensures Extends(c, r) && r.visited == c.visited
    ensures url.None? ==> r == c
    ensures url.Some? ==> r == ValidateRequiredUrl(url.value, c, path)
  {
    if url.Some? then ValidateRequiredUrl(url.value, c, path) else c
  }

  /** `validate_required_string`. */
  function ValidateRequiredString(s: string, c: Context, path: string): (r: Context)
    ensures Extends(c, r) && r.visited == c.visited
    ensures r.errors == c.errors <==> s != ""
    ensures s == "" ==> r.errors == c.errors + [path + ": " + "must not be empty"]
  {
    if s == "" then PushError(c, path, "must not be empty") else c
  }

  /** The two fixed patterns `validate_string_matches` is used with. */
  datatype FixedPattern = ComponentName | Host

  function PatternText(p: FixedPattern): string
  {
    match p
    case ComponentName => "^[a-zA-Z0-9.\\-_]+$"
    case Host => "^[^{}/ :\\\\]+(?::\\d+)?$"
  }

  predicate PatternMatches(p: FixedPattern, s: string)
  {
    match p
    case ComponentName => Patterns.IsComponentName(s)
    case Host => Patterns.CheckHost(s)
  }

  /** `validate_string_matches`. */
  function ValidateStringMatches(s: string, p: FixedPattern, c: Context, path: string): (r: Context)
    ensures Extends(c, r) && r.visited == c.visited
    ensures r.errors == c.errors <==> PatternMatches(p, s)
    ensures !PatternMatches(p, s) ==>
      r.errors == c.errors + [path + ": " + ("must match pattern `" + PatternText(p) + "`, found `" + s + "`")]
  {
    if !PatternMatches(p, s) then
      PushError(c, path, "must match pattern `" + PatternText(p) + "`, found `" + s + "`")
    else c
  }

  /** `validate_optional_string_matches`. */
  function ValidateOptionalStringMatches(s: Option<string>, p: FixedPattern, c: Context, path: string): (r: Context)
    ensures Extends(c, r) && r.visited == c.visited
    ensures r.errors == c.errors <==> s.None? || PatternMatches(p, s.value)
  {
    if s.Some? then ValidateStringMatches(s.value, p, c, path) else c
  }

  /** `validate_pattern`: the regex engine decides; its message is quoted. */
  function ValidatePattern(pattern: string, c: Context, path: string): (r: Context)
    ensures Extends(c, r) && r.visited == c.visited
    ensures r.errors == c.errors <==> pattern !in c.regex
    ensures pattern in c.regex ==>
      r.errors == c.errors + [path + ": " + ("pattern `" + pattern + "` is invalid: " + c.regex[pattern])]
  {
    if pattern in c.regex then
      PushError(c, path, "pattern `" + pattern + "` is invalid: " + c.regex[pattern])
    else c
  }

  /**
   * `validate_not_visited`: an object whose path has not been visited is
   * reported "unused" (unless the flag is set) and then validated at that
   * path; an already-visited path changes nothing.
   */
  function ValidateNotVisited<D(!new)>(obj: D, c: Context, flag: Options, path: string,
                                 validate: (D, Context, string) -> Context): (r: Context)
    requires forall o, c0, p :: Extends(c0, validate(o, c0, p))
    ensures Extends(c, r)
    ensures path in r.visited
    ensures path in c.visited ==> r == c
    ensures path !in c.visited && !IsOption(c, flag) ==>
      |r.errors| > |c.errors| && r.errors[|c.errors|] == path + ": " + "unused"
    ensures path !in c.visited && IsOption(c, flag) ==>
      r == validate(obj, c.(visited := c.visited + {path}), path)
    ensures path !in c.visited && !IsOption(c, flag) ==>
      r == validate(obj, PushError(c.(visited := c.visited + {path}), path, "unused"), path)
  {
    var (isNew, c1) := Visit(c, path);
    if isNew then
      var c2 := if !IsOption(c1, flag) then PushError(c1, path, "unused") else c1;
      var r := validate(obj, c2, path);
      assert Extends(c2, r);
      r
    else c1
  }

  /** The `visited` entry that records an operationId as taken. */
  function OperationKey(id: string): string
  {
    "#/paths/operations/" + id
  }
}
