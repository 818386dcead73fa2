/**
 * The Security Scheme Object of Swagger 2.0: basic has no rules, an API key
 * needs a name, and OAuth2 needs scopes and, for the implicit and accessCode
 * flows, an authorization URL.
 */
module V2SecurityScheme {
  import opened Wrappers
  import opened Validation
  import opened Helpers
  import opened Rules
  import opened V2Types
  import opened SortedMap

  function FlowName(f: Flow): (s: string)
    ensures |s| > 0
  {
    match f
    case Implicit => "implicit"
    case Password => "password"
    case Application => "application"
    case AccessCode => "accessCode"
  }

  lemma FlowNamesDistinct(f: Flow, g: Flow)
    ensures FlowName(f) == FlowName(g) ==> f == g
  {
  }

  /** The flows whose authorization URL the scheme must carry. */
  predicate NeedsAuthorizationUrl(f: Flow)
  {
    f == Implicit || f == AccessCode
  }

  predicate SchemeOk(s: SecurityScheme, options: set<Options>)
  {
    match s
    case Basic => true
    case ApiKey(name, _) => name != ""
    case OAuth2(flow, auth, _, scopes) =>
      |scopes| > 0
      && (auth.None? ==> !NeedsAuthorizationUrl(flow))
      && (auth.Some? && RuleActive(options, IgnoreInvalidUrls) ==> IsHttpUrl(auth.value))
  }

  function SchemeErrors(s: SecurityScheme, options: set<Options>, path: string): (e: seq<string>)
    ensures e == [] <==> SchemeOk(s, options)
    ensures AllAt(e, path)
    ensures s.OAuth2? && |s.scopes| == 0 ==> |e| > 0 && e[0] == path + ".scopes: must not be empty"
    ensures s.OAuth2? && s.authorizationUrl.None? && NeedsAuthorizationUrl(s.flow) ==>
      e[|e| - 1] == path + ".authorization_url: must be present for flow = " + FlowName(s.flow)
    ensures s.OAuth2? && (s.authorizationUrl.Some? || !NeedsAuthorizationUrl(s.flow)) ==>
      e == (if |s.scopes| == 0 then [path + ".scopes: must not be empty"] else []) + Url(s.authorizationUrl, options, path + ".authorizationUrl")
  {
    match s
    case Basic => []
    case ApiKey(name, _) =>
      AllAtNarrow(RequiredString(name, path + ".name"), path, ".name");
      RequiredString(name, path + ".name")
    case OAuth2(flow, auth, _, scopes) =>
      AllAtMessage(path, ".scopes: must not be empty");
      AllAtMessage(path, ".authorization_url: must be present for flow = " + FlowName(flow));
      var sc := if |scopes| == 0 then [path + ".scopes: must not be empty"] else [];
      var au := if auth.None? && NeedsAuthorizationUrl(flow) then
                  [path + ".authorization_url: must be present for flow = " + FlowName(flow)]
                else Url(auth, options, path + ".authorizationUrl");
      AllAtNarrow(Url(auth, options, path + ".authorizationUrl"), path, ".authorizationUrl");
      AllAtConcat(sc, au, path);
      sc + au
  }

  /** `SecurityScheme::validate_with_context`. */
  function ValidateScheme(s: SecurityScheme, c: Context, path: string): (r: Context)
    ensures r == c.(errors := c.errors + SchemeErrors(s, c.options, path))
  {
    match s
    case Basic => c
    case ApiKey(name, _) =>
      HelpersAgree(c, name, None, None, path + ".name");
      ValidateRequiredString(name, c, path + ".name")
    case OAuth2(flow, auth, _, scopes) =>
      var c1 := if |scopes| == 0 then c.(errors := c.errors + [path + ".scopes: must not be empty"]) else c;
      if auth.None? && NeedsAuthorizationUrl(flow) then
        c1.(errors := c1.errors + [path + ".authorization_url: must be present for flow = " + FlowName(flow)])
      else
        HelpersAgree(c1, "", auth, None, path + ".authorizationUrl");
        ValidateOptionalUrl(auth, c1, path + ".authorizationUrl")
  }

  /** The token URL is never checked, for any flow. */
  lemma TokenUrlIgnored(flow: Flow, auth: Option<string>, t1: Option<string>, t2: Option<string>,
                        scopes: Entries<string>, options: set<Options>, path: string)
    ensures SchemeErrors(OAuth2(flow, auth, t1, scopes), options, path) == SchemeErrors(OAuth2(flow, auth, t2, scopes), options, path)
  {
  }
}
