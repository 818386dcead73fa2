/**
 * The messages of the shared field checks, as lists: what each helper of
 * `Helpers` appends to the context. Object validators state their outcome as
 * the concatenation of such lists, in the order the checks run.
 */
module Rules {
  import opened Wrappers
  import opened Strings
  import opened Validation
  import opened Helpers

  /** Every message is reported at `path` or below it. */
  predicate AllAt(errors: seq<string>, path: string)
  {
    forall i :: 0 <= i < |errors| ==> StartsWith(errors[i], path)
  }

  lemma AllAtConcat(a: seq<string>, b: seq<string>, path: string)
    requires AllAt(a, path) && AllAt(b, path)
    ensures AllAt(a + b, path)
  {
  }

  lemma AllAtNarrow(a: seq<string>, path: string, suffix: string)
    requires AllAt(a, path + suffix)
    ensures AllAt(a, path)
  {
    forall i | 0 <= i < |a|
      ensures StartsWith(a[i], path)
    {
      StartsWithShorter(a[i], path, suffix);
    }
  }

  lemma AllAtMessage(path: string, msg: string)
    ensures AllAt([path + ": " + msg], path)
    ensures AllAt([path + msg], path)
  {
    assert path + ": " + msg == path + (": " + msg);
    StartsWithConcat(path, ": " + msg);
    StartsWithConcat(path, msg);
  }

  /** Two checks run one after the other append their lists in order. */
  lemma Then(c: Context, c1: Context, c2: Context, a: seq<string>, b: seq<string>)
    requires c1 == c.(errors := c.errors + a) && c2 == c1.(errors := c1.errors + b)
    ensures c2 == c.(errors := c.errors + (a + b))
  {
    assert c.errors + a + b == c.errors + (a + b);
  }

  lemma Then3(c: Context, c1: Context, c2: Context, c3: Context, a: seq<string>, b: seq<string>, d: seq<string>)
    requires c1 == c.(errors := c.errors + a) && c2 == c1.(errors := c1.errors + b) && c3 == c2.(errors := c2.errors + d)
    ensures c3 == c.(errors := c.errors + (a + b + d))
  {
    Then(c, c1, c2, a, b);
    Then(c, c2, c3, a + b, d);
  }

  /** `validate_required_string`. */
  function RequiredString(s: string, path: string): (e: seq<string>)
    ensures e == [] <==> s != ""
    ensures AllAt(e, path)
  {
    AllAtMessage(path, "must not be empty");
    if s == "" then [path + ": " + "must not be empty"] else []
  }

  /** `validate_optional_url`: only a present value is checked, and only while the rule is on. */
  function Url(url: Option<string>, options: set<Options>, path: string): (e: seq<string>)
    ensures e == [] <==> url.None? || !RuleActive(options, IgnoreInvalidUrls) || IsHttpUrl(url.value)
    ensures AllAt(e, path)
  {
    if url.Some? && RuleActive(options, IgnoreInvalidUrls) && !IsHttpUrl(url.value) then
      AllAtMessage(path, "must be a valid URL, found `" + url.value + "`");
      [path + ": " + ("must be a valid URL, found `" + url.value + "`")]
    else []
  }

  /** `validate_email`. */
  function Email(email: Option<string>, path: string): (e: seq<string>)
    ensures e == [] <==> EmailOk(email)
    ensures AllAt(e, path)
  {
    if EmailOk(email) then []
    else
      AllAtMessage(path, "must be a valid email address, found `" + email.value + "`");
      [path + ": " + ("must be a valid email address, found `" + email.value + "`")]
  }

  /** The context helpers append exactly these lists and touch nothing else. */
  lemma HelpersAgree(c: Context, s: string, url: Option<string>, email: Option<string>, path: string)
    ensures ValidateRequiredString(s, c, path) == c.(errors := c.errors + RequiredString(s, path))
    ensures ValidateOptionalUrl(url, c, path) == c.(errors := c.errors + Url(url, c.options, path))
    ensures ValidateEmail(email, c, path) == c.(errors := c.errors + Email(email, path))
  {
    assert IsOption(c, IgnoreInvalidUrls) <==> !RuleActive(c.options, IgnoreInvalidUrls);
  }
}
