/**
 * The Info, Contact and License Objects of Swagger 2.0: title and version
 * must be non-empty (each rule can be switched off), urls must be http(s),
 * an email must contain '@' and a license must be named.
 */
module V2Info {
  import opened Wrappers
  import opened Strings
  import opened Validation
  import opened Helpers
  import opened Rules
  import opened V2Types

  predicate UrlOk(url: Option<string>, options: set<Options>)
  {
    url.Some? && RuleActive(options, IgnoreInvalidUrls) ==> IsHttpUrl(url.value)
  }

  predicate ContactOk(ct: Contact, options: set<Options>)
  {
    UrlOk(ct.url, options) && EmailOk(ct.email)
  }

  predicate LicenseOk(l: License, options: set<Options>)
  {
    l.name != "" && UrlOk(l.url, options)
  }

  predicate InfoOk(info: Info, options: set<Options>)
  {
    (RuleActive(options, IgnoreEmptyInfoTitle) ==> info.title != "")
    && (RuleActive(options, IgnoreEmptyInfoVersion) ==> info.version != "")
    && (info.contact.Some? ==> ContactOk(info.contact.value, options))
    && (info.license.Some? ==> LicenseOk(info.license.value, options))
  }

  function ContactErrors(ct: Contact, options: set<Options>, path: string): (e: seq<string>)
    ensures e == [] <==> ContactOk(ct, options)
    ensures AllAt(e, path)
  {
    var u := Url(ct.url, options, path + ".url");
    var m := Email(ct.email, path + ".email");
    AllAtNarrow(u, path, ".url");
    AllAtNarrow(m, path, ".email");
    AllAtConcat(u, m, path);
    u + m
  }

  function LicenseErrors(l: License, options: set<Options>, path: string): (e: seq<string>)
    ensures e == [] <==> LicenseOk(l, options)
    ensures AllAt(e, path)
  {
    var n := RequiredString(l.name, path + ".name");
    var u := Url(l.url, options, path + ".url");
    AllAtNarrow(n, path, ".name");
    AllAtNarrow(u, path, ".url");
    AllAtConcat(n, u, path);
    n + u
  }

  /** The title check, unless switched off. */
  function TitleErrors(info: Info, options: set<Options>, path: string): (e: seq<string>)
    ensures e == [] <==> (RuleActive(options, IgnoreEmptyInfoTitle) ==> info.title != "")
    ensures AllAt(e, path)
  {
    var t := if RuleActive(options, IgnoreEmptyInfoTitle) then RequiredString(info.title, path + ".title") else [];
    AllAtNarrow(t, path, ".title");
    t
  }

  /** The version check, unless switched off. */
  function VersionErrors(info: Info, options: set<Options>, path: string): (e: seq<string>)
    ensures e == [] <==> (RuleActive(options, IgnoreEmptyInfoVersion) ==> info.version != "")
    ensures AllAt(e, path)
  {
    var v := if RuleActive(options, IgnoreEmptyInfoVersion) then RequiredString(info.version, path + ".version") else [];
    AllAtNarrow(v, path, ".version");
    v
  }

  function PartsErrors(info: Info, options: set<Options>, path: string): (e: seq<string>)
    ensures e == [] <==> (info.contact.Some? ==> ContactOk(info.contact.value, options))
                         && (info.license.Some? ==> LicenseOk(info.license.value, options))
    ensures AllAt(e, path)
  {
    var ct := if info.contact.Some? then ContactErrors(info.contact.value, options, path + ".contact") else [];
    var l := if info.license.Some? then LicenseErrors(info.license.value, options, path + ".license") else [];
    AllAtNarrow(ct, path, ".contact");
    AllAtNarrow(l, path, ".license");
    AllAtConcat(ct, l, path);
    ct + l
  }

  /** The messages of `Info::validate_with_context`, in the order the checks run. */
  function InfoErrors(info: Info, options: set<Options>, path: string): (e: seq<string>)
    ensures e == [] <==> InfoOk(info, options)
    ensures AllAt(e, path)
  {
    var t := TitleErrors(info, options, path);
    var v := VersionErrors(info, options, path);
    var p := PartsErrors(info, options, path);
    AllAtConcat(t, v, path);
    AllAtConcat(t + v, p, path);
    t + v + p
  }

  function ValidateContact(ct: Contact, c: Context, path: string): (r: Context)
    ensures r == c.(errors := c.errors + ContactErrors(ct, c.options, path))
  {
    HelpersAgree(c, "", ct.url, None, path + ".url");
    var c1 := ValidateOptionalUrl(ct.url, c, path + ".url");
    HelpersAgree(c1, "", None, ct.email, path + ".email");
    ValidateEmail(ct.email, c1, path + ".email")
  }

  function ValidateLicense(l: License, c: Context, path: string): (r: Context)
    ensures r == c.(errors := c.errors + LicenseErrors(l, c.options, path))
  {
    HelpersAgree(c, l.name, None, None, path + ".name");
    var c1 := ValidateRequiredString(l.name, c, path + ".name");
    HelpersAgree(c1, "", l.url, None, path + ".url");
    ValidateOptionalUrl(l.url, c1, path + ".url")
  }

  /** `Info::validate_with_context`. */
  function ValidateInfo(info: Info, c: Context, path: string): (r: Context)
    ensures r == c.(errors := c.errors + InfoErrors(info, c.options, path))
  {
    var c1 := ValidateTitle(info, c, path);
    var c2 := ValidateVersion(info, c1, path);
    var r := ValidateParts(info, c2, path);
    Then3(c, c1, c2, r, TitleErrors(info, c.options, path), VersionErrors(info, c.options, path), PartsErrors(info, c.options, path));
    r
  }

  function ValidateTitle(info: Info, c: Context, path: string): (r: Context)
    ensures r == c.(errors := c.errors + TitleErrors(info, c.options, path))
  {
    HelpersAgree(c, info.title, None, None, path + ".title");
    if !IsOption(c, IgnoreEmptyInfoTitle) then ValidateRequiredString(info.title, c, path + ".title") else c
  }

  function ValidateVersion(info: Info, c: Context, path: string): (r: Context)
    ensures r == c.(errors := c.errors + VersionErrors(info, c.options, path))
  {
    HelpersAgree(c, info.version, None, None, path + ".version");
    if !IsOption(c, IgnoreEmptyInfoVersion) then ValidateRequiredString(info.version, c, path + ".version") else c
  }

  function ValidateParts(info: Info, c: Context, path: string): (r: Context)
    ensures r == c.(errors := c.errors + PartsErrors(info, c.options, path))
  {
    var c1 := if info.contact.Some? then ValidateContact(info.contact.value, c, path + ".contact") else c;
    if info.license.Some? then ValidateLicense(info.license.value, c1, path + ".license") else c1
  }

  /** An empty title or version is reported unless its flag is set; the flag of one does not affect the other. */
  lemma EmptyTitleAndVersion(options: set<Options>)
    ensures InfoErrors(Info("", "", None, None), options, "#.info") ==
      (if IgnoreEmptyInfoTitle in options then [] else ["#.info.title: must not be empty"])
      + (if IgnoreEmptyInfoVersion in options then [] else ["#.info.version: must not be empty"])
  {
    assert "#.info" + ".title" + ": " + "must not be empty" == "#.info.title: must not be empty";
    assert "#.info" + ".version" + ": " + "must not be empty" == "#.info.version: must not be empty";
  }
}
