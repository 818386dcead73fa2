/** The External Documentation Object of Swagger 2.0: only its url is checked. */
module V2ExternalDocs {
  import opened Wrappers
  import opened Helpers
  import opened Rules
  import opened V2Types

  function ExternalDocsErrors(d: ExternalDocs, options: set<Validation.Options>, path: string): (e: seq<string>)
    ensures e == [] <==> !Validation.RuleActive(options, Validation.IgnoreInvalidUrls) || IsHttpUrl(d.url)
    ensures AllAt(e, path)
  {
    AllAtNarrow(Url(Some(d.url), options, path + ".url"), path, ".url");
    Url(Some(d.url), options, path + ".url")
  }

  function ValidateExternalDocs(d: ExternalDocs, c: Context, path: string): (r: Context)
    ensures r == c.(errors := c.errors + ExternalDocsErrors(d, c.options, path))
  {
    HelpersAgree(c, "", Some(d.url), None, path + ".url");
    ValidateOptionalUrl(Some(d.url), c, path + ".url")
  }
}
