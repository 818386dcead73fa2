/** The XML Object of OpenAPI 3.0: only a present namespace is checked, as an http(s) URL. */
module V30Xml {
  import opened Wrappers
  import opened Validation
  import opened Helpers
  import opened Rules
  import opened V30Types
  import V2Xml

  function XmlErrors(x: Xml, options: set<Options>, path: string): (e: seq<string>)
    ensures e == [] <==> x.namespace.None? || !RuleActive(options, IgnoreInvalidUrls) || IsHttpUrl(x.namespace.value)
    ensures AllAt(e, path)
  {
    AllAtNarrow(Url(x.namespace, options, path + ".namespace"), path, ".namespace");
    Url(x.namespace, options, path + ".namespace")
  }

  function ValidateXml(x: Xml, c: Context, path: string): (r: Context)
    ensures r == c.(errors := c.errors + XmlErrors(x, c.options, path))
  {
    HelpersAgree(c, "", x.namespace, None, path + ".namespace");
    ValidateOptionalUrl(x.namespace, c, path + ".namespace")
  }

  /** The Swagger 2.0 rules without the one on the name: an empty name passes here. */
  lemma LikeSwaggerWithoutName(x: Xml, options: set<Options>, path: string)
    ensures XmlErrors(x, options, path) == V2Xml.XmlErrors(x.(name := None), options, path)
    ensures XmlErrors(x.(name := Some("")), options, path) == XmlErrors(x, options, path)
  {
  }
}
