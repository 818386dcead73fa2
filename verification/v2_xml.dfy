/** The XML Object of Swagger 2.0: a present name must be non-empty and a present namespace an http(s) URL. */
module V2Xml {
  import opened Wrappers
  import opened Validation
  import opened Helpers
  import opened Rules
  import opened V2Types

  predicate XmlOk(x: Xml, options: set<Options>)
  {
    (x.name.Some? ==> x.name.value != "")
    && (x.namespace.Some? && RuleActive(options, IgnoreInvalidUrls) ==> IsHttpUrl(x.namespace.value))
  }

  /** The name is checked before the namespace; prefix, attribute and wrapped never are. */
  function XmlErrors(x: Xml, options: set<Options>, path: string): (e: seq<string>)
    ensures e == [] <==> XmlOk(x, options)
    ensures AllAt(e, path)
  {
    var n := if x.name.Some? then RequiredString(x.name.value, path + ".name") else [];
    var u := Url(x.namespace, options, path + ".namespace");
    AllAtNarrow(n, path, ".name");
    AllAtNarrow(u, path, ".namespace");
    AllAtConcat(n, u, path);
    n + u
  }

  function ValidateXml(x: Xml, c: Context, path: string): (r: Context)
    ensures r == c.(errors := c.errors + XmlErrors(x, c.options, path))
  {
    var c1 := if x.name.Some? then
      HelpersAgree(c, x.name.value, None, None, path + ".name");
      ValidateRequiredString(x.name.value, c, path + ".name")
    else c;
    HelpersAgree(c1, "", x.namespace, None, path + ".namespace");
    ValidateOptionalUrl(x.namespace, c1, path + ".namespace")
  }

  /** An empty name and a bad namespace give both errors, name first. */
  lemma BothErrors(c: Context)
    requires c.options == New() && c.errors == []
    ensures ValidateXml(Xml(Some(""), Some("foo-bar"), None, None, None), c, "xml").errors ==
      ["xml.name: must not be empty", "xml.namespace: must be a valid URL, found `foo-bar`"]
  {
    EmptyNameMessage();
    BadNamespaceMessage(c.options);
    assert XmlErrors(Xml(Some(""), Some("foo-bar"), None, None, None), c.options, "xml")
      == RequiredString("", "xml" + ".name") + Url(Some("foo-bar"), c.options, "xml" + ".namespace");
  }

  lemma EmptyNameMessage()
    ensures RequiredString("", "xml" + ".name") == ["xml.name: must not be empty"]
  {
    assert "xml" + ".name" + ": " + "must not be empty" == "xml.name: must not be empty";
  }

  lemma BadNamespaceMessage(options: set<Options>)
    requires options == New()
    ensures Url(Some("foo-bar"), options, "xml" + ".namespace") == ["xml.namespace: must be a valid URL, found `foo-bar`"]
  {
    NotHttp();
    NamespaceText();
  }

  lemma NotHttp()
    ensures !IsHttpUrl("foo-bar")
  {
    Strings.FirstCharDiffers("foo-bar", "http://");
    Strings.FirstCharDiffers("foo-bar", "https://");
  }

  lemma NamespaceText()
    ensures "xml" + ".namespace" + ": " + ("must be a valid URL, found `" + "foo-bar" + "`")
      == "xml.namespace: must be a valid URL, found `foo-bar`"
  {
    assert "xml" + ".namespace" + ": " == "xml.namespace: ";
    assert "must be a valid URL, found `" + "foo-bar" + "`" == "must be a valid URL, found `foo-bar`";
    assert "xml.namespace: " + "must be a valid URL, found `foo-bar`" == "xml.namespace: must be a valid URL, found `foo-bar`";
  }

  /** Values outside name and namespace never produce an error. */
  lemma OtherFieldsIgnored(x: Xml, options: set<Options>, path: string, prefix: Option<string>, attribute: Option<bool>, wrapped: Option<bool>)
    ensures XmlErrors(x.(prefix := prefix, attribute := attribute, wrapped := wrapped), options, path) == XmlErrors(x, options, path)
  {
  }
}
