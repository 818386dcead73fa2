/** The Tag Object of Swagger 2.0: a non-empty name and valid external docs. */
module V2Tag {
  import opened Wrappers
  import opened Validation
  import opened Helpers
  import opened Rules
  import opened V2Types
  import opened V2ExternalDocs

  function TagErrors(t: Tag, options: set<Options>, path: string): (e: seq<string>)
    ensures e == [] <==> t.name != "" && (t.externalDocs.Some? ==> ExternalDocsErrors(t.externalDocs.value, options, path + ".externalDocs") == [])
    ensures AllAt(e, path)
  {
    var n := RequiredString(t.name, path + ".name");
    var d := if t.externalDocs.Some? then ExternalDocsErrors(t.externalDocs.value, options, path + ".externalDocs") else [];
    AllAtNarrow(n, path, ".name");
    AllAtNarrow(d, path, ".externalDocs");
    AllAtConcat(n, d, path);
    n + d
  }

  function ValidateTag(t: Tag, c: Context, path: string): (r: Context)
    ensures r == c.(errors := c.errors + TagErrors(t, c.options, path))
  {
    HelpersAgree(c, t.name, None, None, path + ".name");
    var c1 := ValidateRequiredString(t.name, c, path + ".name");
    if t.externalDocs.Some? then ValidateExternalDocs(t.externalDocs.value, c1, path + ".externalDocs") else c1
  }

  /** A default tag yields exactly the name error; a named tag without docs yields none, whatever its description. */
  lemma Examples(c: Context, description: Option<string>)
    requires c.errors == []
    ensures ValidateTag(Tag("", None, None), c, "tag").errors == ["tag.name: must not be empty"]
    ensures ValidateTag(Tag("pet", description, None), c, "tag").errors == []
  {
    assert "tag" + ".name" + ": " + "must not be empty" == "tag.name: must not be empty";
  }
}
