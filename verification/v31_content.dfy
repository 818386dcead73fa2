/**
 * The Header, Link, Response and Responses Objects of OpenAPI 3.1.
 *
 * A header checks the same two exclusions as a parameter, then validates
 * each of its examples; its schema is not descended into and its media
 * types have no rules in this model. A link names its target operation by
 * id, and the id must already be registered in `visited`: the document
 * registers every operationId before it validates anything that may hold
 * a link. A response checks its description unless the flag that relaxes
 * it is set, then its headers, media types and links.
 */
module V31Content {
  import opened Wrappers
  import opened Strings
  import opened SortedMap
  import opened Validation
  import opened Helpers
  import opened Rules
  import opened Locality
  import opened Reference
  import opened RefValidation
  import opened StatusCode
  import opened Each
  import opened V31Types
  import opened V31Resolve
  import opened V31Parameter
  import V30Resolve
  import V30Example
  import V30Content
  import V2Response

  function ValidateExampleRef(spec: Spec, x: RefOr<Example>, c: Context, path: string): (r: Context)
    ensures Extends(c, r) && Localized(c, r, path)
    ensures x.Item? ==> r == c.(errors := c.errors + V30Example.ExampleErrors(x.item, c.options, path))
    ensures x.Ref? ==> x.reference in r.visited
  {
    ValidateRefOr(x, (s: string) => V30Resolve.Resolve(ComponentsOf(spec).examples, V30Resolve.ExamplesPrefix, s), c, path,
                  V30Example.ValidateExample)
  }

  function ExampleRefs(spec: Spec): (v: (RefOr<Example>, Context, string) -> Context)
    ensures WellBehaved(v)
  {
    (x: RefOr<Example>, c0: Context, at: string) => ValidateExampleRef(spec, x, c0, at)
  }

  function MediaTypes(): (v: (MediaType, Context, string) -> Context)
    ensures WellBehaved(v)
  {
    (m: MediaType, c0: Context, at: string) => V30Content.NoChecks(m, c0, at)
  }

  /** The header's two exclusions. */
  function HeaderExclusions(h: Header, path: string): (e: seq<string>)
    ensures ExampleClashMessage(path) in e <==> h.example.Some? && h.examples.Some?
    ensures SchemaClashMessage(path) in e <==> h.schema.Some? && h.content.Some?
    ensures |e| <= 2 && AllAt(e, path)
  {
    Exclusions(h.example.Some? && h.examples.Some?, h.schema.Some? && h.content.Some?, path)
  }

  /**
   * `Header::validate_with_context`: the exclusions, then each example at
   * `path.examples[name]`, then each media type at `path.content[type]`.
   */
  function ValidateHeader(spec: Spec, h: Header, c: Context, path: string): (r: Context)
    ensures Extends(c, r) && Localized(c, r, path)
    ensures c.errors + HeaderExclusions(h, path) <= r.errors
    ensures h.examples.None? ==> r == c.(errors := c.errors + HeaderExclusions(h, path))
    ensures h.examples.Some? ==> forall k :: 0 <= k < |h.examples.value| && h.examples.value[k].1.Ref? ==>
      h.examples.value[k].1.reference in r.visited
  {
    var x := HeaderExclusions(h, path);
    var c1 := c.(errors := c.errors + x);
    Appended(c, c1, x, path);
    var c2 := if h.examples.Some? then EachEntry(h.examples.value, 0, c1, path, "examples", ExampleRefs(spec)) else c1;
    assert Extends(c1, c2) && Localized(c1, c2, path) by {
      if h.examples.None? { Unchanged(c1, c2, path); }
    }
    var r := if h.content.Some? then EachEntry(h.content.value, 0, c2, path, "content", MediaTypes()) else c2;
    assert r == c2 by {
      if h.content.Some? { MediaTypesSilent(h.content.value, 0, c2, path, "content"); }
    }
    Chain(c, c1, c2, path);
    assert h.examples.Some? ==> forall k :: 0 <= k < |h.examples.value| && h.examples.value[k].1.Ref? ==>
        h.examples.value[k].1.reference in r.visited by {
      if h.examples.Some? {
        var ex := h.examples.value;
        forall k | 0 <= k < |ex| && ex[k].1.Ref?
          ensures ex[k].1.reference in r.visited
        {
          EntryVisitKept(ex, k, c1, path, "examples", ExampleRefs(spec), ex[k].1.reference);
        }
      }
    }
    r
  }

  /** Media types have no rules in this model: the loop over them leaves the context as it is. */
  lemma {:induction false} MediaTypesSilent(content: Entries<MediaType>, i: nat, c: Context, path: string, field: string)
    requires i <= |content|
    ensures EachEntry(content, i, c, path, field, MediaTypes()) == c
    decreases |content| - i
  {
    if i < |content| {
      MediaTypesSilent(content, i + 1, c, path, field);
    }
  }

  function ValidateHeaderRef(spec: Spec, x: RefOr<Header>, c: Context, path: string): (r: Context)
    ensures Extends(c, r) && Localized(c, r, path)
    ensures x.Item? ==> r == ValidateHeader(spec, x.item, c, path)
    ensures x.Ref? ==> x.reference in r.visited
  {
    ValidateRefOr(x, (s: string) => V30Resolve.Resolve(ComponentsOf(spec).headers, V30Resolve.HeadersPrefix, s), c, path,
                  (h: Header, c0: Context, at: string) => ValidateHeader(spec, h, c0, at))
  }

  function HeaderRefs(spec: Spec): (v: (RefOr<Header>, Context, string) -> Context)
    ensures WellBehaved(v)
  {
    (x: RefOr<Header>, c0: Context, at: string) => ValidateHeaderRef(spec, x, c0, at)
  }

  /** The schema of a header is never looked at: swapping it for another changes nothing. */
  lemma HeaderSchemaUnread(spec: Spec, h: Header, s: RefOr<Schema>, c: Context, path: string)
    requires h.schema.Some?
    ensures ValidateHeader(spec, h.(schema := Some(s)), c, path) == ValidateHeader(spec, h, c, path)
  {
  }

  function MissingOperationMessage(path: string, id: string): string
  {
    path + (".operationId: missing operation with id `" + id + "`")
  }

  /** What a link reports, given the keys visited so far. */
  function LinkErrors(l: Link, visited: set<string>, path: string): (e: seq<string>)
    ensures e == [] <==> l.operationId.None? || OperationKey(l.operationId.value) in visited
    ensures e != [] ==> e == [MissingOperationMessage(path, l.operationId.value)]
  {
    if l.operationId.Some? && OperationKey(l.operationId.value) !in visited then
      [MissingOperationMessage(path, l.operationId.value)]
    else []
  }

  /** `Link::validate_with_context`: the operationId must be registered; nothing is visited. */
  function ValidateLink(l: Link, c: Context, path: string): (r: Context)
    ensures r == c.(errors := c.errors + LinkErrors(l, c.visited, path))
    ensures Extends(c, r) && Localized(c, r, path)
  {
    var e := LinkErrors(l, c.visited, path);
    assert AllAt(e, path) by {
      if e != [] { StartsWithConcat(path, ".operationId: missing operation with id `" + l.operationId.value + "`"); }
    }
    Appended(c, c.(errors := c.errors + e), e, path);
    c.(errors := c.errors + e)
  }

  /**
   * A link is silent exactly when the context already holds its id, as
   * registering that id leaves it; `operationRef` is not read.
   */
  lemma LinkAfterRegistration(l: Link, c: Context, path: string, ref: Option<string>)
    requires l.operationId.Some?
    ensures ValidateLink(l, c.(visited := c.visited + {OperationKey(l.operationId.value)}), path).errors == c.errors
    ensures ValidateLink(l, c, path).errors == c.errors <==> OperationKey(l.operationId.value) in c.visited
    ensures ValidateLink(l.(operationRef := ref), c, path) == ValidateLink(l, c, path)
  {
  }

  function ValidateLinkRef(spec: Spec, x: RefOr<Link>, c: Context, path: string): (r: Context)
    ensures Extends(c, r) && Localized(c, r, path)
    ensures x.Item? ==> r == c.(errors := c.errors + LinkErrors(x.item, c.visited, path))
    ensures x.Ref? ==> x.reference in r.visited
  {
    ValidateRefOr(x, (s: string) => V30Resolve.Resolve(ComponentsOf(spec).links, V30Resolve.LinksPrefix, s), c, path,
                  ValidateLink)
  }

  function LinkRefs(spec: Spec): (v: (RefOr<Link>, Context, string) -> Context)
    ensures WellBehaved(v)
  {
    (x: RefOr<Link>, c0: Context, at: string) => ValidateLinkRef(spec, x, c0, at)
  }

  /** The description rule, unless `IgnoreEmptyResponseDescription` is set. */
  function DescriptionErrors(description: string, options: set<Options>, path: string): (e: seq<string>)
    ensures e == [] <==> description != "" || !RuleActive(options, IgnoreEmptyResponseDescription)
    ensures AllAt(e, path)
  {
    var d := RequiredString(description, path + ".description");
    AllAtNarrow(d, path, ".description");
    if RuleActive(options, IgnoreEmptyResponseDescription) then d else []
  }

  /**
   * `Response::validate_with_context`: the description, then each header
   * at `path.headers[name]`, each media type at `path.mediaTypes[type]` and
   * each link at `path.links[name]`.
   */
  function ValidateResponse(spec: Spec, resp: Response, c: Context, path: string): (r: Context)
    ensures Extends(c, r) && Localized(c, r, path)
    ensures c.errors + DescriptionErrors(resp.description, c.options, path) <= r.errors
    ensures resp.headers == [] && resp.links == [] ==>
      r == c.(errors := c.errors + DescriptionErrors(resp.description, c.options, path))
  {
    var d := DescriptionErrors(resp.description, c.options, path);
    var c1 := c.(errors := c.errors + d);
    Appended(c, c1, d, path);
    var c2 := EachEntry(resp.headers, 0, c1, path, "headers", HeaderRefs(spec));
    var c3 := EachEntry(resp.content, 0, c2, path, "mediaTypes", MediaTypes());
    MediaTypesSilent(resp.content, 0, c2, path, "mediaTypes");
    var r := EachEntry(resp.links, 0, c3, path, "links", LinkRefs(spec));
    Chain(c, c1, c2, path);
    Chain(c, c2, c3, path);
    Chain(c, c3, r, path);
    r
  }

  /**
   * With the flag set, an empty description is not reported; with the rule
   * on it is the first thing reported. The OpenAPI 3.0 response has no such
   * flag: it always reports it first.
   */
  lemma DescriptionRule(spec: Spec, resp: Response, c: Context, path: string)
    requires resp.description == ""
    ensures RuleActive(c.options, IgnoreEmptyResponseDescription) ==>
      Added(c, ValidateResponse(spec, resp, c, path))[0] == path + ".description" + ": " + "must not be empty"
    ensures !RuleActive(c.options, IgnoreEmptyResponseDescription) && resp.headers == [] && resp.links == [] ==>
      ValidateResponse(spec, resp, c, path) == c
  {
    var r := ValidateResponse(spec, resp, c, path);
    var d := DescriptionErrors(resp.description, c.options, path);
    if RuleActive(c.options, IgnoreEmptyResponseDescription) {
      assert d == RequiredString(resp.description, path + ".description");
      assert r.errors[|c.errors|] == d[0];
    } else {
      assert d == [];
    }
  }

  function ValidateResponseRef(spec: Spec, x: RefOr<Response>, c: Context, path: string): (r: Context)
    ensures Extends(c, r) && Localized(c, r, path)
    ensures x.Item? ==> r == ValidateResponse(spec, x.item, c, path)
    ensures x.Ref? ==> x.reference in r.visited
  {
    ValidateRefOr(x, (s: string) => V30Resolve.Resolve(ComponentsOf(spec).responses, V30Resolve.ResponsesPrefix, s), c, path,
                  (resp: Response, c0: Context, at: string) => ValidateResponse(spec, resp, c0, at))
  }

  /** One status-code entry: the name check at the responses path, then the entry at `path.name`. */
  function ValidateCode(spec: Spec, name: string, x: RefOr<Response>, c: Context, path: string): (r: Context)
    ensures Extends(c, r) && Localized(c, r, path)
    ensures !IsStatusCode(name) ==> |r.errors| > |c.errors| && r.errors[|c.errors|] == V2Response.CodeMessage(name, path)
  {
    var c1 := V2Response.ReportCode(name, c, path);
    var r := ValidateResponseRef(spec, x, c1, path + ("." + name));
    ThenBelow(c, c1, r, path, "." + name);
    assert !IsStatusCode(name) ==> r.errors[|c.errors|] == c1.errors[|c.errors|];
    r
  }

  /** The status-code entries from the `i`-th on, in key order. */
  function ValidateCodes(spec: Spec, codes: Entries<RefOr<Response>>, i: nat, c: Context, path: string): (r: Context)
    requires i <= |codes|
    ensures Extends(c, r) && Localized(c, r, path)
    decreases |codes| - i
  {
    if i == |codes| then c
    else
      var c1 := ValidateCode(spec, codes[i].0, codes[i].1, c, path);
      var r := ValidateCodes(spec, codes, i + 1, c1, path);
      Chain(c, c1, r, path);
      r
  }

  /** `Responses::validate_with_context`: `default` at `.default`, then the codes. */
  function ValidateResponses(spec: Spec, rs: Responses, c: Context, path: string): (r: Context)
    ensures Extends(c, r) && Localized(c, r, path)
    ensures rs.default.None? ==> r == ValidateCodes(spec, rs.codes, 0, c, path)
  {
    var c1 := if rs.default.Some? then ValidateResponseRef(spec, rs.default.value, c, path + ".default") else c;
    assert Localized(c, c1, path) by {
      if rs.default.Some? { Narrow(c, c1, path, ".default"); } else { Unchanged(c, c1, path); }
    }
    var r := ValidateCodes(spec, rs.codes, 0, c1, path);
    Chain(c, c1, r, path);
    r
  }

  /** Every response name outside 100..599 gets its complaint at the responses path; its entry is still validated. */
  lemma {:induction false} CodeComplaints(spec: Spec, codes: Entries<RefOr<Response>>, i: nat, c: Context, path: string, k: nat)
    requires i <= k < |codes| && !IsStatusCode(codes[k].0)
    ensures V2Response.CodeMessage(codes[k].0, path) in Added(c, ValidateCodes(spec, codes, i, c, path))
    decreases |codes| - i
  {
    var c2 := ValidateCode(spec, codes[i].0, codes[i].1, c, path);
    var r := ValidateCodes(spec, codes, i + 1, c2, path);
    if k == i {
      AddedFirst(c, c2, r, V2Response.CodeMessage(codes[k].0, path));
    } else {
      CodeComplaints(spec, codes, i + 1, c2, path, k);
      AddedLater(c, c2, r, V2Response.CodeMessage(codes[k].0, path));
    }
  }
}
