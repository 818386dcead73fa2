/**
 * The objects of OpenAPI 3.0 that carry content: the Media Type, Encoding,
 * Request Body, Response and Responses Objects, and the references to the
 * Example, Header, Link and Parameter Objects. The Parameter, Header and
 * Link Objects have no rules of their own in this model, but references to
 * them are still followed, visited and reported when they do not resolve.
 */
module V30Content {
  import opened Wrappers
  import opened Strings
  import opened SortedMap
  import opened Helpers
  import opened Rules
  import opened Locality
  import opened Reference
  import opened RefValidation
  import opened StatusCode
  import opened Each
  import opened V30Types
  import opened V30Resolve
  import opened V30Example
  import opened V30Schema
  import V2Response

  /** The validator of an object without rules of its own. */
  function NoChecks<T(!new)>(x: T, c: Context, path: string): (r: Context)
    ensures Extends(c, r) && Localized(c, r, path)
  {
    c
  }

  function ValidateHeaderRef(spec: Spec, x: RefOr<Header>, c: Context, path: string): (r: Context)
    ensures Extends(c, r) && Localized(c, r, path)
    ensures x.Item? ==> r == c
    ensures x.Ref? ==> x.reference in r.visited
  {
    ValidateRefOr(x, (s: string) => Resolve(ComponentsOf(spec).headers, HeadersPrefix, s), c, path, NoChecks)
  }

  function ValidateLinkRef(spec: Spec, x: RefOr<Link>, c: Context, path: string): (r: Context)
    ensures Extends(c, r) && Localized(c, r, path)
    ensures x.Item? ==> r == c
    ensures x.Ref? ==> x.reference in r.visited
  {
    ValidateRefOr(x, (s: string) => Resolve(ComponentsOf(spec).links, LinksPrefix, s), c, path, NoChecks)
  }

  function ValidateParameterRef(spec: Spec, x: RefOr<Parameter>, c: Context, path: string): (r: Context)
    ensures Extends(c, r) && Localized(c, r, path)
    ensures x.Item? ==> r == c
    ensures x.Ref? ==> x.reference in r.visited
  {
    ValidateRefOr(x, (s: string) => Resolve(ComponentsOf(spec).parameters, ParametersPrefix, s), c, path, NoChecks)
  }

  function ValidateExampleRef(spec: Spec, x: RefOr<Example>, c: Context, path: string): (r: Context)
    ensures Extends(c, r) && Localized(c, r, path)
    ensures x.Item? ==> r == c.(errors := c.errors + ExampleErrors(x.item, c.options, path))
    ensures x.Ref? ==> x.reference in r.visited
  {
    ValidateRefOr(x, (s: string) => Resolve(ComponentsOf(spec).examples, ExamplesPrefix, s), c, path, ValidateExample)
  }

  /** `ValidateHeaderRef` as the validator of a loop. */
  function HeaderRefs(spec: Spec): (v: (RefOr<Header>, Context, string) -> Context)
    ensures WellBehaved(v)
  {
    (x: RefOr<Header>, c0: Context, at: string) => ValidateHeaderRef(spec, x, c0, at)
  }

  /** `Encoding::validate_with_context`: each header at `path.headers[name]`; every referenced header counts as used. */
  function ValidateEncoding(spec: Spec, e: Encoding, c: Context, path: string): (r: Context)
    ensures Extends(c, r) && Localized(c, r, path)
    ensures forall k :: 0 <= k < |e.headers| && e.headers[k].1.Ref? ==> e.headers[k].1.reference in r.visited
  {
    var r := EachEntry(e.headers, 0, c, path, "headers", HeaderRefs(spec));
    forall k | 0 <= k < |e.headers| && e.headers[k].1.Ref?
      ensures e.headers[k].1.reference in r.visited
    {
      EntryVisitKept(e.headers, k, c, path, "headers", HeaderRefs(spec), e.headers[k].1.reference);
    }
    r
  }

  /** `MediaType::validate_with_context`: the schema, then the examples, then the encodings. */
  function ValidateMediaType(spec: Spec, m: MediaType, c: Context, path: string, fuel: nat): (r: Context)
    ensures Extends(c, r) && Localized(c, r, path)
    ensures m.schema.Some? && m.schema.value.Ref? ==> m.schema.value.reference in r.visited
  {
    var c1 := if m.schema.Some? then ValidateSchemaRef(spec, m.schema.value, c, path + ".schema", fuel) else c;
    assert Localized(c, c1, path) by {
      if m.schema.Some? { Narrow(c, c1, path, ".schema"); } else { Unchanged(c, c1, path); }
    }
    var c2 := EachEntry(m.examples, 0, c1, path, "examples",
                        (x: RefOr<Example>, c0: Context, at: string) => ValidateExampleRef(spec, x, c0, at));
    var r := EachEntry(m.encoding, 0, c2, path, "encoding",
                       (e: Encoding, c0: Context, at: string) => ValidateEncoding(spec, e, c0, at));
    Chain(c, c1, c2, path);
    Chain(c, c2, r, path);
    r
  }

  /** `ValidateMediaType` as the validator of a loop. */
  function MediaTypes(spec: Spec, fuel: nat): (v: (MediaType, Context, string) -> Context)
    ensures WellBehaved(v)
  {
    (m: MediaType, c0: Context, at: string) => ValidateMediaType(spec, m, c0, at, fuel)
  }

  /** The media types of a content map, each at `path.<field>[type]`; every schema they refer to counts as used. */
  function ValidateContent(spec: Spec, content: Entries<MediaType>, c: Context, path: string, field: string, fuel: nat): (r: Context)
    ensures Extends(c, r) && Localized(c, r, path)
    ensures forall k :: 0 <= k < |content| && content[k].1.schema.Some? && content[k].1.schema.value.Ref? ==>
      content[k].1.schema.value.reference in r.visited
  {
    var r := EachEntry(content, 0, c, path, field, MediaTypes(spec, fuel));
    forall k | 0 <= k < |content| && content[k].1.schema.Some? && content[k].1.schema.value.Ref?
      ensures content[k].1.schema.value.reference in r.visited
    {
      EntryVisitKept(content, k, c, path, field, MediaTypes(spec, fuel), content[k].1.schema.value.reference);
    }
    r
  }

  /** `RequestBody::validate_with_context`: each media type at `path.content[type]`. */
  function ValidateRequestBody(spec: Spec, b: RequestBody, c: Context, path: string, fuel: nat): (r: Context)
    ensures Extends(c, r) && Localized(c, r, path)
    ensures forall k :: 0 <= k < |b.content| && b.content[k].1.schema.Some? && b.content[k].1.schema.value.Ref? ==>
      b.content[k].1.schema.value.reference in r.visited
  {
    ValidateContent(spec, b.content, c, path, "content", fuel)
  }

  /** What a media type of a request body reports in its turn, the request body reports. */
  lemma MediaTypeReportKept(spec: Spec, b: RequestBody, c: Context, path: string, fuel: nat, k: nat, m: string)
    requires k < |b.content|
    requires m in Added(EntriesBefore(b.content, k, c, path, "content", MediaTypes(spec, fuel)),
                        ValidateMediaType(spec, b.content[k].1, EntriesBefore(b.content, k, c, path, "content", MediaTypes(spec, fuel)),
                                          EntryPath(path, "content", b.content[k].0), fuel))
    ensures m in Added(c, ValidateRequestBody(spec, b, c, path, fuel))
  {
    EntryReportKept(b.content, k, c, path, "content", MediaTypes(spec, fuel), m);
  }

  function ValidateRequestBodyRef(spec: Spec, x: RefOr<RequestBody>, c: Context, path: string, fuel: nat): (r: Context)
    ensures Extends(c, r) && Localized(c, r, path)
    ensures x.Ref? ==> x.reference in r.visited
  {
    ValidateRefOr(x, (s: string) => Resolve(ComponentsOf(spec).requestBodies, RequestBodiesPrefix, s), c, path,
                  (b: RequestBody, c0: Context, at: string) => ValidateRequestBody(spec, b, c0, at, fuel))
  }

  /**
   * `Response::validate_with_context`: the description, then headers, media
   * types (reported under `mediaTypes`, not `content`) and links.
   */
  function ValidateResponse(spec: Spec, resp: Response, c: Context, path: string, fuel: nat): (r: Context)
    ensures Extends(c, r) && Localized(c, r, path)
    ensures resp.description == "" ==>
      |r.errors| > |c.errors| && r.errors[|c.errors|] == path + ".description" + ": " + "must not be empty"
  {
    var d := RequiredString(resp.description, path + ".description");
    var c1 := c.(errors := c.errors + d);
    AllAtNarrow(d, path, ".description");
    Appended(c, c1, d, path);
    var c2 := EachEntry(resp.headers, 0, c1, path, "headers",
                        (x: RefOr<Header>, c0: Context, at: string) => ValidateHeaderRef(spec, x, c0, at));
    var c3 := ValidateContent(spec, resp.content, c2, path, "mediaTypes", fuel);
    var r := EachEntry(resp.links, 0, c3, path, "links",
                       (x: RefOr<Link>, c0: Context, at: string) => ValidateLinkRef(spec, x, c0, at));
    Chain(c, c1, c2, path);
    Chain(c, c2, c3, path);
    Chain(c, c3, r, path);
    assert resp.description == "" ==> |r.errors| > |c.errors| && r.errors[|c.errors|] == d[0] by {
      if resp.description == "" {
        FirstKept(c, c1, c2);
        FirstKept(c, c2, c3);
        FirstKept(c, c3, r);
      }
    }
    r
  }

  function ValidateResponseRef(spec: Spec, x: RefOr<Response>, c: Context, path: string, fuel: nat): (r: Context)
    ensures Extends(c, r) && Localized(c, r, path)
    ensures x.Item? ==> r == ValidateResponse(spec, x.item, c, path, fuel)
    ensures x.Ref? ==> x.reference in r.visited
  {
    ValidateRefOr(x, (s: string) => Resolve(ComponentsOf(spec).responses, ResponsesPrefix, s), c, path,
                  (resp: Response, c0: Context, at: string) => ValidateResponse(spec, resp, c0, at, fuel))
  }

  /** One status-code entry: the name check, then the entry at `path.name`. */
  function ValidateCode(spec: Spec, name: string, x: RefOr<Response>, c: Context, path: string, fuel: nat): (r: Context)
    ensures Extends(c, r) && Localized(c, r, path)
    ensures !IsStatusCode(name) ==> |r.errors| > |c.errors| && r.errors[|c.errors|] == V2Response.CodeMessage(name, path)
  {
    var c1 := V2Response.ReportCode(name, c, path);
    var r := ValidateResponseRef(spec, x, c1, path + ("." + name), fuel);
    ThenBelow(c, c1, r, path, "." + name);
    assert !IsStatusCode(name) ==> r.errors[|c.errors|] == c1.errors[|c.errors|];
    r
  }

  /** The status-code entries from the `i`-th on, in key order. */
  function ValidateCodes(spec: Spec, codes: Entries<RefOr<Response>>, i: nat, c: Context, path: string, fuel: nat): (r: Context)
    requires i <= |codes|
    ensures Extends(c, r) && Localized(c, r, path)
    decreases |codes| - i
  {
    if i == |codes| then c
    else
      var c1 := ValidateCode(spec, codes[i].0, codes[i].1, c, path, fuel);
      var r := ValidateCodes(spec, codes, i + 1, c1, path, fuel);
      Chain(c, c1, r, path);
      r
  }

  /** `Responses::validate_with_context`: `default` at `.default`, then the codes. */
  function ValidateResponses(spec: Spec, rs: Responses, c: Context, path: string, fuel: nat): (r: Context)
    ensures Extends(c, r) && Localized(c, r, path)
  {
    var c1 := if rs.default.Some? then ValidateResponseRef(spec, rs.default.value, c, path + ".default", fuel) else c;
    assert Localized(c, c1, path) by {
      if rs.default.Some? { Narrow(c, c1, path, ".default"); } else { Unchanged(c, c1, path); }
    }
    var r := ValidateCodes(spec, rs.codes, 0, c1, path, fuel);
    Chain(c, c1, r, path);
    r
  }

  /** Every response name outside 100..599 gets its complaint at the responses path; its entry is still validated. */
  lemma {:induction false} CodeComplaints(spec: Spec, codes: Entries<RefOr<Response>>, i: nat, c: Context, path: string, fuel: nat,
                                          k: nat)
    requires i <= k < |codes| && !IsStatusCode(codes[k].0)
    ensures V2Response.CodeMessage(codes[k].0, path) in Added(c, ValidateCodes(spec, codes, i, c, path, fuel))
    decreases |codes| - i
  {
    var c2 := ValidateCode(spec, codes[i].0, codes[i].1, c, path, fuel);
    var r := ValidateCodes(spec, codes, i + 1, c2, path, fuel);
    if k == i {
      AddedFirst(c, c2, r, V2Response.CodeMessage(codes[k].0, path));
    } else {
      CodeComplaints(spec, codes, i + 1, c2, path, fuel, k);
      AddedLater(c, c2, r, V2Response.CodeMessage(codes[k].0, path));
    }
  }

  /** An empty description is the first thing a response reports, whatever else it holds. */
  lemma DescriptionFirst(spec: Spec, resp: Response, c: Context, path: string, fuel: nat)
    requires resp.description == ""
    ensures Added(c, ValidateResponse(spec, resp, c, path, fuel))[0] == path + ".description: must not be empty"
  {
    var r := ValidateResponse(spec, resp, c, path, fuel);
    assert path + ".description" + ": " + "must not be empty" == path + ".description: must not be empty";
    assert Added(c, r)[0] == r.errors[|c.errors|];
  }
}
