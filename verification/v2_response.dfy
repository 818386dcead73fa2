/**
 * Validation of the Response and Responses Objects of Swagger 2.0. A
 * response needs a description and has its schema validated; the
 * responses object validates `default`, then every status-code entry in
 * key order, reporting a name outside 100..599 without skipping its entry.
 */
module V2Response {
  import opened Wrappers
  import opened Strings
  import opened SortedMap
  import opened Helpers
  import opened Rules
  import opened Locality
  import opened Reference
  import opened RefValidation
  import opened StatusCode
  import opened V2Types
  import opened V2Resolve
  import opened V2Schema

  /** `Response::validate_with_context`: description at `.description`, then the schema at `.schema`. */
  function ValidateResponse(spec: Spec, resp: Response, c: Context, path: string, fuel: nat): (r: Context)
    ensures Extends(c, r) && Localized(c, r, path)
    ensures resp.schema.None? ==> r == c.(errors := c.errors + RequiredString(resp.description, path + ".description"))
    ensures resp.schema.Some? ==>
      r == ValidateSchemaRef(spec, resp.schema.value,
                             c.(errors := c.errors + RequiredString(resp.description, path + ".description")),
                             path + ".schema", fuel)
  {
    var d := RequiredString(resp.description, path + ".description");
    var c1 := c.(errors := c.errors + d);
    AllAtNarrow(d, path, ".description");
    Appended(c, c1, d, path);
    if resp.schema.None? then c1
    else
      var r := ValidateSchemaRef(spec, resp.schema.value, c1, path + ".schema", fuel);
      Narrow(c1, r, path, ".schema");
      Chain(c, c1, r, path);
      r
  }

  /** `RefOr<Response>::validate_with_context`, resolving under `#/responses/`. */
  function ValidateResponseRef(spec: Spec, x: RefOr<Response>, c: Context, path: string, fuel: nat): (r: Context)
    ensures Extends(c, r) && Localized(c, r, path)
    ensures x.Item? ==> r == ValidateResponse(spec, x.item, c, path, fuel)
    ensures x.Ref? && x.reference != "" && x.reference in c.visited ==> r == c
    ensures x.Ref? && x.reference !in c.visited && ResponseItem(spec, x).Resolved? ==>
      r == ValidateResponse(spec, ResponseItem(spec, x).item, c.(visited := c.visited + {x.reference}), x.reference, fuel)
  {
    var validate := (resp: Response, c0: Context, at: string) => ValidateResponse(spec, resp, c0, at, fuel);
    ValidateRefOr(x, (s: string) => AsLookup(ResponseDefinition(spec, s)), c, path, validate)
  }

  /** The complaint about a response name that is not a status code. */
  function CodeMessage(name: string, path: string): string
  {
    path + ": " + ("name must be an integer within [100..599] range, found `" + name + "`")
  }

  function CodeErrors(name: string, path: string): (e: seq<string>)
    ensures e == [] <==> IsStatusCode(name)
    ensures !IsStatusCode(name) ==> e == [CodeMessage(name, path)]
    ensures AllAt(e, path)
  {
    if IsStatusCode(name) then []
    else
      AllAtMessage(path, "name must be an integer within [100..599] range, found `" + name + "`");
      [CodeMessage(name, path)]
  }

  /** The name check of one entry. */
  function ReportCode(name: string, c: Context, path: string): (r: Context)
    ensures r == c.(errors := c.errors + CodeErrors(name, path))
    ensures Extends(c, r) && Localized(c, r, path)
  {
    var n := CodeErrors(name, path);
    Appended(c, c.(errors := c.errors + n), n, path);
    c.(errors := c.errors + n)
  }

  /** One status-code entry: the name check, then the entry at `path.name`. */
  function ValidateCode(spec: Spec, name: string, x: RefOr<Response>, c: Context, path: string, fuel: nat): (r: Context)
    ensures Extends(c, r) && Localized(c, r, path)
    ensures !IsStatusCode(name) ==> |r.errors| > |c.errors| && r.errors[|c.errors|] == CodeMessage(name, path)
  {
    var c1 := ReportCode(name, c, path);
    var r := ValidateResponseRef(spec, x, c1, path + ("." + name), fuel);
    ThenBelow(c, c1, r, path, "." + name);
    assert !IsStatusCode(name) ==> r.errors[|c.errors|] == c1.errors[|c.errors|];
    r
  }

  /** The status-code entries from the `i`-th on, in key order. */
  function ValidateCodes(spec: Spec, codes: Entries<RefOr<Response>>, i: nat, c: Context, path: string, fuel: nat): (r: Context)
    requires i <= |codes|
    ensures Extends(c, r) && Localized(c, r, path)
    decreases |codes| - i
  {
    if i == |codes| then c
    else
      var c1 := ValidateCode(spec, codes[i].0, codes[i].1, c, path, fuel);
      var r := ValidateCodes(spec, codes, i + 1, c1, path, fuel);
      Chain(c, c1, r, path);
      r
  }

  /** `Responses::validate_with_context`: `default` at `.default`, then the codes. */
  function ValidateResponses(spec: Spec, rs: Responses, c: Context, path: string, fuel: nat): (r: Context)
    ensures Extends(c, r) && Localized(c, r, path)
  {
    var c1 := if rs.default.Some? then ValidateResponseRef(spec, rs.default.value, c, path + ".default", fuel) else c;
    assert Localized(c, c1, path) by {
      if rs.default.Some? { Narrow(c, c1, path, ".default"); } else { Unchanged(c, c1, path); }
    }
    var r := ValidateCodes(spec, rs.codes, 0, c1, path, fuel);
    Chain(c, c1, r, path);
    r
  }

  /** A name outside 100..599 is reported, and its entry is still validated, after the complaint. */
  lemma OutOfRangeStillValidated(spec: Spec, name: string, x: RefOr<Response>, c: Context, path: string, fuel: nat)
    requires !IsStatusCode(name)
    ensures ValidateCodes(spec, [(name, x)], 0, c, path, fuel)
         == ValidateResponseRef(spec, x, c.(errors := c.errors + [CodeMessage(name, path)]), path + ("." + name), fuel)
  {
    var c2 := ValidateResponseRef(spec, x, c.(errors := c.errors + [CodeMessage(name, path)]), path + ("." + name), fuel);
    assert ValidateCodes(spec, [(name, x)], 1, c2, path, fuel) == c2;
  }

  /** Every response name outside 100..599 gets its complaint, at the responses path. */
  lemma {:induction false} CodeComplaints(spec: Spec, codes: Entries<RefOr<Response>>, i: nat, c: Context, path: string, fuel: nat,
                                          k: nat)
    requires i <= k < |codes| && !IsStatusCode(codes[k].0)
    ensures CodeMessage(codes[k].0, path) in Added(c, ValidateCodes(spec, codes, i, c, path, fuel))
    decreases |codes| - i
  {
    var c2 := ValidateCode(spec, codes[i].0, codes[i].1, c, path, fuel);
    var r := ValidateCodes(spec, codes, i + 1, c2, path, fuel);
    assert ValidateCodes(spec, codes, i, c, path, fuel) == r;
    if k == i {
      AddedFirst(c, c2, r, CodeMessage(codes[k].0, path));
    } else {
      CodeComplaints(spec, codes, i + 1, c2, path, fuel, k);
      AddedLater(c, c2, r, CodeMessage(codes[k].0, path));
    }
  }
}
