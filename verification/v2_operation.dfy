/**
 * The Operation Object of Swagger 2.0: its operationId is registered in the
 * shared `visited` set and must be new; every tag must be non-empty and be
 * declared in the document (a declared tag is validated once, at
 * `#/tags/name`); the parameters are validated in order and at most one of
 * them may be an inline body; the responses come last.
 */
module V2Operation {
  import opened Wrappers
  import opened Strings
  import opened Validation
  import opened Helpers
  import opened Rules
  import opened Locality
  import opened Reference
  import opened V2Types
  import opened V2Resolve
  import opened V2Tag
  import opened V2Parameter
  import opened V2Response

  const TagKeyPrefix := "#/tags/"

  /** The complaint about an operationId some earlier operation took. */
  function DuplicateIdMessage(id: string, path: string): string
  {
    path + ": operationId `" + id + "` already exists"
  }

  /** Register the operationId; a taken one is reported. */
  function RegisterOperationId(id: Option<string>, c: Context, path: string): (r: Context)
    ensures Extends(c, r) && Localized(c, r, path)
    ensures id.None? ==> r == c
    ensures id.Some? ==> r.visited == c.visited + {OperationKey(id.value)}
    ensures id.Some? ==> (r.errors == c.errors <==> OperationKey(id.value) !in c.visited)
    ensures id.Some? && OperationKey(id.value) in c.visited ==> r.errors == c.errors + [DuplicateIdMessage(id.value, path)]
  {
    if id.None? then c
    else
      var (isNew, c1) := Visit(c, OperationKey(id.value));
      if isNew then c1
      else
        assert DuplicateIdMessage(id.value, path) == path + (": operationId `" + id.value + "` already exists");
        StartsWithConcat(path, ": operationId `" + id.value + "` already exists");
        Appended(c, c1.(errors := c1.errors + [DuplicateIdMessage(id.value, path)]), [DuplicateIdMessage(id.value, path)], path);
        c1.(errors := c1.errors + [DuplicateIdMessage(id.value, path)])
  }

  /** The spec tag a tag name refers to. */
  function SpecTag(spec: Spec, tag: string): Option<Tag>
  {
    TagDefinition(spec, TagKeyPrefix + tag)
  }

  function MissingTagMessage(tag: string, at: string): string
  {
    at + ": `" + tag + "` not found in spec"
  }

  lemma MissingTagAt(tag: string, at: string)
    ensures StartsWith(MissingTagMessage(tag, at), at)
  {
    assert MissingTagMessage(tag, at) == at + (": `" + tag + "` not found in spec");
    StartsWithConcat(at, ": `" + tag + "` not found in spec");
  }

  /**
   * A tag an operation uses, reported at `at`, given what the document
   * declares under that name: it must be non-empty and declared, and the
   * declaration is validated once, at `#/tags/name`. `missing` is the
   * message for an undeclared tag.
   */
  function UseTag(found: Option<Tag>, tag: string, c: Context, at: string, missing: string): (r: Context)
    requires StartsWith(missing, at)
    ensures Extends(c, r) && Localized(c, r, at)
    ensures tag == "" ==> r == c.(errors := c.errors + RequiredString(tag, at))
    ensures tag != "" && found.None? ==>
      r == c.(errors := c.errors + (if RuleActive(c.options, IgnoreMissingTags) then [missing] else []))
    ensures tag != "" && found.Some? ==> TagKeyPrefix + tag in r.visited
    ensures tag != "" && found.Some? && TagKeyPrefix + tag in c.visited ==> r == c
    ensures tag != "" && found.Some? && TagKeyPrefix + tag !in c.visited ==>
      r == ValidateTag(found.value, c.(visited := c.visited + {TagKeyPrefix + tag}), TagKeyPrefix + tag)
  {
    if tag == "" then
      var e := RequiredString(tag, at);
      Appended(c, c.(errors := c.errors + e), e, at);
      c.(errors := c.errors + e)
    else
      match found
      case Some(t) =>
        var key := TagKeyPrefix + tag;
        var (isNew, c1) := Visit(c, key);
        if isNew then
          var r := ValidateTag(t, c1, key);
          assert key[..2] == Internal;
          Appended(c1, r, TagErrors(t, c1.options, key), key);
          AtReference(c1, r, key, at);
          Chain(c, c1, r, at);
          r
        else
          assert c1 == c;
          c
      case None =>
        var e := if RuleActive(c.options, IgnoreMissingTags) then [missing] else [];
        Appended(c, c.(errors := c.errors + e), e, at);
        c.(errors := c.errors + e)
  }

  /** The `i`-th tag of an operation, looked up among the document's tags. */
  function ValidateOperationTag(spec: Spec, tag: string, c: Context, at: string): (r: Context)
    ensures Extends(c, r) && Localized(c, r, at)
    ensures tag == "" ==> r == c.(errors := c.errors + RequiredString(tag, at))
    ensures tag != "" && SpecTag(spec, tag).None? ==>
      r == c.(errors := c.errors + (if RuleActive(c.options, IgnoreMissingTags) then [MissingTagMessage(tag, at)] else []))
    ensures tag != "" && SpecTag(spec, tag).Some? ==> TagKeyPrefix + tag in r.visited
    ensures tag != "" && SpecTag(spec, tag).Some? && TagKeyPrefix + tag in c.visited ==> r == c
    ensures tag != "" && SpecTag(spec, tag).Some? && TagKeyPrefix + tag !in c.visited ==>
      r == ValidateTag(SpecTag(spec, tag).value, c.(visited := c.visited + {TagKeyPrefix + tag}), TagKeyPrefix + tag)
  {
    MissingTagAt(tag, at);
    UseTag(SpecTag(spec, tag), tag, c, at, MissingTagMessage(tag, at))
  }

  function TagPath(path: string, i: nat): string
  {
    path + (".tags[" + NatToString(i) + "]")
  }

  /** The tags from the `i`-th on, at `path.tags[i]`. */
  function ValidateTags(spec: Spec, tags: seq<string>, i: nat, c: Context, path: string): (r: Context)
    requires i <= |tags|
    ensures Extends(c, r) && Localized(c, r, path)
    decreases |tags| - i
  {
    if i == |tags| then c
    else
      var c1 := ValidateOperationTag(spec, tags[i], c, TagPath(path, i));
      Narrow(c, c1, path, ".tags[" + NatToString(i) + "]");
      var r := ValidateTags(spec, tags, i + 1, c1, path);
      Chain(c, c1, r, path);
      r
  }

  /** The inline body parameters; a body parameter given by `$ref` is not counted. */
  function BodyCount(ps: seq<RefOr<Parameter>>): nat
  {
    if |ps| == 0 then 0
    else (if ps[0].Item? && ps[0].item.Body? then 1 else 0) + BodyCount(ps[1..])
  }

  predicate InlineBody(x: RefOr<Parameter>)
  {
    x.Item? && x.item.Body?
  }

  /** The count exceeds one exactly when two different positions hold inline bodies. */
  lemma {:induction false} BodyCountTwo(ps: seq<RefOr<Parameter>>)
    ensures BodyCount(ps) > 1 <==> exists i, j :: 0 <= i < j < |ps| && InlineBody(ps[i]) && InlineBody(ps[j])
  {
    if |ps| > 0 {
      BodyCountTwo(ps[1..]);
      BodyCountOne(ps[1..]);
      var tail := ps[1..];
      if exists i, j :: 0 <= i < j < |ps| && InlineBody(ps[i]) && InlineBody(ps[j]) {
        var i, j :| 0 <= i < j < |ps| && InlineBody(ps[i]) && InlineBody(ps[j]);
        if i > 0 {
          assert InlineBody(tail[i - 1]) && InlineBody(tail[j - 1]);
        } else {
          assert InlineBody(tail[j - 1]);
        }
      }
      if BodyCount(ps) > 1 {
        if InlineBody(ps[0]) {
          var j :| 0 <= j < |tail| && InlineBody(tail[j]);
          assert InlineBody(ps[j + 1]);
        } else {
          var i, j :| 0 <= i < j < |tail| && InlineBody(tail[i]) && InlineBody(tail[j]);
          assert InlineBody(ps[i + 1]) && InlineBody(ps[j + 1]);
        }
      }
    }
  }

  lemma {:induction false} BodyCountOne(ps: seq<RefOr<Parameter>>)
    ensures BodyCount(ps) > 0 <==> exists j :: 0 <= j < |ps| && InlineBody(ps[j])
  {
    if |ps| > 0 {
      BodyCountOne(ps[1..]);
      if !InlineBody(ps[0]) && exists j :: 0 <= j < |ps| && InlineBody(ps[j]) {
        var j :| 0 <= j < |ps| && InlineBody(ps[j]);
        assert InlineBody(ps[1..][j - 1]);
      }
      if BodyCount(ps[1..]) > 0 {
        var j :| 0 <= j < |ps[1..]| && InlineBody(ps[1..][j]);
        assert InlineBody(ps[j + 1]);
      }
    }
  }

  function ParamPath(path: string, i: nat): string
  {
    path + (".parameters[" + NatToString(i) + "]")
  }

  /** The parameters from the `i`-th on, at `path.parameters[i]`. */
  function ValidateParameters(spec: Spec, ps: seq<RefOr<Parameter>>, i: nat, c: Context, path: string, fuel: nat): (r: Context)
    requires i <= |ps|
    ensures Extends(c, r) && Localized(c, r, path)
    decreases |ps| - i
  {
    if i == |ps| then c
    else
      var c1 := ValidateParameterRef(spec, ps[i], c, ParamPath(path, i), fuel);
      Narrow(c, c1, path, ".parameters[" + NatToString(i) + "]");
      var r := ValidateParameters(spec, ps, i + 1, c1, path, fuel);
      Chain(c, c1, r, path);
      r
  }

  function BodyCountMessage(n: nat, path: string): string
  {
    path + ".parameters: only one body parameter allowed, found " + NatToString(n)
  }

  /** The body-count rule, after all parameters were validated. */
  function BodyCountErrors(ps: seq<RefOr<Parameter>>, path: string): (e: seq<string>)
    ensures e == [] <==> BodyCount(ps) <= 1
    ensures e != [] ==> e == [BodyCountMessage(BodyCount(ps), path)]
    ensures AllAt(e, path)
  {
    if BodyCount(ps) <= 1 then []
    else
      assert BodyCountMessage(BodyCount(ps), path) == path + (".parameters: only one body parameter allowed, found " + NatToString(BodyCount(ps)));
      StartsWithConcat(path, ".parameters: only one body parameter allowed, found " + NatToString(BodyCount(ps)));
      [BodyCountMessage(BodyCount(ps), path)]
  }

  /** `Operation::validate_with_context`. The operation's external docs are not validated. */
  function ValidateOperation(spec: Spec, op: Operation, c: Context, path: string, fuel: nat): (r: Context)
    ensures Extends(c, r) && Localized(c, r, path)
    ensures op.operationId.Some? ==> OperationKey(op.operationId.value) in r.visited
  {
    var c1 := RegisterOperationId(op.operationId, c, path);
    var r := OperationChecks(spec, op, c1, path, fuel);
    Chain(c, c1, r, path);
    r
  }

  /** What follows the operationId: tags, parameters, the body count, responses. */
  function OperationChecks(spec: Spec, op: Operation, c: Context, path: string, fuel: nat): (r: Context)
    ensures Extends(c, r) && Localized(c, r, path)
  {
    var c1 := ValidateTags(spec, op.tags, 0, c, path);
    var c2 := ValidateParameters(spec, op.parameters, 0, c1, path, fuel);
    var b := BodyCountErrors(op.parameters, path);
    var c3 := c2.(errors := c2.errors + b);
    Appended(c2, c3, b, path);
    var r := ValidateResponses(spec, op.responses, c3, path + ".responses", fuel);
    Narrow(c3, r, path, ".responses");
    Chain(c, c1, c2, path);
    Chain(c, c2, c3, path);
    Chain(c, c3, r, path);
    r
  }

  /** A declared tag is validated on its first use only: using it again changes nothing. */
  lemma TagValidatedOnce(spec: Spec, tag: string, c: Context, at: string, at': string)
    requires tag != "" && SpecTag(spec, tag).Some?
    ensures ValidateOperationTag(spec, tag, ValidateOperationTag(spec, tag, c, at), at')
         == ValidateOperationTag(spec, tag, c, at)
  {
  }

  /** A missing tag is reported at each use, unless the rule is off. */
  lemma MissingTagEveryUse(spec: Spec, tag: string, c: Context, at: string, at': string)
    requires tag != "" && SpecTag(spec, tag).None? && RuleActive(c.options, IgnoreMissingTags)
    ensures ValidateOperationTag(spec, tag, ValidateOperationTag(spec, tag, c, at), at').errors
         == c.errors + [MissingTagMessage(tag, at), MissingTagMessage(tag, at')]
  {
  }

  /** Two operations with the same id: the second one is reported at its own path. */
  lemma DuplicateOperationId(spec: Spec, a: Operation, b: Operation, c: Context, pa: string, pb: string, fuel: nat)
    requires a.operationId.Some? && b.operationId == a.operationId
    ensures var c1 := ValidateOperation(spec, a, c, pa, fuel);
            var c2 := ValidateOperation(spec, b, c1, pb, fuel);
            |c2.errors| > |c1.errors| && c2.errors[|c1.errors|] == DuplicateIdMessage(b.operationId.value, pb)
  {
    var c1 := ValidateOperation(spec, a, c, pa, fuel);
    var d := RegisterOperationId(b.operationId, c1, pb);
    var c2 := ValidateOperation(spec, b, c1, pb, fuel);
    assert d.errors == c1.errors + [DuplicateIdMessage(b.operationId.value, pb)];
    assert Extends(d, c2);
    assert c2.errors[|c1.errors|] == d.errors[|c1.errors|];
  }
}
