/**
 * The option set that switches individual validation rules off, and the
 * error value the validator returns.
 */
module Validation {
  import Strings

  /** Each flag, when present in the set, disables one rule. */
  datatype Options =
    | IgnoreMissingTags
    | IgnoreExternalReferences
    | IgnoreInvalidUrls
    | IgnoreNonUniqOperationIDs
    | IgnoreUnusedPathItems
    | IgnoreUnusedTags
    | IgnoreUnusedSchemas
    | IgnoreUnusedParameters
    | IgnoreUnusedResponses
    | IgnoreUnusedServerVariables
    | IgnoreUnusedExamples
    | IgnoreUnusedRequestBodies
    | IgnoreUnusedHeaders
    | IgnoreUnusedSecuritySchemes
    | IgnoreUnusedLinks
    | IgnoreUnusedCallbacks
    | IgnoreEmptyInfoTitle
    | IgnoreEmptyInfoVersion
    | IgnoreEmptyResponseDescription
    | IgnoreEmptyExternalDocumentationUrl

  /** The family a flag belongs to, read off its name; the constant sets below are defined by hand. */
  datatype Family = MissingFamily | ExternalFamily | UrlFamily | OperationIdFamily | UnusedFamily | EmptyFamily

  function FamilyOf(o: Options): Family
  {
    match o
    case IgnoreMissingTags => MissingFamily
    case IgnoreExternalReferences => ExternalFamily
    case IgnoreInvalidUrls => UrlFamily
    case IgnoreNonUniqOperationIDs => OperationIdFamily
    case IgnoreEmptyInfoTitle => EmptyFamily
    case IgnoreEmptyInfoVersion => EmptyFamily
    case IgnoreEmptyResponseDescription => EmptyFamily
    case IgnoreEmptyExternalDocumentationUrl => EmptyFamily
    case _ => UnusedFamily
  }

  const IgnoreUnused: set<Options> := {
    IgnoreUnusedTags, IgnoreUnusedSchemas, IgnoreUnusedParameters, IgnoreUnusedResponses,
    IgnoreUnusedServerVariables, IgnoreUnusedExamples, IgnoreUnusedRequestBodies,
    IgnoreUnusedHeaders, IgnoreUnusedSecuritySchemes, IgnoreUnusedLinks, IgnoreUnusedCallbacks
  }

  const IgnoreEmptyRequiredFields: set<Options> := {
    IgnoreEmptyInfoTitle, IgnoreEmptyInfoVersion, IgnoreEmptyResponseDescription,
    IgnoreEmptyExternalDocumentationUrl
  }

  /** A rule guarded by flag `o` runs exactly when `o` is absent. */
  predicate RuleActive(options: set<Options>, o: Options)
  {
    o !in options
  }

  /** `Options::new()`: the default set. */
  function New(): (r: set<Options>)
    ensures forall o :: RuleActive(r, o) <==> o != IgnoreUnusedPathItems
  {
    {IgnoreUnusedPathItems}
  }

  /** `Options::empty()`: no rule is switched off. */
  function Empty(): (r: set<Options>)
    ensures forall o :: RuleActive(r, o)
  {
    {}
  }

  /** `Options::only(o)`. */
  function Only(o: Options): (r: set<Options>)
    ensures forall p :: RuleActive(r, p) <==> p != o
  {
    {o}
  }

  /** IGNORE_UNUSED is every Unused-family flag except the one for path items. */
  lemma IgnoreUnusedIsUnusedFamily(o: Options)
    ensures o in IgnoreUnused <==> FamilyOf(o) == UnusedFamily && o != IgnoreUnusedPathItems
  {
  }

  /** IGNORE_EMPTY_REQUIRED_FIELDS is exactly the Empty family. */
  lemma IgnoreEmptyIsEmptyFamily(o: Options)
    ensures o in IgnoreEmptyRequiredFields <==> FamilyOf(o) == EmptyFamily
  {
  }

  /** Switching flags on is set union: order and repetition do not matter. */
  lemma CombineFlags(a: set<Options>, b: set<Options>, o: Options)
    ensures RuleActive(a + b, o) <==> RuleActive(a, o) && RuleActive(b, o)
    ensures a + b == b + a && (a + b) + b == a + b
  {
  }

  /** The error returned when validation fails. */
  datatype Error = Error(errors: seq<string>)

  /** `impl Display for Error`. */
  function Display(e: Error): string
  {
    Strings.NatToString(|e.errors|) + " errors found:\n" + Bullets(e.errors)
  }

  /** One "- e" line per error. */
  function Bullets(errors: seq<string>): (r: string)
    ensures |errors| == 1 ==> r == "- " + errors[0] + "\n"
    ensures |errors| == 0 ==> r == ""
  {
    if |errors| == 0 then "" else "- " + errors[0] + "\n" + Bullets(errors[1..])
  }

  /** The bullet lines follow the list order: displaying a concatenation concatenates the lines. */
  lemma {:induction false} BulletsAppend(a: seq<string>, b: seq<string>)
    ensures Bullets(a + b) == Bullets(a) + Bullets(b)
  {
    if |a| > 0 {
      assert (a + b)[1..] == a[1..] + b;
      BulletsAppend(a[1..], b);
    } else {
      assert a + b == b;
    }
  }

  /** The display is the count line followed by the errors' lines. */
  lemma DisplayShape(errors: seq<string>, e: string)
    ensures Display(Error(errors + [e])) ==
      Strings.NatToString(|errors| + 1) + " errors found:\n" + Bullets(errors) + "- " + e + "\n"
  {
    var head := Strings.NatToString(|errors| + 1) + " errors found:\n";
    assert |errors + [e]| == |errors| + 1;
    calc {
      Display(Error(errors + [e]));
      head + Bullets(errors + [e]);
      { BulletsAppend(errors, [e]); }
      head + (Bullets(errors) + Bullets([e]));
      { AppendLine(head, Bullets(errors), e); }
      head + Bullets(errors) + "- " + e + "\n";
    }
  }

  lemma AppendLine(head: string, lines: string, e: string)
    ensures head + (lines + Bullets([e])) == head + lines + "- " + e + "\n"
  {
    assert Bullets([e]) == "- " + e + "\n";
  }
}
