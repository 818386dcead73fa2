# roas, modelled in Dafny

roas is a Rust library that holds an OpenAPI document in typed form, for
the three dialects Swagger 2.0, OpenAPI 3.0 and OpenAPI 3.1. It reads and
writes documents through serde and validates a document against the rules
of its dialect. This project models the parts that carry logic.

- **Codecs.** Some objects are written as one JSON object that mixes fixed
  fields, open-ended members and `x-` extensions: Responses, Path Item and
  Callback. Their hand-written visitors are modelled, and so are the
  untagged enums (`BoolOr`, the schema variants) and the extension map.
- **Validation.** It walks the document with a `Context` that holds the
  options, the set of visited references and the messages collected so
  far. Each message is a JSON path such as `#.paths[/pets].get` followed by
  what is wrong.
- **References.** A `$ref` into the same document is resolved by stripping
  its prefix and looking the name up among the components. It is marked
  visited and its target is validated once. Afterwards every component
  that nothing referred to is reported as unused, unless the options say
  otherwise.
- **Leaf rules.** Required strings, e-mail addresses, URLs, host names,
  status codes, regular expressions, path templates and the
  mutually-exclusive field pairs.

Rust's `BTreeMap` is a sorted association list here (`SortedMap`).
Validation is a pure function from a context to a context. Each
validator's contract says three things: which messages it adds, that it
only ever adds messages and visited references, and that every new message
sits under the path it was given. The regex engine is a parameter: a map
from a pattern to its compile error, where an absent pattern compiles.

Following references nests the validators without bound. The model gives
that recursion explicit fuel: how many reference targets it may descend into,
one inside another. A target is validated only the first time it is met, so
the nesting is bounded by the number of components. Resolving a reference
follows a chain of component entries that refer on, and that lookup has fuel
of its own. When either fuel runs out, which for the lookup means a reference
cycle, the context is marked cut and `Validate` answers `None` instead of a
verdict. The source itself never returns on a reference cycle.

## Model

| member | source | states |
|---|---|---|
| BoolOr.Decode | src/common/bool_or.rs:5-10 | untagged decoding: a JSON boolean is `Bool`, otherwise `Item` exactly when the item decoder accepts the value |
| BoolOr.RoundTrip | src/common/bool_or.rs:5-10 | decoding the encoding gives the value back whenever the item codec round-trips and never produces a boolean |
| Extensions.Decode | src/common/extensions.rs:36-69 | keeps exactly the `x-` keys with their values, reports a repeated `x-` key as "duplicate field", and turns an empty result into `None` |
| Extensions.Encode | src/common/extensions.rs:72-91 | `None` writes nothing; a map writes every `x-` entry and nothing else, in key order |
| Extensions.RoundTrip | src/common/extensions.rs:36-91 | a non-empty sorted map of `x-` keys survives encoding then decoding |
| Formats.Parse | src/common/formats.rs:120-152 | never fails; the result is `Custom` exactly when the name is not one of the six reserved names, and it prints back as the input |
| Formats.ParsePrint | src/common/formats.rs:30-43 | printing then parsing returns the format unless a custom format carries a reserved name |
| Formats.ParseCollection | src/common/formats.rs:83-100 | an accepted collection-format name prints back as itself |
| Formats.CollectionRoundTrip | src/common/formats.rs:83-112 | every collection format reads back from its printed name, and the default prints `csv` |
| Formats.PrintInjective | src/common/formats.rs:45-80 | distinct integer formats, and distinct number formats, print distinct names |
| Validation.New | src/validation.rs:128-130 | the default option set switches off exactly the unused-path-item rule |
| Validation.Empty | src/validation.rs:133-135 | the empty option set leaves every rule on |
| Validation.Only | src/validation.rs:138-140 | `only(o)` switches off `o` and nothing else |
| Validation.IgnoreUnusedIsUnusedFamily | src/validation.rs:103-116 | IGNORE_UNUSED holds every unused-family flag except the path-item one |
| Validation.IgnoreEmptyIsEmptyFamily | src/validation.rs:118-124 | IGNORE_EMPTY_REQUIRED_FIELDS holds exactly the empty-field flags |
| Validation.BulletsAppend | src/validation.rs:9-17 | the error display lists the errors one line each, in list order |
| Validation.DisplayShape | src/validation.rs:9-17 | the display is the count line followed by one "- e" line per error |
| Versions.ParseV2 | src/v2/spec.rs:189-202 | accepts exactly "2.0" and otherwise gives the enum deserializer's message |
| Versions.V2RoundTrip | src/v2/spec.rs:189-202 | the printed version parses back, and whatever parses prints back as itself |
| Versions.ParseV30 | src/v3_0/spec.rs:247-268 | accepts the five patch levels and the alias "3.0", and otherwise gives the deserializer's message listing them |
| Versions.V30RoundTrip | src/v3_0/spec.rs:247-282 | printing is injective and parses back, and never prints the alias |
| Versions.V30Alias | src/v3_0/spec.rs:264-267 | "3.0" parses as the default 3.0.4; the empty string and "3.1.0" are rejected |
| Versions.ParseV31 | src/v3_1/spec.rs:285-290 | accepts exactly "3.1.0" and otherwise gives the deserializer's message |
| Versions.V31RoundTrip | src/v3_1/spec.rs:285-298 | the printed version parses back, and whatever parses prints back as itself |
| Strings.TrimStartMatches | src/common/reference.rs:195-197 | the `trim_start_matches` used by map lookup never lengthens the key and leaves no leading copy of a non-empty prefix |
| Strings.TrimIdempotent | src/common/reference.rs:195-197 | trimming a second time changes nothing |
| Strings.TrimRepeatedPrefix | src/common/reference.rs:195-197 | any number of leading copies of the prefix are all stripped, so they do not change the key looked up |
| Strings.ToLower | src/v3_0/path_item.rs:168 | the lower-casing of method keys keeps the length and lowers each character on its own |
| Strings.ToLowerIdempotent | src/v3_0/path_item.rs:168-171 | lower-casing a lowered key changes nothing, so a key and its lowered form collide |
| StatusCode.ParseU16 | src/v2/response.rs:131-132 | the `u16` parse the Responses visitor uses: it accepts an optional `+` and decimal digits with value at most 65535, and nothing else |
| StatusCode.ParsePrinted | src/v2/response.rs:131-132 | every 16-bit number's decimal rendering, with or without `+`, parses back to that number |
| StatusCode.LeadingZero | src/v2/response.rs:131-132 | a leading zero does not change the value, so "0200" is stored as a status code |
| StatusCode.Examples | src/v2/response.rs:131-132 | "2XX", "600", "42", "foo", "" and "-200" are not status codes; "200", "0200" and "+404" are |
| Patterns.CheckHost | src/v2/spec.rs:295-296 | the host pattern `^[^{}/ :\\]+(?::\d+)?$` holds exactly when the text splits at its first colon into a host run and an optional numeric port |
| Patterns.Placeholders | src/v3_0/server.rs:108-109 | every placeholder the server-URL scan yields is a valid component name |
| Patterns.NoBraceNoPlaceholders | src/v3_0/server.rs:108-109 | a URL without `{` has no placeholders |
| Patterns.PlaceholderPrefix | src/v3_0/server.rs:108-109 | a leading `{name}` yields `name` first, then the rest of the URL is scanned |
| Helpers.Message | src/common/helpers.rs:27-35 | a message starting with `.` continues the path; any other is written after `path: ` |
| Helpers.PushError | src/common/helpers.rs:24-47 | reporting appends exactly one message and changes nothing else |
| Helpers.Visit | src/common/helpers.rs:55-57 | visiting inserts the key and answers whether it was new |
| Helpers.NewContext | src/common/helpers.rs:68-77 | a fresh context has no errors and nothing visited |
| Helpers.Reset | src/common/helpers.rs:50-53 | resetting clears errors and visited keys and keeps the options |
| Helpers.IntoResult | src/common/helpers.rs:79-87 | Ok exactly when no error was collected; otherwise the error carries the list as collected |
| Helpers.ValidateEmail | src/common/helpers.rs:91-100 | an address without `@` is reported once at the path; any other address reports nothing |
| Helpers.ValidateRequiredUrl | src/common/helpers.rs:116-125 | a URL that is not http or https is reported with the URL quoted, unless invalid URLs are ignored |
| Helpers.ValidateOptionalUrl | src/common/helpers.rs:108-112 | an absent URL reports nothing; a present one is checked as a required URL |
| Helpers.ValidateRequiredString | src/common/helpers.rs:129-133 | exactly an empty string is reported, as "must not be empty" |
| Helpers.ValidateStringMatches | src/common/helpers.rs:137-144 | a string is reported exactly when it does not match the pattern, with string and pattern quoted |
| Helpers.ValidateOptionalStringMatches | src/common/helpers.rs:147-156 | an absent string reports nothing; a present one is reported exactly when it does not match |
| Helpers.ValidatePattern | src/common/helpers.rs:160-165 | a pattern is reported exactly when the regex engine rejects it, with the engine's message |
| Helpers.ValidateNotVisited | src/common/helpers.rs:171-185 | a key already visited is skipped; a new key is marked, reported "unused" unless the flag is set, and its object validated at the key |
| Reference.GetItem | src/common/reference.rs:129-147 | an item is itself; a reference outside `#/` is unsupported; an internal one resolves, is not found, or diverges on a cycle |
| Reference.ResolveInMap | src/common/reference.rs:186-198 | a key missing after trimming the prefix is not found; a stored item is found directly; anything found is stored somewhere in the map |
| Reference.ResolveFuelMonotone | src/common/reference.rs:186-198 | more fuel never changes an answer that did not run out, so found and not found are the source's own answers |
| Reference.AcyclicNeverDiverges | src/common/reference.rs:186-198 | on a map whose references go down a ranking, the lookup with fuel the size of the map never diverges |
| Reference.TwoCycleDiverges | src/common/reference.rs:186-198 | two entries that refer to each other never resolve, whatever the fuel: the source has no cycle guard |
| Reference.ResolveGuarded | src/common/reference.rs:186-198 | the lookup with a cycle guard: a name met again on the chain is a cycle; anything found is stored in the map under a name not met before |
| Reference.GuardedAgrees | src/common/reference.rs:186-198 | where the guarded lookup finds an item or finds nothing, the source's lookup gives the same answer |
| Reference.GuardedRankedNoCycle | src/common/reference.rs:186-198 | on a map whose references go down a ranking, the guarded lookup never reports a cycle |
| Reference.GuardedTwoCycle | src/common/reference.rs:186-198 | two entries that refer to each other are reported as a cycle at the first name |
| Reference.RepeatedPrefixGetItem | src/common/reference.rs:186-198 | a reference with the prefix written several times resolves like the plain one |
| Reference.FollowRef | src/common/reference.rs:92-110 | an empty reference is reported; the reference is visited; the target is validated exactly when it is new and resolves; not found and external references are reported (the latter unless ignored); a cycle cuts the traversal |
| Reference.RevisitIsSilent | src/common/reference.rs:94 | a second reference to an already visited target reports nothing and validates nothing |
| RefValidation.ValidateRefOr | src/common/reference.rs:86-115 | an item is validated at the path; a reference is visited, its new resolved target validated, a revisit changes nothing, and a failed lookup is reported at the path |
| Each.EntryReportKept | src/v3_1/spec.rs:449-454 | what one entry of a map reports in its turn, the loop over the map reports |
| Each.EntryVisitKept | src/v3_1/spec.rs:449-454 | what one entry marks visited stays visited after the loop |
| Unused.NotVisitedLocalized | src/common/helpers.rs:171-185 | `validate_not_visited` reports only at its key |
| Unused.UnusedPass | src/common/helpers.rs:171-185 | every key of the pass ends visited and every report is internal to the document |
| Unused.UnvisitedReported | src/common/helpers.rs:171-185 | an entry nothing visited before its turn, with no earlier entry of the same key, is reported unused while the rule is on |
| Unused.VisitedSkipped | src/common/helpers.rs:179 | an entry whose key is already visited is neither reported nor validated |
| KeyedObject.Run | src/v3_0/path_item.rs:144-182 | the shared visitor loop accepts an object exactly when every key is acceptable after those before it; members and extensions hold the last value read, and the first refused key gives the error |
| KeyedObject.BlocksDecode | src/v3_0/path_item.rs:144-182 | an object written as fixed fields, members and extensions, each a sorted map of its own class, decodes back to those three parts |
| KeyedObject.RepeatedKey | src/v3_0/path_item.rs:163-171 | a key repeated in its class is refused with that key's duplicate message |
| ResponsesCodec.Classify | src/v2/response.rs:119-143 | a key stored as a response code is itself a status code in the 100–599 range |
| ResponsesCodec.Decode | src/v2/response.rs:112-152 | the Responses visitor accepts exactly the objects whose keys are `default`, `x-` keys and status codes without repeats, and otherwise reports the first refused key |
| ResponsesCodec.DecodeFields | src/v2/response.rs:112-152 | a decoded `default` is the last `default` value, the codes and extensions hold their entries, and empty maps become `None` |
| ResponsesCodec.RoundTrip | src/v2/response.rs:67-155 | serializing a well-formed Responses object and reading it back gives the same object |
| ResponsesCodec.UnknownKeys | src/v2/response.rs:131-141 | "foo", "600" and "2XX" are refused with serde's unknown-field message |
| ResponsesCodec.Duplicates | src/v2/response.rs:120-139 | a repeated `default`, code or extension key is a duplicate-field error naming the key |
| PathItemCodec.DecodeV2 | src/v2/paths.rs:151-185 | the Swagger 2.0 Path Item visitor accepts an object exactly when no key repeats in its class, and otherwise reports the first refused key |
| PathItemCodec.DecodeV3 | src/v3_0/path_item.rs:144-182 | the OpenAPI 3.0 Path Item visitor, as written, accepts an object exactly when no key repeats in its class |
| PathItemCodec.ServersNeverDecoded | src/v3_0/path_item.rs:157-161 | as written neither dialect ever fills `servers`: a `servers` value is stored as `parameters` |
| PathItemCodec.OperationNamesLowerCase | src/v3_0/path_item.rs:167-172 | every operation name the visitors store is lower-cased |
| PathItemCodec.RoundTripV2 | src/v2/paths.rs:94-187 | a well-formed Swagger 2.0 Path Item survives serializing and reading back |
| PathItemCodec.RoundTripV3 | src/v3_0/path_item.rs:82-185 | as written, reading back a serialized OpenAPI 3.0 Path Item sends the `servers` value to `parameters`, so no item with servers round-trips; with values opaque, the model does not see that the source re-reads that value as a parameter list |
| PathItemCodec.RoundTripV3Intended | src/v3_0/path_item.rs:82-185 | with `servers` read into its own field, every well-formed OpenAPI 3.0 Path Item round-trips |
| PathItemCodec.ParametersTwice | src/v3_0/path_item.rs:152-155 | a second `parameters` key is serde's duplicate-field error in both dialects |
| PathItemCodec.MethodCollision | src/v2/paths.rs:169-173 | two method keys equal after lower-casing collide as one operation, reported under the lowered name |
| PathItemCodec.SingleOperation | src/v2/paths.rs:169-174 | any other key, a custom method included, is an operation under its lower-cased name |
| PathItemCodec.ExtensionTwice | src/v3_0/path_item.rs:162-165 | a repeated `x-` key is refused, quoted with single quotes |
| PathItemCodec.ServersQuirk | src/v3_0/path_item.rs:157-161 | as written, the `servers` value goes to `parameters`, `servers` then `parameters` is a duplicate `parameters`, and two `servers` keys are accepted; the value is opaque here |
| PathItemCodec.ServersIntended | src/v3_0/path_item.rs:157-161 | with `servers` stored in its own field the same inputs decode to `servers`, to both fields, and to a duplicate `servers` |
| CallbackCodec.Classify | src/v3_0/callback.rs:111-122 | an `x-` key is an extension and any other key is a path expression kept verbatim |
| CallbackCodec.Decode | src/v3_0/callback.rs:102-128 | the Callback visitor accepts exactly the objects without a repeated key, reporting the first repeat in backticks |
| CallbackCodec.DecodeFields | src/v3_0/callback.rs:102-128 | a decoded Callback holds every path and `x-` key with its last value |
| CallbackCodec.RoundTrip | src/v3_0/callback.rs:59-131 | a well-formed Callback survives serializing and reading back |
| CallbackCodec.EmptyObject | src/v3_0/callback.rs:106-109 | the empty object is a Callback with an empty map of paths, not a missing one |
| CallbackCodec.PathVerbatim | src/v3_0/callback.rs:117-121 | a path key is kept as written, with no lower-casing |
| CallbackCodec.Duplicates | src/v3_0/callback.rs:111-122 | any repeated key, path or extension, is refused with the key in backticks |
| V2Info.InfoErrors | src/v2/info.rs:130-147 | an Info Object yields no message exactly when its title and version are non-empty (unless the matching ignore option is set) and its contact and license pass; every message lies under the info path |
| V2Info.TitleErrors | src/v2/info.rs:132-134 | the title is reported exactly when it is empty and `IgnoreEmptyInfoTitle` is not set |
| V2Info.VersionErrors | src/v2/info.rs:135-137 | the version is reported exactly when it is empty and `IgnoreEmptyInfoVersion` is not set |
| V2Info.PartsErrors | src/v2/info.rs:139-145 | the optional contact and license contribute messages exactly when present and failing their own rules |
| V2Info.ContactErrors | src/v2/info.rs:149-154 | a contact is clean exactly when its optional url and its email pass their checks |
| V2Info.LicenseErrors | src/v2/info.rs:156-161 | a license is clean exactly when its name is non-empty and its optional url passes |
| V2Info.ValidateInfo | src/v2/info.rs:130-147 | validating an info object only appends its messages; visited set and options are untouched |
| V2Info.EmptyTitleAndVersion | src/v2/info.rs:132-137 | an info with empty title and version yields exactly `#.info.title: must not be empty` then `#.info.version: must not be empty`, each dropped by its ignore option |
| V2ExternalDocs.ExternalDocsErrors | src/v2/external_documentation.rs:38-42 | an External Documentation Object is reported exactly when its url is not an http(s) url and `IgnoreInvalidUrls` is not set |
| V2Tag.TagErrors | src/v2/tag.rs:45-52 | a tag is clean exactly when its name is non-empty and its optional external docs pass |
| V2Tag.Examples | src/v2/tag.rs:92-134 | the source's tag examples: an unnamed tag yields `tag.name: must not be empty`, a named tag without docs yields nothing |
| V2Xml.XmlErrors | src/v2/xml.rs:120-127 | an XML Object is clean exactly when a present name is non-empty and a present namespace is a valid url |
| V2Xml.BothErrors | src/v2/xml.rs:225-237 | the source's example: empty name and namespace `foo-bar` yield the name message then the namespace message, in that order |
| V2Xml.OtherFieldsIgnored | src/v2/xml.rs:120-127 | prefix, attribute and wrapped never influence the messages |
| V2SecurityScheme.SchemeErrors | src/v2/security_scheme.rs:159-197 | basic is always clean; api key needs a name; OAuth2 reports empty scopes first, then either a missing authorization url for the implicit and accessCode flows or the url check |
| V2SecurityScheme.FlowNamesDistinct | src/v2/security_scheme.rs:148-157 | the four flow display names are pairwise distinct, so the message names the flow unambiguously |
| V2SecurityScheme.TokenUrlIgnored | src/v2/security_scheme.rs:179-197 | the token url never influences the OAuth2 messages |
| V2Operation.RegisterOperationId | src/v2/operation.rs:103-113 | an operation id is recorded as visited; a second use of the same id appends exactly the "already exists" message, a first use appends nothing |
| V2Operation.ValidateOperationTag | src/v2/operation.rs:115-140 | an empty tag is reported as empty; an unknown tag is reported at `.tags[i]` unless `IgnoreMissingTags`; a known tag is marked used and validated once, at `#/tags/<name>` |
| V2Operation.TagValidatedOnce | src/v2/operation.rs:124-128 | using a known tag a second time changes nothing |
| V2Operation.MissingTagEveryUse | src/v2/operation.rs:130-138 | an unknown tag is reported at every use, each at its own path |
| V2Operation.BodyCountOne | src/v2/operation.rs:144-151 | the body count is positive exactly when some parameter is an inline body parameter |
| V2Operation.BodyCountTwo | src/v2/operation.rs:144-151 | the body count exceeds one exactly when two distinct positions hold inline body parameters |
| V2Operation.BodyCountErrors | src/v2/operation.rs:152-157 | exactly one message, carrying the count, when more than one body parameter is given; none otherwise |
| V2Operation.ValidateOperation | src/v2/operation.rs:101-163 | an operation's messages all lie under its path and its operation id ends up visited |
| V2Operation.DuplicateOperationId | src/v2/operation.rs:103-113 | validating two operations with the same id reports "operationId `id` already exists" at the second one's path |
| V2Parameter.MustBeRequired | src/v2/parameter.rs:631-635 | a path parameter passes exactly when `required` is present and true |
| V2Parameter.MustNotAllowEmptyValue | src/v2/parameter.rs:637-647 | a parameter is reported exactly when `allowEmptyValue` is present and true |
| V2Parameter.SimpleErrors | src/v2/parameter.rs:491-629 | a header, query, path or form-data parameter is clean exactly when its location's rules hold: name for header, query and form data; required for path; empty-value for path and every header; the pattern for a string header |
| V2Parameter.ValidateBody | src/v2/parameter.rs:483-489 | a body parameter checks its name at `<path>name` (no dot, as written) and then its schema at `.schema` |
| V2Parameter.ValidateParameterRef | src/v2/parameter.rs:471-481 | an inline parameter is validated in place; a visited reference is skipped; a fresh resolvable reference is validated once at the reference path |
| V2Parameter.PathNameUnchecked | src/v2/parameter.rs:543-568 | a path parameter's empty name is never reported, while the same name in a query parameter is |
| V2Parameter.PatternOnlyInHeader | src/v2/parameter.rs:491-519 | an invalid pattern is reported only for a string header parameter, never for query, path or form data |
| V2PathItem.ValidatePathItem | src/v2/paths.rs:191-205 | a path item validates its operations in method order, then its parameters; every operation id ends up visited |
| V2PathItem.OperationReportKept | src/v2/paths.rs:193-197 | whatever one operation reports survives into the path item's result |
| V2Response.ValidateResponse | src/v2/response.rs:159-171 | a response reports an empty description at `.description`, then validates its schema at `.schema`; headers add nothing |
| V2Response.CodeErrors | src/v2/response.rs:180-189 | a response name is reported exactly when it is not an integer in 100..599, with the source's message |
| V2Response.OutOfRangeStillValidated | src/v2/response.rs:180-190 | an out-of-range entry is still validated, after its complaint |
| V2Response.CodeComplaints | src/v2/response.rs:178-191 | every out-of-range response name in the map gets its complaint |
| V2Response.ValidateResponseRef | src/v2/response.rs:173-177 | an inline response is validated in place; a visited reference is skipped; a fresh resolvable one is validated at the reference path |
| V2Resolve.Lookup | src/v2/spec.rs:233-277 | a reference resolves exactly when its name, after stripping every leading copy of the prefix, is a key of the map, to that key's value |
| V2Resolve.LookupPrefixForms | src/v2/spec.rs:237 | `trim_start_matches` strips any number of repeated prefixes: `#/definitions/#/definitions/Pet` finds `Pet` |
| V2Resolve.ObjectDefinition | src/v2/spec.rs:241-253 | an object-schema lookup succeeds exactly when the definition exists and is an object schema |
| V2Resolve.NonObjectDefinition | src/v2/spec.rs:241-253 | a definition that is not an object resolves as a schema but fails as an object schema |
| V2Resolve.FirstTagNamed | src/v2/spec.rs:279-286 | tag lookup finds the first tag with the stripped name, and fails exactly when no tag has it |
| V2Resolve.NeverDiverges | src/v2/spec.rs:233-286 | Swagger 2.0 lookups never chase references, so resolution never diverges |
| V2Schema.TagRoundTrip | src/v2/schema.rs:17-38 | the `type` tag written for each schema kind is parsed back to that kind |
| V2Schema.NullTagAsWritten | src/v2/schema.rs:37 | the null schema is tagged `bull`, so the display name `null` is not accepted, while every other kind's display name is |
| V2Schema.TagIntendedRoundTrip | src/v2/schema.rs:47-59 | with the null tag spelled `null`, tags and display names coincide and both parse back |
| V2Schema.DocsXmlErrors | src/v2/schema.rs:568-577 | the shared schema checks report exactly a failing external docs or xml |
| V2Schema.ValidateAdditional | src/v2/schema.rs:642-650 | absent or boolean `additionalProperties` adds nothing |
| V2Schema.AllOfNonObject | src/v2/schema.rs:651-655 | an `allOf` reference to a non-object definition is reported as not found, and marked visited |
| V2Schema.PropertyNonObject | src/v2/schema.rs:636-640 | a property reference to a non-object definition is validated as that schema |
| V2Schema.UncheckedFields | src/v2/schema.rs:627-657 | `required` and `discriminator` never influence an object schema's messages |
| V2Spec.HostErrors | src/v2/spec.rs:295-296 | a host is reported exactly when present and not matching the host pattern, with the pattern and value in the message |
| V2Spec.BasePathErrors | src/v2/spec.rs:298-305 | a base path is reported exactly when present and not starting with `/` |
| V2Spec.Preamble | src/v2/spec.rs:292-305 | the document first appends the info, host and base-path messages, in that order |
| V2Spec.CheckPathKey | src/v2/spec.rs:309-312 | a path key not starting with `/` is reported at `#.paths[<key>]` |
| V2Spec.PathKeyReported | src/v2/spec.rs:308-314 | every path key not starting with `/` is reported in the document's result |
| V2Spec.BasePathReported | src/v2/spec.rs:298-305 | a bad base path is reported in the document's result |
| V2Spec.TraversalKept | src/v2/spec.rs:307-348 | the unused-component passes only append: whatever the traversal reported survives |
| V2Spec.UnusedTagReported | src/v2/spec.rs:320-325 | a tag no operation used is reported as unused unless `IgnoreUnusedTags` |
| V2Spec.Validate | src/v2/spec.rs:288-349 | the result is Ok exactly when no message was collected, and every message is rooted at `#` |
| V30Resolve.ComponentsOf | src/v3_0/spec.rs:282-362 | a document without components resolves every component reference against empty maps |
| V30Resolve.TagDefinition | src/v3_0/spec.rs:364-371 | a tag reference finds a tag whose name is the stripped reference, and fails exactly when no tag has that name |
| V30Resolve.SchemaByName | src/v3_0/spec.rs:319-325 | `#/components/schemas/` repeated any number of times before a schema name resolves to that schema |
| V30Xml.XmlErrors | src/v3_0/xml.rs:118-122 | an XML Object is reported exactly when its namespace is present and not an http(s) url, unless `IgnoreInvalidUrls` |
| V30Xml.LikeSwaggerWithoutName | src/v3_0/xml.rs:118-122 | OpenAPI 3.0 checks only the namespace: it agrees with the Swagger 2.0 check on a nameless XML Object and ignores even an empty name |
| V30Example.ExampleErrors | src/v3_0/example.rs:46-56 | an example is clean exactly when value and externalValue are not both given and the external value passes the url check; the exclusion comes first |
| V30Example.EitherAlone | src/v3_0/example.rs:48-54 | with only an external value, just its url check runs; with only a value, nothing is reported |
| V30Server.VariableErrors | src/v3_0/server.rs:128-143 | a server variable is clean exactly when its default is non-empty and, if an enum is given, the default is one of its values |
| V30Server.EscapeRoundTrip | src/v3_0/server.rs:136 | the enum list in the message quotes each value reversibly: unescaping the quoted text gives the value back |
| V30Server.VariablesErrors | src/v3_0/server.rs:102-107 | the variables block is clean exactly when every variable is |
| V30Server.ConsumeLeftOver | src/v3_0/server.rs:109-116 | after matching the url's placeholders, the declared names left are those no placeholder named |
| V30Server.ConsumeUndefinedCount | src/v3_0/server.rs:109-116 | a placeholder is reported once per occurrence, minus the one occurrence a declared variable absorbs |
| V30Server.UnusedNames | src/v3_0/server.rs:117-124 | the unused variables are exactly the declared ones left over |
| V30Server.UnusedExactly | src/v3_0/server.rs:101-124 | a name is reported unused exactly when it is declared and appears in no placeholder of the url |
| V30Server.RepeatedPlaceholder | src/v3_0/server.rs:109-116 | a placeholder used twice is reported as undefined even when declared, because the first use removes the name |
| V30Server.NoVariables | src/v3_0/server.rs:101-116 | without variables, every placeholder is undefined and nothing is unused |
| V30Server.UndefinedErrors | src/v3_0/server.rs:111-114 | one `.url: <name> is not defined in variables` message per undefined placeholder, in url order |
| V30Server.UnusedVariableErrors | src/v3_0/server.rs:118-123 | one `.variables[<name>]: unused in url` message per unused variable |
| V30Server.ServerErrors | src/v3_0/server.rs:98-126 | a server is clean exactly when its url is non-empty, its variables pass, no placeholder is undefined and, unless ignored, no variable is unused |
| V30Server.IgnoreUnusedOnlyDropsUnused | src/v3_0/server.rs:117-124 | `IgnoreUnusedServerVariables` removes exactly the trailing unused-variable messages |
| V30Security.ScopeErrors | src/v3_0/operation.rs:169-196 | a requirement's scope list is clean exactly when every scope is declared by one of the OAuth2 flows; each undeclared scope gets its message |
| V30Security.CheckScopes | src/v3_0/operation.rs:169-196 | every scope of the requirement is marked visited, declared or not |
| V30Security.ValidateScheme | src/v3_0/operation.rs:162-198 | a requirement marks its scheme as used; for an OAuth2 scheme each listed scope is marked used and each undeclared one reported |
| V30Security.RequirementMarksSchemes | src/v3_0/operation.rs:160-201 | every scheme named in a requirement ends up visited |
| V30Security.OtherSchemeScopesIgnored | src/v3_0/operation.rs:167-168 | the scopes listed for a non-OAuth2 scheme are neither checked nor marked |
| V30Security.NoScopesNoChecks | src/v3_0/operation.rs:167 | an empty scope list marks no scope as visited |
| V30Content.ValidateExampleRef | src/v3_0/example.rs:46-56 | an inline example appends exactly its own messages; a referenced one is marked visited |
| V30Content.ValidateEncoding | src/v3_0/media_type.rs:196-204 | every header an encoding references ends up visited |
| V30Content.ValidateMediaType | src/v3_0/media_type.rs:178-194 | a media type's schema reference ends up visited; its messages lie under its path |
| V30Content.ValidateContent | src/v3_0/response.rs:207-211 | every schema referenced from a content map ends up visited |
| V30Content.ValidateRequestBody | src/v3_0/request_body.rs:60-66 | a request body validates every media type at `.content[<type>]`, so each referenced schema ends up visited |
| V30Content.MediaTypeReportKept | src/v3_0/request_body.rs:62-64 | whatever one media type reports survives into the request body's result |
| V30Content.ValidateResponse | src/v3_0/response.rs:199-218 | a response reports an empty description first, then validates headers, content and links under its path |
| V30Content.DescriptionFirst | src/v3_0/response.rs:201 | the first message of a response without description is `<path>.description: must not be empty` |
| V30Content.ValidateResponseRef | src/v3_0/response.rs:199-218 | an inline response is validated in place; a referenced one is marked visited |
| V30Content.ValidateCode | src/v3_0/response.rs:227-239 | a response name outside 100..599 is reported first, and its entry is still validated |
| V30Content.CodeComplaints | src/v3_0/response.rs:225-241 | every out-of-range response name gets its complaint |
| V30Components.UnusedCheck | src/v3_0/components.rs:77-80 | a component is reported as unused exactly when its reference was not visited and its ignore option is not set; the check does not mark it visited |
| V30Components.ValidateComponent | src/v3_0/components.rs:75-83 | one component: the unused check, then its name against `^[a-zA-Z0-9.\-_]+$` at `<path>.<kind>[<name>]` (a literal `<name>`), then the object itself |
| V30Components.UnvisitedComponentReported | src/v3_0/components.rs:75-192 | every component whose reference is unvisited, with its option off, is reported unused |
| V30Components.BadNameReported | src/v3_0/components.rs:81 | every component name outside the allowed pattern is reported |
| V30Components.ImplicitScopes | src/v3_0/components.rs:157-167 | only an OAuth2 scheme's implicit flow contributes scopes to the unused check |
| V30Components.UnusedScopes | src/v3_0/components.rs:158-166 | an implicit-flow scope is reported unused exactly when no security requirement visited it and the option is off |
| V30Components.ValidateSchemeComponent | src/v3_0/components.rs:142-169 | a security scheme component reports every unvisited implicit scope |
| V30Components.SchemasFirst | src/v3_0/components.rs:75-192 | the schema block runs first; everything after only extends its result |
| V30Components.NameMessageUnrooted | src/v3_0/components.rs:81 | a component name message is rooted at the components path, so under a path not starting with `#` it is unrooted |
| V30Operation.ValidateTags | src/v3_0/operation.rs:112-129 | every known tag an operation names ends up visited |
| V30Operation.MissingTagDoubled | src/v3_0/operation.rs:114-126 | as written, a missing tag is reported at `.tags[i].tags[i]`, not at its own path |
| V30Operation.MissingTagAtOwnPath | src/v3_0/operation.rs:124-126 | with the path used once, a missing tag is reported at `.tags[i]` |
| V30Operation.MissingTagReported | src/v3_0/operation.rs:112-129 | every missing tag is reported, unless `IgnoreMissingTags` |
| V30Operation.ValidateOperation | src/v3_0/operation.rs:108-203 | tags, parameters, request body, servers, callbacks, responses, external docs and security, in that order; known tags end up visited |
| V30Operation.ValidateCallbackRef | src/v3_0/operation.rs:147-151 | a referenced callback is marked visited and, once visited, skipped |
| V30Operation.CallbackOnce | src/v3_0/operation.rs:147-151 | validating the same callback reference twice is the same as once |
| V30Operation.ValidateCallback | src/v3_0/callback.rs:135-141 | a callback validates each of its path items at `<path>[<expression>]` |
| V30Operation.ValidatePathItem | src/v3_0/path_item.rs:189-209 | a path item validates its operations, then servers, then parameters |
| V30Operation.OperationReportKept | src/v3_0/path_item.rs:191-195 | whatever one operation reports survives into the path item's result |
| V30Operation.OperationTagsUsed | src/v3_0/path_item.rs:191-195 | every known tag of every operation of a path item ends up visited |
| V30Schema.DocsXmlErrors | src/v3_0/schema.rs:731-738 | the shared schema checks report exactly a failing external docs or xml |
| V30Schema.PatternErrors | src/v3_0/schema.rs:739-741 | only a string schema's pattern is checked, and it is reported exactly when the pattern is invalid |
| V30Schema.ValidateSingle | src/v3_0/schema.rs:717-743 | a scalar schema appends exactly its docs, xml and pattern messages |
| V30Schema.MembersMarkReferences | src/v3_0/schema.rs:685-707 | every referenced member of an allOf, anyOf or oneOf ends up visited |
| V30Schema.ValidateAdditional | src/v3_0/schema.rs:808-815 | absent or boolean `additionalProperties` adds nothing |
| V30Schema.ValidateDiscriminator | src/v3_0/discriminator.rs:29-40 | an empty property name is reported first; every mapping target is resolved as `#/components/schemas/<value>` and ends up visited |
| V30Schema.ValidateSchemaRef | src/v3_0/schema.rs:681-715 | an inline schema is validated in place; a referenced one is marked visited and, once visited, skipped |
| V30Schema.RequiredUnchecked | src/v3_0/schema.rs:793-817 | an object schema's `required` list never influences its messages |
| V30Spec.ItemIds | src/v3_0/spec.rs:388-402 | the operation-id uses of a path item are exactly its operations that carry an id, with their method |
| V30Spec.PathIds | src/v3_0/spec.rs:387-404 | the uses of the whole document are exactly those of its path items |
| V30Spec.RegisterId | src/v3_0/spec.rs:390-401 | recording an id marks it visited; an id already recorded appends exactly the "already in use" message at `#` |
| V30Spec.RegisterIds | src/v3_0/spec.rs:387-404 | the id pass marks every id visited |
| V30Spec.TakenIdReported | src/v3_0/spec.rs:390-401 | an id used earlier in the pass, or already visited, is reported |
| V30Spec.DistinctIdsSilent | src/v3_0/spec.rs:387-404 | distinct, unvisited ids produce no message |
| V30Spec.ServersVisitNothing | src/v3_0/spec.rs:380-384 | the top-level servers never mark anything visited |
| V30Spec.PathKeyInPass | src/v3_0/spec.rs:406-412 | every path key not starting with `/` is reported at `#.paths[<key>]` |
| V30Spec.Traverse | src/v3_0/spec.rs:386-412 | after the paths, every operation id of the document is visited, so links can find them |
| V30Spec.ComponentsStep | src/v3_0/spec.rs:414-416 | a document without components skips the step |
| V30Spec.ComponentsThenRest | src/v3_0/spec.rs:414-427 | the components pass sees every reference the traversal visited |
| V30Spec.TraversalKept | src/v3_0/spec.rs:377-429 | whatever the traversal reports survives into the document's result |
| V30Spec.PathKeyReported | src/v3_0/spec.rs:406-412 | a bad path key is reported in the document's result |
| V30Spec.DuplicateIdReported | src/v3_0/spec.rs:387-404 | the second use of an operation id is reported in the document's result |
| V30Spec.UnusedTagReported | src/v3_0/spec.rs:422-427 | a tag no operation used is reported unused unless `IgnoreUnusedTags` |
| V30Spec.UnusedSchemaReported | src/v3_0/components.rs:75-80 | a schema component no reference reached is reported unused unless `IgnoreUnusedSchemas` |
| V30Spec.BadSchemaNameReported | src/v3_0/components.rs:81 | a schema component name outside the pattern is reported under the components path |
| V30Spec.AsWrittenUnrooted | src/v3_0/spec.rs:415 | the components path is written `{}.components`, which does not start with `#` |
| V30Spec.ComponentNameOutsideRoot | src/v3_0/spec.rs:414-416 | as written, a bad component name yields a message outside `#` |
| V30Spec.ComponentNameRooted | src/v3_0/spec.rs:414-416 | with the path `#.components`, that message is rooted at `#` |
| V30Spec.Validate | src/v3_0/spec.rs:373-431 | as written, the result is Ok exactly when no message was collected, and Err carries the messages in order |
| V30Spec.ValidateIntended | src/v3_0/spec.rs:373-431 | with the components path rooted, every message starts with `#` |
| V30SchemaKeys.RoundTrip | src/v3_0/schema.rs:18-26 | as written, every composition, discriminator included, is read back as itself: the value's shape keeps the negation apart from `allOf` |
| V30SchemaKeys.DecodeInverse | src/v3_0/schema.rs:18-26 | what the decoder accepts is written back under the same keyword and value |
| V30SchemaKeys.DecodeList | src/v3_0/schema.rs:34-98 | a list under `allOf`, `anyOf` or `oneOf` decodes to that composition with those members and that discriminator, and only such a list does |
| V30SchemaKeys.NotKeyword | src/v3_0/schema.rs:100-104 | the negation is written under `allOf`, like an `allOf` composition, and a document that writes `not` does not decode as a negation |
| V30SchemaKeys.RoundTripIntended | src/v3_0/schema.rs:100-104 | with the negation under `not`, compositions still round-trip |
| V30SchemaKeys.DecodeIntendedInverse | src/v3_0/schema.rs:100-104 | and the intended decoder's results are written back unchanged |
| V30SchemaKeys.TagOf | src/v3_0/schema.rs:146-157 | a single-typed schema is displayed as `array`, `object` or `string` exactly when it is an array, object or string schema |
| V30SchemaKeys.DisplayDistinct | src/v3_0/schema.rs:146-157 | two single-typed schemas display the same name exactly when they are of the same type |
| V30SchemaKeys.DefaultSchema | src/v3_0/schema.rs:28-32 | the default schema is a single-typed object schema with nothing in it |
| V31Resolve.PathItemByName | src/v3_1/spec.rs:361-367 | `#/components/pathItems/` repeated any number of times before a name resolves to that path item |
| V31Resolve.PathItemNotFound | src/v3_1/spec.rs:361-367 | a path-item reference whose name is not a component fails with a not-found error naming the reference |
| V31Resolve.PathItemItem | src/v3_1/spec.rs:361-367 | without components, no path-item reference resolves |
| V31Content.ValidateExampleRef | src/v3_1/example.rs:44-54 | an inline example appends exactly the exclusion and external-url messages; a referenced one is marked visited |
| V31Content.HeaderExclusions | src/v3_1/header.rs:84-89 | a header's exclusion messages appear exactly when example and examples, or schema and content, are both given |
| V31Content.ValidateHeader | src/v3_1/header.rs:82-101 | a header reports its exclusions first; without examples that is all it reports; referenced examples end up visited |
| V31Content.HeaderSchemaUnread | src/v3_1/header.rs:82-101 | a header's schema is never descended into |
| V31Content.LinkErrors | src/v3_1/link.rs:69-79 | a link is reported exactly when it names an operation id that was not registered, with the source's message |
| V31Content.LinkAfterRegistration | src/v3_1/link.rs:69-79 | once its operation id is registered a link is silent, and `operationRef` never influences the check |
| V31Content.ValidateLinkRef | src/v3_1/link.rs:67-84 | an inline link appends exactly its operation-id message; a referenced one is marked visited |
| V31Content.DescriptionErrors | src/v3_1/response.rs:200-202 | an empty description is reported exactly when `IgnoreEmptyResponseDescription` is not set |
| V31Content.ValidateResponse | src/v3_1/response.rs:198-219 | a response reports its description first; without headers and links that is all it reports |
| V31Content.DescriptionRule | src/v3_1/response.rs:200-202 | the option silences the description message and nothing else |
| V31Content.ValidateResponses | src/v3_1/response.rs:221-243 | without a default response only the status-code entries are validated |
| V31Content.CodeComplaints | src/v3_1/response.rs:226-241 | every response name outside 100..599 gets its complaint |
| V31Parameter.Exclusions | src/v3_1/parameter.rs:463-483 | the example and schema exclusion messages appear exactly when their pair is both given |
| V31Parameter.MustBeRequired | src/v3_1/parameter.rs:457-461 | a path parameter passes exactly when its `required` flag is true; otherwise exactly one `.<name>: must be required` message |
| V31Parameter.RequiredErrors | src/v3_1/parameter.rs:424-431 | only path parameters are held to `required` |
| V31Parameter.ParameterReports | src/v3_1/parameter.rs:424-455 | each of the four messages is reported exactly when its rule is broken |
| V31Parameter.MessagesDistinct | src/v3_1/parameter.rs:426-482 | the four kinds of parameter message never coincide |
| V31Parameter.RequiredOnlyInPath | src/v3_1/parameter.rs:433-455 | query, header and cookie parameters report the same, whatever their `required` flag |
| V31Parameter.RequiredPathLikeQuery | src/v3_1/parameter.rs:424-438 | a path parameter reports what a query parameter does, plus the required message after the name message when not required |
| V31Parameter.ValidateParameterRef | src/v3_1/parameter.rs:413-422 | an inline parameter appends exactly its messages; a referenced one is marked visited |
| V31SchemaKeys.RoundTrip | src/v3_1/schema.rs:16-25 | as written, every composition is read back as itself: the value's shape keeps the negation apart from `allOf` |
| V31SchemaKeys.DecodeInverse | src/v3_1/schema.rs:16-25 | what the decoder accepts is written back under the same keyword and value |
| V31SchemaKeys.NotKeyword | src/v3_1/schema.rs:246-249 | the negation is written under `allOf`, like an `allOf` composition, and a document that writes `not` does not decode as a negation |
| V31SchemaKeys.RoundTripIntended | src/v3_1/schema.rs:246-249 | with the negation under `not`, compositions still round-trip |
| V31SchemaKeys.DecodeIntendedInverse | src/v3_1/schema.rs:246-249 | and the intended decoder's results are written back unchanged |
| V31SchemaKeys.DecodeList | src/v3_1/schema.rs:131-135 | a list under `allOf`, `anyOf` or `oneOf` decodes to that composition with those members, and only such a list does |
| V31SchemaKeys.TypeNameRoundTrip | src/v3_1/schema.rs:307-319 | the display names of the single-typed schemas are distinct and read back as the same type |
| V31SchemaKeys.DefaultSchema | src/v3_1/schema.rs:27-31 | the default schema is a single-typed object schema with nothing in it |
| V31Schema.AllowedTypeNames | src/v3_1/schema.rs:1147-1154 | every type name except `integer` is in the allowed list; all seven are in the intended list |
| V31Schema.TypeComplaints | src/v3_1/schema.rs:1155-1169 | each listed type is reported unsupported once per occurrence outside the allowed set, and as not unique once per occurrence after the first |
| V31Schema.TypeComplaintsSilent | src/v3_1/schema.rs:1155-1169 | a type list is silent exactly when every listed type is allowed and listed once |
| V31Schema.ComplaintAboutListed | src/v3_1/schema.rs:1156-1169 | every complaint names a type that was listed |
| V31Schema.TypeErrors | src/v3_1/schema.rs:1158-1167 | one message per complaint, at `<path>.type`, in order |
| V31Schema.MessageNamesComplaint | src/v3_1/schema.rs:1158-1167 | two messages are equal exactly when their complaints are |
| V31Schema.IntegerInTypeList | src/v3_1/schema.rs:1147-1162 | as written, `type: [integer]` is reported as `type integer is not supported`; with the intended list it is silent |
| V31Schema.ValidateMulti | src/v3_1/schema.rs:1145-1174 | a list-typed schema appends its type messages, then its docs messages |
| V31Schema.ValidateSingle | src/v3_1/schema.rs:1013-1069 | a scalar schema appends exactly its docs messages |
| V31Schema.ValidateSubschema | src/common/bool_or.rs:12-25 | the `BoolOr` validation that the 3.1 schema applies to `items`, `additionalProperties` and `unevaluatedProperties`: absent or boolean adds nothing; a schema is validated at its field's path |
| V31Schema.ValidatePatternProperty | src/v3_1/schema.rs:1101-1107 | a pattern property validates its schema at `.pattern_properties[<pattern>]`, then reports the pattern if invalid |
| V31Schema.PatternKeyReported | src/v3_1/schema.rs:1101-1107 | every invalid pattern key is reported |
| V31Schema.ValidateSchemaRef | src/v3_1/schema.rs:976-1011 | an inline schema is validated in place; a referenced one is marked visited and, once visited, skipped |
| V31Schema.DefaultSilent | src/v3_1/schema.rs:27-31 | the default schema validates to nothing |
| V31Schema.PatternIgnored | src/v3_1/schema.rs:1027-1036 | in OpenAPI 3.1 a string schema's pattern is not checked |
| V31Components.RegisterPathItem | src/v3_1/components.rs:169-193 | a path-item component that does not resolve is reported at `#` and skipped; a resolved one registers the operation ids of its operations |
| V31Components.PathItemComponent | src/v3_1/components.rs:169-201 | a resolved path-item component is registered, then put through the unused check, the name check and its own validation |
| V31Components.UnresolvedPathItemReported | src/v3_1/components.rs:171-176 | every unresolved path-item component is reported |
| V31Components.PathItemIdsRegistered | src/v3_1/components.rs:178-192 | every operation id of a resolved path-item component ends up visited |
| V31Components.TakenIdInPathItem | src/v3_1/components.rs:180-191 | an id already in use is reported as "already in use" |
| V31Components.UnusedPathItemReported | src/v3_1/components.rs:195-198 | a path-item component not referenced is reported unused unless `IgnoreUnusedPathItems` |
| V31Components.ValidateSchemeComponent | src/v3_1/components.rs:142-167 | a security scheme component reports every unvisited implicit scope |
| V31Components.ValidateComponents | src/v3_1/components.rs:73-226 | the components are checked block by block in the source's order, path items after security schemes |
| V31Components.BadSchemaNameInComponents | src/v3_1/components.rs:83 | a schema component name outside the pattern is reported |
| V31Spec.IdsPass | src/v3_1/spec.rs:412-438 | the first pass over paths registers, path by path, the operation ids of every path item |
| V31Spec.PathIdsRegistered | src/v3_1/spec.rs:422-437 | every operation id of a resolved path item ends up visited |
| V31Spec.UnresolvedPathReported | src/v3_1/spec.rs:415-421 | a path entry whose reference does not resolve is reported at `#` |
| V31Spec.TakenPathIdReported | src/v3_1/spec.rs:424-435 | an id registered by an earlier path is reported as already in use |
| V31Spec.LinkFindsPathOperation | src/v3_1/spec.rs:412 | after the first pass, a link naming any operation id of the paths is silent |
| V31Spec.ValidatePath | src/v3_1/spec.rs:440-446 | a path key not starting with `/` is reported first, then the entry is validated at `#.paths[<key>]` |
| V31Spec.PathKeyInPass | src/v3_1/spec.rs:440-446 | every bad path key is reported |
| V31Spec.WebhooksPass | src/v3_1/spec.rs:449-454 | without webhooks the step does nothing |
| V31Spec.InlineWebhooksSilent | src/v3_1/spec.rs:449-454 | inline webhooks report nothing |
| V31Spec.AtLeastOne | src/v3_1/spec.rs:460-465 | exactly one message at `#` when paths, webhooks and components are all absent, and none otherwise |
| V31Spec.AtLeastOneRule | src/v3_1/spec.rs:460-465 | the message survives into the document's result, and the step is inert when one of the three is present |
| V31Spec.EmptyDocument | src/v3_1/spec.rs:399-482 | a document with nothing in it fails with exactly the at-least-one message |
| V31Spec.TraversalKept | src/v3_1/spec.rs:412-481 | whatever the traversal reports survives into the document's result |
| V31Spec.ClosingKept | src/v3_1/spec.rs:460-481 | whatever the closing steps report survives too |
| V31Spec.UnusedTagReported | src/v3_1/spec.rs:471-480 | a tag no operation used is reported unused unless `IgnoreUnusedTags` |
| V31Spec.BadSchemaNameReported | src/v3_1/spec.rs:456-458 | a bad schema component name is reported in the document's result |
| V31Spec.AsWrittenUnrooted | src/v3_1/spec.rs:457 | the components path is written `{}.components`, which does not start with `#` |
| V31Spec.ComponentNameOutsideRoot | src/v3_1/spec.rs:456-458 | as written a bad component name yields a message outside `#`; with `#.components` it lies under the root |
| V31Spec.Validate | src/v3_1/spec.rs:399-482 | as written, the result is Ok exactly when no message was collected, and Err carries the messages in order |
| V31Spec.ValidateIntended | src/v3_1/spec.rs:399-482 | with the components path rooted, every message starts with `#` |

## Left out

- The serde derive layer is not modelled. Field renames, `skip_serializing_if` and the flattening of extensions are assumed. Only the hand-written visitors and the untagged enums are modelled.
- JSON values, such as examples, defaults and extension values, are opaque. Floating-point numbers are never inspected.
- The crate's module wiring (`lib.rs`, `mod.rs`) and the file-reading tests are not modelled.
- Validation fuel: the source recurses through references without bound. The model bounds that recursion with fuel. Running out of fuel, or a lookup that meets a reference cycle, marks the context cut, and `Validate` answers `None` instead of running forever.
- Helpers.Cut: a cut context keeps every message collected so far, but it does not say what the source would have added past the cut.
- PathItemCodec.ServersQuirk: values are opaque, so the model sends any `servers` value to `parameters`. The source re-reads it as a parameter list (`Vec<RefOr<Parameter>>`). So in the source only a value that also reads as parameters, such as `[]`, lands there, and a non-empty server list is a decode error. The same holds for PathItemCodec.RoundTripV3.
- Strings.ToLower: only ASCII `A`-`Z` are lowered, while Rust's `to_lowercase` is Unicode-wide. Two path-item method keys that differ only in non-ASCII case collide in the source but not in the model.
- V30Server.DebugEscape: only `"`, `\`, newline, carriage return, tab and NUL are escaped. Rust's `{:?}` in the enum-default message also writes other non-printable characters as `\u{..}`.
- Patterns.IsHost: `\d` is read as the ASCII digits, while the Rust regex crate's `\d` matches every Unicode decimal digit.
- V30Server.UnusedNames: unused server variables are reported in key order. The source reports them in the iteration order of a `HashSet`, which is unspecified, so the model fixes one order. The properties are stated about membership.
- V2ExternalDocs.ValidateExternalDocs, V2SecurityScheme.SchemeErrors and V2SecurityScheme.ValidateScheme: `validate_url` is not part of this model. The external-docs url (src/v2/external_documentation.rs:40) and the OAuth2 authorization url (src/v2/security_scheme.rs:194) are both modelled with the optional-URL check of src/common/helpers.rs:108-112.
- V30Resolve.TagDefinition: `Ref::resolve` for tags is not part of this model. It is modelled as a lookup of the tag whose name is the reference with its prefix stripped.
- The OpenAPI 3.0 Parameter, Header, Link and Security Scheme Objects carry no checks. Their files (v3_0 parameter.rs, header.rs, link.rs, security_scheme.rs) are not part of this model. References to them are still followed, marked visited and counted for the unused-component passes.
- Swagger 2.0 Header and Items Objects: their `validate_with_context` bodies are empty in the source, so they contribute nothing and are not descended into.
- Swagger 2.0 `securityDefinitions`: the source runs no unused pass over them, and neither does the model.
- The OpenAPI 3.1 files path_item.rs, operation.rs, media_type.rs, server.rs, security_scheme.rs, info.rs, tag.rs, xml.rs, callback.rs, request_body.rs and discriminator.rs are not part of this model.
  - Bodies of those kinds contribute no checks of their own.
  - References to them that appear in the modelled files are still followed and marked visited.
  - The 3.1 document's info and servers steps are therefore omitted.
- V31Spec.Validate: a 3.1 Operation Object is modelled by its `operationId` alone, and 3.1 path-item bodies add nothing, so nothing an operation refers to is ever marked visited: its tags, parameters, request body, responses, callbacks and security schemes. The model therefore reports every 3.1 tag as unused (src/v3_1/spec.rs:471-481), and every component reached only through an operation as unused too. The source would presumably not report them, if its operation.rs marks them as v3_0/operation.rs:112-129 does. Those reports are over-reports of the model, not of the source.
- V31Content.MediaTypesSilent: OpenAPI 3.1 media types report nothing, because v3_1 media_type.rs is not part of this model.
- V31Schema.ValidateSingle: the scalar 3.1 schemas do not validate their `xml` field (src/v3_1/schema.rs:1032-1034), because v3_1 xml.rs is not part of this model.
- V31Content.ValidateLink: the server of a 3.1 Link Object is not checked, because v3_1 server.rs is not part of this model.
- The tests of v3_1 external_documentation.rs expect behaviour that the shipped code does not implement. The model follows the code.

## Findings

| source | as written | input that shows it | evidently intended | confidence | as-written member | corrected member |
|---|---|---|---|---|---|---|
| src/v3_0/path_item.rs:157-161 | the visitor reads the `servers` key into the `parameters` field | `{"servers": [], "parameters": []}` is refused as a duplicate `parameters`, and `{"servers": []}` yields empty parameters and no servers; a non-empty server list is re-read as a parameter list and refused | `servers` fills the servers field | not executed | PathItemCodec.ServersQuirk | PathItemCodec.ServersIntended |
| src/v2/schema.rs:37 | the null schema's `type` tag is `"bull"` | a schema written with `"type": "null"` is not read as the null schema, while its display name is `null` | the tag is `"null"` | not executed | V2Schema.NullTagAsWritten | V2Schema.TagIntendedRoundTrip |
| src/v3_0/spec.rs:415 | the components path is the literal `"{}.components"`, with the `{}` not filled in | a schema component whose name breaks the name pattern is reported under a path that does not start with `#` | `#.components` | not executed | V30Spec.ComponentNameOutsideRoot | V30Spec.ComponentNameRooted |
| src/v3_1/spec.rs:457 | the same literal `"{}.components"` | a schema component whose name breaks the name pattern is reported outside `#` | `#.components` | not executed | V31Spec.ComponentNameOutsideRoot | V31Spec.ValidateIntended |
| src/v3_0/operation.rs:114-126 | the missing-tag message is formatted with `.tags[i]` after `path` has already been extended by it | operation path `p`, tag `x` not defined: the message is at `p.tags[0].tags[0]` | the message is at `p.tags[0]` | not executed | V30Operation.MissingTagDoubled | V30Operation.MissingTagAtOwnPath |
| src/v3_1/schema.rs:246-249 | the negation's field is renamed to `allOf` | `{"not": s}` is not read as a negation, and a negation is written as `{"allOf": s}` | the keyword `not` | not executed | V31SchemaKeys.NotKeyword | V31SchemaKeys.RoundTripIntended |
| src/v3_0/schema.rs:100-104 | the same rename in OpenAPI 3.0 | `{"not": s}` is not read as a negation | the keyword `not` | not executed | V30SchemaKeys.NotKeyword | V30SchemaKeys.RoundTripIntended |
| src/common/reference.rs:186-198 | a stored reference is resolved in turn with no memory of the names already met | two components that refer to each other: the lookup never returns | report the cycle as an error | not executed | Reference.TwoCycleDiverges | Reference.GuardedTwoCycle |
| src/v3_1/schema.rs:1147-1154 | the allowed type names leave out `integer` | `"type": ["integer", "null"]` is reported as "type `integer` is not supported" | the seven JSON Schema type names are all allowed | not executed | V31Schema.IntegerInTypeList | V31Schema.AllowedTypeNames |
