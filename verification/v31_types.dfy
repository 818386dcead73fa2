/**
 * The OpenAPI 3.1 document as the validator sees it. Unlike the earlier
 * dialects, `paths`, `webhooks` and `components` are optional as a whole,
 * and the validator tells an absent map from an empty one, so they are
 * `Option`s here; the other optional maps are plain (possibly empty) ones.
 * Path items may be references, resolved through `#/components/pathItems/`.
 *
 * The Path Item, Operation, Media Type, Request Body, Callback, Discriminator,
 * XML, Tag, Info and Server Objects of this dialect are not part of this
 * model: they are carried as far as the modelled rules read them and have
 * no rules of their own here. The Example and Security Scheme Objects keep
 * the OpenAPI 3.0 shape; the External Documentation Object keeps its one rule.
 */
module V31Types {
  import opened Wrappers
  import opened SortedMap
  import opened Reference
  import opened BoolOr
  import V2Types
  import V30Types
  import Json

  type ExternalDocs = V2Types.ExternalDocs
  type Example = V30Types.Example
  type SecurityScheme = V30Types.SecurityScheme
  type Composition = V30Types.Composition

  /** The schemas without children; only a string schema has a pattern, and it is not checked. */
  datatype ScalarKind = StringKind(pattern: Option<string>) | IntegerKind | NumberKind | BooleanKind | NullKind

  datatype Single =
    | Scalar(kind: ScalarKind, docs: Option<ExternalDocs>)
    | Array(docs: Option<ExternalDocs>, items: Option<BoolOr<RefOr<Schema>>>)
    | Object(docs: Option<ExternalDocs>,
             properties: Entries<RefOr<Schema>>,
             patternProperties: Entries<RefOr<Schema>>,
             additionalProperties: Option<BoolOr<RefOr<Schema>>>,
             unevaluatedProperties: Option<BoolOr<RefOr<Schema>>>,
             propertyNames: Option<RefOr<Schema>>)

  /** `Multi` is a schema whose `type` is a list of type names. */
  datatype Schema =
    | Composite(kind: Composition, members: seq<RefOr<Schema>>)
    | Not(not: RefOr<Schema>)
    | Multi(types: seq<string>, docs: Option<ExternalDocs>)
    | Single(single: Single)

  datatype MediaType = MediaType

  /**
   * The four locations share the fields the rules read. A path parameter's
   * `required` is a plain flag; elsewhere it is optional (`requiredField`).
   */
  datatype ParameterBody = ParameterBody(
    name: string,
    example: Option<Json.Value>,
    examples: Option<Entries<RefOr<Example>>>,
    schema: Option<RefOr<Schema>>,
    content: Option<Entries<MediaType>>)

  datatype Parameter =
    | InPath(body: ParameterBody, required: bool)
    | InQuery(body: ParameterBody, requiredField: Option<bool>)
    | InHeader(body: ParameterBody, requiredField: Option<bool>)
    | InCookie(body: ParameterBody, requiredField: Option<bool>)

  datatype Header = Header(
    example: Option<Json.Value>,
    examples: Option<Entries<RefOr<Example>>>,
    schema: Option<RefOr<Schema>>,
    content: Option<Entries<MediaType>>)

  /** `operationRef` is carried but no rule reads it. */
  datatype Link = Link(operationRef: Option<string>, operationId: Option<string>)

  datatype Response = Response(description: string, headers: Entries<RefOr<Header>>,
                               content: Entries<MediaType>, links: Entries<RefOr<Link>>)

  datatype Responses = Responses(default: Option<RefOr<Response>>, codes: Entries<RefOr<Response>>)

  /** An operation, as far as the operationId passes read it. */
  datatype Operation = Operation(operationId: Option<string>)

  /** A path item: its operations by method. */
  datatype PathItem = PathItem(operations: Entries<Operation>)

  datatype RequestBody = RequestBody
  datatype Callback = Callback

  datatype Tag = Tag(name: string)

  datatype Components = Components(
    schemas: Entries<RefOr<Schema>>,
    responses: Entries<RefOr<Response>>,
    parameters: Entries<RefOr<Parameter>>,
    examples: Entries<RefOr<Example>>,
    requestBodies: Entries<RefOr<RequestBody>>,
    headers: Entries<RefOr<Header>>,
    securitySchemes: Entries<RefOr<SecurityScheme>>,
    pathItems: Entries<RefOr<PathItem>>,
    links: Entries<RefOr<Link>>,
    callbacks: Entries<RefOr<Callback>>)

  datatype Spec = Spec(
    paths: Option<Entries<RefOr<PathItem>>>,
    webhooks: Option<Entries<RefOr<PathItem>>>,
    components: Option<Components>,
    tags: seq<Tag>,
    externalDocs: Option<ExternalDocs>)
}
