/**
 * The OpenAPI 3.0 document as the validator sees it. As for Swagger 2.0,
 * optional maps and lists are plain (possibly empty) ones, and fields no
 * rule reads are left out. The Info, Contact, License, Tag and External
 * Documentation Objects carry the same fields and rules as in Swagger 2.0
 * and are shared with that dialect. The Parameter, Header, Link and
 * Security Scheme Objects are opaque apart from the OAuth2 scopes the
 * operation and components passes read.
 */
module V30Types {
  import opened Wrappers
  import opened SortedMap
  import opened Reference
  import opened BoolOr
  import V2Types
  import Json

  type Info = V2Types.Info
  type Tag = V2Types.Tag
  type ExternalDocs = V2Types.ExternalDocs
  type Xml = V2Types.Xml

  datatype Discriminator = Discriminator(propertyName: string, mapping: Entries<string>)

  /** The schemas without children of their own; only a string schema has a pattern. */
  datatype ScalarType = StringType(pattern: Option<string>) | IntegerType | NumberType | BooleanType | NullType

  datatype Single =
    | Scalar(scalar: ScalarType, docs: Option<ExternalDocs>, xml: Option<Xml>)
    | Array(docs: Option<ExternalDocs>, xml: Option<Xml>, items: Option<RefOr<Schema>>)
    | Object(docs: Option<ExternalDocs>, xml: Option<Xml>,
             properties: Entries<RefOr<Schema>>,
             additionalProperties: Option<BoolOr<RefOr<Schema>>>,
             required: seq<string>)

  /** The three list compositions share their shape. */
  datatype Composition = AllOfKind | AnyOfKind | OneOfKind

  datatype Schema =
    | Composite(kind: Composition, members: seq<RefOr<Schema>>, discriminator: Option<Discriminator>)
    | Not(not: RefOr<Schema>)
    | Single(single: Single)

  datatype Example = Example(value: Option<Json.Value>, externalValue: Option<string>)

  /** The Parameter, Header and Link Objects: their own rules are not part of this model. */
  datatype Parameter = Parameter
  datatype Header = Header
  datatype Link = Link

  datatype Encoding = Encoding(headers: Entries<RefOr<Header>>)

  datatype MediaType = MediaType(schema: Option<RefOr<Schema>>, examples: Entries<RefOr<Example>>,
                                 encoding: Entries<Encoding>)

  datatype RequestBody = RequestBody(content: Entries<MediaType>)

  datatype Response = Response(description: string, headers: Entries<RefOr<Header>>,
                               content: Entries<MediaType>, links: Entries<RefOr<Link>>)

  datatype Responses = Responses(default: Option<RefOr<Response>>, codes: Entries<RefOr<Response>>)

  datatype ServerVariable = ServerVariable(enumValues: Option<seq<string>>, default: string)

  datatype Server = Server(url: string, variables: Entries<ServerVariable>)

  /** An OAuth2 flow, as far as the scope checks read it. */
  datatype Flow = Flow(scopes: Entries<string>)

  datatype Flows = Flows(implicit: Option<Flow>, password: Option<Flow>,
                         clientCredentials: Option<Flow>, authorizationCode: Option<Flow>)

  datatype SecurityScheme = OAuth2(flows: Flows) | OtherScheme

  /** A security requirement: scheme name to the scopes it asks for. */
  type SecurityRequirement = Entries<seq<string>>

  datatype Operation = Operation(
    tags: seq<string>,
    operationId: Option<string>,
    parameters: seq<RefOr<Parameter>>,
    requestBody: Option<RefOr<RequestBody>>,
    servers: seq<Server>,
    callbacks: Entries<RefOr<Callback>>,
    responses: Responses,
    externalDocs: Option<ExternalDocs>,
    security: seq<SecurityRequirement>)

  datatype PathItem = PathItem(operations: Entries<Operation>, servers: seq<Server>, parameters: seq<RefOr<Parameter>>)

  datatype Callback = Callback(paths: Entries<PathItem>)

  datatype Components = Components(
    schemas: Entries<RefOr<Schema>>,
    responses: Entries<RefOr<Response>>,
    parameters: Entries<RefOr<Parameter>>,
    examples: Entries<RefOr<Example>>,
    requestBodies: Entries<RefOr<RequestBody>>,
    headers: Entries<RefOr<Header>>,
    securitySchemes: Entries<RefOr<SecurityScheme>>,
    links: Entries<RefOr<Link>>,
    callbacks: Entries<RefOr<Callback>>)

  datatype Spec = Spec(
    info: Info,
    servers: seq<Server>,
    paths: Entries<PathItem>,
    components: Option<Components>,
    tags: seq<Tag>,
    externalDocs: Option<ExternalDocs>)
}
