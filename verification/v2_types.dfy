/**
 * The Swagger 2.0 document as the validator sees it. Optional maps and lists
 * of the source are plain (possibly empty) ones here: validation treats an
 * absent map like an empty one. Fields no rule reads (descriptions, examples,
 * numeric bounds, MIME types, ...) are left out.
 */
module V2Types {
  import opened Wrappers
  import opened SortedMap
  import opened Reference
  import opened BoolOr

  datatype ExternalDocs = ExternalDocs(url: string, description: Option<string>)

  datatype Contact = Contact(name: Option<string>, url: Option<string>, email: Option<string>)

  datatype License = License(name: string, url: Option<string>)

  datatype Info = Info(title: string, version: string, contact: Option<Contact>, license: Option<License>)

  datatype Xml = Xml(name: Option<string>, namespace: Option<string>, prefix: Option<string>,
                     attribute: Option<bool>, wrapped: Option<bool>)

  datatype Tag = Tag(name: string, description: Option<string>, externalDocs: Option<ExternalDocs>)

  /** The schema variants without children of their own. */
  datatype ScalarType = StringType | IntegerType | NumberType | BooleanType | NullType

  /** The `type`-tagged Schema Object. */
  datatype Schema =
    | Scalar(scalar: ScalarType, docs: Option<ExternalDocs>, xml: Option<Xml>)
    | Array(docs: Option<ExternalDocs>, xml: Option<Xml>, items: Option<RefOr<Schema>>)
    | Object(object: ObjectSchema)

  datatype ObjectSchema = ObjectSchema(
    docs: Option<ExternalDocs>,
    xml: Option<Xml>,
    properties: Entries<RefOr<Schema>>,
    additionalProperties: Option<BoolOr<RefOr<Schema>>>,
    required: seq<string>,
    discriminator: Option<string>,
    allOf: seq<RefOr<ObjectSchema>>)

  /** The `type` of a non-body parameter; `file` occurs only in form data. */
  datatype ParamType = StringParam | IntegerParam | NumberParam | BooleanParam | ArrayParam | FileParam

  /** The fields the rules read of a non-body parameter; `pattern` exists for string parameters only. */
  datatype Simple = Simple(paramType: ParamType, name: string, required: Option<bool>,
                           allowEmptyValue: Option<bool>, pattern: Option<string>)

  /** The `in`-tagged Parameter Object. */
  datatype Parameter =
    | Body(name: string, required: Option<bool>, schema: RefOr<Schema>)
    | Header(header: Simple)
    | Query(query: Simple)
    | Path(inPath: Simple)
    | FormData(formData: Simple)

  /** Headers validate to nothing (their items carry no rules), so a response keeps only its schema. */
  datatype Response = Response(description: string, schema: Option<RefOr<Schema>>)

  /** The Responses Object: `default`, then status codes in key order. */
  datatype Responses = Responses(default: Option<RefOr<Response>>, codes: Entries<RefOr<Response>>)

  datatype Operation = Operation(
    tags: seq<string>,
    operationId: Option<string>,
    parameters: seq<RefOr<Parameter>>,
    responses: Responses)

  /** Operations keyed by lower-cased method, in key order. */
  datatype PathItem = PathItem(operations: Entries<Operation>, parameters: seq<RefOr<Parameter>>)

  datatype Flow = Implicit | Password | Application | AccessCode

  datatype ApiKeyLocation = InQuery | InHeader

  datatype SecurityScheme =
    | Basic
    | ApiKey(name: string, location: ApiKeyLocation)
    | OAuth2(flow: Flow, authorizationUrl: Option<string>, tokenUrl: Option<string>, scopes: Entries<string>)

  datatype Spec = Spec(
    info: Info,
    host: Option<string>,
    basePath: Option<string>,
    paths: Entries<PathItem>,
    definitions: Entries<Schema>,
    parameters: Entries<Parameter>,
    responses: Entries<Response>,
    securityDefinitions: Entries<SecurityScheme>,
    tags: seq<Tag>,
    externalDocs: Option<ExternalDocs>)
}
