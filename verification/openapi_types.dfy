/** The OpenAPI 3.1.0 objects that the modelled code builds and reads
    (internal/openapi/openapi_spec.go, internal/openapi/schema.go). Only the
    fields the code sets or inspects are kept. Go maps are association lists;
    a Go map that may be nil is an `Option` of one. */
module OpenApi {
  import opened Wrappers
  import opened Values
  import GoMaps
  import OrderedMaps

  /** The Schema Object as the code uses it. `example` is `VNil` when unset;
      `typeName` is bookkeeping that is never serialized; a non-empty `ref`
      makes the schema a Reference Object. */
  datatype Schema = Schema(
    typ: string,
    required: seq<string>,
    properties: GoMaps.GoMap<string, Schema>,
    items: Option<Schema>,
    example: Value,
    typeName: string,
    ref: string)

  /** A schema of a scalar type with an example and nothing else. */
  function Leaf(typ: string, example: Value): (s: Schema)
    ensures s.typ == typ && s.example == example
    ensures s.required == [] && s.properties == [] && s.items == None
    ensures s.typeName == "" && s.ref == ""
  {
    Schema(typ, [], [], None, example, "", "")
  }

  /** A schema that only refers to a component: every other field is zero. */
  function RefTo(ref: string): (s: Schema)
    ensures s.ref == ref && s.typ == "" && s.properties == [] && s.items == None
  {
    Schema("", [], [], None, VNil, "", ref)
  }

  datatype Parameter = Parameter(
    name: string,
    location: string,
    description: string,
    required: bool,
    schema: Schema,
    example: Value)

  datatype MediaType = MediaType(schema: Schema, example: Value)

  /** A Response Object; `content` is `None` for a nil map. */
  datatype Response = Response(description: string, content: Option<GoMaps.GoMap<string, MediaType>>)

  const EmptyResponse: Response := Response("", None)

  /** The Responses Object: the `default` response and the map from status
      code strings to responses (`None` for a nil map). */
  datatype Responses = Responses(defaultResponse: Response, statusCodes: Option<GoMaps.GoMap<string, Response>>)

  datatype RequestBody = RequestBody(description: string, content: GoMaps.GoMap<string, MediaType>, required: bool)

  datatype Operation = Operation(
    tags: seq<string>,
    summary: string,
    description: string,
    operationId: string,
    parameters: seq<Parameter>,
    requestBody: Option<RequestBody>,
    responses: Responses)

  /** A Path Item Object: one optional operation per HTTP method. */
  datatype PathItem = PathItem(
    get: Option<Operation>,
    put: Option<Operation>,
    post: Option<Operation>,
    delete: Option<Operation>,
    options: Option<Operation>,
    head: Option<Operation>,
    patch: Option<Operation>,
    trace: Option<Operation>)

  const EmptyPathItem: PathItem := PathItem(None, None, None, None, None, None, None, None)

  datatype Contact = Contact(name: string, url: string, email: string)

  datatype License = License(name: string, identifier: string)

  datatype Info = Info(
    title: string,
    summary: string,
    description: string,
    termsOfService: string,
    contact: Option<Contact>,
    license: Option<License>,
    version: string)

  datatype Components = Components(schemas: GoMaps.GoMap<string, Schema>)

  /** The root OpenAPI Object. */
  datatype Document = Document(
    openapi: string,
    info: Info,
    paths: OrderedMaps.OrderedMap<string, PathItem>,
    components: Components)
}
