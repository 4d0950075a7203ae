# Instantan/web: the OpenAPI document and TypeScript client pipeline

`web` is a small Go library for building HTTP servers. An application
registers its routes on a `Web` builder: APIs with typed parameters and
responses, static file servers, middleware (`Use`), tags and nested
groups. `Web.Server()` then does three things:

- it walks the registered routes once, registering every handler on an
  `http.ServeMux`;
- it builds an OpenAPI 3.1.0 document at the same time, inferring JSON
  schemas from example Go values and moving named struct types into
  `components/schemas`;
- it serves that document and a documentation UI, and can write a
  TypeScript client generated from the document.

This project models that pipeline in Dafny:

- the builder checks (`assertIsOneOf`, `assertIsNotEmpty`,
  `assertIsNotNil`);
- the route walk (`openapiPaths`);
- the `Responses` and `ContentType` tables with their fixed iteration
  orders;
- `mergeDefaults` and `Chain`;
- schema inference;
- the ordered map;
- the custom JSON marshallers of the OpenAPI document;
- the SPA-mode response writer;
- the TypeScript text generator and its function naming.

The model makes these modelling choices:

- Go maps are association lists with distinct keys (`GoMaps`), and the
  list order stands for Go's unspecified iteration order. Properties that
  must hold for every order are stated without reference to it.
- `encoding/json` writes a Go map's members sorted by key (`KeyOrder`),
  and the model's JSON tree does the same. The paths object is an ordered
  map and keeps insertion order.
- The mux is the list of (pattern, handler) registrations it receives, and
  handlers are symbolic terms (`Handlers`).
- Go values passed as examples are a small reflection IR (`Values`).
- JSON output is a `Json` tree (`OpenApiSpec`).
- A panic is a `Fail` result, or an `Asserts.Outcome` that carries the
  panic message.

Modules follow the source files:

| module | file |
|---|---|
| `Web` | web.go |
| `Routes` | route.go |
| `Helpers` | helpers.go |
| `Asserts` | error.go |
| `RequestResponse` | request_response.go |
| `MediaTypes`, `ContentTypes` | content_type.go |
| `SpaMode` | http_file_server_spa_mode.go |
| `OpenApi`, `OpenApiSpec` | internal/openapi/openapi_spec.go and error.go |
| `OrderedMaps` | internal/openapi/orderedmap.go |
| `KeyOrder` | the key order `encoding/json` gives map members, used by internal/openapi/openapi_spec.go |
| `SchemaInference` | internal/openapi/schema.go and well_known_types.go |
| `TsGenerator` | internal/generate/generator.go |
| `TypeScript`, `TsClient` | internal/generate/typescript.go |
| `TsLayout` | internal/generate/typescript.go (the text it writes, as a reference layout) |
| `Naming` | internal/generate/naming.go |
| `TsHelpers` | internal/generate/helpers.go |

Several behaviours of the code are modelled as written, because the rest
of the library depends on them:

- `PathItem.IterateOperations` labels the POST operation `PATCH`.
- `Responses.Iterate` never yields status 400 and yields 503 twice.
- `Responses.MarshalJSON` writes the `default` response into the
  document's own status map, so the TypeScript generator, which runs
  after marshalling, sees it a second time under the key `default`.
- `mergeDefaults` copies the cookies again when a default has headers,
  and never merges headers.
- The TypeScript generator writes `body` for an optional request body and
  `body?` for a required one.

## Model

| member | source | states |
|---|---|---|
| Web.SetInfo | web.go:74-78 | Succeeds iff title and version are both non-empty. On success the info is stored; otherwise the builder is unchanged. The panic names the title first, then the version. |
| Web.SetExternalDocumentation | web.go:88-91 | Succeeds iff the URL is non-empty. On success it is stored; otherwise the builder is unchanged and the panic names `ExternalDocumentation.Url`. |
| Web.SetOpenApi | web.go:93-98 | Succeeds iff the document path, UI path and UI variant are all non-empty. The panic names the first empty field in that order, and a panic leaves the builder unchanged. |
| Web.Api | web.go:104-106 | Appends exactly one API route iff the upper-cased method is one of the eight accepted, the path is non-empty and the handler is set; otherwise the builder is unchanged. |
| Web.OpenapiInfo | web.go:185-192 | Copies title, version, summary and description. Terms of service, contact and license are left empty. |
| Web.HttpHandler | web.go:209-226 | Always a UI handler. Redoc iff the variant is `redoc`, Swagger iff it is `swagger`, Scalar for everything else. Swagger and Scalar get the title and the document URL. |
| Web.Server | web.go:124-183 | A failure of the route walk is passed through. Success requires a non-empty title and version. Without a TypeScript target it succeeds iff, in addition, the assembled document can be JSON-encoded (no channel, function, complex or non-finite float example value). A TypeScript client is produced iff one was requested. |
| Web.ServerDocument | web.go:140-166 | The served document has version 3.1.0, the converted info with contact and license exactly when they were set, the components and path keys collected by the walk, and the walk's bindings followed by the documentation routes. Its encoding starts with the `openapi` member. |
| Web.ServerTypescript | web.go:153-180 | With a TypeScript target, a title and a version, `Server` succeeds iff the document can be JSON-encoded and every schema the generator renders, in the document as marshalled, has items on its arrays. The client text ends with the fixed fetch client. |
| Web.ServerPatterns | web.go:158-167 | The mux receives the patterns of the registered routes in registration order, then `GET <docPath>` when a document path is set, then `GET <uiPath>` when both paths are set. |
| Web.ServerRefsResolve | web.go:127-150 | Every `$ref` in the served document's paths names a schema present in its components. |
| Web.MarkItemRefs | internal/openapi/openapi_spec.go:589-598 | Copying the `default` response into the status map keeps every reference of a path item resolvable. |
| Routes.AddApi | route.go:62-78 | Appends the route iff the method is accepted, the path is non-empty and the handler is set. The checks run in that order, with their panic messages. |
| Routes.AddToScope | route.go:103-106 | The tag is defined under its name, every other name keeps its definition, and the name is appended to the references. |
| Routes.OpenapiTags | route.go:108-117 | One OpenAPI tag per defined tag, with the same name and description, in map order. |
| Routes.FieldParams | route.go:154-165 | Succeeds iff every value's schema can be inferred. Gives one parameter per field, with its name, location, description, example, inferred schema, and `required` equal to not optional. |
| Routes.PathParams | route.go:166-177 | The same for path parameters, which are always required. |
| Routes.Parameters | route.go:154-201 | Succeeds iff all four groups succeed. The count is the sum of the group sizes. |
| Routes.ParameterAt | route.go:154-201 | Parameters come in the order cookie, path, query, header, and each one's `required` follows its group's rule. |
| Routes.MediaTypeOf | route.go:212-222 | Fails iff the value's schema cannot be inferred. The media type is the value's own (`MediaFor`), whatever components exist: an anonymous schema inline, a named one as a `#/components/schemas/<name>` reference, with the value as example. A named schema is stored in the components under its name, and the components only grow. |
| Routes.MediaTypesMap | route.go:211-223 | With distinct content types not yet in the map, the loop appends each content type with its value's media type, in yield order. |
| Routes.CreateResponse | route.go:203-229 | Fails iff some yielded value's schema cannot be inferred. Otherwise the response has the given description and maps each yielded content type to its value's media type, in table order. A value that is not a `ContentType` gives the single entry `application/json` with its own media type, or no entry when it is nil. References stay resolvable. |
| Routes.CollectResponsesLookup | route.go:231-237 | The loop fails iff some response value's media types cannot be inferred. The entry under a status's decimal text is the response built from the last value yielded with that status, described by the status text. `Default` is the response built from the value of status 0, described "Default". Keys no yielded status produces are untouched. |
| Routes.BuildOperation | route.go:129-237 | A request body fails. Otherwise the operation carries the scope's tags, id, summary, description and parameters, one status key per listed status, and a `Default` response exactly when the default is set. |
| Routes.BuildOperationResponses | route.go:203-237 | Without a request body, building fails iff a parameter or some response value cannot be inferred. The status entries and `Default` hold the responses built from their values, as `CollectResponsesLookup` states. |
| Routes.ResponseKeysExact | route.go:231-237 | Status s ≠ 0 gets a key iff it is a settable status other than 400 and its slot is set. |
| Routes.PlaceOperation | route.go:239-258 | Only the slot of the method is replaced. CONNECT goes to the TRACE slot, and an unknown method changes nothing. |
| Routes.StaticBinding | route.go:279-291 | Registers `GET <prefix>` with a prefix-stripping file server wrapped in the scope's middleware, behind the SPA redirect when SPA mode is on. |
| Routes.ApiStep | route.go:124-265 | The API's path gets the operation in its method's slot. Other paths and slots are unchanged, and the handler is registered under `<method> <path>`, wrapped in the scope's middleware. |
| Routes.WalkPaths | route.go:119-294 | The path keys after the walk are the earlier keys plus every API path in the routes, including nested groups. |
| Routes.WalkPatterns | route.go:119-294 | The walk registers the routes' patterns, API and static, in order, including nested groups. |
| Routes.WalkTags | route.go:266-278 | References grow by the tags of the current scope only; a group's own tags do not leak out. Definitions grow by every tag, nested ones included. |
| Routes.GroupStep | route.go:266-270 | A group keeps the outer middleware and references, and its paths override the outer ones. |
| Routes.SetPairsRefines | route.go:266-270 | Copying a group's paths into the ordered map equals putting them one by one into the association list. |
| Routes.WalkRefs | route.go:119-294 | Components only grow, and if every reference resolved before the walk, every reference resolves after it. |
| Routes.ItoaInjective | route.go:236 | Distinct statuses get distinct keys. |
| Helpers.RunChain | helpers.go:5-12 | The loop from the last middleware to the first gives the handler `Chain` describes. |
| Helpers.ChainOrder | helpers.go:5-12 | The first middleware is outermost, and an empty chain is the identity. |
| Helpers.ChainAppend | helpers.go:5-12 | Chaining a concatenation is nesting the two chains. |
| Helpers.MergeDefaults | helpers.go:14-49 | The merged header map is always empty, and the body is never optional. |
| Helpers.MergeMapsSpec | helpers.go:22-43 | Each query or cookie key maps to the value from the last default that supplies it. Header defaults contribute their cookies again. |
| Helpers.MergeBodySpec | helpers.go:22-28 | Description and value come from the last default with a non-empty description or a non-nil value. |
| Helpers.MergeResponsesSpec | helpers.go:44-46 | Each status slot comes from the last default that sets it, and 400 stays unset. |
| Asserts.AssertIsOneOf | error.go:5-12 | Passes iff the value is in the list; otherwise panics with `<value> must be one of <list>`. |
| Asserts.AssertIsNotEmpty | error.go:14-18 | Passes iff the value is non-empty; otherwise panics with `<name> must not be EMPTY`. |
| Asserts.AssertIsNotNil | error.go:20-24 | Passes iff the value is set; otherwise panics with `<name> must not be NIL`. |
| Asserts.FirstPanic | web.go:74-78 | A sequence of checks passes iff each passes; otherwise the first panic wins. |
| RequestResponse.Set | request_response.go:444-573 | Status 0 sets the default. A known status sets its slot and nothing else. Any other status is ignored. |
| RequestResponse.IterationOccurrences | request_response.go:124-442 | The iteration visits 503 twice, every other settable status except 400 once, and nothing else. |
| RequestResponse.ItemsCount | request_response.go:124-442 | A set status s ≠ 0 is yielded once (503 twice) unless it is 400. |
| RequestResponse.ItemsShape | request_response.go:124-130 | The default comes first as status 0 when set, and every yielded value is the slot of its status and is set. |
| RequestResponse.SetAllItemsIsOverlay | helpers.go:44-46 | Setting every yielded item overlays the set slots, except 400, onto the target. |
| RequestResponse.Iterate | request_response.go:124-442 | Stopping early yields a prefix of the full iteration. |
| ContentTypes.ItemsExactlyNonNil | content_type.go:34-157 | A content type is yielded iff its field is set. |
| ContentTypes.ItemsOrdered | content_type.go:34-157 | Yielded content types are distinct. They are exactly the set fields, each with its own value, at strictly increasing positions of the declaration table. |
| ContentTypes.IsContentType | content_type.go:159-171 | A `ContentType` or a pointer to one is recognised. Nil and any other value are not. |
| SpaMode.RunIsFilter | http_file_server_spa_mode.go:24-36 | A call reaches the real writer iff it sets a status other than 404, or writes while the status in force is not 404. The final status is the last one set. |
| SpaMode.WriteResult | http_file_server_spa_mode.go:31-36 | A swallowed write reports the full length as written. |
| SpaMode.Serve | http_file_server_spa_mode.go:12-22 | The handler runs again for `/`, with the HTML content type added, iff the first pass ends in 404. A 404 status never reaches the client. |
| OrderedMaps.Get | internal/openapi/orderedmap.go:14-20 | Found iff the key is present, with the associated value; otherwise the zero value. |
| OrderedMaps.Set | internal/openapi/orderedmap.go:22-38 | A new key is appended. An existing key keeps its position, with its value replaced. The invariant is kept. |
| OrderedMaps.SetRefinesPut | internal/openapi/orderedmap.go:22-38 | `Set` on the ordered map is `Put` on its association list. |
| OrderedMaps.GetAfterSet | internal/openapi/orderedmap.go:14-38 | Reading a key back after setting it gives the stored value; other keys are unaffected. |
| OrderedMaps.SetLen | internal/openapi/orderedmap.go:22-52 | The length grows by one exactly when the key is new. |
| OrderedMaps.IterateAll | internal/openapi/orderedmap.go:40-52 | A full iteration yields every pair in insertion order, and its length is `Len`. |
| OrderedMaps.MarshalJson | internal/openapi/orderedmap.go:54-80 | The first failing key or value encoding is returned. Otherwise the output is `{`, the `key:value` members in order joined by commas, then `}`. |
| OpenApiSpec.ValidateInfoIff | internal/openapi/openapi_spec.go:600-606 | Valid iff title and version are non-empty. The joined error lists the title before the version. |
| OpenApiSpec.RequireField | internal/openapi/error.go:7-12 | An error iff the value is empty, and the message names the field. |
| OpenApiSpec.MarshalDocument | internal/openapi/openapi_spec.go:600-609 | Fails iff the title or version is empty or some example value cannot be JSON-encoded (a channel, function, complex number or non-finite float). An empty title or version gives the marshaler error naming them. On success the encoding is the document's JSON tree, starting with the `openapi` member, with map members sorted by key and paths in insertion order; the path keys are unchanged. |
| OpenApiSpec.UnencodableComponentFails | internal/openapi/openapi_spec.go:600-609 | A component schema whose example is a channel, function or complex value makes marshalling fail. |
| OpenApiSpec.FuncFieldUnencodable | internal/openapi/schema.go:75-91 | A struct example, which is kept as the schema's example, cannot be encoded when it has an exported function-valued field. The same field unexported or tagged `-` is skipped by the encoder. |
| OpenApiSpec.SchemaRefShorthand | internal/openapi/openapi_spec.go:611-619 | A schema with a reference encodes as `{"$ref": ...}` alone, whatever its other fields. |
| OpenApiSpec.SchemaTypeNameHidden | internal/openapi/openapi_spec.go:611-619 | The type name is never encoded, and an inline schema starts with its `type`. |
| OpenApiSpec.MapJsonSorted | internal/openapi/openapi_spec.go:597 | A Go map's members are written in key order, strictly increasing because a Go map's keys are distinct. |
| OpenApiSpec.MapJsonEntries | internal/openapi/openapi_spec.go:597 | Every written member is one of the map's entries with its value encoded, and every entry is written. |
| OpenApiSpec.MapJsonKeys | internal/openapi/openapi_spec.go:597 | The member names are exactly the map's keys. |
| OpenApiSpec.MapJsonTwoEntries | internal/openapi/openapi_spec.go:597 | Two entries are written in key order, whichever was inserted first. |
| OpenApiSpec.ComponentsWrittenSorted | internal/openapi/openapi_spec.go:490 | Component schemas added as `User` then `Address` are written with `Address` first. |
| KeyOrder.StrictTotalOrder | internal/openapi/openapi_spec.go:597 | The key comparison is a strict total order: irreflexive, one way exactly for distinct keys, and transitive, also for "at or before". |
| KeyOrder.OrderPermutes | internal/openapi/openapi_spec.go:597 | The write order lists every entry exactly once, and distinct keys come out strictly increasing. |
| OpenApiSpec.ResponsesMarshalKeys | internal/openapi/openapi_spec.go:589-598 | The encoded keys are the status keys, plus `default` when the default has content. The map is left holding `default`, and marking twice is marking once. |
| OpenApiSpec.OperationsLabels | internal/openapi/openapi_spec.go:621-664 | Every present operation is yielded once. POST is labelled `PATCH`, and no label is `POST`. |
| OpenApiSpec.ResponseItems | internal/openapi/openapi_spec.go:666-679 | The default comes first as `0` when it has content, and the remaining items are exactly the status map's entries in its iteration order. Without default content the items are the status map's entries alone. |
| SchemaInference.GenerateSchema | internal/openapi/schema.go:32-110 | An inferred schema is inline, with a JSON type and items on every array. Only objects and strings carry a type name. |
| SchemaInference.InferFailsIff | internal/openapi/schema.go:32-110 | Inference fails iff the value reaches a nil `*time.Time`. |
| SchemaInference.StructSchema | internal/openapi/schema.go:75-101 | A struct is an object named after its type, with itself as example. Its properties are the exported fields not tagged `-`, under distinct names, each holding the schema of the last such field with that name. The required list holds the names without `omitempty`, in field order. |
| SchemaInference.StructPropertiesLookup | internal/openapi/schema.go:77-100 | The field loop gives each name the schema of its last kept field and leaves names no kept field has untouched. |
| SchemaInference.RequiredNamesIff | internal/openapi/schema.go:97-99 | A name is required iff some kept field with that name lacks `omitempty`. |
| SchemaInference.FieldName | internal/openapi/schema.go:85-92 | A tagged field is named by the tag up to its first comma. |
| SchemaInference.MapSchema | internal/openapi/schema.go:67-74 | A map is an anonymous object with one property per key, the last entry for a key winning. |
| SchemaInference.ArraySchema | internal/openapi/schema.go:56-66 | A list's items come from its first element, or from the element type's zero value when empty. |
| SchemaInference.PointerSchema | internal/openapi/schema.go:102-106 | A pointer is its target. A nil pointer is `null`, except a nil `*time.Time`, which fails. |
| SchemaInference.ScalarSchema | internal/openapi/schema.go:46-55 | Booleans, integers, floats and strings get their JSON type. Anything else is a string with its printed form as example. |
| SchemaInference.TimePointerSchema | internal/openapi/well_known_types.go:7-24 | A time and a pointer to one are the string type `Time` with the ISO text as example. |
| SchemaInference.SchemaOf | internal/openapi/schema.go:112-128 | An object with one property per parameter in the location, holding the schema of the last such parameter of that name. `required` lists the names of the required parameters in parameter order, duplicates included. |
| SchemaInference.ParamPropertiesLookup | internal/openapi/schema.go:118-126 | After the loop each name holds the schema of the last located parameter with that name, and any other name keeps its earlier entry. |
| SchemaInference.RequiredParamsIndices | internal/openapi/schema.go:118-124 | The required list is the names at the positions of the located required parameters, in order. |
| SchemaInference.ValuesToSchemas | internal/openapi/schema.go:24-30 | One schema per value, each the inferred one. It fails iff some inference fails. |
| TsHelpers.Must | internal/generate/helpers.go:8-13 | The value iff there is no error; otherwise a panic with it. |
| TsHelpers.CapitalizeRoundTrip | internal/generate/helpers.go:15-29 | Capitalising is idempotent, and uncapitalising undoes it on a lower-case initial. |
| TsHelpers.ExtractSchemaNameOfRef | internal/generate/helpers.go:31-37 | The name at the end of `<dir>/<name>` is read back exactly. |
| Naming.ClassifySegments | internal/generate/naming.go:41-61 | The loop gives the capitalised resource segments, and the placeholder names numbered from their second occurrence on. |
| Naming.GenerateFunctionName | internal/generate/naming.go:10-75 | Gives the action verb, then the resources, then `By` and the parameters joined by `And` when there are any. |
| Naming.NumberedAt | internal/generate/naming.go:49-53 | The k-th parameter is numbered by its count among the first k+1. |
| Naming.NoPlaceholders | internal/generate/naming.go:63-72 | A route without placeholders gives the action and the resources, with no `By`. |
| TsGenerator.Intent | internal/generate/generator.go:25-31 | Appends exactly goal minus current tabs and moves the current indentation to the goal when the goal is deeper. A line already at or past the goal is left alone: nothing is written and the indentation is unchanged. |
| TsGenerator.SchemaText | internal/generate/generator.go:138-175 | Rendering fails iff some array reached through properties and items has no items, and the failure is the nil-dereference panic. |
| TsGenerator.ComponentRefRendersName | internal/generate/generator.go:139-141 | A component reference renders as the component's name. |
| TsGenerator.StripUnionTail | internal/generate/generator.go:129-136 | Stripping removes the union bar written before the final marker, and leaves the rest of the text intact. |
| TsGenerator.StripWithoutPercent | internal/generate/generator.go:129-136 | A text without `%` has no marker to remove, so `bytes` returns it unchanged. |
| TsGenerator.StripKeepsTail | internal/generate/generator.go:129-136 | Text after the last marker without `%` is unchanged by stripping. |
| TsGenerator.StripKeepsHead | internal/generate/generator.go:129-136 | Stripping leaves a `%`-free head alone when no marker pattern can straddle the boundary. |
| Text.ReplaceAllKeepsHead | internal/generate/generator.go:129-136 | `bytes.ReplaceAll` on a head and a rest gives the head unchanged followed by the rest replaced, when no occurrence of the pattern can start in the head. |
| TsGenerator.PropertiesTextLines | internal/generate/generator.go:146-157 | The properties of an object render to one line per property, in map order. |
| TsGenerator.OptionalMark | internal/generate/generator.go:149-155 | A property line is `<indent>  <name>?: <type>;` iff the name is not required, and `<indent>  <name>: <type>;` iff it is. |
| TsGenerator.SchemaTextShapes | internal/generate/generator.go:143-163 | An object with properties renders as `{`, a newline, its property lines, the indentation and `}`. An array renders as its items' text followed by `[]`. |
| TypeScript.Emit | internal/generate/typescript.go:64-136 | Generation panics iff some rendered schema (a parameter group, content, response or component) has an array without items. |
| TypeScript.Generate | internal/generate/typescript.go:64-140 | Succeeds iff the document is renderable. The output is the stripped generated text followed by the fixed fetch client. |
| TypeScript.Preamble | internal/generate/typescript.go:65-71 | The text opens with the generated-code comment and a blank line, then, only for a document with a title, a block comment holding title and version. |
| TypeScript.EmitParams | internal/generate/typescript.go:86-101 | The params object fails only on a non-empty group that is not renderable. |
| TsLayout.EmitWrites | internal/generate/typescript.go:64-136 | The buffer before stripping is the header (and title block), then the interface text, then the type lines. |
| TsLayout.EmitInterfaceWrites | internal/generate/typescript.go:72-131 | With paths, `interface Api {` and a newline, then one signature per (route, operation) pair in path order and operation order, then `}` and a blank line. Without paths, nothing. |
| TsLayout.EmitOperationWrites | internal/generate/typescript.go:76-126 | One signature: `(api: {...}): Promise<...>;` with the response union, then a blank line. |
| TsLayout.EmitApiWrites | internal/generate/typescript.go:77-113 | The `api` argument holds `method: '<label>'`, `path: '<route>'`, the params object and the body line. |
| TsLayout.EmitParamsWrites | internal/generate/typescript.go:86-101 | The params object holds a `path`, `query` and `cookie` line only for a group with properties, in that order. The header line is `header: Record<string, string> & <type>` iff there are header parameters, and `header?: Record<string, string>` otherwise. |
| TsLayout.EmitBodyWrites | internal/generate/typescript.go:102-112 | A request body writes `body` when it is not required and `body?` when it is, then its content types as a union. No request body writes nothing. |
| TsLayout.EmitResponsesWrites | internal/generate/typescript.go:115-125 | One `{ status, body }` object per response item, in iteration order, each followed by a union bar. |
| TsLayout.EmitComponentsWrites | internal/generate/typescript.go:133-135 | One `type <name> = <type>` line per component schema, in map order. |
| TsLayout.EmitHeader | internal/generate/typescript.go:65-71 | The buffer begins with the generated-code comment and, for a titled document, the title block. |
| TsLayout.GeneratedText | internal/generate/typescript.go:64-140 | For a renderable document the output is exactly the generated-code comment, then the stripped reference layout, then the fetch client. |
| TsLayout.GeneratedInterface | internal/generate/typescript.go:64-140 | For a document with paths, the output begins with the header, the title block if any, and `interface Api {`. |
| Text.NatToStringRoundTrip | route.go:236 | The decimal text of a status parses back to it. |

## Left out

- Web.SetContact, Web.SetLicense, Web.SetTypescriptApi, Web.Use, Web.Static, Web.Group: these only store or append, so they carry no contract of their own; their effect is seen through `Server`.
- `Web.Defaults` calls `Group.Defaults`, which route.go does not define, and `Server` passes `Defaults{}` where `openapiPaths` expects a tag scope. The model leaves `Defaults` out, and the root walk starts with no middleware and an empty tag scope.
- Routes.PlaceOperation: a lower-case method passes the upper-cased check in `Api` but matches no slot, so the operation is dropped from the document. This is kept as written.
- Registering the same pattern twice makes `http.ServeMux` panic. The model records every registration and does not detect conflicts.
- `http.StatusText` is a parameter (`statusText`) rather than Go's table.
- Text.ToUpper, TsHelpers.Capitalize: case mapping is ASCII-only; Go maps all of Unicode.
- Go's map iteration order in `range` loops is unspecified. The model uses the association list's order, and orderless properties are stated without it. This does not apply to encoding, where `encoding/json` sorts map keys and the model does too.
- Routes.BuildOperation: an API with a request body fails. The code writes through the nil `RequestBody` pointer, which panics, so no successful path exists for it.
- The TypeScript writer and `openOrCreateFile` are I/O and are left out. `Served.typescript` holds the text that would be written.
- JSON text encoding of the document is a `Json` tree. Character escaping and number formatting are not modelled.
- OpenApiSpec.MarshalDocument: the failure for an unencodable example carries a fixed stand-in for `encoding/json`'s error text. `Responses.MarshalJSON` calls that ran before the failure have already added `default` to their status maps; the model returns the document unchanged on failure.
- OpenApiSpec.MarshalDocument: only the values `encoding/json` rejects by kind (channels, functions, complex numbers) or by value (NaN and infinite floats) make encoding fail. Map key kinds and the year range of `time.Time` are not checked.
- TsLayout.GeneratedInterface: stated for a title without `%`. A `%` in the title could form a marker with the text after it.
- The HTML of the Redoc, Swagger and Scalar pages is not modelled; the UI handler is a term naming the page, title and document URL.
- `writeSchemaToBuffer` with a negative indentation level would make `strings.Repeat` panic. It is never called with one; the model clamps the level at 0.
- The parts of the OpenAPI document that `Server` never fills (servers, security, webhooks, external docs, the other component maps) are not modelled.

