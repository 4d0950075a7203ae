/** `GenerateTypescriptModels` (internal/generate/typescript.go): the
    generated header, an `Api` interface with one call signature per
    operation, one type alias per component schema, and the fixed fetch
    client, with the markers stripped at the end. Go map iteration (request
    and response content, components) follows the association list's
    order. */
module TypeScript {
  import opened Wrappers
  import opened OpenApi
  import GoMaps
  import OrderedMaps
  import OpenApiSpec
  import SchemaInference
  import opened TsGenerator
  import opened TsClient

  /** The schemas of an operation's parameter object that are rendered:
      path, query and cookie only when they have properties; the header
      schema, likewise. */
  predicate ParamsOk(op: Operation) {
    (|SchemaInference.PathSchema(op).properties| > 0 ==> Renderable(SchemaInference.PathSchema(op))) &&
    (|SchemaInference.QuerySchema(op).properties| > 0 ==> Renderable(SchemaInference.QuerySchema(op))) &&
    (|SchemaInference.CookieSchema(op).properties| > 0 ==> Renderable(SchemaInference.CookieSchema(op))) &&
    (|SchemaInference.HeaderSchema(op).properties| > 0 ==> Renderable(SchemaInference.HeaderSchema(op)))
  }

  predicate ContentsOk(content: GoMaps.GoMap<string, MediaType>) {
    forall i :: 0 <= i < |content| ==> Renderable(content[i].1.schema)
  }

  predicate BodyOk(op: Operation) {
    op.requestBody.Some? ==> ContentsOk(op.requestBody.value.content)
  }

  predicate ResponseOk(resp: Response) {
    resp.content.Some? ==> ContentsOk(resp.content.value)
  }

  predicate ResponsesOk(items: seq<(string, Response)>) {
    forall i :: 0 <= i < |items| ==> ResponseOk(items[i].1)
  }

  predicate OperationOk(op: Operation) {
    ParamsOk(op) && BodyOk(op) && ResponsesOk(OpenApiSpec.ResponseItems(op.responses))
  }

  predicate OperationsOk(ops: seq<(string, Operation)>) {
    forall i :: 0 <= i < |ops| ==> OperationOk(ops[i].1)
  }

  predicate PathOk(item: PathItem) {
    OperationsOk(OpenApiSpec.Operations(item))
  }

  predicate PathsOk(pairs: GoMaps.GoMap<string, PathItem>) {
    forall i :: 0 <= i < |pairs| ==> PathOk(pairs[i].1)
  }

  predicate ComponentsOk(schemas: GoMaps.GoMap<string, Schema>) {
    forall i :: 0 <= i < |schemas| ==> Renderable(schemas[i].1)
  }

  /** Every schema the generator renders has items on its arrays. */
  predicate DocumentRenderable(doc: Document)
    requires doc.paths.Valid()
  {
    PathsOk(doc.paths.Pairs()) && ComponentsOk(doc.components.schemas)
  }

  /** `name(x).colon().schema(s).newline()` for a non-empty parameter group. */
  function EmitGroup(g: Gen, key: string, s: Schema): (r: Gen)
    ensures Follows(g, r, |s.properties| > 0 ==> Renderable(s))
  {
    if |s.properties| > 0 then Newline(EmitSchema(Colon(Name(g, key)), s)) else g
  }

  /** The `params` member: path, query and cookie groups, then the headers,
      typed as a plain string record when there are none. */
  function EmitParams(g: Gen, op: Operation): (r: Gen)
    ensures Follows(g, r, ParamsOk(op))
  {
    var header := SchemaInference.HeaderSchema(op);
    var g0 := Open(Colon(Name(g, "params")));
    var g1 := EmitGroup(g0, "path", SchemaInference.PathSchema(op));
    var g2 := EmitGroup(g1, "query", SchemaInference.QuerySchema(op));
    var g3 := EmitGroup(g2, "cookie", SchemaInference.CookieSchema(op));
    var g4 :=
      if |header.properties| > 0 then EmitSchema(Write(Colon(Name(g3, "header")), "Record<string, string> & "), header)
      else Write(Colon(Name(g3, "header?")), "Record<string, string>");
    Close(g4)
  }

  /** One `schema | ` line per request body content type. */
  function EmitBodyContents(g: Gen, content: GoMaps.GoMap<string, MediaType>): (r: Gen)
    ensures Follows(g, r, ContentsOk(content))
    decreases |content|
  {
    if |content| == 0 then g
    else
      var r := EmitBodyContents(Newline(Union(EmitSchema(g, content[0].1.schema))), content[1..]);
      assert ContentsOk(content) <==> Renderable(content[0].1.schema) && ContentsOk(content[1..]) by {
        assert forall i :: 0 < i < |content| ==> content[i] == content[1..][i - 1];
      }
      r
  }

  /** The `body` member of a request with a body. As written, a body that
      is not required is declared without `?` and a required one with it. */
  function EmitBody(g: Gen, op: Operation): (r: Gen)
    ensures Follows(g, r, BodyOk(op))
  {
    if op.requestBody.None? then g
    else
      var b := op.requestBody.value;
      Mark(EmitBodyContents(Colon(Name(g, if !b.required then "body" else "body?")), b.content))
  }

  /** The `api` argument: method, path, parameters and body. */
  function EmitApi(g: Gen, route: string, verb: string, op: Operation): (r: Gen)
    ensures Follows(g, r, ParamsOk(op) && BodyOk(op))
  {
    var g1 := Open(Colon(Name(g, "api")));
    var g2 := Newline(Write(Colon(Name(g1, "method")), "'" + verb + "'"));
    var g3 := Newline(Write(Colon(Name(g2, "path")), "'" + route + "'"));
    Close(EmitBody(EmitParams(g3, op), op))
  }

  /** `schema | ` per media type of a response. */
  function EmitMedia(g: Gen, content: GoMaps.GoMap<string, MediaType>): (r: Gen)
    ensures Follows(g, r, ContentsOk(content))
    decreases |content|
  {
    if |content| == 0 then g
    else
      var r := EmitMedia(Union(EmitSchema(g, content[0].1.schema)), content[1..]);
      assert ContentsOk(content) <==> Renderable(content[0].1.schema) && ContentsOk(content[1..]) by {
        assert forall i :: 0 < i < |content| ==> content[i] == content[1..][i - 1];
      }
      r
  }

  /** One member of the result union: `{ status: code, body: types }`. */
  function EmitResponse(g: Gen, code: string, resp: Response): (r: Gen)
    ensures Follows(g, r, ResponseOk(resp))
  {
    var g1 := Open(g);
    var g2 := Newline(Write(Colon(Name(g1, "status")), code));
    var g3 := Colon(Name(g2, "body"));
    Union(Close(Mark(EmitMedia(g3, resp.content.GetOr([])))))
  }

  function EmitResponses(g: Gen, items: seq<(string, Response)>): (r: Gen)
    ensures Follows(g, r, ResponsesOk(items))
    decreases |items|
  {
    if |items| == 0 then g
    else
      var r := EmitResponses(EmitResponse(g, items[0].0, items[0].1), items[1..]);
      assert ResponsesOk(items) <==> ResponseOk(items[0].1) && ResponsesOk(items[1..]) by {
        assert forall i :: 0 < i < |items| ==> items[i] == items[1..][i - 1];
      }
      r
  }

  lemma OperationsOkCons(ops: seq<(string, Operation)>)
    requires |ops| > 0
    ensures OperationsOk(ops) <==> OperationOk(ops[0].1) && OperationsOk(ops[1..])
  {
    assert forall i :: 0 < i < |ops| ==> ops[i] == ops[1..][i - 1];
  }

  /** One call signature: `(api: {...}): Promise<...>;` and a blank line. */
  function EmitOperation(g: Gen, route: string, verb: string, op: Operation): (r: Gen)
    ensures Follows(g, r, OperationOk(op))
  {
    var g1 := Write(Intent(g), "(");
    var g2 := Write(EmitApi(g1, route, verb, op), ")");
    var g3 := Write(Name(Colon(g2), "Promise"), "<");
    var g4 := Write(Mark(EmitResponses(g3, OpenApiSpec.ResponseItems(op.responses))), ">");
    Newline(Newline(Write(g4, ";")))
  }

  /** The operations of one path, in `IterateOperations` order. */
  function EmitOperations(g: Gen, route: string, ops: seq<(string, Operation)>): (r: Gen)
    ensures Follows(g, r, OperationsOk(ops))
    decreases |ops|
  {
    if |ops| == 0 then g
    else
      var r := EmitOperations(EmitOperation(g, route, ops[0].0, ops[0].1), route, ops[1..]);
      OperationsOkCons(ops);
      r
  }

  function EmitPaths(g: Gen, pairs: GoMaps.GoMap<string, PathItem>): (r: Gen)
    ensures Follows(g, r, PathsOk(pairs))
    decreases |pairs|
  {
    if |pairs| == 0 then g
    else
      var r := EmitPaths(EmitOperations(g, pairs[0].0, OpenApiSpec.Operations(pairs[0].1)), pairs[1..]);
      assert PathsOk(pairs) <==> PathOk(pairs[0].1) && PathsOk(pairs[1..]) by {
        assert forall i :: 0 < i < |pairs| ==> pairs[i] == pairs[1..][i - 1];
      }
      r
  }

  /** `type Name = schema` per component. */
  function EmitComponents(g: Gen, schemas: GoMaps.GoMap<string, Schema>): (r: Gen)
    ensures Follows(g, r, ComponentsOk(schemas))
    decreases |schemas|
  {
    if |schemas| == 0 then g
    else
      var g1 := Write(Write(Name(g, "type"), " "), schemas[0].0);
      var g2 := Newline(EmitSchema(Write(g1, " = "), schemas[0].1));
      var r := EmitComponents(g2, schemas[1..]);
      assert ComponentsOk(schemas) <==> Renderable(schemas[0].1) && ComponentsOk(schemas[1..]) by {
        assert forall i :: 0 < i < |schemas| ==> schemas[i] == schemas[1..][i - 1];
      }
      r
  }

  /** The `Api` interface, present only when there are paths. */
  function EmitInterface(g: Gen, paths: OrderedMaps.OrderedMap<string, PathItem>): (r: Gen)
    requires paths.Valid()
    ensures Follows(g, r, PathsOk(paths.Pairs()))
  {
    if OrderedMaps.Len(paths) > 0 then
      var g1 := Open(Write(Name(Write(Name(g, "interface"), " "), "Api"), " "));
      Newline(Newline(Close(Mark(EmitPaths(g1, paths.Pairs())))))
    else
      assert paths.Pairs() == [];
      g
  }

  /** The generated-code comment and a blank line open the text. */
  const Header := "// " + GeneratedNote + "\n" + "\n"

  /** The text of the generated-code comment, in two literals because the
      solver checks a character fact on two short literals more cheaply than
      on one long one. */
  const GeneratedNote := "Code generated " + "by web DO NOT EDIT"

  /** No `%` occurs in the generated-code comment. */
  lemma HeaderClean()
    ensures '%' !in Header
  {
  }

  /** The block comment a titled document opens with. */
  function TitleBlock(info: Info): string {
    "/**\n" + (" *  " + info.title + " " + info.version + "\n") + "*/" + "\n"
  }

  /** The opening of the text: the generated-code comment, then, for a
      document with a title, a block comment naming title and version. */
  function Preamble(info: Info): (r: Gen)
    ensures r.goal == 0 && r.current == 0 && r.failure.None?
    ensures info.title == "" ==> r.buf == Header
    ensures info.title != "" ==> r.buf == Header + TitleBlock(info)
  {
    var g0 := Newline(Comment(Fresh, GeneratedNote));
    assert Intent(Fresh) == Fresh;
    assert g0.buf == Header;
    if info.title != "" then
      var line := info.title + " " + info.version;
      assert DocLines([line]) == " *  " + line + "\n" + DocLines([]) == " *  " + line + "\n";
      Doc(g0, [line])
    else g0
  }

  /** The buffer before stripping. */
  function Emit(doc: Document): (r: Gen)
    requires doc.paths.Valid()
    ensures r.failure.None? <==> DocumentRenderable(doc)
  {
    EmitComponents(EmitInterface(Preamble(doc.info), doc.paths), doc.components.schemas)
  }

  /** Stripping markers never reaches into the client. */
  lemma StripKeepsClient(b: string)
    ensures Strip(b + Client) == Strip(b) + Client
  {
    ClientHasNoMarker();
    StripKeepsTail(b, Client);
  }

  /** The last two steps: the client appended and the markers stripped, or
      the panic that aborted generation. The client always closes the text
      verbatim: stripping the markers never reaches into it. */
  function Finish(g: Gen): (r: Result<string>)
    ensures r.Ok? <==> g.failure.None?
    ensures r.Ok? ==> r.value == Strip(g.buf) + Client
  {
    if g.failure.Some? then Fail(g.failure.value)
    else
      StripKeepsClient(g.buf);
      Ok(Strip(g.buf + Client))
  }

  /** `GenerateTypescriptModels`: the text, or the panic of a schema whose
      array has no items. */
  function Generate(doc: Document): (r: Result<string>)
    requires doc.paths.Valid()
    ensures r.Ok? <==> DocumentRenderable(doc)
    ensures r.Ok? ==> r.value == Strip(Emit(doc).buf) + Client
  {
    Finish(Emit(doc))
  }
}
