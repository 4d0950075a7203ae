/** The top-level builder (web.go): the document's metadata, the
    documentation routes, the TypeScript client, and `Server`, which builds
    the OpenAPI document from the registered routes, encodes it, and
    registers the handlers. Each builder method returns the outcome of its
    checks together with the builder it leaves behind; a panic leaves the
    builder as it was. */
module Web {
  import opened Wrappers
  import Text
  import opened Handlers
  import GoMaps
  import OrderedMaps
  import OpenApi
  import OpenApiSpec
  import Routes
  import Asserts
  import TypeScript
  import TsClient
  import TsGenerator

  datatype Info = Info(title: string, version: string, summary: string, description: string, termsOfService: string)

  datatype Contact = Contact(name: string, url: string, email: string)

  datatype License = License(name: string, identifier: string)

  datatype ExternalDocumentation = ExternalDocumentation(description: string, url: string)

  /** The documentation routes: where the document and the UI are served,
      and which UI. */
  datatype OpenApiConfig = OpenApiConfig(docPath: string, uiPath: string, uiVariant: string)

  /** Where the TypeScript client goes; the writer is outside the model. */
  datatype TypescriptApi = TypescriptApi(path: string)

  /** `Web`; `group` is represented by its route list. */
  datatype Web = Web(
    info: Info,
    contact: Option<Contact>,
    license: Option<License>,
    externalDocumentation: ExternalDocumentation,
    openapi: OpenApiConfig,
    typescriptApi: Option<TypescriptApi>,
    routes: seq<Routes.Route>)

  /** `NewWeb`: every field at its zero value and no routes. */
  const NewWeb: Web := Web(Info("", "", "", "", ""), None, None, ExternalDocumentation("", ""),
                           OpenApiConfig("", "", ""), None, [])

  /** `Web.Info`: the title is checked before the version. */
  function SetInfo(w: Web, info: Info): (r: (Asserts.Outcome, Web))
    ensures r.0 == Asserts.Pass <==> info.title != "" && info.version != ""
    ensures r.0 == Asserts.Pass ==> r.1 == w.(info := info)
    ensures r.0 != Asserts.Pass ==> r.1 == w
    ensures info.title == "" ==> r.0 == Asserts.Panic("Info.Title" + Asserts.MustNotBeEmpty)
    ensures info.title != "" && info.version == "" ==> r.0 == Asserts.Panic("Info.Version" + Asserts.MustNotBeEmpty)
  {
    var o := Asserts.AssertIsNotEmpty("Info.Title", info.title);
    var o := if o != Asserts.Pass then o else Asserts.AssertIsNotEmpty("Info.Version", info.version);
    if o == Asserts.Pass then (o, w.(info := info)) else (o, w)
  }

  function SetContact(w: Web, contact: Contact): Web {
    w.(contact := Some(contact))
  }

  function SetLicense(w: Web, license: License): Web {
    w.(license := Some(license))
  }

  /** `Web.ExternalDocumentation`: only the URL is required. */
  function SetExternalDocumentation(w: Web, doc: ExternalDocumentation): (r: (Asserts.Outcome, Web))
    ensures r.0 == Asserts.Pass <==> doc.url != ""
    ensures r.0 == Asserts.Pass ==> r.1 == w.(externalDocumentation := doc)
    ensures r.0 != Asserts.Pass ==> r.1 == w && r.0 == Asserts.Panic("ExternalDocumentation.Url" + Asserts.MustNotBeEmpty)
  {
    var o := Asserts.AssertIsNotEmpty("ExternalDocumentation.Url", doc.url);
    if o == Asserts.Pass then (o, w.(externalDocumentation := doc)) else (o, w)
  }

  /** `Web.OpenApi`: the document path, the UI path and the variant are
      checked in that order. The variant itself is not checked against the
      known ones. */
  function SetOpenApi(w: Web, cfg: OpenApiConfig): (r: (Asserts.Outcome, Web))
    ensures r.0 == Asserts.Pass <==> cfg.docPath != "" && cfg.uiPath != "" && cfg.uiVariant != ""
    ensures r.0 == Asserts.Pass ==> r.1 == w.(openapi := cfg)
    ensures r.0 != Asserts.Pass ==> r.1 == w
    ensures cfg.docPath == "" ==> r.0 == Asserts.Panic("OpenApi.DocPath" + Asserts.MustNotBeEmpty)
    ensures cfg.docPath != "" && cfg.uiPath == "" ==> r.0 == Asserts.Panic("OpenApi.UiPath" + Asserts.MustNotBeEmpty)
    ensures cfg.docPath != "" && cfg.uiPath != "" && cfg.uiVariant == "" ==>
      r.0 == Asserts.Panic("OpenApi.UiVariant" + Asserts.MustNotBeEmpty)
  {
    var o := Asserts.AssertIsNotEmpty("OpenApi.DocPath", cfg.docPath);
    var o := if o != Asserts.Pass then o else Asserts.AssertIsNotEmpty("OpenApi.UiPath", cfg.uiPath);
    var o := if o != Asserts.Pass then o else Asserts.AssertIsNotEmpty("OpenApi.UiVariant", cfg.uiVariant);
    if o == Asserts.Pass then (o, w.(openapi := cfg)) else (o, w)
  }

  function SetTypescriptApi(w: Web, api: TypescriptApi): Web {
    w.(typescriptApi := Some(api))
  }

  /** `Web.Use`, `Web.Static`, `Web.Group`: the root group's builders. */
  function Use(w: Web, use: Handlers.Use): Web {
    w.(routes := Routes.AddUse(w.routes, use))
  }

  function Static(w: Web, s: Routes.Static): Web {
    w.(routes := Routes.AddStatic(w.routes, s))
  }

  function Group(w: Web, inner: seq<Routes.Route>): Web {
    w.(routes := Routes.AddGroup(w.routes, inner))
  }

  /** `Web.Api`: the root group's `Api`, whose checks decide whether the
      entry is appended. */
  method Api(w: Web, api: Routes.Api) returns (o: Asserts.Outcome, w': Web)
    ensures o == Asserts.Pass <==>
      Text.ToUpper(api.httpMethod) in Routes.ApiMethods && |api.path| > 0 && api.handler.Some?
    ensures o == Asserts.Pass ==> w' == w.(routes := w.routes + [Routes.ApiEntry(api)])
    ensures o != Asserts.Pass ==> w' == w
  {
    var routes;
    o, routes := Routes.AddApi(w.routes, api);
    w' := w.(routes := routes);
  }

  /** `Info.openapiInfo`: the terms of service are dropped, and the contact
      and license are left for `Server` to fill in. */
  function OpenapiInfo(info: Info): (r: OpenApi.Info)
    ensures r.title == info.title && r.version == info.version
    ensures r.summary == info.summary && r.description == info.description
    ensures r.termsOfService == "" && r.contact.None? && r.license.None?
  {
    OpenApi.Info(info.title, info.summary, info.description, "", None, None, info.version)
  }

  function OpenapiContact(c: Contact): OpenApi.Contact {
    OpenApi.Contact(c.name, c.url, c.email)
  }

  function OpenapiLicense(l: License): OpenApi.License {
    OpenApi.License(l.name, l.identifier)
  }

  /** `OpenApi.httpHandler`: the UI page for the variant, matched exactly.
      Redoc is built without the title and the document URL; "scalar" and
      every unknown variant select Scalar. */
  function HttpHandler(cfg: OpenApiConfig, title: string): (h: Handler)
    ensures h.Ui?
    ensures h.page.Redoc? <==> cfg.uiVariant == "redoc"
    ensures h.page.Swagger? <==> cfg.uiVariant == "swagger"
    ensures !h.page.Redoc? ==> h.page.title == title && h.page.docUrl == cfg.docPath
  {
    match cfg.uiVariant
    case "redoc" => Ui(Redoc)
    case "swagger" => Ui(Swagger(title, cfg.docPath))
    case _ => Ui(Scalar(title, cfg.docPath))
  }

  /** The OpenAPI version every document declares. */
  const OpenApiVersion := "3.1.0"

  /** The root `openapiPaths` call: no middleware, an empty tag scope, no
      registrations and no components yet. */
  function RootWalk(w: Web, statusText: int -> string): (r: Result<Routes.State>)
    ensures r.Ok? ==> r.value.paths.Valid()
  {
    Routes.OpenapiPaths(w.routes, None, Routes.Tags([], []), [], [], statusText)
  }

  /** The document `Server` assembles before encoding it. */
  function Assemble(w: Web, st: Routes.State): (doc: OpenApi.Document)
    requires st.paths.Valid()
    ensures doc.paths.Valid()
  {
    var info := OpenapiInfo(w.info).(
      contact := if w.contact.Some? then Some(OpenapiContact(w.contact.value)) else None,
      license := if w.license.Some? then Some(OpenapiLicense(w.license.value)) else None);
    OpenApi.Document(OpenApiVersion, info, st.paths, OpenApi.Components(st.components))
  }

  /** The registrations `Server` adds after the routes': the document at
      `GET <docPath>` when there is a document path, and the UI at
      `GET <uiPath>` when there are both paths. */
  function DocBindings(cfg: OpenApiConfig, title: string): seq<Routes.Binding> {
    (if cfg.docPath != "" then [Routes.Binding("GET " + cfg.docPath, DocumentJson)] else [])
    + (if cfg.docPath != "" && cfg.uiPath != "" then [Routes.Binding("GET " + cfg.uiPath, HttpHandler(cfg, title))] else [])
  }

  /** What `Server` leaves behind: the mux registrations, the document as it
      stands after encoding (default responses marked into their status
      maps), its encoding, which the `DocumentJson` handler writes, and the
      TypeScript client when one was asked
      for. */
  datatype Served = Served(
    bindings: seq<Routes.Binding>,
    document: OpenApi.Document,
    encoded: OpenApiSpec.Json,
    typescript: Option<string>)

  /** `Web.Server`. The route walk, the encoding and the TypeScript
      generation can each panic, in that order; the first panic is the
      failure. */
  function Server(w: Web, statusText: int -> string): (r: Result<Served>)
    ensures RootWalk(w, statusText).Fail? ==> r == Fail(RootWalk(w, statusText).error)
    ensures r.Ok? ==> RootWalk(w, statusText).Ok? && w.info.title != "" && w.info.version != ""
    ensures RootWalk(w, statusText).Ok? && w.typescriptApi.None? ==>
      (r.Ok? <==> w.info.title != "" && w.info.version != ""
                  && OpenApiSpec.JsonEncodable(OpenApiSpec.DocumentJson(Assemble(w, RootWalk(w, statusText).value))))
    ensures r.Ok? ==> (r.value.typescript.Some? <==> w.typescriptApi.Some?)
  {
    var st :- RootWalk(w, statusText);
    Publish(w, st)
  }

  /** What `Server` does once the routes are walked. */
  function Publish(w: Web, st: Routes.State): (r: Result<Served>)
    requires st.paths.Valid()
    ensures r.Ok? ==> w.info.title != "" && w.info.version != ""
    ensures r.Ok? ==> OpenApiSpec.JsonEncodable(OpenApiSpec.DocumentJson(Assemble(w, st)))
    ensures w.typescriptApi.None? ==>
      (r.Ok? <==> w.info.title != "" && w.info.version != "" && OpenApiSpec.JsonEncodable(OpenApiSpec.DocumentJson(Assemble(w, st))))
    ensures r.Ok? ==> (r.value.typescript.Some? <==> w.typescriptApi.Some?)
  {
    var m := OpenApiSpec.MarshalDocument(Assemble(w, st));
    if m.0.Fail? then Fail(m.0.error)
    else
      var bindings := st.bindings + DocBindings(w.openapi, w.info.title);
      if w.typescriptApi.None? then Ok(Served(bindings, m.1, m.0.value, None))
      else
        var ts := TypeScript.Generate(m.1);
        if ts.Fail? then Fail(ts.error)
        else Ok(Served(bindings, m.1, m.0.value, Some(ts.value)))
  }

  /** The served document: version 3.1.0, the builder's metadata (contact
      and license only when set), the components the walk collected, the
      paths the walk produced in their order, and an encoding that starts
      with the version. The routes' registrations come first, then the
      documentation's. */
  lemma ServerDocument(w: Web, statusText: int -> string)
    requires Server(w, statusText).Ok?
    ensures var r := Server(w, statusText).value;
      var st := RootWalk(w, statusText).value;
      && r.document.openapi == OpenApiVersion
      && r.document.info == OpenapiInfo(w.info).(
           contact := if w.contact.Some? then Some(OpenapiContact(w.contact.value)) else None,
           license := if w.license.Some? then Some(OpenapiLicense(w.license.value)) else None)
      && r.document.components.schemas == st.components
      && r.document.paths.Valid() && r.document.paths.keys == st.paths.keys
      && r.bindings == st.bindings + DocBindings(w.openapi, w.info.title)
      && r.encoded.JObject? && r.encoded.members[0] == ("openapi", OpenApiSpec.JString(OpenApiVersion))
  {
    var st := RootWalk(w, statusText).value;
    assert Server(w, statusText) == Publish(w, st);
  }

  lemma ServerBindings(w: Web, statusText: int -> string)
    requires Server(w, statusText).Ok?
    ensures Server(w, statusText).value.bindings == RootWalk(w, statusText).value.bindings + DocBindings(w.openapi, w.info.title)
  {
    assert Server(w, statusText) == Publish(w, RootWalk(w, statusText).value);
  }

  /** The TypeScript client: produced exactly when the document encodes and
      every schema of the encoded document renders, and always ending with
      the fixed client code. */
  lemma ServerTypescript(w: Web, statusText: int -> string)
    requires RootWalk(w, statusText).Ok? && w.info.title != "" && w.info.version != ""
    requires w.typescriptApi.Some?
    ensures var doc := Assemble(w, RootWalk(w, statusText).value);
      Server(w, statusText).Ok? <==>
        OpenApiSpec.JsonEncodable(OpenApiSpec.DocumentJson(doc))
        && TypeScript.DocumentRenderable(OpenApiSpec.MarshalDocument(doc).1)
    ensures Server(w, statusText).Ok? ==>
      var ts := Server(w, statusText).value.typescript.value;
      |ts| >= |TsClient.Client| && ts[|ts| - |TsClient.Client|..] == TsClient.Client
  {
    var st := RootWalk(w, statusText).value;
    assert Server(w, statusText) == Publish(w, st);
    var m := OpenApiSpec.MarshalDocument(Assemble(w, st));
    if TypeScript.DocumentRenderable(m.1) {
      var p := TsGenerator.Strip(TypeScript.Emit(m.1).buf);
      assert (p + TsClient.Client)[|p|..] == TsClient.Client;
    }
  }

  /** The documentation patterns registered after the routes'. */
  function DocPatterns(cfg: OpenApiConfig): seq<string> {
    (if cfg.docPath != "" then ["GET " + cfg.docPath] else [])
    + (if cfg.docPath != "" && cfg.uiPath != "" then ["GET " + cfg.uiPath] else [])
  }

  /** Every pattern `Server` registers: the route tree's, in order, then
      the document's and the UI's. The document route is there iff the
      document path is set, the UI route iff both paths are. */
  lemma ServerPatterns(w: Web, statusText: int -> string)
    requires Server(w, statusText).Ok?
    ensures Routes.PatternsOf(Server(w, statusText).value.bindings) == Routes.Patterns(w.routes) + DocPatterns(w.openapi)
  {
    var st0 := Routes.State(OrderedMaps.Empty(), None, Routes.Tags([], []), [], []);
    assert RootWalk(w, statusText) == Routes.Walk(w.routes, st0, statusText);
    Routes.WalkPatterns(w.routes, st0, statusText);
    ServerBindings(w, statusText);
    assert Routes.PatternsOf(st0.bindings) == [];
    BindingsPatterns(Server(w, statusText).value.bindings, RootWalk(w, statusText).value.bindings, w.routes, w.openapi, w.info.title);
  }

  lemma BindingsPatterns(b: seq<Routes.Binding>, walked: seq<Routes.Binding>, routes: seq<Routes.Route>, cfg: OpenApiConfig, title: string)
    requires b == walked + DocBindings(cfg, title)
    requires Routes.PatternsOf(walked) == [] + Routes.Patterns(routes)
    ensures Routes.PatternsOf(b) == Routes.Patterns(routes) + DocPatterns(cfg)
  {
    Routes.PatternsOfAppend(walked, DocBindings(cfg, title));
    DocBindingPatterns(cfg, title);
    assert [] + Routes.Patterns(routes) == Routes.Patterns(routes);
  }

  lemma DocBindingPatterns(cfg: OpenApiConfig, title: string)
    ensures Routes.PatternsOf(DocBindings(cfg, title)) == DocPatterns(cfg)
  {
  }

  /** After a successful `Web.OpenApi` call both documentation routes are
      registered, the document's before the UI's. */
  lemma OpenApiBindsBoth(w: Web, cfg: OpenApiConfig)
    requires SetOpenApi(w, cfg).0 == Asserts.Pass
    ensures DocPatterns(SetOpenApi(w, cfg).1.openapi) == ["GET " + cfg.docPath, "GET " + cfg.uiPath]
  {
  }

  /** Without a `Web.OpenApi` call nothing documents the API: a fresh
      builder registers no documentation route. */
  lemma NoDocumentationByDefault()
    ensures DocPatterns(NewWeb.openapi) == []
  {
  }

  /** Encoding marks default responses into their status maps; the entry it
      adds is the default response, whose references already resolve. */
  lemma MarkDefaultRefs(rs: OpenApi.Responses, c: GoMaps.GoMap<string, OpenApi.Schema>)
    requires Routes.ResponsesRefsOk(rs, c)
    ensures Routes.ResponsesRefsOk(OpenApiSpec.MarkDefault(rs), c)
  {
    if rs.statusCodes.Some? && rs.defaultResponse.content.Some? {
      Routes.PutStatusRefsOk(rs.statusCodes.value, "default", rs.defaultResponse, c);
    }
  }

  lemma MarkItemRefs(p: OpenApi.PathItem, c: GoMaps.GoMap<string, OpenApi.Schema>)
    requires Routes.ItemRefsOk(p, c)
    ensures Routes.ItemRefsOk(OpenApiSpec.MarkPathItem(p), c)
  {
    forall n | Routes.SlotOf(OpenApiSpec.MarkPathItem(p), n).Some?
      ensures Routes.ResponsesRefsOk(Routes.SlotOf(OpenApiSpec.MarkPathItem(p), n).value.responses, c)
    {
      assert Routes.SlotOf(OpenApiSpec.MarkPathItem(p), n) == OpenApiSpec.MarkOperation(Routes.SlotOf(p, n));
      MarkDefaultRefs(Routes.SlotOf(p, n).value.responses, c);
    }
  }

  /** Reference integrity of the served document: every `$ref` in every
      operation's responses names a schema among the document's
      components. */
  lemma ServerRefsResolve(w: Web, statusText: int -> string)
    requires Server(w, statusText).Ok?
    ensures var doc := Server(w, statusText).value.document;
      Routes.PathsRefsOk(doc.paths, doc.components.schemas)
  {
    var st0 := Routes.State(OrderedMaps.Empty(), None, Routes.Tags([], []), [], []);
    Routes.WalkRefs(w.routes, st0, statusText);
    var st := RootWalk(w, statusText).value;
    var doc := Server(w, statusText).value.document;
    var m := OpenApiSpec.MarshalDocument(Assemble(w, st));
    assert Server(w, statusText) == Publish(w, st);
    assert doc == m.1;
    assert doc.paths == OrderedMaps.MapValues(st.paths, OpenApiSpec.MarkPathItem);
    forall i | 0 <= i < |doc.paths.values| ensures Routes.ItemRefsOk(doc.paths.values[i], st.components) {
      assert Routes.ItemRefsOk(st.paths.values[i], st.components);
      MarkItemRefs(st.paths.values[i], st.components);
    }
  }
}
