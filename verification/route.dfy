/** Route registration and the OpenAPI paths it produces (route.go): the
    `Group` builder, the tag scopes, and `openapiPaths`, which walks the
    registered routes once and both fills the OpenAPI `Paths` object and
    registers handlers on the mux. The mux is modelled by the list of
    (pattern, handler) registrations it receives. */
module Routes {
  import opened Wrappers
  import opened Text
  import opened Values
  import opened ContentTypes
  import opened Handlers
  import GoMaps
  import OrderedMaps
  import OpenApi
  import SchemaInference
  import RR = RequestResponse
  import Helpers
  import Asserts

  /** `Tag`, as route.go reads it: a name and a description. */
  datatype Tag = Tag(name: string, description: string)

  /** `Api`. A nil `Handler` is `None`. */
  datatype Api = Api(
    httpMethod: string,
    path: string,
    operationId: string,
    summary: string,
    description: string,
    parameter: RR.Parameter,
    responses: RR.Responses,
    handler: Option<Handler>)

  /** `Static`; the file system is named by a string. */
  datatype Static = Static(
    pathPrefix: string,
    tags: seq<string>,
    summary: string,
    description: string,
    fs: string,
    spaMode: bool)

  /** `route`: exactly one of its pointers is set by each builder method. */
  datatype Route =
    | UseEntry(use: Use)
    | ApiEntry(api: Api)
    | StaticEntry(files: Static)
    | TagEntry(tag: Tag)
    | GroupEntry(routes: seq<Route>)

  /** The methods `Group.Api` accepts (after upper-casing). */
  const ApiMethods: seq<string> := ["GET", "HEAD", "POST", "PUT", "PATCH", "DELETE", "OPTIONS", "TRACE"]

  /** `Group.Use`, `Group.Tag`, `Group.Static`: one entry appended. */
  function AddUse(routes: seq<Route>, use: Use): seq<Route> {
    routes + [UseEntry(use)]
  }

  function AddTag(routes: seq<Route>, tag: Tag): seq<Route> {
    routes + [TagEntry(tag)]
  }

  function AddStatic(routes: seq<Route>, s: Static): seq<Route> {
    routes + [StaticEntry(s)]
  }

  /** `Group.Group`: the callback has filled a fresh group, which is then
      appended as one entry. */
  function AddGroup(routes: seq<Route>, inner: seq<Route>): seq<Route> {
    routes + [GroupEntry(inner)]
  }

  /** `Group.Api`: the three checks run in order and the first that fails
      panics; only when all pass is the entry appended. The method is
      checked upper-cased, but the entry keeps it as given. */
  method AddApi(routes: seq<Route>, api: Api) returns (o: Asserts.Outcome, routes': seq<Route>)
    ensures o == Asserts.Pass <==> ToUpper(api.httpMethod) in ApiMethods && |api.path| > 0 && api.handler.Some?
    ensures o == Asserts.Pass ==> routes' == routes + [ApiEntry(api)]
    ensures o != Asserts.Pass ==> routes' == routes
    ensures ToUpper(api.httpMethod) !in ApiMethods ==>
      o == Asserts.Panic(ToUpper(api.httpMethod) + " must be one of " + Asserts.FormatList(ApiMethods))
    ensures ToUpper(api.httpMethod) in ApiMethods && |api.path| == 0 ==>
      o == Asserts.Panic("Api.Path" + Asserts.MustNotBeEmpty)
  {
    o := Asserts.AssertIsOneOf(ToUpper(api.httpMethod), ApiMethods);
    if o == Asserts.Pass {
      o := Asserts.AssertIsNotEmpty("Api.Path", api.path);
      if o == Asserts.Pass {
        o := Asserts.AssertIsNotNil("Api.Handler", api.handler);
      }
    }
    routes' := if o == Asserts.Pass then routes + [ApiEntry(api)] else routes;
  }

  /** `tags`: the tag definitions, shared by every scope of one walk, and
      the names in force in the current scope. `clone` copies the names and
      shares the definitions, so in this value model a nested scope starts
      from the same value and hands back only its definitions. */
  datatype Tags = Tags(defs: GoMaps.GoMap<string, Tag>, references: seq<string>)

  /** `tags.add`: defines the tag (replacing an earlier one of that name)
      and brings it into scope. */
  function AddToScope(t: Tags, tag: Tag): (t': Tags)
    ensures GoMaps.Lookup(t'.defs, tag.name) == Some(tag)
    ensures GoMaps.Domain(t'.defs) == GoMaps.Domain(t.defs) + {tag.name}
    ensures forall n :: n != tag.name ==> GoMaps.Lookup(t'.defs, n) == GoMaps.Lookup(t.defs, n)
    ensures |t'.references| == |t.references| + 1 && t'.references[..|t.references|] == t.references
    ensures t'.references[|t.references|] == tag.name
  {
    var defs := GoMaps.Put(t.defs, tag.name, tag);
    forall n | n != tag.name ensures GoMaps.Lookup(defs, n) == GoMaps.Lookup(t.defs, n) {
      GoMaps.PutFrame(t.defs, tag.name, tag, n);
    }
    Tags(defs, t.references + [tag.name])
  }

  /** `tags.openapiTags`: one OpenAPI tag per definition. */
  function OpenapiTags(t: Tags): (r: seq<(string, string)>)
    ensures |r| == |t.defs|
    ensures forall i :: 0 <= i < |r| ==> r[i] == (t.defs[i].1.name, t.defs[i].1.description)
  {
    seq(|t.defs|, i requires 0 <= i < |t.defs| => (t.defs[i].1.name, t.defs[i].1.description))
  }

  /** `strconv.Itoa`. */
  function Itoa(n: int): string {
    if n < 0 then "-" + NatToString(-n) else NatToString(n)
  }

  /** The prefix of every reference to a named component schema. */
  const SchemaRefPrefix: string := "#/components/schemas/"

  /** The cookie, query and header loops: one parameter per entry, in map
      order, required unless the entry is optional, with the schema of its
      value and the value as example. A panic while inferring a schema is a
      failure. */
  function FieldParams(fields: GoMaps.GoMap<string, RR.Field>, location: string): (r: Result<seq<OpenApi.Parameter>>)
    ensures r.Ok? <==> forall i :: 0 <= i < |fields| ==> SchemaInference.GenerateSchema(fields[i].1.value).Ok?
    ensures r.Ok? ==> |r.value| == |fields|
    ensures r.Ok? ==> forall i :: 0 <= i < |fields| ==>
      && r.value[i].name == fields[i].0
      && r.value[i].location == location
      && r.value[i].description == fields[i].1.description
      && r.value[i].required == !fields[i].1.optional
      && r.value[i].example == fields[i].1.value
      && SchemaInference.GenerateSchema(fields[i].1.value) == Ok(r.value[i].schema)
    decreases |fields|
  {
    if |fields| == 0 then Ok([])
    else
      var f := fields[0].1;
      var s := SchemaInference.GenerateSchema(f.value);
      var rest := FieldParams(fields[1..], location);
      assert forall i :: 1 <= i < |fields| ==> fields[i] == fields[1..][i - 1];
      if s.Fail? then Fail(s.error)
      else if rest.Fail? then Fail(rest.error)
      else Ok([OpenApi.Parameter(fields[0].0, location, f.description, !f.optional, s.value, f.value)] + rest.value)
  }

  /** The path loop: like `FieldParams`, but every path parameter is
      required. */
  function PathParams(params: GoMaps.GoMap<string, RR.PathParam>): (r: Result<seq<OpenApi.Parameter>>)
    ensures r.Ok? <==> forall i :: 0 <= i < |params| ==> SchemaInference.GenerateSchema(params[i].1.value).Ok?
    ensures r.Ok? ==> |r.value| == |params|
    ensures r.Ok? ==> forall i :: 0 <= i < |params| ==>
      && r.value[i].name == params[i].0
      && r.value[i].location == "path"
      && r.value[i].description == params[i].1.description
      && r.value[i].required
      && r.value[i].example == params[i].1.value
      && SchemaInference.GenerateSchema(params[i].1.value) == Ok(r.value[i].schema)
    decreases |params|
  {
    if |params| == 0 then Ok([])
    else
      var p := params[0].1;
      var s := SchemaInference.GenerateSchema(p.value);
      var rest := PathParams(params[1..]);
      assert forall i :: 1 <= i < |params| ==> params[i] == params[1..][i - 1];
      if s.Fail? then Fail(s.error)
      else if rest.Fail? then Fail(rest.error)
      else Ok([OpenApi.Parameter(params[0].0, "path", p.description, true, s.value, p.value)] + rest.value)
  }

  /** The operation's parameter list: cookies, then path parameters, then
      query parameters, then headers. It fails iff a value's schema cannot
      be inferred. */
  function Parameters(p: RR.Parameter): (r: Result<seq<OpenApi.Parameter>>)
    ensures r.Ok? <==> && FieldParams(p.cookie, "cookie").Ok? && PathParams(p.path).Ok?
                       && FieldParams(p.query, "query").Ok? && FieldParams(p.header, "header").Ok?
    ensures r.Ok? ==> |r.value| == |p.cookie| + |p.path| + |p.query| + |p.header|
  {
    var c :- FieldParams(p.cookie, "cookie");
    var pa :- PathParams(p.path);
    var q :- FieldParams(p.query, "query");
    var h :- FieldParams(p.header, "header");
    Ok(c + pa + q + h)
  }

  /** The parameter at position `i`: its location is that of the group the
      position falls in, and it is required iff it is a path parameter or
      its entry is not optional. */
  lemma ParameterAt(p: RR.Parameter, i: nat)
    requires Parameters(p).Ok? && i < |Parameters(p).value|
    ensures Parameters(p).value[i].location ==
      if i < |p.cookie| then "cookie"
      else if i < |p.cookie| + |p.path| then "path"
      else if i < |p.cookie| + |p.path| + |p.query| then "query"
      else "header"
    ensures Parameters(p).value[i].required <==>
      if i < |p.cookie| then !p.cookie[i].1.optional
      else if i < |p.cookie| + |p.path| then true
      else if i < |p.cookie| + |p.path| + |p.query| then !p.query[i - |p.cookie| - |p.path|].1.optional
      else !p.header[i - |p.cookie| - |p.path| - |p.query|].1.optional
  {
    var c := FieldParams(p.cookie, "cookie").value;
    var pa := PathParams(p.path).value;
    var q := FieldParams(p.query, "query").value;
    var h := FieldParams(p.header, "header").value;
    assert Parameters(p).value == c + pa + q + h;
    ConcatFourAt(c, pa, q, h, i);
  }

  /** An index into four sequences laid end to end. */
  lemma ConcatFourAt<T>(a: seq<T>, b: seq<T>, c: seq<T>, d: seq<T>, i: nat)
    requires i < |a + b + c + d|
    ensures (a + b + c + d)[i] ==
      if i < |a| then a[i] else if i < |a| + |b| then b[i - |a|]
      else if i < |a| + |b| + |c| then c[i - |a| - |b|] else d[i - |a| - |b| - |c|]
  {
  }

  /** Whether a schema that refers to a component names one that exists. */
  predicate SchemaRefOk(s: OpenApi.Schema, components: GoMaps.GoMap<string, OpenApi.Schema>) {
    s.ref != "" ==> StartsWith(s.ref, SchemaRefPrefix) && s.ref[|SchemaRefPrefix|..] in GoMaps.Domain(components)
  }

  predicate MediaRefsOk(mts: GoMaps.GoMap<string, OpenApi.MediaType>, components: GoMaps.GoMap<string, OpenApi.Schema>) {
    forall i :: 0 <= i < |mts| ==> SchemaRefOk(mts[i].1.schema, components)
  }

  predicate ResponseRefsOk(r: OpenApi.Response, components: GoMaps.GoMap<string, OpenApi.Schema>) {
    r.content.Some? ==> MediaRefsOk(r.content.value, components)
  }

  predicate StatusRefsOk(codes: GoMaps.GoMap<string, OpenApi.Response>, components: GoMaps.GoMap<string, OpenApi.Schema>) {
    forall i :: 0 <= i < |codes| ==> ResponseRefsOk(codes[i].1, components)
  }

  predicate ResponsesRefsOk(rs: OpenApi.Responses, components: GoMaps.GoMap<string, OpenApi.Schema>) {
    ResponseRefsOk(rs.defaultResponse, components) && (rs.statusCodes.Some? ==> StatusRefsOk(rs.statusCodes.value, components))
  }

  /** The media type a value is described by, whatever components exist:
      its inferred schema inline, or a reference to the schema's type name,
      with the value itself as the example. */
  function MediaFor(v: Value): Result<OpenApi.MediaType> {
    var s :- SchemaInference.GenerateSchema(v);
    if s.typeName == "" then Ok(OpenApi.MediaType(s, v))
    else Ok(OpenApi.MediaType(OpenApi.RefTo(SchemaRefPrefix + s.typeName), v))
  }

  /** The media type for one yielded (MIME type, value): a schema without a
      type name is inlined; a named one is replaced by a reference and
      stored among the components under its name. */
  function MediaTypeOf(v: Value, components: GoMaps.GoMap<string, OpenApi.Schema>): (r: Result<(OpenApi.MediaType, GoMaps.GoMap<string, OpenApi.Schema>)>)
    ensures r.Ok? <==> SchemaInference.GenerateSchema(v).Ok?
    ensures r.Ok? ==> r.value.0.example == v
    ensures r.Ok? ==> MediaFor(v) == Ok(r.value.0)
    ensures r.Ok? ==> GoMaps.Domain(components) <= GoMaps.Domain(r.value.1)
    ensures r.Ok? ==> SchemaRefOk(r.value.0.schema, r.value.1)
    ensures r.Ok? && SchemaInference.GenerateSchema(v).value.typeName == "" ==>
      r.value.0.schema == SchemaInference.GenerateSchema(v).value && r.value.1 == components
    ensures r.Ok? && SchemaInference.GenerateSchema(v).value.typeName != "" ==>
      && r.value.0.schema == OpenApi.RefTo(SchemaRefPrefix + SchemaInference.GenerateSchema(v).value.typeName)
      && GoMaps.Lookup(r.value.1, SchemaInference.GenerateSchema(v).value.typeName) == Some(SchemaInference.GenerateSchema(v).value)
  {
    var s :- SchemaInference.GenerateSchema(v);
    if s.typeName == "" then Ok((OpenApi.MediaType(s, v), components))
    else
      var ref := SchemaRefPrefix + s.typeName;
      assert ref[..|SchemaRefPrefix|] == SchemaRefPrefix && ref[|SchemaRefPrefix|..] == s.typeName;
      Ok((OpenApi.MediaType(OpenApi.RefTo(ref), v), GoMaps.Put(components, s.typeName, s)))
  }

  /** Every reference check that held against a set of components still
      holds once more components exist. */
  lemma MediaRefsGrow(mts: GoMaps.GoMap<string, OpenApi.MediaType>, c: GoMaps.GoMap<string, OpenApi.Schema>, c': GoMaps.GoMap<string, OpenApi.Schema>)
    requires GoMaps.Domain(c) <= GoMaps.Domain(c') && MediaRefsOk(mts, c)
    ensures MediaRefsOk(mts, c')
  {
    forall i | 0 <= i < |mts| ensures SchemaRefOk(mts[i].1.schema, c') {
      assert SchemaRefOk(mts[i].1.schema, c);
    }
  }

  /** Whether a schema can be inferred for every value of a list. */
  predicate AllInferable(items: seq<(string, Value)>) {
    forall i :: 0 <= i < |items| ==> SchemaInference.GenerateSchema(items[i].1).Ok?
  }

  lemma AllInferableCons(items: seq<(string, Value)>)
    requires |items| > 0
    ensures AllInferable(items) <==> SchemaInference.GenerateSchema(items[0].1).Ok? && AllInferable(items[1..])
  {
    assert forall i :: 1 <= i < |items| ==> items[i] == items[1..][i - 1];
  }

  /** The content map of a list of (MIME type, value) items with distinct
      MIME types: each type with its value's media type, in item order. */
  function MediaMap(items: seq<(string, Value)>): GoMaps.GoMap<string, OpenApi.MediaType>
    requires AllInferable(items)
  {
    seq(|items|, i requires 0 <= i < |items| => (items[i].0, MediaFor(items[i].1).value))
  }

  /** The media-type loop of `createResponse`. */
  function MediaTypes(items: seq<(string, Value)>, acc: GoMaps.GoMap<string, OpenApi.MediaType>, components: GoMaps.GoMap<string, OpenApi.Schema>): (r: Result<(GoMaps.GoMap<string, OpenApi.MediaType>, GoMaps.GoMap<string, OpenApi.Schema>)>)
    ensures r.Ok? <==> AllInferable(items)
    ensures r.Ok? ==> GoMaps.Domain(r.value.0) == GoMaps.Domain(acc) + GoMaps.Domain(items)
    ensures r.Ok? ==> GoMaps.Domain(components) <= GoMaps.Domain(r.value.1)
    ensures r.Ok? && MediaRefsOk(acc, components) ==> MediaRefsOk(r.value.0, r.value.1)
    decreases |items|
  {
    if |items| == 0 then Ok((acc, components))
    else
      AllInferableCons(items);
      GoMaps.DomainCons(items);
      var m := MediaTypeOf(items[0].1, components);
      if m.Fail? then
        Fail(m.error)
      else
        var acc' := GoMaps.Put(acc, items[0].0, m.value.0);
        MediaStepRefs(acc, components, items[0].0, m.value.0, m.value.1);
        MediaTypes(items[1..], acc', m.value.1)
  }

  /** With distinct MIME types not yet in the map, the loop appends each
      type with its value's media type, in item order. */
  lemma {:induction false} MediaTypesMap(items: seq<(string, Value)>, acc: GoMaps.GoMap<string, OpenApi.MediaType>, components: GoMaps.GoMap<string, OpenApi.Schema>)
    requires GoMaps.DistinctKeys(items) && GoMaps.Domain(acc) !! GoMaps.Domain(items)
    ensures var r := MediaTypes(items, acc, components);
      r.Ok? ==> r.value.0 == acc + MediaMap(items)
    decreases |items|
  {
    var r := MediaTypes(items, acc, components);
    if |items| == 0 {
      assert acc + MediaMap(items) == acc;
    } else if r.Ok? {
      AllInferableCons(items);
      var k := items[0].0;
      var m := MediaTypeOf(items[0].1, components).value;
      var acc' := GoMaps.Put(acc, k, m.0);
      assert r == MediaTypes(items[1..], acc', m.1);
      GoMaps.DomainCons(items);
      GoMaps.DistinctCons(items);
      assert k !in GoMaps.Domain(acc);
      assert acc' == acc + [(k, m.0)];
      MediaTypesMap(items[1..], acc', m.1);
      MediaMapCons(items);
      AppendAssoc(acc, [(k, m.0)], MediaMap(items[1..]));
    }
  }

  lemma MediaMapCons(items: seq<(string, Value)>)
    requires |items| > 0 && AllInferable(items)
    ensures AllInferable(items[1..])
    ensures MediaMap(items) == [(items[0].0, MediaFor(items[0].1).value)] + MediaMap(items[1..])
  {
    AllInferableCons(items);
  }

  /** One media type added with the components it needed. */
  lemma MediaStepRefs(acc: GoMaps.GoMap<string, OpenApi.MediaType>, components: GoMaps.GoMap<string, OpenApi.Schema>,
                      k: string, mt: OpenApi.MediaType, components': GoMaps.GoMap<string, OpenApi.Schema>)
    requires GoMaps.Domain(components) <= GoMaps.Domain(components') && SchemaRefOk(mt.schema, components')
    ensures MediaRefsOk(acc, components) ==> MediaRefsOk(GoMaps.Put(acc, k, mt), components')
  {
    if MediaRefsOk(acc, components) {
      MediaRefsGrow(acc, components, components');
      PutRefsOk(acc, k, mt, components');
    }
  }

  /** Assigning a media type whose reference resolves keeps every reference
      of the map resolved. */
  lemma PutRefsOk(mts: GoMaps.GoMap<string, OpenApi.MediaType>, k: string, mt: OpenApi.MediaType, c: GoMaps.GoMap<string, OpenApi.Schema>)
    requires MediaRefsOk(mts, c) && SchemaRefOk(mt.schema, c)
    ensures MediaRefsOk(GoMaps.Put(mts, k, mt), c)
  {
    GoMaps.PutEntries(mts, k, mt);
  }

  /** What `createResponse` iterates over: the value's own media types when
      it is a non-nil `ContentType` (or pointer to one), otherwise the value
      as `application/json`. */
  function ResponseContent(value: Any): ContentType {
    match IsContentType(value)
    case Some(ct) => ct
    case None => ContentType([AsValue(value)])
  }

  /** The response `createResponse` builds for a value whose media types
      can all be inferred: the description, and each yielded MIME type with
      its value's media type, in table order. */
  function ResponseFor(description: string, value: Any): OpenApi.Response
    requires AllInferable(ContentTypes.Items(ResponseContent(value)))
  {
    OpenApi.Response(description, Some(MediaMap(ContentTypes.Items(ResponseContent(value)))))
  }

  /** `createResponse`: a response with the given description and a
      non-nil content map. */
  function CreateResponse(description: string, value: Any, components: GoMaps.GoMap<string, OpenApi.Schema>): (r: Result<(OpenApi.Response, GoMaps.GoMap<string, OpenApi.Schema>)>)
    ensures r.Ok? <==> AllInferable(ContentTypes.Items(ResponseContent(value)))
    ensures r.Ok? ==> r.value.0.description == description && r.value.0.content.Some?
    ensures r.Ok? ==> GoMaps.Domain(r.value.0.content.value) == GoMaps.Domain(ContentTypes.Items(ResponseContent(value)))
    ensures r.Ok? ==> r.value.0 == ResponseFor(description, value)
    ensures r.Ok? && IsContentType(value).None? ==>
      r.value.0.content == Some(if AsValue(value) == VNil then [] else [("application/json", MediaFor(AsValue(value)).value)])
    ensures r.Ok? ==> GoMaps.Domain(components) <= GoMaps.Domain(r.value.1)
    ensures r.Ok? ==> ResponseRefsOk(r.value.0, r.value.1)
  {
    var items := ContentTypes.Items(ResponseContent(value));
    ItemsDistinct(ResponseContent(value));
    MediaTypesMap(items, [], components);
    var mts :- MediaTypes(items, [], components);
    assert mts.0 == MediaMap(items);
    if IsContentType(value).None? then
      FallbackContent(value);
      Ok((OpenApi.Response(description, Some(mts.0)), mts.1))
    else
      Ok((OpenApi.Response(description, Some(mts.0)), mts.1))
  }

  /** The yielded MIME types are distinct. */
  lemma ItemsDistinct(ct: ContentType)
    ensures GoMaps.DistinctKeys(ContentTypes.Items(ct))
  {
    ContentTypes.ItemsOrdered(ct);
  }

  /** A value that is not a `ContentType` is described as `application/json`
      alone, or not at all when it is nil. */
  lemma FallbackContent(value: Any)
    requires IsContentType(value).None? && AllInferable(ContentTypes.Items(ResponseContent(value)))
    ensures AsValue(value) == VNil ==> MediaMap(ContentTypes.Items(ResponseContent(value))) == []
    ensures AsValue(value) != VNil ==>
      && MediaFor(AsValue(value)).Ok?
      && MediaMap(ContentTypes.Items(ResponseContent(value))) == [("application/json", MediaFor(AsValue(value)).value)]
  {
    var items := ContentTypes.Items(ResponseContent(value));
    ContentTypes.JsonOnlyItems(AsValue(value));
    if AsValue(value) != VNil {
      assert items[0] == ("application/json", AsValue(value));
      assert SchemaInference.GenerateSchema(AsValue(value)).Ok?;
    }
  }

  /** The statuses, written with `Itoa`, that a list of yielded items puts
      into the status-code map (status 0 goes to `Default` instead). */
  function StatusKeys(items: seq<(int, Any)>): set<string> {
    if |items| == 0 then {}
    else (if items[0].0 != 0 then {Itoa(items[0].0)} else {}) + StatusKeys(items[1..])
  }

  predicate HasDefault(items: seq<(int, Any)>) {
    exists i :: 0 <= i < |items| && items[i].0 == 0
  }

  lemma StatusRefsGrow(codes: GoMaps.GoMap<string, OpenApi.Response>, c: GoMaps.GoMap<string, OpenApi.Schema>, c': GoMaps.GoMap<string, OpenApi.Schema>)
    requires GoMaps.Domain(c) <= GoMaps.Domain(c') && StatusRefsOk(codes, c)
    ensures StatusRefsOk(codes, c')
  {
    forall i | 0 <= i < |codes| ensures ResponseRefsOk(codes[i].1, c') {
      assert ResponseRefsOk(codes[i].1, c);
      if codes[i].1.content.Some? {
        MediaRefsGrow(codes[i].1.content.value, c, c');
      }
    }
  }

  lemma PutStatusRefsOk(codes: GoMaps.GoMap<string, OpenApi.Response>, k: string, resp: OpenApi.Response, c: GoMaps.GoMap<string, OpenApi.Schema>)
    requires StatusRefsOk(codes, c) && ResponseRefsOk(resp, c)
    ensures StatusRefsOk(GoMaps.Put(codes, k, resp), c)
  {
    GoMaps.PutEntries(codes, k, resp);
  }

  /** The `for status, value := range api.Responses.Iterate()` loop: status
      0 fills `Default` (described "Default"); every other status fills the
      entry keyed by its decimal text, described by `statusText`. */
  function CollectResponses(items: seq<(int, Any)>, acc: OpenApi.Responses, components: GoMaps.GoMap<string, OpenApi.Schema>, statusText: int -> string): (r: Result<(OpenApi.Responses, GoMaps.GoMap<string, OpenApi.Schema>)>)
    requires acc.statusCodes.Some?
    ensures r.Ok? ==> r.value.0.statusCodes.Some?
    ensures r.Ok? ==> GoMaps.Domain(r.value.0.statusCodes.value) == GoMaps.Domain(acc.statusCodes.value) + StatusKeys(items)
    ensures r.Ok? && !HasDefault(items) ==> r.value.0.defaultResponse == acc.defaultResponse
    ensures r.Ok? && HasDefault(items) ==> r.value.0.defaultResponse.description == "Default"
    ensures r.Ok? ==> GoMaps.Domain(components) <= GoMaps.Domain(r.value.1)
    ensures r.Ok? && ResponsesRefsOk(acc, components) ==> ResponsesRefsOk(r.value.0, r.value.1)
    decreases |items|
  {
    if |items| == 0 then Ok((acc, components))
    else
      var status := items[0].0;
      assert forall i :: 1 <= i < |items| ==> items[i] == items[1..][i - 1];
      assert HasDefault(items) <==> status == 0 || HasDefault(items[1..]) by {
        if HasDefault(items[1..]) {
          var i :| 0 <= i < |items[1..]| && items[1..][i].0 == 0;
          assert items[i + 1].0 == 0;
        }
      }
      var desc := if status == 0 then "Default" else statusText(status);
      var c := CreateResponse(desc, items[0].1, components);
      if c.Fail? then Fail(c.error)
      else
        var resp := c.value.0;
        var codes := acc.statusCodes.value;
        var acc' := if status == 0 then acc.(defaultResponse := resp)
                    else acc.(statusCodes := Some(GoMaps.Put(codes, Itoa(status), resp)));
        assert ResponsesRefsOk(acc, components) ==> ResponsesRefsOk(acc', c.value.1) by {
          if ResponsesRefsOk(acc, components) {
            if acc.defaultResponse.content.Some? {
              MediaRefsGrow(acc.defaultResponse.content.value, components, c.value.1);
            }
            StatusRefsGrow(codes, components, c.value.1);
            if status != 0 {
              PutStatusRefsOk(codes, Itoa(status), resp, c.value.1);
            }
          }
        }
        CollectResponses(items[1..], acc', c.value.1, statusText)
  }

  /** Item `i` is the last one yielded with its status. */
  predicate LastStatus(items: seq<(int, Any)>, i: int) {
    0 <= i < |items| && forall j :: i < j < |items| ==> items[j].0 != items[i].0
  }

  /** Every yielded value's media types can be inferred. */
  predicate AllResponsesInferable(items: seq<(int, Any)>) {
    forall i :: 0 <= i < |items| ==> AllInferable(ContentTypes.Items(ResponseContent(items[i].1)))
  }

  lemma AllResponsesInferableCons(items: seq<(int, Any)>)
    requires |items| > 0
    ensures AllResponsesInferable(items) <==>
      AllInferable(ContentTypes.Items(ResponseContent(items[0].1))) && AllResponsesInferable(items[1..])
  {
    assert forall i :: 1 <= i < |items| ==> items[i] == items[1..][i - 1];
  }

  /** A key of the status map comes from some non-zero yielded status. */
  lemma {:induction false} StatusKeysFrom(items: seq<(int, Any)>, k: string)
    ensures k in StatusKeys(items) ==> exists j :: 0 <= j < |items| && items[j].0 != 0 && Itoa(items[j].0) == k
    decreases |items|
  {
    if k in StatusKeys(items) && !(items[0].0 != 0 && Itoa(items[0].0) == k) {
      StatusKeysFrom(items[1..], k);
      var j :| 0 <= j < |items[1..]| && items[1..][j].0 != 0 && Itoa(items[1..][j].0) == k;
      assert items[j + 1] == items[1..][j];
    }
  }

  /** A last item stays last in the tail. */
  lemma LastStatusTail(items: seq<(int, Any)>, i: int)
    requires 0 < i && LastStatus(items, i)
    ensures LastStatus(items[1..], i - 1) && items[1..][i - 1] == items[i]
  {
    forall j | i - 1 < j < |items[1..]| ensures items[1..][j].0 != items[1..][i - 1].0 {
      assert items[1..][j] == items[j + 1];
    }
  }

  /** The first item is last for its status: no later item has its key. */
  lemma FirstIsLast(items: seq<(int, Any)>)
    requires LastStatus(items, 0)
    ensures items[0].0 != 0 ==> Itoa(items[0].0) !in StatusKeys(items[1..])
    ensures items[0].0 == 0 ==> !HasDefault(items[1..])
  {
    if items[0].0 != 0 {
      forall j | 0 <= j < |items[1..]| && items[1..][j].0 != 0
        ensures Itoa(items[1..][j].0) != Itoa(items[0].0)
      {
        assert items[1..][j] == items[j + 1];
        ItoaInjective(items[1..][j].0, items[0].0);
      }
      StatusKeysFrom(items[1..], Itoa(items[0].0));
    }
    if items[0].0 == 0 {
      forall j | 0 <= j < |items[1..]| ensures items[1..][j].0 != 0 {
        assert items[1..][j] == items[j + 1];
      }
    }
  }

  /** What the response loop stores: it fails iff some value's media types
      cannot be inferred; otherwise the entry for a status's decimal text is
      the response built from the last value yielded with that status,
      described by its status text, `Default` is the one built from the last
      value yielded with status 0, and keys no item mentions are untouched. */
  lemma {:induction false} CollectResponsesLookup(items: seq<(int, Any)>, acc: OpenApi.Responses, components: GoMaps.GoMap<string, OpenApi.Schema>, statusText: int -> string, k: string)
    requires acc.statusCodes.Some?
    ensures var r := CollectResponses(items, acc, components, statusText);
      && (r.Ok? <==> AllResponsesInferable(items))
      && (r.Ok? && k !in StatusKeys(items) ==>
            GoMaps.Lookup(r.value.0.statusCodes.value, k) == GoMaps.Lookup(acc.statusCodes.value, k))
      && (r.Ok? ==> forall i | LastStatus(items, i) && items[i].0 != 0 && Itoa(items[i].0) == k ::
            && AllInferable(ContentTypes.Items(ResponseContent(items[i].1)))
            && GoMaps.Lookup(r.value.0.statusCodes.value, k) == Some(ResponseFor(statusText(items[i].0), items[i].1)))
      && (r.Ok? ==> forall i | LastStatus(items, i) && items[i].0 == 0 ::
            && AllInferable(ContentTypes.Items(ResponseContent(items[i].1)))
            && r.value.0.defaultResponse == ResponseFor("Default", items[i].1))
    decreases |items|
  {
    var r := CollectResponses(items, acc, components, statusText);
    if |items| > 0 {
      var status := items[0].0;
      AllResponsesInferableCons(items);
      var desc := if status == 0 then "Default" else statusText(status);
      var c := CreateResponse(desc, items[0].1, components);
      if c.Ok? {
        var resp := c.value.0;
        var codes := acc.statusCodes.value;
        var acc' := if status == 0 then acc.(defaultResponse := resp)
                    else acc.(statusCodes := Some(GoMaps.Put(codes, Itoa(status), resp)));
        assert r == CollectResponses(items[1..], acc', c.value.1, statusText);
        CollectResponsesLookup(items[1..], acc', c.value.1, statusText, k);
        if r.Ok? {
          var out := r.value.0;
          if status != 0 && k != Itoa(status) {
            GoMaps.PutFrame(codes, Itoa(status), resp, k);
          }
          forall i | LastStatus(items, i) && items[i].0 != 0 && Itoa(items[i].0) == k
            ensures GoMaps.Lookup(out.statusCodes.value, k) == Some(ResponseFor(statusText(items[i].0), items[i].1))
          {
            if i > 0 {
              LastStatusTail(items, i);
            } else {
              FirstIsLast(items);
            }
          }
          forall i | LastStatus(items, i) && items[i].0 == 0
            ensures out.defaultResponse == ResponseFor("Default", items[i].1)
          {
            if i > 0 {
              LastStatusTail(items, i);
            } else {
              FirstIsLast(items);
            }
          }
        }
      }
    }
  }

  /** `CollectResponsesLookup` for every status at once. */
  lemma ResponsesStored(items: seq<(int, Any)>, acc: OpenApi.Responses, components: GoMaps.GoMap<string, OpenApi.Schema>, statusText: int -> string)
    requires acc.statusCodes.Some?
    ensures var r := CollectResponses(items, acc, components, statusText);
      && (r.Ok? <==> AllResponsesInferable(items))
      && (r.Ok? ==> forall i | LastStatus(items, i) && items[i].0 != 0 ::
            && AllInferable(ContentTypes.Items(ResponseContent(items[i].1)))
            && GoMaps.Lookup(r.value.0.statusCodes.value, Itoa(items[i].0)) == Some(ResponseFor(statusText(items[i].0), items[i].1)))
      && (r.Ok? ==> forall i | LastStatus(items, i) && items[i].0 == 0 ::
            && AllInferable(ContentTypes.Items(ResponseContent(items[i].1)))
            && r.value.0.defaultResponse == ResponseFor("Default", items[i].1))
  {
    CollectResponsesLookup(items, acc, components, statusText, "");
    forall i | LastStatus(items, i) && items[i].0 != 0 {
      CollectResponsesLookup(items, acc, components, statusText, Itoa(items[i].0));
    }
  }

  /** The yielded items carry status 0 exactly when `Default` is set. */
  lemma DefaultIsStatusZero(responses: RR.Responses)
    ensures HasDefault(RR.Items(responses)) <==> !responses.default.IsNil()
  {
    var items := RR.Items(responses);
    RR.ItemsShape(responses);
    RR.OccurrencesPositive(RR.Statuses(items), 0);
    assert HasDefault(items) <==> 0 in RR.Statuses(items) by {
      if 0 in RR.Statuses(items) {
        var i :| 0 <= i < |items| && RR.Statuses(items)[i] == 0;
        assert items[i].0 == 0;
      }
    }
  }

  /** The operation `openapiPaths` builds for an `Api`, with the components
      after its responses are built. A body value makes the code write
      through the operation's nil `RequestBody` pointer, which panics. */
  function BuildOperation(api: Api, tags: Tags, components: GoMaps.GoMap<string, OpenApi.Schema>, statusText: int -> string): (r: Result<(OpenApi.Operation, GoMaps.GoMap<string, OpenApi.Schema>)>)
    ensures api.parameter.body.value != VNil ==> r.Fail?
    ensures r.Ok? ==> Parameters(api.parameter) == Ok(r.value.0.parameters)
    ensures r.Ok? ==> && r.value.0.tags == tags.references
                      && r.value.0.operationId == api.operationId
                      && r.value.0.summary == api.summary
                      && r.value.0.description == api.description
                      && r.value.0.requestBody == None
    ensures r.Ok? ==> r.value.0.responses.statusCodes.Some?
    ensures r.Ok? ==> GoMaps.Domain(r.value.0.responses.statusCodes.value) == StatusKeys(RR.Items(api.responses))
    ensures r.Ok? ==> (if api.responses.default.IsNil() then r.value.0.responses.defaultResponse == OpenApi.EmptyResponse
                       else r.value.0.responses.defaultResponse.description == "Default")
    ensures r.Ok? ==> GoMaps.Domain(components) <= GoMaps.Domain(r.value.1)
    ensures r.Ok? ==> ResponsesRefsOk(r.value.0.responses, r.value.1)
  {
    if api.parameter.body.value != VNil then Fail("nil pointer dereference: Operation.RequestBody")
    else
      var params :- Parameters(api.parameter);
      var items := RR.Items(api.responses);
      DefaultIsStatusZero(api.responses);
      var start := OpenApi.Responses(OpenApi.EmptyResponse, Some([]));
      var rs :- CollectResponses(items, start, components, statusText);
      Ok((OpenApi.Operation(tags.references, api.summary, api.description, api.operationId, params, None, rs.0), rs.1))
  }

  /** The responses of a built operation: building fails (without a body
      value) iff a parameter or some response value's media types cannot be
      inferred; the entry for a status's decimal text is the response built
      from the last value yielded with that status, described by its status
      text, and `Default` the one built from the value of status 0. */
  lemma BuildOperationResponses(api: Api, tags: Tags, components: GoMaps.GoMap<string, OpenApi.Schema>, statusText: int -> string)
    ensures var r := BuildOperation(api, tags, components, statusText);
      && (api.parameter.body.value == VNil ==>
            (r.Ok? <==> Parameters(api.parameter).Ok? && AllResponsesInferable(RR.Items(api.responses))))
      && (r.Ok? ==> var items := RR.Items(api.responses);
            forall i | LastStatus(items, i) && items[i].0 != 0 ::
              && AllInferable(ContentTypes.Items(ResponseContent(items[i].1)))
              && GoMaps.Lookup(r.value.0.responses.statusCodes.value, Itoa(items[i].0)) == Some(ResponseFor(statusText(items[i].0), items[i].1)))
      && (r.Ok? ==> var items := RR.Items(api.responses);
            forall i | LastStatus(items, i) && items[i].0 == 0 ::
              && AllInferable(ContentTypes.Items(ResponseContent(items[i].1)))
              && r.value.0.responses.defaultResponse == ResponseFor("Default", items[i].1))
  {
    var start := OpenApi.Responses(OpenApi.EmptyResponse, Some([]));
    ResponsesStored(RR.Items(api.responses), start, components, statusText);
  }

  /** The operation slot a method selects in the `switch`: `CONNECT` shares
      `TRACE`'s, and a method matching no case (a lower-case one, say)
      selects none. */
  datatype SlotName = GetSlot | PutSlot | PostSlot | DeleteSlot | OptionsSlot | HeadSlot | PatchSlot | TraceSlot

  function SlotFor(verb: string): Option<SlotName> {
    match verb
    case "GET" => Some(GetSlot)
    case "PUT" => Some(PutSlot)
    case "POST" => Some(PostSlot)
    case "DELETE" => Some(DeleteSlot)
    case "HEAD" => Some(HeadSlot)
    case "PATCH" => Some(PatchSlot)
    case "TRACE" => Some(TraceSlot)
    case "CONNECT" => Some(TraceSlot)
    case "OPTIONS" => Some(OptionsSlot)
    case _ => None
  }

  /** Reading one operation slot of a path item. */
  function SlotOf(p: OpenApi.PathItem, n: SlotName): Option<OpenApi.Operation> {
    match n
    case GetSlot => p.get
    case PutSlot => p.put
    case PostSlot => p.post
    case DeleteSlot => p.delete
    case OptionsSlot => p.options
    case HeadSlot => p.head
    case PatchSlot => p.patch
    case TraceSlot => p.trace
  }

  /** The `switch api.Method`: the selected slot gets the operation and
      every other slot keeps what it held. */
  function PlaceOperation(p: OpenApi.PathItem, verb: string, op: OpenApi.Operation): (q: OpenApi.PathItem)
    ensures forall n :: SlotOf(q, n) == if SlotFor(verb) == Some(n) then Some(op) else SlotOf(p, n)
  {
    match SlotFor(verb)
    case None => p
    case Some(GetSlot) => p.(get := Some(op))
    case Some(PutSlot) => p.(put := Some(op))
    case Some(PostSlot) => p.(post := Some(op))
    case Some(DeleteSlot) => p.(delete := Some(op))
    case Some(OptionsSlot) => p.(options := Some(op))
    case Some(HeadSlot) => p.(head := Some(op))
    case Some(PatchSlot) => p.(patch := Some(op))
    case Some(TraceSlot) => p.(trace := Some(op))
  }

  /** A mux registration. */
  datatype Binding = Binding(pattern: string, handler: Handler)

  /** The handler as registered: wrapped by the scope's middleware, if any. */
  function Wrap(use: Option<Use>, h: Handler): Handler {
    if use.Some? then Apply(use.value, h) else h
  }

  /** The static-file registration: `GET <prefix>` serving the file system
      with the prefix stripped, the middleware inside the prefix stripping,
      and the SPA fallback outermost when enabled. */
  function StaticBinding(s: Static, use: Option<Use>): (b: Binding)
    ensures b.pattern == "GET " + s.pathPrefix
    ensures b.handler == if s.spaMode then SpaRedirect(StripPrefix(s.pathPrefix, Wrap(use, FileServer(s.fs))))
                         else StripPrefix(s.pathPrefix, Wrap(use, FileServer(s.fs)))
  {
    var h := StripPrefix(s.pathPrefix, Wrap(use, FileServer(s.fs)));
    Binding("GET " + s.pathPrefix, if s.spaMode then SpaRedirect(h) else h)
  }

  /** The state of one `openapiPaths` call: its own `paths`, the middleware
      and tag scope in force, and what all calls share: the mux
      registrations and the component schemas. */
  datatype State = State(
    paths: OrderedMaps.OrderedMap<string, OpenApi.PathItem>,
    use: Option<Use>,
    tags: Tags,
    bindings: seq<Binding>,
    components: GoMaps.GoMap<string, OpenApi.Schema>)

  /** The `r.api != nil` branch. A nil handler makes `mux.Handle` panic. */
  function ApiStep(api: Api, st: State, statusText: int -> string): (r: Result<State>)
    requires st.paths.Valid()
    ensures r.Ok? ==> r.value.paths.Valid()
    ensures api.handler.None? || api.parameter.body.value != VNil ==> r.Fail?
    ensures r.Ok? ==> BuildOperation(api, st.tags, st.components, statusText).Ok? && api.handler.Some?
    ensures r.Ok? ==> && r.value.use == st.use && r.value.tags == st.tags
                      && r.value.components == BuildOperation(api, st.tags, st.components, statusText).value.1
                      && r.value.bindings == st.bindings + [Binding(api.httpMethod + " " + api.path, Wrap(st.use, api.handler.value))]
    ensures r.Ok? ==> OrderedMaps.Get(r.value.paths, api.path, OpenApi.EmptyPathItem).1
    ensures r.Ok? ==> forall n ::
      SlotOf(OrderedMaps.Get(r.value.paths, api.path, OpenApi.EmptyPathItem).0, n) ==
        if SlotFor(api.httpMethod) == Some(n) then Some(BuildOperation(api, st.tags, st.components, statusText).value.0)
        else SlotOf(OrderedMaps.Get(st.paths, api.path, OpenApi.EmptyPathItem).0, n)
    ensures r.Ok? ==> forall k :: k != api.path ==>
      OrderedMaps.Get(r.value.paths, k, OpenApi.EmptyPathItem) == OrderedMaps.Get(st.paths, k, OpenApi.EmptyPathItem)
  {
    var built :- BuildOperation(api, st.tags, st.components, statusText);
    if api.handler.None? then Fail("http: nil handler")
    else
      var p := OrderedMaps.Get(st.paths, api.path, OpenApi.EmptyPathItem).0;
      var item := PlaceOperation(p, api.httpMethod, built.0);
      var b := Binding(api.httpMethod + " " + api.path, Wrap(st.use, api.handler.value));
      OrderedMaps.GetAfterSet(st.paths, api.path, item, api.path, OpenApi.EmptyPathItem);
      assert forall k :: k != api.path ==>
        OrderedMaps.Get(OrderedMaps.Set(st.paths, api.path, item), k, OpenApi.EmptyPathItem) == OrderedMaps.Get(st.paths, k, OpenApi.EmptyPathItem) by {
        forall k | k != api.path
          ensures OrderedMaps.Get(OrderedMaps.Set(st.paths, api.path, item), k, OpenApi.EmptyPathItem) == OrderedMaps.Get(st.paths, k, OpenApi.EmptyPathItem)
        {
          OrderedMaps.GetAfterSet(st.paths, api.path, item, k, OpenApi.EmptyPathItem);
        }
      }
      Ok(State(OrderedMaps.Set(st.paths, api.path, item), st.use, st.tags, st.bindings + [b], built.1))
  }

  /** `for path, item := range sub.Iterate() { paths.Set(path, item) }`. */
  function SetPairs<V>(m: OrderedMaps.OrderedMap<string, V>, ps: seq<(string, V)>): (r: OrderedMaps.OrderedMap<string, V>)
    requires m.Valid()
    ensures r.Valid()
    ensures forall k :: k in r.keys <==> k in m.keys || k in GoMaps.Domain(ps)
    decreases |ps|
  {
    if |ps| == 0 then m
    else
      assert forall i :: 1 <= i < |ps| ==> ps[i] == ps[1..][i - 1];
      GoMaps.DomainCons(ps);
      var m' := OrderedMaps.Set(m, ps[0].0, ps[0].1);
      OrderedMaps.GetAfterSet(m, ps[0].0, ps[0].1, ps[0].0, ps[0].1);
      SetPairs(m', ps[1..])
  }

  /** The `openapiPaths` loop over a group's routes, in registration order. */
  function Walk(routes: seq<Route>, st: State, statusText: int -> string): (r: Result<State>)
    requires st.paths.Valid()
    ensures r.Ok? ==> r.value.paths.Valid()
    decreases routes
  {
    if |routes| == 0 then Ok(st)
    else
      var st' :- Step(routes[0], st, statusText);
      Walk(routes[1..], st', statusText)
  }

  /** One route of the loop. A nested group is walked by its own call with
      fresh paths, the current middleware and a clone of the tag scope; its
      paths are then copied in one by one, each replacing the whole item of
      that path. The nested call's middleware and tag names stay inside it;
      its tag definitions, registrations and components do not. */
  function Step(route: Route, st: State, statusText: int -> string): (r: Result<State>)
    requires st.paths.Valid()
    ensures r.Ok? ==> r.value.paths.Valid()
    decreases route
  {
    match route
    case ApiEntry(api) => ApiStep(api, st, statusText)
    case GroupEntry(inner) =>
      var sub :- Walk(inner, State(OrderedMaps.Empty(), st.use, st.tags, st.bindings, st.components), statusText);
      Ok(State(SetPairs(st.paths, sub.paths.Pairs()), st.use, Tags(sub.tags.defs, st.tags.references), sub.bindings, sub.components))
    case TagEntry(t) => Ok(st.(tags := AddToScope(st.tags, t)))
    case UseEntry(u) => Ok(st.(use := Some(if st.use.Some? then Helpers.Chain([st.use.value, u]) else u)))
    case StaticEntry(s) => Ok(st.(bindings := st.bindings + [StaticBinding(s, st.use)]))
  }

  /** `Group.openapiPaths(mux, components, use, tags)`: the paths of this
      group, with the state every call shares. */
  function OpenapiPaths(routes: seq<Route>, use: Option<Use>, tags: Tags, bindings: seq<Binding>, components: GoMaps.GoMap<string, OpenApi.Schema>, statusText: int -> string): (r: Result<State>)
    ensures r.Ok? ==> r.value.paths.Valid()
  {
    Walk(routes, State(OrderedMaps.Empty(), use, tags, bindings, components), statusText)
  }

  /** `Itoa` gives different numbers different texts. */
  lemma ItoaInjective(a: int, b: int)
    ensures Itoa(a) == Itoa(b) <==> a == b
  {
    if a != b {
      if a >= 0 && b >= 0 {
        NatToStringRoundTrip(a);
        NatToStringRoundTrip(b);
      } else if a < 0 && b < 0 {
        NatToStringRoundTrip(-a);
        NatToStringRoundTrip(-b);
        assert Itoa(a)[1..] == NatToString(-a) && Itoa(b)[1..] == NatToString(-b);
      } else if a < 0 {
        assert Itoa(a)[0] == '-' && IsDigit(Itoa(b)[0]);
      } else {
        assert Itoa(b)[0] == '-' && IsDigit(Itoa(a)[0]);
      }
    }
  }

  lemma {:induction false} StatusKeysMember(items: seq<(int, Any)>, k: string)
    ensures k in StatusKeys(items) <==> exists i :: 0 <= i < |items| && items[i].0 != 0 && Itoa(items[i].0) == k
    decreases |items|
  {
    if |items| > 0 {
      StatusKeysMember(items[1..], k);
      if exists i :: 0 <= i < |items[1..]| && items[1..][i].0 != 0 && Itoa(items[1..][i].0) == k {
        var i :| 0 <= i < |items[1..]| && items[1..][i].0 != 0 && Itoa(items[1..][i].0) == k;
        assert items[i + 1] == items[1..][i];
      }
      if exists i :: 0 <= i < |items| && items[i].0 != 0 && Itoa(items[i].0) == k {
        var i :| 0 <= i < |items| && items[i].0 != 0 && Itoa(items[i].0) == k;
        if i > 0 {
          assert items[1..][i - 1] == items[i];
        }
      }
    }
  }

  /** The status-code map of an operation has an entry for status `s` iff
      the `Api`'s `s` slot is non-nil and `Responses` both has a field for
      it and yields it: every settable status except 400. */
  lemma ResponseKeysExact(api: Api, tags: Tags, components: GoMaps.GoMap<string, OpenApi.Schema>, statusText: int -> string, s: int)
    requires BuildOperation(api, tags, components, statusText).Ok?
    requires s != 0
    ensures Itoa(s) in GoMaps.Domain(BuildOperation(api, tags, components, statusText).value.0.responses.statusCodes.value)
      <==> s in RR.Settable && s != 400 && !api.responses.Slot(s).IsNil()
  {
    var items := RR.Items(api.responses);
    StatusKeysMember(items, Itoa(s));
    RR.ItemsCount(api.responses, s);
    RR.OccurrencesPositive(RR.Statuses(items), s);
    if Itoa(s) in StatusKeys(items) {
      var i :| 0 <= i < |items| && items[i].0 != 0 && Itoa(items[i].0) == Itoa(s);
      ItoaInjective(items[i].0, s);
      assert RR.Statuses(items)[i] == s;
    }
    if s in RR.Statuses(items) {
      var i :| 0 <= i < |items| && RR.Statuses(items)[i] == s;
      assert items[i].0 == s;
    }
  }

  /** The paths of every `Api` in a route tree, nested groups included. */
  function ApiPaths(routes: seq<Route>): set<string>
    decreases routes
  {
    if |routes| == 0 then {} else RoutePaths(routes[0]) + ApiPaths(routes[1..])
  }

  function RoutePaths(route: Route): set<string>
    decreases route
  {
    match route
    case ApiEntry(api) => {api.path}
    case GroupEntry(inner) => ApiPaths(inner)
    case _ => {}
  }

  /** The state a nested group's own call starts from. */
  function Nested(st: State): (st': State)
    ensures st'.paths.Valid() && st'.paths.keys == []
  {
    State(OrderedMaps.Empty(), st.use, st.tags, st.bindings, st.components)
  }

  lemma PairsDomain<V>(m: OrderedMaps.OrderedMap<string, V>)
    requires m.Valid()
    ensures forall k :: k in GoMaps.Domain(m.Pairs()) <==> k in m.keys
  {
    forall k | k in m.keys ensures k in GoMaps.Domain(m.Pairs()) {
      var i :| 0 <= i < |m.keys| && m.keys[i] == k;
      assert m.Pairs()[i].0 == k;
    }
  }

  /** A successful walk leaves exactly the paths it started with plus the
      path of every `Api` in the tree: no operation is lost and none
      invented. */
  lemma {:induction false} WalkPaths(routes: seq<Route>, st: State, statusText: int -> string)
    requires st.paths.Valid() && Walk(routes, st, statusText).Ok?
    ensures forall k :: k in Walk(routes, st, statusText).value.paths.keys <==> k in st.paths.keys || k in ApiPaths(routes)
    decreases routes
  {
    if |routes| > 0 {
      StepPaths(routes[0], st, statusText);
      WalkPaths(routes[1..], Step(routes[0], st, statusText).value, statusText);
    }
  }

  lemma {:induction false} StepPaths(route: Route, st: State, statusText: int -> string)
    requires st.paths.Valid() && Step(route, st, statusText).Ok?
    ensures forall k :: k in Step(route, st, statusText).value.paths.keys <==> k in st.paths.keys || k in RoutePaths(route)
    decreases route
  {
    match route
    case GroupEntry(inner) =>
      WalkPaths(inner, Nested(st), statusText);
      PairsDomain(Walk(inner, Nested(st), statusText).value.paths);
    case ApiEntry(api) =>
      var r := Step(route, st, statusText).value;
      forall k ensures k in r.paths.keys <==> k in st.paths.keys || k == api.path {
        if k != api.path {
          assert OrderedMaps.Get(r.paths, k, OpenApi.EmptyPathItem) == OrderedMaps.Get(st.paths, k, OpenApi.EmptyPathItem);
        }
      }
    case _ =>
  }

  /** A nested group's step: its own walk from fresh paths, then the merge
      into the enclosing paths. */
  lemma StepApi(api: Api, st: State, statusText: int -> string)
    requires st.paths.Valid()
    ensures Step(ApiEntry(api), st, statusText) == ApiStep(api, st, statusText)
  {
  }

  /** A `Use`, `Tag` or `Static` entry touches only its own part of the
      state. */
  lemma StepOther(route: Route, st: State, statusText: int -> string)
    requires st.paths.Valid() && !route.ApiEntry? && !route.GroupEntry?
    ensures Step(route, st, statusText).Ok?
    ensures Step(route, st, statusText).value.bindings ==
      st.bindings + (if route.StaticEntry? then [StaticBinding(route.files, st.use)] else [])
    ensures Step(route, st, statusText).value.tags == (if route.TagEntry? then AddToScope(st.tags, route.tag) else st.tags)
    ensures Step(route, st, statusText).value.tags.references == st.tags.references + (if route.TagEntry? then [route.tag.name] else [])
    ensures GoMaps.Domain(Step(route, st, statusText).value.tags.defs) == GoMaps.Domain(st.tags.defs) + RouteTagDefs(route)
  {
    if route.TagEntry? {
      assert AddToScope(st.tags, route.tag).references == st.tags.references + [route.tag.name];
    }
  }

  lemma GroupUnfold(inner: seq<Route>, st: State, statusText: int -> string)
    requires st.paths.Valid() && Step(GroupEntry(inner), st, statusText).Ok?
    ensures Walk(inner, Nested(st), statusText).Ok?
    ensures var sub := Walk(inner, Nested(st), statusText).value;
      Step(GroupEntry(inner), st, statusText).value ==
        State(SetPairs(st.paths, sub.paths.Pairs()), st.use, Tags(sub.tags.defs, st.tags.references), sub.bindings, sub.components)
  {
  }

  /** A successful walk of a non-empty list is its first step followed by
      the walk of the rest. */
  lemma WalkUnfold(routes: seq<Route>, st: State, statusText: int -> string)
    requires st.paths.Valid() && |routes| > 0 && Walk(routes, st, statusText).Ok?
    ensures Step(routes[0], st, statusText).Ok?
    ensures Walk(routes, st, statusText) == Walk(routes[1..], Step(routes[0], st, statusText).value, statusText)
  {
  }

  lemma AppendAssoc<T>(a: seq<T>, b: seq<T>, c: seq<T>)
    ensures a + (b + c) == (a + b) + c
  {
  }

  /** The mux patterns a route tree registers, in registration order: one
      `"<method> <path>"` per `Api` (the method as written) and one
      `"GET <prefix>"` per `Static`. */
  function Patterns(routes: seq<Route>): seq<string>
    decreases routes
  {
    if |routes| == 0 then [] else RoutePatterns(routes[0]) + Patterns(routes[1..])
  }

  function RoutePatterns(route: Route): seq<string>
    decreases route
  {
    match route
    case ApiEntry(api) => [api.httpMethod + " " + api.path]
    case StaticEntry(s) => ["GET " + s.pathPrefix]
    case GroupEntry(inner) => Patterns(inner)
    case _ => []
  }

  function PatternsOf(bs: seq<Binding>): (ps: seq<string>)
    ensures |ps| == |bs| && forall i :: 0 <= i < |bs| ==> ps[i] == bs[i].pattern
  {
    seq(|bs|, i requires 0 <= i < |bs| => bs[i].pattern)
  }

  lemma PatternsOfAppend(a: seq<Binding>, b: seq<Binding>)
    ensures PatternsOf(a + b) == PatternsOf(a) + PatternsOf(b)
  {
  }

  /** A successful walk registers exactly the patterns of its tree, in
      order, after the registrations made before it. */
  lemma {:induction false} WalkPatterns(routes: seq<Route>, st: State, statusText: int -> string)
    requires st.paths.Valid() && Walk(routes, st, statusText).Ok?
    ensures PatternsOf(Walk(routes, st, statusText).value.bindings) == PatternsOf(st.bindings) + Patterns(routes)
    decreases routes, 2
  {
    if |routes| > 0 {
      WalkUnfold(routes, st, statusText);
      var st' := Step(routes[0], st, statusText).value;
      StepPatterns(routes[0], st, statusText);
      WalkPatterns(routes[1..], st', statusText);
      AppendAssoc(PatternsOf(st.bindings), RoutePatterns(routes[0]), Patterns(routes[1..]));
    }
  }

  lemma {:induction false} StepPatterns(route: Route, st: State, statusText: int -> string)
    requires st.paths.Valid() && Step(route, st, statusText).Ok?
    ensures PatternsOf(Step(route, st, statusText).value.bindings) == PatternsOf(st.bindings) + RoutePatterns(route)
    decreases route, 1
  {
    match route
    case GroupEntry(inner) =>
      GroupPatterns(inner, st, statusText);
    case ApiEntry(api) =>
      StepApi(api, st, statusText);
      ApiPatterns(api, st, statusText);
    case StaticEntry(files) =>
      StepOther(route, st, statusText);
      PatternsOfAppend(st.bindings, [StaticBinding(files, st.use)]);
    case _ =>
      StepOther(route, st, statusText);
  }

  lemma {:induction false} GroupPatterns(inner: seq<Route>, st: State, statusText: int -> string)
    requires st.paths.Valid() && Step(GroupEntry(inner), st, statusText).Ok?
    ensures PatternsOf(Step(GroupEntry(inner), st, statusText).value.bindings) == PatternsOf(st.bindings) + Patterns(inner)
    decreases GroupEntry(inner), 0
  {
    GroupUnfold(inner, st, statusText);
    WalkPatterns(inner, Nested(st), statusText);
  }

  lemma ApiPatterns(api: Api, st: State, statusText: int -> string)
    requires st.paths.Valid() && ApiStep(api, st, statusText).Ok?
    ensures PatternsOf(ApiStep(api, st, statusText).value.bindings) == PatternsOf(st.bindings) + [api.httpMethod + " " + api.path]
  {
    PatternsOfAppend(st.bindings, [Binding(api.httpMethod + " " + api.path, Wrap(st.use, api.handler.value))]);
  }

  /** The names a route list tags its own scope with (nested groups'
      tags stay in the nested scope). */
  function ScopeTags(routes: seq<Route>): seq<string> {
    if |routes| == 0 then []
    else (if routes[0].TagEntry? then [routes[0].tag.name] else []) + ScopeTags(routes[1..])
  }

  /** Every tag name defined anywhere in a route tree. */
  function TagDefs(routes: seq<Route>): set<string>
    decreases routes
  {
    if |routes| == 0 then {} else RouteTagDefs(routes[0]) + TagDefs(routes[1..])
  }

  function RouteTagDefs(route: Route): set<string>
    decreases route
  {
    match route
    case TagEntry(t) => {t.name}
    case GroupEntry(inner) => TagDefs(inner)
    case _ => {}
  }

  /** Tag scoping: the names in force grow only by the list's own `Tag`
      entries, while definitions made in nested groups reach the shared
      definition map. */
  lemma {:induction false} WalkTags(routes: seq<Route>, st: State, statusText: int -> string)
    requires st.paths.Valid() && Walk(routes, st, statusText).Ok?
    ensures Walk(routes, st, statusText).value.tags.references == st.tags.references + ScopeTags(routes)
    ensures GoMaps.Domain(Walk(routes, st, statusText).value.tags.defs) == GoMaps.Domain(st.tags.defs) + TagDefs(routes)
    decreases routes, 2
  {
    if |routes| > 0 {
      WalkUnfold(routes, st, statusText);
      var st' := Step(routes[0], st, statusText).value;
      StepTags(routes[0], st, statusText);
      WalkTags(routes[1..], st', statusText);
      var own := if routes[0].TagEntry? then [routes[0].tag.name] else [];
      AppendAssoc(st.tags.references, own, ScopeTags(routes[1..]));
    }
  }

  lemma {:induction false} StepTags(route: Route, st: State, statusText: int -> string)
    requires st.paths.Valid() && Step(route, st, statusText).Ok?
    ensures Step(route, st, statusText).value.tags.references == st.tags.references + (if route.TagEntry? then [route.tag.name] else [])
    ensures GoMaps.Domain(Step(route, st, statusText).value.tags.defs) == GoMaps.Domain(st.tags.defs) + RouteTagDefs(route)
    decreases route, 1
  {
    match route
    case GroupEntry(inner) =>
      GroupTags(inner, st, statusText);
    case ApiEntry(api) =>
      StepApi(api, st, statusText);
    case _ =>
      StepOther(route, st, statusText);
  }


  lemma {:induction false} GroupTags(inner: seq<Route>, st: State, statusText: int -> string)
    requires st.paths.Valid() && Step(GroupEntry(inner), st, statusText).Ok?
    ensures Step(GroupEntry(inner), st, statusText).value.tags.references == st.tags.references
    ensures GoMaps.Domain(Step(GroupEntry(inner), st, statusText).value.tags.defs) == GoMaps.Domain(st.tags.defs) + TagDefs(inner)
    decreases GroupEntry(inner), 0
  {
    GroupUnfold(inner, st, statusText);
    WalkTags(inner, Nested(st), statusText);
  }

  lemma {:induction false} SetPairsRefines<V>(m: OrderedMaps.OrderedMap<string, V>, ps: seq<(string, V)>)
    requires m.Valid()
    ensures SetPairs(m, ps).Pairs() == GoMaps.PutAll(m.Pairs(), ps)
    decreases |ps|
  {
    if |ps| > 0 {
      OrderedMaps.SetRefinesPut(m, ps[0].0, ps[0].1);
      SetPairsRefines(OrderedMaps.Set(m, ps[0].0, ps[0].1), ps[1..]);
    }
  }

  /** A nested group keeps its middleware and tag names to itself, and each
      path it produced replaces the whole item the parent had for that path:
      operations the parent registered there earlier are dropped. */
  lemma GroupStep(inner: seq<Route>, st: State, statusText: int -> string, k: string)
    requires st.paths.Valid() && Step(GroupEntry(inner), st, statusText).Ok?
    ensures Walk(inner, Nested(st), statusText).Ok?
    ensures var r := Step(GroupEntry(inner), st, statusText).value;
      && r.use == st.use && r.tags.references == st.tags.references
      && GoMaps.Lookup(r.paths.Pairs(), k) ==
        (if k in Walk(inner, Nested(st), statusText).value.paths.keys
         then GoMaps.Lookup(Walk(inner, Nested(st), statusText).value.paths.Pairs(), k)
         else GoMaps.Lookup(st.paths.Pairs(), k))
  {
    var sub := Walk(inner, Nested(st), statusText).value;
    SetPairsRefines(st.paths, sub.paths.Pairs());
    OrderedMaps.KeysDistinct(sub.paths);
    GoMaps.PutAllOverrides(st.paths.Pairs(), sub.paths.Pairs(), k);
    PairsDomain(sub.paths);
  }

  predicate ItemRefsOk(p: OpenApi.PathItem, components: GoMaps.GoMap<string, OpenApi.Schema>) {
    forall n :: SlotOf(p, n).Some? ==> ResponsesRefsOk(SlotOf(p, n).value.responses, components)
  }

  /** Every operation of every path refers only to components that exist. */
  predicate PathsRefsOk(paths: OrderedMaps.OrderedMap<string, OpenApi.PathItem>, components: GoMaps.GoMap<string, OpenApi.Schema>) {
    forall i :: 0 <= i < |paths.values| ==> ItemRefsOk(paths.values[i], components)
  }

  lemma ResponsesRefsGrow(rs: OpenApi.Responses, c: GoMaps.GoMap<string, OpenApi.Schema>, c': GoMaps.GoMap<string, OpenApi.Schema>)
    requires GoMaps.Domain(c) <= GoMaps.Domain(c') && ResponsesRefsOk(rs, c)
    ensures ResponsesRefsOk(rs, c')
  {
    if rs.defaultResponse.content.Some? {
      MediaRefsGrow(rs.defaultResponse.content.value, c, c');
    }
    if rs.statusCodes.Some? {
      StatusRefsGrow(rs.statusCodes.value, c, c');
    }
  }

  lemma PathsRefsGrow(paths: OrderedMaps.OrderedMap<string, OpenApi.PathItem>, c: GoMaps.GoMap<string, OpenApi.Schema>, c': GoMaps.GoMap<string, OpenApi.Schema>)
    requires GoMaps.Domain(c) <= GoMaps.Domain(c') && PathsRefsOk(paths, c)
    ensures PathsRefsOk(paths, c')
  {
    forall i, n | 0 <= i < |paths.values| && SlotOf(paths.values[i], n).Some?
      ensures ResponsesRefsOk(SlotOf(paths.values[i], n).value.responses, c')
    {
      assert ItemRefsOk(paths.values[i], c);
      ResponsesRefsGrow(SlotOf(paths.values[i], n).value.responses, c, c');
    }
  }

  lemma SetPathsRefsOk(m: OrderedMaps.OrderedMap<string, OpenApi.PathItem>, k: string, item: OpenApi.PathItem, c: GoMaps.GoMap<string, OpenApi.Schema>)
    requires m.Valid() && PathsRefsOk(m, c) && ItemRefsOk(item, c)
    ensures PathsRefsOk(OrderedMaps.Set(m, k, item), c)
  {
    var r := OrderedMaps.Set(m, k, item);
    forall i | 0 <= i < |r.values| ensures ItemRefsOk(r.values[i], c) {
      if k in m.keys {
        if i != m.unique[k] {
          assert r.values[i] == m.values[i];
        }
      } else if i < |m.values| {
        assert r.values[i] == m.values[i];
      }
    }
  }

  lemma {:induction false} SetPairsRefsOk(m: OrderedMaps.OrderedMap<string, OpenApi.PathItem>, ps: seq<(string, OpenApi.PathItem)>, c: GoMaps.GoMap<string, OpenApi.Schema>)
    requires m.Valid() && PathsRefsOk(m, c)
    requires forall i :: 0 <= i < |ps| ==> ItemRefsOk(ps[i].1, c)
    ensures PathsRefsOk(SetPairs(m, ps), c)
    decreases |ps|
  {
    if |ps| > 0 {
      SetPathsRefsOk(m, ps[0].0, ps[0].1, c);
      assert forall i :: 0 <= i < |ps[1..]| ==> ps[1..][i] == ps[i + 1];
      SetPairsRefsOk(OrderedMaps.Set(m, ps[0].0, ps[0].1), ps[1..], c);
    }
  }

  lemma ApiStepRefs(api: Api, st: State, statusText: int -> string)
    requires st.paths.Valid() && ApiStep(api, st, statusText).Ok? && PathsRefsOk(st.paths, st.components)
    ensures GoMaps.Domain(st.components) <= GoMaps.Domain(ApiStep(api, st, statusText).value.components)
    ensures PathsRefsOk(ApiStep(api, st, statusText).value.paths, ApiStep(api, st, statusText).value.components)
  {
    var built := BuildOperation(api, st.tags, st.components, statusText).value;
    var c' := built.1;
    PathsRefsGrow(st.paths, st.components, c');
    var p := OrderedMaps.Get(st.paths, api.path, OpenApi.EmptyPathItem).0;
    assert ItemRefsOk(p, c') by {
      if api.path in st.paths.unique {
        assert p == st.paths.values[st.paths.unique[api.path]];
      }
    }
    var item := PlaceOperation(p, api.httpMethod, built.0);
    SetPathsRefsOk(st.paths, api.path, item, c');
  }

  /** Reference integrity: a successful walk only adds components, and if
      every `$ref` among the paths it started with resolved, every `$ref`
      among the paths it ends with resolves against the components it ends
      with. */
  lemma {:induction false} WalkRefs(routes: seq<Route>, st: State, statusText: int -> string)
    requires st.paths.Valid() && Walk(routes, st, statusText).Ok?
    ensures GoMaps.Domain(st.components) <= GoMaps.Domain(Walk(routes, st, statusText).value.components)
    ensures PathsRefsOk(st.paths, st.components) ==>
      PathsRefsOk(Walk(routes, st, statusText).value.paths, Walk(routes, st, statusText).value.components)
    decreases routes
  {
    if |routes| > 0 {
      WalkUnfold(routes, st, statusText);
      var st' := Step(routes[0], st, statusText).value;
      StepRefs(routes[0], st, statusText);
      WalkRefs(routes[1..], st', statusText);
    }
  }

  lemma {:induction false} StepRefs(route: Route, st: State, statusText: int -> string)
    requires st.paths.Valid() && Step(route, st, statusText).Ok?
    ensures GoMaps.Domain(st.components) <= GoMaps.Domain(Step(route, st, statusText).value.components)
    ensures PathsRefsOk(st.paths, st.components) ==>
      PathsRefsOk(Step(route, st, statusText).value.paths, Step(route, st, statusText).value.components)
    decreases route
  {
    match route
    case ApiEntry(api) =>
      if PathsRefsOk(st.paths, st.components) {
        ApiStepRefs(api, st, statusText);
      } else {
        assert Step(route, st, statusText) == ApiStep(api, st, statusText);
      }
    case GroupEntry(inner) =>
      var sub := Walk(inner, Nested(st), statusText).value;
      WalkRefs(inner, Nested(st), statusText);
      if PathsRefsOk(st.paths, st.components) {
        PathsRefsGrow(st.paths, st.components, sub.components);
        var ps := sub.paths.Pairs();
        SetPairsRefsOk(st.paths, ps, sub.components);
      }
    case _ =>
  }
}
