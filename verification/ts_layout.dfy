/** The text `GenerateTypescriptModels` writes (internal/generate/typescript.go),
    stated directly: the layout of the `Api` interface, of one call signature
    per operation, and of one type alias per component, and the proof that
    the generator's steps write exactly that text before the markers are
    stripped. */
module TsLayout {
  import opened Wrappers
  import opened Text
  import opened OpenApi
  import GoMaps
  import OrderedMaps
  import OpenApiSpec
  import SchemaInference
  import opened TsGenerator
  import opened TypeScript
  import opened TsClient

  /** A `key: text` line two levels deep. */
  function FieldLine(key: string, text: string): string {
    "\t\t" + key + ": " + text + "\n"
  }

  /** `path: {...}` and the like, on their own line, for a group with
      properties. */
  function GroupLine(key: string, s: Schema): string {
    if |s.properties| > 0 then "\t\t\t" + key + ": " + Rendered(s, 3) + "\n" else ""
  }

  /** The headers, or a plain optional string record without any. */
  function HeaderLine(h: Schema): string {
    if |h.properties| > 0 then "\t\t\theader: " + "Record<string, string> & " + Rendered(h, 3)
    else "\t\t\theader?: " + "Record<string, string>"
  }

  /** The `params` member from the path, query, cookie and header schemas. */
  function ParamsWith(ps: Schema, qs: Schema, cs: Schema, hs: Schema): string {
    "\t\tparams: {\n" + GroupLine("path", ps) + GroupLine("query", qs) + GroupLine("cookie", cs) +
    HeaderLine(hs) + "\n\t\t}"
  }

  function ParamsText(op: Operation): string {
    ParamsWith(SchemaInference.PathSchema(op), SchemaInference.QuerySchema(op),
      SchemaInference.CookieSchema(op), SchemaInference.HeaderSchema(op))
  }

  /** As written, an optional body is declared `body` and a required one
      `body?`. */
  function BodyKey(b: RequestBody): string {
    if !b.required then "body" else "body?"
  }

  /** `schema | ` per request content type, one per line; the first follows
      the key on its line, the others are indented. */
  function ContentLines(content: GoMaps.GoMap<string, MediaType>, lead: string): string
    decreases |content|
  {
    if |content| == 0 then ""
    else lead + Rendered(content[0].1.schema, 2) + " | " + "\n" + ContentLines(content[1..], "\t\t")
  }

  function BodyText(op: Operation): string {
    if op.requestBody.None? then ""
    else BodyKey(op.requestBody.value) + ": " + ContentLines(op.requestBody.value.content, "") + Marker
  }

  /** The `api` argument of a call signature. */
  function ApiText(route: string, verb: string, op: Operation): string {
    "api: {\n" + FieldLine("method", "'" + verb + "'") + FieldLine("path", "'" + route + "'") +
    ParamsText(op) + BodyText(op) + "\n\t}"
  }

  /** `schema | ` per response content type, on one line. */
  function MediaText(content: GoMaps.GoMap<string, MediaType>): string
    decreases |content|
  {
    if |content| == 0 then "" else Rendered(content[0].1.schema, 2) + " | " + MediaText(content[1..])
  }

  /** One member of the result union. */
  function ResponseText(code: string, resp: Response): string {
    "{\n" + FieldLine("status", code) + "\t\tbody: " + MediaText(resp.content.GetOr([])) + Marker + "\n\t}" + " | "
  }

  function ResponsesText(items: seq<(string, Response)>): string
    decreases |items|
  {
    if |items| == 0 then "" else ResponseText(items[0].0, items[0].1) + ResponsesText(items[1..])
  }

  /** One call signature of the interface and the blank line after it. */
  function SignatureText(route: string, verb: string, op: Operation): string {
    "\t(" + ApiText(route, verb, op) + "): Promise<" +
    ResponsesText(OpenApiSpec.ResponseItems(op.responses)) + Marker + ">;\n\n"
  }

  function OperationsText(route: string, ops: seq<(string, Operation)>): string
    decreases |ops|
  {
    if |ops| == 0 then "" else SignatureText(route, ops[0].0, ops[0].1) + OperationsText(route, ops[1..])
  }

  /** The signatures of every operation of every path, in path order. */
  function PathsText(pairs: GoMaps.GoMap<string, PathItem>): string
    decreases |pairs|
  {
    if |pairs| == 0 then ""
    else OperationsText(pairs[0].0, OpenApiSpec.Operations(pairs[0].1)) + PathsText(pairs[1..])
  }

  /** The `Api` interface: nothing for a document without paths. */
  function InterfaceText(paths: OrderedMaps.OrderedMap<string, PathItem>): string
    requires paths.Valid()
  {
    if OrderedMaps.Len(paths) > 0 then "interface Api {\n" + PathsText(paths.Pairs()) + Marker + "\n}" + "\n\n"
    else ""
  }

  /** A `type Name = schema` line per component. */
  function TypeLines(schemas: GoMaps.GoMap<string, Schema>): string
    decreases |schemas|
  {
    if |schemas| == 0 then ""
    else "type " + schemas[0].0 + " = " + Rendered(schemas[0].1, 0) + "\n" + TypeLines(schemas[1..])
  }

  // The generator's steps write exactly these texts.

  lemma Regroup3(x: string, a: string, b: string, c: string)
    ensures x + a + b + c == x + (a + b + c)
  {
    assert x + a + b == x + (a + b);
  }

  /** A step that writes `piece` after text that had written `done`
      since `base`. */
  lemma Extend(buf: string, next: string, base: string, done: string, piece: string)
    requires buf == base + done && next == buf + piece
    ensures next == base + (done + piece)
  {
    assert base + done + piece == base + (done + piece);
  }

  lemma Regroup5(x: string, a: string, b: string, c: string, d: string, e: string)
    ensures x + a + b + c + d + e == x + (a + b + c + d + e)
  {
    Regroup3(x, a, b, c);
    Regroup3(x, a + b + c, d, e);
    Regroup3(a, b, c, d);
  }

  lemma Tabs()
    ensures Repeat("\t", 1) == "\t" && Repeat("\t", 2) == "\t\t" && Repeat("\t", 3) == "\t\t\t"
  {
    assert Repeat("\t", 0) == "";
    assert Repeat("\t", 1) == "\t" + "";
    assert Repeat("\t", 2) == "\t" + "\t";
  }

  /** `schema` on a line already indented to the goal. */
  lemma EmitSchemaWrites(g: Gen, s: Schema)
    requires g.goal <= g.current
    ensures EmitSchema(g, s).buf == g.buf + Rendered(s, g.goal)
    ensures EmitSchema(g, s).current == g.current
  {
    assert Intent(g) == g;
  }

  /** `name` on a fresh line: the tabs up to the goal, then the text. */
  lemma NameWrites(g: Gen, s: string)
    requires g.current == 0 && 0 <= g.goal <= 3
    ensures Name(g, s).buf == g.buf + Repeat("\t", g.goal) + s
    ensures Name(g, s).current == g.goal
  {
    if g.goal == 0 {
      assert Intent(g) == g;
    }
  }

  /** The closing brace on a new line, one level out. */
  lemma CloseWrites(g: Gen)
    requires 1 <= g.goal <= 4
    ensures Close(g).buf == g.buf + ("\n" + Repeat("\t", g.goal - 1) + "}")
    ensures Close(g).current == g.goal - 1
  {
    NameWrites(Newline(g.(goal := g.goal - 1)), "}");
  }

  /** The opening brace after text already indented to the goal. */
  lemma OpenWrites(g: Gen)
    requires g.goal <= g.current
    ensures Open(g).buf == g.buf + "{\n"
  {
    assert Intent(g) == g;
  }

  lemma EmitGroupWrites(g: Gen, key: string, s: Schema)
    requires g.goal == 3 && g.current == 0
    ensures EmitGroup(g, key, s).buf == g.buf + GroupLine(key, s)
    ensures EmitGroup(g, key, s).current == 0
  {
    if |s.properties| > 0 {
      Tabs();
      NameWrites(g, key);
      var c := Colon(Name(g, key));
      assert c.buf == g.buf + "\t\t\t" + key + ": ";
      EmitSchemaWrites(c, s);
    }
  }

  /** The header line of the `params` member. */
  lemma HeaderWrites(g: Gen, header: Schema)
    requires g.goal == 3 && g.current == 0
    ensures var r := if |header.properties| > 0 then EmitSchema(Write(Colon(Name(g, "header")), "Record<string, string> & "), header)
                     else Write(Colon(Name(g, "header?")), "Record<string, string>");
      r.buf == g.buf + HeaderLine(header) && r.goal == 3 && r.current == 3
  {
    if |header.properties| > 0 {
      HeaderSome(g, header);
    } else {
      HeaderNone(g, header);
    }
  }

  lemma HeaderSome(g: Gen, header: Schema)
    requires g.goal == 3 && g.current == 0
    requires |header.properties| > 0
    ensures var r := EmitSchema(Write(Colon(Name(g, "header")), "Record<string, string> & "), header);
      r.buf == g.buf + HeaderLine(header) && r.goal == 3 && r.current == 3
  {
    Tabs();
    NameWrites(g, "header");
    var w := Write(Colon(Name(g, "header")), "Record<string, string> & ");
    assert "\t\t\t" + "header" + ": " == "\t\t\theader: ";
    EmitSchemaWrites(w, header);
  }

  lemma HeaderNone(g: Gen, header: Schema)
    requires g.goal == 3 && g.current == 0
    requires |header.properties| == 0
    ensures var r := Write(Colon(Name(g, "header?")), "Record<string, string>");
      r.buf == g.buf + HeaderLine(header) && r.goal == 3 && r.current == 3
  {
    Tabs();
    NameWrites(g, "header?");
    assert "\t\t\t" + "header?" + ": " == "\t\t\theader?: ";
  }

  lemma ParamsOpens(g: Gen)
    requires g.goal == 2 && g.current == 0
    ensures Open(Colon(Name(g, "params"))).buf == g.buf + "\t\tparams: {\n"
    ensures Open(Colon(Name(g, "params"))).goal == 3 && Open(Colon(Name(g, "params"))).current == 0
  {
    Tabs();
    NameWrites(g, "params");
    var n := Colon(Name(g, "params"));
    assert "\t\t" + "params" + ": " == "\t\tparams: ";
    OpenWrites(n);
    assert "\t\tparams: " + "{\n" == "\t\tparams: {\n";
  }

  lemma GroupsWrite(g0: Gen, ps: Schema, qs: Schema, cs: Schema)
    requires g0.goal == 3 && g0.current == 0
    ensures var g3 := EmitGroup(EmitGroup(EmitGroup(g0, "path", ps), "query", qs), "cookie", cs);
      g3.buf == g0.buf + GroupLine("path", ps) + GroupLine("query", qs) + GroupLine("cookie", cs) &&
      g3.goal == 3 && g3.current == 0
  {
    var g1 := EmitGroup(g0, "path", ps);
    EmitGroupWrites(g0, "path", ps);
    var g2 := EmitGroup(g1, "query", qs);
    EmitGroupWrites(g1, "query", qs);
    EmitGroupWrites(g2, "cookie", cs);
  }

  lemma ParamsSteps(g: Gen, ps: Schema, qs: Schema, cs: Schema, hs: Schema)
    requires g.goal == 2 && g.current == 0
    ensures var g0 := Open(Colon(Name(g, "params")));
      var g3 := EmitGroup(EmitGroup(EmitGroup(g0, "path", ps), "query", qs), "cookie", cs);
      var g4 :=
        if |hs.properties| > 0 then EmitSchema(Write(Colon(Name(g3, "header")), "Record<string, string> & "), hs)
        else Write(Colon(Name(g3, "header?")), "Record<string, string>");
      Close(g4).buf == g.buf + ParamsWith(ps, qs, cs, hs) && Close(g4).current == 2
  {
    var g0 := Open(Colon(Name(g, "params")));
    ParamsOpens(g);
    var g3 := EmitGroup(EmitGroup(EmitGroup(g0, "path", ps), "query", qs), "cookie", cs);
    GroupsWrite(g0, ps, qs, cs);
    HeaderWrites(g3, hs);
    var g4 :=
      if |hs.properties| > 0 then EmitSchema(Write(Colon(Name(g3, "header")), "Record<string, string> & "), hs)
      else Write(Colon(Name(g3, "header?")), "Record<string, string>");
    var p := "\t\tparams: {\n" + GroupLine("path", ps) + GroupLine("query", qs) + GroupLine("cookie", cs) + HeaderLine(hs);
    assert g4.buf == g.buf + "\t\tparams: {\n" + GroupLine("path", ps) + GroupLine("query", qs) + GroupLine("cookie", cs) + HeaderLine(hs);
    Regroup5(g.buf, "\t\tparams: {\n", GroupLine("path", ps), GroupLine("query", qs), GroupLine("cookie", cs), HeaderLine(hs));
    CloseParams(g4, g.buf, p);
  }

  lemma CloseParams(g: Gen, base: string, p: string)
    requires g.goal == 3 && g.buf == base + p
    ensures Close(g).buf == base + (p + "\n\t\t}") && Close(g).current == 2
  {
    CloseWrites(g);
    Tabs();
    assert "\n" + Repeat("\t", 2) + "}" == "\n\t\t}";
  }

  lemma EmitParamsWrites(g: Gen, op: Operation)
    requires g.goal == 2 && g.current == 0
    ensures EmitParams(g, op).buf == g.buf + ParamsText(op)
    ensures EmitParams(g, op).current == 2
  {
    ParamsSteps(g, SchemaInference.PathSchema(op), SchemaInference.QuerySchema(op),
      SchemaInference.CookieSchema(op), SchemaInference.HeaderSchema(op));
  }

  /** `schema` at the start of a line: the tabs up to the goal first. */
  lemma EmitSchemaPads(g: Gen, s: Schema)
    requires g.current == 0 && 0 <= g.goal <= 3
    ensures EmitSchema(g, s).buf == g.buf + Repeat("\t", g.goal) + Rendered(s, g.goal)
    ensures EmitSchema(g, s).current == g.goal
  {
    if g.goal == 0 {
      assert Intent(g) == g;
    }
  }

  /** The request body's content lines: the first continues the line of
      the key, the others start indented. */
  lemma {:induction false} EmitBodyContentsWrites(g: Gen, content: GoMaps.GoMap<string, MediaType>, lead: string)
    requires g.goal == 2
    requires (g.current == 2 && lead == "") || (g.current == 0 && lead == "\t\t")
    ensures EmitBodyContents(g, content).buf == g.buf + ContentLines(content, lead)
    decreases |content|
  {
    if |content| > 0 {
      var s := content[0].1.schema;
      var e := EmitSchema(g, s);
      if g.current == 2 {
        EmitSchemaWrites(g, s);
        assert e.buf == g.buf + lead + Rendered(s, 2);
      } else {
        EmitSchemaPads(g, s);
        Tabs();
      }
      var n := Newline(Union(e));
      assert n.buf == g.buf + lead + Rendered(s, 2) + " | " + "\n";
      EmitBodyContentsWrites(n, content[1..], "\t\t");
      Regroup5(g.buf, lead, Rendered(s, 2), " | ", "\n", ContentLines(content[1..], "\t\t"));
    }
  }

  /** The `body` member, right after the closing brace of `params`. */
  lemma EmitBodyWrites(g: Gen, op: Operation)
    requires g.goal == 2 && g.current == 2
    ensures EmitBody(g, op).buf == g.buf + BodyText(op)
  {
    if op.requestBody.Some? {
      var b := op.requestBody.value;
      var c := Colon(Name(g, BodyKey(b)));
      assert Intent(g) == g;
      EmitBodyContentsWrites(c, b.content, "");
      Regroup3(g.buf, BodyKey(b), ": ", ContentLines(b.content, ""));
      Regroup3(g.buf, BodyKey(b) + ": ", ContentLines(b.content, ""), Marker);
    }
  }

  /** A `key: text` line written at the start of a line two levels deep. */
  lemma FieldWrites(g: Gen, key: string, text: string)
    requires g.goal == 2 && g.current == 0
    ensures Newline(Write(Colon(Name(g, key)), text)).buf == g.buf + FieldLine(key, text)
    ensures Newline(Write(Colon(Name(g, key)), text)).current == 0
  {
    Tabs();
    NameWrites(g, key);
    Regroup5(g.buf, "\t\t", key, ": ", text, "\n");
  }

  /** The opening of the `api` argument: its method and path. */
  lemma ApiOpens(g: Gen, route: string, verb: string)
    requires g.goal == 1 && g.current == 1
    ensures var g1 := Open(Colon(Name(g, "api")));
      var g2 := Newline(Write(Colon(Name(g1, "method")), "'" + verb + "'"));
      var g3 := Newline(Write(Colon(Name(g2, "path")), "'" + route + "'"));
      g3.buf == g.buf + ("api: {\n" + FieldLine("method", "'" + verb + "'") + FieldLine("path", "'" + route + "'")) &&
      g3.goal == 2 && g3.current == 0
  {
    assert Intent(g) == g;
    var n := Colon(Name(g, "api"));
    OpenWrites(n);
    var g1 := Open(n);
    assert g1.buf == g.buf + "api: {\n" by {
      assert "api" + ": " + "{\n" == "api: {\n";
    }
    var f1 := FieldLine("method", "'" + verb + "'");
    var g2 := Newline(Write(Colon(Name(g1, "method")), "'" + verb + "'"));
    FieldWrites(g1, "method", "'" + verb + "'");
    Extend(g1.buf, g2.buf, g.buf, "api: {\n", f1);
    var f2 := FieldLine("path", "'" + route + "'");
    FieldWrites(g2, "path", "'" + route + "'");
    Extend(g2.buf, Newline(Write(Colon(Name(g2, "path")), "'" + route + "'")).buf, g.buf, "api: {\n" + f1, f2);
  }

  /** The rest of the `api` argument: parameters, body, closing brace. */
  lemma ApiCloses(g3: Gen, base: string, head: string, op: Operation)
    requires g3.goal == 2 && g3.current == 0 && g3.buf == base + head
    ensures Close(EmitBody(EmitParams(g3, op), op)).buf == base + (head + ParamsText(op) + BodyText(op) + "\n\t}")
    ensures Close(EmitBody(EmitParams(g3, op), op)).current == 1
  {
    var g4 := EmitParams(g3, op);
    EmitParamsWrites(g3, op);
    Extend(g3.buf, g4.buf, base, head, ParamsText(op));
    var g5 := EmitBody(g4, op);
    EmitBodyWrites(g4, op);
    Extend(g4.buf, g5.buf, base, head + ParamsText(op), BodyText(op));
    CloseApi(g5, base, head + ParamsText(op) + BodyText(op));
  }

  lemma CloseApi(g: Gen, base: string, done: string)
    requires g.goal == 2 && g.buf == base + done
    ensures Close(g).buf == base + (done + "\n\t}") && Close(g).current == 1
  {
    CloseWrites(g);
    Tabs();
    assert "\n" + Repeat("\t", 1) + "}" == "\n\t}";
    Extend(g.buf, Close(g).buf, base, done, "\n\t}");
  }

  /** The `api` argument, after the opening parenthesis of a signature. */
  lemma EmitApiWrites(g: Gen, route: string, verb: string, op: Operation)
    requires g.goal == 1 && g.current == 1
    ensures EmitApi(g, route, verb, op).buf == g.buf + ApiText(route, verb, op)
    ensures EmitApi(g, route, verb, op).current == 1
  {
    var head := "api: {\n" + FieldLine("method", "'" + verb + "'") + FieldLine("path", "'" + route + "'");
    var g1 := Open(Colon(Name(g, "api")));
    var g2 := Newline(Write(Colon(Name(g1, "method")), "'" + verb + "'"));
    var g3 := Newline(Write(Colon(Name(g2, "path")), "'" + route + "'"));
    ApiOpens(g, route, verb);
    ApiCloses(g3, g.buf, head, op);
    assert EmitApi(g, route, verb, op) == Close(EmitBody(EmitParams(g3, op), op));
  }

  lemma {:induction false} EmitMediaWrites(g: Gen, content: GoMaps.GoMap<string, MediaType>)
    requires g.goal == 2 && g.current == 2
    ensures EmitMedia(g, content).buf == g.buf + MediaText(content)
    ensures EmitMedia(g, content).current == 2
    decreases |content|
  {
    if |content| > 0 {
      var s := content[0].1.schema;
      EmitSchemaWrites(g, s);
      var u := Union(EmitSchema(g, s));
      EmitMediaWrites(u, content[1..]);
      Regroup3(g.buf, Rendered(s, 2), " | ", MediaText(content[1..]));
    }
  }

  /** The opening of a response: its status line and the `body` key. */
  lemma ResponseOpens(g: Gen, code: string)
    requires g.goal == 1 && g.current == 1
    ensures var g1 := Open(g);
      var g3 := Colon(Name(Newline(Write(Colon(Name(g1, "status")), code)), "body"));
      g3.buf == g.buf + ("{\n" + FieldLine("status", code) + "\t\tbody: ") && g3.goal == 2 && g3.current == 2
  {
    OpenWrites(g);
    var g1 := Open(g);
    FieldWrites(g1, "status", code);
    var g2 := Newline(Write(Colon(Name(g1, "status")), code));
    Extend(g1.buf, g2.buf, g.buf, "{\n", FieldLine("status", code));
    Tabs();
    NameWrites(g2, "body");
    assert "\t\t" + "body" + ": " == "\t\tbody: ";
    Extend(g2.buf, Colon(Name(g2, "body")).buf, g.buf, "{\n" + FieldLine("status", code), "\t\tbody: ");
  }

  lemma EmitResponseWrites(g: Gen, code: string, resp: Response)
    requires g.goal == 1 && g.current == 1
    ensures EmitResponse(g, code, resp).buf == g.buf + ResponseText(code, resp)
    ensures EmitResponse(g, code, resp).current == 1
  {
    var head := "{\n" + FieldLine("status", code) + "\t\tbody: ";
    var media := resp.content.GetOr([]);
    var g1 := Open(g);
    var g3 := Colon(Name(Newline(Write(Colon(Name(g1, "status")), code)), "body"));
    ResponseOpens(g, code);
    var g4 := EmitMedia(g3, media);
    EmitMediaWrites(g3, media);
    Extend(g3.buf, g4.buf, g.buf, head, MediaText(media));
    var g5 := Mark(g4);
    Extend(g4.buf, g5.buf, g.buf, head + MediaText(media), Marker);
    CloseWrites(g5);
    Tabs();
    assert "\n" + Repeat("\t", 1) + "}" == "\n\t}";
    Extend(g5.buf, Close(g5).buf, g.buf, head + MediaText(media) + Marker, "\n\t}");
    Extend(Close(g5).buf, Union(Close(g5)).buf, g.buf, head + MediaText(media) + Marker + "\n\t}", " | ");
    assert EmitResponse(g, code, resp) == Union(Close(g5));
  }

  lemma {:induction false} EmitResponsesWrites(g: Gen, items: seq<(string, Response)>)
    requires g.goal == 1 && g.current == 1
    ensures EmitResponses(g, items).buf == g.buf + ResponsesText(items)
    ensures EmitResponses(g, items).current == 1
    decreases |items|
  {
    if |items| > 0 {
      var r := EmitResponse(g, items[0].0, items[0].1);
      EmitResponseWrites(g, items[0].0, items[0].1);
      EmitResponsesWrites(r, items[1..]);
      assert EmitResponses(g, items) == EmitResponses(r, items[1..]);
      Extend(r.buf, EmitResponses(r, items[1..]).buf, g.buf, ResponseText(items[0].0, items[0].1), ResponsesText(items[1..]));
    }
  }

  /** After the `api` argument: the parenthesis closes and the result type
      opens. */
  lemma PromiseOpens(a: Gen)
    requires a.goal == 1 && a.current == 1
    ensures Write(Name(Colon(Write(a, ")")), "Promise"), "<").buf == a.buf + "): Promise<"
    ensures Write(Name(Colon(Write(a, ")")), "Promise"), "<").current == 1
  {
    assert Intent(Colon(Write(a, ")"))) == Colon(Write(a, ")"));
    assert ")" + ": " + "Promise" + "<" == "): Promise<";
  }

  /** The end of a signature: the result type closes, then a blank line. */
  lemma SignatureCloses(m: Gen)
    ensures Newline(Newline(Write(Write(m, ">"), ";"))).buf == m.buf + ">;\n\n"
    ensures Newline(Newline(Write(Write(m, ">"), ";"))).current == 0
  {
    assert ">" + ";" + "\n" + "\n" == ">;\n\n";
  }

  /** One call signature, on a fresh line one level deep. */
  lemma EmitOperationWrites(g: Gen, route: string, verb: string, op: Operation)
    requires g.goal == 1 && g.current == 0
    ensures EmitOperation(g, route, verb, op).buf == g.buf + SignatureText(route, verb, op)
    ensures EmitOperation(g, route, verb, op).current == 0
  {
    var items := OpenApiSpec.ResponseItems(op.responses);
    var api := ApiText(route, verb, op);
    Tabs();
    var g1 := Write(Intent(g), "(");
    assert g1.buf == g.buf + "\t(";
    var a := EmitApi(g1, route, verb, op);
    EmitApiWrites(g1, route, verb, op);
    Extend(g1.buf, a.buf, g.buf, "\t(", api);
    var g3 := Write(Name(Colon(Write(a, ")")), "Promise"), "<");
    PromiseOpens(a);
    Extend(a.buf, g3.buf, g.buf, "\t(" + api, "): Promise<");
    var r := EmitResponses(g3, items);
    EmitResponsesWrites(g3, items);
    Extend(g3.buf, r.buf, g.buf, "\t(" + api + "): Promise<", ResponsesText(items));
    var m := Mark(r);
    Extend(r.buf, m.buf, g.buf, "\t(" + api + "): Promise<" + ResponsesText(items), Marker);
    SignatureCloses(m);
    Extend(m.buf, Newline(Newline(Write(Write(m, ">"), ";"))).buf, g.buf,
      "\t(" + api + "): Promise<" + ResponsesText(items) + Marker, ">;\n\n");
    assert EmitOperation(g, route, verb, op) == Newline(Newline(Write(Write(m, ">"), ";")));
  }

  lemma {:induction false} EmitOperationsWrites(g: Gen, route: string, ops: seq<(string, Operation)>)
    requires g.goal == 1 && g.current == 0
    ensures EmitOperations(g, route, ops).buf == g.buf + OperationsText(route, ops)
    ensures EmitOperations(g, route, ops).current == 0
    decreases |ops|
  {
    if |ops| > 0 {
      var r := EmitOperation(g, route, ops[0].0, ops[0].1);
      EmitOperationWrites(g, route, ops[0].0, ops[0].1);
      EmitOperationsWrites(r, route, ops[1..]);
      assert EmitOperations(g, route, ops) == EmitOperations(r, route, ops[1..]);
      Extend(r.buf, EmitOperations(r, route, ops[1..]).buf, g.buf,
        SignatureText(route, ops[0].0, ops[0].1), OperationsText(route, ops[1..]));
    }
  }

  lemma {:induction false} EmitPathsWrites(g: Gen, pairs: GoMaps.GoMap<string, PathItem>)
    requires g.goal == 1 && g.current == 0
    ensures EmitPaths(g, pairs).buf == g.buf + PathsText(pairs)
    ensures EmitPaths(g, pairs).current == 0
    decreases |pairs|
  {
    if |pairs| > 0 {
      var ops := OpenApiSpec.Operations(pairs[0].1);
      var r := EmitOperations(g, pairs[0].0, ops);
      EmitOperationsWrites(g, pairs[0].0, ops);
      EmitPathsWrites(r, pairs[1..]);
      assert EmitPaths(g, pairs) == EmitPaths(r, pairs[1..]);
      Extend(r.buf, EmitPaths(r, pairs[1..]).buf, g.buf, OperationsText(pairs[0].0, ops), PathsText(pairs[1..]));
    }
  }

  lemma InterfaceOpens(g: Gen)
    requires g.goal == 0 && g.current == 0
    ensures var g1 := Open(Write(Name(Write(Name(g, "interface"), " "), "Api"), " "));
      g1.buf == g.buf + "interface Api {\n" && g1.goal == 1 && g1.current == 0
  {
    assert Intent(g) == g;
    var h := Write(Name(Write(Name(g, "interface"), " "), "Api"), " ");
    assert Intent(Write(Name(g, "interface"), " ")) == Write(Name(g, "interface"), " ");
    OpenWrites(h);
    assert "interface" + " " + "Api" + " " + "{\n" == "interface Api {\n";
  }

  lemma InterfaceCloses(p: Gen, base: string, done: string)
    requires p.goal == 1 && p.buf == base + done
    ensures Newline(Newline(Close(Mark(p)))).buf == base + (done + Marker + "\n}" + "\n\n")
    ensures Newline(Newline(Close(Mark(p)))).current == 0
  {
    var m := Mark(p);
    Extend(p.buf, m.buf, base, done, Marker);
    CloseWrites(m);
    assert "\n" + Repeat("\t", 0) + "}" == "\n}";
    Extend(m.buf, Close(m).buf, base, done + Marker, "\n}");
    Extend(Close(m).buf, Newline(Newline(Close(m))).buf, base, done + Marker + "\n}", "\n\n");
  }

  /** The `Api` interface, at the start of a line at the top level. */
  lemma EmitInterfaceWrites(g: Gen, paths: OrderedMaps.OrderedMap<string, PathItem>)
    requires paths.Valid()
    requires g.goal == 0 && g.current == 0
    ensures EmitInterface(g, paths).buf == g.buf + InterfaceText(paths)
    ensures EmitInterface(g, paths).current == 0
  {
    if OrderedMaps.Len(paths) > 0 {
      var g1 := Open(Write(Name(Write(Name(g, "interface"), " "), "Api"), " "));
      InterfaceOpens(g);
      var p := EmitPaths(g1, paths.Pairs());
      EmitPathsWrites(g1, paths.Pairs());
      Extend(g1.buf, p.buf, g.buf, "interface Api {\n", PathsText(paths.Pairs()));
      InterfaceCloses(p, g.buf, "interface Api {\n" + PathsText(paths.Pairs()));
    }
  }

  lemma {:induction false} EmitComponentsWrites(g: Gen, schemas: GoMaps.GoMap<string, Schema>)
    requires g.goal == 0 && g.current == 0
    ensures EmitComponents(g, schemas).buf == g.buf + TypeLines(schemas)
    ensures EmitComponents(g, schemas).current == 0
    decreases |schemas|
  {
    if |schemas| > 0 {
      var name := schemas[0].0;
      assert Intent(g) == g;
      var g1 := Write(Write(Name(g, "type"), " "), name);
      var w := Write(g1, " = ");
      EmitSchemaWrites(w, schemas[0].1);
      var g2 := Newline(EmitSchema(w, schemas[0].1));
      var line := "type " + name + " = " + Rendered(schemas[0].1, 0) + "\n";
      assert g2.buf == g.buf + line by {
        assert "type" + " " == "type ";
        Regroup5(g.buf, "type ", name, " = ", Rendered(schemas[0].1, 0), "\n");
      }
      EmitComponentsWrites(g2, schemas[1..]);
      assert EmitComponents(g, schemas) == EmitComponents(g2, schemas[1..]);
      Extend(g2.buf, EmitComponents(g2, schemas[1..]).buf, g.buf, line, TypeLines(schemas[1..]));
    }
  }

  /** Before the markers are stripped and the client appended, the text is
      the preamble, the `Api` interface (one signature per operation, path
      by path, nothing without paths) and one type alias per component. */
  lemma EmitWrites(doc: Document)
    requires doc.paths.Valid()
    ensures Emit(doc).buf == Preamble(doc.info).buf + InterfaceText(doc.paths) + TypeLines(doc.components.schemas)
  {
    var g0 := Preamble(doc.info);
    EmitInterfaceWrites(g0, doc.paths);
    var g1 := EmitInterface(g0, doc.paths);
    EmitComponentsWrites(g1, doc.components.schemas);
  }

  /** The block comment of a titled document; nothing without a title. */
  function TitleText(info: Info): string {
    if info.title != "" then TitleBlock(info) else ""
  }

  /** What follows the generated-code comment before the markers are
      stripped. */
  function DocumentText(doc: Document): string
    requires doc.paths.Valid()
  {
    TitleText(doc.info) + InterfaceText(doc.paths) + TypeLines(doc.components.schemas)
  }

  lemma PreambleText(info: Info)
    ensures Preamble(info).buf == Header + TitleText(info)
  {
    if info.title == "" {
      assert Header + "" == Header;
    }
  }

  /** Before stripping: the generated-code comment, then the document. */
  lemma EmittedText(doc: Document)
    requires doc.paths.Valid()
    ensures Emit(doc).buf == Header + DocumentText(doc)
  {
    EmitWrites(doc);
    PreambleText(doc.info);
    Regroup3(Header, TitleText(doc.info), InterfaceText(doc.paths), TypeLines(doc.components.schemas));
  }

  lemma StartOf(t: string, i: string, y: string)
    requires (t == [] || t[0] == '/') && (i == [] || i[0] == 'i') && (y == [] || y[0] == 't')
    ensures t + i + y == [] || (t + i + y)[0] in "/it"
  {
    if t != [] {
      assert (t + i + y)[0] == t[0];
    } else if i != [] {
      assert (t + i + y)[0] == i[0];
    } else if y != [] {
      assert t + i + y == y;
    }
  }

  /** The document's text starts with the title comment, the interface or
      a type line. */
  lemma DocumentTextStart(doc: Document)
    requires doc.paths.Valid()
    ensures DocumentText(doc) == [] || DocumentText(doc)[0] in "/it"
  {
    var t, i, y := TitleText(doc.info), InterfaceText(doc.paths), TypeLines(doc.components.schemas);
    assert t == [] || t[0] == '/';
    assert i == [] || i[0] == 'i';
    assert y == [] || y[0] == 't';
    StartOf(t, i, y);
  }

  lemma StripAfterHeader(buf: string, rest: string)
    requires buf == Header + rest && (rest == [] || rest[0] in "/it")
    ensures Strip(buf) == Header + Strip(rest)
  {
    HeaderClean();
    StripKeepsHead(Header, rest);
  }

  /** Stripping the markers leaves the generated-code comment alone. */
  lemma StrippedText(doc: Document)
    requires doc.paths.Valid()
    ensures Strip(Emit(doc).buf) == Header + Strip(DocumentText(doc))
  {
    EmittedText(doc);
    DocumentTextStart(doc);
    StripAfterHeader(Emit(doc).buf, DocumentText(doc));
  }

  /** The text opens with the generated-code comment, which stripping the
      markers leaves alone; the client closes it. */
  lemma GeneratedText(doc: Document)
    requires doc.paths.Valid() && DocumentRenderable(doc)
    ensures Generate(doc).value == Header + Strip(DocumentText(doc)) + Client
  {
    StrippedText(doc);
  }

  lemma InterfaceSplit(paths: OrderedMaps.OrderedMap<string, PathItem>)
    requires paths.Valid() && OrderedMaps.Len(paths) > 0
    ensures InterfaceText(paths) == "interface Api {" + ("\n" + PathsText(paths.Pairs()) + Marker + "\n}" + "\n\n")
  {
    var x := "interface Api {";
    assert "interface Api {\n" == x + "\n";
    Regroup5(x, "\n", PathsText(paths.Pairs()), Marker, "\n}", "\n\n");
  }

  /** Text after a `%`-free head ending in `interface Api {` cannot reach
      back into it when the markers are stripped. */
  lemma StripAfterApiOpen(t: string, r: string, y: string)
    requires '%' !in t
    ensures t + "interface Api {" <= Strip(t + ("interface Api {" + r) + y)
  {
    var x := "interface Api {";
    assert '%' !in x;
    forall c | c in t + x ensures c != '%' {
      assert c in t || c in x;
    }
    assert (t + x)[|t + x| - 1] == '{';
    assert t + (x + r) + y == (t + x) + (r + y);
    StripKeepsHead(t + x, r + y);
  }

  /** With paths, the stripped document opens with the `Api` interface,
      after the title comment when that holds no `%`. */
  lemma StrippedInterface(doc: Document)
    requires doc.paths.Valid()
    requires OrderedMaps.Len(doc.paths) > 0
    requires '%' !in TitleText(doc.info)
    ensures TitleText(doc.info) + "interface Api {" <= Strip(DocumentText(doc))
  {
    var r := "\n" + PathsText(doc.paths.Pairs()) + Marker + "\n}" + "\n\n";
    InterfaceSplit(doc.paths);
    StripAfterApiOpen(TitleText(doc.info), r, TypeLines(doc.components.schemas));
  }

  lemma PrefixUnder(h: string, a: string, b: string, c: string)
    requires a <= b
    ensures h + a <= h + b + c
  {
    assert (h + b + c)[..|h + a|] == h + a;
  }

  /** A document with paths declares the `Api` interface right after its
      opening comments. */
  lemma GeneratedInterface(doc: Document)
    requires doc.paths.Valid() && DocumentRenderable(doc)
    requires OrderedMaps.Len(doc.paths) > 0
    requires '%' !in TitleText(doc.info)
    ensures Header + (TitleText(doc.info) + "interface Api {") <= Generate(doc).value
  {
    GeneratedText(doc);
    StrippedInterface(doc);
    PrefixUnder(Header, TitleText(doc.info) + "interface Api {", Strip(DocumentText(doc)), Client);
  }

  /** The buffer opens with the generated-code comment and, for a document
      with a title, the block comment naming title and version. */
  lemma EmitHeader(doc: Document)
    requires doc.paths.Valid()
    ensures Header <= Emit(doc).buf
    ensures doc.info.title != "" ==> Header + TitleBlock(doc.info) <= Emit(doc).buf
  {
    EmittedText(doc);
    HeadPrefixes(Emit(doc).buf, Header, TitleText(doc.info), InterfaceText(doc.paths), TypeLines(doc.components.schemas));
  }

  lemma HeadPrefixes(buf: string, h: string, t: string, i: string, y: string)
    requires buf == h + (t + i + y)
    ensures h <= buf && h + t <= buf
  {
    assert buf[..|h + t|] == h + t;
  }
}
