/** The behaviour attached to the OpenAPI objects
    (internal/openapi/openapi_spec.go, internal/openapi/error.go): the
    REQUIRED-field check, the custom JSON encodings of Schema, Responses and
    the root object, and the two iterators. JSON is produced as a structural
    tree; struct members appear in declaration order, Go map members sorted
    by key as `encoding/json` writes them, and the members of the ordered
    paths map in insertion order. */
module OpenApiSpec {
  import opened Wrappers
  import opened Text
  import opened Values
  import opened OpenApi
  import GoMaps
  import OrderedMaps
  import Iteration
  import KeyOrder

  /** A JSON value. Examples (`any` values) are kept as the values they
      encode. */
  datatype Json =
    | JNull
    | JBool(b: bool)
    | JString(s: string)
    | JArray(elems: seq<Json>)
    | JObject(members: seq<(string, Json)>)
    | JValue(v: Value)
  {
    function Keys(): seq<string>
      requires JObject?
    {
      seq(|members|, i requires 0 <= i < |members| => members[i].0)
    }
  }

  /** A member that `omitempty` keeps only when `present`. */
  function OptMember(present: bool, key: string, value: Json): seq<(string, Json)> {
    if present then [(key, value)] else []
  }

  /** `requireOpenAPIField`: an error naming the field when the value is the
      empty string, nil otherwise. */
  function RequireField(name: string, value: string): (err: Option<string>)
    ensures err.None? <==> |value| > 0
    ensures err.Some? ==> err.value == RequiredMessage(name)
  {
    if |value| == 0 then Some(RequiredMessage(name)) else None
  }

  /** The text of a missing-field error. */
  function RequiredMessage(name: string): string {
    "OpenAPI Specification v3.1.0: " + name + " is REQUIRED"
  }

  /** `errors.Join`: nil when every error is nil, otherwise an error whose
      text is the non-nil texts joined by newlines. */
  function JoinErrors(errs: seq<Option<string>>): (r: Option<string>)
    ensures r.None? <==> forall i :: 0 <= i < |errs| ==> errs[i].None?
  {
    var texts := ErrorTexts(errs);
    if |texts| == 0 then None else Some(Join(texts, "\n"))
  }

  function ErrorTexts(errs: seq<Option<string>>): (texts: seq<string>)
    ensures |texts| == 0 <==> forall i :: 0 <= i < |errs| ==> errs[i].None?
  {
    if |errs| == 0 then []
    else
      assert forall i :: 1 <= i < |errs| ==> errs[i] == errs[1..][i - 1];
      (if errs[0].Some? then [errs[0].value] else []) + ErrorTexts(errs[1..])
  }

  /** The check `OpenAPI.MarshalJSON` runs before encoding. */
  function ValidateInfo(info: Info): Option<string> {
    JoinErrors([RequireField("Info.Title", info.title), RequireField("Info.Version", info.version)])
  }

  /** The document is rejected iff the title or the version is empty; when
      both are, both messages are reported, title first. Only the length
      counts: a blank title is present. */
  lemma ValidateInfoIff(info: Info)
    ensures ValidateInfo(info).None? <==> |info.title| > 0 && |info.version| > 0
    ensures |info.title| == 0 && |info.version| == 0 ==>
      ValidateInfo(info) == Some(RequiredMessage("Info.Title") + "\n" + RequiredMessage("Info.Version"))
    ensures |info.title| == 0 && |info.version| > 0 ==>
      ValidateInfo(info) == Some(RequiredMessage("Info.Title"))
    ensures |info.title| > 0 && |info.version| == 0 ==>
      ValidateInfo(info) == Some(RequiredMessage("Info.Version"))
  {
    var t := RequireField("Info.Title", info.title);
    var v := RequireField("Info.Version", info.version);
    var errs := [t, v];
    assert errs[1..] == [v] && errs[1..][1..] == [];
    var tt := if t.Some? then [t.value] else [];
    var vt := if v.Some? then [v.value] else [];
    assert ErrorTexts(errs[1..]) == vt + [];
    assert ErrorTexts(errs) == tt + vt;
    if t.Some? && v.Some? {
      assert tt + vt == [t.value, v.value];
      assert [t.value, v.value][1..] == [v.value];
      assert Join([t.value, v.value], "\n") == t.value + "\n" + v.value;
    } else if t.Some? {
      assert tt + vt == [t.value];
    } else if v.Some? {
      assert tt + vt == [v.value];
    }
  }

  /** `Schema.MarshalJSON`: a schema with a reference encodes as the
      Reference Object `{"$ref": ...}` alone; otherwise the fields are
      encoded under their tags with `omitempty` honoured, and `TypeName`
      (tagged `-`) never appears. */
  function SchemaJson(s: Schema): Json
    decreases s, 1
  {
    if s.ref != "" then JObject([("$ref", JString(s.ref))])
    else
      JObject(
        [("type", JString(s.typ))]
        + OptMember(|s.required| > 0, "required", JArray(seq(|s.required|, i requires 0 <= i < |s.required| => JString(s.required[i]))))
        + OptMember(|s.properties| > 0, "properties", PropertiesJson(s))
        + (if s.items.Some? then [("items", SchemaJson(s.items.value))] else [])
        + OptMember(s.example != VNil, "example", JValue(s.example)))
  }

  /** The Reference Object shorthand: with a non-empty `Ref` the encoding
      is exactly `{"$ref": Ref}`, whatever the other fields hold. */
  lemma SchemaRefShorthand(s: Schema, other: Schema)
    requires s.ref != ""
    ensures SchemaJson(s) == JObject([("$ref", JString(s.ref))])
    ensures SchemaJson(other.(ref := s.ref)) == SchemaJson(s)
  {
  }

  /** `TypeName` never influences the encoding, and an inline schema's
      members are among the tagged fields, `type` first. */
  lemma SchemaTypeNameHidden(s: Schema, name: string)
    ensures SchemaJson(s.(typeName := name)) == SchemaJson(s)
    ensures s.ref == "" ==> SchemaJson(s).members[0] == ("type", JString(s.typ))
    ensures forall k :: k in SchemaJson(s).Keys() ==> k in ["type", "required", "properties", "items", "example", "$ref"]
  {
  }

  function MediaTypeJson(m: MediaType): Json {
    JObject([("schema", SchemaJson(m.schema))] + OptMember(m.example != VNil, "example", JValue(m.example)) + [("encoding", JNull)])
  }

  /** `Schema.Properties`, a Go map, encoded as `MapJson` encodes one:
      written out here because each value's encoding recurses into
      `SchemaJson`. */
  function PropertiesJson(s: Schema): (r: Json)
    ensures r.JObject? && |r.members| == |s.properties|
    decreases s, 0
  {
    var idx := KeyOrder.Order(GoMaps.Keys(s.properties));
    JObject(seq(|idx|, i requires 0 <= i < |idx| => (s.properties[idx[i]].0, SchemaJson(s.properties[idx[i]].1))))
  }

  /** A Go map as `encoding/json` writes it: one member per entry, the
      members sorted by key. */
  function MapJson<V>(m: GoMaps.GoMap<string, V>, enc: V -> Json): (r: Json)
    ensures r.JObject? && |r.members| == |m|
  {
    var idx := KeyOrder.Order(GoMaps.Keys(m));
    JObject(seq(|idx|, i requires 0 <= i < |idx| => (m[idx[i]].0, enc(m[idx[i]].1))))
  }

  /** The members `MapJson` writes are in key order: strictly increasing
      for a Go map, whose keys are distinct. */
  lemma MapJsonSorted<V>(m: GoMaps.GoMap<string, V>, enc: V -> Json)
    ensures var r := MapJson(m, enc);
      forall i, k :: 0 <= i < k < |m| ==> !KeyOrder.Less(r.members[k].0, r.members[i].0)
    ensures var r := MapJson(m, enc);
      GoMaps.DistinctKeys(m) ==> forall i, k :: 0 <= i < k < |m| ==> KeyOrder.Less(r.members[i].0, r.members[k].0)
  {
    var keys := GoMaps.Keys(m);
    var idx := KeyOrder.Order(keys);
    var r := MapJson(m, enc);
    assert forall i :: 0 <= i < |m| ==> r.members[i].0 == keys[idx[i]];
    if GoMaps.DistinctKeys(m) {
      KeyOrder.OrderPermutes(keys);
    }
  }

  /** `member` is one of the entries of `m`, encoded. */
  predicate IsEntry<V>(m: GoMaps.GoMap<string, V>, enc: V -> Json, member: (string, Json)) {
    exists p :: 0 <= p < |m| && member == (m[p].0, enc(m[p].1))
  }

  /** The members `MapJson` writes are the map's entries, each encoded:
      every member is an entry, and every entry is a member. */
  lemma MapJsonEntries<V>(m: GoMaps.GoMap<string, V>, enc: V -> Json)
    ensures forall i :: 0 <= i < |m| ==> IsEntry(m, enc, MapJson(m, enc).members[i])
    ensures forall p :: 0 <= p < |m| ==> (m[p].0, enc(m[p].1)) in MapJson(m, enc).members
  {
    var keys := GoMaps.Keys(m);
    var idx := KeyOrder.Order(keys);
    var r := MapJson(m, enc);
    forall i | 0 <= i < |m| ensures IsEntry(m, enc, r.members[i]) {
      var p := idx[i];
      assert p < |m| && r.members[i] == (m[p].0, enc(m[p].1));
    }
    forall p | 0 <= p < |m| ensures (m[p].0, enc(m[p].1)) in r.members {
      var i := KeyOrder.OrderPosition(keys, p);
      assert r.members[i] == (m[p].0, enc(m[p].1));
    }
  }

  /** Two entries come out in key order whatever order they were inserted
      in. */
  lemma MapJsonTwoEntries<V>(a: string, x: V, b: string, y: V, enc: V -> Json)
    ensures MapJson([(a, x), (b, y)], enc).members ==
      if KeyOrder.Less(a, b) then [(a, enc(x)), (b, enc(y))] else [(b, enc(y)), (a, enc(x))]
  {
    var m := [(a, x), (b, y)];
    assert GoMaps.Keys(m) == [a, b];
    KeyOrder.OrderTwo(a, b);
    var idx := KeyOrder.Order([a, b]);
    assert MapJson(m, enc).members == [(m[idx[0]].0, enc(m[idx[0]].1)), (m[idx[1]].0, enc(m[idx[1]].1))];
  }

  /** Component schemas added as `User` then `Address` are written with
      `Address` first. */
  lemma ComponentsWrittenSorted(user: Schema, address: Schema)
    ensures MapJson([("User", user), ("Address", address)], SchemaJson).members
      == [("Address", SchemaJson(address)), ("User", SchemaJson(user))]
  {
    MapJsonTwoEntries("User", user, "Address", address, SchemaJson);
    assert !KeyOrder.Less("User", "Address");
  }

  /** The member names are the map's key set. */
  lemma MapJsonKeys<V>(m: GoMaps.GoMap<string, V>, enc: V -> Json)
    ensures (set k | k in MapJson(m, enc).Keys()) == GoMaps.Domain(m)
  {
    var keys := GoMaps.Keys(m);
    var idx := KeyOrder.Order(keys);
    var r := MapJson(m, enc);
    forall k | k in r.Keys() ensures k in GoMaps.Domain(m) {
      var i :| 0 <= i < |r.Keys()| && r.Keys()[i] == k;
      assert r.members[i].0 == m[idx[i]].0;
    }
    forall k | k in GoMaps.Domain(m) ensures k in r.Keys() {
      var p :| 0 <= p < |m| && m[p].0 == k;
      var i := KeyOrder.OrderPosition(keys, p);
      assert r.Keys()[i] == k;
    }
  }

  /** A Response Object: `headers`, `content` and the untagged `Links` are
      always present; nil maps encode as null. */
  function ResponseJson(r: Response): Json {
    JObject([
      ("description", JString(r.description)),
      ("headers", JNull),
      ("content", if r.content.Some? then MapJson(r.content.value, MediaTypeJson) else JNull),
      ("Links", JNull)])
  }

  /** The map `Responses.MarshalJSON` encodes: the status map (a fresh one
      when nil) with the default response assigned under `"default"` when
      its content is non-nil. */
  function EncodedStatusMap(rs: Responses): (m: GoMaps.GoMap<string, Response>)
    ensures GoMaps.Domain(m) == GoMaps.Domain(rs.statusCodes.GetOr([]))
      + (if rs.defaultResponse.content.Some? then {"default"} else {})
    ensures rs.defaultResponse.content.Some? ==> GoMaps.Lookup(m, "default") == Some(rs.defaultResponse)
    ensures forall k :: k != "default" ==> GoMaps.Lookup(m, k) == GoMaps.Lookup(rs.statusCodes.GetOr([]), k)
  {
    var m := rs.statusCodes.GetOr([]);
    if rs.defaultResponse.content.Some? then
      var r := GoMaps.Put(m, "default", rs.defaultResponse);
      assert forall k :: k != "default" ==> GoMaps.Lookup(r, k) == GoMaps.Lookup(m, k) by {
        forall k | k != "default" ensures GoMaps.Lookup(r, k) == GoMaps.Lookup(m, k) {
          GoMaps.PutFrame(m, "default", rs.defaultResponse, k);
        }
      }
      r
    else m
  }

  /** `Responses.MarshalJSON`'s output. */
  function ResponsesJson(rs: Responses): Json {
    MapJson(EncodedStatusMap(rs), ResponseJson)
  }

  /** `Responses.MarshalJSON`'s effect on its receiver: a non-nil status map
      is the caller's map, so the `"default"` assignment stays in it; a nil
      map stays nil. */
  function MarkDefault(rs: Responses): (r: Responses)
    ensures r.defaultResponse == rs.defaultResponse
    ensures r.statusCodes.None? <==> rs.statusCodes.None?
  {
    if rs.statusCodes.Some? then rs.(statusCodes := Some(EncodedStatusMap(rs))) else rs
  }

  /** The encoded keys are the status keys plus `"default"` exactly when the
      default response has content. The caller's non-nil map gains the
      `"default"` entry, and encoding again changes nothing further. */
  lemma ResponsesMarshalKeys(rs: Responses)
    ensures var j := ResponsesJson(rs);
      j.JObject? && (set k | k in j.Keys()) == GoMaps.Domain(rs.statusCodes.GetOr([]))
        + (if rs.defaultResponse.content.Some? then {"default"} else {})
    ensures rs.statusCodes.Some? && rs.defaultResponse.content.Some? ==>
      GoMaps.Lookup(MarkDefault(rs).statusCodes.value, "default") == Some(rs.defaultResponse)
    ensures ResponsesJson(MarkDefault(rs)) == ResponsesJson(rs)
    ensures MarkDefault(MarkDefault(rs)) == MarkDefault(rs)
  {
    MapJsonKeys(EncodedStatusMap(rs), ResponseJson);
    if rs.defaultResponse.content.Some? {
      GoMaps.PutIdempotent(rs.statusCodes.GetOr([]), "default", rs.defaultResponse);
    }
  }

  function ParameterJson(p: Parameter): Json {
    JObject(
      [("name", JString(p.name)), ("in", JString(p.location))]
      + OptMember(p.description != "", "description", JString(p.description))
      + [("required", JBool(p.required)), ("deprecated", JBool(false)), ("allowEmptyValue", JBool(false)),
         ("explode", JBool(false)), ("allowReserved", JBool(false)), ("schema", SchemaJson(p.schema))]
      + OptMember(p.example != VNil, "example", JValue(p.example)))
  }

  function RequestBodyJson(b: RequestBody): Json {
    JObject(
      OptMember(b.description != "", "description", JString(b.description))
      + [("content", MapJson(b.content, MediaTypeJson)), ("required", JBool(b.required))])
  }

  function OperationJson(op: Operation): Json {
    JObject(
      OptMember(|op.tags| > 0, "tags", JArray(seq(|op.tags|, i requires 0 <= i < |op.tags| => JString(op.tags[i]))))
      + OptMember(op.summary != "", "summary", JString(op.summary))
      + OptMember(op.description != "", "description", JString(op.description))
      + OptMember(op.operationId != "", "operationId", JString(op.operationId))
      + [("parameters", JArray(seq(|op.parameters|, i requires 0 <= i < |op.parameters| => ParameterJson(op.parameters[i]))))]
      + (if op.requestBody.Some? then [("requestBody", RequestBodyJson(op.requestBody.value))] else [])
      + [("responses", ResponsesJson(op.responses)), ("deprecated", JBool(false)), ("security", JNull), ("server", JNull)])
  }

  function OptOperation(key: string, op: Option<Operation>): seq<(string, Json)> {
    if op.Some? then [(key, OperationJson(op.value))] else []
  }

  function PathItemJson(p: PathItem): Json {
    JObject(
      OptOperation("get", p.get) + OptOperation("put", p.put) + OptOperation("post", p.post)
      + OptOperation("delete", p.delete) + OptOperation("options", p.options) + OptOperation("head", p.head)
      + OptOperation("patch", p.patch) + OptOperation("trace", p.trace))
  }

  function MarkOperation(op: Option<Operation>): Option<Operation> {
    if op.Some? then Some(op.value.(responses := MarkDefault(op.value.responses))) else None
  }

  /** The effect of encoding a path item on the operations it points to. */
  function MarkPathItem(p: PathItem): PathItem {
    PathItem(MarkOperation(p.get), MarkOperation(p.put), MarkOperation(p.post), MarkOperation(p.delete),
             MarkOperation(p.options), MarkOperation(p.head), MarkOperation(p.patch), MarkOperation(p.trace))
  }

  function InfoJson(info: Info): Json {
    JObject(
      [("title", JString(info.title))]
      + OptMember(info.summary != "", "summary", JString(info.summary))
      + OptMember(info.description != "", "description", JString(info.description))
      + OptMember(info.termsOfService != "", "termsOfService", JString(info.termsOfService))
      + (if info.contact.Some? then [("contact", ContactJson(info.contact.value))] else [])
      + (if info.license.Some? then [("license", LicenseJson(info.license.value))] else [])
      + [("version", JString(info.version))])
  }

  function ContactJson(c: Contact): Json {
    JObject(OptMember(c.name != "", "name", JString(c.name)) + OptMember(c.url != "", "url", JString(c.url))
      + OptMember(c.email != "", "email", JString(c.email)))
  }

  function LicenseJson(l: License): Json {
    JObject(OptMember(l.name != "", "name", JString(l.name)) + OptMember(l.identifier != "", "identifier", JString(l.identifier)))
  }

  /** The paths object: `OrderedMap.MarshalJSON`, members in insertion order. */
  function PathsJson(paths: OrderedMaps.OrderedMap<string, PathItem>): (r: Json)
    requires paths.Valid()
    ensures r.JObject? && r.Keys() == GoMaps.Keys(paths.Pairs())
  {
    var ps := paths.Pairs();
    JObject(seq(|ps|, i requires 0 <= i < |ps| => (ps[i].0, PathItemJson(ps[i].1))))
  }

  function DocumentJson(doc: Document): Json
    requires doc.paths.Valid()
  {
    JObject([
      ("openapi", JString(doc.openapi)),
      ("info", InfoJson(doc.info)),
      ("servers", JNull),
      ("paths", PathsJson(doc.paths)),
      ("components", JObject(OptMember(|doc.components.schemas| > 0, "schemas", MapJson(doc.components.schemas, SchemaJson))))])
  }

  /** Whether `json.Marshal` encodes the tree without error: every value
      held in it is encodable. */
  predicate JsonEncodable(j: Json)
    decreases j
  {
    match j
    case JArray(elems) => forall i :: 0 <= i < |elems| ==> JsonEncodable(elems[i])
    case JObject(members) => forall i :: 0 <= i < |members| ==> JsonEncodable(members[i].1)
    case JValue(v) => Encodable(v)
    case _ => true
  }

  /** `MarshalerError.Error()`: an error returned by a type's own
      `MarshalJSON`, as `json.Marshal` reports it. */
  function MarshalerText(typ: string, err: string): string {
    "json: error calling MarshalJSON for type " + typ + ": " + err
  }

  /** The error reported for an example `encoding/json` cannot encode. */
  const UnsupportedText := "json: unsupported type"

  /** `json.Marshal` of the root object through `OpenAPI.MarshalJSON`: the
      REQUIRED check first, then the encoding, which fails on an example it
      cannot encode. Encoding mutates the status maps the operations point
      to, so the document as it is afterwards is returned as well. */
  function MarshalDocument(doc: Document): (r: (Result<Json>, Document))
    requires doc.paths.Valid()
    ensures r.0.Fail? <==> doc.info.title == "" || doc.info.version == "" || !JsonEncodable(DocumentJson(doc))
    ensures ValidateInfo(doc.info).Some? ==> r.0 == Fail(MarshalerText("openapi.OpenAPI", ValidateInfo(doc.info).value))
    ensures r.0.Fail? ==> r.1 == doc
    ensures r.1.paths.Valid() && r.1.paths.keys == doc.paths.keys
    ensures r.0.Ok? ==> r.0.value == DocumentJson(doc) && r.0.value.members[0] == ("openapi", JString(doc.openapi))
  {
    ValidateInfoIff(doc.info);
    match ValidateInfo(doc.info)
    case Some(e) => (Fail(MarshalerText("openapi.OpenAPI", e)), doc)
    case None =>
      if !JsonEncodable(DocumentJson(doc)) then (Fail(UnsupportedText), doc)
      else (Ok(DocumentJson(doc)), doc.(paths := OrderedMaps.MapValues(doc.paths, MarkPathItem)))
  }

  /** An example `encoding/json` cannot encode on a component schema (where
      the schema of a named response or body type is kept) makes the whole
      encoding fail, whatever the info object holds. */
  lemma UnencodableComponentFails(doc: Document, i: nat)
    requires doc.paths.Valid()
    requires i < |doc.components.schemas|
    requires doc.components.schemas[i].1.ref == "" && doc.components.schemas[i].1.example != VNil
    requires !Encodable(doc.components.schemas[i].1.example)
    ensures MarshalDocument(doc).0.Fail?
  {
    var s := doc.components.schemas[i].1;
    var sj := SchemaJson(s);
    var ms := sj.members;
    assert ms[|ms| - 1] == ("example", JValue(s.example));
    assert !JsonEncodable(sj);
    var comps := MapJson(doc.components.schemas, SchemaJson);
    var k := KeyOrder.OrderPosition(GoMaps.Keys(doc.components.schemas), i);
    assert comps.members[k].1 == sj;
    assert !JsonEncodable(comps);
    var dj := DocumentJson(doc);
    assert dj.members[4].1.members[0].1 == comps;
    assert !JsonEncodable(dj.members[4].1);
  }

  /** A struct example with an exported `func` field cannot be encoded; the
      same field unexported, or tagged `-`, is skipped and harmless. */
  lemma FuncFieldUnencodable(name: string, field: string, repr: string)
    ensures !Encodable(VStruct(name, [Field(field, "", true, VOther("func", repr))]))
    ensures Encodable(VStruct(name, [Field(field, "", false, VOther("func", repr))]))
    ensures Encodable(VStruct(name, [Field(field, "-", true, VOther("func", repr))]))
  {
    var fs := [Field(field, "", true, VOther("func", repr))];
    assert "func" in UnsupportedKinds;
    assert !Encodable(fs[0].value);
  }

  /** The slots `PathItem.IterateOperations` visits, in its order, each with
      the label it yields: POST is visited after PATCH and labelled `PATCH`. */
  function OperationSlots(p: PathItem): (slots: seq<(string, Option<Operation>)>)
    ensures |slots| == 8
  {
    [("GET", p.get), ("HEAD", p.head), ("OPTIONS", p.options), ("PATCH", p.patch),
     ("PATCH", p.post), ("DELETE", p.delete), ("PUT", p.put), ("TRACE", p.trace)]
  }

  /** The non-nil slots, in order, with their labels. */
  function Present(slots: seq<(string, Option<Operation>)>): seq<(string, Operation)> {
    if |slots| == 0 then []
    else (if slots[0].1.Some? then [(slots[0].0, slots[0].1.value)] else []) + Present(slots[1..])
  }

  function CountPresent(slots: seq<(string, Option<Operation>)>): nat {
    if |slots| == 0 then 0 else (if slots[0].1.Some? then 1 else 0) + CountPresent(slots[1..])
  }

  /** Filtering keeps exactly the non-nil slots: one item per such slot,
      every item is a slot's label with its operation, and every non-nil
      slot is yielded. */
  lemma {:induction false} PresentExact(slots: seq<(string, Option<Operation>)>)
    ensures |Present(slots)| == CountPresent(slots)
    ensures forall i :: 0 <= i < |Present(slots)| ==>
      exists j :: 0 <= j < |slots| && slots[j] == (Present(slots)[i].0, Some(Present(slots)[i].1))
    ensures forall j :: 0 <= j < |slots| && slots[j].1.Some? ==> (slots[j].0, slots[j].1.value) in Present(slots)
  {
    if |slots| > 0 {
      PresentExact(slots[1..]);
      var head := if slots[0].1.Some? then [(slots[0].0, slots[0].1.value)] else [];
      var rest := Present(slots[1..]);
      assert Present(slots) == head + rest;
      forall i | 0 <= i < |Present(slots)|
        ensures exists j :: 0 <= j < |slots| && slots[j] == (Present(slots)[i].0, Some(Present(slots)[i].1))
      {
        if i < |head| {
          assert slots[0] == (Present(slots)[i].0, Some(Present(slots)[i].1));
        } else {
          assert Present(slots)[i] == rest[i - |head|];
          var j :| 0 <= j < |slots[1..]| && slots[1..][j] == (rest[i - |head|].0, Some(rest[i - |head|].1));
          assert slots[j + 1] == slots[1..][j];
        }
      }
      forall j | 0 <= j < |slots| && slots[j].1.Some? ensures (slots[j].0, slots[j].1.value) in Present(slots) {
        if j > 0 {
          assert slots[j] == slots[1..][j - 1];
        }
      }
    }
  }

  /** `PathItem.IterateOperations` in full: the non-nil operations in the
      order GET, HEAD, OPTIONS, PATCH, POST, DELETE, PUT, TRACE. */
  function Operations(p: PathItem): seq<(string, Operation)> {
    Present(OperationSlots(p))
  }

  /** `PathItem.IterateOperations` with a consumer that may stop early. */
  function IterateOperations(p: PathItem, keepGoing: (nat, (string, Operation)) -> bool): (d: seq<(string, Operation)>)
    ensures |d| <= |Operations(p)| && d == Operations(p)[..|d|]
  {
    Iteration.Deliver(Operations(p), keepGoing)
  }

  /** Each non-nil operation is yielded, one item per non-nil slot; no item
      is ever labelled `POST`, and the POST operation is yielded under the
      label `PATCH`. */
  lemma OperationsLabels(p: PathItem)
    ensures |Operations(p)| == CountPresent(OperationSlots(p))
    ensures forall i :: 0 <= i < |Operations(p)| ==> Operations(p)[i].0 != "POST"
    ensures p.post.Some? ==> ("PATCH", p.post.value) in Operations(p)
    ensures p.get.Some? ==> ("GET", p.get.value) in Operations(p)
    ensures p.trace.Some? ==> ("TRACE", p.trace.value) in Operations(p)
  {
    var slots := OperationSlots(p);
    PresentExact(slots);
    assert slots[0].1 == p.get && slots[4].1 == p.post && slots[7].1 == p.trace;
    forall i | 0 <= i < |Operations(p)| ensures Operations(p)[i].0 != "POST" {
      var j :| 0 <= j < |slots| && slots[j] == (Operations(p)[i].0, Some(Operations(p)[i].1));
      assert slots[j].0 != "POST";
    }
  }

  /** `Responses.Iterate` in full: `("0", Default)` first when the default
      response has content, then every status-map entry. */
  function ResponseItems(rs: Responses): (items: seq<(string, Response)>)
    ensures rs.defaultResponse.content.Some? ==> |items| > 0 && items[0] == ("0", rs.defaultResponse)
    ensures rs.defaultResponse.content.Some? ==> items[1..] == rs.statusCodes.GetOr([])
    ensures rs.defaultResponse.content.None? ==> items == rs.statusCodes.GetOr([])
    ensures |items| == |rs.statusCodes.GetOr([])| + (if rs.defaultResponse.content.Some? then 1 else 0)
  {
    (if rs.defaultResponse.content.Some? then [("0", rs.defaultResponse)] else []) + rs.statusCodes.GetOr([])
  }

  /** `Responses.Iterate` with a consumer that may stop early. */
  function ResponsesIterate(rs: Responses, keepGoing: (nat, (string, Response)) -> bool): (d: seq<(string, Response)>)
    ensures |d| <= |ResponseItems(rs)| && d == ResponseItems(rs)[..|d|]
  {
    Iteration.Deliver(ResponseItems(rs), keepGoing)
  }

  /** After the document has been encoded, iterating an operation's
      responses yields the default response twice when its status map was
      non-nil: once as `"0"` and once under the `"default"` key that
      encoding inserted. */
  lemma IterateAfterMarshal(rs: Responses)
    requires rs.statusCodes.Some? && rs.defaultResponse.content.Some?
    requires "default" !in GoMaps.Domain(rs.statusCodes.value)
    ensures ResponseItems(MarkDefault(rs)) == [("0", rs.defaultResponse)] + rs.statusCodes.value + [("default", rs.defaultResponse)]
  {
  }
}
