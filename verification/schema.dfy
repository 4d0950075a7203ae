/** Schema inference from runtime values: `generateSchema`, `schemaOf` and
    the well-known `time.Time` case (internal/openapi/schema.go,
    internal/openapi/well_known_types.go). */
module SchemaInference {
  import opened Wrappers
  import opened Text
  import opened Values
  import opened OpenApi
  import GoMaps

  /** The panic of dereferencing a nil `*time.Time`. */
  const NilTimeDeref: string := "runtime error: invalid memory address or nil pointer dereference"

  /** `timeSchema`: a string schema named `Time` whose example is the RFC
      3339 rendering of the instant. */
  function TimeSchema(iso: string): (s: Schema)
    ensures s.typ == "string" && s.typeName == "Time" && s.example == VString(iso)
    ensures s.ref == "" && s.properties == [] && s.items == None && s.required == []
  {
    Schema("string", [], [], None, VString(iso), "Time", "")
  }

  /** `schemaForWellKnownTypes`: `None` stands for its nil result, after which
      inference dispatches on the kind. A `*time.Time` is dereferenced
      without a nil check. A non-nil `*time.Time` is left to the pointer
      case, which reaches the same `timeSchema` through its pointee. */
  function WellKnown(v: Value): (r: Option<Result<Schema>>)
    ensures r.Some? <==> v.VTime? || v == VPointer(TTime, None)
  {
    match v
    case VTime(iso) => Some(Ok(TimeSchema(iso)))
    case VPointer(TTime, None) => Some(Fail(NilTimeDeref))
    case _ => None
  }

  /** The property name a struct field gets: the text before the first comma
      of its `json` tag, or the field name when the tag is empty. */
  function FieldName(f: Field): (n: string)
    ensures f.tag == "" ==> n == f.name
    ensures f.tag != "" ==> ',' !in n && StartsWith(f.tag, n) && (n == f.tag || f.tag[|n|] == ',')
  {
    if f.tag == "" then f.name
    else
      var n := Split(f.tag, ',')[0];
      SplitFirst(f.tag, ',');
      n
  }

  /** The first piece of a split is a prefix of the input that ends at the
      first separator (or at the end). */
  lemma SplitFirst(s: string, sep: char)
    ensures StartsWith(s, Split(s, sep)[0])
    ensures var n := Split(s, sep)[0]; n == s || s[|n|] == sep
  {
    if sep in s {
      var i := IndexOf(s, sep);
      assert Split(s, sep)[0] == s[..i];
    }
  }

  /** Whether a struct field appears in the schema at all. */
  predicate Kept(f: Field) {
    f.exported && !(f.tag != "" && FieldName(f) == "-")
  }

  /** Whether a kept field is listed as required. */
  predicate IsRequired(f: Field) {
    !Contains(f.tag, "omitempty") && FieldName(f) != ""
  }

  /** `generateSchema`. `Fail` stands for the panic on a nil `*time.Time`. */
  function GenerateSchema(v: Value): (r: Result<Schema>)
    ensures r.Ok? ==> r.value.ref == ""
    ensures r.Ok? ==> r.value.typ in {"null", "boolean", "integer", "number", "string", "array", "object"}
    ensures r.Ok? && r.value.typ == "array" ==> r.value.items.Some?
    ensures r.Ok? && r.value.typeName != "" ==> r.value.typ in {"object", "string"}
    decreases Measure(v)
  {
    if v == VNil then Ok(Leaf("null", VNil))
    else if WellKnown(v).Some? then WellKnown(v).value
    else
      match v
      case VBool(_) => Ok(Leaf("boolean", v))
      case VInt(_) => Ok(Leaf("integer", v))
      case VUint(_) => Ok(Leaf("integer", v))
      case VFloat(_) => Ok(Leaf("number", v))
      case VString(_) => Ok(Leaf("string", v))
      case VList(e, items) =>
        ZeroValueMeasure(e);
        assert |items| > 0 ==> Measure(items[0]) <= ListMeasure(items);
        var it :- if |items| > 0 then GenerateSchema(items[0]) else GenerateSchema(ZeroValue(e));
        Ok(Schema("array", [], [], Some(it), v, "", ""))
      case VMap(entries) =>
        var props :- MapProperties(entries, []);
        Ok(Schema("object", [], props, None, v, "", ""))
      case VStruct(name, fs) =>
        var pr :- StructProperties(fs, [], []);
        Ok(Schema("object", pr.1, pr.0, None, v, name, ""))
      case VPointer(_, None) => Ok(Leaf("null", VNil))
      case VPointer(_, Some(x)) => GenerateSchema(x)
      case VOther(_, repr) => Ok(Leaf("string", VString(repr)))
      case VNil => Ok(Leaf("null", VNil))
      case VTime(iso) => Ok(TimeSchema(iso))
  }

  /** The map branch: one property per key, set in iteration order. */
  function MapProperties(entries: seq<(string, Value)>, acc: GoMaps.GoMap<string, Schema>): (r: Result<GoMaps.GoMap<string, Schema>>)
    ensures r.Ok? ==> GoMaps.Domain(r.value) == GoMaps.Domain(acc) + GoMaps.Domain(entries)
    decreases EntriesMeasure(entries)
  {
    if |entries| == 0 then Ok(acc)
    else
      var s :- GenerateSchema(entries[0].1);
      var r := MapProperties(entries[1..], GoMaps.Put(acc, entries[0].0, s));
      assert GoMaps.Domain(entries) == {entries[0].0} + GoMaps.Domain(entries[1..]) by {
        DomainCons(entries);
      }
      r
  }

  lemma DomainCons<K, V>(m: GoMaps.GoMap<K, V>)
    requires |m| > 0
    ensures GoMaps.Domain(m) == {m[0].0} + GoMaps.Domain(m[1..])
  {
    forall x | x in GoMaps.Domain(m) ensures x in {m[0].0} + GoMaps.Domain(m[1..]) {
      var i :| 0 <= i < |m| && m[i].0 == x;
      if i > 0 { assert m[1..][i - 1].0 == x; }
    }
    forall x | x in GoMaps.Domain(m[1..]) ensures x in GoMaps.Domain(m) {
      var i :| 0 <= i < |m[1..]| && m[1..][i].0 == x;
      assert m[i + 1].0 == x;
    }
  }

  /** The struct branch: each kept field becomes a property under its
      `FieldName`; the required ones are appended to the required list in
      field order. */
  function StructProperties(fs: seq<Field>, props: GoMaps.GoMap<string, Schema>, req: seq<string>): (r: Result<(GoMaps.GoMap<string, Schema>, seq<string>)>)
    ensures r.Ok? ==> GoMaps.Domain(r.value.0) == GoMaps.Domain(props) + KeptNames(fs)
    ensures r.Ok? ==> r.value.1 == req + RequiredNames(fs)
    decreases FieldsMeasure(fs)
  {
    if |fs| == 0 then Ok((props, req))
    else
      var f := fs[0];
      if !Kept(f) then StructProperties(fs[1..], props, req)
      else
        var s :- GenerateSchema(f.value);
        var req' := if IsRequired(f) then req + [FieldName(f)] else req;
        var r := StructProperties(fs[1..], GoMaps.Put(props, FieldName(f), s), req');
        assert r.Ok? ==> r.value.1 == req + RequiredNames(fs) by {
          if r.Ok? && IsRequired(f) {
            assert req' + RequiredNames(fs[1..]) == req + ([FieldName(f)] + RequiredNames(fs[1..]));
          }
        }
        r
  }

  /** The names of the kept fields. */
  function KeptNames(fs: seq<Field>): set<string> {
    set i | 0 <= i < |fs| && Kept(fs[i]) :: FieldName(fs[i])
  }

  /** The names of the required kept fields, in field order. */
  function RequiredNames(fs: seq<Field>): seq<string> {
    if |fs| == 0 then []
    else if Kept(fs[0]) && IsRequired(fs[0]) then [FieldName(fs[0])] + RequiredNames(fs[1..])
    else RequiredNames(fs[1..])
  }

  /** A required name belongs to some kept field whose tag lacks
      `omitempty`, and every such field's name is listed. */
  lemma {:induction false} RequiredNamesIff(fs: seq<Field>, n: string)
    ensures n in RequiredNames(fs) <==> exists i :: 0 <= i < |fs| && Kept(fs[i]) && IsRequired(fs[i]) && FieldName(fs[i]) == n
    decreases |fs|
  {
    if |fs| > 0 {
      RequiredNamesIff(fs[1..], n);
      if exists i :: 0 <= i < |fs| && Kept(fs[i]) && IsRequired(fs[i]) && FieldName(fs[i]) == n {
        var i :| 0 <= i < |fs| && Kept(fs[i]) && IsRequired(fs[i]) && FieldName(fs[i]) == n;
        if i > 0 {
          assert fs[1..][i - 1] == fs[i];
        }
      }
      if exists i :: 0 <= i < |fs[1..]| && Kept(fs[1..][i]) && IsRequired(fs[1..][i]) && FieldName(fs[1..][i]) == n {
        var i :| 0 <= i < |fs[1..]| && Kept(fs[1..][i]) && IsRequired(fs[1..][i]) && FieldName(fs[1..][i]) == n;
        assert fs[i + 1] == fs[1..][i];
      }
    }
  }

  /** The struct case: an object named after the struct type, with one
      property per kept field and the required names in field order. */
  lemma StructSchema(name: string, fs: seq<Field>)
    ensures var r := GenerateSchema(VStruct(name, fs));
      r.Ok? ==>
        && r.value.typ == "object"
        && r.value.typeName == name
        && r.value.example == VStruct(name, fs)
        && GoMaps.Domain(r.value.properties) == KeptNames(fs)
        && r.value.required == RequiredNames(fs)
    ensures var r := GenerateSchema(VStruct(name, fs));
      r.Ok? ==>
        && GoMaps.DistinctKeys(r.value.properties)
        && (forall i | LastKept(fs, i) ::
              GenerateSchema(fs[i].value).Ok? &&
              GoMaps.Lookup(r.value.properties, FieldName(fs[i])) == Some(GenerateSchema(fs[i].value).value))
  {
    var r := GenerateSchema(VStruct(name, fs));
    if r.Ok? {
      forall i | LastKept(fs, i)
        ensures GenerateSchema(fs[i].value).Ok?
        ensures GoMaps.Lookup(r.value.properties, FieldName(fs[i])) == Some(GenerateSchema(fs[i].value).value)
      {
        StructPropertiesLookup(fs, [], [], FieldName(fs[i]));
      }
      StructPropertiesLookup(fs, [], [], "");
    }
  }

  /** Field `i` is kept and no later kept field has its property name, so its
      schema is the one the property ends up holding. */
  predicate LastKept(fs: seq<Field>, i: int) {
    && 0 <= i < |fs| && Kept(fs[i])
    && forall j :: i < j < |fs| && Kept(fs[j]) ==> FieldName(fs[j]) != FieldName(fs[i])
  }

  lemma KeptNamesCons(fs: seq<Field>)
    requires |fs| > 0
    ensures KeptNames(fs) == (if Kept(fs[0]) then {FieldName(fs[0])} else {}) + KeptNames(fs[1..])
  {
    forall x | x in KeptNames(fs[1..]) ensures x in KeptNames(fs) {
      var j :| 0 <= j < |fs[1..]| && Kept(fs[1..][j]) && FieldName(fs[1..][j]) == x;
      assert fs[j + 1] == fs[1..][j];
    }
    forall x | x in KeptNames(fs) ensures x in (if Kept(fs[0]) then {FieldName(fs[0])} else {}) + KeptNames(fs[1..]) {
      var j :| 0 <= j < |fs| && Kept(fs[j]) && FieldName(fs[j]) == x;
      if j > 0 {
        assert fs[1..][j - 1] == fs[j];
      }
    }
  }

  /** A kept field that is last for its name stays last in the tail. */
  lemma LastKeptTail(fs: seq<Field>, i: int)
    requires 0 < i && LastKept(fs, i)
    ensures LastKept(fs[1..], i - 1)
  {
    forall j | i - 1 < j < |fs[1..]| && Kept(fs[1..][j])
      ensures FieldName(fs[1..][j]) != FieldName(fs[1..][i - 1])
    {
      assert fs[1..][j] == fs[j + 1];
    }
  }

  /** The struct branch assigns each property the schema of the last kept
      field with that name, keeps names distinct, and leaves other names
      alone. */
  lemma {:induction false} StructPropertiesLookup(fs: seq<Field>, props: GoMaps.GoMap<string, Schema>, req: seq<string>, n: string)
    ensures var r := StructProperties(fs, props, req);
      r.Ok? ==>
        && (GoMaps.DistinctKeys(props) ==> GoMaps.DistinctKeys(r.value.0))
        && (n !in KeptNames(fs) ==> GoMaps.Lookup(r.value.0, n) == GoMaps.Lookup(props, n))
        && (forall i | LastKept(fs, i) && FieldName(fs[i]) == n ::
              GenerateSchema(fs[i].value).Ok? && GoMaps.Lookup(r.value.0, n) == Some(GenerateSchema(fs[i].value).value))
    decreases |fs|
  {
    var r := StructProperties(fs, props, req);
    if |fs| > 0 && r.Ok? {
      var f := fs[0];
      KeptNamesCons(fs);
      if !Kept(f) {
        StructPropertiesLookup(fs[1..], props, req, n);
        assert r == StructProperties(fs[1..], props, req);
        forall i | LastKept(fs, i) && FieldName(fs[i]) == n
          ensures GenerateSchema(fs[i].value).Ok? && GoMaps.Lookup(r.value.0, n) == Some(GenerateSchema(fs[i].value).value)
        {
          LastKeptTail(fs, i);
          assert fs[1..][i - 1] == fs[i];
        }
      } else {
        var s := GenerateSchema(f.value).value;
        var req' := if IsRequired(f) then req + [FieldName(f)] else req;
        var props' := GoMaps.Put(props, FieldName(f), s);
        StructPropertiesLookup(fs[1..], props', req', n);
        assert r == StructProperties(fs[1..], props', req');
        if GoMaps.DistinctKeys(props) {
          GoMaps.PutDistinct(props, FieldName(f), s);
        }
        if n != FieldName(f) {
          GoMaps.PutFrame(props, FieldName(f), s, n);
        }
        forall i | LastKept(fs, i) && FieldName(fs[i]) == n
          ensures GenerateSchema(fs[i].value).Ok? && GoMaps.Lookup(r.value.0, n) == Some(GenerateSchema(fs[i].value).value)
        {
          if i > 0 {
            LastKeptTail(fs, i);
            assert fs[1..][i - 1] == fs[i];
          } else {
            assert n !in KeptNames(fs[1..]) by {
              forall j | 0 <= j < |fs[1..]| && Kept(fs[1..][j]) ensures FieldName(fs[1..][j]) != n {
                assert fs[1..][j] == fs[j + 1];
              }
            }
          }
        }
      }
    }
  }

  /** The map branch assigns each key the schema of its last entry, keeps
      keys distinct, and fails only when some entry's inference fails. */
  lemma {:induction false} MapPropertiesLookup(entries: seq<(string, Value)>, acc: GoMaps.GoMap<string, Schema>, k: string)
    ensures var r := MapProperties(entries, acc);
      r.Ok? ==>
        && (GoMaps.DistinctKeys(acc) ==> GoMaps.DistinctKeys(r.value))
        && (k !in GoMaps.Domain(entries) ==> GoMaps.Lookup(r.value, k) == GoMaps.Lookup(acc, k))
        && (forall i | GoMaps.IsLastFor(entries, i, k) ::
              GenerateSchema(entries[i].1).Ok? && GoMaps.Lookup(r.value, k) == Some(GenerateSchema(entries[i].1).value))
    decreases |entries|
  {
    var r := MapProperties(entries, acc);
    if |entries| > 0 && r.Ok? {
      var s := GenerateSchema(entries[0].1).value;
      var acc' := GoMaps.Put(acc, entries[0].0, s);
      MapPropertiesLookup(entries[1..], acc', k);
      assert r == MapProperties(entries[1..], acc');
      if GoMaps.DistinctKeys(acc) {
        GoMaps.PutDistinct(acc, entries[0].0, s);
      }
      if k != entries[0].0 {
        GoMaps.PutFrame(acc, entries[0].0, s, k);
      }
      DomainCons(entries);
      forall i | GoMaps.IsLastFor(entries, i, k)
        ensures GenerateSchema(entries[i].1).Ok? && GoMaps.Lookup(r.value, k) == Some(GenerateSchema(entries[i].1).value)
      {
        if i > 0 {
          assert entries[1..][i - 1] == entries[i];
          assert GoMaps.IsLastFor(entries[1..], i - 1, k) by {
            forall j | i - 1 < j < |entries[1..]| ensures entries[1..][j].0 != k {
              assert entries[1..][j] == entries[j + 1];
            }
          }
        } else {
          assert k !in GoMaps.Domain(entries[1..]) by {
            forall j | 0 <= j < |entries[1..]| ensures entries[1..][j].0 != k {
              assert entries[1..][j] == entries[j + 1];
            }
          }
        }
      }
    }
  }

  /** The map case: an object with exactly one property per key (the key's
      `%v` rendering), the schema of the key's value, no required list and
      no type name. */
  lemma MapSchema(entries: seq<(string, Value)>, k: string, i: nat)
    requires GoMaps.IsLastFor(entries, i, k)
    ensures var r := GenerateSchema(VMap(entries));
      r.Ok? ==>
        && r.value.typ == "object"
        && r.value.required == []
        && r.value.typeName == ""
        && GoMaps.Domain(r.value.properties) == GoMaps.Domain(entries)
        && GoMaps.DistinctKeys(r.value.properties)
        && GenerateSchema(entries[i].1).Ok?
        && GoMaps.Lookup(r.value.properties, k) == Some(GenerateSchema(entries[i].1).value)
  {
    MapPropertiesLookup(entries, [], k);
  }

  /** The array case: `items` is the schema of the first element, or of the
      element type's zero value when the list is empty. */
  lemma ArraySchema(e: TypeDesc, items: seq<Value>)
    ensures var r := GenerateSchema(VList(e, items));
      var first := if |items| > 0 then GenerateSchema(items[0]) else GenerateSchema(ZeroValue(e));
      && (r.Ok? <==> first.Ok?)
      && (r.Ok? ==> r.value.typ == "array" && r.value.items == Some(first.value) && r.value.example == VList(e, items))
  {
  }

  /** Pointers and nil: an untyped nil and a nil pointer give a bare `null`
      schema, a non-nil pointer gives its pointee's schema, and a nil
      `*time.Time` fails. A `time.Time` gives the `Time` string schema. */
  lemma PointerSchema(t: TypeDesc, target: Option<Value>)
    ensures target.Some? ==> GenerateSchema(VPointer(t, target)) == GenerateSchema(target.value)
    ensures target.None? && t != TTime ==> GenerateSchema(VPointer(t, target)) == Ok(Leaf("null", VNil))
    ensures target.None? && t == TTime ==> GenerateSchema(VPointer(t, target)).Fail?
    ensures GenerateSchema(VNil) == Ok(Leaf("null", VNil))
  {
  }

  /** A `*time.Time` that is not nil gives the same schema as the instant. */
  lemma TimePointerSchema(iso: string)
    ensures GenerateSchema(VPointer(TTime, Some(VTime(iso)))) == Ok(TimeSchema(iso))
    ensures GenerateSchema(VTime(iso)) == Ok(TimeSchema(iso))
  {
  }

  /** Scalars: a schema of the kind's type with the value as example;
      anything else is a string schema with the formatted value. */
  lemma ScalarSchema(v: Value)
    ensures v.VBool? ==> GenerateSchema(v) == Ok(Leaf("boolean", v))
    ensures v.VInt? || v.VUint? ==> GenerateSchema(v) == Ok(Leaf("integer", v))
    ensures v.VFloat? ==> GenerateSchema(v) == Ok(Leaf("number", v))
    ensures v.VString? ==> GenerateSchema(v) == Ok(Leaf("string", v))
    ensures v.VOther? ==> GenerateSchema(v) == Ok(Leaf("string", VString(v.repr)))
  {
  }

  /** Whether inference reaches a nil `*time.Time`: through the first list
      element (or the element type's zero value), any map value, any kept
      struct field, or a pointee. */
  predicate ReachesNilTime(v: Value)
    decreases Measure(v)
  {
    match v
    case VPointer(TTime, None) => true
    case VList(e, items) =>
      ZeroValueMeasure(e);
      assert |items| > 0 ==> Measure(items[0]) <= ListMeasure(items);
      if |items| > 0 then ReachesNilTime(items[0]) else ReachesNilTime(ZeroValue(e))
    case VMap(entries) => SomeEntryReaches(entries)
    case VStruct(_, fs) => SomeFieldReaches(fs)
    case VPointer(_, Some(x)) => ReachesNilTime(x)
    case _ => false
  }

  predicate SomeEntryReaches(entries: seq<(string, Value)>)
    decreases EntriesMeasure(entries), 1
  {
    exists i | 0 <= i < |entries| :: EntryReaches(entries, i)
  }

  predicate SomeFieldReaches(fs: seq<Field>)
    decreases FieldsMeasure(fs), 1
  {
    exists i | 0 <= i < |fs| :: FieldReaches(fs, i)
  }

  predicate EntryReaches(entries: seq<(string, Value)>, i: nat)
    requires i < |entries|
    decreases EntriesMeasure(entries), 0
  {
    EntryMeasure(entries, i);
    ReachesNilTime(entries[i].1)
  }

  predicate FieldReaches(fs: seq<Field>, i: nat)
    requires i < |fs|
    decreases FieldsMeasure(fs), 0
  {
    FieldMeasure(fs, i);
    Kept(fs[i]) && ReachesNilTime(fs[i].value)
  }

  lemma {:induction false} EntryMeasure(entries: seq<(string, Value)>, i: nat)
    requires i < |entries|
    ensures Measure(entries[i].1) < EntriesMeasure(entries)
    decreases i
  {
    if i > 0 {
      EntryMeasure(entries[1..], i - 1);
    }
  }

  lemma {:induction false} FieldMeasure(fs: seq<Field>, i: nat)
    requires i < |fs|
    ensures Measure(fs[i].value) < FieldsMeasure(fs)
    decreases i
  {
    if i > 0 {
      FieldMeasure(fs[1..], i - 1);
    }
  }

  /** Inference panics exactly when it reaches a nil `*time.Time`: every
      other value, however nested, has a schema. */
  lemma {:induction false} InferFailsIff(v: Value)
    ensures GenerateSchema(v).Fail? <==> ReachesNilTime(v)
    decreases Measure(v)
  {
    match v
    case VList(e, items) =>
      ZeroValueMeasure(e);
      assert |items| > 0 ==> Measure(items[0]) <= ListMeasure(items);
      if |items| > 0 { InferFailsIff(items[0]); } else { InferFailsIff(ZeroValue(e)); }
    case VMap(entries) =>
      MapFailsIff(entries, []);
      assert GenerateSchema(v).Fail? <==> MapProperties(entries, []).Fail?;
    case VStruct(name, fs) =>
      StructFailsIff(fs, [], []);
      assert GenerateSchema(v).Fail? <==> StructProperties(fs, [], []).Fail?;
    case VPointer(t, Some(x)) =>
      InferFailsIff(x);
    case _ =>
  }

  lemma {:induction false} MapFailsIff(entries: seq<(string, Value)>, acc: GoMaps.GoMap<string, Schema>)
    ensures MapProperties(entries, acc).Fail? <==> SomeEntryReaches(entries)
    decreases EntriesMeasure(entries)
  {
    if |entries| > 0 {
      EntryMeasure(entries, 0);
      InferFailsIff(entries[0].1);
      var rest := entries[1..];
      forall i | 0 <= i < |rest| ensures EntryReaches(rest, i) <==> EntryReaches(entries, i + 1) {
        assert rest[i] == entries[i + 1];
      }
      if GenerateSchema(entries[0].1).Ok? {
        var acc' := GoMaps.Put(acc, entries[0].0, GenerateSchema(entries[0].1).value);
        MapFailsIff(rest, acc');
        assert MapProperties(entries, acc) == MapProperties(rest, acc');
        if exists i | 0 <= i < |entries| :: EntryReaches(entries, i) {
          var i :| 0 <= i < |entries| && EntryReaches(entries, i);
          assert i > 0 && EntryReaches(rest, i - 1);
        }
        if exists i | 0 <= i < |rest| :: EntryReaches(rest, i) {
          var i :| 0 <= i < |rest| && EntryReaches(rest, i);
          assert EntryReaches(entries, i + 1);
        }
      } else {
        assert EntryReaches(entries, 0);
        assert MapProperties(entries, acc).Fail?;
      }
    }
  }

  lemma {:induction false} StructFailsIff(fs: seq<Field>, props: GoMaps.GoMap<string, Schema>, req: seq<string>)
    ensures StructProperties(fs, props, req).Fail? <==> SomeFieldReaches(fs)
    decreases FieldsMeasure(fs)
  {
    if |fs| > 0 {
      var f := fs[0];
      var rest := fs[1..];
      FieldMeasure(fs, 0);
      forall i | 0 <= i < |rest| ensures FieldReaches(rest, i) <==> FieldReaches(fs, i + 1) {
        assert rest[i] == fs[i + 1];
      }
      if !Kept(f) {
        StructFailsIff(rest, props, req);
        assert StructProperties(fs, props, req) == StructProperties(rest, props, req);
        if exists i | 0 <= i < |fs| :: FieldReaches(fs, i) {
          var i :| 0 <= i < |fs| && FieldReaches(fs, i);
          assert i > 0 && FieldReaches(rest, i - 1);
        }
        if exists i | 0 <= i < |rest| :: FieldReaches(rest, i) {
          var i :| 0 <= i < |rest| && FieldReaches(rest, i);
          assert FieldReaches(fs, i + 1);
        }
      } else {
        InferFailsIff(f.value);
        if GenerateSchema(f.value).Ok? {
          var req' := if IsRequired(f) then req + [FieldName(f)] else req;
          var props' := GoMaps.Put(props, FieldName(f), GenerateSchema(f.value).value);
          StructFailsIff(rest, props', req');
          assert StructProperties(fs, props, req) == StructProperties(rest, props', req');
          if exists i | 0 <= i < |fs| :: FieldReaches(fs, i) {
            var i :| 0 <= i < |fs| && FieldReaches(fs, i);
            assert i > 0 && FieldReaches(rest, i - 1);
          }
          if exists i | 0 <= i < |rest| :: FieldReaches(rest, i) {
            var i :| 0 <= i < |rest| && FieldReaches(rest, i);
            assert FieldReaches(fs, i + 1);
          }
        } else {
          assert FieldReaches(fs, 0);
        }
      }
    }
  }

  /** `schemaOf(in)`: an object with one property per name of a parameter
      located `in`, holding the schema of the last such parameter with that
      name, and a required list naming the required ones in parameter
      order, repeats included. */
  function SchemaOf(params: seq<Parameter>, location: string): (s: Schema)
    ensures s.typ == "object" && s.ref == "" && s.typeName == "" && s.items == None
    ensures GoMaps.Domain(s.properties) == LocatedNames(params, location)
    ensures forall n :: n in s.required <==> exists i :: 0 <= i < |params| && params[i].location == location && params[i].required && params[i].name == n
    ensures forall n :: LastLocated(params, location, n).Some? ==>
      GoMaps.Lookup(s.properties, n) == Some(params[LastLocated(params, location, n).value].schema)
    ensures var idx := RequiredFrom(params, location, 0);
      |s.required| == |idx| && forall k :: 0 <= k < |idx| ==> s.required[k] == params[idx[k]].name
  {
    ParamPropertiesLookup(params, location, []);
    RequiredParamsIndices(params, location, 0);
    assert params[0..] == params;
    Schema("object", RequiredParams(params, location), ParamProperties(params, location, []), None, VNil, "", "")
  }

  /** The position of the last parameter named `n` located `location`. */
  function LastLocated(params: seq<Parameter>, location: string, n: string): (r: Option<nat>)
    ensures r.Some? ==> r.value < |params| && params[r.value].location == location && params[r.value].name == n
    ensures r.Some? ==> forall j :: r.value < j < |params| ==> !(params[j].location == location && params[j].name == n)
    ensures r.None? <==> n !in LocatedNames(params, location)
    decreases |params|
  {
    if |params| == 0 then None
    else
      LocatedNamesCons(params, location);
      match LastLocated(params[1..], location, n)
      case Some(i) => Some(i + 1)
      case None => if params[0].location == location && params[0].name == n then Some(0) else None
  }

  /** The positions from `i` on of the required parameters located
      `location`, in increasing order, none left out. */
  function RequiredFrom(params: seq<Parameter>, location: string, i: nat): (idx: seq<nat>)
    requires i <= |params|
    ensures forall k :: 0 <= k < |idx| ==> i <= idx[k] < |params| && params[idx[k]].location == location && params[idx[k]].required
    ensures forall k, l :: 0 <= k < l < |idx| ==> idx[k] < idx[l]
    ensures forall j :: i <= j < |params| && params[j].location == location && params[j].required ==> j in idx
    decreases |params| - i
  {
    if i == |params| then []
    else (if params[i].location == location && params[i].required then [i] else []) + RequiredFrom(params, location, i + 1)
  }

  /** What the loop leaves under `n`, starting from `acc`: the schema of
      the last located parameter named `n`, or `acc`'s entry if there is
      none. */
  function PropertyAfter(params: seq<Parameter>, location: string, acc: GoMaps.GoMap<string, Schema>, n: string): Option<Schema> {
    match LastLocated(params, location, n)
    case Some(i) => Some(params[i].schema)
    case None => GoMaps.Lookup(acc, n)
  }

  /** Each assignment of the loop leaves the last located parameter of a
      name in its property. */
  lemma {:induction false} ParamPropertiesLookup(params: seq<Parameter>, location: string, acc: GoMaps.GoMap<string, Schema>)
    ensures forall n :: GoMaps.Lookup(ParamProperties(params, location, acc), n) == PropertyAfter(params, location, acc, n)
    decreases |params|
  {
    if |params| > 0 {
      var p := params[0];
      var rest := params[1..];
      var acc' := if p.location == location then GoMaps.Put(acc, p.name, p.schema) else acc;
      ParamPropertiesLookup(rest, location, acc');
      forall n ensures GoMaps.Lookup(ParamProperties(params, location, acc), n) == PropertyAfter(params, location, acc, n) {
        assert ParamProperties(params, location, acc) == ParamProperties(rest, location, acc');
        match LastLocated(rest, location, n)
        case Some(i) =>
          assert rest[i] == params[i + 1];
        case None =>
          if p.location == location && p.name != n {
            GoMaps.PutFrame(acc, p.name, p.schema, n);
          }
      }
    }
  }

  /** `names[k]` is the name of the parameter at `idx[k]`, for every `k`. */
  predicate NamesAt(params: seq<Parameter>, names: seq<string>, idx: seq<nat>) {
    |names| == |idx| && forall k :: 0 <= k < |idx| ==> idx[k] < |params| && names[k] == params[idx[k]].name
  }

  lemma NamesAtCons(params: seq<Parameter>, names: seq<string>, idx: seq<nat>, i: nat)
    requires i < |params| && NamesAt(params, names, idx)
    ensures NamesAt(params, [params[i].name] + names, [i] + idx)
  {
    var names', idx' := [params[i].name] + names, [i] + idx;
    forall k | 0 <= k < |idx'| ensures idx'[k] < |params| && names'[k] == params[idx'[k]].name {
      if k > 0 {
        assert names'[k] == names[k - 1] && idx'[k] == idx[k - 1];
      }
    }
  }

  /** The loop's required list is the located required names at the
      positions `RequiredFrom` gives. */
  lemma {:induction false} RequiredParamsIndices(params: seq<Parameter>, location: string, i: nat)
    requires i <= |params|
    ensures var idx := RequiredFrom(params, location, i);
      |RequiredParams(params[i..], location)| == |idx|
      && forall k :: 0 <= k < |idx| ==> RequiredParams(params[i..], location)[k] == params[idx[k]].name
    decreases |params| - i
  {
    RequiredParamsAt(params, location, i);
  }

  lemma {:induction false} RequiredParamsAt(params: seq<Parameter>, location: string, i: nat)
    requires i <= |params|
    ensures NamesAt(params, RequiredParams(params[i..], location), RequiredFrom(params, location, i))
    decreases |params| - i
  {
    if i < |params| {
      RequiredParamsAt(params, location, i + 1);
      var q := params[i..];
      assert q[1..] == params[i + 1..] && q[0] == params[i];
      var tail := RequiredParams(params[i + 1..], location);
      var idx' := RequiredFrom(params, location, i + 1);
      if params[i].location == location && params[i].required {
        assert RequiredParams(q, location) == [params[i].name] + tail;
        assert RequiredFrom(params, location, i) == [i] + idx';
        NamesAtCons(params, tail, idx', i);
      } else {
        assert RequiredParams(q, location) == tail;
        assert RequiredFrom(params, location, i) == idx';
      }
    }
  }

  /** The names of the parameters located `location`. */
  function LocatedNames(params: seq<Parameter>, location: string): set<string> {
    set i | 0 <= i < |params| && params[i].location == location :: params[i].name
  }

  lemma LocatedNamesCons(params: seq<Parameter>, location: string)
    requires |params| > 0
    ensures LocatedNames(params, location) ==
      (if params[0].location == location then {params[0].name} else {}) + LocatedNames(params[1..], location)
  {
    var rest := params[1..];
    forall n | n in LocatedNames(params, location)
      ensures n in (if params[0].location == location then {params[0].name} else {}) + LocatedNames(rest, location)
    {
      var i :| 0 <= i < |params| && params[i].location == location && params[i].name == n;
      if i > 0 { assert rest[i - 1] == params[i]; }
    }
    forall n | n in LocatedNames(rest, location) ensures n in LocatedNames(params, location) {
      var i :| 0 <= i < |rest| && rest[i].location == location && rest[i].name == n;
      assert params[i + 1] == rest[i];
    }
  }

  function ParamProperties(params: seq<Parameter>, location: string, acc: GoMaps.GoMap<string, Schema>): (r: GoMaps.GoMap<string, Schema>)
    ensures GoMaps.Domain(r) == GoMaps.Domain(acc) + LocatedNames(params, location)
    decreases |params|
  {
    if |params| == 0 then acc
    else
      var p := params[0];
      var acc' := if p.location == location then GoMaps.Put(acc, p.name, p.schema) else acc;
      LocatedNamesCons(params, location);
      ParamProperties(params[1..], location, acc')
  }

  function RequiredParams(params: seq<Parameter>, location: string): (names: seq<string>)
    ensures forall n :: n in names <==> exists i :: 0 <= i < |params| && params[i].location == location && params[i].required && params[i].name == n
    decreases |params|
  {
    if |params| == 0 then []
    else
      var rest := RequiredParams(params[1..], location);
      assert forall i :: 0 <= i < |params[1..]| ==> params[1..][i] == params[i + 1];
      if params[0].location == location && params[0].required then [params[0].name] + rest else rest
  }

  function PathSchema(op: Operation): Schema {
    SchemaOf(op.parameters, "path")
  }

  function HeaderSchema(op: Operation): Schema {
    SchemaOf(op.parameters, "header")
  }

  function QuerySchema(op: Operation): Schema {
    SchemaOf(op.parameters, "query")
  }

  function CookieSchema(op: Operation): Schema {
    SchemaOf(op.parameters, "cookie")
  }

  /** `ValueToSchema` is `generateSchema`; `valuesToSchemas` maps it over a
      list, failing if any element fails. */
  function ValuesToSchemas(values: seq<Value>): (r: Result<seq<Schema>>)
    ensures r.Ok? ==> |r.value| == |values|
    ensures r.Ok? ==> forall i :: 0 <= i < |values| ==> GenerateSchema(values[i]) == Ok(r.value[i])
    ensures r.Fail? ==> exists i :: 0 <= i < |values| && GenerateSchema(values[i]).Fail?
  {
    if |values| == 0 then Ok([])
    else
      match GenerateSchema(values[0])
      case Fail(e) => Fail(e)
      case Ok(s) =>
        var tail := values[1..];
        match ValuesToSchemas(tail)
        case Fail(e) =>
          var j :| 0 <= j < |tail| && GenerateSchema(tail[j]).Fail?;
          assert values[j + 1] == tail[j];
          Fail(e)
        case Ok(rest) =>
          assert forall i :: 1 <= i < |values| ==> values[i] == tail[i - 1];
          Ok([s] + rest)
  }
}
