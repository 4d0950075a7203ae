/** The runtime values that `generateSchema` (internal/openapi/schema.go)
    inspects through Go's `reflect` package, as an explicit value/type IR.
    Type descriptors are inductive, so every type here is finite; a Go type
    that refers to itself has no counterpart. */
module Values {
  import opened Wrappers
  import MediaTypes

  /** A Go type, as far as schema inference distinguishes types. */
  datatype TypeDesc =
    | TBool
    | TInt
    | TUint
    | TFloat
    | TString
    | TSlice(elem: TypeDesc)
    | TArray(elem: TypeDesc, len: nat)
    | TMap(key: TypeDesc, elem: TypeDesc)
    | TStruct(name: string, fields: seq<FieldDesc>)
    | TPointer(elem: TypeDesc)
    | TInterface
    | TTime
    | TContentType
    | TOther(kind: string, zeroRepr: string)

  /** A struct field: its Go name, its `json` tag, whether it is exported
      (`CanInterface`), and its type. */
  datatype FieldDesc = FieldDesc(name: string, tag: string, exported: bool, typ: TypeDesc)

  /** A dynamic value held in an `any`. `VNil` is the nil interface; a typed
      nil pointer is `VPointer(t, None)`. Floats are opaque tokens and
      `time.Time` is kept as its RFC 3339 rendering. Map keys are kept in
      their `%v` rendering. */
  datatype Value =
    | VNil
    | VBool(b: bool)
    | VInt(i: int)
    | VUint(u: nat)
    | VFloat(token: string)
    | VString(s: string)
    | VList(elem: TypeDesc, items: seq<Value>)
    | VMap(entries: seq<(string, Value)>)
    | VStruct(name: string, fields: seq<Field>)
    | VPointer(pointee: TypeDesc, target: Option<Value>)
    | VTime(iso: string)
    | VOther(kind: string, repr: string)

  datatype Field = Field(name: string, tag: string, exported: bool, value: Value)

  /** The `reflect.Kind` names `encoding/json` has no encoding for: it
      reports an `UnsupportedTypeError` for them. */
  const UnsupportedKinds: set<string> := {"chan", "func", "complex64", "complex128", "unsafe.Pointer"}

  /** The renderings of the floats `encoding/json` refuses with an
      `UnsupportedValueError`. */
  const NonFiniteFloats: set<string> := {"NaN", "+Inf", "-Inf"}

  /** Whether `json.Marshal` encodes a value without error: no unsupported
      kind and no non-finite float is reached through list elements, map
      values, pointers, or the struct fields it encodes (exported ones
      whose tag is not exactly `-`). */
  predicate Encodable(v: Value)
    decreases v
  {
    match v
    case VFloat(token) => token !in NonFiniteFloats
    case VList(_, items) => forall i :: 0 <= i < |items| ==> Encodable(items[i])
    case VMap(entries) => forall i :: 0 <= i < |entries| ==> Encodable(entries[i].1)
    case VStruct(_, fs) => forall i :: 0 <= i < |fs| ==> (fs[i].exported && fs[i].tag != "-" ==> Encodable(fs[i].value))
    case VPointer(_, target) => target.Some? ==> Encodable(target.value)
    case VOther(kind, _) => kind !in UnsupportedKinds
    case _ => true
  }

  /** RFC 3339 rendering of the zero `time.Time`. */
  const ZeroTimeIso: string := "0001-01-01T00:00:00Z"

  /** `reflect.Zero(t).Interface()`: nil slices, maps and pointers, a nil
      interface, zero numbers, the empty string, zero structs and arrays of
      zero elements. */
  function ZeroValue(t: TypeDesc): Value {
    match t
    case TBool => VBool(false)
    case TInt => VInt(0)
    case TUint => VUint(0)
    case TFloat => VFloat("0")
    case TString => VString("")
    case TSlice(e) => VList(e, [])
    case TArray(e, n) => VList(e, Copies(ZeroValue(e), n))
    case TMap(_, _) => VMap([])
    case TStruct(name, fds) =>
      VStruct(name, seq(|fds|, i requires 0 <= i < |fds| =>
        Field(fds[i].name, fds[i].tag, fds[i].exported, ZeroValue(fds[i].typ))))
    case TPointer(e) => VPointer(e, None)
    case TInterface => VNil
    case TTime => VTime(ZeroTimeIso)
    case TContentType => ZeroContentType()
    case TOther(kind, zeroRepr) => VOther(kind, zeroRepr)
  }

  function Copies(z: Value, n: nat): (s: seq<Value>)
    ensures |s| == n
  {
    if n == 0 then [] else [z] + Copies(z, n - 1)
  }

  /** The zero `ContentType` struct: every media-type slot is a nil `any`. */
  function ZeroContentType(): Value {
    VStruct("ContentType", seq(|MediaTypes.Table|, i requires 0 <= i < |MediaTypes.Table| =>
      Field(MediaTypes.Table[i].0, "", true, VNil)))
  }

  /** A size that every step of schema inference decreases, including the
      step from an empty list to the zero value of its element type. */
  function Measure(v: Value): nat
    decreases v
  {
    match v
    case VList(e, items) => 1 + TMeasure(e) + ListMeasure(items)
    case VMap(entries) => 1 + EntriesMeasure(entries)
    case VStruct(_, fs) => 1 + FieldsMeasure(fs)
    case VPointer(_, Some(x)) => 1 + Measure(x)
    case _ => 1
  }

  function ListMeasure(items: seq<Value>): nat
    decreases items
  {
    if |items| == 0 then 0 else Measure(items[0]) + ListMeasure(items[1..])
  }

  function EntriesMeasure(entries: seq<(string, Value)>): nat
    decreases entries
  {
    if |entries| == 0 then 0
    else
      assert entries[0].1 < entries[0];
      1 + Measure(entries[0].1) + EntriesMeasure(entries[1..])
  }

  function FieldsMeasure(fs: seq<Field>): nat
    decreases fs
  {
    if |fs| == 0 then 0 else 1 + Measure(fs[0].value) + FieldsMeasure(fs[1..])
  }

  /** An upper bound on the measure of a type's zero value. */
  function TMeasure(t: TypeDesc): nat
    decreases t
  {
    match t
    case TSlice(e) => 1 + TMeasure(e)
    case TArray(e, n) => 1 + TMeasure(e) + n * TMeasure(e)
    case TStruct(_, fds) => 1 + TFieldsMeasure(fds)
    case TContentType => 1 + 2 * |MediaTypes.Table|
    case _ => 1
  }

  function TFieldsMeasure(fds: seq<FieldDesc>): nat
    decreases fds
  {
    if |fds| == 0 then 0 else 1 + TMeasure(fds[0].typ) + TFieldsMeasure(fds[1..])
  }

  /** The zero value of a type is no larger than the type's bound, so
      inference that falls back to a zero value makes progress. */
  lemma {:induction false} ZeroValueMeasure(t: TypeDesc)
    ensures Measure(ZeroValue(t)) <= TMeasure(t)
    decreases t
  {
    match t
    case TArray(e, n) =>
      ZeroValueMeasure(e);
      CopiesMeasure(ZeroValue(e), n, TMeasure(e));
    case TStruct(name, fds) =>
      ZeroFieldsMeasure(fds);
    case TContentType =>
      NilFieldsMeasure(MediaTypes.Table);
    case _ =>
  }

  lemma {:induction false} CopiesMeasure(z: Value, n: nat, bound: nat)
    requires Measure(z) <= bound
    ensures ListMeasure(Copies(z, n)) <= n * bound
    decreases n
  {
    if n > 0 {
      assert Copies(z, n)[1..] == Copies(z, n - 1);
      CopiesMeasure(z, n - 1, bound);
      assert n * bound == bound + (n - 1) * bound;
    }
  }

  lemma {:induction false} ZeroFieldsMeasure(fds: seq<FieldDesc>)
    ensures FieldsMeasure(seq(|fds|, i requires 0 <= i < |fds| =>
      Field(fds[i].name, fds[i].tag, fds[i].exported, ZeroValue(fds[i].typ)))) <= TFieldsMeasure(fds)
    decreases fds
  {
    if |fds| > 0 {
      var zs := seq(|fds|, i requires 0 <= i < |fds| =>
        Field(fds[i].name, fds[i].tag, fds[i].exported, ZeroValue(fds[i].typ)));
      var rest := fds[1..];
      assert zs[1..] == seq(|rest|, i requires 0 <= i < |rest| =>
        Field(rest[i].name, rest[i].tag, rest[i].exported, ZeroValue(rest[i].typ)));
      ZeroValueMeasure(fds[0].typ);
      ZeroFieldsMeasure(rest);
    }
  }

  lemma {:induction false} NilFieldsMeasure(table: seq<(string, string)>)
    ensures FieldsMeasure(seq(|table|, i requires 0 <= i < |table| => Field(table[i].0, "", true, VNil))) == 2 * |table|
    decreases table
  {
    if |table| > 0 {
      var rest := table[1..];
      assert seq(|table|, i requires 0 <= i < |table| => Field(table[i].0, "", true, VNil))[1..]
        == seq(|rest|, i requires 0 <= i < |rest| => Field(rest[i].0, "", true, VNil));
      NilFieldsMeasure(rest);
    }
  }
}
