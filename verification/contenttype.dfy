/** The fixed table of media types behind `ContentType` (content_type.go):
    each Go field name with the MIME type its slot is yielded under. */
module MediaTypes {
  const Table: seq<(string, string)> := [
    ("ApplicationJson", "application/json"),
    ("ApplicationXml", "application/xml"),
    ("ApplicationXWWWFormURLEncoded", "application/x-www-form-urlencoded"),
    ("ApplicationJavaScript", "application/javascript"),
    ("ApplicationPdf", "application/pdf"),
    ("ApplicationZip", "application/zip"),
    ("TextHtml", "text/html"),
    ("TextPlain", "text/plain"),
    ("TextCss", "text/css"),
    ("TextCsv", "text/csv"),
    ("TextJavaScript", "text/javascript"),
    ("ImageJpeg", "image/jpeg"),
    ("ImagePng", "image/png"),
    ("ImageGif", "image/gif"),
    ("ImageSvgXml", "image/svg+xml"),
    ("ImageWebp", "image/webp"),
    ("AudioMpeg", "audio/mpeg"),
    ("AudioOgg", "audio/ogg"),
    ("AudioWav", "audio/wav"),
    ("VideoMp4", "video/mp4"),
    ("VideoMpeg", "video/mpeg"),
    ("VideoOgg", "video/ogg"),
    ("MultipartFormData", "multipart/form-data")
  ]
}

/** `ContentType` (content_type.go): one `any` slot per media type, its
    iterator and the `isContentType` test. */
module ContentTypes {
  import opened Wrappers
  import opened Values
  import MediaTypes
  import Iteration

  /** A `ContentType` value; slot `i` holds the value for `MediaTypes.Table[i]`,
      and a slot beyond the end of `slots` is nil. */
  datatype ContentType = ContentType(slots: seq<Value>)
  {
    function Slot(i: nat): Value {
      if i < |slots| then slots[i] else VNil
    }
  }

  /** What a response slot (a Go `any`) may hold: an ordinary value, a
      `ContentType`, or a `*ContentType` that may be nil. */
  datatype Any = Plain(v: Value) | Typed(ct: ContentType) | TypedPtr(ptr: Option<ContentType>)
  {
    /** Only the nil interface is nil; a typed nil pointer is not. */
    predicate IsNil() {
      this == Plain(VNil)
    }
  }

  /** The value a `ContentType` stands for when it is inspected as an
      ordinary struct. */
  function StructOf(ct: ContentType): Value {
    VStruct("ContentType", seq(|MediaTypes.Table|, i requires 0 <= i < |MediaTypes.Table| =>
      Field(MediaTypes.Table[i].0, "", true, ct.Slot(i))))
  }

  /** The `any` as a reflected value. */
  function AsValue(a: Any): Value {
    match a
    case Plain(v) => v
    case Typed(ct) => StructOf(ct)
    case TypedPtr(None) => VPointer(TContentType, None)
    case TypedPtr(Some(ct)) => VPointer(TContentType, Some(StructOf(ct)))
  }

  /** Indices of the non-nil slots from `i` on, in table order. */
  function PresentFrom(ct: ContentType, i: nat): (idx: seq<nat>)
    requires i <= |MediaTypes.Table|
    ensures forall k :: 0 <= k < |idx| ==> i <= idx[k] < |MediaTypes.Table| && ct.Slot(idx[k]) != VNil
    ensures forall k, l :: 0 <= k < l < |idx| ==> idx[k] < idx[l]
    ensures forall j :: i <= j < |MediaTypes.Table| && ct.Slot(j) != VNil ==> j in idx
    decreases |MediaTypes.Table| - i
  {
    if i == |MediaTypes.Table| then []
    else if ct.Slot(i) != VNil then [i] + PresentFrom(ct, i + 1)
    else PresentFrom(ct, i + 1)
  }

  /** Everything `Iterate` would yield to a consumer that never stops. */
  function Items(ct: ContentType): (items: seq<(string, Value)>)
    ensures forall k :: 0 <= k < |items| ==> items[k].1 != VNil
  {
    var idx := PresentFrom(ct, 0);
    seq(|idx|, k requires 0 <= k < |idx| => (MediaTypes.Table[idx[k]].1, ct.Slot(idx[k])))
  }

  /** `Iterate`: the non-nil slots with their MIME types, in the fixed table
      order, handed to a consumer that may stop early. */
  function Iterate(ct: ContentType, keepGoing: (nat, (string, Value)) -> bool): (d: seq<(string, Value)>)
    ensures |d| <= |Items(ct)| && d == Items(ct)[..|d|]
  {
    Iteration.Deliver(Items(ct), keepGoing)
  }

  /** No two table entries share a MIME type (or a field name). */
  lemma TableDistinct()
    ensures forall i, j :: 0 <= i < j < |MediaTypes.Table| ==>
      MediaTypes.Table[i].1 != MediaTypes.Table[j].1 && MediaTypes.Table[i].0 != MediaTypes.Table[j].0
  {
  }

  /** A MIME type is yielded with a value iff its slot holds that non-nil
      value. */
  lemma ItemsExactlyNonNil(ct: ContentType, i: nat)
    requires i < |MediaTypes.Table|
    ensures ct.Slot(i) != VNil <==> (MediaTypes.Table[i].1, ct.Slot(i)) in Items(ct)
  {
    var idx := PresentFrom(ct, 0);
    var items := Items(ct);
    if ct.Slot(i) != VNil {
      var k :| 0 <= k < |idx| && idx[k] == i;
      assert items[k] == (MediaTypes.Table[i].1, ct.Slot(i));
    }
  }

  /** The yielded MIME types are pairwise distinct and follow the table
      order: the items are the non-nil slots at strictly increasing table
      positions, none left out. */
  lemma ItemsOrdered(ct: ContentType)
    ensures forall k, l :: 0 <= k < l < |Items(ct)| ==> Items(ct)[k].0 != Items(ct)[l].0
    ensures forall k :: 0 <= k < |Items(ct)| ==> exists i :: 0 <= i < |MediaTypes.Table| && Items(ct)[k] == (MediaTypes.Table[i].1, ct.Slot(i))
    ensures exists idx: seq<nat> ::
      && |idx| == |Items(ct)|
      && (forall k, l :: 0 <= k < l < |idx| ==> idx[k] < idx[l])
      && (forall k :: 0 <= k < |idx| ==> idx[k] < |MediaTypes.Table| && Items(ct)[k] == (MediaTypes.Table[idx[k]].1, ct.Slot(idx[k])))
      && (forall j :: 0 <= j < |MediaTypes.Table| && ct.Slot(j) != VNil ==> j in idx)
  {
    TableDistinct();
    var idx := PresentFrom(ct, 0);
    assert |idx| == |Items(ct)|;
    forall k | 0 <= k < |Items(ct)|
      ensures exists i :: 0 <= i < |MediaTypes.Table| && Items(ct)[k] == (MediaTypes.Table[i].1, ct.Slot(i))
    {
      assert Items(ct)[k] == (MediaTypes.Table[idx[k]].1, ct.Slot(idx[k]));
    }
  }

  /** `isContentType`: nil and every non-`ContentType` value give nil; a
      `ContentType` value gives a pointer to a copy of it; a `*ContentType`
      is returned as it is (a typed nil pointer stays nil). */
  function IsContentType(a: Any): (r: Option<ContentType>)
    ensures a.IsNil() ==> r == None
    ensures a.Plain? ==> r == None
    ensures a.Typed? ==> r == Some(a.ct)
    ensures a.TypedPtr? ==> r == a.ptr
  {
    match a
    case Plain(_) => None
    case Typed(ct) => Some(ct)
    case TypedPtr(p) => p
  }

  /** A content type with only its `application/json` slot set yields just
      that slot, or nothing when the slot is nil. */
  lemma JsonOnlyItems(v: Value)
    ensures Items(ContentType([v])) == if v == VNil then [] else [("application/json", v)]
  {
    var ct := ContentType([v]);
    NothingPresentFrom(ct, 1);
    assert PresentFrom(ct, 0) == (if v != VNil then [0] else []) + PresentFrom(ct, 1);
  }

  /** No slot from `i` on is set, so nothing from `i` on is yielded. */
  lemma {:induction false} NothingPresentFrom(ct: ContentType, i: nat)
    requires i <= |MediaTypes.Table|
    requires forall j :: i <= j < |MediaTypes.Table| ==> ct.Slot(j) == VNil
    ensures PresentFrom(ct, i) == []
    decreases |MediaTypes.Table| - i
  {
    if i < |MediaTypes.Table| {
      NothingPresentFrom(ct, i + 1);
    }
  }
}
