/**
 * `Base::MessageDrivenFSA::ResponseDataSchema`: the shape of a reply's body,
 * as a predicate over parsed JSON, and the typed reply the handler works
 * with once the body passes it.
 */
module ResponseDataSchema {
  import opened Wrappers
  import opened Values

  /** A parsed JSON document; an object is a map from key to value. */
  datatype Json =
    | JNull
    | JBool(b: bool)
    | JNum(n: int)
    | JStr(s: string)
    | JArr(items: seq<Json>)
    | JObj(fields: map<string, Json>)

  /** The reply kinds the `format` enumeration admits. */
  datatype Format = Exception | Rejection | Response

  function FormatName(f: Format): string
  {
    match f
    case Exception => "EXCEPTION"
    case Rejection => "REJECTION"
    case Response => "RESPONSE"
  }

  /** The `format` enumeration, as its names. */
  function FormatOf(s: string): (r: Option<Format>)
    ensures r.Some? ==> FormatName(r.value) == s
    ensures r.None? ==> forall f: Format :: FormatName(f) != s
  {
    if s == "EXCEPTION" then Some(Exception)
    else if s == "REJECTION" then Some(Rejection)
    else if s == "RESPONSE" then Some(Response)
    else None
  }

  predicate StringField(fields: map<string, Json>, name: string)
  {
    name in fields && fields[name].JStr?
  }

  /** `content`: an object with a required string `special_data`. */
  predicate ContentValid(j: Json)
  {
    j.JObj? && StringField(j.fields, "special_data")
  }

  /** An item of `attachments`: null, or an object with a required string `fs_id`. */
  predicate AttachmentValid(j: Json)
  {
    j.JNull? || (j.JObj? && StringField(j.fields, "fs_id"))
  }

  predicate AttachmentsValid(j: Json)
  {
    j.JArr? && forall i :: 0 <= i < |j.items| ==> AttachmentValid(j.items[i])
  }

  /**
   * `SCHEMA`: an object with a string `id`, a `format` from the
   * enumeration and a valid `content`, and, when present, a valid
   * `attachments` array. Other keys are not restricted.
   */
  predicate Valid(j: Json)
  {
    j.JObj?
    && StringField(j.fields, "id")
    && StringField(j.fields, "format") && FormatOf(j.fields["format"].s).Some?
    && "content" in j.fields && ContentValid(j.fields["content"])
    && ("attachments" in j.fields ==> AttachmentsValid(j.fields["attachments"]))
  }

  /** One attachment as the extractor reads it. */
  datatype Attachment = Attachment(fsId: Option<string>, mimeType: Value, filename: Value)

  /** The reply body the handler keeps. */
  datatype ResponseData = ResponseData(
    id: string,
    format: Format,
    specialData: string,
    attachments: Option<seq<Option<Attachment>>>)

  /** A string member of an object, or nil. */
  function StringOf(fields: map<string, Json>, name: string): (r: Value)
    ensures r.Some? <==> StringField(fields, name)
    ensures r.Some? ==> r.value == fields[name].s
  {
    if StringField(fields, name) then Some(fields[name].s) else None
  }

  function AttachmentOf(j: Json): (r: Option<Attachment>)
    ensures r.None? <==> !j.JObj?
    ensures r.Some? ==> r.value.fsId == StringOf(j.fields, "fs_id")
  {
    if j.JObj? then Some(Attachment(StringOf(j.fields, "fs_id"), StringOf(j.fields, "mime_type"), StringOf(j.fields, "filename")))
    else None
  }

  /** The typed reply of a body that passes the schema, `None` for any other. */
  function Decode(j: Json): (r: Option<ResponseData>)
    ensures r.Some? <==> Valid(j)
    ensures r.Some? ==>
      && r.value.id == j.fields["id"].s
      && FormatName(r.value.format) == j.fields["format"].s
      && r.value.specialData == j.fields["content"].fields["special_data"].s
      && (r.value.attachments.Some? <==> "attachments" in j.fields)
  {
    if !Valid(j) then None
    else
      var f := j.fields;
      var atts :=
        if "attachments" in f
        then Some(seq(|f["attachments"].items|, i requires 0 <= i < |f["attachments"].items| => AttachmentOf(f["attachments"].items[i])))
        else None;
      Some(ResponseData(f["id"].s, FormatOf(f["format"].s).value, f["content"].fields["special_data"].s, atts))
  }

  /** The object `m` with the member `k` added when `v` is set. */
  function Put(m: map<string, Json>, k: string, v: Value): (r: map<string, Json>)
    ensures StringOf(r, k) == v || (v.None? && StringOf(r, k) == StringOf(m, k))
    ensures forall k' :: k' != k ==> StringOf(r, k') == StringOf(m, k')
  {
    if v.Some? then m[k := JStr(v.value)] else m
  }

  function EncodeAttachment(a: Option<Attachment>): Json
  {
    if a.None? then JNull
    else JObj(Put(Put(Put(map[], "fs_id", a.value.fsId), "mime_type", a.value.mimeType), "filename", a.value.filename))
  }

  /** A reply body for `d`: the inverse of `Decode` on bodies that pass the schema. */
  function Encode(d: ResponseData): Json
  {
    var base := map[
      "id" := JStr(d.id),
      "format" := JStr(FormatName(d.format)),
      "content" := JObj(map["special_data" := JStr(d.specialData)])];
    if d.attachments.None? then JObj(base)
    else
      var items := d.attachments.value;
      JObj(base["attachments" := JArr(seq(|items|, i requires 0 <= i < |items| => EncodeAttachment(items[i])))])
  }

  /** Every attachment object carries its `fs_id`, as the schema requires. */
  predicate WellFormed(d: ResponseData)
  {
    d.attachments.Some? ==> forall i :: 0 <= i < |d.attachments.value| ==>
      d.attachments.value[i].Some? ==> d.attachments.value[i].value.fsId.Some?
  }

  /** An attachment entry survives encoding and decoding. */
  lemma AttachmentRoundTrip(a: Option<Attachment>)
    requires a.Some? ==> a.value.fsId.Some?
    ensures AttachmentValid(EncodeAttachment(a))
    ensures AttachmentOf(EncodeAttachment(a)) == a
  {
  }

  /** Encoding a well-formed reply gives a body the schema accepts and that decodes back to it. */
  lemma DecodeEncode(d: ResponseData)
    requires WellFormed(d)
    ensures Valid(Encode(d))
    ensures Decode(Encode(d)) == Some(d)
  {
    var j := Encode(d);
    assert FormatOf(FormatName(d.format)) == Some(d.format);
    if d.attachments.Some? {
      var items := d.attachments.value;
      var arr := j.fields["attachments"];
      forall i | 0 <= i < |items|
        ensures AttachmentValid(arr.items[i]) && AttachmentOf(arr.items[i]) == items[i]
      {
        AttachmentRoundTrip(items[i]);
      }
      var decoded := seq(|arr.items|, i requires 0 <= i < |arr.items| => AttachmentOf(arr.items[i]));
      assert decoded == items;
    }
  }

  /** Every reply the schema accepts is well formed. */
  lemma DecodedWellFormed(j: Json)
    requires Valid(j)
    ensures WellFormed(Decode(j).value)
  {
  }

  /** A body missing `id`, `format` or `content` fails the schema. */
  lemma RequiredKeys(fields: map<string, Json>, k: string)
    requires k == "id" || k == "format" || k == "content"
    ensures !Valid(JObj(fields - {k}))
  {
  }

  /**
   * Keys the schema does not describe are allowed: adding one to a valid
   * body keeps it valid and changes nothing the handler reads.
   */
  lemma ExtraKeyAllowed(j: Json, k: string, v: Json)
    requires Valid(j)
    requires k != "id" && k != "format" && k != "content" && k != "attachments"
    ensures Valid(JObj(j.fields[k := v]))
    ensures Decode(JObj(j.fields[k := v])) == Decode(j)
  {
    var j' := JObj(j.fields[k := v]);
    assert j'.fields["id"] == j.fields["id"] && j'.fields["format"] == j.fields["format"];
    assert j'.fields["content"] == j.fields["content"];
    assert ("attachments" in j'.fields) == ("attachments" in j.fields);
    if "attachments" in j.fields {
      assert j'.fields["attachments"] == j.fields["attachments"];
    }
  }
}
