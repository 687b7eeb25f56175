/** The response envelopes of the web application: `{status: true, content}` with an
    optional `meta` and `data`, and `{status: false, content: {error: {code, message}}}`. */
module Response {
  import opened Json
  import opened Jobs

  /** The code an error response carries when the caller names none. */
  const DefaultCode: string := "INTERNAL_SERVER_ERROR"

  /** `successResponse(data, meta)`; a missing argument is `null`. The envelope has
      exactly `status: true` and `content`, and `content` holds `meta` exactly when
      `meta` is truthy and `data` exactly when `data` is truthy, and nothing else. */
  function SuccessResponse(data: Json, meta: Json): (r: Json)
    ensures r.JObj? && r.fields.Keys == {"status", "content"}
    ensures r.fields["status"] == JBool(true) && r.fields["content"].JObj?
    ensures var content := r.fields["content"].fields;
      && content.Keys <= {"meta", "data"}
      && ("meta" in content <==> Truthy(meta))
      && ("data" in content <==> Truthy(data))
      && ("meta" in content ==> content["meta"] == meta)
      && ("data" in content ==> content["data"] == data)
  {
    var withMeta: map<string, Json> := if Truthy(meta) then map["meta" := meta] else map[];
    var content := if Truthy(data) then withMeta["data" := data] else withMeta;
    JObj(map["status" := JBool(true), "content" := JObj(content)])
  }

  /** `errorResponse(message, code)`; `None` stands for an omitted code, which defaults
      to `"INTERNAL_SERVER_ERROR"`. The envelope has `status: false` and a `content`
      holding only `error`, which holds exactly `code` and `message`. */
  function ErrorResponse(message: string, code: Option<string>): (r: Json)
    ensures r.JObj? && r.fields.Keys == {"status", "content"}
    ensures r.fields["status"] == JBool(false)
    ensures r.fields["content"] == JObj(map["error" := JObj(map[
      "code" := JStr(if code.Some? then code.value else DefaultCode),
      "message" := JStr(message)])])
  {
    var c := match code case Some(given) => given case None => DefaultCode;
    JObj(map["status" := JBool(false),
             "content" := JObj(map["error" := JObj(map["code" := JStr(c), "message" := JStr(message)])])])
  }

  /** The payload a client reads back: `content.data` when present. */
  function DataOf(r: Json): Option<Json> {
    if r.JObj? && "content" in r.fields && r.fields["content"].JObj? && "data" in r.fields["content"].fields
    then Some(r.fields["content"].fields["data"])
    else None
  }

  /** The error a client reads back: `content.error.code` and `content.error.message`. */
  function ErrorOf(r: Json): Option<(Json, Json)> {
    if r.JObj? && "content" in r.fields && r.fields["content"].JObj? && "error" in r.fields["content"].fields
       && r.fields["content"].fields["error"].JObj?
       && "code" in r.fields["content"].fields["error"].fields
       && "message" in r.fields["content"].fields["error"].fields
    then Some((r.fields["content"].fields["error"].fields["code"], r.fields["content"].fields["error"].fields["message"]))
    else None
  }

  /** A client reads back the data it was sent when that data is truthy, and sees no
      data otherwise; a success envelope carries no error, and an error envelope no data. */
  lemma EnvelopesReadBack(data: Json, meta: Json, message: string, code: Option<string>)
    ensures DataOf(SuccessResponse(data, meta)) == (if Truthy(data) then Some(data) else None)
    ensures ErrorOf(SuccessResponse(data, meta)).None?
    ensures ErrorOf(ErrorResponse(message, code)) ==
      Some((JStr(if code.Some? then code.value else DefaultCode), JStr(message)))
    ensures DataOf(ErrorResponse(message, code)).None?
  {
    var e := ErrorResponse(message, code).fields["content"];
    assert "data" !in e.fields by {
      assert e.fields.Keys == {"error"};
    }
  }

  /** The two envelopes never coincide: `status` tells them apart. */
  lemma StatusTellsApart(data: Json, meta: Json, message: string, code: Option<string>)
    ensures SuccessResponse(data, meta) != ErrorResponse(message, code)
  {
    assert SuccessResponse(data, meta).fields["status"] != ErrorResponse(message, code).fields["status"];
  }
}
