/**
 * The client error taxonomy and how an HTTP failure is classified into it:
 * `From<ureq::Error> for Error` in the newer API crate and
 * `From<Response> for Error` in the older client, which share the
 * classification of a response by Content-Type and JSON shape, and the
 * `Display` both revisions give the errors.
 */
module ApiErrors {
  import opened Wrappers
  import opened Clock

  type U16 = n: int | 0 <= n < 0x1_0000

  /** A JSON value; numbers are kept as integers, since only the shape matters here. */
  datatype Json =
    | JNull
    | JBool(b: bool)
    | JNumber(n: int)
    | JString(s: string)
    | JArray(items: seq<Json>)
    | JObject(fields: map<string, Json>)

  datatype Error =
    | ApiError(status: U16, description: Option<string>, json: Option<Json>)
    | Generic(message: string)
    | UnexpectedPayload
    | UnhandledStatus(status: U16)

  /**
   * An HTTP response that signalled failure: its status, its Content-Type
   * header if any, and its body read as JSON (`None` when it is not JSON).
   */
  datatype Response = Response(status: U16, contentType: Option<string>, body: Option<Json>)

  /** `ureq::Error`: a status error carrying the response, or a transport failure; `desc` is its text. */
  datatype UreqError = Status(desc: string, response: Response) | Transport(desc: string)

  const JSON_MEDIA_TYPE: string := "application/json"

  predicate StartsWith(s: string, prefix: string) {
    |prefix| <= |s| && s[..|prefix|] == prefix
  }

  /** `str::contains`. */
  predicate Contains(s: string, part: string)
    decreases |s|
  {
    StartsWith(s, part) || (|s| > 0 && Contains(s[1..], part))
  }

  /** The description a JSON error body carries: the first element of a string-led array, or a string `detail`. */
  function BodyDescription(data: Json): (d: Option<string>)
    ensures d.Some? <==> (data.JArray? && |data.items| > 0 && data.items[0].JString?) ||
                         (data.JObject? && "detail" in data.fields && data.fields["detail"].JString?)
    ensures d.Some? ==> JString(d.value) == if data.JArray? then data.items[0] else data.fields["detail"]
  {
    match data
    case JArray(list) => if |list| > 0 && list[0].JString? then Some(list[0].s) else None
    case JObject(obj) => if "detail" in obj && obj["detail"].JString? then Some(obj["detail"].s) else None
    case _ => None
  }

  /** A JSON body the classification aborts on: an empty array reaches `first().unwrap()`. */
  predicate AbortsOn(data: Json) {
    data.JArray? && |data.items| == 0
  }

  /** The arms of the JSON `match`, in source order. */
  function ClassifyJson(status: U16, data: Json): (r: Outcome<Error>)
    ensures r.Panicked? <==> AbortsOn(data)
    ensures r.Returned? ==> r.value == ApiError(status, BodyDescription(data), Some(data))
  {
    match data
    case JArray(list) =>
      if |list| == 0 then Panicked("first().unwrap() on an empty JSON array")
      else if list[0].JString? then Returned(ApiError(status, Some(list[0].s), Some(data)))
      else Returned(ApiError(status, None, Some(data)))
    case JObject(obj) =>
      if "detail" in obj then
        Returned(ApiError(status, if obj["detail"].JString? then Some(obj["detail"].s) else None, Some(data)))
      else
        Returned(ApiError(status, None, Some(data)))
    case _ => Returned(ApiError(status, None, Some(data)))
  }

  /** True when the response declares a JSON body. */
  predicate DeclaresJson(res: Response) {
    res.contentType.Some? && Contains(res.contentType.value, JSON_MEDIA_TYPE)
  }

  /**
   * `From<Response> for Error`: without a JSON Content-Type the status is
   * unhandled; with one, the body is read (aborting when it is not JSON) and
   * classified by shape. The status is carried unchanged in every case.
   */
  function FromResponse(res: Response): (r: Outcome<Error>)
    ensures !DeclaresJson(res) ==> r == Returned(UnhandledStatus(res.status))
    ensures r.Panicked? <==> DeclaresJson(res) && (res.body.None? || AbortsOn(res.body.value))
    ensures r.Returned? ==> (r.value.ApiError? || r.value.UnhandledStatus?) && r.value.status == res.status
    ensures r.Returned? && r.value.ApiError? ==> DeclaresJson(res) && r.value.json == res.body
    ensures r.Returned? && r.value.ApiError? ==> r.value.description == BodyDescription(res.body.value)
    ensures DeclaresJson(res) && res.body.Some? ==> r == ClassifyJson(res.status, res.body.value)
  {
    match res.contentType
    case None => Returned(UnhandledStatus(res.status))
    case Some(val) =>
      if Contains(val, JSON_MEDIA_TYPE) then
        match res.body
        case None => Panicked("into_json().unwrap() on a body that is not JSON")
        case Some(data) => ClassifyJson(res.status, data)
      else
        Returned(UnhandledStatus(res.status))
  }

  /**
   * A header value that converts to text: every character is a tab or
   * visible ASCII, the test the HTTP header type applies before handing out
   * a `&str`.
   */
  predicate VisibleAscii(s: string) {
    forall i :: 0 <= i < |s| ==> s[i] == '\t' || ' ' <= s[i] <= '~'
  }

  /**
   * `From<Response> for Error` of the older client: the Content-Type value
   * is converted to text with an `unwrap` first, which aborts on a value that
   * is not visible ASCII; past that it classifies exactly as the newer one.
   */
  function LegacyFromResponse(res: Response): (r: Outcome<Error>)
    ensures res.contentType.Some? && !VisibleAscii(res.contentType.value) ==> r.Panicked?
    ensures res.contentType.None? || VisibleAscii(res.contentType.value) ==> r == FromResponse(res)
    ensures r.Returned? ==> r == FromResponse(res)
  {
    if res.contentType.Some? && !VisibleAscii(res.contentType.value) then
      Panicked("to_str().unwrap() on a Content-Type that is not visible ASCII")
    else
      FromResponse(res)
  }

  /**
   * A Content-Type with a non-ASCII letter aborts the older conversion,
   * while the newer one reports the status as unhandled.
   */
  lemma NonAsciiContentType(status: U16, body: Option<Json>)
    ensures LegacyFromResponse(Response(status, Some("text/\U{e9}"), body)).Panicked?
    ensures FromResponse(Response(status, Some("text/\U{e9}"), body)) == Returned(UnhandledStatus(status))
  {
    var val := "text/\U{e9}";
    assert !(' ' <= val[5] <= '~');
    ShorterNeverContains(val, JSON_MEDIA_TYPE);
  }

  /** `From<ureq::Error> for Error`: a failure without a response is `Generic` with the failure's text. */
  function FromUreq(e: UreqError): (r: Outcome<Error>)
    ensures e.Transport? ==> r == Returned(Generic(e.desc))
    ensures e.Status? ==> r == FromResponse(e.response)
    ensures r.Returned? && r.value.Generic? <==> e.Transport?
  {
    match e
    case Transport(desc) => Returned(Generic(desc))
    case Status(_, res) => FromResponse(res)
  }

  /** `Display for Error`. */
  function Render(e: Error): (s: string)
    ensures e.ApiError? && e.description.Some? ==> s == e.description.value
    ensures e.Generic? ==> s == e.message
  {
    match e
    case ApiError(status, description, _) =>
      if description.Some? then description.value else "Unexpected response status " + NatToString(status)
    case UnexpectedPayload => "Unexpected account info response"
    case UnhandledStatus(status) => "Unexpected response status " + NatToString(status)
    case Generic(message) => message
  }

  /** An API error without a description reads exactly like an unhandled status. */
  lemma RenderFallback(status: U16, json: Option<Json>)
    ensures Render(ApiError(status, None, json)) == Render(UnhandledStatus(status))
    ensures Render(UnhandledStatus(status)) == "Unexpected response status " + NatToString(status)
  {
  }

  /**
   * What a user reads for any classified response: the server's own
   * description when the body carried one, otherwise the status line.
   */
  lemma MessageOfResponse(res: Response)
    requires FromResponse(res).Returned?
    ensures var e := FromResponse(res).value;
      Render(e) ==
        if DeclaresJson(res) && BodyDescription(res.body.value).Some? then BodyDescription(res.body.value).value
        else "Unexpected response status " + NatToString(res.status)
  {
  }

  /** A content type shorter than the JSON media type cannot contain it. */
  lemma {:induction false} ShorterNeverContains(s: string, part: string)
    requires |s| < |part|
    ensures !Contains(s, part)
    decreases |s|
  {
    if |s| > 0 {
      ShorterNeverContains(s[1..], part);
    }
  }

  /** A JSON content type with parameters is still JSON; a plain-text one is not. */
  lemma MediaTypes()
    ensures Contains("application/json; charset=utf-8", JSON_MEDIA_TYPE)
    ensures !Contains("text/html", JSON_MEDIA_TYPE)
  {
    assert StartsWith("application/json; charset=utf-8", JSON_MEDIA_TYPE) by {
      assert "application/json; charset=utf-8"[..|JSON_MEDIA_TYPE|] == JSON_MEDIA_TYPE;
    }
    ShorterNeverContains("text/html", JSON_MEDIA_TYPE);
  }

  /** The unit tests: 400 with `["Oops!"]` and 404 with `{"detail": "Not found"}`. */
  lemma ErrorBodies()
    ensures var body := JArray([JString("Oops!")]);
      FromUreq(Status("400", Response(400, Some(JSON_MEDIA_TYPE), Some(body)))) == Returned(ApiError(400, Some("Oops!"), Some(body)))
    ensures var body := JObject(map["detail" := JString("Not found")]);
      FromUreq(Status("404", Response(404, Some(JSON_MEDIA_TYPE), Some(body)))) == Returned(ApiError(404, Some("Not found"), Some(body)))
  {
    assert StartsWith(JSON_MEDIA_TYPE, JSON_MEDIA_TYPE);
  }
}
