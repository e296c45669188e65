/**
 * The JSON envelope of every backend answer (services/backend/app/response.py): `success`
 * wraps `{code, message, data}` and `error` wraps `{code, message, errors}`, each sent with
 * the code as HTTP status and a JSON content type.
 */
module Response {
  import opened Wrappers
  import opened OrderedDict

  /** A JSON value; objects keep their keys in insertion order, as `json.dumps` writes them. */
  datatype Json =
    | JNull
    | JBool(b: bool)
    | JInt(i: int)
    | JReal(r: real)
    | JStr(s: string)
    | JArray(items: seq<Json>)
    | JObject(fields: seq<(string, Json)>)

  /** What `make_response(body, status, headers)` holds; the body before serialisation. */
  datatype HttpResponse = HttpResponse(body: Json, status: int, headers: seq<(string, string)>)

  function MessageJson(message: Option<string>): Json
  {
    match message
    case None => JNull
    case Some(m) => JStr(m)
  }

  /** `success(status_code=200, message=None, data=None)`. */
  function Success(statusCode: int := 200, message: Option<string> := None, data: Json := JNull): (r: HttpResponse)
    ensures r.body.JObject? && Keys(r.body.fields) == ["code", "message", "data"]
  {
    HttpResponse(
      JObject([("code", JInt(statusCode)), ("message", MessageJson(message)), ("data", data)]),
      statusCode,
      [("Content-Type", "application/json")])
  }

  /** `error(status_code=500, message=None, errors=[])`. */
  function Error(statusCode: int := 500, message: Option<string> := None, errors: Json := JArray([])): (r: HttpResponse)
    ensures r.body.JObject? && Keys(r.body.fields) == ["code", "message", "errors"]
  {
    HttpResponse(
      JObject([("code", JInt(statusCode)), ("message", MessageJson(message)), ("errors", errors)]),
      statusCode,
      [("Content-Type", "application/json")])
  }

  /** The value a client reads under `key`, if the object has that key. */
  function Field(body: Json, key: string): (v: Option<Json>)
    ensures v.Some? ==> body.JObject? && key in Keys(body.fields)
  {
    if body.JObject? && key in Keys(body.fields) then Some(Get(body.fields, key)) else None
  }

  /** The value of a response header, if it is set. */
  function Header(r: HttpResponse, name: string): Option<string>
  {
    if name in Keys(r.headers) then Some(Get(r.headers, name)) else None
  }

  /** What a client reads back from a success envelope: the code equals the HTTP status,
      the message and the data are the ones given, and no `errors` key is present. */
  lemma SuccessReadBack(statusCode: int, message: Option<string>, data: Json)
    ensures var r := Success(statusCode, message, data);
      && Field(r.body, "code") == Some(JInt(r.status)) && r.status == statusCode
      && Field(r.body, "message") == Some(MessageJson(message))
      && Field(r.body, "data") == Some(data)
      && Field(r.body, "errors") == None
      && Header(r, "Content-Type") == Some("application/json")
  {
    var r := Success(statusCode, message, data);
    assert Keys(r.headers) == ["Content-Type"];
  }

  /** What a client reads back from an error envelope. */
  lemma ErrorReadBack(statusCode: int, message: Option<string>, errors: Json)
    ensures var r := Error(statusCode, message, errors);
      && Field(r.body, "code") == Some(JInt(r.status)) && r.status == statusCode
      && Field(r.body, "message") == Some(MessageJson(message))
      && Field(r.body, "errors") == Some(errors)
      && Field(r.body, "data") == None
      && Header(r, "Content-Type") == Some("application/json")
  {
    var r := Error(statusCode, message, errors);
    assert Keys(r.headers) == ["Content-Type"];
  }

  /** The defaults: `success()` answers 200 and `error()` answers 500 with an empty error list. */
  lemma Defaults()
    ensures Success().status == 200 && Field(Success().body, "data") == Some(JNull)
    ensures Error().status == 500 && Field(Error().body, "errors") == Some(JArray([]))
    ensures Field(Success().body, "message") == Some(JNull) && Field(Error().body, "message") == Some(JNull)
  {
    SuccessReadBack(200, None, JNull);
    ErrorReadBack(500, None, JArray([]));
  }
}
