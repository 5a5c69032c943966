/** The client's HTTP wrapper (client/src/services/api.js): how a response
    becomes the parsed body or an error message, and which headers a POST
    request carries. The fetch itself is left to the caller; a response is
    given as its status and its body parsed as JSON. */
module Api {
  import opened Js
  import AuthController

  const BaseUrl: string := "http://localhost:5000"

  /** How `handleResponse` settles: with the parsed body, with an `Error` of
      the given message, or with the SyntaxError `res.json()` raises when the
      body is not JSON (that happens before the status is looked at). */
  datatype Settled = Resolved(data: Value) | Rejected(message: string) | NotJson

  /** `res.ok`. */
  predicate IsOk(status: int)
  {
    200 <= status <= 299
  }

  /** The statuses that get a fixed message, whatever the body says. */
  function FixedMessage(status: int): (m: Option<string>)
    ensures m.Some? ==> !IsOk(status) && m.value != ""
    ensures m.Some? <==> status in {429, 401, 403, 404, 500}
  {
    if status == 429 then Some("Too many requests. Please wait a moment before trying again.")
    else if status == 401 then Some("Authentication failed. Please check your credentials.")
    else if status == 403 then Some("Access denied. You do not have permission for this action.")
    else if status == 404 then Some("Resource not found.")
    else if status == 500 then Some("Server error. Please try again later.")
    else None
  }

  /** `data.message || \`HTTP error! status: ${status}\``. */
  function FallbackMessage(data: Value, status: int): string
  {
    var m := Prop(data, "message");
    if Truthy(m) then ToStr(m) else "HTTP error! status: " + IntToString(status)
  }

  /** `handleResponse(res)`: a body that is not JSON fails before the status
      is read; only a 2xx status resolves, and then with the body itself. */
  function HandleResponse(status: int, body: Option<Value>): (s: Settled)
    ensures s.NotJson? <==> body.None?
    ensures s.Resolved? <==> body.Some? && IsOk(status)
    ensures s.Resolved? ==> s.data == body.value
  {
    if body.None? then NotJson
    else if FixedMessage(status).Some? then Rejected(FixedMessage(status).value)
    else if !IsOk(status) then Rejected(FallbackMessage(body.value, status))
    else Resolved(body.value)
  }

  /** A response resolves exactly when its body is JSON and its status is
      2xx, and then with that body unchanged. */
  lemma ResolvesOnSuccess(status: int, body: Option<Value>)
    ensures HandleResponse(status, body).Resolved? <==> body.Some? && IsOk(status)
    ensures HandleResponse(status, body).Resolved? ==> HandleResponse(status, body).data == body.value
    ensures HandleResponse(status, body).NotJson? <==> body.None?
  {
  }

  /** For 429, 401, 403, 404 and 500 the server's own message is replaced by a
      fixed one; any other failure shows the server's message when it has a
      truthy one and the status code otherwise. */
  lemma {:induction false} RejectionMessage(status: int, data: Value)
    requires !IsOk(status)
    ensures status in {429, 401, 403, 404, 500} ==>
              HandleResponse(status, Some(data)) == Rejected(FixedMessage(status).value)
    ensures status !in {429, 401, 403, 404, 500} && Prop(data, "message").Str? && Prop(data, "message").s != "" ==>
              HandleResponse(status, Some(data)) == Rejected(Prop(data, "message").s)
    ensures status !in {429, 401, 403, 404, 500} && !Truthy(Prop(data, "message")) ==>
              HandleResponse(status, Some(data)) == Rejected("HTTP error! status: " + IntToString(status))
  {
    if status !in {429, 401, 403, 404, 500} {
      assert FixedMessage(status).None?;
    }
  }

  /** A rejection always carries some text, unless the server's message is a
      truthy value whose text is empty (such as an empty array). */
  lemma RejectionNeverEmpty(status: int, data: Value)
    requires !Prop(data, "message").Arr?
    ensures HandleResponse(status, Some(data)).Rejected? ==> HandleResponse(status, Some(data)).message != ""
  {
  }

  /** The value a request thunk hands to its reducer when it fails:
      `err.message || fallback`. */
  function RejectValue(message: string, fallback: string): (v: Value)
    ensures v == Str(if message != "" then message else fallback)
  {
    if message != "" then Str(message) else Str(fallback)
  }

  /** The body of every failure reply of the controllers. */
  function ErrorBody(message: string): Value
  {
    Obj([("success", Bool(false)), ("message", Str(message))])
  }

  /** Every login refusal arrives as 401, so the client shows neither
      "Account is deactivated" nor "Invalid email or password", only the fixed
      authentication message. */
  lemma LoginRefusalHidden(v: AuthController.LoginVerdict)
    requires v != AuthController.Granted
    ensures HandleResponse(401, Some(ErrorBody(AuthController.LoginRefusal(v))))
            == Rejected("Authentication failed. Please check your credentials.")
  {
  }

  /** A registration conflict arrives as 400 and is shown word for word. */
  lemma ConflictShown(existing: AuthController.Account, key: string)
    ensures HandleResponse(400, Some(ErrorBody(AuthController.ConflictMessage(existing, key))))
            == Rejected(AuthController.ConflictMessage(existing, key))
  {
    var m := AuthController.ConflictMessage(existing, key);
    assert Prop(ErrorBody(m), "message") == Str(m);
  }

  // ---------------------------------------------------------------------------
  // Request headers

  type Headers = map<string, string>

  /** A request body: a multipart form, or a value sent as JSON text. */
  datatype Body = FormData | Json(value: Value)

  /** `\`Bearer ${getToken()}\``: with no stored token the header reads
      "Bearer null". */
  function Bearer(token: Option<string>): (h: string)
    ensures token.None? ==> h == "Bearer null"
  {
    "Bearer " + (if token.Some? then token.value else "null")
  }

  /** The headers of `api.get` and `api.delete`. */
  function GetHeaders(token: Option<string>): (h: Headers)
    ensures h.Keys == {"Authorization"} && h["Authorization"] == Bearer(token)
  {
    map["Authorization" := Bearer(token)]
  }

  /** The headers of `api.post(url, body, options)`: the caller's headers
      (`options.headers || {}`), under a JSON content type unless the body is
      a form, and with the stored token unless the caller gave a non-empty
      Authorization. */
  function PostHeaders(callerHeaders: Option<Headers>, body: Body, token: Option<string>): (h: Headers)
    ensures "Authorization" in h && h["Authorization"] != ""
    ensures callerHeaders.Some? ==> callerHeaders.value.Keys <= h.Keys
  {
    var given := if callerHeaders.Some? then callerHeaders.value else map[];
    var headers := if body.FormData? then given else map["Content-Type" := "application/json"] + given;
    if "Authorization" in headers && headers["Authorization"] != "" then headers
    else headers["Authorization" := Bearer(token)]
  }

  /** What a POST sends: the caller's headers win, except an empty
      Authorization, which is replaced by the stored token; a JSON body adds a
      JSON content type unless the caller set one; a form body adds none, so
      the browser can write the multipart boundary; nothing else is added. */
  lemma PostHeadersSpec(callerHeaders: Option<Headers>, body: Body, token: Option<string>)
    ensures var given := if callerHeaders.Some? then callerHeaders.value else map[];
            var h := PostHeaders(callerHeaders, body, token);
            && h.Keys == given.Keys + {"Authorization"} + (if body.Json? then {"Content-Type"} else {})
            && (forall k | k in given && k != "Authorization" :: h[k] == given[k])
            && h["Authorization"] == (if "Authorization" in given && given["Authorization"] != "" then given["Authorization"] else Bearer(token))
            && (body.Json? && "Content-Type" !in given ==> h["Content-Type"] == "application/json")
  {
  }

  /** The file upload posts a form with `{ headers: {} }`: it carries the
      token and no content type. */
  lemma UploadHeaders(token: Option<string>)
    ensures PostHeaders(Some(map[]), FormData, token) == GetHeaders(token)
  {
  }
}
