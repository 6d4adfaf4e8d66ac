/** What both hook handlers share: the response record they return, the
    fields they read from the invocation event before their `try` block,
    and the abstract result of fetching the template payload. */
module Hook {
  import opened PyJson

  datatype HookStatus = Success | Failed

  datatype ErrorCode = NonCompliant | InternalFailure

  /** The response dict: `hookStatus`, `message`, `clientRequestToken`
      and, only once a handler has set it, `errorCode`. */
  datatype HookResponse = HookResponse(
    hookStatus: HookStatus,
    message: string,
    clientRequestToken: Json,
    errorCode: Option<ErrorCode>)

  /** A handler either returns its response, or an exception escapes it:
      the reads of the event happen before the `try` block. */
  datatype HandlerResult = Returned(response: HookResponse) | Uncaught

  /** The HTTP GET of the payload URL followed by UTF-8 and JSON decoding:
      either a decoded document, or a failure at any of those steps
      (network error, bytes that are not UTF-8, text that is not JSON). */
  datatype Payload = FetchFailed | Decoded(doc: Json)

  const CompliantMessage := "Stack update is compliant"
  const InternalFailureMessage := "Failed to evaluate stack operation."

  /** `event.get("requestData", {}).get(...)` and
      `event.get("clientRequestToken")` do not raise: the event is a `dict`
      and so is its `requestData` member when there is one. */
  predicate EventReadable(event: Json)
    ensures EventReadable(event) <==>
      && PyGet(event, "requestData", JObject([])).Ok?
      && PyGet(PyGet(event, "requestData", JObject([])).value, "payload", JNull).Ok?
      && PyGet(event, "clientRequestToken", JNull).Ok?
  {
    && event.JObject?
    && match Lookup(event.fields, "requestData")
       case None => true
       case Some(requestData) => requestData.JObject?
  }

  /** `event.get("clientRequestToken")`; `None` is JSON `null`. */
  function RequestToken(event: Json): (token: Json)
    ensures EventReadable(event) ==> PyGet(event, "clientRequestToken", JNull) == Ok(token)
    ensures event.JObject? && !HasKey(event.fields, "clientRequestToken") ==> token == JNull
  {
    if event.JObject? then Lookup(event.fields, "clientRequestToken").GetOr(JNull) else JNull
  }

  /** `event.get("requestData", {}).get("payload")`: the template URL. */
  function PayloadUrl(event: Json): (url: Json)
    ensures EventReadable(event) ==>
      PyGet(PyGet(event, "requestData", JObject([])).value, "payload", JNull) == Ok(url)
    ensures event.JObject? && !HasKey(event.fields, "requestData") ==> url == JNull
  {
    if event.JObject? then
      match Lookup(event.fields, "requestData")
      case Some(JObject(requestData)) => Lookup(requestData, "payload").GetOr(JNull)
      case _ => JNull
    else JNull
  }

  /** The response every handler starts from. */
  function InitialResponse(token: Json): (response: HookResponse)
    ensures response.hookStatus == Success && response.errorCode.None?
    ensures response.message == CompliantMessage && response.clientRequestToken == token
  {
    HookResponse(Success, CompliantMessage, token, None)
  }

  /** The response after the `except Exception` block has run. */
  function InternalFailureResponse(token: Json): (response: HookResponse)
    ensures response.hookStatus == Failed && response.errorCode == Some(InternalFailure)
    ensures response.message == InternalFailureMessage && response.clientRequestToken == token
  {
    HookResponse(Failed, InternalFailureMessage, token, Some(InternalFailure))
  }

  /** The response after a rule reported a violation with `message`. */
  function NonCompliantResponse(token: Json, message: string): (response: HookResponse)
    ensures response.hookStatus == Failed && response.errorCode == Some(NonCompliant)
    ensures response.message == message && response.clientRequestToken == token
  {
    HookResponse(Failed, message, token, Some(NonCompliant))
  }
}
