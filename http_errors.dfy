/** What the service throws for a response it cannot stream
    (llmService.ts lines 46-62 and 117-121). */
module HttpErrors {
  import opened LlmTypes
  import opened JsText

  const HttpStatusPrefix := "HTTP error! status: "
  const NullBodyMessage := "Response body is null"

  /** JavaScript's `a || b` on two strings: `a` unless it is empty. */
  function OrElse(a: string, b: string): string
  {
    if a != "" then a else b
  }

  /** `HTTP error! status: ${status}`: the fixed prefix followed by the decimal
      status, from which the status can be read back. */
  function HttpStatusMessage(status: nat): (r: string)
    ensures |r| > |HttpStatusPrefix| && r[..|HttpStatusPrefix|] == HttpStatusPrefix
    ensures forall k :: |HttpStatusPrefix| <= k < |r| ==> IsDigit(r[k])
    ensures r[|HttpStatusPrefix|..] == DecimalString(status)
    ensures DecimalValue(r[|HttpStatusPrefix|..]) == status
  {
    var digits := DecimalString(status);
    DecimalRoundTrip(status);
    var r := HttpStatusPrefix + digits;
    assert r[|HttpStatusPrefix|..] == digits;
    r
  }

  /** `response.text()`: every chunk of the body in order, "" for a null
      body; it rejects as the body read does. */
  function BodyText(body: Option<Body>): (r: Result<string, Thrown>)
    ensures body.None? ==> r == Ok("")
    ensures r.Err? <==> body.Some? && body.value.end.ReadFailed?
    ensures r.Err? ==> r.error == Rejected(body.value.end.reason)
    ensures r.Ok? && body.Some? ==> r.value == Concat(body.value.chunks)
  {
    match body
    case None => Ok("")
    case Some(Body(chunks, Done)) => Ok(Concat(chunks))
    case Some(Body(_, ReadFailed(reason))) => Err(Rejected(reason))
  }

  /** The `error` variable of lines 50-55: the parsed body, or, when the body
      is not JSON, an envelope whose message is the body text or else the
      status text. */
  function ErrorEnvelope(parsed: ErrorParse, errorText: string, statusText: string): (r: ErrorParse)
    ensures !r.NotJson?
    ensures !parsed.NotJson? ==> r == parsed
    ensures parsed.NotJson? ==> r == Json(Some(if errorText != "" then errorText else statusText))
  {
    if parsed.NotJson? then Json(Some(OrElse(errorText, statusText))) else parsed
  }

  /** What a non-OK response with body text `errorText` throws: the JSON error
      message when there is a non-empty one; for a body that is not JSON, the
      body text, else the status text; otherwise the synthetic status message.
      A body that is the JSON literal `null` makes the property read throw. */
  function ErrorBodyFailure(parsed: ErrorParse, errorText: string, statusText: string, status: nat): (r: Thrown)
    ensures r.Error? ==> r.message != ""
    ensures r == NullPropertyAccess <==> parsed == JsonNull
    ensures parsed.Json? && parsed.message.Some? && parsed.message.value != "" ==>
              r == Error(parsed.message.value)
    ensures parsed.Json? && (parsed.message.None? || parsed.message.value == "") ==>
              r == Error(HttpStatusMessage(status))
    ensures parsed.NotJson? && errorText != "" ==> r == Error(errorText)
    ensures parsed.NotJson? && errorText == "" && statusText != "" ==> r == Error(statusText)
    ensures parsed.NotJson? && errorText == "" && statusText == "" ==>
              r == Error(HttpStatusMessage(status))
  {
    match ErrorEnvelope(parsed, errorText, statusText)
    case JsonNull => NullPropertyAccess
    case Json(message) =>
      var found := if message.Some? then message.value else "";
      Error(OrElse(found, HttpStatusMessage(status)))
  }

  /** What `sendMessage` throws for a non-OK response: a failed body read
      passes through, otherwise the message chosen from the body text. */
  function NonOkFailure(response: Response, parseError: string -> ErrorParse): (r: Thrown)
    ensures BodyText(response.body).Err? ==> r == BodyText(response.body).error
    ensures r.Error? ==> r.message != ""
    ensures r == NullPropertyAccess <==>
              BodyText(response.body).Ok? && parseError(BodyText(response.body).value) == JsonNull
  {
    match BodyText(response.body)
    case Err(e) => e
    case Ok(text) => ErrorBodyFailure(parseError(text), text, response.statusText, response.status)
  }

  /** Whatever the body holds, a failure for a non-OK response whose body can
      be read names it: its message is the JSON error message, the body text,
      the status text or the status line. */
  lemma NonOkMessageSources(response: Response, parseError: string -> ErrorParse)
    requires BodyText(response.body).Ok?
    ensures var text := BodyText(response.body).value;
            var r := NonOkFailure(response, parseError);
            r.Error? ==> (|| r.message == text
                          || r.message == response.statusText
                          || r.message == HttpStatusMessage(response.status)
                          || parseError(text) == Json(Some(r.message)))
  {
  }
}
