/** The two exported operations of llmService.ts: `sendMessage`, which
    streams a chat completion from the active profile's endpoint, and
    `testConnection`, which checks that an endpoint accepts a request.
    `fetch` is the parameter `server`, `JSON.parse` the parameters
    `parseError` and `parseEvent`; the arguments `onChunk` receives are the
    out-parameter `delivered`. */
module LlmService {
  import opened LlmTypes
  import opened JsText
  import opened Profiles
  import opened RequestBuilder
  import opened HttpErrors
  import opened EventStream

  /** `sendMessage` (lines 9-99). `issued` is the request handed to `fetch`,
      if any; `result` is the returned text or what the call throws. */
  method SendMessage(settings: Settings, messages: seq<ChatMessage>,
                     server: Request -> FetchOutcome,
                     parseError: string -> ErrorParse, parseEvent: string -> EventParse)
    returns (issued: Option<Request>, delivered: seq<string>, result: Result<string, Thrown>)
    // no matching profile: fail before any request is made
    ensures ResolveActive(settings).Err? ==>
              issued == None && delivered == [] && result == Err(Error(NoActiveProfileMessage))
    ensures ResolveActive(settings).Ok? ==>
              issued == Some(CompletionRequest(ResolveActive(settings).value, messages))
    // the returned text is exactly what `onChunk` received, in order; each piece is non-empty
    ensures result.Ok? ==> result.value == Concat(delivered)
    ensures forall k :: 0 <= k < |delivered| ==> delivered[k] != ""
    // what each kind of response leads to
    ensures issued.Some? ==>
              match server(issued.value)
              case NetworkFailure(reason) =>
                delivered == [] && result == Err(Rejected(reason))
              case Received(response) =>
                if !response.IsOk() then
                  delivered == [] && result == Err(NonOkFailure(response, parseError))
                else if response.body.None? then
                  delivered == [] && result == Err(Error(NullBodyMessage))
                else
                  && delivered == StreamDeltas(response.body.value.chunks, parseEvent)
                  && (response.body.value.end.Done? <==> result.Ok?)
                  && (response.body.value.end.ReadFailed? ==>
                        result == Err(Rejected(response.body.value.end.reason)))
  {
    var active := ResolveActive(settings);
    if active.Err? {
      return None, [], Err(active.error);
    }
    var request := CompletionRequest(active.value, messages);
    issued := Some(request);
    match server(request) {
      case NetworkFailure(reason) =>
        delivered, result := [], Err(Rejected(reason));
      case Received(response) =>
        if !response.IsOk() {
          delivered, result := [], Err(NonOkFailure(response, parseError));
        } else if response.body.None? {
          delivered, result := [], Err(Error(NullBodyMessage));
        } else {
          delivered, result := ReadEventStream(response.body.value, parseEvent);
          LineDeltasNonEmpty(StreamLines(response.body.value.chunks), parseEvent);
        }
    }
  }

  /** `testConnection` (lines 101-128): true for an OK response; otherwise it
      throws the status line, unless reading the error body or `fetch`
      itself rejects, in which case that rejection is thrown. It never
      returns false. */
  function TestConnection(target: ProbeTarget, server: Request -> FetchOutcome): (r: Result<bool, Thrown>)
    ensures r.Ok? ==> r.value
    ensures r.Ok? <==> server(ProbeRequest(target)).Received? && server(ProbeRequest(target)).response.IsOk()
    ensures server(ProbeRequest(target)).NetworkFailure? ==>
              r == Err(Rejected(server(ProbeRequest(target)).reason))
    ensures var outcome := server(ProbeRequest(target));
            outcome.Received? && !outcome.response.IsOk() && BodyText(outcome.response.body).Ok? ==>
              r == Err(Error(HttpStatusMessage(outcome.response.status)))
    ensures var outcome := server(ProbeRequest(target));
            outcome.Received? && !outcome.response.IsOk() && BodyText(outcome.response.body).Err? ==>
              r == Err(BodyText(outcome.response.body).error)
  {
    match server(ProbeRequest(target))
    case NetworkFailure(reason) => Err(Rejected(reason))
    case Received(response) =>
      if response.IsOk() then Ok(true)
      else
        match BodyText(response.body)
        case Err(e) => Err(e)
        case Ok(_) => Err(Error(HttpStatusMessage(response.status)))
  }
}
