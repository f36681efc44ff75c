/** The requests the service sends (llmService.ts, `sendMessage` lines 17-42
    and `testConnection` lines 103-115) and the credential preview it logs
    (lines 28-31). */
module RequestBuilder {
  import opened LlmTypes

  const CompletionsPath := "/chat/completions"
  const JsonContentType := "application/json"
  /** How many leading characters of the API key the diagnostics show. */
  const KeyPreviewLength := 10

  /** The connection fields `testConnection` receives. */
  datatype ProbeTarget = ProbeTarget(baseUrl: string, apiKey: string, model: string)

  function CompletionsUrl(baseUrl: string): string
  {
    baseUrl + CompletionsPath
  }

  /** The headers of every request: a JSON body and a bearer credential. */
  function RequestHeaders(apiKey: string): seq<Header>
  {
    [Header("Content-Type", JsonContentType), Header("Authorization", "Bearer " + apiKey)]
  }

  /** The streaming payload built from the active profile: the caller's
      messages go out as they are (no system message is added) and streaming
      is always requested. */
  function CompletionPayload(profile: Profile, messages: seq<ChatMessage>): (r: ChatPayload)
    ensures r.messages == messages
    ensures r.stream == Some(true)
    ensures r.model == profile.model && r.maxTokens == profile.maxTokens
    ensures r.temperature == Some(profile.temperature)
  {
    ChatPayload(profile.model, messages, Some(profile.temperature), profile.maxTokens, Some(true))
  }

  /** The POST that `sendMessage` hands to `fetch`. */
  function CompletionRequest(profile: Profile, messages: seq<ChatMessage>): (r: Request)
    ensures r.httpMethod == "POST"
    ensures r.url == profile.baseUrl + "/chat/completions"
    ensures r.headers == [Header("Content-Type", "application/json"),
                          Header("Authorization", "Bearer " + profile.apiKey)]
    ensures r.body == CompletionPayload(profile, messages)
  {
    Request("POST", CompletionsUrl(profile.baseUrl), RequestHeaders(profile.apiKey),
            CompletionPayload(profile, messages))
  }

  /** The credential never travels in the body: two profiles that agree on
      model, temperature and token limit produce the same payload, whatever
      their id, base URL or API key. */
  lemma PayloadIgnoresConnectionFields(p: Profile, q: Profile, messages: seq<ChatMessage>)
    requires p.model == q.model && p.temperature == q.temperature && p.maxTokens == q.maxTokens
    ensures CompletionPayload(p, messages) == CompletionPayload(q, messages)
  {
  }

  /** `apiKey.substring(0, 10)`: the first ten characters, or the whole key
      when it is shorter. */
  function KeyPreview(apiKey: string): (r: string)
    ensures r <= apiKey
    ensures |r| == if |apiKey| < KeyPreviewLength then |apiKey| else KeyPreviewLength
  {
    if |apiKey| <= KeyPreviewLength then apiKey else apiKey[..KeyPreviewLength]
  }

  /** The headers as the diagnostics print them. */
  function LoggedHeaders(apiKey: string): (r: seq<Header>)
    ensures |r| == 2 && r[0] == Header("Content-Type", JsonContentType)
    ensures r[1].name == "Authorization" && "Bearer " <= r[1].value
    ensures |r[1].value| <= |"Bearer "| + KeyPreviewLength + |"..."|
    ensures r[1].value == "Bearer " + KeyPreview(apiKey) + "..."
  {
    [Header("Content-Type", JsonContentType),
     Header("Authorization", "Bearer " + KeyPreview(apiKey) + "...")]
  }

  /** The log reveals nothing of a key beyond its first ten characters: keys
      that share them are logged identically. */
  lemma LoggedHeadersRevealOnlyKeyPrefix(k1: string, k2: string)
    requires |k1| >= KeyPreviewLength && |k2| >= KeyPreviewLength
    requires k1[..KeyPreviewLength] == k2[..KeyPreviewLength]
    ensures LoggedHeaders(k1) == LoggedHeaders(k2)
  {
    assert KeyPreview(k1) == k1[..KeyPreviewLength];
    assert KeyPreview(k2) == k2[..KeyPreviewLength];
  }

  /** The single message `testConnection` sends. */
  const ProbeMessage := ChatMessage(User, "Hi")
  const ProbeMaxTokens := 5

  /** The POST that `testConnection` hands to `fetch`: the completion endpoint
      and headers, a one-message payload capped at five tokens, with neither
      temperature nor a stream flag. */
  function ProbeRequest(target: ProbeTarget): (r: Request)
    ensures r.body.messages == [ChatMessage(User, "Hi")]
    ensures r.body.maxTokens == 5
    ensures r.body.temperature.None? && r.body.stream.None?
  {
    Request("POST", CompletionsUrl(target.baseUrl), RequestHeaders(target.apiKey),
            ChatPayload(target.model, [ProbeMessage], None, ProbeMaxTokens, None))
  }

  /** The probe reaches the same endpoint, with the same headers and model, as
      a completion for the profile it was taken from. */
  lemma ProbeMatchesCompletionEndpoint(profile: Profile, messages: seq<ChatMessage>)
    ensures var probe := ProbeRequest(ProbeTarget(profile.baseUrl, profile.apiKey, profile.model));
            var send := CompletionRequest(profile, messages);
            probe.httpMethod == send.httpMethod && probe.url == send.url
            && probe.headers == send.headers && probe.body.model == send.body.model
  {
  }
}
