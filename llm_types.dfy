/** The values the LLM service works with: chat messages, connection profiles,
    the settings that select one of them, the request it sends, the response it
    receives and what it throws. Network I/O and `JSON.parse` are not part of
    the model; their results enter as data or as function parameters. */
module LlmTypes {

  datatype Option<T> = None | Some(value: T)

  /** A value, or what a call throws (an `async` function's rejection). */
  datatype Result<T, E> = Ok(value: T) | Err(error: E)

  /** What the service can throw. */
  datatype Thrown =
    /** `new Error(message)`. */
    | Error(message: string)
    /** The `TypeError` JavaScript raises when reading a property of `null`. */
    | NullPropertyAccess
    /** A rejection of `fetch` or of a body read, passed through unchanged. */
    | Rejected(reason: string)

  datatype Role = User | Assistant | System

  datatype ChatMessage = ChatMessage(role: Role, content: string)

  /** A set of connection and model parameters, identified by `id`. `temperature` is a
      JavaScript number, modelled as a real. */
  datatype Profile = Profile(
    id: string,
    baseUrl: string,
    apiKey: string,
    model: string,
    temperature: real,
    maxTokens: int)

  /** The part of the application settings the service reads. */
  datatype Settings = Settings(activeProfileId: string, llmProfiles: seq<Profile>)

  /** The JSON body of a chat-completion request. A field that is `None` is
      absent from the serialised object. */
  datatype ChatPayload = ChatPayload(
    model: string,
    messages: seq<ChatMessage>,
    temperature: Option<real>,
    maxTokens: int,
    stream: Option<bool>)

  datatype Header = Header(name: string, value: string)

  /** An HTTP request as handed to `fetch`. */
  datatype Request = Request(httpMethod: string, url: string, headers: seq<Header>, body: ChatPayload)

  /** How a sequence of body reads ends: `{ done: true }`, or a read that rejects. */
  datatype ReadEnd = Done | ReadFailed(reason: string)

  /** A response body as the sequence of its chunks (one per read), each already decoded to text. */
  datatype Body = Body(chunks: seq<string>, end: ReadEnd)

  /** An HTTP response; `body` is `None` for a null body. */
  datatype Response = Response(status: nat, statusText: string, body: Option<Body>)
  {
    /** `response.ok`: the status is in the range 200 to 299. */
    predicate IsOk()
    {
      200 <= status <= 299
    }
  }

  /** The settled `fetch` promise. */
  datatype FetchOutcome = NetworkFailure(reason: string) | Received(response: Response)

  /** `JSON.parse(data)` of one stream event followed by
      `parsed.choices[0]?.delta?.content`: `Malformed` when either throws
      (bad JSON, a `null` payload, no `choices`); otherwise the content, `None`
      when it is absent. A present content is given as the string that
      `+=` appends. */
  datatype EventParse = Malformed | Parsed(content: Option<string>)

  /** `JSON.parse(errorText)` followed by `error.error?.message`: `NotJson` when
      the parse throws, `JsonNull` when the text is `null` (reading `.error`
      then throws), otherwise the message, `None` when it is absent. */
  datatype ErrorParse = NotJson | JsonNull | Json(message: Option<string>)
}
