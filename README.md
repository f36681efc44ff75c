# LLM streaming service — a Dafny model

This project models the chat-completion client of the drawio-live-editor
application, `src/lib/services/llmService.ts`. The file exports two
operations:

- `sendMessage` resolves the active connection profile from the settings and
  builds a streaming chat-completion request from it. It posts the request to
  `<baseUrl>/chat/completions`. A non-OK response becomes an error whose
  message is chosen from the response body; a null body is rejected. An OK
  response is decoded as a server-sent-event stream: the content deltas go
  to the `onChunk` callback in order, and their concatenation is returned.
- `testConnection` posts a five-token probe to the same endpoint. It returns
  `true` for an OK response and throws otherwise.

The stream framing is the `text/event-stream` format of section 9.2 of the
WHATWG HTML Living Standard. The source handles only `data: ` lines and the
`[DONE]` sentinel.

Modules (one file each):

- `LlmTypes` (`llm_types.dfy`) holds the values: messages, profiles,
  settings, payload, request, response, body reads and what is thrown.
- `JsText` (`js_text.dfy`) holds the JavaScript string operations the code
  relies on: `split('\n')`, `trim()`, the `+=` accumulation and the decimal
  rendering of a status code.
- `Profiles` (`profiles.dfy`) is active-profile resolution.
- `RequestBuilder` (`request_builder.dfy`) builds the completion and probe
  requests and the logged credential preview.
- `HttpErrors` (`http_errors.dfy`) chooses what a non-OK response throws.
- `EventStream` (`event_stream.dfy`) is the read/decode loop. It holds a
  line-by-line and read-by-read specification, the loop proved against it as
  two methods, and the properties of that specification.
- `LlmService` (`llm_service.dfy`) holds `SendMessage` and `TestConnection`,
  which compose the modules above.

The environment enters as parameters:

- `fetch` is a function `server` from the request to its outcome: a
  network failure, or a response with a status, a status text and an
  optional body.
- A body is the sequence of its reads, already decoded to text, and how the
  reads end: done, or a rejected read.
- `JSON.parse` is two functions. One maps an event payload to `Malformed` or
  to the optional delta content. The other maps an error body to `NotJson`,
  `JsonNull` or the optional `error.message`.
- The values `onChunk` receives are the out-parameter `delivered`.
- `SendMessage` also reports the request it handed to `fetch`, or none.

The service adds no system message and injects no diagram context. It does
not read `finish_reason` and does not classify a result as truncated or
interrupted. It does not migrate settings. It does not carry a partial line
from one read to the next. The model does none of these either. The
`src/lib/stores/appStore.ts` file declares a flat `llm` settings object. The
service instead reads `llmProfiles` and `activeProfileId`, and the model
follows the service.

## Model

| member | source | states |
|---|---|---|
| Profiles.FindIndex | src/lib/services/llmService.ts:11 | `find` by id: the index found holds the first profile with that id; none means no profile has it |
| Profiles.ResolveActive | src/lib/services/llmService.ts:10-15 | the resolved profile is the first one whose id is the active id; it fails with "No active LLM profile found" exactly when no profile has that id |
| Profiles.ResolveActiveFirst | src/lib/services/llmService.ts:11 | whichever profile comes first with the active id is resolved, whatever follows it |
| RequestBuilder.CompletionPayload | src/lib/services/llmService.ts:17-25 | the payload keeps the caller's messages unchanged (no system message is added); it copies model, temperature and max tokens from the profile; `stream` is always true |
| RequestBuilder.PayloadIgnoresConnectionFields | src/lib/services/llmService.ts:17-25 | the payload depends only on model, temperature and max tokens, never on the key, URL or id |
| RequestBuilder.CompletionRequest | src/lib/services/llmService.ts:35-42 | a POST to `<baseUrl>/chat/completions` with exactly two headers, `Content-Type: application/json` and `Authorization: Bearer <apiKey>`, carrying that payload |
| RequestBuilder.KeyPreview | src/lib/services/llmService.ts:30 | the logged key preview is a prefix of the key, with length min(key length, 10) |
| RequestBuilder.LoggedHeaders | src/lib/services/llmService.ts:28-31 | the logged headers are the JSON content type and the Authorization line `Bearer <key preview>...`, at most 20 characters long, so at most ten characters of the key appear |
| RequestBuilder.LoggedHeadersRevealOnlyKeyPrefix | src/lib/services/llmService.ts:28-31 | two keys that share their first ten characters are logged identically |
| RequestBuilder.ProbeRequest | src/lib/services/llmService.ts:103-115 | the probe sends the single user message "Hi" with a 5-token cap, and no temperature or stream flag |
| RequestBuilder.ProbeMatchesCompletionEndpoint | src/lib/services/llmService.ts:104-109 | the probe uses the same method, URL, headers and model as a completion for the same profile |
| HttpErrors.HttpStatusMessage | src/lib/services/llmService.ts:57 | `HTTP error! status: N` is the fixed prefix followed by the decimal rendering of N (digits only, no leading zero), which reads back as N |
| HttpErrors.BodyText | src/lib/services/llmService.ts:47 | `response.text()`: "" for a null body, the concatenation of the reads when they complete, and the read's rejection when one fails |
| HttpErrors.ErrorEnvelope | src/lib/services/llmService.ts:50-55 | a body that parses passes through unchanged; a body that does not parse becomes an error whose message is the body text, or the status text when the body is empty |
| HttpErrors.ErrorBodyFailure | src/lib/services/llmService.ts:50-57 | a non-empty JSON `error.message` wins; a body that is not JSON gives the body text, else the status text; otherwise the status message; the JSON literal `null` throws a TypeError; with string-valued messages, an `Error` thrown never has an empty message |
| HttpErrors.NonOkFailure | src/lib/services/llmService.ts:46-57 | a failed body read passes its rejection through; a TypeError is thrown exactly when the body is the JSON literal `null`; an `Error` thrown has a non-empty message |
| HttpErrors.NonOkMessageSources | src/lib/services/llmService.ts:46-57 | when the body can be read, the message thrown is the JSON error message, the body text, the status text or the status message |
| EventStream.ClassifyLine | src/lib/services/llmService.ts:76-86 | a line that does not start with `data: ` is ignored; `[DONE]` exactly for `data: [DONE]`; unparseable exactly when the payload is malformed; content only when it is non-empty and is what the payload parses to |
| EventStream.LineDelta | src/lib/services/llmService.ts:76-86 | one line delivers at most one value, exactly when it is a content line, and that value is its non-empty content |
| EventStream.LineDeltas | src/lib/services/llmService.ts:75-91 | the reference definition of the inner loop: the deltas of the lines in order, at most one per line |
| EventStream.NonBlank | src/lib/services/llmService.ts:73 | `filter(line => line.trim() !== '')`; it keeps at most as many lines as it is given |
| EventStream.NonBlankKeepsNonBlank | src/lib/services/llmService.ts:73 | every kept line comes from the input and is non-blank, and every non-blank input line is kept |
| EventStream.ReadLines | src/lib/services/llmService.ts:72-73 | the lines the inner loop visits for one read: the non-blank pieces of `split('\n')`, at most as many as the pieces |
| EventStream.StreamDeltas | src/lib/services/llmService.ts:64-94 | the reference definition of the whole decode: the deltas of every read's lines, read after read, at most one per line |
| EventStream.ReadEventStream | src/lib/services/llmService.ts:64-94 | the loop delivers exactly the specified deltas, in stream order; on the last read it returns their concatenation; a read that rejects passes its reason through |
| EventStream.DeliverLines | src/lib/services/llmService.ts:75-91 | the inner loop appends each line's delta to the delivered values; `fullContent` stays the concatenation of all delivered values |
| EventStream.ProcessLine | src/lib/services/llmService.ts:76-90 | one line appends its delta, if any, to the delivered values and to `fullContent`, keeping `fullContent` their concatenation |
| EventStream.LineDeltasAppend | src/lib/services/llmService.ts:75 | the lines of a read are handled independently: the deltas of two runs of lines are concatenated |
| EventStream.LineDeltasNonEmpty | src/lib/services/llmService.ts:83-86 | every value handed to `onChunk` is non-empty |
| EventStream.SilentLineSkipped | src/lib/services/llmService.ts:76-78 | a line that yields no content (ignored, `[DONE]`, unparseable or empty) changes neither the delivered values nor the result, around any lines |
| EventStream.MalformedPayloadSkipped | src/lib/services/llmService.ts:80-89 | a payload that fails to parse is skipped; the lines before and after it are still delivered |
| EventStream.ContentLineDelivered | src/lib/services/llmService.ts:82-86 | a content line delivers its content exactly once, between the deltas of the lines before and after it |
| EventStream.StreamDeltasAppend | src/lib/services/llmService.ts:68-73 | a body's deltas are those of its earlier reads followed by those of its later reads |
| EventStream.BlankLineIgnored | src/lib/services/llmService.ts:73-76 | a whitespace-only line could never deliver content |
| EventStream.NonBlankPreservesDeltas | src/lib/services/llmService.ts:73 | dropping blank lines leaves the deltas unchanged |
| EventStream.NonBlankAppend | src/lib/services/llmService.ts:73 | the blank-line filter distributes over concatenation |
| EventStream.ReadLinesAppendAtBoundary | src/lib/services/llmService.ts:72-73 | text that ends on a newline splits into its own lines, independently of what follows |
| EventStream.AlignedReadsDecodeAsOne | src/lib/services/llmService.ts:68-73 | when every read but the last ends on a newline, the deltas are those of the whole body read at once |
| EventStream.StraddledLineIsLost | src/lib/services/llmService.ts:72-73 | as written (no carry-over): a content line delivered when read whole delivers nothing when it is cut across two reads at a point where the first piece's payload does not parse and the second piece does not start with `data: ` |
| EventStream.WholeLineDelivers | src/lib/services/llmService.ts:72-86 | a `data: ` line read whole delivers its non-empty content |
| EventStream.SplitLineDeliversNothing | src/lib/services/llmService.ts:72-89 | a read holding only the start of a `data: ` line (no newline), whose payload piece does not parse, followed by a read holding only the rest of that line (no newline), which does not start with `data: `, delivers nothing |
| EventStream.UnparseableReadDeliversNothing | src/lib/services/llmService.ts:80-89 | a read holding one `data: ` line whose payload does not parse delivers nothing |
| EventStream.NonDataReadDeliversNothing | src/lib/services/llmService.ts:76 | a read holding one line that does not start with `data: ` delivers nothing |
| EventStream.EventLineDelivers | src/lib/services/llmService.ts:76-86 | a `data: ` line whose payload parses to non-empty content delivers exactly that content |
| EventStream.SingleLineRead | src/lib/services/llmService.ts:73 | a read holding one `data: ` line without a newline yields exactly that line |
| EventStream.EventBlockLines | src/lib/services/llmService.ts:73 | an event line followed by its terminating blank line contributes exactly that line |
| EventStream.TwoContentLinesThenDone | src/lib/services/llmService.ts:75-91 | the lines of two content events followed by `[DONE]` deliver the two contents in order |
| EventStream.TwoEventsThenDone | src/lib/services/llmService.ts:68-91 | a read holding two content events and `[DONE]` delivers the two contents in order |
| JsText.SplitLines | src/lib/services/llmService.ts:73 | `split('\n')` yields at least one piece; `JoinSplit` and `SplitJoin` show it is the inverse of `join('\n')` |
| JsText.SplitCons | src/lib/services/llmService.ts:73 | a leading newline starts a new empty piece; any other leading character joins the first piece |
| JsText.SplitAppend | src/lib/services/llmService.ts:73 | `split('\n')` of `a + "\n" + b` is the split of `a` followed by the split of `b` |
| JsText.JoinSplit | src/lib/services/llmService.ts:73 | joining the pieces of `split('\n')` with newlines gives back the text |
| JsText.SplitJoin | src/lib/services/llmService.ts:73 | splitting newline-free pieces joined by newlines gives back the pieces |
| JsText.SplitLinesNewlineFree | src/lib/services/llmService.ts:73 | no piece of `split('\n')` contains a newline |
| JsText.Trim | src/lib/services/llmService.ts:73 | `line.trim()`: whitespace removed from both ends; its meaning for the blank-line filter is stated by `TrimEmptyIffBlank` |
| JsText.TrimEmptyIffBlank | src/lib/services/llmService.ts:73 | `trim()` is empty exactly when every character is JavaScript whitespace |
| JsText.Concat | src/lib/services/llmService.ts:84 | the text accumulated by `+=` has exactly the total length of the appended parts |
| JsText.ConcatAppend | src/lib/services/llmService.ts:84 | accumulating with `+=` over two runs of values concatenates their accumulations |
| JsText.DecimalString | src/lib/services/llmService.ts:57 | the decimal rendering of a status code is non-empty, all digits and without a leading zero |
| JsText.DecimalRoundTrip | src/lib/services/llmService.ts:57 | the decimal rendering of a status code reads back as that code |
| LlmService.SendMessage | src/lib/services/llmService.ts:9-99 | no matching profile: it fails before any request. Otherwise it issues the completion request. A network failure or a failed read is passed through. A non-OK response throws the chosen error, and a null body throws "Response body is null", with nothing delivered in either case. Otherwise the delivered values are the stream's deltas. The result succeeds exactly when the reads complete, and then equals the concatenation of the delivered values, each of which is non-empty |
| LlmService.TestConnection | src/lib/services/llmService.ts:101-128 | it succeeds exactly when the probe gets an OK response, and then returns true, never false. A non-OK response with a readable body throws `HTTP error! status: N`. A rejected fetch or body read is passed through |

## Left out

- `fetch`, `reader.read()`, `response.text()` and the async machinery are
  network I/O. They are represented by the `server` parameter and by the
  body's reads given as data.
- `TextDecoder` UTF-8 decoding is a library call. Each read is given
  already decoded. The decoder's buffering of a multi-byte sequence cut by a
  read boundary is not modelled.
- `JSON.parse`, `JSON.stringify` and the property reads after the parse
  are a foreign library. They are function parameters.
- Only string values of `choices[0].delta.content` and `error.message` are
  modelled. A truthy non-string content value (an array, an object, a
  number) is handed to `onChunk` as it is and appended in its string form,
  which may be empty (an empty array appends ""). The model cannot deliver
  such a value. Likewise a non-string truthy `error.message` such as `[]`
  makes line 57 throw an `Error` whose message is its string form, possibly
  empty. `ErrorBodyFailure` and `NonOkFailure` promise a non-empty message
  only for string messages.
- The `console.log` and `console.error` diagnostics are side effects only.
  The credential preview on the Authorization line is the one exception and
  is modelled.
- An `onChunk` callback that throws is not modelled. The model treats the
  callback as a sink that always accepts.
- RequestBuilder.KeyPreview: counts Unicode scalar values, while
  JavaScript's `substring(0, 10)` counts UTF-16 code units. A key holding a
  character outside the Basic Multilingual Plane previews differently.
- `Profile` holds only the fields the service reads: `id` (line 11) and
  `baseUrl`, `apiKey`, `model`, `temperature` and `maxTokens` (line 17).
  Any other field a stored profile carries is not modelled.
- The catch-and-rethrow around the request only logs, so the model passes
  every failure through unchanged.
- Cancellation and concurrent calls are not modelled. Each call reads one
  snapshot of the settings.
- Settings without an `llmProfiles` list are not modelled. The default
  settings of `src/lib/stores/appStore.ts` have none. With them, line 11
  throws a TypeError (`find` of `undefined`) instead of "No active LLM
  profile found". `Settings` always holds a list, so the model cannot
  express that case.
- `src/lib/stores/appStore.ts` (Svelte stores, persistence and a template)
  and `src/lib/config.ts` (constant defaults) have no behaviour the service
  depends on beyond the settings shape. They are not part of this model.
- Settings migration, `finish_reason` handling, truncated or interrupted
  result classification, and system-prompt or diagram-context injection are
  not implemented by the service, so they are not modelled.
