# Assistant UI streaming pipeline, modelled in Dafny

This project models the text pipeline of a chat front end that talks to an
OpenWebUI backend. The model covers these components:

- **Stream formatter** (`Formatter`). It writes a chat turn as server-sent
  events, as section 9.2 of the WHATWG HTML Living Standard defines them.
  Each event is one `data: <JSON>` line followed by a blank line. The last
  frame is `data: [DONE]`.
- **Chat endpoint** (`ChatRoute`). It converts the inbound messages and
  collects the ids of uploaded files. It posts one streaming request
  upstream and turns every line of the upstream body into one
  `choices[0].delta.content` frame. The endpoint also has an older variant
  (`ChatRouteOld`) that replaces PDF parts by a notice, and a test variant
  (`ChatTestRoute`) that streams a fixed message as `0:` token lines.
- **Client adapter** (`Adapter`). It keeps the pending file ids as an
  insertion-ordered set. It normalises messages and reads the reply's
  `text-delta` events. It yields the accumulated text after every delta.
- **Language-model provider** (`Provider`). It maps a prompt to
  chat-completions messages and reads a one-shot completion. It also turns
  a streamed body into `text-delta` parts.
- **Document attachment adapter** (`PdfAdapter`). It checks the size limit
  when a file is added. When the file is sent, it builds the complete
  attachment from the upload response. Removing an attachment never fails.
- **Two text renderers.** The current one is `AssistantThread`; the earlier
  one is `LegacyThread`. Both show a fenced LaTeX block as a preview, with
  the prose around it, and render any other text as Markdown. The earlier
  renderer first gathers the text along several paths and unwraps text
  that looks like JSON.

Shared modules:

- `Seqs`: sequence helpers.
- `Text`: `trim`, `indexOf`, `split` and `join` as ECMAScript defines them.
- `Json`: JSON values, `JSON.stringify` with string escaping as in
  section 7 of RFC 8259, the two-space pretty printer, and JavaScript's
  `String(value)`, which throws a `TypeError` for an object with a member
  of its own named `toString`, or an array holding one.
- `Messages`: inbound message shapes.
- `LineReassembly`: the line buffer that all three stream readers share.
- `Fences`: leftmost fenced-block matching.
- `Interop`: what each component makes of another's output.

`JSON.parse` is a parameter `parse: string -> Option<Json>`. Properties
that need it to read back what `JSON.stringify` wrote assume
`InvertsStringify(parse)`, and nothing stronger.

## Model

| member | source | states |
|---|---|---|
| Formatter.FrameDataOf | lib/stream-formatter.ts:22 | The `data` of a frame `data: <payload>\n\n` reads back as exactly the payload. |
| Formatter.StreamFormatter.Event | lib/stream-formatter.ts:17-21 | The event object has `type` first. It has `id` exactly when the message id is non-empty, and `delta` exactly when the content is non-empty. Keys are distinct, so the object survives a JSON round trip. |
| Formatter.StreamFormatter.EventPortable | lib/stream-formatter.ts:17-21 | The event's keys are distinct and all its values are strings. |
| Formatter.StreamFormatter.EventFacts | lib/stream-formatter.ts:17-21 | Reading the event's `type` gives the kind. Its `id` is present exactly for a non-empty message id, and its `delta` exactly for non-empty content. |
| Formatter.FrameData | lib/stream-formatter.ts:22 | The data a reader takes from a frame is what lies between `data: ` and the terminating blank line. |
| Formatter.StreamFormatter.FormatEvent | lib/stream-formatter.ts:16-23 | A frame is one `data:` line carrying the event's JSON, followed by the blank line that dispatches it. Nothing is left buffered for a reader. |
| Formatter.StreamFormatter.StartStream | lib/stream-formatter.ts:25-29 | Three frames, in the order `start`, `start-step`, `text-start`. |
| Formatter.StreamFormatter.EndStream | lib/stream-formatter.ts:31-36 | Three frames, `text-end`, `finish-step`, `finish`, then the literal `[DONE]` frame last. |
| Formatter.StreamFormatter.TextDelta | lib/stream-formatter.ts:38-40 | Exactly one `text-delta` frame carrying the content. |
| Formatter.ReadEvent | lib/stream-formatter.ts:16-23 | Through a faithful parser, a frame reads back as its type. It also carries the formatter's id when there is one, and the content when it is non-empty. |
| Formatter.ReadStart | lib/stream-formatter.ts:25-29 | The opening frames read back with the three opening types, in order, each with the id. |
| Formatter.ReadEnd | lib/stream-formatter.ts:31-35 | The closing frames read back with the three closing types, in order, each with the id. |
| Formatter.DoneData | lib/stream-formatter.ts:35 | The last frame's data is `[DONE]`. |
| LineReassembly.ReceivedText | app/api/chat/route.ts:201-203 | The text received is the complete lines, each with its line feed, followed by the buffer. No line and not the buffer holds a line feed. |
| LineReassembly.ReadTerminated | app/api/chat/route.ts:201-203 | The converse: terminated line-feed-free lines plus a fragment read back as exactly those lines, with the fragment buffered. |
| LineReassembly.Feed | app/api/chat/route.ts:201-203 | One more chunk keeps the lines already handed out. The new lines are those of the old buffer plus the chunk. |
| LineReassembly.ReaderReads | app/api/chat/route.ts:201-203 | Run chunk by chunk, the reader's lines are the complete lines of everything received, and its buffer is what follows the last line feed. |
| LineReassembly.ChunkingIrrelevant | app/api/chat/route.ts:201-203 | Any two chunkings of the same text make the chunk-by-chunk reader hand out the same lines and keep the same buffer. |
| LineReassembly.SingleLineAnySplit | lib/openwebui-adapter.ts:109-113 | A terminated line cut anywhere into chunks is read as that one line, and nothing stays buffered. |
| LineReassembly.LinesAppend | lib/openwebui-provider.ts:94-96 | After text ending in a line feed, later text adds its own lines and nothing else. |
| LineReassembly.EventLines | lib/stream-formatter.ts:22 | A line followed by `\n\n` reads as that line and an empty line. |
| LineReassembly.DecodedNext | lib/openwebui-provider.ts:94-117 | One more chunk extends the decoded results. The new results are those of the lines that the buffer and the chunk complete. |
| LineReassembly.TerminatedPendingEmpty | lib/openwebui-adapter.ts:109-113 | Text made of whole lines reads back as exactly those lines, with nothing buffered. |
| LineReassembly.DataEvent | lib/stream-formatter.ts:22 | A `data:` frame for a one-line payload reads as its `data:` line and a blank line, with nothing buffered. |
| LineReassembly.FragmentDropped | lib/openwebui-adapter.ts:112-113 | With the buffer empty, a final fragment without a line feed decodes to nothing, because no reader flushes the buffer. |
| Json.QuoteRoundTrip | lib/stream-formatter.ts:22 | Every string survives a trip through the JSON string literal `JSON.stringify` writes. |
| Json.ParseQuoted | lib/openwebui-adapter.ts:130 | A faithful `JSON.parse` reads a quoted string back as that string. |
| Json.StringifyOneLine | lib/stream-formatter.ts:22 | Compact JSON never contains a line feed, so one value fits on one `data:` line. |
| Json.Lookup | app/api/chat/route.ts:216 | No binding exactly when no member has the key. |
| Json.LookupAt | app/api/chat/route.ts:216 | The last member with a key is the one read, as `JSON.parse` keeps it. |
| Json.ToStringThrows | lib/openwebui-adapter.ts:140 | Printing a value throws exactly when it is, or holds through arrays, an object with a member of its own named `toString`. |
| Json.ElementsThrow | components/thread.tsx:250 | Printing an array throws exactly when one of its elements hides a `toString` member; `null` elements never throw. |
| Json.JoinPrintedAll | components/thread.tsx:240 | `join('')` succeeds exactly when every piece prints. |
| Json.JoinPrintedTexts | components/thread.tsx:240 | Pieces that all print join to their texts, concatenated. |
| Text.TrimEnds | lib/openwebui-adapter.ts:57 | A trimmed string neither starts nor ends with white space. |
| Text.TrimInfix | lib/openwebui-adapter.ts:57 | The trim is the infix after the leading white space, without the trailing white space. |
| Text.TrimEmptyIffBlank | app/api/chat/route.ts:206 | `!line.trim()` holds exactly for lines made only of white space. |
| Text.IndexOfFirst | app/api/chat/route.ts:202 | The occurrence found is the first at or after the start, and none found means there is none. |
| Text.SplitJoin | app/api/chat-test/route.ts:19 | Splitting and re-joining with the same separator gives the string back. |
| Text.SplitPiecesFree | app/api/chat/route.ts:202 | No piece of a split contains the separator. |
| Text.SplitAppend | app/api/chat/route.ts:201-203 | Splitting an extension keeps all pieces but the last, which continues into the added text. |
| ChatRoute.PartTextChoice | app/api/chat/route.ts:40-44 | A text part's text is its `text` when non-empty, else its `content` when non-empty, else empty. |
| ChatRoute.AttachedIdWhen | app/api/chat/route.ts:45-59 | A file part yields an id exactly when its `url` parses to a value with a truthy `id`, and that member is the id. A parse failure is caught and yields nothing. |
| ChatRoute.ConvertPartKinds | app/api/chat/route.ts:39-61 | A text part converts to its text. A file part becomes a file reference exactly when it carries an id. Any other part is dropped. |
| ChatRoute.ConvertMessageKeeps | app/api/chat/route.ts:97-100 | The role is kept and content is never empty. A message with nothing to say becomes one empty text part. |
| ChatRoute.IdsOfConvertedParts | app/api/chat/route.ts:39-61 | The ids collected from an array are exactly the ids its file parts carry, in array order, duplicates kept. |
| ChatRoute.SkippedPartInvisible | app/api/chat/route.ts:57-59 | A rejected part leaves no trace. The parts and ids are those of the array without it. |
| ChatRoute.PartsArrayWins | app/api/chat/route.ts:38-62 | A `parts` array takes precedence, and `content` is then ignored. |
| ChatRoute.ContentFallback | app/api/chat/route.ts:63-95 | Without `parts`, a `content` array is read part by part. A `content` string becomes one text part. Anything else gives the placeholder. |
| ChatRoute.CollectPart | app/api/chat/route.ts:40-60 | The loop body pushes exactly the part's conversion, and records an id exactly for a file reference. |
| ChatRoute.CollectParts | app/api/chat/route.ts:39-61 | The part loop yields the converted parts in order, and the ids those parts carry. |
| ChatRoute.ConvertOne | app/api/chat/route.ts:34-101 | One message's converted form, and the ids it adds to the shared list. |
| ChatRoute.ConvertMessages | app/api/chat/route.ts:34-101 | Every message is converted in its own position. The ids are collected across the conversation in encounter order. |
| ChatRoute.BuildRequest | app/api/chat/route.ts:120-146 | Roles and message order are kept, with each content flattened and trimmed. The default model applies when none is configured, and `stream` is on. `files` is present exactly when an id was collected, with one `{type: "file", id}` per id in order. |
| ChatRoute.FileOnlyContentEmpty | app/api/chat/route.ts:129-134 | A message made only of file parts is sent with empty content. |
| ChatRoute.StringContentSent | app/api/chat/route.ts:127-134 | A string `content` is sent trimmed and otherwise as it is. |
| ChatRoute.DecodeLineShapes | app/api/chat/route.ts:209-219 | Content is truthy, and comes only from a `data: ` or a `0:` line. The end marker yields none. |
| ChatRoute.FrameIsOneEvent | app/api/chat/route.ts:222-233 | Each frame is one `data:` line with the chunk JSON, followed by the blank line that dispatches it. |
| ChatRoute.TokenLine | app/api/chat/route.ts:217-218 | A `0:` line with a JSON string yields a frame with that text exactly when the string is non-empty. |
| ChatRoute.ZeroLine | app/api/chat/route.ts:217-218 | A `0:` line is decoded by parsing its trimmed payload, keeping a truthy result. |
| ChatRoute.FramesInLineOrder | app/api/chat/route.ts:201-239 | Frames are emitted in line order and never revised. Text received in two parts gives the first part's frames, then those of the lines completed afterwards. |
| ChatRoute.TrailingFragmentDropped | app/api/chat/route.ts:201-203 | A fragment after the last line feed yields no frame. |
| ChatRoute.NextChunk | app/api/chat/route.ts:201-203 | Chunk `i` extends the frames by those of the lines it completes with the buffer. The buffer then holds what follows the last line feed. |
| ChatRoute.ChatStream.constructor | app/api/chat/route.ts:183-185 | The buffer is empty and the stream is active, with nothing enqueued. |
| ChatRoute.ChatStream.Cancel | app/api/chat/route.ts:252-256 | Cancelling clears the flag, and nothing already enqueued changes. |
| ChatRoute.ChatStream.Receive | app/api/chat/route.ts:201-205 | The buffer becomes what follows the last line feed. The frames of the completed lines are appended. |
| ChatRoute.ChatStream.EmitLines | app/api/chat/route.ts:205-239 | One frame per line that carries content, in line order. |
| ChatRoute.ChatStream.HandleLine | app/api/chat/route.ts:206-235 | A blank line is skipped. Any other line enqueues its frame when it carries content. |
| ChatRoute.ChatStream.ReadChunk | app/api/chat/route.ts:189-203 | The loop invariant is kept: the buffer and frames of the first `i` chunks become those of the first `i + 1`. |
| ChatRoute.ChatStream.Settle | app/api/chat/route.ts:191-245 | A clean end enqueues `[DONE]`, and a failed read errors the stream. A cancellation leaves both undone. |
| ChatRoute.ChatStream.Start | app/api/chat/route.ts:186-250 | The frames are those of every complete line, then `[DONE]` exactly on a normal end. The stream is errored exactly on a failed read. The final fragment stays buffered, and the lock is released on every exit. |
| ChatRoute.Respond | app/api/chat/route.ts:160-177 | A non-ok status gives its status and `OpenWebUI failed`. A missing body gives 500. A failed fetch gives 500 with its message. Only an ok response with a body gives an event stream. |
| ChatRoute.Post | app/api/chat/route.ts:8-281 | Whatever throws before the request is built (an unreadable body, a missing or non-array `messages`, a `null` message or part) gives the 500 reply with the thrown message, and an empty message list gives 400, with nothing sent upstream in either case. Otherwise the request carries the converted messages and the collected ids, and the upstream decides the reply. |
| ChatRouteOld.SetContentLookup | app/api/chat/route_old.ts:25-27 | Replacing `content` leaves every other member's value as it was. |
| ChatRouteOld.Process | app/api/chat/route_old.ts:13-40 | Every message is rewritten in its own position. One that throws fails the whole request. |
| ChatRouteOld.RewriteThrows | app/api/chat/route_old.ts:14-18 | The rewrite throws exactly on `null`, or on a user message whose truthy content is not an array or holds a `null` part. |
| ChatRouteOld.RewritePassesThrough | app/api/chat/route_old.ts:14-39 | Other roles, falsy content, and user messages without a PDF part pass unchanged. |
| ChatRouteOld.RewritePdf | app/api/chat/route_old.ts:20-36 | Each PDF part is replaced by the notice, and every other part keeps its place. |
| ChatRouteOld.RewriteKeepsMembers | app/api/chat/route_old.ts:25-27 | Every member other than `content` is kept. |
| ChatRouteOld.RewriteIdempotent | app/api/chat/route_old.ts:27-35 | The notice is not a PDF part, so rewriting again changes nothing. |
| ChatTestRoute.TestStream.constructor | app/api/chat-test/route.ts:14 | A fresh stream has nothing enqueued and is neither closed nor errored. |
| ChatTestRoute.TestStream.Start | app/api/chat-test/route.ts:15-40 | The fixed message streams as one token chunk per word and the stream closes. A failing enqueue leaves the earlier chunks and errors the stream. |
| ChatTestRoute.TestStream.StreamWords | app/api/chat-test/route.ts:23-39 | One chunk per word in order, then close. On failure, the chunks before the failing word and an errored stream. |
| ChatTestRoute.ReadTokenLines | app/api/chat-test/route.ts:25 | The chunks read back as the token lines, one per word, with nothing buffered. |
| ChatTestRoute.TokenLineRead | app/api/chat-test/route.ts:25 | The chat route's `0:` branch reads a token line as exactly its word and the space. |
| ChatTestRoute.RouteReadsTokens | app/api/chat-test/route.ts:23-28 | The chat route emits one frame per word, carrying that word and its space. |
| ChatTestRoute.SpacedJoin | app/api/chat-test/route.ts:19-25 | The words, each followed by a space, concatenate to the words joined by spaces plus one space. |
| ChatTestRoute.TokensSpellMessage | app/api/chat-test/route.ts:18-19 | The tokens concatenate to the message and one trailing space. |
| ChatTestRoute.DecodedTokens | app/api/chat-test/route.ts:23-28 | The decoded token texts are the words with their spaces. |
| ChatTestRoute.StreamReadsBack | app/api/chat-test/route.ts:18-28 | Reading the whole stream gives back the message with one trailing space. |
| Adapter.AddAllDistinct | lib/openwebui-adapter.ts:13-16 | The set never lists an id twice. |
| Adapter.AddAllMembers | lib/openwebui-adapter.ts:13-16 | Adding is set union. |
| Adapter.AddAllKeepsOrder | lib/openwebui-adapter.ts:13-16 | Ids already present keep their place in the listing. |
| Adapter.AddAllPresent | lib/openwebui-adapter.ts:13-16 | Adding ids already present changes nothing. |
| Adapter.AddAllIdempotent | lib/openwebui-adapter.ts:13-16 | Adding the same ids twice equals adding them once. |
| Adapter.AddAllAppend | lib/openwebui-adapter.ts:13-16 | Two calls in a row equal one call with both lists. |
| Adapter.Normalize | lib/openwebui-adapter.ts:38-59 | One message per message, in order, with its role and trimmed content. The content comes from a string, else from the text parts of `content`, else from those of `parts`. |
| Adapter.NormalizedTrimmed | lib/openwebui-adapter.ts:57 | A normalised content neither starts nor ends with white space. |
| Adapter.NonTextPartIgnored | lib/openwebui-adapter.ts:44-47 | Removing a non-text part leaves the text unchanged. |
| Adapter.TextOfPartsAppend | lib/openwebui-adapter.ts:44-47 | Text parts are read in array order, joined without separator. |
| Adapter.StringContentFirst | lib/openwebui-adapter.ts:41-42 | A string `content` is used whatever `parts` holds. |
| Adapter.RequestBody | lib/openwebui-adapter.ts:73-76 | The body carries the normalised messages. `fileIds` is the snapshot when it is non-empty, and absent otherwise. |
| Adapter.LineDelta | lib/openwebui-adapter.ts:115-136 | A delta is truthy and comes only from a trimmed `data: ` line whose payload is not `[DONE]`. |
| Adapter.Cumulative | lib/openwebui-adapter.ts:138-155 | One yield per delta. |
| Adapter.CumulativeAt | lib/openwebui-adapter.ts:138-155 | The `i`-th yield is the first `i + 1` deltas concatenated. |
| Adapter.CumulativeExtends | lib/openwebui-adapter.ts:138-155 | Every later yield extends an earlier one by the deltas in between. |
| Adapter.TurnOutcome | lib/openwebui-adapter.ts:80-88 | A non-ok status throws `API error: <status> - <text>`. A turn completes exactly when an ok response with a body ends normally. |
| Adapter.ReadsPrintedDelta | lib/openwebui-adapter.ts:138-158 | A line reads as text exactly when it carries a delta that prints. A delta hiding a `toString` member throws at `+=` and the line is skipped. |
| Adapter.DeltaStep | lib/openwebui-adapter.ts:138-158 | A line whose delta prints appends it to the accumulated text and yields the new text. A line without a delta, or whose delta throws when printed, changes nothing. |
| Adapter.YieldLines | lib/openwebui-adapter.ts:115-160 | The inner loop appends and yields every delta that prints, in line order. |
| Adapter.ReadReply | lib/openwebui-adapter.ts:99-161 | The read loop yields the cumulative texts of every delta in the complete lines. The final fragment is dropped. |
| Adapter.OpenWebUIAdapter.constructor | lib/openwebui-adapter.ts:5-10 | The file id set starts empty. |
| Adapter.OpenWebUIAdapter.AddFileIds | lib/openwebui-adapter.ts:13-16 | The set becomes the union, with new ids appended in order and no duplicates. |
| Adapter.OpenWebUIAdapter.ClearFileIds | lib/openwebui-adapter.ts:19-22 | The set becomes empty. |
| Adapter.OpenWebUIAdapter.GetFileIds | lib/openwebui-adapter.ts:25-27 | A snapshot of the set, which stays as it is. |
| Adapter.OpenWebUIAdapter.Run | lib/openwebui-adapter.ts:29-175 | The request carries the ids pending at the start, and the texts are the cumulative yields. A completed turn with a non-empty snapshot empties the set, including ids added meanwhile. Any other turn keeps them. The lock stays held unless the stream ended normally. |
| Provider.MapPrompt | lib/openwebui-provider.ts:17-20 | One message per prompt message, with its role and the texts of its parts joined. |
| Provider.PromptContentAppend | lib/openwebui-provider.ts:19 | One more part appends exactly its text, and a part without text appends nothing. |
| Provider.RequestBody | lib/openwebui-provider.ts:28-32 | The fixed model, the mapped messages and the stream flag. |
| Provider.DoGenerate | lib/openwebui-provider.ts:14-51 | A rejected fetch rethrows, and a non-ok status throws with the status text. A result has finish reason `stop`, no token counts, and a truthy text or "". |
| Provider.CompletionText | lib/openwebui-provider.ts:41 | A completion's text is its message content when truthy, else "". |
| Provider.GenerateReadsContent | lib/openwebui-provider.ts:40-50 | A body parsing to a completion generates its content, or "" when that is falsy. |
| Provider.GenerateNeedsChoices | lib/openwebui-provider.ts:41 | A body without `choices`, or with `choices: null`, makes the call throw. |
| Provider.StreamLineShapes | lib/openwebui-provider.ts:98-113 | Events come only from untrimmed `data: ` lines and carry truthy content. `[DONE]` and unparseable payloads yield nothing. |
| Provider.StreamLineIsRouteDataLine | lib/openwebui-provider.ts:98-113 | The provider reads `data: ` lines exactly as the chat route does. A `0:` line yields nothing. |
| Provider.StreamFragmentDropped | lib/openwebui-provider.ts:94-96 | A trailing fragment is never decoded. |
| Provider.YieldLine | lib/openwebui-provider.ts:104-113 | A line yields its event when it carries content. |
| Provider.YieldLines | lib/openwebui-provider.ts:98-117 | One event per accepted line, in order. |
| Provider.Iterate | lib/openwebui-provider.ts:84-122 | The events of every complete line. A failed read is rethrown, and the lock is released in every case. |
| Provider.DoStream | lib/openwebui-provider.ts:53-126 | A rejected fetch or a non-ok status throws before any stream exists. Otherwise the stream yields the body's events, and without a body it ends at once with no lock to release. |
| PdfAdapter.Add | lib/pdf-adapter.ts:13-39 | A file over 20 MiB needs action because of an error. Any other file waits for the composer. Both keep the name and the file. |
| PdfAdapter.SizeBoundary | lib/pdf-adapter.ts:15-16 | The limit is inclusive: exactly 20 MiB passes and one byte more fails. |
| PdfAdapter.Send | lib/pdf-adapter.ts:41-103 | Success exactly when the upload yields a truthy id. The attachment then holds one file part with the JSON reference. Every failure carries the fixed prefix and the original message. |
| PdfAdapter.SendRejectedStatus | lib/pdf-adapter.ts:63-67 | A non-ok status fails with the status and the response text. |
| PdfAdapter.SendWithoutId | lib/pdf-adapter.ts:73-77 | A result without an `id` fails with the no-id message. |
| PdfAdapter.FileRefReadsBack | lib/pdf-adapter.ts:84-94 | The stored reference reads back as a `file` object with the uploaded id and the name. |
| PdfAdapter.Remove | lib/pdf-adapter.ts:105-123 | A `DELETE` is sent exactly for a non-empty id, to that file's path. The call never fails. |
| Fences.FirstOfSpec | components/assistant-ui/thread.tsx:51 | The hit is an occurrence of a pattern with none further left. No hit means no pattern occurs. |
| Fences.BlockFound | components/assistant-ui/thread.tsx:51 | A found block is the leftmost opener, a body with no fence, and the first fence after it. The body is what lies between. |
| Fences.NoBlock | components/assistant-ui/thread.tsx:51 | For fence-led openers, no block found means no opener anywhere is followed by a fence, so the pattern has no match. |
| Fences.BlockRoundTrip | components/assistant-ui/thread.tsx:51 | Prose without backticks, an opener, a body with no fence, and a fence give back exactly that body. |
| Fences.BeforeCode | components/assistant-ui/thread.tsx:92 | The text before the first marker is a prefix of the text. |
| Fences.BeforeOfBlock | components/assistant-ui/thread.tsx:92 | For prose without backticks before a block, the text before the block is that prose. |
| Fences.SegmentsOfBlock | components/assistant-ui/thread.tsx:93 | The fence-separated segments are the prose, the tag with the body, then the segments after the block. |
| Fences.AfterOfBlock | components/assistant-ui/thread.tsx:93 | The third segment is the text after the closing fence, up to the next fence. |
| AssistantThread.OpenersWellFormed | components/assistant-ui/thread.tsx:51 | Both openers start with a fence and neither is a prefix of the other, so the leftmost match is well defined. |
| AssistantThread.ExtractRoundTrip | components/assistant-ui/thread.tsx:50-53 | A `latex` or `tex` block after prose without backticks is found and its body returned exactly. |
| AssistantThread.ExtractNone | components/assistant-ui/thread.tsx:50-53 | No code means no opener in the text is followed by a fence. |
| AssistantThread.PreviewBounded | components/assistant-ui/thread.tsx:176-179 | Code within 1000 characters is shown whole. Longer code is cut at 1000 characters and followed by the truncation note. |
| AssistantThread.RenderChoice | components/assistant-ui/thread.tsx:199-212 | A preview exactly for a string text with a non-empty block. Markdown exactly for any other string. Failure exactly for a truthy non-string text. |
| AssistantThread.BlockTextParts | components/assistant-ui/thread.tsx:92-93 | For prose, a block and prose, the code is the body, the text before is the first prose, and the text after is the second. |
| AssistantThread.RenderBlock | components/assistant-ui/thread.tsx:82-212 | Such a text renders as a preview of the body, with each prose block trimmed and shown when anything is left of it. |
| LegacyThread.OpenerWellFormed | components/thread.tsx:49 | The opener starts with a fence, so the leftmost match is well defined. |
| LegacyThread.ExtractRoundTrip | components/thread.tsx:48-51 | A `latex` block after prose without backticks is found and its body returned exactly. |
| LegacyThread.ExtractNeedsLatexTag | components/thread.tsx:48-51 | Without a `latex` opener no code is found, even when the text holds a `tex` block. |
| LegacyThread.PreviewShape | components/thread.tsx:205-207 | The text view always ends in `...`, even for short code. Before it is the code whole, or its first 500 characters. |
| LegacyThread.SourcePrefersText | components/thread.tsx:238-239 | A string `text` wins over every other path. |
| LegacyThread.ContentOfTextParts | components/thread.tsx:241 | Text parts join to their texts, concatenated. |
| LegacyThread.SourceJoinsParts | components/thread.tsx:240-241 | A `content` array of text parts reads as their texts, concatenated. |
| LegacyThread.SourceNullPart | components/thread.tsx:240-250 | A `null` element sends the renderer to its fallback, which prints the array with commas, or fails when that print throws. |
| LegacyThread.HiddenToStringFails | components/thread.tsx:240-250 | A `content` array with a `null` element and an element hiding a `toString` member makes the renderer fail, since the fallback print sits outside the `try`. |
| LegacyThread.UnwrapKeepsProse | components/thread.tsx:256 | Text that does not start like JSON passes unchanged. |
| LegacyThread.UnwrapKeepsQuoted | components/thread.tsx:256 | A JSON string literal is not unwrapped. |
| LegacyThread.ObjectLooksLikeJson | components/thread.tsx:256 | A serialised object always starts like JSON. |
| LegacyThread.UnwrapContent | components/thread.tsx:258-261 | A serialised object reads back as its truthy string `content`. |
| LegacyThread.UnwrapPretty | components/thread.tsx:259-261 | An object without truthy `content` or `text` is shown pretty-printed. |
| LegacyThread.ArrayContentFails | components/thread.tsx:258-274 | An object with an array `content` unwraps to that array, and the renderer then throws. |
| LegacyThread.RenderChoice | components/thread.tsx:226-280 | A preview exactly for a string with a non-empty block. Markdown of the settled text for any other string. Failure exactly when the logged `text?.substring` throws (a `text` that is neither a string nor `null`), when the fallback `String(...)` throws, or when the settled text is not a string. |
| LegacyThread.NonStringTextFails | components/thread.tsx:227-231 | A part whose `text` is a number, a boolean, an array or an object fails before any text is gathered, whatever its `content` and children hold. |
| LegacyThread.BlockTextParts | components/thread.tsx:109-110 | For prose, a block and prose, the code is the body, the text before is the first prose, and the text after is the second. |
| LegacyThread.BeforeOfLatexBlock | components/thread.tsx:109 | The text before the `latex` marker is the prose without backticks. |
| LegacyThread.AfterOfLatexBlock | components/thread.tsx:110 | The third fence segment is the prose after the block. |
| LegacyThread.RenderBlock | components/thread.tsx:75-220 | Such a text renders as a preview of the body, with each prose block shown untrimmed when non-empty. |
| Interop.AdapterReadsTextDelta | lib/openwebui-adapter.ts:123-135 | The adapter reads a formatter `text-delta` frame as exactly the text it carried. |
| Interop.AdapterSkipsUntyped | lib/openwebui-adapter.ts:133 | A `data:` line with an object without `type` yields no delta. |
| Interop.AdapterIgnoresRouteFrame | lib/openwebui-adapter.ts:133-135 | The adapter reads nothing from a chat route frame, because the chunk object has no `type`. |
| Interop.ChunkContent | app/api/chat/route.ts:222-233 | A route chunk's `choices[0].delta.content` is the content wrapped in a one-element text-part array. |
| Interop.RouteFrameReceived | app/api/chat/route.ts:222-233 | A route frame, received whole, is its `data:` line and a blank line. |
| Interop.ProviderReadsObject | lib/openwebui-provider.ts:99-113 | A `data:` line with an object yields its truthy `choices[0].delta.content`. |
| Interop.ProviderReadsRouteFrame | lib/openwebui-provider.ts:99-113 | The provider reads a route frame as the wrapped array, not the text itself. |
| Interop.RouteMissesStoredReference | app/api/chat/route.ts:45 | The route finds no id in a document part as the attachment adapter stores it, in `data` rather than `url`, and drops the part. |
| Interop.RouteReadsReferenceInUrl | app/api/chat/route.ts:45-56 | Carried in `url`, the stored reference would give back the uploaded id. |

## Left out

- Network I/O is not modelled. Each `fetch` is an input saying how the request settled, and upstream bodies are given as chunks of text.
- `TextEncoder` and `TextDecoder` are not modelled: bytes are not modelled. A multi-byte character split across two chunks is not modelled either.
- Concurrency is not modelled. A client cancelling the chat route is modelled only as happening while a read is pending, after the last delivered chunk. A cancel between two lines of one chunk is not modelled.
- Timers are not modelled, including the 100 ms delay between words in the test route.
- Console logging is not modelled.
- `crypto.randomUUID`, `process.env` and the backend configuration are parameters.
- The texts the JavaScript engine puts in its own `SyntaxError` and `TypeError` are parameters, or are modelled as named failures.
- The Overleaf link, the `.tex` and PDF download, the compile request, the clipboard copy, the React view state (`view` is a parameter), the markup, and the Markdown rendering are not modelled. They are user-interface effects.
- In the older chat endpoint, `streamText`, `convertToModelMessages` and `toUIMessageStreamResponse` belong to the AI SDK and are not modelled. Only the message rewrite before them is.
- JSON numbers are integers. Floating point is not modelled.
- Lengths are counted in Unicode scalar values, not UTF-16 code units. `substring(0, 1000)` and `substring(0, 500)` can therefore differ from the model on characters outside the Basic Multilingual Plane.
- ChatRoute.Post: a missing or non-array `messages` (app/api/chat/route.ts:11, then `messages.map` at :34), a `null` message (`msg.parts` at :38) and a `null` part are not told apart from an unreadable body. All of them are the one input `Unreadable(message)`, which ends in the 500 reply of app/api/chat/route.ts:266-280 carrying the thrown message. The model does not derive that message from the input.
- Adapter.Normalize: a `null` message is not modelled. Reading `msg.content` of it throws at lib/openwebui-adapter.ts:41, and the turn fails before any request is sent. Messages are taken as objects.
- In the chat endpoint, a `null` element of a `parts` or `content` array makes reading `part.type` throw at app/api/chat/route.ts:40 and :65. It is folded into `Unreadable` as stated on the ChatRoute.Post line above. The conversion functions take elements as objects.
- A `null` element of a `content` or `parts` array is not modelled in the client adapter. Reading `p.type` of it throws at lib/openwebui-adapter.ts:45, and the turn fails before any request is sent.
- A prompt message whose `content` is a string is not modelled in the provider. `msg.content.map` throws at lib/openwebui-provider.ts:19, before any request is sent. Prompt content is taken as an array of parts.
- Message fields that the adapter and the chat route read as text (`text`, `content`, `url`, `filename`) are taken as strings or absent. A number or object in those fields is not modelled.
- `JSON.parse` is a parameter. Round trips assume only that it reads back what `JSON.stringify` writes for portable values: object keys are distinct and none is an array index (JavaScript would list those first), and numbers are exactly representable integers. Values outside that class, such as an object with a key `"0"` after another key, are not covered by those round trips.
- AssistantThread.PreviewBounded: states one-directional facts, not an equivalence, because a code that equals its own truncated preview exists.
- AssistantThread.ExtractRoundTrip: requires the prose before the block to hold no backtick and the body to hold no fence. Other texts are covered by Fences.BlockFound and Fences.NoBlock.
- AssistantThread.RenderBlock: requires prose without backticks around the block, for the same reason.
- LegacyThread.ExtractRoundTrip: requires prose without backticks and a body with no fence, as above.
- LegacyThread.RenderBlock: requires prose without backticks around the block, as above.
- Provider.GenerateReadsContent: is stated for a body that the parser reads as a completion object, not for a concrete JSON text.
