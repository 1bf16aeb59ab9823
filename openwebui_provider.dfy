/** The language-model provider over the OpenWebUI chat-completions API:
    the prompt-to-messages mapping, the result of a one-shot generation,
    and the streaming iterator that turns `data:` lines into `text-delta`
    events. The HTTP call is an input: how the request settled. */
module Provider {
  import opened Seqs
  import opened Text
  import opened Json
  import opened LineReassembly
  import opened Messages
  import ChatRoute

  // ---------------------------------------------------------------------
  // The prompt
  // ---------------------------------------------------------------------

  /** One part of a prompt message; only its `text` is read. */
  datatype PromptPart = PromptPart(text: Option<string>)

  datatype PromptMessage = PromptMessage(role: string, content: seq<PromptPart>)

  /** A message as the chat-completions API takes it. */
  datatype ApiMessage = ApiMessage(role: string, content: string)

  /** `content.map(part => part.text)`; `join` writes a missing text as "". */
  function PartTexts(parts: seq<PromptPart>): (r: seq<string>)
    ensures |r| == |parts|
  {
    seq(|parts|, i requires 0 <= i < |parts| => OrEmpty(parts[i].text))
  }

  /** `content.map(part => part.text).join("")`. */
  function PromptContent(parts: seq<PromptPart>): string
  {
    Join(PartTexts(parts), "")
  }

  /** `prompt.map(msg => ({ role, content }))`. */
  function MapPrompt(prompt: seq<PromptMessage>): (r: seq<ApiMessage>)
    ensures |r| == |prompt|
    ensures forall i :: 0 <= i < |prompt| ==>
      r[i].role == prompt[i].role && r[i].content == PromptContent(prompt[i].content)
  {
    seq(|prompt|, i requires 0 <= i < |prompt| =>
      ApiMessage(prompt[i].role, PromptContent(prompt[i].content)))
  }

  /** Joining with the empty separator is plain concatenation. */
  lemma {:induction false} JoinEmpty(ts: seq<string>)
    ensures Join(ts, "") == Concat(ts)
    decreases |ts|
  {
    if |ts| > 1 {
      JoinEmpty(Init(ts));
    } else if |ts| == 1 {
      assert Init(ts) == [];
    }
  }

  /** A message's content is the texts of its parts, in order, with no
      separator: one more part appends exactly its text, a part without
      text appends nothing. */
  lemma PromptContentAppend(parts: seq<PromptPart>, p: PromptPart)
    ensures PromptContent(parts + [p]) == PromptContent(parts) + OrEmpty(p.text)
    ensures p.text.None? ==> PromptContent(parts + [p]) == PromptContent(parts)
  {
    var ts := PartTexts(parts + [p]);
    assert Init(ts) == PartTexts(parts);
    JoinEmpty(ts);
    JoinEmpty(PartTexts(parts));
  }

  const Model: string := "gpt-4o-mini"

  function ApiMessageJson(m: ApiMessage): Json
  {
    JObj([Field("role", JStr(m.role)), Field("content", JStr(m.content))])
  }

  /** The body `JSON.stringify` serialises: the fixed model, the mapped
      messages and whether to stream. */
  function RequestBody(prompt: seq<PromptMessage>, stream: bool): (r: Json)
    ensures Member(r, "model") == Some(JStr(Model))
    ensures Member(r, "stream") == Some(JBool(stream))
    ensures Member(r, "messages").Some?
    ensures var ms := Member(r, "messages").value;
      ms.JArr? && |ms.items| == |prompt|
      && forall i :: 0 <= i < |prompt| ==> ms.items[i] == ApiMessageJson(MapPrompt(prompt)[i])
  {
    var api := MapPrompt(prompt);
    var model := Field("model", JStr(Model));
    var messages := Field("messages", JArr(seq(|api|, i requires 0 <= i < |api| => ApiMessageJson(api[i]))));
    var stream := Field("stream", JBool(stream));
    ThreeFields(model, messages, stream);
    JObj([model, messages, stream])
  }

  // ---------------------------------------------------------------------
  // How the request settled
  // ---------------------------------------------------------------------

  /** The `fetch`: rejected, or answered with a status, its status text and
      a body (absent when the response has none). */
  datatype Reply =
    | Rejected(message: string)
    | Answered(status: int, statusText: string, body: Option<Upstream>)

  /** What a failing call throws. */
  datatype Failure =
    | Thrown(message: string)   // an `Error` with this message, or a rethrown one
    | SyntaxError               // `response.json()` on a body that is not JSON
    | TypeError                 // a property read on `undefined` or `null`
    | AbortError                // the abort signal fired during a read

  /** A read loop's ending, as the reading side sees it. */
  function EndingFailure(e: Ending): Option<Failure>
  {
    match e
    case EndOfStream => None
    case ReadFailed(reason) => Some(Thrown(reason))
    case Cancelled => Some(AbortError)
  }

  // ---------------------------------------------------------------------
  // doGenerate
  // ---------------------------------------------------------------------

  datatype GenerateResult = GenerateResult(text: Json, finishReason: string,
                                           promptTokens: nat, completionTokens: nat)

  datatype Generation = Generated(result: GenerateResult) | GenerateFailed(failure: Failure)

  /** `data.choices[0]?.message?.content || ""`: reading `choices` off a
      value without it, or indexing a `null` one, throws. */
  function GeneratedText(data: Json): (r: Option<Json>)
  {
    match Member(data, "choices")
    case None => None
    case Some(choices) =>
      if choices.JNull? then None
      else
        var content :=
          match Index0(choices)
          case None => None
          case Some(choice) =>
            match Member(choice, "message")
            case None => None
            case Some(message) => Member(message, "content");
        if content.Some? && Truthy(content.value) then content else Some(JStr(""))
  }

  /** `doGenerate`: a non-ok status throws with the status text; otherwise
      the whole body is read as JSON and the first choice's message content
      returned, with finish reason `stop` and no token counts. */
  function DoGenerate(parse: string -> Option<Json>, reply: Reply): (r: Generation)
    ensures reply.Rejected? ==> r == GenerateFailed(Thrown(reply.message))
    ensures reply.Answered? && !Ok(reply.status) ==>
      r == GenerateFailed(Thrown("OpenWebUI API error: " + reply.statusText))
    ensures r.Generated? ==> reply.Answered? && Ok(reply.status)
    ensures r.Generated? ==>
      && r.result.finishReason == "stop"
      && r.result.promptTokens == 0 && r.result.completionTokens == 0
      && (Truthy(r.result.text) || r.result.text == JStr(""))
  {
    match reply
    case Rejected(message) => GenerateFailed(Thrown(message))
    case Answered(status, statusText, body) =>
      if !Ok(status) then GenerateFailed(Thrown("OpenWebUI API error: " + statusText))
      else
        var up := if body.Some? then body.value else Upstream([], EndOfStream);
        match EndingFailure(up.ending)
        case Some(failure) => GenerateFailed(failure)
        case None =>
          match parse(Concat(up.chunks))
          case None => GenerateFailed(SyntaxError)
          case Some(data) =>
            match GeneratedText(data)
            case None => GenerateFailed(TypeError)
            case Some(text) => Generated(GenerateResult(text, "stop", 0, 0))
  }

  /** The completion object a chat-completions endpoint answers with. */
  function Completion(content: Json): Json
  {
    JObj([Field("choices", JArr([JObj([Field("message", JObj([Field("content", content)]))])]))])
  }

  /** For a body that parses to a completion, the generated text is the
      completion's content when it is truthy and "" otherwise. */
  lemma GenerateReadsContent(parse: string -> Option<Json>, status: int, statusText: string,
                             chunks: seq<string>, content: Json)
    requires Ok(status) && parse(Concat(chunks)) == Some(Completion(content))
    ensures var r := DoGenerate(parse, Answered(status, statusText, Some(Upstream(chunks, EndOfStream))));
      r == Generated(GenerateResult(if Truthy(content) then content else JStr(""), "stop", 0, 0))
  {
    CompletionText(content);
  }

  lemma CompletionText(content: Json)
    ensures GeneratedText(Completion(content)) == Some(if Truthy(content) then content else JStr(""))
  {
    var message := JObj([Field("content", content)]);
    var choice := JObj([Field("message", message)]);
    assert Member(Completion(content), "choices") == Some(JArr([choice]));
    assert Member(choice, "message") == Some(message);
  }

  /** A body without `choices`, or with `choices: null`, makes the call throw. */
  lemma GenerateNeedsChoices(parse: string -> Option<Json>, status: int, statusText: string,
                             chunks: seq<string>, data: Json)
    requires Ok(status) && parse(Concat(chunks)) == Some(data)
    requires Member(data, "choices").None? || Member(data, "choices") == Some(JNull)
    ensures DoGenerate(parse, Answered(status, statusText, Some(Upstream(chunks, EndOfStream))))
         == GenerateFailed(TypeError)
  {
  }

  // ---------------------------------------------------------------------
  // doStream
  // ---------------------------------------------------------------------

  /** `{ type: "text-delta", textDelta }`. */
  datatype StreamPart = TextDeltaPart(textDelta: Json)

  /** The event one complete line yields. The line must be non-blank and
      start with `data: ` as received, untrimmed; its payload, trimmed,
      must not be `[DONE]`, must parse, and must carry a truthy
      `choices[0].delta.content`. A parse failure yields nothing. */
  function StreamLine(parse: string -> Option<Json>, line: string): Option<StreamPart>
  {
    if Trim(line) == "" || !StartsWith(line, "data: ") then None
    else
      var data := Trim(line[6..]);
      if data == "[DONE]" then None
      else match parse(data)
        case None => None
        case Some(parsed) =>
          match ChatRoute.ChoiceContent(parsed)
          case Some(content) => if Truthy(content) then Some(TextDeltaPart(content)) else None
          case None => None
  }

  /** Events come only from `data: ` lines as received, carry truthy
      content, and the end marker yields none. */
  lemma StreamLineShapes(parse: string -> Option<Json>, line: string)
    ensures StreamLine(parse, line).Some? ==> StartsWith(line, "data: ")
    ensures StreamLine(parse, line).Some? ==> Truthy(StreamLine(parse, line).value.textDelta)
    ensures StartsWith(line, "data: ") && Trim(line[6..]) == "[DONE]" ==> StreamLine(parse, line).None?
    ensures StartsWith(line, "data: ") && parse(Trim(line[6..])).None? ==> StreamLine(parse, line).None?
  {
  }

  /** The provider reads `data: ` lines exactly as the chat route does, and
      nothing else: a `0:` token line yields an event there but not here. */
  lemma StreamLineIsRouteDataLine(parse: string -> Option<Json>, line: string)
    ensures StreamLine(parse, line)
         == if StartsWith(line, "data: ") && ChatRoute.LineContent(parse, line).Some?
            then Some(TextDeltaPart(ChatRoute.LineContent(parse, line).value))
            else None
  {
  }

  function StreamDecoder(parse: string -> Option<Json>): string -> Option<StreamPart>
  {
    line => StreamLine(parse, line)
  }

  /** The events of the complete lines of the chunks received. */
  function StreamEvents(parse: string -> Option<Json>, chunks: seq<string>): seq<StreamPart>
  {
    Decoded(StreamDecoder(parse), chunks)
  }

  /** The events one complete line yields: none or one. */
  function LineEvents(parse: string -> Option<Json>, line: string): seq<StreamPart>
  {
    match StreamLine(parse, line) case Some(e) => [e] case None => []
  }

  lemma NextEvent(parse: string -> Option<Json>, lines: seq<string>, k: nat)
    requires k < |lines|
    ensures FilterMap(StreamDecoder(parse), lines[..k + 1])
         == FilterMap(StreamDecoder(parse), lines[..k]) + LineEvents(parse, lines[k])
  {
    FilterMapSnoc(StreamDecoder(parse), lines, k);
  }

  /** A trailing fragment left in the buffer at the end is never decoded. */
  lemma StreamFragmentDropped(parse: string -> Option<Json>, chunks: seq<string>, fragment: string)
    requires Pending(Concat(chunks)) == "" && OneLine(fragment)
    ensures StreamEvents(parse, chunks + [fragment]) == StreamEvents(parse, chunks)
  {
    FragmentDropped(StreamDecoder(parse), chunks, fragment);
  }

  /** What consuming the returned stream gives: the events yielded, how
      the iteration ended, and whether a reader was taken (and so released
      in the `finally`). */
  datatype Streamed = Streamed(events: seq<StreamPart>, failure: Option<Failure>, lockReleased: bool)

  datatype StreamCall = StreamRejected(failure: Failure) | Streaming(stream: Streamed)

  /** `for (const line of lines)`: one event per accepted line, in order. */
  method YieldLines(parse: string -> Option<Json>, lines: seq<string>, events: seq<StreamPart>)
    returns (out: seq<StreamPart>)
    ensures out == events + FilterMap(StreamDecoder(parse), lines)
  {
    out := events;
    var k := 0;
    while k < |lines|
      invariant k <= |lines|
      invariant out == events + FilterMap(StreamDecoder(parse), lines[..k])
    {
      out := YieldLine(parse, lines[k], out);
      NextEvent(parse, lines, k);
      k := k + 1;
    }
    assert lines[..k] == lines;
  }

  /** The loop body: `if (content) yield { type: "text-delta", textDelta: content }`. */
  method YieldLine(parse: string -> Option<Json>, line: string, events: seq<StreamPart>)
    returns (out: seq<StreamPart>)
    ensures out == events + LineEvents(parse, line)
  {
    out := events;
    var event := StreamLine(parse, line);
    if event.Some? {
      out := out + [event.value];
    }
  }

  /** The iterator over a present reader: reads until the upstream ends,
      yields the events of every complete line, drops the fragment left
      in the buffer, rethrows a failed read, and releases the lock in
      every case. */
  method Iterate(parse: string -> Option<Json>, up: Upstream) returns (s: Streamed)
    ensures s.events == StreamEvents(parse, up.chunks)
    ensures s.failure == EndingFailure(up.ending)
    ensures s.lockReleased
  {
    var chunks := up.chunks;
    var buffer := "";
    var events := [];
    var i := 0;
    assert chunks[..0] == [];
    while i < |chunks|
      invariant i <= |chunks|
      invariant buffer == Pending(Concat(chunks[..i]))
      invariant events == StreamEvents(parse, chunks[..i])
    {
      DecodedNext(StreamDecoder(parse), chunks, i);
      var lines := SplitOn(buffer + chunks[i], "\n");
      buffer := Last(lines);
      events := YieldLines(parse, Init(lines), events);
      i := i + 1;
    }
    assert chunks[..i] == chunks;
    s := Streamed(events, EndingFailure(up.ending), true);
  }

  /** `doStream`: a rejected fetch or a non-ok status throws before any
      stream exists; otherwise the stream yields the events of the body's
      complete lines, and a response without a body gives a stream that
      ends at once, with no reader to release. */
  method DoStream(parse: string -> Option<Json>, reply: Reply) returns (r: StreamCall)
    ensures reply.Rejected? ==> r == StreamRejected(Thrown(reply.message))
    ensures reply.Answered? && !Ok(reply.status) ==>
      r == StreamRejected(Thrown("OpenWebUI API error: " + reply.statusText))
    ensures reply.Answered? && Ok(reply.status) ==> r.Streaming?
    ensures r.Streaming? ==> reply.Answered? && Ok(reply.status)
    ensures r.Streaming? ==> (r.stream.lockReleased <==> reply.body.Some?)
    ensures r.Streaming? ==>
      r.stream.events == (if reply.body.Some? then StreamEvents(parse, reply.body.value.chunks) else [])
    ensures r.Streaming? ==>
      r.stream.failure == (if reply.body.Some? then EndingFailure(reply.body.value.ending) else None)
  {
    match reply {
      case Rejected(message) =>
        r := StreamRejected(Thrown(message));
      case Answered(status, statusText, body) =>
        if !Ok(status) {
          r := StreamRejected(Thrown("OpenWebUI API error: " + statusText));
        } else if body.None? {
          r := Streaming(Streamed([], None, false));
        } else {
          var s := Iterate(parse, body.value);
          r := Streaming(s);
        }
    }
  }
}
