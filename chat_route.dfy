/** The server-side chat endpoint (`POST /api/chat`): it converts the
    inbound messages, collects attached file ids, posts one streaming
    request upstream and re-emits every piece of upstream text as one
    server-sent event (section 9.2 of the WHATWG HTML Living Standard),
    ending with `data: [DONE]`. */
module ChatRoute {
  import opened Seqs
  import opened Text
  import opened Json
  import opened LineReassembly
  import opened Messages

  // ---------------------------------------------------------------------
  // Message conversion
  // ---------------------------------------------------------------------

  /** A converted part: some text, or a reference to an uploaded file. */
  datatype ConvertedPart = TextPart(text: string) | FilePart(fileId: Json)

  datatype ConvertedMessage = ConvertedMessage(role: string, content: seq<ConvertedPart>)

  /** `part.text || part.content || ''`. */
  function PartText(p: InPart): string
  {
    if Given(p.text) then p.text.value else OrEmpty(p.content)
  }

  /** A text part's text is its `text` when that is non-empty, else its
      `content` when that is non-empty, else empty. */
  lemma PartTextChoice(p: InPart)
    ensures Given(p.text) ==> PartText(p) == p.text.value
    ensures !Given(p.text) && Given(p.content) ==> PartText(p) == p.content.value
    ensures !Given(p.text) && !Given(p.content) ==> PartText(p) == ""
  {
  }

  /** The id of the uploaded file a file part refers to: its `url` holds
      JSON whose `id` member is truthy. A `url` that does not parse, that
      parses to `null` (reading `.id` throws) or to a value without a truthy
      `id` gives nothing; the error is caught and conversion goes on. */
  function AttachedId(parse: string -> Option<Json>, p: InPart): Option<Json>
  {
    if p.kind == "file" && Given(p.url) then
      match parse(p.url.value)
      case None => None
      case Some(data) =>
        match Member(data, "id")
        case Some(id) => if Truthy(id) then Some(id) else None
        case None => None
    else None
  }

  /** A file part yields an id exactly when its `url` parses to a value
      with a truthy `id`, and the id is that member. */
  lemma AttachedIdWhen(parse: string -> Option<Json>, p: InPart)
    ensures AttachedId(parse, p).Some? <==>
      && p.kind == "file" && Given(p.url) && parse(p.url.value).Some?
      && Member(parse(p.url.value).value, "id").Some?
      && Truthy(Member(parse(p.url.value).value, "id").value)
    ensures AttachedId(parse, p).Some? ==> AttachedId(parse, p) == Member(parse(p.url.value).value, "id")
  {
  }

  /** What one element of a `parts` or `content` array contributes. */
  function ConvertPart(parse: string -> Option<Json>, p: InPart): Option<ConvertedPart>
  {
    if p.kind == "text" then Some(TextPart(PartText(p)))
    else match AttachedId(parse, p)
      case Some(id) => Some(FilePart(id))
      case None => None
  }

  /** A text part always converts to its text; a file part converts to a
      file reference exactly when it carries an id; any other part is dropped. */
  lemma ConvertPartKinds(parse: string -> Option<Json>, p: InPart)
    ensures p.kind == "text" ==> ConvertPart(parse, p) == Some(TextPart(PartText(p)))
    ensures (ConvertPart(parse, p).Some? && ConvertPart(parse, p).value.FilePart?) <==> AttachedId(parse, p).Some?
    ensures AttachedId(parse, p).Some? ==> ConvertPart(parse, p) == Some(FilePart(AttachedId(parse, p).value))
    ensures p.kind != "text" && p.kind != "file" ==> ConvertPart(parse, p).None?
  {
  }

  function PartConverter(parse: string -> Option<Json>): InPart -> Option<ConvertedPart>
  {
    p => ConvertPart(parse, p)
  }

  /** The parts a message converts to before the empty-message placeholder:
      from `parts` when it is an array, else from `content` when it is an
      array, else the string `content` as one text part, else none. */
  function MessageParts(parse: string -> Option<Json>, m: InMessage): seq<ConvertedPart>
  {
    if m.parts.Some? then FilterMap(PartConverter(parse), m.parts.value)
    else if m.content.PartList? then FilterMap(PartConverter(parse), m.content.parts)
    else if m.content.TextContent? then [TextPart(m.content.s)]
    else []
  }

  /** The converted form of one message. No message is dropped or emptied:
      the role is kept and a message with nothing to say becomes one empty
      text part. */
  function ConvertMessage(parse: string -> Option<Json>, m: InMessage): ConvertedMessage
  {
    var parts := MessageParts(parse, m);
    ConvertedMessage(m.role, if |parts| > 0 then parts else [TextPart("")])
  }

  /** The role is kept and the content is never empty: a message with
      nothing to say becomes one empty text part, any other keeps its parts. */
  lemma ConvertMessageKeeps(parse: string -> Option<Json>, m: InMessage)
    ensures ConvertMessage(parse, m).role == m.role && |ConvertMessage(parse, m).content| > 0
    ensures MessageParts(parse, m) == [] ==> ConvertMessage(parse, m).content == [TextPart("")]
    ensures MessageParts(parse, m) != [] ==> ConvertMessage(parse, m).content == MessageParts(parse, m)
  {
  }

  /** The file ids among converted parts, in order. */
  function PartIds(parts: seq<ConvertedPart>): (r: seq<Json>)
    ensures |r| <= |parts|
  {
    if parts == [] then []
    else PartIds(Init(parts)) + (if Last(parts).FilePart? then [Last(parts).fileId] else [])
  }

  /** The file ids of a whole conversation, message by message, in encounter order. */
  function FileIdsOf(ms: seq<ConvertedMessage>): seq<Json>
  {
    if ms == [] then [] else FileIdsOf(Init(ms)) + PartIds(Last(ms).content)
  }

  lemma FileIdsSnoc(ms: seq<ConvertedMessage>, c: ConvertedMessage)
    ensures FileIdsOf(ms + [c]) == FileIdsOf(ms) + PartIds(c.content)
  {
    assert Init(ms + [c]) == ms;
  }

  function IdReader(parse: string -> Option<Json>): InPart -> Option<Json>
  {
    p => AttachedId(parse, p)
  }

  /** The ids collected from a parts array are exactly the ids the file
      parts carry, in array order, duplicates kept. */
  lemma {:induction false} IdsOfConvertedParts(parse: string -> Option<Json>, items: seq<InPart>)
    ensures PartIds(FilterMap(PartConverter(parse), items)) == FilterMap(IdReader(parse), items)
    decreases |items|
  {
    if items != [] {
      IdsOfConvertedParts(parse, Init(items));
      var conv := FilterMap(PartConverter(parse), Init(items));
      var p := Last(items);
      match ConvertPart(parse, p)
      case None =>
        assert FilterMap(PartConverter(parse), items) == conv;
      case Some(c) =>
        assert FilterMap(PartConverter(parse), items) == conv + [c];
        assert Init(conv + [c]) == conv;
    }
  }

  lemma {:induction false} PartIdsAppend(a: seq<ConvertedPart>, b: seq<ConvertedPart>)
    ensures PartIds(a + b) == PartIds(a) + PartIds(b)
    decreases |b|
  {
    if b == [] {
      assert a + b == a;
    } else {
      assert Init(a + b) == a + Init(b);
      PartIdsAppend(a, Init(b));
    }
  }

  /** A part the converter rejects (an unparseable url, a missing or falsy
      id, an unknown type) leaves no trace: the converted parts and the
      collected ids are those of the array without it. */
  lemma SkippedPartInvisible(parse: string -> Option<Json>, items: seq<InPart>, k: nat)
    requires k < |items| && ConvertPart(parse, items[k]).None?
    ensures FilterMap(PartConverter(parse), items)
         == FilterMap(PartConverter(parse), items[..k] + items[k + 1..])
    ensures PartIds(FilterMap(PartConverter(parse), items))
         == PartIds(FilterMap(PartConverter(parse), items[..k] + items[k + 1..]))
  {
    FilterMapSkip(PartConverter(parse), items, k);
  }

  /** A `parts` array takes precedence: whatever `content` holds is then ignored. */
  lemma PartsArrayWins(parse: string -> Option<Json>, m: InMessage, c: InContent)
    requires m.parts.Some?
    ensures ConvertMessage(parse, m) == ConvertMessage(parse, m.(content := c))
  {
  }

  /** Without a `parts` array, a `content` array is read part by part and a
      string `content` becomes exactly one text part with that string. */
  lemma ContentFallback(parse: string -> Option<Json>, m: InMessage)
    requires m.parts.None?
    ensures m.content.PartList? ==>
      ConvertMessage(parse, m).content == (if FilterMap(PartConverter(parse), m.content.parts) == []
        then [TextPart("")] else FilterMap(PartConverter(parse), m.content.parts))
    ensures m.content.TextContent? ==> ConvertMessage(parse, m).content == [TextPart(m.content.s)]
    ensures m.content.OtherContent? ==> ConvertMessage(parse, m).content == [TextPart("")]
  {
  }

  /** The loop over one `parts`/`content` array: it pushes each accepted part
      and records the id of each file part. */
  method CollectParts(parse: string -> Option<Json>, items: seq<InPart>)
    returns (parts: seq<ConvertedPart>, ids: seq<Json>)
    ensures parts == FilterMap(PartConverter(parse), items)
    ensures ids == PartIds(parts) == FilterMap(IdReader(parse), items)
  {
    parts := [];
    ids := [];
    var k := 0;
    while k < |items|
      invariant k <= |items|
      invariant parts == FilterMap(PartConverter(parse), items[..k])
      invariant ids == PartIds(parts)
    {
      var converted, id := CollectPart(parse, items[k]);
      NextPart(parse, items, k);
      if converted.Some? {
        PartIdsSnoc(parts, converted.value);
        parts := parts + [converted.value];
      }
      ids := ids + id;
      k := k + 1;
    }
    assert items[..k] == items;
    IdsOfConvertedParts(parse, items);
  }

  /** The body of the part loop: a text part is pushed with its text; a file
      part whose `url` parses to a value with a truthy `id` is pushed as a
      file reference and its id recorded; anything else is passed over. */
  method CollectPart(parse: string -> Option<Json>, part: InPart)
    returns (converted: Option<ConvertedPart>, id: seq<Json>)
    ensures converted == ConvertPart(parse, part)
    ensures id == if converted.Some? && converted.value.FilePart? then [converted.value.fileId] else []
  {
    converted, id := None, [];
    if part.kind == "text" {
      converted := Some(TextPart(PartText(part)));
    } else if part.kind == "file" && Given(part.url) {
      var fileData := parse(part.url.value);
      if fileData.Some? {
        var fileId := Member(fileData.value, "id");
        if fileId.Some? && Truthy(fileId.value) {
          id := [fileId.value];
          converted := Some(FilePart(fileId.value));
        }
      }
    }
  }

  lemma NextPart(parse: string -> Option<Json>, items: seq<InPart>, k: nat)
    requires k < |items|
    ensures var c := ConvertPart(parse, items[k]);
      FilterMap(PartConverter(parse), items[..k + 1])
        == FilterMap(PartConverter(parse), items[..k]) + if c.Some? then [c.value] else []
  {
    FilterMapSnoc(PartConverter(parse), items, k);
  }

  lemma PartIdsSnoc(parts: seq<ConvertedPart>, p: ConvertedPart)
    ensures PartIds(parts + [p]) == PartIds(parts) + if p.FilePart? then [p.fileId] else []
  {
    assert Init(parts + [p]) == parts;
  }

  /** `messages.map(...)`: the converted list, message by message. */
  function ConvertAll(parse: string -> Option<Json>, messages: seq<InMessage>): seq<ConvertedMessage>
  {
    seq(|messages|, k requires 0 <= k < |messages| => ConvertMessage(parse, messages[k]))
  }

  lemma ConvertAllSnoc(parse: string -> Option<Json>, messages: seq<InMessage>, m: nat)
    requires m < |messages|
    ensures ConvertAll(parse, messages[..m + 1]) == ConvertAll(parse, messages[..m]) + [ConvertMessage(parse, messages[m])]
  {
  }

  /** The loop body for one message: its converted form and the ids it adds. */
  method ConvertOne(parse: string -> Option<Json>, msg: InMessage)
    returns (converted: ConvertedMessage, ids: seq<Json>)
    ensures converted == ConvertMessage(parse, msg)
    ensures ids == PartIds(converted.content)
  {
    var parts: seq<ConvertedPart> := [];
    ids := [];
    if msg.parts.Some? {
      parts, ids := CollectParts(parse, msg.parts.value);
    } else if msg.content.PartList? {
      parts, ids := CollectParts(parse, msg.content.parts);
    } else if msg.content.TextContent? {
      parts := [TextPart(msg.content.s)];
      assert Init(parts) == [];
    }
    var content := if |parts| > 0 then parts else [TextPart("")];
    assert PartIds(content) == ids by {
      if parts == [] { assert Init(content) == []; }
    }
    converted := ConvertedMessage(msg.role, content);
  }

  /** `messages.map(...)` with the shared `fileIds` array: every message is
      converted in its own position, and the ids are collected across the
      whole conversation in encounter order. */
  method ConvertMessages(parse: string -> Option<Json>, messages: seq<InMessage>)
    returns (converted: seq<ConvertedMessage>, fileIds: seq<Json>)
    ensures converted == ConvertAll(parse, messages)
    ensures fileIds == FileIdsOf(converted)
  {
    converted := [];
    fileIds := [];
    var m := 0;
    while m < |messages|
      invariant m <= |messages|
      invariant converted == ConvertAll(parse, messages[..m])
      invariant fileIds == FileIdsOf(converted)
    {
      var c, ids := ConvertOne(parse, messages[m]);
      ConvertAllSnoc(parse, messages, m);
      FileIdsSnoc(converted, c);
      fileIds := fileIds + ids;
      converted := converted + [c];
      m := m + 1;
    }
    assert messages[..m] == messages;
  }

  // ---------------------------------------------------------------------
  // The outbound request
  // ---------------------------------------------------------------------

  /** `{ type: 'file', id }`. */
  datatype FileRef = FileRef(kind: string, id: Json)

  datatype OutMessage = OutMessage(role: string, content: string)

  datatype OutboundRequest = OutboundRequest(
    model: string,
    messages: seq<OutMessage>,
    stream: bool,
    files: Option<seq<FileRef>>)

  const DefaultModel: string := "gpt-4o-mini"

  /** What a converted part contributes to the flat content: its text, or
      nothing for a file. */
  function PartString(p: ConvertedPart): string
  {
    if p.TextPart? then p.text else ""
  }

  /** `content.map(...).join(' ').trim()`. */
  function FlatContent(parts: seq<ConvertedPart>): string
  {
    Trim(Join(seq(|parts|, k requires 0 <= k < |parts| => PartString(parts[k])), " "))
  }

  /** The request body posted upstream. Roles and message order are kept;
      `files` is present exactly when an id was collected, with one
      `{type: "file", id}` per id in collection order. */
  function BuildRequest(defaultModel: Option<string>, converted: seq<ConvertedMessage>, fileIds: seq<Json>)
    : (r: OutboundRequest)
    ensures r.model == (if Given(defaultModel) then defaultModel.value else DefaultModel)
    ensures |r.messages| == |converted|
    ensures forall k :: 0 <= k < |converted| ==>
      r.messages[k] == OutMessage(converted[k].role, FlatContent(converted[k].content))
    ensures r.stream
    ensures r.files.Some? <==> |fileIds| > 0
    ensures r.files.Some? ==> (|r.files.value| == |fileIds|
      && forall k :: 0 <= k < |fileIds| ==> r.files.value[k] == FileRef("file", fileIds[k]))
  {
    OutboundRequest(
      if Given(defaultModel) then defaultModel.value else DefaultModel,
      seq(|converted|, k requires 0 <= k < |converted| =>
        OutMessage(converted[k].role, FlatContent(converted[k].content))),
      true,
      if |fileIds| > 0 then Some(seq(|fileIds|, k requires 0 <= k < |fileIds| => FileRef("file", fileIds[k])))
      else None)
  }

  lemma {:induction false} JoinBlank(parts: seq<string>, k: int)
    requires forall i :: 0 <= i < |parts| ==> parts[i] == ""
    requires 0 <= k < |Join(parts, " ")|
    ensures Join(parts, " ")[k] == ' '
    decreases |parts|
  {
    if |parts| > 1 {
      var left := Join(Init(parts), " ");
      if k < |left| {
        JoinBlank(Init(parts), k);
      }
    }
  }

  /** A message made only of file parts is sent with empty content: the
      files contribute empty strings and the spaces between them are trimmed. */
  lemma FileOnlyContentEmpty(parts: seq<ConvertedPart>)
    requires forall k :: 0 <= k < |parts| ==> parts[k].FilePart?
    ensures FlatContent(parts) == ""
  {
    var strs := seq(|parts|, k requires 0 <= k < |parts| => PartString(parts[k]));
    forall k | 0 <= k < |Join(strs, " ")| ensures IsSpace(Join(strs, " ")[k]) {
      JoinBlank(strs, k);
    }
    TrimEmptyIffBlank(Join(strs, " "));
  }

  /** A string `content` is sent trimmed and otherwise as is. */
  lemma StringContentSent(parse: string -> Option<Json>, m: InMessage)
    requires m.parts.None? && m.content.TextContent?
    ensures FlatContent(ConvertMessage(parse, m).content) == Trim(m.content.s)
  {
    var parts := ConvertMessage(parse, m).content;
    assert MessageParts(parse, m) == [TextPart(m.content.s)];
    var strs := seq(|parts|, k requires 0 <= k < |parts| => PartString(parts[k]));
    assert strs == [m.content.s];
    assert Join(strs, " ") == m.content.s;
  }

  // ---------------------------------------------------------------------
  // Decoding upstream lines and re-emitting them
  // ---------------------------------------------------------------------

  /** `parsed.choices?.[0]?.delta?.content`. */
  function ChoiceContent(parsed: Json): Option<Json>
  {
    match Member(parsed, "choices")
    case None => None
    case Some(choices) =>
      match Index0(choices)
      case None => None
      case Some(choice) =>
        match Member(choice, "delta")
        case None => None
        case Some(delta) => Member(delta, "content")
  }

  /** The content a non-blank line carries, if it is truthy. A `data: `
      line is read as an OpenAI-style chunk, a `0:` line as a JSON-encoded
      token; `data: [DONE]`, any other line and any parse failure give
      nothing. */
  function DecodeLine(parse: string -> Option<Json>, line: string): Option<Json>
  {
    var content :=
      if StartsWith(line, "data: ") then
        var data := Trim(line[6..]);
        if data == "[DONE]" then None
        else match parse(data)
          case None => None
          case Some(parsed) => ChoiceContent(parsed)
      else if StartsWith(line, "0:") then parse(Trim(line[2..]))
      else None;
    if content.Some? && Truthy(content.value) then content else None
  }

  /** Content is truthy and comes only from a `data: ` or a `0:` line;
      the end marker yields none. */
  lemma DecodeLineShapes(parse: string -> Option<Json>, line: string)
    ensures DecodeLine(parse, line).Some? ==> Truthy(DecodeLine(parse, line).value)
    ensures DecodeLine(parse, line).Some? ==> StartsWith(line, "data: ") || StartsWith(line, "0:")
    ensures StartsWith(line, "data: ") && Trim(line[6..]) == "[DONE]" ==> DecodeLine(parse, line).None?
  {
  }

  /** What one complete line produces: blank lines are skipped. */
  function LineContent(parse: string -> Option<Json>, line: string): Option<Json>
  {
    if Trim(line) == "" then None else DecodeLine(parse, line)
  }

  /** The chunk object one piece of content is wrapped in. */
  function ChoicesChunk(content: Json): Json
  {
    JObj([Field("choices", JArr([JObj([
      Field("delta", JObj([Field("content", JArr([JObj([
        Field("type", JStr("text")), Field("text", content)])]))])),
      Field("index", JNum(0)),
      Field("finish_reason", JNull)])]))])
  }

  /** The event emitted for one piece of content. */
  function Frame(content: Json): string
  {
    "data: " + Stringify(ChoicesChunk(content)) + "\n\n"
  }

  const DoneFrame: string := "data: [DONE]\n\n"

  function RouteDecoder(parse: string -> Option<Json>): string -> Option<string>
  {
    line => match LineContent(parse, line) case Some(c) => Some(Frame(c)) case None => None
  }

  /** The frames one complete line yields: none or one. */
  function LineFrames(parse: string -> Option<Json>, line: string): seq<string>
  {
    match LineContent(parse, line) case Some(c) => [Frame(c)] case None => []
  }

  /** Decoding one more line appends that line's frames. */
  lemma NextLine(parse: string -> Option<Json>, lines: seq<string>, k: nat)
    requires k < |lines|
    ensures FilterMap(RouteDecoder(parse), lines[..k + 1])
         == FilterMap(RouteDecoder(parse), lines[..k]) + LineFrames(parse, lines[k])
  {
    FilterMapSnoc(RouteDecoder(parse), lines, k);
  }

  /** The frames emitted for the complete lines of the chunks received. */
  function RouteFrames(parse: string -> Option<Json>, chunks: seq<string>): seq<string>
  {
    Decoded(RouteDecoder(parse), chunks)
  }

  /** Each frame is one `data:` line followed by the blank line that
      dispatches it as an event; the event's data is the chunk JSON. */
  lemma FrameIsOneEvent(content: Json)
    ensures CompleteLines(Frame(content)) == ["data: " + Stringify(ChoicesChunk(content)), ""]
    ensures Pending(Frame(content)) == ""
  {
    StringifyOneLine(ChoicesChunk(content));
    DataEvent(Stringify(ChoicesChunk(content)));
  }

  /** A `0:` line carrying a JSON string yields a frame with that text
      when the string is non-empty, and nothing when it is empty. */
  lemma TokenLine(parse: string -> Option<Json>, s: string)
    requires InvertsStringify(parse)
    ensures s != "" ==> LineContent(parse, "0:" + Quote(s)) == Some(JStr(s))
    ensures s != "" ==> RouteDecoder(parse)("0:" + Quote(s)) == Some(Frame(JStr(s)))
    ensures s == "" ==> RouteDecoder(parse)("0:" + Quote(s)).None?
  {
    TrimNoop(Quote(s));
    ParseQuoted(parse, s);
    ZeroLine(parse, Quote(s));
  }

  /** A `0:` line whose payload is already trimmed and starts with no blank
      is decoded by parsing that payload. */
  lemma ZeroLine(parse: string -> Option<Json>, payload: string)
    requires |payload| > 0 && !IsSpace(payload[0]) && Trim(payload) == payload
    ensures LineContent(parse, "0:" + payload)
         == (match parse(payload) case Some(v) => if Truthy(v) then Some(v) else None case None => None)
  {
    var line := "0:" + payload;
    assert line[2..] == payload;
    assert StartsWith(line, "0:");
    assert !StartsWith(line, "data: ") by {
      assert line[0] == '0';
    }
    assert Trim(line) != "" by {
      TrimEmptyIffBlank(line);
      assert !IsSpace(line[0]);
    }
  }

  /** Frames for text received in two halves are the frames of the first
      half's lines followed by those of the lines completed afterwards;
      frames are emitted in line order and never revised. */
  lemma FramesInLineOrder(parse: string -> Option<Json>, chunks: seq<string>, more: seq<string>)
    ensures RouteFrames(parse, chunks + more)
         == RouteFrames(parse, chunks)
          + FilterMap(RouteDecoder(parse), CompleteLines(Pending(Concat(chunks)) + Concat(more)))
  {
    ConcatAppend(chunks, more);
    Feed(Concat(chunks), Concat(more));
    FilterMapAppend(RouteDecoder(parse), CompleteLines(Concat(chunks)),
      CompleteLines(Pending(Concat(chunks)) + Concat(more)));
  }

  /** A fragment after the last line feed yields no frame, whatever it holds. */
  lemma TrailingFragmentDropped(parse: string -> Option<Json>, chunks: seq<string>, fragment: string)
    requires Pending(Concat(chunks)) == "" && OneLine(fragment)
    ensures RouteFrames(parse, chunks + [fragment]) == RouteFrames(parse, chunks)
  {
    FragmentDropped(RouteDecoder(parse), chunks, fragment);
  }

  /** Receiving chunk `i` extends the frames of the first `i` chunks by the
      frames of the lines the buffer and that chunk complete, and leaves the
      buffer holding what follows their last line feed. */
  lemma NextChunk(parse: string -> Option<Json>, chunks: seq<string>, i: nat)
    requires i < |chunks|
    ensures var held := Pending(Concat(chunks[..i]));
      && Pending(Concat(chunks[..i + 1])) == Pending(held + chunks[i])
      && RouteFrames(parse, chunks[..i + 1])
         == RouteFrames(parse, chunks[..i]) + FilterMap(RouteDecoder(parse), CompleteLines(held + chunks[i]))
  {
    DecodedNext(RouteDecoder(parse), chunks, i);
  }

  /** The stream handed back to the client. */
  class ChatStream {
    var buffer: string
    var isStreamActive: bool
    var enqueued: seq<string>
    var errored: bool
    var lockReleased: bool

    constructor ()
      ensures buffer == "" && isStreamActive && enqueued == [] && !errored && !lockReleased
    {
      buffer := "";
      isStreamActive := true;
      enqueued := [];
      errored := false;
      lockReleased := false;
    }

    /** `cancel()`: clears the flag; nothing already enqueued changes. */
    method Cancel()
      modifies this`isStreamActive
      ensures !isStreamActive
      ensures buffer == old(buffer) && enqueued == old(enqueued)
      ensures errored == old(errored) && lockReleased == old(lockReleased)
    {
      isStreamActive := false;
    }

    /** One chunk of the read loop: the chunk is appended to the buffer,
        every line it completes is decoded in order, and what follows the
        last line feed stays buffered. */
    method Receive(parse: string -> Option<Json>, chunk: string)
      requires isStreamActive
      modifies this`buffer, this`enqueued
      ensures buffer == Pending(old(buffer) + chunk)
      ensures enqueued == old(enqueued) + FilterMap(RouteDecoder(parse), CompleteLines(old(buffer) + chunk))
    {
      var lines := SplitOn(buffer + chunk, "\n");
      buffer := Last(lines);
      EmitLines(parse, Init(lines));
    }

    /** `for (const line of lines)`: each line in turn, frames in line order. */
    method EmitLines(parse: string -> Option<Json>, lines: seq<string>)
      requires isStreamActive
      modifies this`enqueued
      ensures enqueued == old(enqueued) + FilterMap(RouteDecoder(parse), lines)
    {
      ghost var start := enqueued;
      var k := 0;
      while k < |lines|
        invariant k <= |lines|
        invariant enqueued == start + FilterMap(RouteDecoder(parse), lines[..k])
      {
        HandleLine(parse, lines[k]);
        NextLine(parse, lines, k);
        k := k + 1;
      }
      assert lines[..k] == lines;
    }

    /** The body of the line loop: a blank line is skipped, any other line
        enqueues one frame when it carries content. */
    method HandleLine(parse: string -> Option<Json>, line: string)
      requires isStreamActive
      modifies this`enqueued
      ensures enqueued == old(enqueued) + LineFrames(parse, line)
    {
      var content := LineContent(parse, line);
      if content.Some? {
        enqueued := enqueued + [Frame(content.value)];
      }
    }

    /** The read loop's step on chunk `i`: what held for the first `i`
        chunks now holds for the first `i + 1`. */
    method ReadChunk(parse: string -> Option<Json>, chunks: seq<string>, i: nat)
      requires i < |chunks| && isStreamActive
      requires buffer == Pending(Concat(chunks[..i])) && enqueued == RouteFrames(parse, chunks[..i])
      modifies this`buffer, this`enqueued
      ensures buffer == Pending(Concat(chunks[..i + 1])) && enqueued == RouteFrames(parse, chunks[..i + 1])
    {
      Receive(parse, chunks[i]);
      NextChunk(parse, chunks, i);
    }

    /** The read after the last chunk settles: a clean end enqueues
        `[DONE]`, a failed read errors the stream, and a cancellation that
        arrived meanwhile leaves both undone. */
    method Settle(ending: Ending)
      requires isStreamActive && !errored
      modifies this`isStreamActive, this`errored, this`enqueued
      ensures enqueued == old(enqueued) + (if ending.EndOfStream? then [DoneFrame] else [])
      ensures errored <==> ending.ReadFailed?
    {
      if ending.Cancelled? {
        Cancel();
      }
      if ending.ReadFailed? {
        if isStreamActive {
          errored := true;
        }
      } else if isStreamActive {
        enqueued := enqueued + [DoneFrame];
      }
    }

    /** `start(controller)`: reads every chunk, hands each complete line to the
        decoder and enqueues one frame per piece of content. When the
        upstream ends, `[DONE]` is the last frame; when the read fails the
        stream is errored; when the client cancels, nothing follows the
        frames already enqueued. An unterminated fragment stays in the buffer
        and is never decoded, and the reader lock is released on every exit. */
    method Start(parse: string -> Option<Json>, upstream: Upstream)
      requires buffer == "" && isStreamActive && enqueued == [] && !errored && !lockReleased
      modifies this
      ensures enqueued == RouteFrames(parse, upstream.chunks)
                        + (if upstream.ending.EndOfStream? then [DoneFrame] else [])
      ensures buffer == Pending(Concat(upstream.chunks))
      ensures errored <==> upstream.ending.ReadFailed?
      ensures !isStreamActive && lockReleased
    {
      var chunks := upstream.chunks;
      var i := 0;
      assert chunks[..0] == [];
      while isStreamActive
        invariant 0 <= i <= |chunks|
        invariant isStreamActive && !errored && !lockReleased
        invariant buffer == Pending(Concat(chunks[..i]))
        invariant enqueued == RouteFrames(parse, chunks[..i])
        decreases |chunks| - i
      {
        if i == |chunks| {
          Settle(upstream.ending);
          assert chunks[..i] == chunks;
          break;
        }
        ReadChunk(parse, chunks, i);
        i := i + 1;
      }
      isStreamActive := false;
      lockReleased := true;
    }
  }

  // ---------------------------------------------------------------------
  // The endpoint
  // ---------------------------------------------------------------------

  /** The request as the conversion sees it: the `messages` array of the
      body, or the message of whatever was thrown before the upstream
      request was built. That covers a body `req.json()` cannot read, a
      `messages` that is missing or not an array (`messages.map` throws),
      and a `null` message or part (reading `msg.parts` or `part.type`
      throws); all of them end in the same 500 reply. */
  datatype Inbound = Parsed(messages: seq<InMessage>) | Unreadable(message: string)

  datatype Reply =
    | JsonReply(status: int, body: Json)
    | EventStream(frames: seq<string>, errored: bool)

  function ErrorJson(error: string, details: Option<string>): Json
  {
    JObj([Field("error", JStr(error))] + if details.Some? then [Field("details", JStr(details.value))] else [])
  }

  /** The reply once the upstream request has been made. */
  function Respond(parse: string -> Option<Json>, upstream: UpstreamReply): (r: Reply)
    ensures r.EventStream? <==> upstream.Responded? && Ok(upstream.status) && upstream.body.Some?
    ensures upstream.Responded? && !Ok(upstream.status) ==>
      r == JsonReply(upstream.status, ErrorJson("OpenWebUI failed", Some(upstream.text)))
    ensures r.JsonReply? && upstream.Responded? && Ok(upstream.status) ==>
      r == JsonReply(500, ErrorJson("No response body", None))
    ensures upstream.FetchFailed? ==>
      r == JsonReply(500, ErrorJson("Failed to process chat request", Some(upstream.message)))
  {
    match upstream
    case FetchFailed(message) => JsonReply(500, ErrorJson("Failed to process chat request", Some(message)))
    case Responded(status, text, body) =>
      if !Ok(status) then JsonReply(status, ErrorJson("OpenWebUI failed", Some(text)))
      else match body
        case None => JsonReply(500, ErrorJson("No response body", None))
        case Some(up) =>
          EventStream(RouteFrames(parse, up.chunks) + (if up.ending.EndOfStream? then [DoneFrame] else []),
                      up.ending.ReadFailed?)
  }

  /** `POST`: nothing is sent upstream for an unreadable body or an empty
      message list; otherwise the request carries the converted messages
      and the collected file ids, and the reply is decided by the upstream. */
  method Post(parse: string -> Option<Json>, defaultModel: Option<string>, inbound: Inbound, upstream: UpstreamReply)
    returns (request: Option<OutboundRequest>, reply: Reply)
    ensures inbound.Unreadable? ==> (request.None?
      && reply == JsonReply(500, ErrorJson("Failed to process chat request", Some(inbound.message))))
    ensures inbound.Parsed? && inbound.messages == [] ==> (request.None?
      && reply == JsonReply(400, ErrorJson("No valid messages", None)))
    ensures inbound.Parsed? && inbound.messages != [] ==>
      var converted := ConvertAll(parse, inbound.messages);
      && request == Some(BuildRequest(defaultModel, converted, FileIdsOf(converted)))
      && reply == Respond(parse, upstream)
  {
    if inbound.Unreadable? {
      return None, JsonReply(500, ErrorJson("Failed to process chat request", Some(inbound.message)));
    }
    var converted, fileIds := ConvertMessages(parse, inbound.messages);
    if |converted| == 0 {
      return None, JsonReply(400, ErrorJson("No valid messages", None));
    }
    request := Some(BuildRequest(defaultModel, converted, fileIds));
    match upstream {
      case FetchFailed(message) =>
        reply := JsonReply(500, ErrorJson("Failed to process chat request", Some(message)));
      case Responded(status, text, body) =>
        if !Ok(status) {
          reply := JsonReply(status, ErrorJson("OpenWebUI failed", Some(text)));
        } else if body.None? {
          reply := JsonReply(500, ErrorJson("No response body", None));
        } else {
          var stream := new ChatStream();
          stream.Start(parse, body.value);
          reply := EventStream(stream.enqueued, stream.errored);
        }
    }
  }
}
