/** The client-side chat adapter (`OpenWebUIAdapter`). It keeps the ids of
    the files attached since the last completed turn, normalises the
    thread's messages, posts them with those ids to the chat endpoint and
    reads the reply as server-sent events, yielding after every
    `text-delta` event the text accumulated so far. */
module Adapter {
  import opened Seqs
  import opened Text
  import opened Json
  import opened LineReassembly
  import opened Messages

  // ---------------------------------------------------------------------
  // The file id set
  // ---------------------------------------------------------------------

  predicate Distinct(s: seq<string>)
  {
    forall i, j :: 0 <= i < j < |s| ==> s[i] != s[j]
  }

  /** `Set.prototype.add`, the set kept in insertion order as
      `Array.from` lists it: a new id goes last, a known id changes nothing. */
  function Add(s: seq<string>, id: string): seq<string>
  {
    if id in s then s else s + [id]
  }

  /** `ids.forEach(id => set.add(id))`. */
  function AddAll(s: seq<string>, ids: seq<string>): seq<string>
  {
    if ids == [] then s else Add(AddAll(s, Init(ids)), Last(ids))
  }

  /** Adding keeps the set a set: no id is listed twice. */
  lemma {:induction false} AddAllDistinct(s: seq<string>, ids: seq<string>)
    requires Distinct(s)
    ensures Distinct(AddAll(s, ids))
    decreases |ids|
  {
    if ids != [] {
      AddAllDistinct(s, Init(ids));
    }
  }

  /** Adding is set union: the ids present afterwards are exactly those
      present before and those added. */
  lemma {:induction false} AddAllMembers(s: seq<string>, ids: seq<string>)
    ensures forall x :: x in AddAll(s, ids) <==> x in s || x in ids
    decreases |ids|
  {
    if ids != [] {
      AddAllMembers(s, Init(ids));
      assert ids == Init(ids) + [Last(ids)];
    }
  }

  /** Ids already present keep their place: the old listing is a prefix of the new one. */
  lemma {:induction false} AddAllKeepsOrder(s: seq<string>, ids: seq<string>)
    ensures s <= AddAll(s, ids)
    decreases |ids|
  {
    if ids != [] {
      AddAllKeepsOrder(s, Init(ids));
    }
  }

  /** Adding ids that are all present already changes nothing. */
  lemma {:induction false} AddAllPresent(s: seq<string>, ids: seq<string>)
    requires forall k :: 0 <= k < |ids| ==> ids[k] in s
    ensures AddAll(s, ids) == s
    decreases |ids|
  {
    if ids != [] {
      AddAllPresent(s, Init(ids));
      assert Last(ids) == ids[|ids| - 1];
    }
  }

  /** Adding the same ids twice leaves the same set as adding them once. */
  lemma AddAllIdempotent(s: seq<string>, ids: seq<string>)
    ensures AddAll(AddAll(s, ids), ids) == AddAll(s, ids)
  {
    AddAllMembers(s, ids);
    AddAllPresent(AddAll(s, ids), ids);
  }

  /** Two calls in a row are one call with both lists. */
  lemma {:induction false} AddAllAppend(s: seq<string>, a: seq<string>, b: seq<string>)
    ensures AddAll(AddAll(s, a), b) == AddAll(s, a + b)
    decreases |b|
  {
    if b == [] {
      assert a + b == a;
    } else {
      assert Init(a + b) == a + Init(b);
      AddAllAppend(s, a, Init(b));
    }
  }

  // ---------------------------------------------------------------------
  // Message normalisation
  // ---------------------------------------------------------------------

  datatype NormalMessage = NormalMessage(role: string, content: string)

  /** `.filter(p => p.type === 'text').map(p => p.text || '')` on one part. */
  function TextOnly(p: InPart): Option<string>
  {
    if p.kind == "text" then Some(OrEmpty(p.text)) else None
  }

  /** The text of a part array: the text parts' texts joined with `''`. */
  function TextOfParts(parts: seq<InPart>): string
  {
    Concat(FilterMap(TextOnly, parts))
  }

  /** The content before trimming: a string `content`, else the text of a
      `content` array, else the text of a `parts` array, else nothing. */
  function RawContent(m: InMessage): string
  {
    match m.content
    case TextContent(s) => s
    case PartList(parts) => TextOfParts(parts)
    case OtherContent => if m.parts.Some? then TextOfParts(m.parts.value) else ""
  }

  /** `messages.map(...)`: one message out per message in, in order, with
      its role and its trimmed content. */
  function Normalize(messages: seq<InMessage>): (r: seq<NormalMessage>)
    ensures |r| == |messages|
    ensures forall i :: 0 <= i < |r| ==> r[i].role == messages[i].role
    ensures forall i :: 0 <= i < |r| ==> r[i].content == Trim(RawContent(messages[i]))
  {
    seq(|messages|, i requires 0 <= i < |messages| => NormalMessage(messages[i].role, Trim(RawContent(messages[i]))))
  }

  /** A normalised content neither starts nor ends with white space. */
  lemma NormalizedTrimmed(messages: seq<InMessage>, i: nat)
    requires i < |messages|
    ensures var c := Normalize(messages)[i].content;
      c == [] || (!IsSpace(c[0]) && !IsSpace(c[|c| - 1]))
  {
    TrimEnds(RawContent(messages[i]));
  }

  /** A part that is not a text part contributes nothing: removing it
      leaves the text unchanged. */
  lemma NonTextPartIgnored(parts: seq<InPart>, k: nat)
    requires k < |parts| && parts[k].kind != "text"
    ensures TextOfParts(parts) == TextOfParts(parts[..k] + parts[k + 1..])
  {
    FilterMapSkip(TextOnly, parts, k);
  }

  /** Text parts are read in array order: the text of two arrays back to
      back is the text of the first followed by that of the second. */
  lemma TextOfPartsAppend(a: seq<InPart>, b: seq<InPart>)
    ensures TextOfParts(a + b) == TextOfParts(a) + TextOfParts(b)
  {
    FilterMapAppend(TextOnly, a, b);
    ConcatAppend(FilterMap(TextOnly, a), FilterMap(TextOnly, b));
  }

  /** A string `content` is used as it is, whatever `parts` holds. */
  lemma StringContentFirst(m: InMessage)
    requires m.content.TextContent?
    ensures Normalize([m])[0].content == Trim(m.content.s)
  {
  }

  // ---------------------------------------------------------------------
  // The request
  // ---------------------------------------------------------------------

  function MessageJson(m: NormalMessage): Json
  {
    JObj([Field("role", JStr(m.role)), Field("content", JStr(m.content))])
  }

  function IdsJson(ids: seq<string>): Json
  {
    JArr(seq(|ids|, k requires 0 <= k < |ids| => JStr(ids[k])))
  }

  /** The body `JSON.stringify` serialises: the normalised messages, and
      `fileIds` set to the snapshot, or left `undefined` (and so dropped)
      when the snapshot is empty. */
  function RequestBody(messages: seq<InMessage>, snapshot: seq<string>): (r: Json)
    ensures Member(r, "fileIds") == (if snapshot != [] then Some(IdsJson(snapshot)) else None)
    ensures Member(r, "messages").Some?
    ensures var ms := Member(r, "messages").value;
      ms.JArr? && |ms.items| == |messages|
      && forall i :: 0 <= i < |messages| ==> ms.items[i] == MessageJson(Normalize(messages)[i])
  {
    var normal := Normalize(messages);
    var ms := Field("messages", JArr(seq(|normal|, i requires 0 <= i < |normal| => MessageJson(normal[i]))));
    if snapshot != [] then
      TwoFields(ms, Field("fileIds", IdsJson(snapshot)));
      JObj([ms, Field("fileIds", IdsJson(snapshot))])
    else
      JObj([ms])
  }

  // ---------------------------------------------------------------------
  // Reading the reply
  // ---------------------------------------------------------------------

  /** The delta one line carries. The line is trimmed; it must be a
      `data: ` line whose payload is not `[DONE]` and parses to an event
      of type `text-delta` with a truthy `delta`. Anything else, a parse
      failure included, gives nothing and the loop goes on. */
  function LineDelta(parse: string -> Option<Json>, line: string): (r: Option<Json>)
    ensures r.Some? ==> Truthy(r.value)
    ensures r.Some? ==> StartsWith(Trim(line), "data: ") && Trim(line)[6..] != "[DONE]"
  {
    var t := Trim(line);
    if t == "" || !StartsWith(t, "data: ") then None
    else
      var data := t[6..];
      if data == "[DONE]" then None
      else match parse(data)
        case None => None
        case Some(parsed) =>
          if Member(parsed, "type") != Some(JStr("text-delta")) then None
          else match Member(parsed, "delta")
            case Some(d) => if Truthy(d) then Some(d) else None
            case None => None
  }

  /** `accumulatedText += content` appends the delta as `String(delta)`.
      When that conversion throws (a delta hiding a `toString` member),
      the `catch` logs it and the line is skipped like any other. */
  function DeltaReader(parse: string -> Option<Json>): string -> Option<string>
  {
    line => match LineDelta(parse, line) case Some(d) => JsToString(d) case None => None
  }

  /** A line reads as text exactly when it carries a delta that prints;
      a delta hiding a `toString` member is skipped. */
  lemma ReadsPrintedDelta(parse: string -> Option<Json>, line: string)
    ensures DeltaReader(parse)(line).Some? <==>
      LineDelta(parse, line).Some? && !HidesToString(LineDelta(parse, line).value)
    ensures DeltaReader(parse)(line).Some? ==>
      JsToString(LineDelta(parse, line).value) == DeltaReader(parse)(line)
  {
    if LineDelta(parse, line).Some? {
      ToStringThrows(LineDelta(parse, line).value);
    }
  }

  /** The deltas read from the complete lines of the chunks received. */
  function TurnDeltas(parse: string -> Option<Json>, chunks: seq<string>): seq<string>
  {
    Decoded(DeltaReader(parse), chunks)
  }

  /** The texts yielded for the deltas `ds`: one per delta. */
  function Cumulative(ds: seq<string>): (r: seq<string>)
    ensures |r| == |ds|
  {
    if ds == [] then [] else Cumulative(Init(ds)) + [Concat(ds)]
  }

  /** The `i`-th yield carries the first `i + 1` deltas, concatenated. */
  lemma {:induction false} CumulativeAt(ds: seq<string>, i: nat)
    requires i < |ds|
    ensures Cumulative(ds)[i] == Concat(ds[..i + 1])
    decreases |ds|
  {
    if i < |ds| - 1 {
      CumulativeAt(Init(ds), i);
      assert Init(ds)[..i + 1] == ds[..i + 1];
    } else {
      assert ds[..i + 1] == ds;
    }
  }

  /** Every yield extends the previous ones: a later text is an earlier
      one followed by the deltas that came in between. */
  lemma CumulativeExtends(ds: seq<string>, i: nat, j: nat)
    requires i <= j < |ds|
    ensures Cumulative(ds)[j] == Cumulative(ds)[i] + Concat(ds[i + 1..j + 1])
  {
    var head, tail := ds[..i + 1], ds[i + 1..j + 1];
    CumulativeAt(ds, i);
    CumulativeAt(ds, j);
    PrefixSplit(ds, i + 1, j + 1);
    ConcatAppend(head, tail);
  }

  /** How a turn ended. */
  datatype Outcome =
    | Completed          // the stream ended normally
    | Threw(message: string)
    | Aborted            // the abort signal fired while a read was pending

  /** One call of `run`: the body posted, the texts yielded, how it ended,
      and whether the body's reader was left locked. */
  datatype Turn = Turn(request: Json, texts: seq<string>, outcome: Outcome, readerLocked: bool)

  /** How the read loop ends. */
  function EndingOutcome(e: Ending): Outcome
  {
    match e
    case EndOfStream => Completed
    case ReadFailed(reason) => Threw(reason)
    case Cancelled => Aborted
  }

  /** How a turn ends, given how the request settled: a rejected fetch and
      a failed read rethrow their error, a non-ok status and a missing body
      throw their own messages. */
  function TurnOutcome(reply: UpstreamReply): (r: Outcome)
    ensures reply.Responded? && !Ok(reply.status) ==>
      r == Threw("API error: " + IntToString(reply.status) + " - " + reply.text)
    ensures r.Completed? <==>
      reply.Responded? && Ok(reply.status) && reply.body.Some? && reply.body.value.ending.EndOfStream?
  {
    match reply
    case FetchFailed(message) => Threw(message)
    case Responded(status, text, body) =>
      if !Ok(status) then Threw("API error: " + IntToString(status) + " - " + text)
      else match body
        case None => Threw("No response body")
        case Some(up) => EndingOutcome(up.ending)
  }

  /** The texts a turn yields: those of every delta in the body's complete
      lines, and none when there is no readable body. */
  function TurnYields(parse: string -> Option<Json>, reply: UpstreamReply): seq<string>
  {
    if reply.Responded? && Ok(reply.status) && reply.body.Some?
    then Cumulative(TurnDeltas(parse, reply.body.value.chunks))
    else []
  }

  /** One line of the inner loop: a delta that prints is appended to the
      accumulated text and the new text yielded; a line without a delta,
      or whose delta throws when printed, changes nothing. */
  lemma DeltaStep(parse: string -> Option<Json>, done: seq<string>, lines: seq<string>, k: nat)
    requires k < |lines|
    ensures var before := done + FilterMap(DeltaReader(parse), lines[..k]);
      var after := done + FilterMap(DeltaReader(parse), lines[..k + 1]);
      var printed := if LineDelta(parse, lines[k]).Some? then JsToString(LineDelta(parse, lines[k]).value) else None;
      && (printed.None? ==> after == before)
      && (printed.Some? ==>
            && Concat(after) == Concat(before) + printed.value
            && Cumulative(after) == Cumulative(before) + [Concat(after)])
  {
    var f := DeltaReader(parse);
    FilterMapStep(f, lines, k);
    var before := done + FilterMap(f, lines[..k]);
    var after := done + FilterMap(f, lines[..k + 1]);
    assert after == before + FilterMap(f, [lines[k]]);
    assert Init([lines[k]]) == [];
    if f(lines[k]).Some? {
      assert Init(after) == before;
    } else {
      assert after == before;
    }
  }

  /** `for (const line of lines)`: every delta that prints is appended and
      yielded, in line order. */
  method YieldLines(parse: string -> Option<Json>, lines: seq<string>, ghost done: seq<string>,
                    accumulated: string, texts: seq<string>)
    returns (acc: string, ys: seq<string>)
    requires accumulated == Concat(done) && texts == Cumulative(done)
    ensures acc == Concat(done + FilterMap(DeltaReader(parse), lines))
    ensures ys == Cumulative(done + FilterMap(DeltaReader(parse), lines))
  {
    acc, ys := accumulated, texts;
    var k := 0;
    assert done + FilterMap(DeltaReader(parse), lines[..0]) == done;
    while k < |lines|
      invariant k <= |lines|
      invariant acc == Concat(done + FilterMap(DeltaReader(parse), lines[..k]))
      invariant ys == Cumulative(done + FilterMap(DeltaReader(parse), lines[..k]))
    {
      DeltaStep(parse, done, lines, k);
      var content := LineDelta(parse, lines[k]);
      if content.Some? {
        var printed := JsToString(content.value);
        if printed.Some? {
          acc := acc + printed.value;
          ys := ys + [acc];
        }
      }
      k := k + 1;
    }
    assert lines[..k] == lines;
  }

  /** The `while (true)` read loop: each chunk is appended to the buffer,
      the lines it completes are read, what follows the last line feed
      waits for the next chunk and is dropped at the end. */
  method ReadReply(parse: string -> Option<Json>, up: Upstream) returns (texts: seq<string>, outcome: Outcome)
    ensures texts == Cumulative(TurnDeltas(parse, up.chunks))
    ensures outcome == EndingOutcome(up.ending)
  {
    var chunks := up.chunks;
    var buffer := "";
    var accumulated := "";
    texts := [];
    var i := 0;
    assert chunks[..0] == [];
    while i < |chunks|
      invariant i <= |chunks|
      invariant buffer == Pending(Concat(chunks[..i]))
      invariant accumulated == Concat(TurnDeltas(parse, chunks[..i]))
      invariant texts == Cumulative(TurnDeltas(parse, chunks[..i]))
    {
      DecodedNext(DeltaReader(parse), chunks, i);
      var lines := SplitOn(buffer + chunks[i], "\n");
      buffer := Last(lines);
      accumulated, texts := YieldLines(parse, Init(lines), TurnDeltas(parse, chunks[..i]), accumulated, texts);
      i := i + 1;
    }
    assert chunks[..i] == chunks;
    outcome := EndingOutcome(up.ending);
  }

  class OpenWebUIAdapter {
    const apiEndpoint: string
    /** The pending file ids, in insertion order. */
    var fileIds: seq<string>

    ghost predicate Valid()
      reads this
    {
      Distinct(fileIds)
    }

    constructor (apiEndpoint: string)
      ensures this.apiEndpoint == apiEndpoint && fileIds == [] && Valid()
    {
      this.apiEndpoint := apiEndpoint;
      fileIds := [];
    }

    /** `addFileIds(ids)`: set union, ids new to the set appended in order. */
    method AddFileIds(ids: seq<string>)
      requires Valid()
      modifies this`fileIds
      ensures Valid() && fileIds == AddAll(old(fileIds), ids)
    {
      for k := 0 to |ids|
        invariant Distinct(fileIds) && fileIds == AddAll(old(fileIds), ids[..k])
      {
        assert Init(ids[..k + 1]) == ids[..k];
        if ids[k] !in fileIds {
          fileIds := fileIds + [ids[k]];
        }
      }
      assert ids[..|ids|] == ids;
    }

    /** `clearFileIds()`. */
    method ClearFileIds()
      modifies this`fileIds
      ensures fileIds == [] && Valid()
    {
      fileIds := [];
    }

    /** `getFileIds()`: a snapshot of the set, which stays as it is. */
    method GetFileIds() returns (ids: seq<string>)
      ensures ids == fileIds
    {
      ids := fileIds;
    }

    /** `run({ messages })`. The body carries the ids pending when the turn
        starts; `addedDuringTurn` are ids added by other callers while the
        turn awaits the reply. After a turn that completes with a
        non-empty snapshot the set is emptied, those later ids included;
        after any other turn it holds what it held plus the later ids.
        The reader lock is released only after a normal end of stream. */
    method Run(parse: string -> Option<Json>, messages: seq<InMessage>, reply: UpstreamReply,
               addedDuringTurn: seq<string>)
      returns (turn: Turn)
      requires Valid()
      modifies this`fileIds
      ensures Valid()
      ensures turn.request == RequestBody(messages, old(fileIds))
      ensures turn.texts == TurnYields(parse, reply)
      ensures turn.outcome == TurnOutcome(reply)
      ensures turn.readerLocked <==>
        reply.Responded? && Ok(reply.status) && reply.body.Some? && !turn.outcome.Completed?
      ensures fileIds == if turn.outcome.Completed? && old(fileIds) != [] then []
                         else AddAll(old(fileIds), addedDuringTurn)
    {
      var snapshot := GetFileIds();
      var request := RequestBody(messages, snapshot);
      AddFileIds(addedDuringTurn);
      var texts: seq<string> := [];
      var outcome: Outcome;
      var locked := false;
      match reply {
        case FetchFailed(message) =>
          outcome := Threw(message);
        case Responded(status, text, body) =>
          if !Ok(status) {
            outcome := Threw("API error: " + IntToString(status) + " - " + text);
          } else if body.None? {
            outcome := Threw("No response body");
          } else {
            texts, outcome := ReadReply(parse, body.value);
            locked := !outcome.Completed?;
          }
      }
      if outcome.Completed? && |snapshot| > 0 {
        ClearFileIds();
      }
      turn := Turn(request, texts, outcome, locked);
    }
  }
}
