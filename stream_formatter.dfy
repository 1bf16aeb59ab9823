/** The canonical frame encoder: each event is one server-sent event
    (section 9.2 of the WHATWG HTML Living Standard) whose `data` field is
    a JSON object with `type` first, then the formatter's message id when
    it has one, then the text when there is some. */
module Formatter {
  import opened Seqs
  import opened Text
  import opened Json
  import opened LineReassembly
  import opened Messages

  const DoneFrame: string := "data: [DONE]\n\n"

  /** The `data` of a one-line event frame `data: <payload>\n\n`. */
  function FrameData(frame: string): (r: Option<string>)
    ensures r.Some? ==> frame == "data: " + r.value + "\n\n"
  {
    if |frame| >= 8 && frame[..6] == "data: " && frame[|frame| - 2..] == "\n\n"
    then Some(frame[6..|frame| - 2]) else None
  }

  lemma FrameDataOf(payload: string)
    ensures FrameData("data: " + payload + "\n\n") == Some(payload)
  {
    var f := "data: " + payload + "\n\n";
    assert f[..6] == "data: " && f[|f| - 2..] == "\n\n" && f[6..|f| - 2] == payload;
  }

  datatype StreamFormatter = StreamFormatter(messageId: string)
  {
    /** The event object: `type` first, `id` exactly when the message id is
        non-empty, `delta` exactly when the content is non-empty. */
    function Event(kind: string, content: Option<string>): (r: Json)
      ensures r.JObj? && |r.fields| > 0 && r.fields[0] == Field("type", JStr(kind))
      ensures Member(r, "type") == Some(JStr(kind))
      ensures Member(r, "id") == (if messageId != "" then Some(JStr(messageId)) else None)
      ensures Member(r, "delta") == (if Given(content) then Some(JStr(content.value)) else None)
      ensures Portable(r)
    {
      EventFacts(kind, content);
      EventPortable(kind, content);
      JObj(EventFields(kind, content))
    }

    function EventFields(kind: string, content: Option<string>): seq<Field>
    {
      [Field("type", JStr(kind))]
        + (if messageId != "" then [Field("id", JStr(messageId))] else [])
        + (if Given(content) then [Field("delta", JStr(content.value))] else [])
    }

    /** Keys are distinct and every value is a string. */
    lemma EventPortable(kind: string, content: Option<string>)
      ensures Portable(JObj(EventFields(kind, content)))
    {
      var fields := EventFields(kind, content);
      assert forall i :: 0 <= i < |fields| ==> fields[i].value.JStr?;
      assert forall i :: 0 <= i < |fields| ==>
        (fields[i].key == ["type", "id", "delta"][i] || (i == 1 && fields[i].key == "delta"));
    }

    lemma EventFacts(kind: string, content: Option<string>)
      ensures var fields := EventFields(kind, content);
        && Lookup(fields, "type") == Some(JStr(kind))
        && Lookup(fields, "id") == (if messageId != "" then Some(JStr(messageId)) else None)
        && Lookup(fields, "delta") == (if Given(content) then Some(JStr(content.value)) else None)
    {
      var t := Field("type", JStr(kind));
      var i := Field("id", JStr(messageId));
      if messageId != "" && Given(content) {
        var d := Field("delta", JStr(content.value));
        assert EventFields(kind, content) == [t, i, d];
        ThreeFields(t, i, d);
      } else if messageId != "" {
        assert EventFields(kind, content) == [t, i];
        TwoFields(t, i);
      } else if Given(content) {
        var d := Field("delta", JStr(content.value));
        assert EventFields(kind, content) == [t, d];
        TwoFields(t, d);
      } else {
        assert EventFields(kind, content) == [t];
      }
    }

    /** `formatEvent(type, content)`: one event frame whose data is the
        event's JSON, read back as one `data:` line and the blank line that
        dispatches it. */
    function FormatEvent(kind: string, content: Option<string>): (r: string)
      ensures FrameData(r) == Some(Stringify(Event(kind, content)))
      ensures CompleteLines(r) == ["data: " + Stringify(Event(kind, content)), ""]
      ensures Pending(r) == ""
    {
      var payload := Stringify(Event(kind, content));
      FrameDataOf(payload);
      StringifyOneLine(Event(kind, content));
      EventLines("data: " + payload);
      "data: " + payload + "\n\n"
    }

    /** `startStream()`: three frames. */
    function StartStream(): (r: seq<string>)
      ensures |r| == 3
      ensures forall k :: 0 <= k < 3 ==> r[k] == FormatEvent(StartKinds[k], None)
    {
      seq(3, k requires 0 <= k < 3 => FormatEvent(StartKinds[k], None))
    }

    /** `endStream()`: three frames, then the literal end marker last. */
    function EndStream(): (r: seq<string>)
      ensures |r| == 4 && r[3] == DoneFrame
      ensures forall k :: 0 <= k < 3 ==> r[k] == FormatEvent(EndKinds[k], None)
    {
      seq(3, k requires 0 <= k < 3 => FormatEvent(EndKinds[k], None)) + [DoneFrame]
    }

    /** `textDelta(content)`: exactly one `text-delta` frame. */
    function TextDelta(content: string): (r: seq<string>)
      ensures |r| == 1 && r[0] == FormatEvent("text-delta", Some(content))
    {
      [FormatEvent("text-delta", Some(content))]
    }
  }

  const StartKinds: seq<string> := ["start", "start-step", "text-start"]
  const EndKinds: seq<string> := ["text-end", "finish-step", "finish"]

  /** What a reader with a faithful `JSON.parse` gets back from a frame:
      the event's type, the formatter's id when it has one, and the text. */
  lemma ReadEvent(parse: string -> Option<Json>, f: StreamFormatter, kind: string, content: Option<string>)
    requires InvertsStringify(parse)
    ensures var data := FrameData(f.FormatEvent(kind, content));
      && data.Some? && parse(data.value).Some?
      && Member(parse(data.value).value, "type") == Some(JStr(kind))
      && Member(parse(data.value).value, "id") == (if f.messageId != "" then Some(JStr(f.messageId)) else None)
      && Member(parse(data.value).value, "delta") == (if Given(content) then Some(JStr(content.value)) else None)
  {
    assert parse(Stringify(f.Event(kind, content))) == Some(f.Event(kind, content));
  }

  /** The opening frames read back as `start`, `start-step`, `text-start`,
      in that order, each with the formatter's id when it has one. */
  lemma ReadStart(parse: string -> Option<Json>, f: StreamFormatter, k: nat)
    requires InvertsStringify(parse) && k < 3
    ensures var s := FrameData(f.StartStream()[k]).value;
      && parse(s).Some? && Member(parse(s).value, "type") == Some(JStr(StartKinds[k]))
      && Member(parse(s).value, "id") == (if f.messageId != "" then Some(JStr(f.messageId)) else None)
  {
    assert f.StartStream()[k] == f.FormatEvent(StartKinds[k], None);
    ReadEvent(parse, f, StartKinds[k], None);
  }

  /** The closing frames read back as `text-end`, `finish-step`, `finish`,
      each with the formatter's id. */
  lemma ReadEnd(parse: string -> Option<Json>, f: StreamFormatter, k: nat)
    requires InvertsStringify(parse) && k < 3
    ensures var e := FrameData(f.EndStream()[k]).value;
      && parse(e).Some? && Member(parse(e).value, "type") == Some(JStr(EndKinds[k]))
      && Member(parse(e).value, "id") == (if f.messageId != "" then Some(JStr(f.messageId)) else None)
  {
    assert f.EndStream()[k] == f.FormatEvent(EndKinds[k], None);
    ReadEvent(parse, f, EndKinds[k], None);
  }

  /** The last frame of a stream carries the data `[DONE]`. */
  lemma DoneData()
    ensures FrameData(DoneFrame) == Some("[DONE]")
  {
    FrameDataOf("[DONE]");
    assert "data: " + "[DONE]" + "\n\n" == DoneFrame;
  }
}
