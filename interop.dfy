/** How the pieces read one another's output: the adapter reading the
    formatter's frames, the adapter and the provider reading the chat
    route's frames, and the chat route reading the reference the document
    adapter stores. */
module Interop {
  import opened Seqs
  import opened Text
  import opened Json
  import opened LineReassembly
  import opened Messages
  import Formatter
  import Adapter
  import ChatRoute
  import Provider
  import PdfAdapter

  /** A decoder that accepts the first of two lines and skips the second
      yields just the first line's result. */
  lemma FilterMapPair<B>(f: string -> Option<B>, a: string, b: string, x: B)
    requires f(a) == Some(x) && f(b).None?
    ensures FilterMap(f, [a, b]) == [x]
  {
    assert Init([a, b]) == [a] && Last([a, b]) == b;
    assert Init([a]) == [] && Last([a]) == a;
  }

  /** A decoder that skips both of two lines yields nothing. */
  lemma FilterMapPairNone<B>(f: string -> Option<B>, a: string, b: string)
    requires f(a).None? && f(b).None?
    ensures FilterMap(f, [a, b]) == []
  {
    assert Init([a, b]) == [a] && Last([a, b]) == b;
    assert Init([a]) == [] && Last([a]) == a;
  }

  /** A serialised object starts with `{` and ends with `}`. */
  lemma ObjectText(fields: seq<Field>)
    ensures var s := Stringify(JObj(fields)); |s| >= 2 && s[0] == '{' && s[|s| - 1] == '}'
  {
  }

  /** A `data: ` line carrying an object is its own trim, and its payload
      is not the end marker. */
  lemma DataLineTrimmed(fields: seq<Field>)
    ensures var line := "data: " + Stringify(JObj(fields));
      && Trim(line) == line && StartsWith(line, "data: ")
      && line[6..] == Stringify(JObj(fields)) && line[6..] != "[DONE]"
  {
    var payload := Stringify(JObj(fields));
    var line := "data: " + payload;
    ObjectText(fields);
    assert line[0] == 'd' && line[|line| - 1] == payload[|payload| - 1];
    TrimNoop(line);
    assert line[6..] == payload;
    assert line[..6] == "data: ";
  }

  /** The blank line that ends an event yields nothing to either reader. */
  lemma BlankLineSkipped(parse: string -> Option<Json>)
    ensures Adapter.DeltaReader(parse)("").None?
    ensures Provider.StreamDecoder(parse)("").None?
  {
    assert Trim("") == "";
  }

  /** The adapter reading one `text-delta` frame of the formatter, through
      a faithful `JSON.parse`, gets back exactly the text it carried. */
  lemma AdapterReadsTextDelta(parse: string -> Option<Json>, f: Formatter.StreamFormatter, content: string)
    requires InvertsStringify(parse) && content != ""
    ensures Adapter.TurnDeltas(parse, f.TextDelta(content)) == [content]
  {
    var frame := f.FormatEvent("text-delta", Some(content));
    var ev := f.Event("text-delta", Some(content));
    var line := "data: " + Stringify(ev);
    assert f.TextDelta(content) == [frame];
    assert Concat([frame]) == frame by {
      assert Init([frame]) == [] && Last([frame]) == frame;
    }
    DataLineTrimmed(ev.fields);
    assert parse(Stringify(ev)) == Some(ev);
    assert Adapter.LineDelta(parse, line) == Some(JStr(content));
    BlankLineSkipped(parse);
    FilterMapPair(Adapter.DeltaReader(parse), line, "", content);
  }

  /** The content array the chat route puts a piece of content in. */
  function WrappedContent(content: Json): Json
  {
    JArr([JObj([Field("type", JStr("text")), Field("text", content)])])
  }

  /** The chunk object the chat route wraps content in is portable when
      the content is. */
  lemma ChunkPortable(content: Json)
    requires Portable(content)
    ensures Portable(ChatRoute.ChoicesChunk(content))
  {
    WrappedPortable(content);
    var c := Field("content", WrappedContent(content));
    WordKey(c.key);
    OneFieldPortable(c);
    var delta := Field("delta", JObj([c]));
    WordKey(delta.key);
    ChoicePortable(delta);
    var choices := Field("choices", JArr([JObj([delta, Field("index", JNum(0)), Field("finish_reason", JNull)])]));
    WordKey(choices.key);
    OneFieldPortable(choices);
  }

  /** The content array the route wraps content in is portable when the content is. */
  lemma WrappedPortable(content: Json)
    requires Portable(content)
    ensures Portable(WrappedContent(content))
  {
    var t, x := Field("type", JStr("text")), Field("text", content);
    WordKey(t.key);
    WordKey(x.key);
    assert t.key[1] != x.key[1];
    TwoFieldsPortable(t, x);
    OneItemPortable(JObj([t, x]));
  }

  /** A choice around a portable `delta` member is portable. */
  lemma ChoicePortable(delta: Field)
    requires delta.key == "delta" && PortableField(delta)
    ensures Portable(JArr([JObj([delta, Field("index", JNum(0)), Field("finish_reason", JNull)])]))
  {
    var index := Field("index", JNum(0));
    var fin := Field("finish_reason", JNull);
    WordKey(index.key);
    WordKey(fin.key);
    assert delta.key[0] != index.key[0] && delta.key[0] != fin.key[0] && index.key[0] != fin.key[0];
    ThreeFieldsPortable(delta, index, fin);
    OneItemPortable(JObj([delta, index, fin]));
  }

  /** The chunk's `choices[0].delta.content` is the wrapped content. */
  lemma ChunkContent(content: Json)
    ensures ChatRoute.ChoiceContent(ChatRoute.ChoicesChunk(content)) == Some(WrappedContent(content))
  {
    var delta := Field("delta", JObj([Field("content", WrappedContent(content))]));
    ThreeFields(delta, Field("index", JNum(0)), Field("finish_reason", JNull));
  }

  /** A frame of the chat route, received whole, is its `data: ` line and
      a blank line. */
  lemma RouteFrameReceived(content: Json)
    ensures CompleteLines(Concat([ChatRoute.Frame(content)]))
         == ["data: " + Stringify(ChatRoute.ChoicesChunk(content)), ""]
  {
    assert Concat([ChatRoute.Frame(content)]) == ChatRoute.Frame(content) by {
      assert Init([ChatRoute.Frame(content)]) == [];
    }
    ChatRoute.FrameIsOneEvent(content);
  }

  /** The adapter skips a `data: ` line carrying an object without a `type`. */
  lemma AdapterSkipsUntyped(parse: string -> Option<Json>, obj: Json)
    requires InvertsStringify(parse) && Portable(obj) && obj.JObj? && Member(obj, "type").None?
    ensures Adapter.DeltaReader(parse)("data: " + Stringify(obj)).None?
  {
    DataLineTrimmed(obj.fields);
  }

  /** The provider reads a `data: ` line carrying an object as that
      object's `choices[0].delta.content`, when truthy. */
  lemma ProviderReadsObject(parse: string -> Option<Json>, obj: Json, c: Json)
    requires InvertsStringify(parse) && Portable(obj) && obj.JObj?
    requires ChatRoute.ChoiceContent(obj) == Some(c) && Truthy(c)
    ensures Provider.StreamDecoder(parse)("data: " + Stringify(obj)) == Some(Provider.TextDeltaPart(c))
  {
    DataLineTrimmed(obj.fields);
    ObjectText(obj.fields);
    TrimNoop(Stringify(obj));
  }

  /** The adapter reading a frame of the chat route gets nothing: the chunk
      object has no `type`, so it is not a `text-delta` event. */
  lemma AdapterIgnoresRouteFrame(parse: string -> Option<Json>, content: Json)
    requires InvertsStringify(parse) && Portable(content)
    ensures Adapter.TurnDeltas(parse, [ChatRoute.Frame(content)]) == []
  {
    var chunk := ChatRoute.ChoicesChunk(content);
    var line := "data: " + Stringify(chunk);
    RouteFrameReceived(content);
    ChunkPortable(content);
    assert Member(chunk, "type").None?;
    AdapterSkipsUntyped(parse, chunk);
    BlankLineSkipped(parse);
    FilterMapPairNone(Adapter.DeltaReader(parse), line, "");
  }

  /** The provider reading a frame of the chat route gets the content
      array the route wrapped the text in, not the text itself. */
  lemma ProviderReadsRouteFrame(parse: string -> Option<Json>, content: Json)
    requires InvertsStringify(parse) && Portable(content)
    ensures Provider.StreamEvents(parse, [ChatRoute.Frame(content)])
         == [Provider.TextDeltaPart(WrappedContent(content))]
  {
    var chunk := ChatRoute.ChoicesChunk(content);
    var line := "data: " + Stringify(chunk);
    RouteFrameReceived(content);
    ChunkPortable(content);
    ChunkContent(content);
    ProviderReadsObject(parse, chunk, WrappedContent(content));
    BlankLineSkipped(parse);
    FilterMapPair(Provider.StreamDecoder(parse), line, "", Provider.TextDeltaPart(WrappedContent(content)));
  }

  /** The message part the chat route receives for a stored document
      attachment: the route's part has no `data` field, so the reference
      lands nowhere the route looks. */
  function AsRoutePart(p: PdfAdapter.FilePart): InPart
  {
    InPart(p.kind, None, None, None, None)
  }

  /** The chat route finds no file id in a document part as the document
      adapter stores it, and drops the part. */
  lemma RouteMissesStoredReference(parse: string -> Option<Json>, id: Json, name: string)
    ensures var p := PdfAdapter.FilePart("file", Stringify(PdfAdapter.FileRefJson(id, name)));
      && ChatRoute.AttachedId(parse, AsRoutePart(p)).None?
      && ChatRoute.ConvertPart(parse, AsRoutePart(p)).None?
  {
  }

  /** Had the reference been carried in `url`, the route would read the
      uploaded id from it. */
  lemma RouteReadsReferenceInUrl(parse: string -> Option<Json>, id: Json, name: string)
    requires InvertsStringify(parse) && Portable(id) && Truthy(id)
    ensures ChatRoute.AttachedId(parse, InPart("file", None, None,
              Some(Stringify(PdfAdapter.FileRefJson(id, name))), None)) == Some(id)
  {
    PdfAdapter.FileRefReadsBack(parse, id, name);
    ObjectText(PdfAdapter.FileRefJson(id, name).fields);
  }
}
