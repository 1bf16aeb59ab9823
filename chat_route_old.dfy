/** The earlier chat endpoint's message preprocessing: in a user message
    whose `content` array holds a PDF file part, every PDF part is replaced
    by a fixed text notice. Messages are taken as the JSON values the
    request carried; a property read the code makes on `null`, or a call of
    `content.some` on a `content` that is not an array, throws, and the
    endpoint then answers with status 500. */
module ChatRouteOld {
  import opened Seqs
  import opened Json

  const PdfNotice: string :=
    "[PDF file received: This model cannot directly process PDFs. Please use Open WebUI backend or a vision-capable model for PDF processing.]"

  /** The text part a PDF part is replaced by. */
  function NoticePart(): Json
  {
    JObj([Field("type", JStr("text")), Field("text", JStr(PdfNotice))])
  }

  /** `part.type === 'file' && part.mimeType === 'application/pdf'`. */
  predicate IsPdf(part: Json)
  {
    Member(part, "type") == Some(JStr("file")) && Member(part, "mimeType") == Some(JStr("application/pdf"))
  }

  function ReplacePdf(part: Json): Json
  {
    if IsPdf(part) then NoticePart() else part
  }

  /** `{ ...msg, content }`: the member keeps its place, only its value changes. */
  function SetContent(fields: seq<Field>, content: Json): (r: seq<Field>)
    ensures |r| == |fields|
  {
    seq(|fields|, i requires 0 <= i < |fields| =>
      if fields[i].key == "content" then Field("content", content) else fields[i])
  }

  /** A message the rewrite looks into: from the user, with truthy content. */
  predicate UserWithContent(msg: Json)
  {
    Member(msg, "role") == Some(JStr("user"))
    && Member(msg, "content").Some? && Truthy(Member(msg, "content").value)
  }

  /** The rewrite of one message, or `None` when it throws. */
  function Rewrite(msg: Json): Option<Json>
  {
    if msg.JNull? then None
    else if !UserWithContent(msg) then Some(msg)
    else
      var content := Member(msg, "content").value;
      if !content.JArr? || JNull in content.items then None
      else if exists i :: 0 <= i < |content.items| && IsPdf(content.items[i]) then
        Some(JObj(SetContent(msg.fields, JArr(seq(|content.items|, i requires 0 <= i < |content.items| =>
          ReplacePdf(content.items[i]))))))
      else Some(msg)
  }

  /** `messages.map(...)`: every message is rewritten on its own, in
      order; one that throws makes the whole request fail. */
  function Process(messages: seq<Json>): (r: Option<seq<Json>>)
    ensures r.Some? <==> forall i :: 0 <= i < |messages| ==> Rewrite(messages[i]).Some?
    ensures r.Some? ==> |r.value| == |messages|
    ensures r.Some? ==> forall i :: 0 <= i < |messages| ==> r.value[i] == Rewrite(messages[i]).value
  {
    if exists i :: 0 <= i < |messages| && Rewrite(messages[i]).None? then None
    else Some(seq(|messages|, i requires 0 <= i < |messages| => Rewrite(messages[i]).value))
  }

  /** Where the rewrite throws: on a `null` message, and on a user message
      with truthy content that is not an array or holds a `null` part. */
  lemma RewriteThrows(msg: Json)
    ensures Rewrite(msg).None? <==>
      msg.JNull? || (UserWithContent(msg) && (!Member(msg, "content").value.JArr?
                                              || JNull in Member(msg, "content").value.items))
  {
  }

  /** A message from another role, or with falsy content, passes unchanged;
      so does a user message without a PDF part. */
  lemma RewritePassesThrough(msg: Json)
    requires !msg.JNull?
    ensures !UserWithContent(msg) ==> Rewrite(msg) == Some(msg)
    ensures UserWithContent(msg) && Member(msg, "content").value.JArr?
         && JNull !in Member(msg, "content").value.items
         && (forall i :: 0 <= i < |Member(msg, "content").value.items| ==>
               !IsPdf(Member(msg, "content").value.items[i]))
         ==> Rewrite(msg) == Some(msg)
  {
  }

  /** Replacing a member's value leaves every other member as it was. */
  lemma {:induction false} SetContentLookup(fields: seq<Field>, content: Json, key: string)
    ensures Lookup(SetContent(fields, content), key)
         == if key != "content" then Lookup(fields, key)
            else if Lookup(fields, key).Some? then Some(content) else None
    decreases |fields|
  {
    if fields != [] {
      assert Init(SetContent(fields, content)) == SetContent(Init(fields), content);
      SetContentLookup(Init(fields), content, key);
    }
  }

  /** In a user message with a PDF part: the content is the same list with
      each PDF part replaced by the notice and every other part in its
      place, and every other member is kept. */
  lemma RewritePdf(msg: Json)
    requires UserWithContent(msg) && !msg.JNull?
    requires Member(msg, "content").value.JArr? && JNull !in Member(msg, "content").value.items
    requires exists i :: 0 <= i < |Member(msg, "content").value.items| && IsPdf(Member(msg, "content").value.items[i])
    ensures var items := Member(msg, "content").value.items;
      && Rewrite(msg).Some? && Rewrite(msg).value.JObj?
      && Member(Rewrite(msg).value, "content").Some?
      && Member(Rewrite(msg).value, "content").value.JArr?
      && var out := Member(Rewrite(msg).value, "content").value.items;
      && |out| == |items|
      && (forall i :: 0 <= i < |items| ==> out[i] == (if IsPdf(items[i]) then NoticePart() else items[i]))
  {
    var items := Member(msg, "content").value.items;
    var replaced := JArr(seq(|items|, i requires 0 <= i < |items| => ReplacePdf(items[i])));
    SetContentLookup(msg.fields, replaced, "content");
  }

  lemma RewriteKeepsMembers(msg: Json, key: string)
    requires Rewrite(msg).Some? && key != "content"
    ensures Member(Rewrite(msg).value, key) == Member(msg, key)
  {
    if UserWithContent(msg) {
      var items := Member(msg, "content").value.items;
      var replaced := JArr(seq(|items|, i requires 0 <= i < |items| => ReplacePdf(items[i])));
      SetContentLookup(msg.fields, replaced, key);
    }
  }

  /** The notice is a text part, so a rewritten message has no PDF part
      left and rewriting it again changes nothing. */
  lemma RewriteIdempotent(msg: Json)
    requires Rewrite(msg).Some?
    ensures Rewrite(Rewrite(msg).value) == Rewrite(msg)
  {
    var once := Rewrite(msg).value;
    if UserWithContent(msg) && once != msg {
      var items := Member(msg, "content").value.items;
      var replaced := seq(|items|, i requires 0 <= i < |items| => ReplacePdf(items[i]));
      SetContentLookup(msg.fields, JArr(replaced), "content");
      SetContentLookup(msg.fields, JArr(replaced), "role");
      assert Lookup(NoticePart().fields, "type") == Some(JStr("text")) by {
        TwoFields(Field("type", JStr("text")), Field("text", JStr(PdfNotice)));
      }
      assert forall i :: 0 <= i < |replaced| ==> !IsPdf(replaced[i]) && replaced[i] != JNull;
    }
  }
}
