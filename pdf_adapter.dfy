/** The attachment adapter for documents: size validation when a file is
    added, the complete attachment built from the upload response when it
    is sent, and a removal that never fails. The upload and delete requests
    are inputs: how they settled. */
module PdfAdapter {
  import opened Seqs
  import opened Text
  import opened Json
  import opened LineReassembly

  /** The largest accepted file, in bytes: 20 MiB. */
  const MaxSize: nat := 20 * 1024 * 1024

  datatype File = File(name: string, size: nat, mimeType: string)

  datatype Status = RequiresAction(reason: string) | Complete

  datatype PendingAttachment = PendingAttachment(id: string, kind: string, name: string, file: File, status: Status)

  /** `add({ file })`; `uuid` is what `crypto.randomUUID()` returned. A file
      over the limit is accepted as an attachment that needs action because
      of an error; any other waits for the composer to send it. */
  function Add(file: File, uuid: string): (r: PendingAttachment)
    ensures r.id == uuid && r.kind == "document" && r.name == file.name && r.file == file
    ensures r.status == RequiresAction("error") <==> file.size > MaxSize
    ensures r.status == RequiresAction("composer-send") <==> file.size <= MaxSize
  {
    if file.size > MaxSize then
      PendingAttachment(uuid, "document", file.name, file, RequiresAction("error"))
    else
      PendingAttachment(uuid, "document", file.name, file, RequiresAction("composer-send"))
  }

  /** The limit is inclusive: 20 MiB passes, one byte more does not. */
  lemma SizeBoundary(name: string, mimeType: string, uuid: string)
    ensures Add(File(name, MaxSize, mimeType), uuid).status == RequiresAction("composer-send")
    ensures Add(File(name, MaxSize + 1, mimeType), uuid).status == RequiresAction("error")
  {
  }

  // ---------------------------------------------------------------------
  // send
  // ---------------------------------------------------------------------

  /** What a rejected `fetch` threw: an `Error` with a message, or anything else. */
  datatype Thrown = ErrorValue(message: string) | OtherValue

  /** The upload request: rejected, or answered with a status and the body text. */
  datatype UploadReply = UploadRejected(thrown: Thrown) | UploadAnswered(status: int, text: string)

  /** The texts the JavaScript engine puts in the errors it raises itself:
      `JSON.parse` on malformed text, and a property read on `null`. */
  datatype EngineMessages = EngineMessages(syntaxError: string, typeError: string)

  datatype FilePart = FilePart(kind: string, data: string)

  datatype CompleteAttachment = CompleteAttachment(id: Json, kind: string, name: string,
                                                   content: seq<FilePart>, status: Status)

  datatype Sent = SendOk(attachment: CompleteAttachment) | SendFailed(message: string)

  /** The prefix every send failure carries. */
  const SendPrefix: string := "Failed to upload file: "

  /** The failure of an upload answered without a usable id. */
  const NoIdMessage: string := "No file ID returned from OpenWebUI"

  /** The reference stored for the chat API: `{type: "file", id, name}`. */
  function FileRefJson(id: Json, name: string): Json
  {
    JObj([Field("type", JStr("file")), Field("id", id), Field("name", JStr(name))])
  }

  /** Why the upload failed, before it is wrapped: a non-ok status with
      the response text, a body that is not JSON, a `null` body, or a
      result without a truthy `id`. */
  function UploadFailure(parse: string -> Option<Json>, engine: EngineMessages, reply: UploadReply): Option<Thrown>
  {
    match reply
    case UploadRejected(thrown) => Some(thrown)
    case UploadAnswered(status, text) =>
      if !Ok(status) then Some(ErrorValue("File upload failed: " + IntToString(status) + " - " + text))
      else match parse(text)
        case None => Some(ErrorValue(engine.syntaxError))
        case Some(result) =>
          if result.JNull? then Some(ErrorValue(engine.typeError))
          else match Member(result, "id")
            case Some(id) => if Truthy(id) then None else Some(ErrorValue(NoIdMessage))
            case None => Some(ErrorValue(NoIdMessage))
  }

  /** `send(attachment)`: on success a complete attachment under the
      uploaded id, holding one file part whose data is the JSON reference
      to the upload; any failure is rethrown with a fixed prefix, and the
      message of anything that is not an `Error` is replaced. */
  function Send(parse: string -> Option<Json>, engine: EngineMessages,
                attachment: PendingAttachment, reply: UploadReply): (r: Sent)
    ensures r.SendOk? <==> UploadFailure(parse, engine, reply).None?
    ensures r.SendFailed? ==> StartsWith(r.message, SendPrefix)
    ensures r.SendFailed? && UploadFailure(parse, engine, reply).value.ErrorValue? ==>
            r.message == SendPrefix + UploadFailure(parse, engine, reply).value.message
    ensures r.SendOk? ==>
      && reply.UploadAnswered? && Ok(reply.status)
      && parse(reply.text).Some? && Member(parse(reply.text).value, "id") == Some(r.attachment.id)
      && Truthy(r.attachment.id)
      && r.attachment.kind == "document" && r.attachment.name == attachment.name
      && r.attachment.status == Complete
      && r.attachment.content == [FilePart("file", Stringify(FileRefJson(r.attachment.id, attachment.name)))]
  {
    match UploadFailure(parse, engine, reply)
    case Some(thrown) =>
      var prefix := SendPrefix;
      assert StartsWith(prefix + (if thrown.ErrorValue? then thrown.message else "Unknown error"), prefix);
      SendFailed(prefix + (if thrown.ErrorValue? then thrown.message else "Unknown error"))
    case None =>
      var id := Member(parse(reply.text).value, "id").value;
      SendOk(CompleteAttachment(id, "document", attachment.name,
        [FilePart("file", Stringify(FileRefJson(id, attachment.name)))], Complete))
  }

  /** A non-ok status yields no complete attachment; the message carries
      the status and the response text. */
  lemma SendRejectedStatus(parse: string -> Option<Json>, engine: EngineMessages,
                           attachment: PendingAttachment, status: int, text: string)
    requires !Ok(status)
    ensures Send(parse, engine, attachment, UploadAnswered(status, text))
         == SendFailed(SendPrefix + ("File upload failed: " + IntToString(status) + " - " + text))
  {
    var inner := "File upload failed: " + IntToString(status) + " - " + text;
    assert UploadFailure(parse, engine, UploadAnswered(status, text)) == Some(ErrorValue(inner));
  }

  /** A result object without an `id` yields no complete attachment. */
  lemma SendWithoutId(parse: string -> Option<Json>, engine: EngineMessages,
                      attachment: PendingAttachment, status: int, text: string)
    requires Ok(status) && parse(text).Some? && parse(text).value.JObj?
    requires Member(parse(text).value, "id").None?
    ensures Send(parse, engine, attachment, UploadAnswered(status, text))
         == SendFailed(SendPrefix + NoIdMessage)
  {
    assert UploadFailure(parse, engine, UploadAnswered(status, text)) == Some(ErrorValue(NoIdMessage));
  }

  /** The stored reference reads back, through a faithful `JSON.parse`, as
      a `file` object carrying the uploaded id and the attachment's name. */
  lemma FileRefReadsBack(parse: string -> Option<Json>, id: Json, name: string)
    requires InvertsStringify(parse) && Portable(id)
    ensures parse(Stringify(FileRefJson(id, name))) == Some(FileRefJson(id, name))
    ensures Member(FileRefJson(id, name), "type") == Some(JStr("file"))
    ensures Member(FileRefJson(id, name), "id") == Some(id)
    ensures Member(FileRefJson(id, name), "name") == Some(JStr(name))
  {
    var t, i, n := Field("type", JStr("file")), Field("id", id), Field("name", JStr(name));
    assert PortableField(t) && PortableField(i) && PortableField(n);
    ThreeFieldsPortable(t, i, n);
    ThreeFields(t, i, n);
  }

  // ---------------------------------------------------------------------
  // remove
  // ---------------------------------------------------------------------

  /** `remove(attachment)`: the path of the `DELETE` request, sent only for
      an attachment with a non-empty id. Whatever the request does, the
      call completes: there is no failing outcome. */
  function Remove(filesEndpoint: string, attachment: PendingAttachment): (r: Option<string>)
    ensures r.Some? <==> attachment.id != ""
    ensures r.Some? ==> r.value == filesEndpoint + "/" + attachment.id
  {
    if attachment.id != "" then Some(filesEndpoint + "/" + attachment.id) else None
  }
}
