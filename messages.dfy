/** Inbound chat messages as the UI runtime posts them. A message may carry
    a `parts` array, a `content` array, a `content` string, or several of
    these; every field the code reads is either a string or absent. */
module Messages {
  import opened Seqs

  /** One element of a `parts` or `content` array. */
  datatype InPart = InPart(
    kind: string,               // `type`
    text: Option<string>,
    content: Option<string>,
    url: Option<string>,
    filename: Option<string>)

  /** The `content` field: a string, an array of parts, or anything else (absent included). */
  datatype InContent = TextContent(s: string) | PartList(parts: seq<InPart>) | OtherContent

  datatype InMessage = InMessage(role: string, parts: Option<seq<InPart>>, content: InContent)

  /** JavaScript's `s || ''` for an optional string. */
  function OrEmpty(s: Option<string>): (r: string)
    ensures s.Some? ==> r == s.value
    ensures s.None? ==> r == ""
  {
    if s.Some? then s.value else ""
  }

  /** `s` is present and non-empty, i.e. truthy. */
  predicate Given(s: Option<string>)
  {
    s.Some? && s.value != ""
  }
}
