/** The text renderer of the earlier thread component. It gathers the text
    of a part along several paths, unwraps text that looks like JSON, and
    shows a fenced `latex` block (only that tag) as a LaTeX preview, the
    prose around it untrimmed; any other text is rendered as Markdown. */
module LegacyThread {
  import opened Seqs
  import opened Text
  import opened Json
  import opened Fences

  /** The opener of `/```latex\n([\s\S]*?)```/`. */
  const LatexOpener: string := "```latex\n"

  /** The separator of `split('```latex')`. */
  const LatexMarker: string := "```latex"

  /** The number of code characters the text view shows. */
  const PreviewLimit: nat := 500

  lemma OpenerWellFormed()
    ensures AllFenceLed([LatexOpener]) && PrefixFree([LatexOpener])
    ensures AllFenceLed([LatexMarker]) && PrefixFree([LatexMarker])
  {
    assert LatexOpener[..3] == Fence && LatexMarker[..3] == Fence;
  }

  /** `extractLatexCode(text)`: the body of the first `latex` block. */
  function ExtractLatexCode(text: string): Option<string>
  {
    BlockBody(text, [LatexOpener])
  }

  /** A `latex` block after prose without backticks is found and its body
      returned exactly. */
  lemma ExtractRoundTrip(before: string, code: string, after: string)
    requires '`' !in before && Unfenced(code)
    ensures ExtractLatexCode(before + LatexOpener + code + Fence + after) == Some(code)
  {
    OpenerWellFormed();
    BlockRoundTrip([LatexOpener], before, LatexOpener, code, after);
  }

  /** A text without a `latex` opener yields no code, whatever other blocks
      (a `tex` block included) it holds. */
  lemma ExtractNeedsLatexTag(text: string)
    requires forall j :: !MatchesAt(text, LatexOpener, j)
    ensures ExtractLatexCode(text).None?
  {
    FirstOfSpec(text, [LatexOpener]);
  }

  /** `latexCode.substring(0, 500)` followed by `...`. */
  function PreviewText(code: string): string
  {
    (if |code| <= PreviewLimit then code else code[..PreviewLimit]) + "..."
  }

  /** The text view always ends in an ellipsis, even for short code: it
      is the code whole when the code fits, else its first 500 characters. */
  lemma PreviewShape(code: string)
    ensures var r := PreviewText(code);
      && |r| >= 3 && r[|r| - 3..] == "..."
      && (|code| <= PreviewLimit ==> r[..|r| - 3] == code)
      && (|code| > PreviewLimit ==> |r| == PreviewLimit + 3 && r[..PreviewLimit] == code[..PreviewLimit])
  {
  }

  /** `fullText.split('```latex')[0]`. */
  function BeforeText(fullText: string): string
  {
    SplitOn(fullText, LatexMarker)[0]
  }

  /** A prose block is shown, as it is, when it is not empty. */
  function ShownRaw(prose: string): Option<string>
  {
    if prose != "" then Some(prose) else None
  }

  /** The layout of `LaTeXPreview` for the code and the whole text. */
  function PreviewLayout(code: string, fullText: string, view: View): Layout
  {
    Layout(ShownRaw(BeforeText(fullText)),
           if view == CodeView then code else PreviewText(code),
           ShownRaw(AfterCode(fullText)))
  }

  // ---------------------------------------------------------------------
  // Gathering the text
  // ---------------------------------------------------------------------

  /** `p.text || ''` for one element of a `content` array, as `join`
      turns it into text; `None` when printing it throws. */
  function PieceText(p: Json): Option<string>
  {
    match Member(p, "text")
    case Some(v) => if Truthy(v) then JsToString(v) else Some("")
    case None => Some("")
  }

  /** `content.map(p => p.text || '').join('')`; reading `text` of a `null`
      element throws, and so does printing a piece that hides a `toString`
      member. */
  function ContentText(items: seq<Json>): Option<string>
  {
    if JNull in items then None
    else JoinPrinted(seq(|items|, i requires 0 <= i < |items| => PieceText(items[i])))
  }

  /** `children.join('')`: `null` elements print as nothing; an element
      hiding a `toString` member throws. */
  function JoinValues(items: seq<Json>): Option<string>
  {
    JoinPrinted(seq(|items|, i requires 0 <= i < |items| => ElementToString(items[i])))
  }

  /** The renderer first logs `part?.text?.substring(0, 100)`: a `text`
      that is present and neither a string nor `null` has no `substring`,
      so the call throws before any text is gathered. */
  predicate LogThrows(part: Json)
  {
    Member(part, "text").Some? && !Member(part, "text").value.JStr? && !Member(part, "text").value.JNull?
  }

  /** The text the renderer starts from, for a part whose `text` survived
      the log (absent, `null` or a string): a string `text`; else the
      joined texts of a `content` array; else a string `content`; else
      the children, when truthy, as a string or joined; else nothing. A
      join that throws is caught and replaced by `String(part.text ||
      part.content || '')`, which prints `content` since `text` is then
      falsy; that fallback sits outside the `try`, so when it throws too
      the renderer fails: `None`. A missing part is a non-object `part`. */
  function SourceText(part: Json, children: Json): Option<string>
  {
    var text := Member(part, "text");
    var content := Member(part, "content");
    var fallback := if content.Some? && Truthy(content.value) then JsToString(content.value) else Some("");
    if text.Some? && text.value.JStr? then Some(text.value.s)
    else if content.Some? && content.value.JArr? then
      match ContentText(content.value.items)
      case Some(t) => Some(t)
      case None => fallback
    else if content.Some? && content.value.JStr? then Some(content.value.s)
    else if Truthy(children) then
      match children
      case JStr(s) => Some(s)
      case JArr(items) => (match JoinValues(items) case Some(t) => Some(t) case None => fallback)
      case _ => Some("")
    else Some("")
  }

  /** A string `text` wins over every other path. */
  lemma SourcePrefersText(part: Json, children: Json, s: string)
    requires Member(part, "text") == Some(JStr(s))
    ensures SourceText(part, children) == Some(s)
  {
  }

  /** The text part `{text: t}`. */
  function TextPart(t: string): Json
  {
    JObj([Field("text", JStr(t))])
  }

  function TextParts(texts: seq<string>): (r: seq<Json>)
    ensures |r| == |texts|
  {
    seq(|texts|, i requires 0 <= i < |texts| => TextPart(texts[i]))
  }

  lemma TextPartPiece(t: string)
    ensures PieceText(TextPart(t)) == Some(t)
  {
    assert Member(TextPart(t), "text") == Some(JStr(t));
  }

  /** Text parts join to their texts, concatenated. */
  lemma ContentOfTextParts(texts: seq<string>)
    ensures ContentText(TextParts(texts)) == Some(Concat(texts))
  {
    var items := TextParts(texts);
    var pieces := seq(|items|, i requires 0 <= i < |items| => PieceText(items[i]));
    forall i | 0 <= i < |items|
      ensures pieces[i] == Some(texts[i]) && items[i] != JNull
    {
      TextPartPiece(texts[i]);
    }
    JoinPrintedTexts(pieces, texts);
  }

  /** A `content` array of text parts reads as their texts, concatenated. */
  lemma SourceJoinsParts(part: Json, children: Json, texts: seq<string>)
    requires Member(part, "text").None? && Member(part, "content") == Some(JArr(TextParts(texts)))
    ensures SourceText(part, children) == Some(Concat(texts))
  {
    ContentOfTextParts(texts);
  }

  /** A `null` element in the `content` array sends the renderer to its
      fallback: without a `text`, the array printed as `String` does,
      elements separated by commas, or nothing when that print throws. */
  lemma SourceNullPart(part: Json, children: Json, items: seq<Json>)
    requires Member(part, "text").None? && Member(part, "content") == Some(JArr(items)) && JNull in items
    ensures SourceText(part, children) == ElementsToString(items)
  {
  }

  // ---------------------------------------------------------------------
  // Unwrapping JSON
  // ---------------------------------------------------------------------

  /** Text that, trimmed, starts like a JSON object or array. */
  predicate LooksLikeJson(text: string)
  {
    StartsWith(Trim(text), "{") || StartsWith(Trim(text), "[")
  }

  /** The JSON step: text that looks like JSON and parses becomes the
      parsed string, else its truthy `content`, else its truthy `text`,
      else the value printed with two-space indentation. Text that does
      not parse, or parses to `null` (reading `content` of it throws),
      stays as it was. The result need not be a string. */
  function Unwrap(parse: string -> Option<Json>, text: string): Json
  {
    if !LooksLikeJson(text) then JStr(text)
    else match parse(text)
      case None => JStr(text)
      case Some(p) =>
        if p.JStr? then p
        else if p.JNull? then JStr(text)
        else if Member(p, "content").Some? && Truthy(Member(p, "content").value) then Member(p, "content").value
        else if Member(p, "text").Some? && Truthy(Member(p, "text").value) then Member(p, "text").value
        else JStr(Pretty(p, 0))
  }

  /** Text that does not look like JSON passes unchanged. */
  lemma UnwrapKeepsProse(parse: string -> Option<Json>, text: string)
    requires text == [] || !(IsSpace(text[0]) || text[0] == '{' || text[0] == '[')
    ensures Unwrap(parse, text) == JStr(text)
  {
    if text != [] {
      TrimKeepsFirst(text);
    }
  }

  /** A JSON string literal is not unwrapped: it starts with a quote. */
  lemma UnwrapKeepsQuoted(parse: string -> Option<Json>, s: string)
    ensures Unwrap(parse, Stringify(JStr(s))) == JStr(Stringify(JStr(s)))
  {
    UnwrapKeepsProse(parse, Stringify(JStr(s)));
  }

  /** A serialised object reads back, through a faithful `JSON.parse`, as
      its truthy string `content`. */
  lemma UnwrapContent(parse: string -> Option<Json>, fields: seq<Field>, c: string)
    requires InvertsStringify(parse) && Portable(JObj(fields))
    requires Member(JObj(fields), "content") == Some(JStr(c)) && c != ""
    ensures Unwrap(parse, Stringify(JObj(fields))) == JStr(c)
  {
    ObjectLooksLikeJson(fields);
  }

  /** A serialised object with an array `content` unwraps to that array,
      which is not text: the renderer then throws. */
  lemma ArrayContentFails(parse: string -> Option<Json>, fields: seq<Field>, items: seq<Json>,
                          children: Json, view: View)
    requires InvertsStringify(parse) && Portable(JObj(fields))
    requires Member(JObj(fields), "content") == Some(JArr(items))
    ensures Unwrap(parse, Stringify(JObj(fields))) == JArr(items)
    ensures Render(parse, JObj([Field("text", JStr(Stringify(JObj(fields))))]), children, view) == RenderFailed
  {
    ObjectLooksLikeJson(fields);
    SourcePrefersText(JObj([Field("text", JStr(Stringify(JObj(fields))))]), children, Stringify(JObj(fields)));
  }

  /** A serialised object with neither a truthy `content` nor a truthy
      `text` is shown pretty-printed. */
  lemma UnwrapPretty(parse: string -> Option<Json>, fields: seq<Field>)
    requires InvertsStringify(parse) && Portable(JObj(fields))
    requires Member(JObj(fields), "content").None? || !Truthy(Member(JObj(fields), "content").value)
    requires Member(JObj(fields), "text").None? || !Truthy(Member(JObj(fields), "text").value)
    ensures Unwrap(parse, Stringify(JObj(fields))) == JStr(Pretty(JObj(fields), 0))
  {
    ObjectLooksLikeJson(fields);
  }

  lemma ObjectLooksLikeJson(fields: seq<Field>)
    ensures LooksLikeJson(Stringify(JObj(fields)))
  {
    var s := Stringify(JObj(fields));
    assert s[0] == '{';
    TrimKeepsFirst(s);
  }

  // ---------------------------------------------------------------------
  // Rendering
  // ---------------------------------------------------------------------

  /** The renderer after the text is settled: a preview when the text holds
      a `latex` block with a non-empty body, Markdown of the text otherwise,
      and a failure when the text is not a string (`text.match` throws). */
  function RenderText(text: Json, view: View): Rendered
  {
    match text
    case JStr(s) =>
      (match ExtractLatexCode(s)
       case Some(code) => if code != "" then LatexPreview(code, PreviewLayout(code, s, view)) else Markdown(s)
       case None => Markdown(s))
    case _ => RenderFailed
  }

  /** The text the renderer settles on before looking for a `latex` block:
      the gathered text, unwrapped; `None` when the renderer has already
      thrown, in the log or in the fallback print. */
  function Settled(parse: string -> Option<Json>, part: Json, children: Json): Option<Json>
  {
    if LogThrows(part) then None
    else match SourceText(part, children)
      case Some(s) => Some(Unwrap(parse, s))
      case None => None
  }

  /** `CustomTextRenderer`: the log throws first on a `text` it cannot
      cut; otherwise the gathered text is unwrapped and rendered. */
  function Render(parse: string -> Option<Json>, part: Json, children: Json, view: View): Rendered
  {
    match Settled(parse, part, children)
    case Some(text) => RenderText(text, view)
    case None => RenderFailed
  }

  /** The renderer shows a preview exactly for a string with a non-empty
      `latex` block, Markdown of the settled text exactly for any other
      string, and fails exactly when `text` is neither a string nor `null`,
      when the fallback print throws, or when the settled text is not a
      string. */
  lemma RenderChoice(parse: string -> Option<Json>, part: Json, children: Json, view: View)
    ensures Settled(parse, part, children).None? <==> LogThrows(part) || SourceText(part, children).None?
    ensures var settled := Settled(parse, part, children);
      && (Render(parse, part, children, view).LatexPreview? <==>
            settled.Some? && settled.value.JStr? &&
            ExtractLatexCode(settled.value.s).Some? && ExtractLatexCode(settled.value.s).value != "")
      && (Render(parse, part, children, view).Markdown? <==>
            settled.Some? && settled.value.JStr? &&
            (ExtractLatexCode(settled.value.s).None? || ExtractLatexCode(settled.value.s).value == ""))
      && (Render(parse, part, children, view).Markdown? ==> Render(parse, part, children, view).text == settled.value.s)
      && (Render(parse, part, children, view).RenderFailed? <==> settled.None? || !settled.value.JStr?)
  {
  }

  /** A part without `text` whose `content` array holds a `null` element
      and an element hiding a `toString` member fails: the join throws,
      and so does the fallback print of the array. */
  lemma HiddenToStringFails(parse: string -> Option<Json>, part: Json, children: Json, view: View,
                            items: seq<Json>, k: nat)
    requires Member(part, "text").None? && Member(part, "content") == Some(JArr(items))
    requires JNull in items && k < |items| && HidesToString(items[k])
    ensures Render(parse, part, children, view) == RenderFailed
  {
    SourceNullPart(part, children, items);
    ElementsThrow(items);
  }

  /** A part whose `text` is a number, a boolean, an array or an object
      fails, whatever its `content` and children hold. */
  lemma NonStringTextFails(parse: string -> Option<Json>, part: Json, children: Json, view: View)
    requires Member(part, "text").Some? && !Member(part, "text").value.JStr? && !Member(part, "text").value.JNull?
    ensures Render(parse, part, children, view) == RenderFailed
  {
  }

  /** Prose without backticks, a `latex` block with a non-empty body and
      prose without backticks render as a preview of that body, with each
      prose block shown as it is when it is not empty. */
  lemma RenderBlock(before: string, code: string, after: string, view: View)
    requires '`' !in before && '`' !in after && Unfenced(code) && code != ""
    ensures RenderText(JStr(before + LatexOpener + code + Fence + after), view)
         == LatexPreview(code, Layout(ShownRaw(before), if view == CodeView then code else PreviewText(code),
                                      ShownRaw(after)))
  {
    BlockTextParts(before, code, after);
  }

  lemma BlockTextParts(before: string, code: string, after: string)
    requires '`' !in before && '`' !in after && Unfenced(code)
    ensures var text := before + LatexOpener + code + Fence + after;
      && ExtractLatexCode(text) == Some(code)
      && BeforeText(text) == before
      && AfterCode(text) == after
  {
    ExtractRoundTrip(before, code, after);
    BeforeOfLatexBlock(before, code + Fence + after);
    assert before + LatexOpener + code + Fence + after == before + LatexOpener + (code + Fence + after);
    AfterOfLatexBlock(before, code, after);
  }

  lemma BeforeOfLatexBlock(before: string, rest: string)
    requires '`' !in before
    ensures BeforeText(before + LatexOpener + rest) == before
  {
    var text := before + LatexOpener + rest;
    assert text[..|before|] == before;
    assert text[|before|..|before| + |LatexOpener|] == LatexOpener;
    LeadingOpenerIndex(text, before);
    SplitFirst(text, LatexMarker, |before|);
  }

  lemma AfterOfLatexBlock(before: string, code: string, after: string)
    requires '`' !in before && '`' !in after && Unfenced(code)
    ensures AfterCode(before + LatexOpener + code + Fence + after) == after
  {
    OpenerWellFormed();
    assert FenceLed([LatexOpener][0]);
    AfterOfBlock(before, LatexOpener, code, after);
    NoBacktickNoFence(after);
  }

  /** The `latex` marker after prose without backticks is its first occurrence. */
  lemma LeadingOpenerIndex(text: string, before: string)
    requires '`' !in before && |before| + |LatexOpener| <= |text|
    requires text[..|before|] == before && text[|before|..|before| + |LatexOpener|] == LatexOpener
    ensures IndexOf(text, LatexMarker, 0) == Some(|before|)
  {
    OpenerWellFormed();
    assert text[|before|..|before| + |LatexMarker|] == LatexOpener[..|LatexMarker|];
    LeadingOpener([LatexMarker], text, |before|, LatexMarker);
  }
}
