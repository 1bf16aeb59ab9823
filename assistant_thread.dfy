/** The text renderer of the assistant-ui thread: a text part whose text
    holds a fenced `latex` or `tex` block is shown as a LaTeX preview (the
    prose before the block, the code or a truncated text view, the prose
    after it); any other text is rendered as Markdown. */
module AssistantThread {
  import opened Seqs
  import opened Text
  import opened Json
  import opened Fences

  /** The openers of `/```(?:latex|tex)\n([\s\S]*?)```/`. */
  const LatexOpeners: seq<string> := ["```latex\n", "```tex\n"]

  /** The separators of `split(/```(?:latex|tex)/)`. */
  const LatexMarkers: seq<string> := ["```latex", "```tex"]

  /** The longest code the text view shows in full. */
  const PreviewLimit: nat := 1000

  const TruncationNote: string := "...\n\n(truncated, see Code view)"

  lemma OpenersWellFormed()
    ensures AllFenceLed(LatexOpeners) && PrefixFree(LatexOpeners)
    ensures AllFenceLed(LatexMarkers) && PrefixFree(LatexMarkers)
  {
    assert LatexOpeners[0][..3] == Fence && LatexOpeners[1][..3] == Fence;
    assert LatexMarkers[0][..3] == Fence && LatexMarkers[1][..3] == Fence;
    assert LatexOpeners[0][..|LatexOpeners[1]|] != LatexOpeners[1] by {
      assert LatexOpeners[0][3] != LatexOpeners[1][3];
    }
    assert LatexMarkers[0][..|LatexMarkers[1]|] != LatexMarkers[1] by {
      assert LatexMarkers[0][3] != LatexMarkers[1][3];
    }
  }

  /** `extractLatexCode(text)`: the body of the first `latex` or `tex` block. */
  function ExtractLatexCode(text: string): Option<string>
  {
    BlockBody(text, LatexOpeners)
  }

  /** A block written after prose without backticks, with either tag, is
      found and its body returned exactly. */
  lemma ExtractRoundTrip(before: string, opener: string, code: string, after: string)
    requires opener in LatexOpeners && '`' !in before && Unfenced(code)
    ensures ExtractLatexCode(before + opener + code + Fence + after) == Some(code)
  {
    OpenersWellFormed();
    BlockRoundTrip(LatexOpeners, before, opener, code, after);
  }

  /** No code found means no `latex` or `tex` opener in the text is
      followed by a fence anywhere. */
  lemma ExtractNone(text: string)
    requires ExtractLatexCode(text).None?
    ensures forall k, i, j ::
              (0 <= k < |LatexOpeners| && MatchesAt(text, LatexOpeners[k], i) && i + |LatexOpeners[k]| <= j)
              ==> !MatchesAt(text, Fence, j)
  {
    OpenersWellFormed();
    NoBlock(text, LatexOpeners);
  }

  /** The text view of the code: the code itself up to the limit, else its
      first thousand characters and a note. */
  function PreviewText(code: string): string
  {
    if |code| > PreviewLimit then code[..PreviewLimit] + TruncationNote else code
  }

  /** The text view starts with as much of the code as the limit allows;
      code within the limit is shown whole, and longer code is cut at the
      limit and followed by the note. */
  lemma PreviewBounded(code: string)
    ensures var r := PreviewText(code);
      && StartsWith(r, code[..if |code| < PreviewLimit then |code| else PreviewLimit])
      && (|code| <= PreviewLimit ==> r == code)
      && (|code| > PreviewLimit ==> |r| == PreviewLimit + |TruncationNote| && r[PreviewLimit..] == TruncationNote)
  {
    var r := PreviewText(code);
    if |code| > PreviewLimit {
      assert r[..PreviewLimit] == code[..PreviewLimit];
    }
  }

  /** A prose block is shown, trimmed, only when something is left after trimming. */
  function Shown(prose: string): (r: Option<string>)
  {
    var t := Trim(prose);
    if t != "" then Some(t) else None
  }

  /** The layout of `LaTeXPreview` for the code and the whole text. */
  function PreviewLayout(code: string, fullText: string, view: View): Layout
  {
    Layout(Shown(BeforeCode(fullText, LatexMarkers)),
           if view == CodeView then code else PreviewText(code),
           Shown(AfterCode(fullText)))
  }

  /** `props.part?.text || ''`. */
  function PartText(part: Json): Json
  {
    match Member(part, "text")
    case Some(v) => if Truthy(v) then v else JStr("")
    case None => JStr("")
  }

  /** `CustomTextRenderer`: a LaTeX preview when the text holds a block
      with a non-empty body; Markdown otherwise. A text that is not a
      string makes `text.match` throw. */
  function Render(part: Json, view: View): Rendered
  {
    match PartText(part)
    case JStr(text) =>
      (match ExtractLatexCode(text)
       case Some(code) => if code != "" then LatexPreview(code, PreviewLayout(code, text, view)) else Markdown(text)
       case None => Markdown(text))
    case _ => RenderFailed
  }

  /** The renderer shows a preview exactly for a string text with a
      non-empty block, and Markdown exactly for any other string text. */
  lemma RenderChoice(part: Json, view: View)
    ensures Render(part, view).LatexPreview? <==>
      PartText(part).JStr? && ExtractLatexCode(PartText(part).s).Some? && ExtractLatexCode(PartText(part).s).value != ""
    ensures Render(part, view).Markdown? <==>
      PartText(part).JStr? && (ExtractLatexCode(PartText(part).s).None? || ExtractLatexCode(PartText(part).s).value == "")
    ensures Render(part, view).RenderFailed? <==> Member(part, "text").Some? && Truthy(Member(part, "text").value)
                                                  && !Member(part, "text").value.JStr?
  {
  }

  /** The three readings of a text made of prose without backticks, a
      `latex` or `tex` block, and prose without backticks: the block's
      body, the prose before it, and the prose after it. */
  lemma BlockTextParts(before: string, marker: string, code: string, after: string)
    requires marker in LatexMarkers && '`' !in before && '`' !in after && Unfenced(code)
    ensures var text := before + marker + "\n" + code + Fence + after;
      && ExtractLatexCode(text) == Some(code)
      && BeforeCode(text, LatexMarkers) == before
      && AfterCode(text) == after
  {
    var opener := marker + "\n";
    if marker == LatexMarkers[0] {
      assert opener == LatexOpeners[0];
    } else {
      assert opener == LatexOpeners[1];
    }
    assert before + marker + "\n" + code + Fence + after == before + opener + code + Fence + after;
    assert before + marker + "\n" + code + Fence + after == before + marker + ("\n" + code + Fence + after);
    OpenersWellFormed();
    ExtractRoundTrip(before, opener, code, after);
    BeforeOfBlock(LatexMarkers, before, marker, "\n" + code + Fence + after);
    AfterOfBlock(before, opener, code, after);
    NoBacktickNoFence(after);
  }

  /** A part whose text is prose without backticks, a `latex` or `tex`
      block with a non-empty body, and prose without backticks renders as
      a preview of that body, with both prose blocks shown trimmed when
      anything is left of them. */
  lemma RenderBlock(part: Json, view: View, before: string, marker: string, code: string, after: string)
    requires marker in LatexMarkers && '`' !in before && '`' !in after && Unfenced(code) && code != ""
    requires Member(part, "text") == Some(JStr(before + marker + "\n" + code + Fence + after))
    ensures Render(part, view)
         == LatexPreview(code, Layout(Shown(before), if view == CodeView then code else PreviewText(code), Shown(after)))
  {
    BlockTextParts(before, marker, code, after);
  }
}
