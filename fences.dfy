/** Fenced code blocks in a message text: the first block opened by one of
    a list of openers and closed by the next three backticks, the text
    before it, and the text after it. Both thread components use these,
    each with its own openers. */
module Fences {
  import opened Seqs
  import opened Text

  const Fence: string := "```"

  /** The two views a LaTeX preview offers: the code, or a simplified text. */
  datatype View = CodeView | TextView

  /** The blocks of a LaTeX preview: the prose before the code block, if
      shown, the code or its simplified text, and the prose after it. */
  datatype Layout = Layout(before: Option<string>, shown: string, after: Option<string>)

  /** What a text part renders as: Markdown of its text, a LaTeX preview of
      the code block found in it, or nothing, because rendering threw. */
  datatype Rendered = Markdown(text: string) | LatexPreview(code: string, layout: Layout) | RenderFailed

  /** An occurrence of one of several patterns: where, and which. */
  datatype Hit = Hit(at: nat, pat: string)

  /** The leftmost occurrence of any of `pats`; at a tie the earlier
      pattern wins, as in a regular-expression alternation. */
  function FirstOf(s: string, pats: seq<string>): Option<Hit>
    decreases |pats|
  {
    if pats == [] then None
    else
      var rest := FirstOf(s, pats[1..]);
      match IndexOf(s, pats[0], 0)
      case None => rest
      case Some(a) => if rest.Some? && rest.value.at < a then rest else Some(Hit(a, pats[0]))
  }

  /** The hit is an occurrence of one of the patterns, and none of them
      occurs further left; no hit means none of them occurs at all. */
  lemma {:induction false} FirstOfSpec(s: string, pats: seq<string>)
    ensures var r := FirstOf(s, pats);
      && (r.Some? ==> r.value.pat in pats && MatchesAt(s, r.value.pat, r.value.at))
      && (r.Some? ==> forall k, j :: 0 <= k < |pats| && 0 <= j < r.value.at ==> !MatchesAt(s, pats[k], j))
      && (r.None? ==> forall k, j :: 0 <= k < |pats| ==> !MatchesAt(s, pats[k], j))
    decreases |pats|
  {
    if pats != [] {
      FirstOfSpec(s, pats[1..]);
      IndexOfFirst(s, pats[0], 0);
      assert forall k :: 1 <= k < |pats| ==> pats[k] == pats[1..][k - 1];
    }
  }

  /** Where the first block sits: its opener, and the closing fence. */
  datatype Block = Block(start: nat, opener: string, end: nat)

  /** The match of `/<opener>([\s\S]*?)```/` for the openers given: the
      leftmost opener, and the first fence after it. When that opener has
      no fence after it, no later one has either. */
  function FindBlock(s: string, openers: seq<string>): Option<Block>
  {
    match FirstOf(s, openers)
    case None => None
    case Some(h) =>
      match IndexOf(s, Fence, h.at + |h.pat|)
      case None => None
      case Some(e) => Some(Block(h.at, h.pat, e))
  }

  /** The captured block body. */
  function BlockBody(s: string, openers: seq<string>): (r: Option<string>)
  {
    match FindBlock(s, openers)
    case None => None
    case Some(b) =>
      if b.start + |b.opener| <= b.end <= |s| then Some(s[b.start + |b.opener|..b.end]) else None
  }

  /** An opener of the shape the components use: the fence, then a
      non-empty language tag and line break holding no backtick. */
  predicate FenceLed(op: string)
  {
    |op| > 3 && op[..3] == Fence && '`' !in op[3..]
  }

  predicate AllFenceLed(openers: seq<string>)
  {
    forall k :: 0 <= k < |openers| ==> FenceLed(openers[k])
  }

  /** No opener is a proper prefix of another, so at most one of them
      occurs at any one place. */
  predicate PrefixFree(openers: seq<string>)
  {
    forall k, l :: 0 <= k < |openers| && 0 <= l < |openers| && |openers[k]| < |openers[l]|
      ==> openers[l][..|openers[k]|] != openers[k]
  }

  /** A fence-led opener begins with a fence. */
  lemma OpenerIsFence(s: string, op: string, i: int)
    requires FenceLed(op) && MatchesAt(s, op, i)
    ensures MatchesAt(s, Fence, i)
  {
    assert s[i..i + 3] == s[i..i + |op|][..3];
  }

  /** No fence starts strictly inside a fence-led opener. */
  lemma InsideOpener(s: string, op: string, at: int, p: int)
    requires FenceLed(op) && MatchesAt(s, op, at) && at < p < at + |op|
    ensures !MatchesAt(s, Fence, p)
  {
    var q := if p >= at + 3 then p else at + 3;
    assert s[q] == op[q - at];
    assert op[q - at] in op[3..];
  }

  /** A found block is an opener, a body without a fence, and a fence,
      with no opener further left. */
  lemma BlockFound(s: string, openers: seq<string>)
    requires FindBlock(s, openers).Some?
    ensures var m := FindBlock(s, openers).value;
      && m.opener in openers && MatchesAt(s, m.opener, m.start)
      && m.start + |m.opener| <= m.end && MatchesAt(s, Fence, m.end)
      && (forall j :: m.start + |m.opener| <= j < m.end ==> !MatchesAt(s, Fence, j))
      && (forall k, j :: 0 <= k < |openers| && 0 <= j < m.start ==> !MatchesAt(s, openers[k], j))
      && BlockBody(s, openers) == Some(s[m.start + |m.opener|..m.end])
  {
    FirstOfSpec(s, openers);
    var h := FirstOf(s, openers).value;
    IndexOfFirst(s, Fence, h.at + |h.pat|);
  }

  /** No block found means that, for fence-led openers, no opener anywhere
      is followed by a fence: the regular expression has no match. */
  lemma NoBlock(s: string, openers: seq<string>)
    requires AllFenceLed(openers) && FindBlock(s, openers).None?
    ensures BlockBody(s, openers).None?
    ensures forall k, i, j :: 0 <= k < |openers| && MatchesAt(s, openers[k], i) && i + |openers[k]| <= j
              ==> !MatchesAt(s, Fence, j)
  {
    FirstOfSpec(s, openers);
    var r := FirstOf(s, openers);
    if r.Some? {
      var h := r.value;
      var from := h.at + |h.pat|;
      IndexOfFirst(s, Fence, from);
      assert FenceLed(h.pat);
      forall k, i, j | 0 <= k < |openers| && MatchesAt(s, openers[k], i) && i + |openers[k]| <= j
        ensures !MatchesAt(s, Fence, j)
      {
        NoFenceAfterHit(s, h.pat, h.at, openers[k], i, j);
      }
    }
  }

  /** With no fence after the first opener, no later opener is followed by
      a fence either. */
  lemma NoFenceAfterHit(s: string, first: string, at: int, op: string, i: int, j: int)
    requires FenceLed(first) && MatchesAt(s, first, at)
    requires forall j' :: at + |first| <= j' ==> !MatchesAt(s, Fence, j')
    requires FenceLed(op) && MatchesAt(s, op, i) && at <= i && i + |op| <= j
    ensures !MatchesAt(s, Fence, j)
  {
    if j < at + |first| {
      OpenerOverlap(s, first, at, op, i, j);
    }
  }

  /** A fence-led opener that starts at or after another one, ends within
      it, and is followed by a fence there, cannot exist. */
  lemma OpenerOverlap(s: string, first: string, at: int, op: string, i: int, j: int)
    requires FenceLed(first) && MatchesAt(s, first, at)
    requires FenceLed(op) && MatchesAt(s, op, i) && at <= i && i + |op| <= j < at + |first|
    ensures !MatchesAt(s, Fence, j)
  {
    if i > at {
      OpenerIsFence(s, op, i);
      InsideOpener(s, first, at, i);
    } else {
      InsideOpener(s, first, at, j);
    }
  }

  /** A body a closing fence cannot cut short: no fence starts inside it,
      even one that runs on into the closing fence. */
  predicate Unfenced(code: string)
  {
    forall j :: 0 <= j < |code| ==> !MatchesAt(code + Fence, Fence, j)
  }

  /** After text without backticks, the opener placed there is the first hit. */
  lemma LeadingOpener(openers: seq<string>, s: string, at: nat, opener: string)
    requires opener in openers && AllFenceLed(openers) && PrefixFree(openers)
    requires at <= |s| && '`' !in s[..at] && MatchesAt(s, opener, at)
    ensures FirstOf(s, openers) == Some(Hit(at, opener))
  {
    FirstOfSpec(s, openers);
    forall k, j | 0 <= k < |openers| && 0 <= j < at
      ensures !MatchesAt(s, openers[k], j)
    {
      assert s[j] == s[..at][j];
      assert openers[k][0] == openers[k][..3][0];
    }
    var k0 :| 0 <= k0 < |openers| && openers[k0] == opener;
    assert MatchesAt(s, openers[k0], at);
    var h := FirstOf(s, openers).value;
    assert h.at == at;
    assert StartsWith(s[at..], h.pat) by {
      assert s[at..][..|h.pat|] == s[at..at + |h.pat|];
    }
    assert StartsWith(s[at..], opener) by {
      assert s[at..][..|opener|] == s[at..at + |opener|];
    }
    PrefixBoth(s[at..], h.pat, opener);
  }

  /** The first fence after an unfenced body is the one right after it. */
  lemma ClosingFence(s: string, from: nat, code: string)
    requires from + |code| + 3 <= |s| && s[from..from + |code| + 3] == code + Fence && Unfenced(code)
    ensures IndexOf(s, Fence, from) == Some(from + |code|)
  {
    var end := from + |code|;
    var t := code + Fence;
    IndexOfFirst(s, Fence, from);
    forall j | from <= j < end
      ensures !MatchesAt(s, Fence, j)
    {
      assert !MatchesAt(t, Fence, j - from);
      SliceOfSlice(s, from, t, j - from, 3);
    }
    SliceOfSlice(s, from, t, |code|, 3);
    assert t[|code|..|code| + 3] == Fence;
    assert MatchesAt(s, Fence, end);
  }

  /** A slice of a piece of `s` is the same slice of `s`, shifted. */
  lemma SliceOfSlice(s: string, from: nat, t: string, i: nat, n: nat)
    requires from + |t| <= |s| && s[from..from + |t|] == t && i + n <= |t|
    ensures s[from + i..from + i + n] == t[i..i + n]
  {
    forall p | from + i <= p < from + i + n
      ensures s[p] == t[p - from]
    {
      assert s[p] == s[from..from + |t|][p - from];
    }
  }

  /** Round trip: text without backticks, an opener, an unfenced body, a
      fence and anything at all gives back exactly that body. */
  lemma BlockRoundTrip(openers: seq<string>, before: string, opener: string, code: string, after: string)
    requires opener in openers && AllFenceLed(openers) && PrefixFree(openers)
    requires '`' !in before && Unfenced(code)
    ensures BlockBody(before + opener + code + Fence + after, openers) == Some(code)
  {
    var s := before + opener + code + Fence + after;
    var from := |before| + |opener|;
    assert s[..|before|] == before;
    assert s[|before|..from] == opener;
    assert s[from..from + |code| + 3] == code + Fence;
    assert s[from..from + |code|] == code;
    LeadingOpener(openers, s, |before|, opener);
    ClosingFence(s, from, code);
    assert FindBlock(s, openers) == Some(Block(|before|, opener, from + |code|));
    BlockFound(s, openers);
  }

  /** Two patterns occurring at the same place, neither a proper prefix of
      the other, are the same pattern. */
  lemma PrefixBoth(t: string, p: string, q: string)
    requires StartsWith(t, p) && StartsWith(t, q)
    requires |p| < |q| ==> q[..|p|] != p
    requires |q| < |p| ==> p[..|q|] != q
    ensures p == q
  {
  }

  /** `text.split(<markers>)[0]`: what precedes the leftmost marker, or the
      whole text when there is none. */
  function BeforeCode(s: string, markers: seq<string>): (r: string)
    ensures StartsWith(s, r)
  {
    match FirstOf(s, markers)
    case None => s
    case Some(h) => if h.at <= |s| then s[..h.at] else s
  }

  /** `text.split('```')[2] || ''`: the third fence-separated segment. */
  function AfterCode(s: string): string
  {
    var segments := SplitOn(s, Fence);
    if |segments| > 2 then segments[2] else ""
  }

  /** For text without backticks before a block, what precedes the block
      is exactly that text. */
  lemma BeforeOfBlock(markers: seq<string>, before: string, marker: string, rest: string)
    requires marker in markers && AllFenceLed(markers) && PrefixFree(markers)
    requires '`' !in before
    ensures BeforeCode(before + marker + rest, markers) == before
  {
    var s := before + marker + rest;
    assert s[..|before|] == before;
    assert s[|before|..|before| + |marker|] == marker;
    LeadingOpener(markers, s, |before|, marker);
  }

  /** A tag without backticks in front of an unfenced body keeps it unfenced. */
  lemma UnfencedTag(tag: string, code: string)
    requires '`' !in tag && Unfenced(code)
    ensures Unfenced(tag + code)
  {
    var t, u := tag + code + Fence, code + Fence;
    assert t == tag + u;
    forall j | 0 <= j < |tag + code|
      ensures !MatchesAt(t, Fence, j)
    {
      if j < |tag| {
        assert t[j] == tag[j];
      } else {
        assert !MatchesAt(u, Fence, j - |tag|);
        if j + 3 <= |t| {
          assert t[j..j + 3] == u[j - |tag|..j - |tag| + 3];
        }
      }
    }
  }

  /** Text without backticks starting a string: the first fence is the
      opener's. */
  lemma FirstFenceAt(s: string, at: nat)
    requires at + 3 <= |s| && '`' !in s[..at] && s[at..at + 3] == Fence
    ensures IndexOf(s, Fence, 0) == Some(at)
  {
    var pre := s[..at];
    UnfencedTag(pre, "");
    assert pre + "" == pre;
    assert s[0..at + 3] == pre + Fence;
    ClosingFence(s, 0, pre);
  }

  /** Splitting at fences: the text before a fence-led opener is the first piece. */
  lemma SplitAtOpener(before: string, opener: string, rest: string)
    requires FenceLed(opener) && '`' !in before
    ensures SplitOn(before + opener + rest, Fence) == [before] + SplitOn(opener[3..] + rest, Fence)
  {
    var s := before + opener + rest;
    assert s[..|before|] == before;
    assert s[|before|..|before| + 3] == opener[..3];
    FirstFenceAt(s, |before|);
    SplitFirst(s, Fence, |before|);
    assert s[|before| + 3..] == opener[3..] + rest;
  }

  /** Splitting at fences: an unfenced piece before a fence is the first piece. */
  lemma SplitAtClosing(body: string, after: string)
    requires Unfenced(body)
    ensures SplitOn(body + Fence + after, Fence) == [body] + SplitOn(after, Fence)
  {
    var s := body + Fence + after;
    assert s[0..|body| + 3] == body + Fence;
    ClosingFence(s, 0, body);
    SplitFirst(s, Fence, |body|);
    assert s[..|body|] == body;
    assert s[|body| + 3..] == after;
  }

  /** The fence-separated segments of a block's text: the text before it,
      the opener's tag with the body, then the segments after the block. */
  lemma SegmentsOfBlock(before: string, opener: string, code: string, after: string)
    requires FenceLed(opener) && '`' !in before && Unfenced(code)
    ensures SplitOn(before + opener + code + Fence + after, Fence)
         == [before, opener[3..] + code] + SplitOn(after, Fence)
  {
    var tag := opener[3..];
    var rest := code + Fence + after;
    assert before + opener + code + Fence + after == before + opener + rest;
    SplitAtOpener(before, opener, rest);
    assert tag + rest == (tag + code) + Fence + after;
    UnfencedTag(tag, code);
    SplitAtClosing(tag + code, after);
  }

  /** What follows a block is read from the text after its closing fence,
      up to the next fence there. */
  lemma AfterOfBlock(before: string, opener: string, code: string, after: string)
    requires FenceLed(opener) && '`' !in before && Unfenced(code)
    ensures AfterCode(before + opener + code + Fence + after) == SplitOn(after, Fence)[0]
  {
    SegmentsOfBlock(before, opener, code, after);
  }

  /** Text without backticks holds no fence, so splitting it at fences
      leaves it whole. */
  lemma NoBacktickNoFence(s: string)
    requires '`' !in s
    ensures forall i :: !MatchesAt(s, Fence, i)
    ensures SplitOn(s, Fence) == [s]
  {
    forall i
      ensures !MatchesAt(s, Fence, i)
    {
      if 0 <= i && i + 3 <= |s| {
        assert s[i] == s[i..i + 3][0];
      }
    }
    SplitNoSep(s, Fence);
  }
}
