/** The JavaScript string operations the pipeline relies on: `trim`,
    `startsWith`, `indexOf`, `split` with a string separator, `join`,
    and the decimal rendering of integers. Strings are sequences of
    Unicode scalar values. */
module Text {
  import opened Seqs

  /** The characters `String.prototype.trim` removes: ECMAScript's
      WhiteSpace (TAB, VT, FF, ZWNBSP and every space separator) and
      LineTerminator (LF, CR, LS, PS). */
  predicate IsSpace(c: char)
  {
    || c == ' ' || c == '\t' || c == '\n' || c == '\r'
    || c == '\U{000B}' || c == '\U{000C}' || c == '\U{00A0}' || c == '\U{1680}'
    || ('\U{2000}' <= c <= '\U{200A}')
    || c == '\U{2028}' || c == '\U{2029}' || c == '\U{202F}' || c == '\U{205F}'
    || c == '\U{3000}' || c == '\U{FEFF}'
  }

  function TrimStart(s: string): (r: string)
    ensures |r| <= |s|
  {
    if s != [] && IsSpace(s[0]) then TrimStart(s[1..]) else s
  }

  function TrimEnd(s: string): (r: string)
    ensures |r| <= |s|
  {
    if s != [] && IsSpace(s[|s| - 1]) then TrimEnd(s[..|s| - 1]) else s
  }

  /** `s.trim()`: the longest infix of `s` that neither starts nor ends with white space. */
  function Trim(s: string): string
  {
    TrimEnd(TrimStart(s))
  }

  /** `trimStart` removes exactly the leading white space: what remains is a
      suffix that does not start with white space, and all it dropped was white space. */
  lemma {:induction false} TrimStartShape(s: string)
    ensures var r := TrimStart(s);
      && r == s[|s| - |r|..]
      && (r == [] || !IsSpace(r[0]))
      && forall i :: 0 <= i < |s| - |r| ==> IsSpace(s[i])
    decreases |s|
  {
    if s != [] && IsSpace(s[0]) {
      TrimStartShape(s[1..]);
    }
  }

  /** `trimEnd` removes exactly the trailing white space. */
  lemma {:induction false} TrimEndShape(s: string)
    ensures var r := TrimEnd(s);
      && r == s[..|r|]
      && (r == [] || !IsSpace(r[|r| - 1]))
      && forall i :: |r| <= i < |s| ==> IsSpace(s[i])
    decreases |s|
  {
    if s != [] && IsSpace(s[|s| - 1]) {
      TrimEndShape(s[..|s| - 1]);
    }
  }

  /** The trim of `s` neither starts nor ends with white space. */
  lemma TrimEnds(s: string)
    ensures var r := Trim(s); r == [] || (!IsSpace(r[0]) && !IsSpace(r[|r| - 1]))
  {
    var t := TrimStart(s);
    var r := TrimEnd(t);
    TrimStartShape(s);
    TrimEndShape(t);
    if r != [] {
      assert r[0] == t[0];
    }
  }

  /** The trim of `s` is the infix of `s` that starts after its leading white space. */
  lemma TrimInfix(s: string)
    ensures var r, k := Trim(s), |s| - |TrimStart(s)|;
      k + |r| <= |s| && r == s[k..k + |r|]
  {
    var t := TrimStart(s);
    var r := TrimEnd(t);
    var k := |s| - |t|;
    TrimStartShape(s);
    TrimEndShape(t);
    assert s[k..][..|r|] == s[k..k + |r|];
  }

  /** A string that neither starts nor ends with white space is its own trim. */
  lemma TrimNoop(s: string)
    requires s == [] || (!IsSpace(s[0]) && !IsSpace(s[|s| - 1]))
    ensures Trim(s) == s
  {
  }

  /** A string that does not start with white space keeps its first
      character when trimmed. */
  lemma TrimKeepsFirst(s: string)
    requires s != [] && !IsSpace(s[0])
    ensures Trim(s) != [] && Trim(s)[0] == s[0]
  {
    TrimEndShape(s);
  }

  /** `!s.trim()` holds exactly for strings made only of white space. */
  lemma TrimEmptyIffBlank(s: string)
    ensures Trim(s) == "" <==> forall i :: 0 <= i < |s| ==> IsSpace(s[i])
  {
    var t := TrimStart(s);
    TrimStartShape(s);
    TrimEndShape(t);
    if t != [] {
      assert t[0] == s[|s| - |t|];
    }
  }

  predicate StartsWith(s: string, prefix: string)
  {
    |prefix| <= |s| && s[..|prefix|] == prefix
  }

  /** `pat` occurs in `s` at index `i`. */
  predicate MatchesAt(s: string, pat: string, i: int)
  {
    0 <= i && i + |pat| <= |s| && s[i..i + |pat|] == pat
  }

  /** `s.indexOf(pat, from)` as an option: the first occurrence at or after `from`. */
  function IndexOf(s: string, pat: string, from: nat): (r: Option<nat>)
    ensures r.Some? ==> from <= r.value && MatchesAt(s, pat, r.value)
    decreases |s| - from
  {
    if from + |pat| > |s| then None
    else if s[from..from + |pat|] == pat then Some(from)
    else IndexOf(s, pat, from + 1)
  }

  /** The occurrence found is the first one at or after `from`, and none
      means there is none. */
  lemma {:induction false} IndexOfFirst(s: string, pat: string, from: nat)
    ensures var r := IndexOf(s, pat, from);
      && (r.Some? ==> forall i :: from <= i < r.value ==> !MatchesAt(s, pat, i))
      && (r.None? ==> forall i :: from <= i ==> !MatchesAt(s, pat, i))
    decreases |s| - from
  {
    if from + |pat| <= |s| && s[from..from + |pat|] != pat {
      IndexOfFirst(s, pat, from + 1);
    }
  }

  /** An occurrence found in `x` is still the first one in any extension `x + y`. */
  lemma IndexOfExtend(x: string, y: string, pat: string, from: nat)
    requires IndexOf(x, pat, from).Some?
    ensures IndexOf(x + y, pat, from) == IndexOf(x, pat, from)
  {
    var i := IndexOf(x, pat, from).value;
    IndexOfFirst(x, pat, from);
    IndexOfFirst(x + y, pat, from);
    assert (x + y)[i..i + |pat|] == x[i..i + |pat|];
    forall j | from <= j < i ensures !MatchesAt(x + y, pat, j) {
      assert !MatchesAt(x, pat, j);
      assert (x + y)[j..j + |pat|] == x[j..j + |pat|];
    }
    assert MatchesAt(x + y, pat, i);
    var k := IndexOf(x + y, pat, from);
    assert k.Some? && k.value <= i;
  }

  /** `s.split(sep)` for a non-empty separator: the pieces between
      successive non-overlapping occurrences of `sep`, left to right. */
  function SplitOn(s: string, sep: string): (r: seq<string>)
    requires |sep| > 0
    ensures |r| > 0
    decreases |s|
  {
    var k := IndexOf(s, sep, 0);
    if k.None? then [s]
    else [s[..k.value]] + SplitOn(s[k.value + |sep|..], sep)
  }

  /** `parts.join(sep)`. */
  function Join(parts: seq<string>, sep: string): string
  {
    if parts == [] then ""
    else if |parts| == 1 then parts[0]
    else Join(Init(parts), sep) + sep + Last(parts)
  }

  lemma JoinCons(p: string, parts: seq<string>, sep: string)
    requires |parts| > 0
    ensures Join([p] + parts, sep) == p + sep + Join(parts, sep)
    decreases |parts|
  {
    if |parts| > 1 {
      assert Init([p] + parts) == [p] + Init(parts);
      JoinCons(p, Init(parts), sep);
    }
  }

  /** Splitting and re-joining with the same separator gives the string back. */
  lemma {:induction false} SplitJoin(s: string, sep: string)
    requires |sep| > 0
    ensures Join(SplitOn(s, sep), sep) == s
    decreases |s|
  {
    var k := IndexOf(s, sep, 0);
    if k.Some? {
      var i := k.value;
      var rest := s[i + |sep|..];
      assert SplitOn(s, sep) == [s[..i]] + SplitOn(rest, sep);
      SplitJoin(rest, sep);
      JoinCons(s[..i], SplitOn(rest, sep), sep);
      Pieces3(s, i, i + |sep|);
    }
  }

  /** No piece of a split contains the separator. */
  lemma {:induction false} SplitPiecesFree(s: string, sep: string, k: nat)
    requires |sep| > 0 && k < |SplitOn(s, sep)|
    ensures forall i :: !MatchesAt(SplitOn(s, sep)[k], sep, i)
    decreases |s|
  {
    var n := IndexOf(s, sep, 0);
    if n.None? {
      IndexOfFirst(s, sep, 0);
      SplitNone(s, sep);
    } else {
      var i := n.value;
      SplitFirst(s, sep, i);
      if k == 0 {
        BeforeFirstFree(s, sep, i);
      } else {
        SplitPiecesFree(s[i + |sep|..], sep, k - 1);
      }
    }
  }

  /** The text before the first occurrence contains none. */
  lemma BeforeFirstFree(s: string, sep: string, i: nat)
    requires |sep| > 0 && IndexOf(s, sep, 0) == Some(i)
    ensures forall j :: !MatchesAt(s[..i], sep, j)
  {
    IndexOfFirst(s, sep, 0);
    forall j ensures !MatchesAt(s[..i], sep, j) {
      if 0 <= j && j + |sep| <= i {
        assert s[..i][j..j + |sep|] == s[j..j + |sep|];
        assert !MatchesAt(s, sep, j);
      }
    }
  }

  /** Splitting an extended string: every piece of `x` but the last is kept,
      and the last piece of `x` continues into `y`. This is what lets a line
      reader carry an unterminated fragment from one chunk to the next. */
  lemma {:induction false} SplitAppend(x: string, y: string, sep: string)
    requires |sep| > 0
    ensures SplitOn(x + y, sep) == Init(SplitOn(x, sep)) + SplitOn(Last(SplitOn(x, sep)) + y, sep)
    decreases |x|
  {
    var k := IndexOf(x, sep, 0);
    if k.None? {
      SplitNone(x, sep);
    } else {
      var i := k.value;
      var rest := x[i + |sep|..];
      IndexOfExtend(x, y, sep, 0);
      SplitFirst(x, sep, i);
      SplitFirst(x + y, sep, i);
      assert (x + y)[i + |sep|..] == rest + y;
      assert (x + y)[..i] == x[..i];
      SplitAppend(rest, y, sep);
      InitLastCons(x[..i], SplitOn(rest, sep));
    }
  }

  /** Without an occurrence, the split is the whole string. */
  lemma SplitNone(s: string, sep: string)
    requires |sep| > 0 && IndexOf(s, sep, 0).None?
    ensures SplitOn(s, sep) == [s]
  {
  }

  /** The split begins with the piece before the first occurrence. */
  lemma SplitFirst(s: string, sep: string, i: nat)
    requires |sep| > 0 && IndexOf(s, sep, 0) == Some(i)
    ensures SplitOn(s, sep) == [s[..i]] + SplitOn(s[i + |sep|..], sep)
  {
    var k := IndexOf(s, sep, 0);
    assert SplitOn(s, sep) == [s[..k.value]] + SplitOn(s[k.value + |sep|..], sep);
  }

  lemma SplitNoSep(s: string, sep: string)
    requires |sep| > 0 && forall i :: !MatchesAt(s, sep, i)
    ensures SplitOn(s, sep) == [s]
  {
  }

  /** Splitting at a one-character separator that follows a separator-free prefix. */
  lemma SplitSep(a: string, sep: string, b: string)
    requires |sep| == 1 && forall i :: !MatchesAt(a, sep, i)
    ensures SplitOn(a + sep + b, sep) == [a] + SplitOn(b, sep)
  {
    var s := a + sep + b;
    assert MatchesAt(s, sep, |a|) by { assert s[|a|..|a| + |sep|] == sep; }
    var k := IndexOf(s, sep, 0);
    IndexOfFirst(s, sep, 0);
    assert k == Some(|a|) by {
      if k.Some? && k.value < |a| {
        var j := k.value;
        assert s[j..j + |sep|] == a[j..j + |sep|];
        assert MatchesAt(a, sep, j);
      }
    }
    assert s[..|a|] == a;
    assert s[|a| + |sep|..] == b;
  }

  /** Decimal digits of a natural number, most significant first. */
  function NatToString(n: nat): (r: string)
    ensures |r| > 0
  {
    if n < 10 then [DigitChar(n)] else NatToString(n / 10) + [DigitChar(n % 10)]
  }

  function DigitChar(d: nat): char
    requires d < 10
  {
    "0123456789"[d]
  }

  /** `String(n)` for an integer-valued number. */
  function IntToString(n: int): (r: string)
    ensures |r| > 0
  {
    if n < 0 then "-" + NatToString(-n) else NatToString(n)
  }
}
