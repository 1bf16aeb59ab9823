/** Small sequence utilities shared by the stream decoders. */
module Seqs {

  datatype Option<+T> = None | Some(value: T)

  /** All elements but the last (what is left after JavaScript's `Array.prototype.pop`). */
  function Init<T>(s: seq<T>): (r: seq<T>)
    requires |s| > 0
    ensures |r| == |s| - 1 && s == r + [s[|s| - 1]]
  {
    s[..|s| - 1]
  }

  function Last<T>(s: seq<T>): T
    requires |s| > 0
  {
    s[|s| - 1]
  }

  lemma InitLastCons<T>(a: T, s: seq<T>)
    requires |s| > 0
    ensures Init([a] + s) == [a] + Init(s) && Last([a] + s) == Last(s)
  {
  }

  /** A sequence is the concatenation of its three pieces around `i` and `j`. */
  lemma Pieces3<T>(s: seq<T>, i: nat, j: nat)
    requires i <= j <= |s|
    ensures s == s[..i] + s[i..j] + s[j..]
  {
  }

  /** A prefix is the shorter prefix followed by the slice between them. */
  lemma PrefixSplit<T>(s: seq<T>, i: nat, j: nat)
    requires i <= j <= |s|
    ensures s[..j] == s[..i] + s[i..j]
  {
  }

  /** Concatenation of a list of strings, e.g. the chunks read from a stream so far. */
  function Concat(ss: seq<string>): string
  {
    if ss == [] then "" else Concat(Init(ss)) + Last(ss)
  }

  lemma {:induction false} ConcatAppend(a: seq<string>, b: seq<string>)
    ensures Concat(a + b) == Concat(a) + Concat(b)
    decreases |b|
  {
    if b == [] {
      assert a + b == a;
    } else {
      assert Init(a + b) == a + Init(b);
      ConcatAppend(a, Init(b));
    }
  }

  lemma ConcatSnoc(ss: seq<string>, i: nat)
    requires i < |ss|
    ensures Concat(ss[..i + 1]) == Concat(ss[..i]) + ss[i]
  {
    assert Init(ss[..i + 1]) == ss[..i];
  }

  /** Keep the `Some` results of `f`, in order: the shape of every
      "decode each line, emit when there is something" loop. */
  function FilterMap<A, B>(f: A -> Option<B>, xs: seq<A>): (r: seq<B>)
    ensures |r| <= |xs|
  {
    if xs == [] then []
    else FilterMap(f, Init(xs)) + (match f(Last(xs)) case Some(y) => [y] case None => [])
  }

  lemma {:induction false} FilterMapAppend<A, B>(f: A -> Option<B>, a: seq<A>, b: seq<A>)
    ensures FilterMap(f, a + b) == FilterMap(f, a) + FilterMap(f, b)
    decreases |b|
  {
    if b == [] {
      assert a + b == a;
    } else {
      assert Init(a + b) == a + Init(b);
      FilterMapAppend(f, a, Init(b));
    }
  }

  lemma FilterMapSnoc<A, B>(f: A -> Option<B>, xs: seq<A>, i: nat)
    requires i < |xs|
    ensures FilterMap(f, xs[..i + 1]) == FilterMap(f, xs[..i]) + (match f(xs[i]) case Some(y) => [y] case None => [])
  {
    assert Init(xs[..i + 1]) == xs[..i];
  }

  /** One more element, without looking at what `f` makes of it. */
  lemma FilterMapStep<A, B>(f: A -> Option<B>, xs: seq<A>, i: nat)
    requires i < |xs|
    ensures FilterMap(f, xs[..i + 1]) == FilterMap(f, xs[..i]) + FilterMap(f, [xs[i]])
  {
    assert xs[..i + 1] == xs[..i] + [xs[i]];
    FilterMapAppend(f, xs[..i], [xs[i]]);
  }

  /** `f` accepts nothing in `xs`. */
  lemma {:induction false} FilterMapNone<A, B>(f: A -> Option<B>, xs: seq<A>)
    requires forall i :: 0 <= i < |xs| ==> f(xs[i]).None?
    ensures FilterMap(f, xs) == []
  {
    if xs != [] {
      FilterMapNone(f, Init(xs));
    }
  }

  /** An element `f` rejects can be dropped without changing the result. */
  lemma FilterMapSkip<A, B>(f: A -> Option<B>, xs: seq<A>, k: nat)
    requires k < |xs| && f(xs[k]).None?
    ensures FilterMap(f, xs) == FilterMap(f, xs[..k] + xs[k + 1..])
  {
    var a, b, x := xs[..k], xs[k + 1..], xs[k];
    calc {
      FilterMap(f, xs);
      { assert xs == (a + [x]) + b; }
      FilterMap(f, (a + [x]) + b);
      { FilterMapAppend(f, a + [x], b); }
      FilterMap(f, a + [x]) + FilterMap(f, b);
      { FilterMapRejects(f, a, x); }
      FilterMap(f, a) + FilterMap(f, b);
      { FilterMapAppend(f, a, b); }
      FilterMap(f, a + b);
    }
  }

  /** An element `f` rejects adds nothing at the end. */
  lemma FilterMapRejects<A, B>(f: A -> Option<B>, xs: seq<A>, x: A)
    requires f(x).None?
    ensures FilterMap(f, xs + [x]) == FilterMap(f, xs)
  {
    assert Init(xs + [x]) == xs;
  }

  /** `f` accepts every element of `xs`: one result per element, in order. */
  lemma {:induction false} FilterMapAll<A, B>(f: A -> Option<B>, xs: seq<A>)
    requires forall i :: 0 <= i < |xs| ==> f(xs[i]).Some?
    ensures |FilterMap(f, xs)| == |xs|
    ensures forall i :: 0 <= i < |xs| ==> FilterMap(f, xs)[i] == f(xs[i]).value
  {
    if xs != [] {
      FilterMapAll(f, Init(xs));
    }
  }
}
