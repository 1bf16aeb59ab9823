/** The test endpoint that bypasses the upstream: it streams a fixed
    message word by word as `0:` token lines, the shape the chat route's
    second decoding branch reads. */
module ChatTestRoute {
  import opened Seqs
  import opened Text
  import opened Json
  import opened LineReassembly
  import ChatRoute

  const TestMessage: string := "Hello from test route! This is working!"

  /** `testMessage.split(' ')`. */
  function Words(message: string): (r: seq<string>)
    ensures |r| > 0
  {
    SplitOn(message, " ")
  }

  /** The token line for one word: `0:` and the JSON string of the word
      followed by one space. */
  function TokenLine(word: string): string
  {
    "0:" + Stringify(JStr(word + " "))
  }

  /** The chunk enqueued for one word: its token line and a line feed. */
  function TokenChunk(word: string): string
  {
    TokenLine(word) + "\n"
  }

  function TokenLines(words: seq<string>): (r: seq<string>)
    ensures |r| == |words|
  {
    seq(|words|, i requires 0 <= i < |words| => TokenLine(words[i]))
  }

  function TokenChunks(words: seq<string>): (r: seq<string>)
    ensures |r| == |words|
  {
    seq(|words|, i requires 0 <= i < |words| => TokenChunk(words[i]))
  }

  /** The words, each followed by the space the endpoint appends. */
  function Spaced(words: seq<string>): (r: seq<string>)
    ensures |r| == |words|
  {
    seq(|words|, i requires 0 <= i < |words| => words[i] + " ")
  }

  /** The stream the endpoint serves. */
  class TestStream {
    var enqueued: seq<string>
    var closed: bool
    var errored: bool

    constructor ()
      ensures enqueued == [] && !closed && !errored
    {
      enqueued := [];
      closed := false;
      errored := false;
    }

    /** `start(controller)`: streams the fixed message. */
    method Start(failsAt: Option<nat>)
      requires enqueued == [] && !closed && !errored
      modifies this
      ensures var chunks := TokenChunks(Words(TestMessage));
        if failsAt.Some? && failsAt.value < |chunks|
        then enqueued == chunks[..failsAt.value] && errored && !closed
        else enqueued == chunks && closed && !errored
    {
      StreamWords(Words(TestMessage), failsAt);
    }

    /** The loop of `start`: one chunk per word, in word order, then the
        stream is closed. `failsAt` is the word whose `enqueue` throws, if
        any (the consumer has gone): the chunks before it stay enqueued
        and the stream is errored instead of closed. */
    method StreamWords(words: seq<string>, failsAt: Option<nat>)
      requires enqueued == [] && !closed && !errored
      modifies this
      ensures if failsAt.Some? && failsAt.value < |words|
        then enqueued == TokenChunks(words)[..failsAt.value] && errored && !closed
        else enqueued == TokenChunks(words) && closed && !errored
    {
      var i := 0;
      while i < |words|
        invariant 0 <= i <= |words|
        invariant enqueued == TokenChunks(words)[..i]
        invariant !closed && !errored
        invariant failsAt.Some? ==> i <= failsAt.value
      {
        if failsAt == Some(i) {
          errored := true;
          return;
        }
        var chunk := TokenChunk(words[i]);
        assert TokenChunks(words)[..i + 1] == TokenChunks(words)[..i] + [chunk];
        enqueued := enqueued + [chunk];
        i := i + 1;
      }
      assert TokenChunks(words)[..i] == TokenChunks(words);
      closed := true;
    }
  }

  /** The chunks are read back as the token lines, one per word, with
      nothing left in the buffer. */
  lemma ReadTokenLines(words: seq<string>)
    ensures CompleteLines(Concat(TokenChunks(words))) == TokenLines(words)
    ensures Pending(Concat(TokenChunks(words))) == ""
  {
    var lines := TokenLines(words);
    assert TokenChunks(words) == Newlined(lines);
    NewlinedTerminated(lines);
    forall k | 0 <= k < |lines|
      ensures OneLine(lines[k])
    {
      TokenLineOneLine(words[k]);
    }
    TerminatedPendingEmpty(lines);
  }

  lemma TokenLineOneLine(word: string)
    ensures OneLine(TokenLine(word))
  {
    var q := Stringify(JStr(word + " "));
    StringifyOneLine(JStr(word + " "));
    assert '\n' !in "0:";
    assert TokenLine(word) == "0:" + q;
  }

  /** Every token line is accepted by the chat route's `0:` branch and
      carries exactly its word and the space after it. */
  lemma RouteReadsTokens(parse: string -> Option<Json>, words: seq<string>)
    requires InvertsStringify(parse)
    ensures ChatRoute.RouteFrames(parse, TokenChunks(words))
         == seq(|words|, i requires 0 <= i < |words| => ChatRoute.Frame(JStr(words[i] + " ")))
  {
    ReadTokenLines(words);
    var lines := TokenLines(words);
    var f := ChatRoute.RouteDecoder(parse);
    forall k | 0 <= k < |lines|
      ensures f(lines[k]) == Some(ChatRoute.Frame(JStr(words[k] + " ")))
    {
      TokenLineRead(parse, words[k]);
    }
    FilterMapAll(f, lines);
  }

  /** Joining the words back with single spaces, each word followed by a space. */
  lemma {:induction false} SpacedJoin(words: seq<string>)
    requires |words| > 0
    ensures Concat(Spaced(words)) == Join(words, " ") + " "
    decreases |words|
  {
    var sp := Spaced(words);
    if |words| > 1 {
      var w := Init(words);
      SpacedJoin(w);
      assert Init(sp) == Spaced(w);
      assert Last(sp) == Last(words) + " ";
      calc {
        Concat(sp);
        Concat(Spaced(w)) + Last(sp);
        (Join(w, " ") + " ") + (Last(words) + " ");
        (Join(w, " ") + " " + Last(words)) + " ";
        Join(words, " ") + " ";
      }
    } else {
      assert Init(sp) == [];
      assert Concat(sp) == Concat([]) + sp[0];
    }
  }

  /** The decoded tokens, concatenated, spell the message followed by one
      trailing space. */
  lemma TokensSpellMessage(message: string)
    ensures Concat(Spaced(Words(message))) == message + " "
  {
    SpacedJoin(Words(message));
    SplitJoin(message, " ");
  }

  /** What a reader of the token lines makes of one line: the text the
      chat route's `0:` branch decodes, when it is a string. */
  function TokenText(parse: string -> Option<Json>): string -> Option<string>
  {
    line => match ChatRoute.LineContent(parse, line) case Some(JStr(s)) => Some(s) case _ => None
  }

  /** One token line, read by the chat route: its word and the space. */
  lemma TokenLineRead(parse: string -> Option<Json>, word: string)
    requires InvertsStringify(parse)
    ensures TokenText(parse)(TokenLine(word)) == Some(word + " ")
    ensures ChatRoute.RouteDecoder(parse)(TokenLine(word)) == Some(ChatRoute.Frame(JStr(word + " ")))
  {
    assert TokenLine(word) == "0:" + Quote(word + " ");
    ChatRoute.TokenLine(parse, word + " ");
  }

  /** The texts decoded from the token lines are the words with their spaces. */
  lemma DecodedTokens(parse: string -> Option<Json>, words: seq<string>)
    requires InvertsStringify(parse)
    ensures FilterMap(TokenText(parse), TokenLines(words)) == Spaced(words)
  {
    var lines := TokenLines(words);
    forall i | 0 <= i < |lines|
      ensures TokenText(parse)(lines[i]) == Some(Spaced(words)[i])
    {
      TokenLineRead(parse, words[i]);
    }
    FilterMapAll(TokenText(parse), lines);
  }

  /** Reading the stream with a faithful `JSON.parse`: every line is
      accepted by the chat route's `0:` branch, and the texts decoded,
      concatenated, give back the message and one trailing space. */
  lemma StreamReadsBack(parse: string -> Option<Json>, message: string)
    requires InvertsStringify(parse)
    ensures FilterMap(TokenText(parse), CompleteLines(Concat(TokenChunks(Words(message))))) == Spaced(Words(message))
    ensures Concat(FilterMap(TokenText(parse), CompleteLines(Concat(TokenChunks(Words(message)))))) == message + " "
  {
    ReadTokenLines(Words(message));
    DecodedTokens(parse, Words(message));
    TokensSpellMessage(message);
  }
}
