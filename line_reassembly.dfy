/** The line reader that all three stream loops share:
    `buffer += chunk; const lines = buffer.split('\n'); buffer = lines.pop() || ''`.
    After any prefix of the chunks, the lines handed out are the complete
    lines of everything received so far and the buffer is what follows the
    last line feed. None of the loops flushes the buffer when the stream
    ends, so a final line without a line feed is never decoded. */
module LineReassembly {
  import opened Seqs
  import opened Text

  /** How the read after the last delivered chunk settled. */
  datatype Ending =
    | EndOfStream             // `read()` resolved with `done: true`
    | ReadFailed(reason: string) // `read()` rejected (network error, abort)
    | Cancelled               // the consumer cancelled while this read was pending

  /** An upstream body: the chunks `read()` delivers (already decoded to text), then how it ends. */
  datatype Upstream = Upstream(chunks: seq<string>, ending: Ending)

  /** How a `fetch` settled: it rejected with a message, or a response
      arrived with its status, the text `response.text()` would read, and
      its body when it has one. */
  datatype UpstreamReply =
    | FetchFailed(message: string)
    | Responded(status: int, text: string, body: Option<Upstream>)

  /** `response.ok`. */
  predicate Ok(status: int)
  {
    200 <= status <= 299
  }

  /** The lines a reader has handed out once it has received `text`. */
  function CompleteLines(text: string): seq<string>
  {
    Init(SplitOn(text, "\n"))
  }

  /** What the reader keeps in `buffer` once it has received `text`. */
  function Pending(text: string): string
  {
    Last(SplitOn(text, "\n"))
  }

  /** `lines` each followed by a line feed. */
  function Terminated(lines: seq<string>): string
  {
    if lines == [] then "" else lines[0] + "\n" + Terminated(lines[1..])
  }

  predicate OneLine(s: string)
  {
    '\n' !in s
  }

  lemma OneLineNoMatch(s: string)
    requires OneLine(s)
    ensures forall i :: !MatchesAt(s, "\n", i)
  {
    forall i ensures !MatchesAt(s, "\n", i) {
      if 0 <= i < |s| {
        assert s[i..i + 1] == [s[i]];
      }
    }
  }

  lemma NoMatchOneLine(s: string)
    requires forall i :: !MatchesAt(s, "\n", i)
    ensures OneLine(s)
  {
    if '\n' in s {
      var i :| 0 <= i < |s| && s[i] == '\n';
      assert s[i..i + 1] == "\n";
      assert MatchesAt(s, "\n", i);
    }
  }

  /** What the reader holds after `text` is characterised exactly: `text` is
      its complete lines, each with its line feed, followed by the buffer;
      neither a line nor the buffer contains a line feed. */
  lemma ReceivedText(text: string)
    ensures text == Terminated(CompleteLines(text)) + Pending(text)
    ensures OneLine(Pending(text))
    ensures forall k :: 0 <= k < |CompleteLines(text)| ==> OneLine(CompleteLines(text)[k])
  {
    SplitTerminated(text);
    var parts := SplitOn(text, "\n");
    SplitPiecesFree(text, "\n", |parts| - 1);
    NoMatchOneLine(Pending(text));
    forall k | 0 <= k < |CompleteLines(text)| ensures OneLine(CompleteLines(text)[k]) {
      SplitPiecesFree(text, "\n", k);
      NoMatchOneLine(parts[k]);
    }
  }

  lemma {:induction false} SplitTerminated(text: string)
    ensures text == Terminated(Init(SplitOn(text, "\n"))) + Last(SplitOn(text, "\n"))
    decreases |text|
  {
    var k := IndexOf(text, "\n", 0);
    if k.Some? {
      var i := k.value;
      var rest := text[i + 1..];
      SplitTerminated(rest);
      SplitFirstLine(text, i);
      TerminatedCons(text[..i], SplitOn(rest, "\n"));
    }
  }

  lemma SplitFirstLine(text: string, i: nat)
    requires IndexOf(text, "\n", 0) == Some(i)
    ensures SplitOn(text, "\n") == [text[..i]] + SplitOn(text[i + 1..], "\n")
    ensures text == text[..i] + "\n" + text[i + 1..]
  {
    assert text[i..i + 1] == "\n";
  }

  lemma TerminatedCons(first: string, pr: seq<string>)
    requires |pr| > 0
    ensures Terminated(Init([first] + pr)) + Last([first] + pr)
         == first + "\n" + (Terminated(Init(pr)) + Last(pr))
  {
    InitLastAppend([first], pr);
    var lines := [first] + Init(pr);
    assert lines[0] == first && lines[1..] == Init(pr);
  }

  /** The converse: line-feed-free lines, each terminated, then a line-feed-free
      fragment, are read back as exactly those lines and that fragment. */
  lemma {:induction false} ReadTerminated(lines: seq<string>, rest: string)
    requires forall k :: 0 <= k < |lines| ==> OneLine(lines[k])
    requires OneLine(rest)
    ensures CompleteLines(Terminated(lines) + rest) == lines
    ensures Pending(Terminated(lines) + rest) == rest
    decreases |lines|
  {
    if lines == [] {
      OneLineNoMatch(rest);
      SplitNoSep(rest, "\n");
    } else {
      ReadTerminated(lines[1..], rest);
      OneLineNoMatch(lines[0]);
      var tail := Terminated(lines[1..]) + rest;
      assert Terminated(lines) + rest == lines[0] + "\n" + tail;
      SplitSep(lines[0], "\n", tail);
      var pt := SplitOn(tail, "\n");
      assert Init([lines[0]] + pt) == [lines[0]] + Init(pt);
      assert [lines[0]] + lines[1..] == lines;
    }
  }

  /** Receiving one more chunk: the lines already handed out stay, new lines
      come only from the old buffer followed by the chunk, and the new
      buffer is the tail of that. */
  lemma Feed(text: string, chunk: string)
    ensures CompleteLines(text + chunk) == CompleteLines(text) + CompleteLines(Pending(text) + chunk)
    ensures Pending(text + chunk) == Pending(Pending(text) + chunk)
  {
    var p := SplitOn(text, "\n");
    var q := SplitOn(Pending(text) + chunk, "\n");
    SplitAppend(text, chunk, "\n");
    assert SplitOn(text + chunk, "\n") == Init(p) + q;
    InitLastAppend(Init(p), q);
  }

  lemma InitLastAppend(a: seq<string>, b: seq<string>)
    requires |b| > 0
    ensures Init(a + b) == a + Init(b) && Last(a + b) == Last(b)
  {
  }

  /** The step a reassembly loop takes on chunk `i`. */
  lemma FeedChunk(chunks: seq<string>, i: nat)
    requires i < |chunks|
    ensures var before := Concat(chunks[..i]);
      && CompleteLines(Concat(chunks[..i + 1])) == CompleteLines(before) + CompleteLines(Pending(before) + chunks[i])
      && Pending(Concat(chunks[..i + 1])) == Pending(Pending(before) + chunks[i])
  {
    ConcatSnoc(chunks, i);
    Feed(Concat(chunks[..i]), chunks[i]);
  }

  /** The reader run chunk by chunk from an empty buffer: each chunk is
      appended to the buffer, the buffer's complete lines are handed out,
      and what follows its last line feed stays buffered. The result is
      the lines handed out so far and the buffer. */
  function Reader(chunks: seq<string>): (seq<string>, string)
  {
    if chunks == [] then ([], "")
    else
      var (lines, buffer) := Reader(Init(chunks));
      (lines + CompleteLines(buffer + Last(chunks)), Pending(buffer + Last(chunks)))
  }

  /** What the chunk-by-chunk reader holds depends only on the text
      received: its lines are the complete lines of the concatenation and
      its buffer is what follows the last line feed. */
  lemma {:induction false} ReaderReads(chunks: seq<string>)
    ensures Reader(chunks) == (CompleteLines(Concat(chunks)), Pending(Concat(chunks)))
  {
    if chunks != [] {
      ReaderReads(Init(chunks));
      Feed(Concat(Init(chunks)), Last(chunks));
    } else {
      assert SplitOn("", "\n") == [""];
    }
  }

  /** Chunk boundaries do not matter: two chunkings of the same text make
      the reader hand out the same lines and leave the same buffer. */
  lemma ChunkingIrrelevant(a: seq<string>, b: seq<string>)
    requires Concat(a) == Concat(b)
    ensures Reader(a) == Reader(b)
  {
    ReaderReads(a);
    ReaderReads(b);
  }

  /** A single line, cut anywhere into chunks and terminated, is read back as
      exactly that one line, with nothing left in the buffer. */
  lemma SingleLineAnySplit(line: string, chunks: seq<string>)
    requires OneLine(line)
    requires Concat(chunks) == line + "\n"
    ensures CompleteLines(Concat(chunks)) == [line]
    ensures Pending(Concat(chunks)) == ""
  {
    assert Terminated([line]) + "" == line + "\n";
    ReadTerminated([line], "");
  }

  /** Text that ends with a line feed leaves nothing buffered, so whatever
      follows it is read on its own. */
  lemma LinesAppend(a: string, b: string)
    requires Pending(a) == ""
    ensures CompleteLines(a + b) == CompleteLines(a) + CompleteLines(b)
  {
    Feed(a, b);
    assert Pending(a) + b == b;
  }

  lemma TerminatedPendingEmpty(lines: seq<string>)
    requires forall k :: 0 <= k < |lines| ==> OneLine(lines[k])
    ensures CompleteLines(Terminated(lines)) == lines
    ensures Pending(Terminated(lines)) == ""
  {
    assert Terminated(lines) + "" == Terminated(lines);
    ReadTerminated(lines, "");
  }

  /** One line followed by a blank line, the shape of a server-sent event
      with a single `data` field: read back as that line and an empty line. */
  lemma EventLines(line: string)
    requires OneLine(line)
    ensures CompleteLines(line + "\n\n") == [line, ""]
    ensures Pending(line + "\n\n") == ""
  {
    assert Terminated([""]) == "\n" by {
      assert [""][1..] == [];
    }
    assert Terminated([line, ""]) == line + "\n\n" by {
      assert [line, ""][1..] == [""];
    }
    TerminatedPendingEmpty([line, ""]);
  }

  /** A frame `data: <payload>` followed by a blank line, for a payload
      without line feeds: read back as the `data:` line and an empty line. */
  lemma DataEvent(payload: string)
    requires OneLine(payload)
    ensures CompleteLines("data: " + payload + "\n\n") == ["data: " + payload, ""]
    ensures Pending("data: " + payload + "\n\n") == ""
  {
    assert OneLine("data: " + payload) by {
      assert forall c :: c in "data: " + payload ==> c in "data: " || c in payload;
    }
    EventLines("data: " + payload);
  }

  /** What a line decoder `f` makes of the complete lines of the chunks
      received: one result per line it accepts, in line order. */
  function Decoded<T>(f: string -> Option<T>, chunks: seq<string>): seq<T>
  {
    FilterMap(f, CompleteLines(Concat(chunks)))
  }

  /** Receiving chunk `i` extends what the first `i` chunks decoded to by
      what the lines completed by the buffer and that chunk decode to. */
  lemma DecodedNext<T>(f: string -> Option<T>, chunks: seq<string>, i: nat)
    requires i < |chunks|
    ensures var held := Pending(Concat(chunks[..i]));
      && Pending(Concat(chunks[..i + 1])) == Pending(held + chunks[i])
      && Decoded(f, chunks[..i + 1]) == Decoded(f, chunks[..i]) + FilterMap(f, CompleteLines(held + chunks[i]))
  {
    FeedChunk(chunks, i);
    FilterMapAppend(f, CompleteLines(Concat(chunks[..i])), CompleteLines(Pending(Concat(chunks[..i])) + chunks[i]));
  }

  /** When the buffer is empty, a last fragment without a line feed is held
      back and never decoded, whatever it holds. */
  lemma FragmentDropped<T>(f: string -> Option<T>, chunks: seq<string>, fragment: string)
    requires Pending(Concat(chunks)) == "" && OneLine(fragment)
    ensures Decoded(f, chunks + [fragment]) == Decoded(f, chunks)
  {
    ConcatAppend(chunks, [fragment]);
    assert Concat([fragment]) == fragment by { assert Init([fragment]) == []; }
    Feed(Concat(chunks), fragment);
    assert Terminated([]) + fragment == fragment;
    ReadTerminated([], fragment);
    assert "" + fragment == fragment;
    FilterMapAppend(f, CompleteLines(Concat(chunks)), []);
    assert CompleteLines(Concat(chunks)) + [] == CompleteLines(Concat(chunks));
  }

  /** Terminating one more line appends it and its line feed. */
  lemma {:induction false} TerminatedSnoc(lines: seq<string>, line: string)
    ensures Terminated(lines + [line]) == Terminated(lines) + line + "\n"
    decreases |lines|
  {
    if lines == [] {
      assert [line][1..] == [];
    } else {
      assert (lines + [line])[1..] == lines[1..] + [line];
      TerminatedSnoc(lines[1..], line);
    }
  }

  /** Each line followed by a line feed, as separate chunks. */
  function Newlined(lines: seq<string>): (r: seq<string>)
    ensures |r| == |lines|
  {
    seq(|lines|, i requires 0 <= i < |lines| => lines[i] + "\n")
  }

  /** Sending each line with its line feed as its own chunk sends the
      terminated lines. */
  lemma {:induction false} NewlinedTerminated(lines: seq<string>)
    ensures Concat(Newlined(lines)) == Terminated(lines)
    decreases |lines|
  {
    var nl := Newlined(lines);
    if lines != [] {
      var ls := Init(lines);
      NewlinedTerminated(ls);
      assert Init(nl) == Newlined(ls);
      assert Last(nl) == Last(lines) + "\n";
      assert lines == ls + [Last(lines)];
      TerminatedSnoc(ls, Last(lines));
      calc {
        Concat(nl);
        Concat(Newlined(ls)) + Last(nl);
        Terminated(ls) + (Last(lines) + "\n");
        Terminated(ls) + Last(lines) + "\n";
        Terminated(lines);
      }
    }
  }
}
