/** JSON values as the pipeline sees them after `JSON.parse`, and the three
    ways the sources turn values back into text: `JSON.stringify` (compact
    and with a two-space indent) and JavaScript's `String(value)`.
    Numbers are integers; string escaping follows section 7 of RFC 8259 in
    the exact form ECMAScript's `JSON.stringify` produces. */
module Json {
  import opened Seqs
  import opened Text

  datatype Json =
    | JNull
    | JBool(b: bool)
    | JNum(n: int)
    | JStr(s: string)
    | JArr(items: seq<Json>)
    | JObj(fields: seq<Field>)

  /** One `"key": value` member of an object, in source order. */
  datatype Field = Field(key: string, value: Json)

  /** JavaScript truthiness of a parsed value (`if (content)`, `a || b`). */
  predicate Truthy(j: Json)
  {
    match j
    case JNull => false
    case JBool(b) => b
    case JNum(n) => n != 0
    case JStr(s) => s != ""
    case JArr(_) => true
    case JObj(_) => true
  }

  /** The binding of `key` among `fields`; the last one wins, as in `JSON.parse`. */
  function Lookup(fields: seq<Field>, key: string): (r: Option<Json>)
    ensures r.None? <==> forall i :: 0 <= i < |fields| ==> fields[i].key != key
  {
    if fields == [] then None
    else if Last(fields).key == key then Some(Last(fields).value)
    else Lookup(Init(fields), key)
  }

  /** The binding at index `k` is the one read back when no later field
      has the same key. */
  lemma {:induction false} LookupAt(fields: seq<Field>, k: nat)
    requires k < |fields|
    requires forall i :: k < i < |fields| ==> fields[i].key != fields[k].key
    ensures Lookup(fields, fields[k].key) == Some(fields[k].value)
    decreases |fields|
  {
    if k < |fields| - 1 {
      LookupAt(Init(fields), k);
    }
  }

  /** A property read `v.key` (or `v?.key`) on a parsed value: only objects
      carry the members the pipeline reads; anything else gives `undefined`. */
  function Member(j: Json, key: string): (r: Option<Json>)
    ensures r.Some? ==> j.JObj?
  {
    if j.JObj? then Lookup(j.fields, key) else None
  }

  /** `v?.[0]`: the first element of an array, the member named "0" of an
      object, or the first character of a string. */
  function Index0(j: Json): (r: Option<Json>)
    ensures j.JArr? && j.items != [] ==> r == Some(j.items[0])
  {
    match j
    case JArr(items) => if items == [] then None else Some(items[0])
    case JObj(fields) => Lookup(fields, "0")
    case JStr(s) => if s == "" then None else Some(JStr([s[0]]))
    case _ => None
  }

  // ---------------------------------------------------------------------
  // String escaping (RFC 8259, section 7)
  // ---------------------------------------------------------------------

  function HexDigit(d: nat): char
    requires d < 16
  {
    "0123456789abcdef"[d]
  }

  /** How `JSON.stringify` writes one character inside a string literal:
      the two-character escapes for quote, reverse solidus, backspace,
      form feed, line feed, carriage return and tab; `\u00xx` with
      lower-case hex digits for the other control characters; the
      character itself otherwise. */
  function EscapeChar(c: char): (r: string)
    ensures |r| > 0 && '\n' !in r
    ensures forall i :: 0 <= i < |r| ==> ' ' <= r[i]
  {
    if c == '"' then "\\\""
    else if c == '\\' then "\\\\"
    else if c == '\U{0008}' then "\\b"
    else if c == '\U{000C}' then "\\f"
    else if c == '\n' then "\\n"
    else if c == '\r' then "\\r"
    else if c == '\t' then "\\t"
    else if c < ' ' then "\\u00" + [HexDigit(c as nat / 16), HexDigit(c as nat % 16)]
    else [c]
  }

  function Escape(s: string): (r: string)
    ensures '\n' !in r
    ensures forall i :: 0 <= i < |r| ==> ' ' <= r[i]
  {
    if s == [] then "" else EscapeChar(s[0]) + Escape(s[1..])
  }

  /** A JSON string literal for `s`: `JSON.stringify(s)`. */
  function Quote(s: string): (r: string)
    ensures |r| >= 2 && r[0] == '"' && r[|r| - 1] == '"'
    ensures '\n' !in r
  {
    "\"" + Escape(s) + "\""
  }

  // ---------------------------------------------------------------------
  // Serialisation
  // ---------------------------------------------------------------------

  /** `JSON.stringify(v)`: members and elements in order, no white space. */
  function Stringify(j: Json): string
    decreases j
  {
    match j
    case JNull => "null"
    case JBool(b) => if b then "true" else "false"
    case JNum(n) => IntToString(n)
    case JStr(s) => Quote(s)
    case JArr(items) => "[" + StringifyItems(items) + "]"
    case JObj(fields) => "{" + StringifyFields(fields) + "}"
  }

  function StringifyItems(items: seq<Json>): string
    decreases items
  {
    if items == [] then ""
    else if |items| == 1 then Stringify(items[0])
    else StringifyItems(Init(items)) + "," + Stringify(Last(items))
  }

  function StringifyField(f: Field): string
    decreases f, 0
  {
    Quote(f.key) + ":" + Stringify(f.value)
  }

  function StringifyFields(fields: seq<Field>): string
    decreases fields
  {
    if fields == [] then ""
    else if |fields| == 1 then StringifyField(fields[0])
    else StringifyFields(Init(fields)) + "," + StringifyField(Last(fields))
  }

  lemma NatToStringNoNewline(n: nat)
    ensures '\n' !in NatToString(n)
  {
    var r := NatToString(n);
    forall i | 0 <= i < |r| ensures r[i] != '\n' {
      NatToStringDigits(n, i);
    }
  }

  lemma {:induction false} NatToStringDigits(n: nat, i: nat)
    requires i < |NatToString(n)|
    ensures '0' <= NatToString(n)[i] <= '9'
  {
    if n >= 10 && i < |NatToString(n / 10)| {
      NatToStringDigits(n / 10, i);
    }
  }

  /** Compact serialisation never produces a raw line feed: every line feed
      inside a string is escaped, so a serialised value fits on one line. */
  lemma {:induction false} StringifyOneLine(j: Json)
    ensures '\n' !in Stringify(j)
    decreases j
  {
    match j
    case JNum(n) =>
      if n < 0 { NatToStringNoNewline(-n); } else { NatToStringNoNewline(n); }
    case JArr(items) => ItemsOneLine(items);
    case JObj(fields) => FieldsOneLine(fields);
    case _ =>
  }

  lemma {:induction false} ItemsOneLine(items: seq<Json>)
    ensures '\n' !in StringifyItems(items)
    decreases items
  {
    if |items| == 1 {
      StringifyOneLine(items[0]);
    } else if |items| > 1 {
      ItemsOneLine(Init(items));
      StringifyOneLine(Last(items));
    }
  }

  lemma {:induction false} FieldsOneLine(fields: seq<Field>)
    ensures '\n' !in StringifyFields(fields)
    decreases fields
  {
    if |fields| == 1 {
      StringifyOneLine(fields[0].value);
    } else if |fields| > 1 {
      FieldsOneLine(Init(fields));
      StringifyOneLine(Last(fields).value);
    }
  }

  function Indent(depth: nat): (r: string)
    ensures |r| == 2 * depth
  {
    if depth == 0 then "" else Indent(depth - 1) + "  "
  }

  /** `JSON.stringify(v, null, 2)` for a value nested `depth` levels deep:
      non-empty arrays and objects put each element on its own line,
      indented two spaces per level; empty ones print as `[]` and `{}`. */
  function Pretty(j: Json, depth: nat): string
    decreases j
  {
    match j
    case JArr(items) =>
      if items == [] then "[]"
      else "[\n" + PrettyItems(items, depth + 1) + "\n" + Indent(depth) + "]"
    case JObj(fields) =>
      if fields == [] then "{}"
      else "{\n" + PrettyFields(fields, depth + 1) + "\n" + Indent(depth) + "}"
    case _ => Stringify(j)
  }

  function PrettyItems(items: seq<Json>, depth: nat): string
    decreases items
  {
    if items == [] then ""
    else if |items| == 1 then Indent(depth) + Pretty(items[0], depth)
    else PrettyItems(Init(items), depth) + ",\n" + Indent(depth) + Pretty(Last(items), depth)
  }

  function PrettyField(f: Field, depth: nat): string
    decreases f, 0
  {
    Indent(depth) + Quote(f.key) + ": " + Pretty(f.value, depth)
  }

  function PrettyFields(fields: seq<Field>, depth: nat): string
    decreases fields
  {
    if fields == [] then ""
    else if |fields| == 1 then PrettyField(fields[0], depth)
    else PrettyFields(Init(fields), depth) + ",\n" + PrettyField(Last(fields), depth)
  }

  /** JavaScript's `String(v)`, which `text += v` and `join` apply to a
      non-string: arrays join their elements with commas (null elements
      print as nothing), objects print as `[object Object]`. An object with
      a member of its own named `toString` has no callable `toString` (the
      member is data) and its `valueOf` returns the object itself, so the
      conversion throws a `TypeError`: `None`, and the same for an array
      holding such an object at any depth. */
  function JsToString(j: Json): Option<string>
    decreases j, 0
  {
    match j
    case JNull => Some("null")
    case JBool(b) => Some(if b then "true" else "false")
    case JNum(n) => Some(IntToString(n))
    case JStr(s) => Some(s)
    case JArr(items) => ElementsToString(items)
    case JObj(_) => if Member(j, "toString").Some? then None else Some("[object Object]")
  }

  /** An element of an array printed by `join`: `null` prints as nothing. */
  function ElementToString(v: Json): Option<string>
    decreases v, 1
  {
    if v.JNull? then Some("") else JsToString(v)
  }

  function ElementsToString(items: seq<Json>): Option<string>
    decreases items
  {
    if items == [] then Some("")
    else if |items| == 1 then ElementToString(items[0])
    else match (ElementsToString(Init(items)), ElementToString(Last(items)))
      case (Some(a), Some(b)) => Some(a + "," + b)
      case _ => None
  }

  /** Somewhere in `j`, reached through arrays, is an object with a member
      of its own named `toString`. */
  predicate HidesToString(j: Json)
    decreases j
  {
    match j
    case JArr(items) => exists i :: 0 <= i < |items| && HidesToString(items[i])
    case JObj(_) => Member(j, "toString").Some?
    case _ => false
  }

  /** Printing a value throws exactly when it hides a `toString` member. */
  lemma {:induction false} ToStringThrows(j: Json)
    ensures JsToString(j).None? <==> HidesToString(j)
    decreases j, 1
  {
    if j.JArr? {
      ElementsThrow(j.items);
    }
  }

  lemma {:induction false} ElementsThrow(items: seq<Json>)
    ensures ElementsToString(items).None? <==> exists i :: 0 <= i < |items| && HidesToString(items[i])
    decreases items, 0
  {
    if items == [] {
    } else if |items| == 1 {
      ToStringThrows(items[0]);
    } else {
      ElementsThrow(Init(items));
      ToStringThrows(Last(items));
      forall i | 0 <= i < |items| - 1
        ensures Init(items)[i] == items[i]
      {
      }
    }
  }

  /** `join('')` of the printed pieces: it throws when any piece does. */
  function JoinPrinted(pieces: seq<Option<string>>): (r: Option<string>)
    decreases |pieces|
  {
    if pieces == [] then Some("")
    else match (JoinPrinted(Init(pieces)), Last(pieces))
      case (Some(a), Some(b)) => Some(a + b)
      case _ => None
  }

  /** The join succeeds exactly when every piece prints. */
  lemma {:induction false} JoinPrintedAll(pieces: seq<Option<string>>)
    ensures JoinPrinted(pieces).Some? <==> forall i :: 0 <= i < |pieces| ==> pieces[i].Some?
    decreases |pieces|
  {
    if pieces != [] {
      var init := Init(pieces);
      JoinPrintedAll(init);
      if JoinPrinted(pieces).Some? {
        assert JoinPrinted(init).Some? && Last(pieces).Some?;
        forall i | 0 <= i < |pieces| ensures pieces[i].Some? {
          if i < |init| {
            assert pieces[i] == init[i];
          }
        }
      } else if JoinPrinted(init).None? {
        var i :| 0 <= i < |init| && init[i].None?;
        assert pieces[i] == init[i];
      } else {
        assert Last(pieces).None?;
      }
    }
  }

  /** Pieces that all print join to their texts, concatenated. */
  lemma {:induction false} JoinPrintedTexts(pieces: seq<Option<string>>, texts: seq<string>)
    requires |pieces| == |texts| && forall i :: 0 <= i < |pieces| ==> pieces[i] == Some(texts[i])
    ensures JoinPrinted(pieces) == Some(Concat(texts))
    decreases |pieces|
  {
    if pieces != [] {
      var init, initTexts := Init(pieces), Init(texts);
      assert forall i :: 0 <= i < |init| ==> init[i] == Some(initTexts[i]) by {
        forall i | 0 <= i < |init| ensures init[i] == Some(initTexts[i]) {
          assert init[i] == pieces[i] && initTexts[i] == texts[i];
        }
      }
      JoinPrintedTexts(init, initTexts);
      assert Last(pieces) == Some(Last(texts));
    }
  }

  // ---------------------------------------------------------------------
  // Reading string literals back
  // ---------------------------------------------------------------------

  function HexValue(c: char): Option<nat>
  {
    if '0' <= c <= '9' then Some(c as nat - '0' as nat)
    else if 'a' <= c <= 'f' then Some(c as nat - 'a' as nat + 10)
    else if 'A' <= c <= 'F' then Some(c as nat - 'A' as nat + 10)
    else None
  }

  /** The code unit written by the four hex digits `h`. */
  function Hex4(h: string): Option<nat>
    requires |h| == 4
  {
    match (HexValue(h[0]), HexValue(h[1]), HexValue(h[2]), HexValue(h[3]))
    case (Some(a), Some(b), Some(c), Some(d)) => Some(((a * 16 + b) * 16 + c) * 16 + d)
    case _ => None
  }

  /** The characters of a string literal's body, with escapes resolved.
      `None` for a raw quote or control character, an unknown escape, or a
      `\u` escape naming a lone surrogate (which a string of Unicode scalar
      values cannot hold). */
  function Unescape(b: string): Option<string>
    decreases |b|
  {
    if b == [] then Some("")
    else if b[0] == '"' || b[0] < ' ' then None
    else if b[0] != '\\' then Prepend(b[0], Unescape(b[1..]))
    else if |b| < 2 then None
    else if b[1] == 'u' then UnescapeUnicode(b)
    else
      var c :=
        if b[1] == '"' then Some('"')
        else if b[1] == '\\' then Some('\\')
        else if b[1] == '/' then Some('/')
        else if b[1] == 'b' then Some('\U{0008}')
        else if b[1] == 'f' then Some('\U{000C}')
        else if b[1] == 'n' then Some('\n')
        else if b[1] == 'r' then Some('\r')
        else if b[1] == 't' then Some('\t')
        else None;
      if c.None? then None else Prepend(c.value, Unescape(b[2..]))
  }

  function UnescapeUnicode(b: string): Option<string>
    requires |b| >= 2 && b[0] == '\\' && b[1] == 'u'
    decreases |b|, 0
  {
    if |b| < 6 then None
    else match Hex4(b[2..6])
      case None => None
      case Some(u) =>
        if u < 0xD800 || 0xE000 <= u then Prepend(u as char, Unescape(b[6..]))
        else if 0xDC00 <= u || |b| < 12 || b[6..8] != "\\u" then None
        else match Hex4(b[8..12])
          case Some(lo) =>
            if 0xDC00 <= lo < 0xE000 then
              Prepend((0x10000 + (u - 0xD800) * 0x400 + (lo - 0xDC00)) as char, Unescape(b[12..]))
            else None
          case None => None
  }

  function Prepend(c: char, rest: Option<string>): Option<string>
  {
    if rest.None? then None else Some([c] + rest.value)
  }

  /** `JSON.parse` restricted to a single string literal. */
  function DecodeStringLiteral(t: string): Option<string>
  {
    if |t| >= 2 && t[0] == '"' && t[|t| - 1] == '"' then Unescape(t[1..|t| - 1]) else None
  }

  lemma HexRoundTrip(d: nat)
    requires d < 16
    ensures HexValue(HexDigit(d)) == Some(d)
  {
  }

  /** Reading one escaped character back. */
  lemma UnescapeEscapeChar(c: char, rest: string)
    ensures Unescape(EscapeChar(c) + rest) == Prepend(c, Unescape(rest))
  {
    var e := EscapeChar(c);
    var b := e + rest;
    if c < ' ' && c != '\U{0008}' && c != '\U{000C}' && c != '\n' && c != '\r' && c != '\t' {
      UnescapeControl(c, rest);
    } else if |e| == 2 {
      assert b[0] == '\\' && b[1] == e[1] && b[1] != 'u';
      assert b[2..] == rest;
    } else {
      assert b[1..] == rest;
    }
  }

  lemma UnescapeControl(c: char, rest: string)
    requires c < ' ' && c != '\U{0008}' && c != '\U{000C}' && c != '\n' && c != '\r' && c != '\t'
    ensures Unescape(EscapeChar(c) + rest) == Prepend(c, Unescape(rest))
  {
    var hi, lo := c as nat / 16, c as nat % 16;
    HexRoundTrip(hi);
    HexRoundTrip(lo);
    var b := EscapeChar(c) + rest;
    assert b[0] == '\\' && b[1] == 'u';
    assert b[2..6] == ['0', '0', HexDigit(hi), HexDigit(lo)];
    assert ((0 * 16 + 0) * 16 + hi) * 16 + lo == c as nat;
    assert Hex4(b[2..6]) == Some(c as nat);
    assert b[6..] == rest;
    assert UnescapeUnicode(b) == Prepend(c, Unescape(rest));
  }

  lemma {:induction false} UnescapeEscape(s: string)
    ensures Unescape(Escape(s)) == Some(s)
    decreases |s|
  {
    if s != [] {
      UnescapeEscape(s[1..]);
      UnescapeEscapeChar(s[0], Escape(s[1..]));
      assert [s[0]] + s[1..] == s;
    }
  }

  /** Every string survives a trip through its JSON literal. */
  lemma QuoteRoundTrip(s: string)
    ensures DecodeStringLiteral(Quote(s)) == Some(s)
  {
    var q := Quote(s);
    assert q[1..|q| - 1] == Escape(s);
    UnescapeEscape(s);
  }

  // ---------------------------------------------------------------------
  // What the pipeline assumes of JSON.parse
  // ---------------------------------------------------------------------

  /** The value of a string of decimal digits. */
  function DigitsValue(s: string): int
  {
    if s == [] then 0 else DigitsValue(s[..|s| - 1]) * 10 + (s[|s| - 1] as int - '0' as int)
  }

  /** A key JavaScript treats as an array index: the canonical decimal
      form of an integer below 2^32 - 1. An object lists such keys first,
      in ascending order, whatever order they were written in. */
  predicate ArrayIndex(key: string)
  {
    && key != []
    && (forall i :: 0 <= i < |key| ==> '0' <= key[i] <= '9')
    && (key[0] == '0' ==> |key| == 1)
    && DigitsValue(key) < 0xFFFF_FFFF
  }

  /** Values that survive `JSON.parse(JSON.stringify(v))` unchanged in
      JavaScript: object keys are distinct and none is an array index
      (those would be moved to the front), and numbers are integers that
      a double holds exactly. */
  predicate Portable(j: Json)
    decreases j
  {
    match j
    case JNum(n) => -0x20_0000_0000_0000 <= n <= 0x20_0000_0000_0000
    case JArr(items) => forall i :: 0 <= i < |items| ==> Portable(items[i])
    case JObj(fields) =>
      && (forall i, k :: 0 <= i < k < |fields| ==> fields[i].key != fields[k].key)
      && (forall i :: 0 <= i < |fields| ==> PortableField(fields[i]))
    case _ => true
  }

  predicate PortableField(f: Field)
    decreases f, 0
  {
    !ArrayIndex(f.key) && Portable(f.value)
  }

  /** A parser that reads back every portable value `JSON.stringify` writes.
      The decoders take `JSON.parse` as a parameter; properties that need
      it to be the real parser assume no more than this. */
  ghost predicate InvertsStringify(parse: string -> Option<Json>)
  {
    forall j :: Portable(j) ==> parse(Stringify(j)) == Some(j)
  }

  lemma ParseQuoted(parse: string -> Option<Json>, s: string)
    requires InvertsStringify(parse)
    ensures parse(Quote(s)) == Some(JStr(s))
  {
    assert Portable(JStr(s)) && Stringify(JStr(s)) == Quote(s);
  }

  /** Reading back the members of a two- or three-member object with distinct keys. */
  lemma TwoFields(a: Field, b: Field)
    requires a.key != b.key
    ensures Lookup([a, b], a.key) == Some(a.value) && Lookup([a, b], b.key) == Some(b.value)
  {
    assert Init([a, b]) == [a];
  }

  lemma ThreeFields(a: Field, b: Field, c: Field)
    requires a.key != b.key && a.key != c.key && b.key != c.key
    ensures Lookup([a, b, c], a.key) == Some(a.value)
    ensures Lookup([a, b, c], b.key) == Some(b.value)
    ensures Lookup([a, b, c], c.key) == Some(c.value)
  {
    assert Init([a, b, c]) == [a, b];
    TwoFields(a, b);
  }

  /** A key that does not start with a digit is no array index. */
  lemma WordKey(key: string)
    requires key != [] && !('0' <= key[0] <= '9')
    ensures !ArrayIndex(key)
  {
  }

  /** An object of one portable member is portable. */
  lemma OneFieldPortable(a: Field)
    requires PortableField(a)
    ensures Portable(JObj([a]))
  {
  }

  /** An array of one portable item is portable. */
  lemma OneItemPortable(a: Json)
    requires Portable(a)
    ensures Portable(JArr([a]))
  {
  }

  /** An object of two portable members with distinct keys is portable. */
  lemma TwoFieldsPortable(a: Field, b: Field)
    requires a.key != b.key && PortableField(a) && PortableField(b)
    ensures Portable(JObj([a, b]))
  {
    var fs := [a, b];
    assert forall i :: 0 <= i < 2 ==> fs[i] == a || fs[i] == b;
  }

  /** An object of three portable members with distinct keys is portable. */
  lemma ThreeFieldsPortable(a: Field, b: Field, c: Field)
    requires a.key != b.key && a.key != c.key && b.key != c.key
    requires PortableField(a) && PortableField(b) && PortableField(c)
    ensures Portable(JObj([a, b, c]))
  {
    var fs := [a, b, c];
    assert forall i :: 0 <= i < 3 ==> fs[i] == a || fs[i] == b || fs[i] == c;
  }
}
