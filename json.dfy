/**
 * The text the client keeps under the `queryHistory` key: `JSON.stringify`
 * of an array of strings, and the reading `JSON.parse` gives it back.
 */
module Json {
  import opened Wrappers

  /** The lower-case hexadecimal digit for 0..15, as `JSON.stringify` writes it. */
  function HexDigit(n: nat): (c: char)
    requires n < 16
    ensures HexValue(c) == Some(n)
  {
    if n < 10 then (48 + n) as char else (87 + n) as char
  }

  /** The value of one hexadecimal digit of either case. */
  function HexValue(c: char): (r: Option<nat>)
    ensures r.Some? ==> r.value < 16
  {
    if '0' <= c <= '9' then Some(c as int - 48)
    else if 'a' <= c <= 'f' then Some(c as int - 87)
    else if 'A' <= c <= 'F' then Some(c as int - 55)
    else None
  }

  /** How `JSON.stringify` writes one character inside a string literal. */
  function EscapeChar(c: char): (r: string)
    ensures r != [] && r[0] != '"'
    ensures r[0] == '\\' || (r == [c] && c >= ' ')
  {
    if c == '"' then "\\\""
    else if c == '\\' then "\\\\"
    else if c == '\U{08}' then "\\b"
    else if c == '\t' then "\\t"
    else if c == '\n' then "\\n"
    else if c == '\U{0C}' then "\\f"
    else if c == '\r' then "\\r"
    else if c < ' ' then "\\u00" + [HexDigit(c as int / 16), HexDigit(c as int % 16)]
    else [c]
  }

  function Escape(s: string): string {
    if s == [] then [] else EscapeChar(s[0]) + Escape(s[1..])
  }

  /** A string literal: the escaped characters between double quotes. */
  function Quote(s: string): string {
    "\"" + Escape(s) + "\""
  }

  function JoinQuoted(items: seq<string>): string
    requires items != []
  {
    if |items| == 1 then Quote(items[0])
    else Quote(items[0]) + "," + JoinQuoted(items[1..])
  }

  /** `JSON.stringify(items)` for an array of strings. */
  function Stringify(items: seq<string>): (r: string)
    ensures |r| >= 2 && r[0] == '['
  {
    if items == [] then "[]" else "[" + JoinQuoted(items) + "]"
  }

  /**
   * Reads one character of a string literal at the start of `s`: the
   * character and how many characters of `s` it took, or None at the
   * closing quote or where `JSON.parse` would throw.
   */
  function ReadChar(s: string): (r: Option<(char, nat)>)
    ensures r.Some? ==> 1 <= r.value.1 <= |s|
  {
    if s == [] || s[0] == '"' || s[0] < ' ' then None
    else if s[0] != '\\' then Some((s[0], 1))
    else if |s| < 2 then None
    else if s[1] == '"' then Some(('"', 2))
    else if s[1] == '\\' then Some(('\\', 2))
    else if s[1] == '/' then Some(('/', 2))
    else if s[1] == 'b' then Some(('\U{08}', 2))
    else if s[1] == 'f' then Some(('\U{0C}', 2))
    else if s[1] == 'n' then Some(('\n', 2))
    else if s[1] == 'r' then Some(('\r', 2))
    else if s[1] == 't' then Some(('\t', 2))
    else if s[1] == 'u' && |s| >= 6 then
      match (HexValue(s[2]), HexValue(s[3]), HexValue(s[4]), HexValue(s[5]))
      case (Some(a), Some(b), Some(c), Some(d)) =>
        var v := 4096 * a + 256 * b + 16 * c + d;
        if 0xD800 <= v < 0xE000 then None else Some((v as char, 6))
      case _ => None
    else None
  }

  /** The characters of a string literal up to its closing quote, and what follows that quote. */
  function ReadChars(s: string): (r: Option<(string, string)>)
    ensures r.Some? ==> |r.value.1| < |s|
    decreases |s|
  {
    if s == [] then None
    else if s[0] == '"' then Some(([], s[1..]))
    else
      match ReadChar(s)
      case None => None
      case Some((c, n)) =>
        match ReadChars(s[n..])
        case None => None
        case Some((t, rest)) => Some(([c] + t, rest))
  }

  /** The string literals of an array, after its `[`, up to and including the closing `]`. */
  function ReadItems(s: string): (r: Option<seq<string>>)
    ensures r.Some? ==> r.value != []
    decreases |s|
  {
    if s == [] || s[0] != '"' then None
    else
      match ReadChars(s[1..])
      case None => None
      case Some((item, rest)) =>
        if rest == "]" then Some([item])
        else if rest != [] && rest[0] == ',' then
          match ReadItems(rest[1..])
          case None => None
          case Some(more) => Some([item] + more)
        else None
  }

  /**
   * `JSON.parse` of a text meant to hold an array of strings: None when the
   * text is not such an array written without whitespace between tokens.
   */
  function Parse(s: string): (r: Option<seq<string>>)
    ensures r.Some? ==> |s| >= 2 && s[0] == '['
  {
    if s == "[]" then Some([])
    else if s != [] && s[0] == '[' then ReadItems(s[1..])
    else None
  }

  /** Only the text `[]` reads as the empty history. */
  lemma ParseEmpty(s: string)
    ensures Parse(s) == Some([]) <==> s == "[]"
  {
    if s != "[]" && s != [] && s[0] == '[' {
      assert Parse(s) == ReadItems(s[1..]);
    }
  }

  /** What follows a string literal is the tail of the text it was read from. */
  lemma {:induction false} ReadCharsRest(s: string)
    requires ReadChars(s).Some?
    ensures var rest := ReadChars(s).value.1; rest == s[|s| - |rest|..]
  {
    if s[0] != '"' {
      var n := ReadChar(s).value.1;
      ReadCharsRest(s[n..]);
      var rest := ReadChars(s).value.1;
      assert s[n..][|s[n..]| - |rest|..] == s[|s| - |rest|..];
    }
  }

  /** The items of an array are read only up to a `]` that ends the text. */
  lemma {:induction false} ReadItemsClosed(s: string)
    requires ReadItems(s).Some?
    ensures s[|s| - 1] == ']'
  {
    ReadCharsRest(s[1..]);
    var rest := ReadChars(s[1..]).value.1;
    assert rest == s[|s| - |rest|..];
    if rest != "]" {
      ReadItemsClosed(rest[1..]);
      assert rest[1..][|rest[1..]| - 1] == s[|s| - 1];
    } else {
      assert s[|s| - 1] == rest[0];
    }
  }

  /** Text the loader accepts as a history is a bracketed array: it ends with `]`. */
  lemma ParseClosed(s: string)
    requires Parse(s).Some?
    ensures s[|s| - 1] == ']'
  {
    if s != "[]" {
      ReadItemsClosed(s[1..]);
      assert s[1..][|s[1..]| - 1] == s[|s| - 1];
    }
  }

  lemma ReadEscapedChar(c: char, tail: string)
    ensures ReadChar(EscapeChar(c) + tail) == Some((c, |EscapeChar(c)|))
  {
    var e := EscapeChar(c);
    if c < ' ' && c != '\U{08}' && c != '\t' && c != '\n' && c != '\U{0C}' && c != '\r' {
      var s := e + tail;
      assert s[..6] == e;
      assert HexValue(s[2]) == Some(0) && HexValue(s[3]) == Some(0);
      assert HexValue(s[4]) == Some(c as int / 16) && HexValue(s[5]) == Some(c as int % 16);
    } else {
      assert (e + tail)[..|e|] == e;
    }
  }

  lemma {:induction false} ReadEscaped(s: string, tail: string)
    ensures ReadChars(Escape(s) + "\"" + tail) == Some((s, tail))
  {
    if s == [] {
      assert Escape(s) + "\"" + tail == "\"" + tail;
    } else {
      var e := EscapeChar(s[0]);
      var rest := Escape(s[1..]) + "\"" + tail;
      assert Escape(s) + "\"" + tail == e + rest;
      ReadEscapedChar(s[0], rest);
      assert (e + rest)[|e|..] == rest;
      ReadEscaped(s[1..], tail);
      assert [s[0]] + s[1..] == s;
    }
  }

  /** A string literal as `JSON.stringify` writes it is read back up to its closing quote. */
  lemma ReadQuoted(item: string, rest: string)
    ensures var s := Quote(item) + rest;
      s != [] && s[0] == '"' && ReadChars(s[1..]) == Some((item, rest))
  {
    var s := Quote(item) + rest;
    assert s == "\"" + (Escape(item) + "\"" + rest);
    assert s[1..] == Escape(item) + "\"" + rest;
    ReadEscaped(item, rest);
  }

  lemma {:induction false} ReadQuotedItems(items: seq<string>)
    requires items != []
    ensures ReadItems(JoinQuoted(items) + "]") == Some(items)
  {
    if |items| == 1 {
      ReadQuoted(items[0], "]");
      assert JoinQuoted(items) + "]" == Quote(items[0]) + "]";
      assert [items[0]] == items;
    } else {
      var more := JoinQuoted(items[1..]) + "]";
      ReadQuoted(items[0], "," + more);
      assert JoinQuoted(items) + "]" == Quote(items[0]) + ("," + more);
      assert ("," + more)[1..] == more;
      ReadQuotedItems(items[1..]);
      assert [items[0]] + items[1..] == items;
    }
  }

  /** What `JSON.stringify` writes for an array of strings, `JSON.parse` reads back unchanged. */
  lemma ParseStringify(items: seq<string>)
    ensures Parse(Stringify(items)) == Some(items)
  {
    if items != [] {
      var s := Stringify(items);
      assert s[1..] == JoinQuoted(items) + "]";
      ReadQuotedItems(items);
    }
  }
}
