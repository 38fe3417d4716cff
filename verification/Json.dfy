/** JSON text of the chat payloads, an object with at most one string member: what
    JSON.stringify writes (section 7 of RFC 8259 for strings) and JSON.parse reads. */
module Json {
  import opened Clarity

  datatype Payload = Empty | Member(key: string, text: string)

  // ---- Writing ----

  function HexDigit(d: nat): (c: char)
    requires d < 16
  {
    if d < 10 then ('0' as int + d) as char else ('a' as int + (d - 10)) as char
  }

  /** One character inside a JSON string. */
  function EscapedChar(c: char): string {
    if c == '"' then "\\\""
    else if c == '\\' then "\\\\"
    else if c as int == 8 then "\\b"
    else if c as int == 12 then "\\f"
    else if c == '\n' then "\\n"
    else if c == '\r' then "\\r"
    else if c == '\t' then "\\t"
    else if c as int < 0x20 then "\\u00" + [HexDigit(c as int / 16), HexDigit(c as int % 16)]
    else [c]
  }

  function Escaped(s: string): string {
    if s == [] then [] else EscapedChar(s[0]) + Escaped(s[1..])
  }

  function Stringify(p: Payload): string {
    match p
    case Empty => "{}"
    case Member(key, text) => "{\"" + Escaped(key) + "\":\"" + Escaped(text) + "\"}"
  }

  // ---- Reading ----

  function HexValue(c: char): Option<nat> {
    if '0' <= c <= '9' then Some(c as int - '0' as int)
    else if 'a' <= c <= 'f' then Some(c as int - 'a' as int + 10)
    else if 'A' <= c <= 'F' then Some(c as int - 'A' as int + 10)
    else None
  }

  /** The character of `\uXXXX`; surrogates are not read (nothing here writes them). */
  function UnicodeEscape(a: char, b: char, c: char, d: char): Option<char> {
    var (p, q, r, s) := (HexValue(a), HexValue(b), HexValue(c), HexValue(d));
    if p.None? || q.None? || r.None? || s.None? then None
    else
      var n := ((p.value * 16 + q.value) * 16 + r.value) * 16 + s.value;
      if n < 0xD800 then Some(n as char) else None
  }

  function SimpleEscape(c: char): Option<char> {
    if c == '"' || c == '\\' || c == '/' then Some(c)
    else if c == 'b' then Some(8 as char)
    else if c == 'f' then Some(12 as char)
    else if c == 'n' then Some('\n')
    else if c == 'r' then Some('\r')
    else if c == 't' then Some('\t')
    else None
  }

  /** A string read up to its closing quote, and the text after it. */
  function ParseString(s: string): Option<(string, string)>
    decreases |s|
  {
    if s == [] then None
    else if s[0] == '"' then Some(([], s[1..]))
    else if s[0] == '\\' then
      if |s| < 2 then None
      else if s[1] == 'u' then
        if |s| < 6 || UnicodeEscape(s[2], s[3], s[4], s[5]).None? then None
        else Prepend(UnicodeEscape(s[2], s[3], s[4], s[5]).value, ParseString(s[6..]))
      else if SimpleEscape(s[1]).None? then None
      else Prepend(SimpleEscape(s[1]).value, ParseString(s[2..]))
    else if s[0] as int < 0x20 then None
    else Prepend(s[0], ParseString(s[1..]))
  }

  function Prepend(c: char, r: Option<(string, string)>): Option<(string, string)> {
    match r
    case Some((text, rest)) => Some(([c] + text, rest))
    case None => None
  }

  function Parse(s: string): Option<Payload> {
    if s == "{}" then Some(Empty)
    else if |s| < 2 || s[..2] != "{\"" then None
    else
      match ParseString(s[2..])
      case None => None
      case Some((key, rest)) =>
        if |rest| < 2 || rest[..2] != ":\"" then None
        else
          match ParseString(rest[2..])
          case None => None
          case Some((text, end)) => if end == "}" then Some(Member(key, text)) else None
  }

  // ---- Round trip ----

  lemma ParseEscapedChar(c: char, rest: string)
    ensures ParseString(EscapedChar(c) + rest) == Prepend(c, ParseString(rest))
  {
    var s := EscapedChar(c) + rest;
    Drop(EscapedChar(c), rest);
    if |EscapedChar(c)| > 2 {
      ControlEscape(c);
    }
  }

  lemma Drop(a: string, b: string)
    ensures (a + b)[|a|..] == b
  {
  }

  lemma ControlEscape(c: char)
    requires |EscapedChar(c)| > 2
    ensures |EscapedChar(c)| == 6
    ensures var e := EscapedChar(c); e[..2] == "\\u" && UnicodeEscape(e[2], e[3], e[4], e[5]) == Some(c)
  {
    var n := c as int;
    assert n == (n / 16) * 16 + n % 16;
    HexRoundTrip(n / 16);
    HexRoundTrip(n % 16);
  }

  lemma HexRoundTrip(d: nat)
    requires d < 16
    ensures HexValue(HexDigit(d)) == Some(d)
  {
  }

  lemma {:induction false} ParseEscaped(text: string, rest: string)
    ensures ParseString(Escaped(text) + "\"" + rest) == Some((text, rest))
  {
    if text == [] {
      assert Escaped(text) + "\"" + rest == "\"" + rest;
    } else {
      var tail := Escaped(text[1..]) + "\"" + rest;
      ParseEscaped(text[1..], rest);
      ParseEscapedChar(text[0], tail);
      assert Escaped(text) + "\"" + rest == EscapedChar(text[0]) + tail;
      assert [text[0]] + text[1..] == text;
    }
  }

  /** JSON.parse reads back what JSON.stringify wrote, for every text. */
  lemma ParseStringify(p: Payload)
    ensures Parse(Stringify(p)) == Some(p)
  {
    hide ParseString, Escaped;
    if p.Member? {
      var s := Stringify(p);
      var second := Escaped(p.text) + "\"" + "}";
      var first := Escaped(p.key) + "\"" + (":\"" + second);
      assert s == "{\"" + first;
      assert s[2..] == first;
      ParseEscaped(p.key, ":\"" + second);
      assert (":\"" + second)[2..] == second;
      ParseEscaped(p.text, "}");
    }
  }

  // ---- No control characters ----

  predicate Printable(s: string) {
    forall i :: 0 <= i < |s| ==> s[i] as int >= 0x20
  }

  lemma {:induction false} EscapedIsPrintable(s: string)
    ensures Printable(Escaped(s))
  {
    if s != [] {
      EscapedIsPrintable(s[1..]);
      assert Printable(EscapedChar(s[0]));
    }
  }

  /** Whatever text a payload carries, line breaks included, its JSON is one line. */
  lemma StringifyIsPrintable(p: Payload)
    ensures Printable(Stringify(p))
  {
    if p.Member? {
      EscapedIsPrintable(p.key);
      EscapedIsPrintable(p.text);
      hide Escaped;
    }
  }
}
