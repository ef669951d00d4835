/** The JSON text the block list is stored as: `JSON.stringify` of an array
    of strings, and `JSON.parse` read back as far as the block list needs it
    (an array of strings, or something unusable). */
module JsonArray {
  import opened Types

  /** The outcome of parsing a stored text: an array of strings, or anything
      else (a syntax error, a JSON value that is not an array). */
  datatype Decoded = StringArray(items: seq<string>) | Unreadable

  // ---------------------------------------------------------------------
  // Encoding, as JSON.stringify writes strings and arrays
  // ---------------------------------------------------------------------

  /** Lower-case hexadecimal digit, as JSON.stringify writes `\u` escapes. */
  function HexDigit(d: nat): (c: char)
    requires d < 16
  {
    if d < 10 then ('0' as int + d) as char else ('a' as int + d - 10) as char
  }

  /** The characters JSON.stringify writes for one character of a string:
      a two-character escape for the quote, the backslash and the five
      named control characters, a `\u00XX` escape for the other control
      characters, and the character itself otherwise. */
  function EscapeChar(c: char): (e: string)
    ensures |e| >= 1
    ensures e[0] == '\\' || (c as int >= 0x20 && c != '"' && e == [c])
  {
    if c == '"' then ['\\', '"']
    else if c == '\\' then ['\\', '\\']
    else if c as int == 0x08 then ['\\', 'b']
    else if c as int == 0x09 then ['\\', 't']
    else if c as int == 0x0A then ['\\', 'n']
    else if c as int == 0x0C then ['\\', 'f']
    else if c as int == 0x0D then ['\\', 'r']
    else if c as int < 0x20 then ['\\', 'u', '0', '0', HexDigit(c as int / 16), HexDigit(c as int % 16)]
    else [c]
  }

  function EscapeBody(s: string): (body: string) {
    if s == [] then [] else EscapeChar(s[0]) + EscapeBody(s[1..])
  }

  /** A JSON string literal. */
  function Quote(s: string): (literal: string) {
    ['"'] + EscapeBody(s) + ['"']
  }

  /** String literals separated by commas, without spaces. */
  function Elements(xs: seq<string>): (text: string) {
    if xs == [] then []
    else if |xs| == 1 then Quote(xs[0])
    else Quote(xs[0]) + [','] + Elements(xs[1..])
  }

  /** `JSON.stringify(xs)` for an array of strings. */
  function Encode(xs: seq<string>): (text: string)
    ensures |text| >= 2 && text[0] == '['
  {
    ['['] + Elements(xs) + [']']
  }

  // ---------------------------------------------------------------------
  // Decoding, as JSON.parse reads an array of strings
  // ---------------------------------------------------------------------

  /** The four characters JSON allows between tokens. */
  predicate IsJsonWhitespace(c: char) {
    c == ' ' || c as int == 0x09 || c as int == 0x0A || c as int == 0x0D
  }

  function SkipWhitespace(s: string): (r: string)
    ensures |r| <= |s|
    ensures r != [] ==> !IsJsonWhitespace(r[0])
  {
    if s != [] && IsJsonWhitespace(s[0]) then SkipWhitespace(s[1..]) else s
  }

  function HexValue(c: char): (v: Option<nat>)
    ensures v.Some? ==> v.value < 16
  {
    if '0' <= c <= '9' then Some(c as int - '0' as int)
    else if 'a' <= c <= 'f' then Some(c as int - 'a' as int + 10)
    else if 'A' <= c <= 'F' then Some(c as int - 'A' as int + 10)
    else None
  }

  /** The character an escape sequence stands for, given the text after
      its backslash, and the text after the escape. A `\u` escape naming a
      UTF-16 surrogate is refused (see README). */
  function EscapeValue(t: string): (r: Option<(char, string)>)
    ensures r.Some? ==> |r.value.1| < |t|
  {
    if t == [] then None
    else if t[0] == '"' || t[0] == '\\' || t[0] == '/' then Some((t[0], t[1..]))
    else if t[0] == 'b' then Some((0x08 as char, t[1..]))
    else if t[0] == 't' then Some((0x09 as char, t[1..]))
    else if t[0] == 'n' then Some((0x0A as char, t[1..]))
    else if t[0] == 'f' then Some((0x0C as char, t[1..]))
    else if t[0] == 'r' then Some((0x0D as char, t[1..]))
    else if t[0] == 'u' && |t| >= 5 then
      match (HexValue(t[1]), HexValue(t[2]), HexValue(t[3]), HexValue(t[4]))
      case (Some(a), Some(b), Some(c), Some(d)) =>
        var code := 4096 * a + 256 * b + 16 * c + d;
        if 0xD800 <= code < 0xE000 then None else Some((code as char, t[5..]))
      case _ => None
    else None
  }

  /** Reads the rest of a string literal whose opening quote is already
      consumed: its value and the text after the closing quote. */
  function ParseStringBody(s: string): (r: Option<(string, string)>)
    ensures r.Some? ==> |r.value.1| < |s|
    decreases |s|
  {
    if s == [] then None
    else if s[0] == '"' then Some(([], s[1..]))
    else if s[0] == '\\' then
      match EscapeValue(s[1..])
      case None => None
      case Some((c, rest)) =>
        match ParseStringBody(rest)
        case None => None
        case Some((v, after)) => Some(([c] + v, after))
    else if s[0] as int < 0x20 then None
    else
      match ParseStringBody(s[1..])
      case None => None
      case Some((v, after)) => Some(([s[0]] + v, after))
  }

  /** Reads one or more comma-separated string literals and the closing
      bracket; gives their values and the text after the bracket. */
  function ParseElements(s: string): (r: Option<(seq<string>, string)>)
    decreases |s|
  {
    if s == [] || s[0] != '"' then None
    else
      match ParseStringBody(s[1..])
      case None => None
      case Some((x, rest)) =>
        var t := SkipWhitespace(rest);
        if t != [] && t[0] == ']' then Some(([x], t[1..]))
        else if t != [] && t[0] == ',' then
          match ParseElements(SkipWhitespace(t[1..]))
          case None => None
          case Some((xs, after)) => Some(([x] + xs, after))
        else None
  }

  /** `JSON.parse(text)`, seen through `Array.isArray`. */
  function Decode(text: string): (d: Decoded) {
    var t := SkipWhitespace(text);
    if t == [] || t[0] != '[' then Unreadable
    else
      var u := SkipWhitespace(t[1..]);
      var inner: Option<(seq<string>, string)> := if u != [] && u[0] == ']' then Some(([], u[1..])) else ParseElements(u);
      match inner
      case Some((xs, after)) => if SkipWhitespace(after) == [] then StringArray(xs) else Unreadable
      case None => Unreadable
  }

  // ---------------------------------------------------------------------
  // Round trip
  // ---------------------------------------------------------------------

  lemma HexRoundTrip(d: nat)
    requires d < 16
    ensures HexValue(HexDigit(d)) == Some(d)
  {
  }

  /** The `\u00XX` escape of a control character reads back as that character. */
  lemma UnicodeEscapeValue(c: char, rest: string)
    requires c as int < 0x20
    ensures EscapeValue(['u', '0', '0', HexDigit(c as int / 16), HexDigit(c as int % 16)] + rest) == Some((c, rest))
  {
    var t := ['u', '0', '0', HexDigit(c as int / 16), HexDigit(c as int % 16)] + rest;
    HexRoundTrip(c as int / 16);
    HexRoundTrip(c as int % 16);
    assert t[1] == '0' && t[2] == '0';
    assert t[3] == HexDigit(c as int / 16) && t[4] == HexDigit(c as int % 16);
    assert t[5..] == rest;
  }

  /** The escape written for `c`, without its backslash, reads back as `c`. */
  lemma EscapeValueOfEscape(c: char, rest: string)
    requires EscapeChar(c)[0] == '\\'
    ensures EscapeValue(EscapeChar(c)[1..] + rest) == Some((c, rest))
  {
    var e := EscapeChar(c);
    if c == '"' || c == '\\' || c as int == 0x08 || c as int == 0x09 || c as int == 0x0A
       || c as int == 0x0C || c as int == 0x0D {
      assert |e| == 2;
      assert (e[1..] + rest)[1..] == rest;
    } else {
      assert e[1..] == ['u', '0', '0', HexDigit(c as int / 16), HexDigit(c as int % 16)];
      UnicodeEscapeValue(c, rest);
    }
  }

  /** Reading one escaped character consumes exactly its escape. */
  lemma EscapeCharParses(c: char, rest: string)
    ensures ParseStringBody(EscapeChar(c) + rest) ==
              match ParseStringBody(rest)
              case None => None
              case Some((v, after)) => Some(([c] + v, after))
  {
    var e := EscapeChar(c);
    var s := e + rest;
    if e[0] == '\\' {
      assert s[1..] == e[1..] + rest;
      EscapeValueOfEscape(c, rest);
    } else {
      assert s[1..] == rest;
    }
  }

  /** A quoted string body reads back as the original string. */
  lemma {:induction false} EscapeBodyParses(s: string, rest: string)
    ensures ParseStringBody(EscapeBody(s) + ['"'] + rest) == Some((s, rest))
  {
    if s == [] {
      assert EscapeBody(s) + ['"'] + rest == ['"'] + rest;
    } else {
      assert EscapeBody(s) + ['"'] + rest == EscapeChar(s[0]) + (EscapeBody(s[1..]) + ['"'] + rest);
      EscapeBodyParses(s[1..], rest);
      EscapeCharParses(s[0], EscapeBody(s[1..]) + ['"'] + rest);
      assert [s[0]] + s[1..] == s;
    }
  }

  /** The first literal of the elements, and what follows it. */
  lemma ElementsSplit(xs: seq<string>, rest: string)
    requires xs != []
    ensures Elements(xs) + [']'] + rest
            == ['"'] + (EscapeBody(xs[0]) + ['"'] + ElementsTail(xs, rest))
  {
    if |xs| == 1 {
      LastElementSplit(xs[0], rest);
    } else {
      MoreElementsSplit(xs[0], Elements(xs[1..]), rest);
    }
  }

  lemma LastElementSplit(x: string, rest: string)
    ensures Quote(x) + [']'] + rest == ['"'] + (EscapeBody(x) + ['"'] + ([']'] + rest))
  {
    Regroup(['"'], EscapeBody(x), ['"'], [']'], rest);
  }

  lemma MoreElementsSplit(x: string, more: string, rest: string)
    ensures Quote(x) + [','] + more + [']'] + rest
            == ['"'] + (EscapeBody(x) + ['"'] + ([','] + (more + [']'] + rest)))
  {
    var e := EscapeBody(x);
    Regroup(['"'], e, ['"'], [','], more);
    Regroup(['"'], e + ['"'], [','] + more, [']'], rest);
    assert [','] + more + ([']'] + rest) == [','] + (more + [']'] + rest);
  }

  lemma Regroup(a: string, b: string, c: string, d: string, e: string)
    ensures a + b + c + d + e == a + (b + c + (d + e))
  {
  }

  /** The text after the first literal of the elements: the closing bracket
      or a comma and the remaining elements. */
  function ElementsTail(xs: seq<string>, rest: string): (text: string)
    requires xs != []
  {
    if |xs| == 1 then [']'] + rest else [','] + (Elements(xs[1..]) + [']'] + rest)
  }

  /** Reading a first literal, followed by a bracket or a comma. */
  lemma FirstElementParses(x: string, tail: string)
    requires tail != [] && (tail[0] == ']' || tail[0] == ',')
    ensures ParseElements(['"'] + (EscapeBody(x) + ['"'] + tail)) ==
              if tail[0] == ']' then Some(([x], tail[1..]))
              else match ParseElements(SkipWhitespace(tail[1..]))
                   case None => None
                   case Some((xs, after)) => Some(([x] + xs, after))
  {
    var s := ['"'] + (EscapeBody(x) + ['"'] + tail);
    assert s[1..] == EscapeBody(x) + ['"'] + tail;
    EscapeBodyParses(x, tail);
    assert SkipWhitespace(tail) == tail;
  }

  /** The elements of a non-empty array, with the closing bracket, read back
      as the original strings. */
  lemma {:induction false} ElementsParse(xs: seq<string>, rest: string)
    requires xs != []
    ensures ParseElements(Elements(xs) + [']'] + rest) == Some((xs, rest))
  {
    var tail := ElementsTail(xs, rest);
    ElementsSplit(xs, rest);
    if |xs| > 1 {
      var u := Elements(xs[1..]) + [']'] + rest;
      assert tail == [','] + u;
      assert tail[1..] == u;
      ElementsSplit(xs[1..], rest);
      assert u[0] == '"';
      assert SkipWhitespace(u) == u;
      ElementsParse(xs[1..], rest);
      FirstElementParses(xs[0], tail);
      assert [xs[0]] + xs[1..] == xs;
    } else {
      assert tail == [']'] + rest;
      FirstElementParses(xs[0], tail);
      assert tail[1..] == rest;
      assert [xs[0]] == xs;
    }
  }

  /** What JSON.stringify writes, JSON.parse reads back as the same array. */
  lemma DecodeEncode(xs: seq<string>)
    ensures Decode(Encode(xs)) == StringArray(xs)
  {
    if xs == [] {
      assert Encode(xs) == ['[', ']'];
      assert Encode(xs)[1..] == [']'];
    } else {
      DecodeEncodeNonEmpty(xs);
    }
  }

  lemma DecodeEncodeNonEmpty(xs: seq<string>)
    requires xs != []
    ensures Decode(Encode(xs)) == StringArray(xs)
  {
    var text := Encode(xs);
    var body := text[1..];
    assert body == Elements(xs) + [']'] + [];
    ElementsSplit(xs, []);
    assert body[0] == '"';
    SkipNothing(text);
    SkipNothing(body);
    ElementsParse(xs, []);
  }

  /** Text that does not start with whitespace is not skipped into. */
  lemma SkipNothing(s: string)
    requires s != [] && !IsJsonWhitespace(s[0])
    ensures SkipWhitespace(s) == s
  {
  }
}
