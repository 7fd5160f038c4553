/**
 * json.Marshal applied to a list of strings (Go's encoding/json with HTML escaping on,
 * as json.Marshal does), and a reader for the JSON arrays of strings it produces.
 */
module Json {
  import opened Wrappers
  import Text

  function HexDigit(d: nat): char
    requires d < 16
  {
    if d < 10 then Text.DigitChar(d) else ('a' as int + d - 10) as char
  }

  predicate IsHex(c: char) {
    ('0' <= c <= '9') || ('a' <= c <= 'f') || ('A' <= c <= 'F')
  }

  function HexValue(c: char): (v: nat)
    requires IsHex(c)
    ensures v < 16
  {
    if '0' <= c <= '9' then c as int - '0' as int
    else if 'a' <= c <= 'f' then c as int - 'a' as int + 10
    else c as int - 'A' as int + 10
  }

  lemma HexDigitValue(d: nat)
    requires d < 16
    ensures IsHex(HexDigit(d)) && HexValue(HexDigit(d)) == d
  {
  }

  /** A character the encoder writes as itself. */
  predicate Literal(c: char) {
    var n := c as int;
    n >= 0x20 && c != '"' && c != '\\' && c != '<' && c != '>' && c != '&' && n != 0x2028 && n != 0x2029
  }

  /** A character that may appear in the encoder's output: no control character, no HTML-sensitive character, no line or paragraph separator. */
  predicate Safe(c: char) {
    var n := c as int;
    n >= 0x20 && c != '<' && c != '>' && c != '&' && n != 0x2028 && n != 0x2029
  }

  /**
   * How the encoder writes one character inside a string literal: quote and backslash
   * get a backslash; backspace, form feed, newline, carriage return and tab their short
   * escapes (as encoding/json does from Go 1.22 on); other control characters and the HTML-sensitive `<`, `>`, `&` a `\u00XX`
   * escape; U+2028 and U+2029 a `\u202X` escape; everything else is written as is.
   */
  function EscapeChar(c: char): (e: string)
    ensures Literal(c) <==> e == [c]
    ensures !Literal(c) ==> (|e| == 2 || |e| == 6) && e[0] == '\\'
    ensures forall i :: 0 <= i < |e| ==> Safe(e[i])
  {
    var n := c as int;
    if c == '"' || c == '\\' then ['\\', c]
    else if n == 0x08 then ['\\', 'b']
    else if n == 0x0C then ['\\', 'f']
    else if c == '\n' then ['\\', 'n']
    else if c == '\r' then ['\\', 'r']
    else if c == '\t' then ['\\', 't']
    else if n < 0x20 || c == '<' || c == '>' || c == '&' then ['\\', 'u', '0', '0', HexDigit(n / 16), HexDigit(n % 16)]
    else if n == 0x2028 || n == 0x2029 then ['\\', 'u', '2', '0', '2', HexDigit(n % 16)]
    else [c]
  }

  function Escape(s: string): string {
    if |s| == 0 then [] else EscapeChar(s[0]) + Escape(s[1..])
  }

  predicate IsPlain(c: char) {
    ('0' <= c <= '9') || ('a' <= c <= 'z') || ('A' <= c <= 'Z')
  }

  /** Letters and digits are written without escapes. */
  lemma {:induction false} EscapePlain(s: string)
    requires forall i :: 0 <= i < |s| ==> IsPlain(s[i])
    ensures Escape(s) == s
    decreases |s|
  {
    if |s| > 0 {
      EscapePlain(s[1..]);
      assert [s[0]] + s[1..] == s;
    }
  }

  /** A JSON string literal. */
  function Quote(s: string): string {
    ['"'] + Escape(s) + ['"']
  }

  function Elements(xs: seq<string>): string {
    if |xs| == 0 then []
    else if |xs| == 1 then Quote(xs[0])
    else Quote(xs[0]) + [','] + Elements(xs[1..])
  }

  /**
   * json.Marshal of a []string that is not nil: a JSON array of string literals with no
   * white space. It always starts with `[`.
   */
  function MarshalStrings(xs: seq<string>): (r: string)
    ensures |r| >= 2 && r[0] == '[' && r[|r| - 1] == ']'
  {
    ['['] + Elements(xs) + [']']
  }

  // ---- Reading the arrays back: the partner of MarshalStrings ----

  /** The character an escape stands for, given the text after the backslash, and how many characters it takes. */
  function Unescape(t: string): (r: Option<(char, nat)>)
    ensures r.Some? ==> 1 <= r.value.1 <= |t|
  {
    if |t| == 0 then None
    else if t[0] == '"' || t[0] == '\\' || t[0] == '/' then Some((t[0], 1))
    else if t[0] == 'b' then Some((0x08 as char, 1))
    else if t[0] == 'f' then Some((0x0C as char, 1))
    else if t[0] == 'n' then Some(('\n', 1))
    else if t[0] == 'r' then Some(('\r', 1))
    else if t[0] == 't' then Some(('\t', 1))
    else if t[0] == 'u' && |t| >= 5 && IsHex(t[1]) && IsHex(t[2]) && IsHex(t[3]) && IsHex(t[4]) then
      var v := 4096 * HexValue(t[1]) + 256 * HexValue(t[2]) + 16 * HexValue(t[3]) + HexValue(t[4]);
      if 0xD800 <= v < 0xE000 then None else Some((v as char, 5))
    else None
  }

  function Prepend(c: char, r: Option<(string, string)>): Option<(string, string)> {
    match r
    case None => None
    case Some((x, rest)) => Some(([c] + x, rest))
  }

  /**
   * Reads the characters of a string literal up to and including its closing quote;
   * returns the decoded text and what follows the quote.
   */
  function ParseBody(s: string): (r: Option<(string, string)>)
    ensures r.Some? ==> |r.value.1| < |s|
    decreases |s|
  {
    if |s| == 0 then None
    else if s[0] == '"' then Some(([], s[1..]))
    else if s[0] == '\\' then
      match Unescape(s[1..])
      case None => None
      case Some((c, n)) => Prepend(c, ParseBody(s[1 + n..]))
    else if (s[0] as int) < 0x20 then None
    else Prepend(s[0], ParseBody(s[1..]))
  }

  function ParseElements(s: string): (r: Option<seq<string>>)
    decreases |s|
  {
    if |s| == 0 || s[0] != '"' then None
    else
      match ParseBody(s[1..])
      case None => None
      case Some((x, rest)) =>
        if rest == "]" then Some([x])
        else if |rest| > 0 && rest[0] == ',' then
          match ParseElements(rest[1..])
          case None => None
          case Some(xs) => Some([x] + xs)
        else None
  }

  /** Reads a JSON array of strings written without white space. */
  function ParseStringArray(s: string): Option<seq<string>> {
    if |s| >= 2 && s[0] == '[' then
      if s[1..] == "]" then Some([]) else ParseElements(s[1..])
    else None
  }

  /** One escaped character is read back as that character. */
  lemma EscapeCharRead(c: char, u: string)
    ensures ParseBody(EscapeChar(c) + u) == Prepend(c, ParseBody(u))
  {
    var e := EscapeChar(c);
    if |e| == 1 {
      assert (e + u)[1..] == u;
    } else if |e| == 2 {
      assert (e + u)[2..] == u;
      assert (e + u)[1..][0] == e[1];
    } else {
      UnicodeEscapeRead(c, u);
    }
  }

  /** A six-character `\uXXXX` escape is read back as the character it encodes. */
  lemma UnicodeEscapeRead(c: char, u: string)
    requires |EscapeChar(c)| > 2
    ensures ParseBody(EscapeChar(c) + u) == Prepend(c, ParseBody(u))
  {
    var e := EscapeChar(c);
    var s := e + u;
    var n := c as int;
    assert |e| == 6 && e[0] == '\\' && e[1] == 'u';
    assert s[6..] == u;
    var t := s[1..];
    assert t[0] == 'u' && t[1..5] == e[2..6];
    if n == 0x2028 || n == 0x2029 {
      HexDigitValue(n % 16);
    } else {
      HexDigitValue(n / 16);
      HexDigitValue(n % 16);
    }
    assert Unescape(t) == Some((c, 5));
  }

  lemma Regroup(a: string, b: string, c: string, d: string)
    ensures a + b + c + d == a + (b + c + d)
  {
  }

  /** An escaped text followed by a closing quote is read back as the text. */
  lemma {:induction false} EscapeRoundTrip(x: string, rest: string)
    ensures ParseBody(Escape(x) + ['"'] + rest) == Some((x, rest))
    decreases |x|
  {
    if |x| == 0 {
      assert Escape(x) + ['"'] + rest == ['"'] + rest;
    } else {
      EscapeRoundTrip(x[1..], rest);
      var e, t := EscapeChar(x[0]), Escape(x[1..]);
      assert Escape(x) == e + t;
      Regroup(e, t, ['"'], rest);
      EscapeCharRead(x[0], t + ['"'] + rest);
      assert [x[0]] + x[1..] == x;
    }
  }

  /** The first literal of a list is read off, and what follows it decides how reading goes on. */
  lemma FirstElementRead(x: string, rest: string)
    ensures ParseElements(['"'] + Escape(x) + ['"'] + rest) ==
      if rest == "]" then Some([x])
      else if |rest| > 0 && rest[0] == ',' then
        match ParseElements(rest[1..])
        case None => None
        case Some(xs) => Some([x] + xs)
      else None
  {
    var s := ['"'] + Escape(x) + ['"'] + rest;
    assert s[1..] == Escape(x) + ['"'] + rest;
    EscapeRoundTrip(x, rest);
  }

  lemma {:induction false} ElementsRoundTrip(xs: seq<string>)
    requires |xs| >= 1
    ensures ParseElements(Elements(xs) + "]") == Some(xs)
    decreases |xs|
  {
    if |xs| == 1 {
      assert Elements(xs) + "]" == ['"'] + Escape(xs[0]) + ['"'] + "]";
      FirstElementRead(xs[0], "]");
      assert [xs[0]] == xs;
    } else {
      var tail := Elements(xs[1..]) + "]";
      var rest := [','] + tail;
      assert Elements(xs) + "]" == ['"'] + Escape(xs[0]) + ['"'] + rest;
      FirstElementRead(xs[0], rest);
      assert rest[1..] == tail;
      ElementsRoundTrip(xs[1..]);
      assert [xs[0]] + xs[1..] == xs;
    }
  }

  /** Whatever list MarshalStrings writes, ParseStringArray reads back unchanged. */
  lemma MarshalRoundTrip(xs: seq<string>)
    ensures ParseStringArray(MarshalStrings(xs)) == Some(xs)
  {
    var s := MarshalStrings(xs);
    if |xs| == 0 {
      assert s == "[]";
    } else {
      ElementsRoundTrip(xs);
      assert s[1..] == Elements(xs) + "]";
      assert Elements(xs) != [] by {
        assert |Quote(xs[0])| >= 2;
      }
    }
  }
}
