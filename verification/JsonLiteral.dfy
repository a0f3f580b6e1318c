/** Writing a string as a JSON literal, and section 7 of RFC 8259 as its reading. */
module JsonLiteral {
  import opened Wrappers
  import opened JsonText

  function HexDigit(n: nat): char
    requires n < 16
  {
    "0123456789abcdef"[n]
  }

  function EscapeChar(c: char): string {
    if c == '"' then "\\\""
    else if c == '\\' then "\\\\"
    else if c == '\U{0008}' then "\\b"
    else if c == '\U{000C}' then "\\f"
    else if c == '\n' then "\\n"
    else if c == '\r' then "\\r"
    else if c == '\t' then "\\t"
    else if c as int < 0x20 then "\\u00" + [HexDigit(c as int / 16), HexDigit(c as int % 16)]
    else [c]
  }

  function Escape(s: string): string {
    if s == "" then "" else EscapeChar(s[0]) + Escape(s[1..])
  }

  function Literal(s: string): string {
    Quoted(Escape(s))
  }

  // The method appends at the end, so the specification must also unfold there.
  lemma {:induction false} EscapeSnoc(s: string, c: char)
    ensures Escape(s + [c]) == Escape(s) + EscapeChar(c)
  {
    hide EscapeChar;
    if s == "" {
      assert s + [c] == [c];
    } else {
      EscapeSnoc(s[1..], c);
      assert (s + [c])[1..] == s[1..] + [c];
    }
  }

  method EscapedChar(c: char) returns (piece: string)
    ensures piece == EscapeChar(c)
  {
    if c == '"' {
      piece := "\\\"";
    } else if c == '\\' {
      piece := "\\\\";
    } else if c == '\U{0008}' {
      piece := "\\b";
    } else if c == '\U{000C}' {
      piece := "\\f";
    } else if c == '\n' {
      piece := "\\n";
    } else if c == '\r' {
      piece := "\\r";
    } else if c == '\t' {
      piece := "\\t";
    } else if c as int < 0x20 {
      piece := "\\u00" + [HexDigit(c as int / 16), HexDigit(c as int % 16)];
    } else {
      piece := [c];
    }
  }

  method JsonStringLiteral(value: string) returns (out: string)
    ensures out == Literal(value)
  {
    hide EscapeChar;
    out := "\"";
    for i := 0 to |value|
      invariant out == "\"" + Escape(value[..i])
    {
      var piece := EscapedChar(value[i]);
      out := out + piece;
      EscapeSnoc(value[..i], value[i]);
      assert value[..i + 1] == value[..i] + [value[i]];
    }
    assert value[..|value|] == value;
    out := out + "\"";
  }

  function HexValue(c: char): Option<nat> {
    if '0' <= c <= '9' then Some(c as int - '0' as int)
    else if 'a' <= c <= 'f' then Some(c as int - 'a' as int + 10)
    else if 'A' <= c <= 'F' then Some(c as int - 'A' as int + 10)
    else None
  }

  function Prepend(c: char, r: Option<string>): Option<string> {
    match r
    case None => None
    case Some(s) => Some([c] + s)
  }

  // The code unit that four hexadecimal digits write.
  function CodeUnit(s: string): (r: Option<nat>)
    ensures r.Some? ==> |s| >= 4 && r.value < 0x10000
  {
    if |s| < 4 then None
    else
      match (HexValue(s[0]), HexValue(s[1]), HexValue(s[2]), HexValue(s[3]))
      case (Some(a), Some(b), Some(c), Some(d)) => Some(a * 4096 + b * 256 + c * 16 + d)
      case _ => None
  }

  // The second half of a surrogate pair, if `s` starts with one.
  function LowSurrogate(s: string): (r: Option<nat>)
    ensures r.Some? ==> |s| >= 6 && 0xDC00 <= r.value < 0xE000
  {
    if |s| < 6 || s[0] != '\\' || s[1] != 'u' then None
    else
      match CodeUnit(s[2..])
      case Some(low) => if 0xDC00 <= low < 0xE000 then Some(low) else None
      case None => None
  }

  // The string that a body denotes; half a surrogate pair has no reading.
  function Unescape(body: string): Option<string> {
    if body == "" then Some("")
    else if body[0] == '"' || body[0] as int < 0x20 then None
    else if body[0] != '\\' then Prepend(body[0], Unescape(body[1..]))
    else if |body| < 2 then None
    else
      var rest := body[2..];
      match body[1]
      case '"' => Prepend('"', Unescape(rest))
      case '\\' => Prepend('\\', Unescape(rest))
      case '/' => Prepend('/', Unescape(rest))
      case 'b' => Prepend('\U{0008}', Unescape(rest))
      case 'f' => Prepend('\U{000C}', Unescape(rest))
      case 'n' => Prepend('\n', Unescape(rest))
      case 'r' => Prepend('\r', Unescape(rest))
      case 't' => Prepend('\t', Unescape(rest))
      case 'u' =>
        (match CodeUnit(rest)
         case None => None
         case Some(code) =>
           if code < 0xD800 || 0xE000 <= code then Prepend(code as char, Unescape(rest[4..]))
           else
             match LowSurrogate(rest[4..])
             case Some(low) =>
               if code < 0xDC00
               then Prepend((0x10000 + (code - 0xD800) * 0x400 + (low - 0xDC00)) as char, Unescape(rest[10..]))
               else None
             case None => None)
      case _ => None
  }

  lemma UnescapeControl(c: char, rest: string)
    requires c as int < 0x20
    ensures Unescape("\\u00" + [HexDigit(c as int / 16), HexDigit(c as int % 16)] + rest) == Prepend(c, Unescape(rest))
  {
    var s := "\\u00" + [HexDigit(c as int / 16), HexDigit(c as int % 16)] + rest;
    var d := s[2..];
    assert d[4..] == rest;
    assert HexValue(d[2]) == Some(c as int / 16) && HexValue(d[3]) == Some(c as int % 16);
  }

  lemma UnescapeOne(c: char, rest: string)
    ensures Unescape(EscapeChar(c) + rest) == Prepend(c, Unescape(rest))
  {
    var s := EscapeChar(c) + rest;
    if |EscapeChar(c)| == 6 {
      UnescapeControl(c, rest);
    } else if |EscapeChar(c)| == 2 {
      assert s[2..] == rest;
    } else {
      assert s[1..] == rest;
    }
  }

  // Reading a written literal gives back the string.
  lemma {:induction false} LiteralRoundTrip(s: string)
    ensures Unescape(Escape(s)) == Some(s)
  {
    if s != "" {
      UnescapeOne(s[0], Escape(s[1..]));
      LiteralRoundTrip(s[1..]);
      assert [s[0]] + s[1..] == s;
    }
  }

  lemma EscapeInjective(s: string, t: string)
    requires Literal(s) == Literal(t)
    ensures s == t
  {
    assert Escape(s) == Literal(s)[1..|Literal(s)| - 1];
    assert Escape(t) == Literal(t)[1..|Literal(t)| - 1];
    LiteralRoundTrip(s);
    LiteralRoundTrip(t);
  }

  lemma StringBodyConcat(a: string, b: string)
    requires StringBody(a) && StringBody(b)
    ensures StringBody(a + b)
  {
    if a == "" {
      assert a + b == b;
    } else if a[0] == '\\' {
      StringBodyConcat(a[2..], b);
      assert (a + b)[2..] == a[2..] + b;
    } else {
      StringBodyConcat(a[1..], b);
      assert (a + b)[1..] == a[1..] + b;
    }
  }

  lemma PlainBody(s: string)
    requires forall i | 0 <= i < |s| :: s[i] != '"' && s[i] != '\\'
    ensures StringBody(s)
  {
  }

  lemma EscapeCharWf(c: char)
    ensures StringBody(EscapeChar(c))
  {
    var e := EscapeChar(c);
    if |e| == 2 {
      assert e[2..] == "";
    } else if |e| == 6 {
      var d := "0123456789abcdef";
      assert forall i | 0 <= i < |d| :: d[i] != '"' && d[i] != '\\';
      PlainBody(e[2..]);
    }
  }

  // A written literal is well formed: the scanners stop at its last quote.
  lemma {:induction false} LiteralWf(s: string)
    ensures StringBody(Escape(s))
  {
    if s != "" {
      var e := EscapeChar(s[0]);
      EscapeCharWf(s[0]);
      LiteralWf(s[1..]);
      StringBodyConcat(e, Escape(s[1..]));
    }
  }
}
