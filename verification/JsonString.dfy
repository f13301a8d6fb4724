/** JSON string literals, as JSON.stringify prints and JSON.parse reads them (RFC 8259, section 7).
    A string is a sequence of Unicode scalar values, so escapes of lone surrogates have no value. */
module JsonString {

  datatype Option<+T> = None | Some(value: T)

  function HexDigit(n: nat): char
    requires n < 16
  {
    "0123456789abcdef"[n]
  }

  function HexValue(c: char): Option<nat> {
    if '0' <= c <= '9' then Some(c as int - '0' as int)
    else if 'a' <= c <= 'f' then Some(c as int - 'a' as int + 10)
    else if 'A' <= c <= 'F' then Some(c as int - 'A' as int + 10)
    else None
  }

  function EscapeChar(c: char): string {
    if c == '"' then "\\\""
    else if c == '\\' then "\\\\"
    else if c == '\U{0008}' then "\\b"
    else if c == '\U{000C}' then "\\f"
    else if c == '\n' then "\\n"
    else if c == '\r' then "\\r"
    else if c == '\t' then "\\t"
    else if c < ' ' then "\\u00" + [HexDigit(c as int / 16), HexDigit(c as int % 16)]
    else [c]
  }

  function Escape(s: string): string {
    if s == "" then "" else EscapeChar(s[0]) + Escape(s[1..])
  }

  function Quote(s: string): string {
    "\"" + Escape(s) + "\""
  }

  /** What a two-character escape stands for. */
  function Unescape(c: char): Option<char> {
    if c == '"' || c == '\\' || c == '/' then Some(c)
    else if c == 'b' then Some('\U{0008}')
    else if c == 'f' then Some('\U{000C}')
    else if c == 'n' then Some('\n')
    else if c == 'r' then Some('\r')
    else if c == 't' then Some('\t')
    else None
  }

  function Hex4(s: string): Option<nat>
    requires |s| == 4
  {
    var a, b, c, d := HexValue(s[0]), HexValue(s[1]), HexValue(s[2]), HexValue(s[3]);
    if a.None? || b.None? || c.None? || d.None? then None
    else Some(((a.value * 16 + b.value) * 16 + c.value) * 16 + d.value)
  }

  function Push(c: char, rest: Option<string>): Option<string> {
    if rest.None? then None else Some([c] + rest.value)
  }

  /** The value of what stands between the quotes, or None when it is not a JSON string. */
  function Parse(s: string): Option<string>
    decreases |s|
  {
    if s == "" then Some("")
    else if s[0] == '"' || s[0] < ' ' then None
    else if s[0] != '\\' then Push(s[0], Parse(s[1..]))
    else if |s| == 1 then None
    else if s[1] != 'u' then
      if Unescape(s[1]).None? then None else Push(Unescape(s[1]).value, Parse(s[2..]))
    else if |s| < 6 then None
    else
      var code := Hex4(s[2..6]);
      if code.None? || 0xD800 <= code.value < 0xE000 || code.value > 0xFFFF then None
      else Push(code.value as char, Parse(s[6..]))
  }

  lemma HexRoundTrip(n: nat)
    requires n < 16
    ensures HexValue(HexDigit(n)) == Some(n) && HexDigit(n) > ' ' && HexDigit(n) != '"' && HexDigit(n) != '\\'
  {
  }

  lemma ParseControl(n: nat, rest: string)
    requires n < 32
    ensures Parse("\\u00" + [HexDigit(n / 16), HexDigit(n % 16)] + rest) == Push(n as char, Parse(rest))
  {
    var s := "\\u00" + [HexDigit(n / 16), HexDigit(n % 16)] + rest;
    HexRoundTrip(n / 16);
    HexRoundTrip(n % 16);
    assert s[2..6] == ['0', '0', HexDigit(n / 16), HexDigit(n % 16)] && s[6..] == rest;
    assert Hex4(s[2..6]) == Some(n / 16 * 16 + n % 16);
  }

  lemma ParseEscaped(c: char, rest: string)
    ensures Parse(EscapeChar(c) + rest) == Push(c, Parse(rest))
  {
    if |EscapeChar(c)| == 6 {
      ParseControl(c as int, rest);
    } else {
      assert (EscapeChar(c) + rest)[|EscapeChar(c)|..] == rest;
    }
  }

  /** Printing and parsing are inverse on every value. */
  lemma {:induction false} QuoteRoundTrip(v: string)
    ensures Parse(Escape(v)) == Some(v)
  {
    if v != "" {
      QuoteRoundTrip(v[1..]);
      ParseEscaped(v[0], Escape(v[1..]));
      assert [v[0]] + v[1..] == v;
    }
  }
}
