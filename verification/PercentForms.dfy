/** The forms of percent-encoded UTF-8: what each character is printed as, and that nothing else is read
    as it (section 2.3 of RFC 3986 with the marks of section 2.3 of RFC 2396; section 3 of RFC 3629). */
module PercentForms {
  import opened JsonString
  import opened Percent

  /** Letters, digits and nine marks stand for themselves; any other ASCII character is a percent sign and
      the two upper-case digits of its code. */
  lemma AsciiForms(c: char)
    requires c as int < 0x80
    ensures var n := c as int; var digits := "0123456789ABCDEF";
            var itself := || 'a' <= c <= 'z' || 'A' <= c <= 'Z' || '0' <= c <= '9'
                          || c == '-' || c == '_' || c == '.' || c == '!' || c == '~' || c == '*' || c == '\'' || c == '(' || c == ')';
            EncodeChar(c) == if itself then [c] else ['%', digits[n / 16], digits[n % 16]]
  {
    var marks := "-_.!~*'()";
    assert marks[0] == '-' && marks[1] == '_' && marks[2] == '.' && marks[3] == '!' && marks[4] == '~' && marks[5] == '*'
           && marks[6] == '\'' && marks[7] == '(' && marks[8] == ')';
    assert EncodeDigits([]) == "";
  }

  /** Bytes printed as escapes, one after the other. */
  function Escapes(bytes: seq<Byte>): string {
    if bytes == [] then "" else EncodeByte(bytes[0]) + Escapes(bytes[1..])
  }

  /** The UTF-8 form of a code point. */
  function Utf8(n: nat): seq<Byte>
    requires n < 0x110000
  {
    if n < 0x80 then [n]
    else if n < 0x800 then [0xC0 + n / 0x40, 0x80 + n % 0x40]
    else if n < 0x10000 then [0xE0 + n / 0x1000, 0x80 + n / 0x40 % 0x40, 0x80 + n % 0x40]
    else [0xF0 + n / 0x40000, 0x80 + n / 0x1000 % 0x40, 0x80 + n / 0x40 % 0x40, 0x80 + n % 0x40]
  }

  function Followings(ds: seq<Digit>): seq<Byte> {
    seq(|ds|, i requires 0 <= i < |ds| => 0x80 + ds[i] as nat)
  }

  lemma {:induction false} DigitsAreEscapes(ds: seq<Digit>, bytes: seq<Byte>)
    requires |bytes| == |ds| && forall i | 0 <= i < |ds| :: bytes[i] == Following(ds[i])
    ensures EncodeDigits(ds) == Escapes(bytes)
    decreases |ds|
  {
    if ds != [] {
      DigitsAreEscapes(ds[1..], bytes[1..]);
      assert Following(ds[0]) == bytes[0];
    }
  }

  lemma LeadStarts(n: nat)
    requires n < 0x110000
    ensures [Lead(n)] + Followings(Digits(n)) == Utf8(n)
  {
  }

  /** A character is printed as the escapes of its UTF-8 bytes. */
  lemma EncodesUtf8(n: nat)
    requires n < 0x110000
    ensures EncodeBytes(n) == Escapes(Utf8(n))
  {
    var lead, rest := Lead(n), Followings(Digits(n));
    LeadStarts(n);
    DigitsAreEscapes(Digits(n), rest);
    assert ([lead] + rest)[1..] == rest;
  }

  // ---------------------------------------------------------------- nothing overlong is read

  function Scale(count: nat): nat {
    if count == 0 then 1 else if count == 1 then 0x40 else if count == 2 then 0x1000 else 0x40000
  }

  lemma {:induction false} ContinueBound(s: string, high: nat, count: nat)
    requires count <= 3 && Continue(s, high, count).Some?
    ensures Continue(s, high, count).value < (high + 1) * Scale(count)
    decreases count
  {
    if count > 0 {
      var b := ByteAt(s).value;
      ContinueBound(s[3..], high * 0x40 + (b - 0x80), count - 1);
    }
  }

  /** An escaped character is read from exactly as many bytes as it is printed with; so an overlong form,
      as of a slash or a dot, is never read. */
  lemma ReadAsPrinted(s: string, c: char, n: nat)
    requires s != "" && s[0] == '%' && CharAt(s) == Some((c, n))
    ensures n == |EncodeBytes(c as int)|
  {
    var b := ByteAt(s).value;
    var count := Continuations(b).value;
    ContinueBound(s[3..], HighBits(b), count);
    DigitsLength(Digits(c as int));
  }
}
