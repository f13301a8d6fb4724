/** Percent-encoding of URI components over UTF-8 (section 2.1 of RFC 3986, section 3 of RFC 3629), as
    encodeURIComponent prints and decodeURIComponent reads it.

    A character becomes one to four bytes, and every byte outside the unreserved set becomes a percent
    sign and two hexadecimal digits. Reading turns the escapes back into bytes, checks that the bytes
    are well-formed UTF-8, and fails on anything else. */
module Percent {
  import opened JsonString

  predicate IsAlphanumeric(c: char) {
    'a' <= c <= 'z' || 'A' <= c <= 'Z' || '0' <= c <= '9'
  }

  /** The characters that stand for themselves. */
  predicate IsPlain(c: char) {
    IsAlphanumeric(c) || c in "-_.!~*'()"
  }

  function UpperHex(n: nat): char
    requires n < 16
  {
    "0123456789ABCDEF"[n]
  }

  type Byte = b: nat | b < 0x100

  /** The six bits a continuation byte carries. */
  type Digit = d: nat | d < 0x40

  function EncodeByte(b: Byte): string {
    ['%', UpperHex(b / 16), UpperHex(b % 16)]
  }

  function Following(d: Digit): Byte {
    0x80 + d as nat
  }

  /** Continuation bytes, six bits each. */
  function EncodeDigits(ds: seq<Digit>): string {
    if ds == [] then "" else EncodeByte(Following(ds[0])) + EncodeDigits(ds[1..])
  }

  /** The leading byte of a code point's UTF-8 form and the six-bit digits after it. */
  function Lead(n: nat): Byte
    requires n < 0x110000
  {
    if n < 0x80 then n else if n < 0x800 then 0xC0 + n / 0x40 else if n < 0x10000 then 0xE0 + n / 0x1000 else 0xF0 + n / 0x40000
  }

  function Digits(n: nat): seq<Digit> {
    if n < 0x80 then []
    else if n < 0x800 then [n % 0x40]
    else if n < 0x10000 then [n / 0x40 % 0x40, n % 0x40]
    else [n / 0x1000 % 0x40, n / 0x40 % 0x40, n % 0x40]
  }

  /** The UTF-8 bytes of a character, each percent-encoded. */
  function EncodeBytes(n: nat): string
    requires n < 0x110000
  {
    EncodeByte(Lead(n)) + EncodeDigits(Digits(n))
  }

  function EncodeChar(c: char): string {
    if IsPlain(c) then [c] else EncodeBytes(c as int)
  }

  function Encode(s: string): string {
    if s == "" then "" else EncodeChar(s[0]) + Encode(s[1..])
  }

  /** The byte that an escape at the start of the text stands for. */
  function ByteAt(s: string): Option<nat> {
    if |s| < 3 || s[0] != '%' || HexValue(s[1]).None? || HexValue(s[2]).None? then None
    else Some(HexValue(s[1]).value * 16 + HexValue(s[2]).value)
  }

  /** The value of `count` continuation bytes, appended to `high`. */
  function Continue(s: string, high: nat, count: nat): Option<nat>
    decreases count
  {
    if count == 0 then Some(high)
    else
      var b := ByteAt(s);
      if b.None? || !(0x80 <= b.value < 0xC0) then None else Continue(s[3..], high * 0x40 + (b.value - 0x80), count - 1)
  }

  /** How many continuation bytes follow a leading byte; None when it leads nothing. */
  function Continuations(b: nat): Option<nat> {
    if b < 0x80 then Some(0)
    else if 0xC0 <= b < 0xE0 then Some(1)
    else if 0xE0 <= b < 0xF0 then Some(2)
    else if 0xF0 <= b < 0xF8 then Some(3)
    else None
  }

  function HighBits(b: nat): nat {
    if b < 0x80 then b else if b < 0xE0 then b % 0x20 else if b < 0xF0 then b % 0x10 else b % 8
  }

  /** The smallest code point that needs this many continuation bytes. */
  function Smallest(count: nat): nat {
    if count == 0 then 0 else if count == 1 then 0x80 else if count == 2 then 0x800 else 0x10000
  }

  /** The character at the start of the text and the length of its encoding; None for a malformed,
      overlong or surrogate sequence. */
  function CharAt(s: string): (r: Option<(char, nat)>)
    requires s != ""
    ensures r.Some? ==> 0 < r.value.1
  {
    if s[0] != '%' then Some((s[0], 1))
    else
      var b := ByteAt(s);
      if b.None? || Continuations(b.value).None? then None
      else
        var count := Continuations(b.value).value;
        var n := Continue(s[3..], HighBits(b.value), count);
        if n.None? || n.value < Smallest(count) || n.value >= 0x110000 || 0xD800 <= n.value < 0xE000 then None
        else Some((n.value as char, 3 + 3 * count))
  }

  function Decode(s: string): Option<string>
    decreases |s|
  {
    if s == "" then Some("")
    else
      var c := CharAt(s);
      if c.None? || c.value.1 > |s| then None else Push(c.value.0, Decode(s[c.value.1..]))
  }

  // ---------------------------------------------------------------- round trip

  lemma UpperHexRoundTrip(n: nat)
    requires n < 16
    ensures HexValue(UpperHex(n)) == Some(n) && IsAlphanumeric(UpperHex(n))
  {
  }

  lemma ByteRoundTrip(b: Byte, rest: string)
    ensures ByteAt(EncodeByte(b) + rest) == Some(b) && (EncodeByte(b) + rest)[3..] == rest
  {
    UpperHexRoundTrip(b / 16);
    UpperHexRoundTrip(b % 16);
  }

  /** The number with these digits after `high`, in base 64. */
  function Fold(high: nat, ds: seq<Digit>): nat
    decreases |ds|
  {
    if ds == [] then high else Fold(high * 0x40 + ds[0], ds[1..])
  }

  lemma ContinueOne(high: nat, d: Digit, count: nat, rest: string)
    ensures Continue(EncodeByte(Following(d)) + rest, high, count + 1) == Continue(rest, high * 0x40 + d, count)
  {
    ByteRoundTrip(Following(d), rest);
  }

  lemma {:induction false} ContinueDigits(high: nat, ds: seq<Digit>, rest: string)
    ensures Continue(EncodeDigits(ds) + rest, high, |ds|) == Some(Fold(high, ds))
    decreases |ds|
  {
    if ds != [] {
      ContinueDigits(high * 0x40 + ds[0], ds[1..], rest);
      ContinueOne(high, ds[0], |ds| - 1, EncodeDigits(ds[1..]) + rest);
      assert EncodeDigits(ds) + rest == EncodeByte(Following(ds[0])) + (EncodeDigits(ds[1..]) + rest);
    }
  }

  lemma {:induction false} DigitsLength(ds: seq<Digit>)
    ensures |EncodeDigits(ds)| == 3 * |ds|
    decreases |ds|
  {
    if ds != [] {
      DigitsLength(ds[1..]);
    }
  }

  lemma Quotients(n: nat)
    ensures n == n / 0x40 * 0x40 + n % 0x40
    ensures n / 0x40 == n / 0x1000 * 0x40 + n / 0x40 % 0x40
    ensures n / 0x1000 == n / 0x40000 * 0x40 + n / 0x1000 % 0x40
  {
  }

  function Top(n: nat): nat {
    if n < 0x80 then n else if n < 0x800 then n / 0x40 else if n < 0x10000 then n / 0x1000 else n / 0x40000
  }

  lemma DigitsAreExact(n: nat)
    requires n < 0x110000
    ensures Fold(Top(n), Digits(n)) == n
  {
    Quotients(n);
    FoldCons(n / 0x40, n % 0x40, []);
    FoldCons(n / 0x1000, n / 0x40 % 0x40, [n % 0x40]);
    FoldCons(n / 0x40000, n / 0x1000 % 0x40, [n / 0x40 % 0x40, n % 0x40]);
    assert [n / 0x40 % 0x40] + [n % 0x40] == [n / 0x40 % 0x40, n % 0x40];
    assert [n / 0x1000 % 0x40] + [n / 0x40 % 0x40, n % 0x40] == [n / 0x1000 % 0x40, n / 0x40 % 0x40, n % 0x40];
    assert [n % 0x40] + [] == [n % 0x40];
  }

  lemma LeadIsExact(n: nat)
    requires n < 0x110000
    ensures Continuations(Lead(n)) == Some(|Digits(n)|) && Smallest(|Digits(n)|) <= n
    ensures HighBits(Lead(n)) == Top(n)
  {
    if 0x80 <= n < 0x800 {
      assert n / 0x40 < 0x20;
    } else if 0x800 <= n < 0x10000 {
      assert n / 0x1000 < 0x10;
    } else if n >= 0x10000 {
      assert n / 0x40000 < 8;
    }
  }

  /** Splitting a code point into leading byte and digits loses nothing. */
  lemma SplitIsExact(n: nat)
    requires n < 0x110000
    ensures Continuations(Lead(n)) == Some(|Digits(n)|) && Smallest(|Digits(n)|) <= n
    ensures Fold(HighBits(Lead(n)), Digits(n)) == n
  {
    LeadIsExact(n);
    DigitsAreExact(n);
  }

  lemma FoldCons(high: nat, d: Digit, ds: seq<Digit>)
    ensures Fold(high, [d] + ds) == Fold(high * 0x40 + d, ds)
    ensures Fold(high, []) == high
  {
    assert ([d] + ds)[1..] == ds;
  }

  /** What `CharAt` makes of an escape whose parts are known. */
  lemma CharOfParts(s: string, b: nat, count: nat, n: nat)
    requires s != "" && s[0] == '%' && ByteAt(s) == Some(b) && Continuations(b) == Some(count)
    requires Continue(s[3..], HighBits(b), count) == Some(n)
    requires Smallest(count) <= n < 0x110000 && !(0xD800 <= n < 0xE000)
    ensures CharAt(s) == Some((n as char, 3 + 3 * count))
  {
  }

  lemma BytesRoundTrip(n: nat, rest: string)
    requires n < 0x110000 && !(0xD800 <= n < 0xE000)
    ensures CharAt(EncodeBytes(n) + rest) == Some((n as char, |EncodeBytes(n)|))
  {
    var s, tail := EncodeBytes(n) + rest, EncodeDigits(Digits(n)) + rest;
    assert s == EncodeByte(Lead(n)) + tail;
    SplitIsExact(n);
    ByteRoundTrip(Lead(n), tail);
    ContinueDigits(HighBits(Lead(n)), Digits(n), rest);
    DigitsLength(Digits(n));
    CharOfParts(s, Lead(n), |Digits(n)|, n);
  }

  lemma CharRoundTrip(c: char, rest: string)
    ensures CharAt(EncodeChar(c) + rest) == Some((c, |EncodeChar(c)|))
    ensures (EncodeChar(c) + rest)[|EncodeChar(c)|..] == rest
  {
    if !IsPlain(c) {
      BytesRoundTrip(c as int, rest);
    }
  }

  lemma DecodeStep(c: char, rest: string)
    ensures Decode(EncodeChar(c) + rest) == Push(c, Decode(rest))
  {
    CharRoundTrip(c, rest);
  }

  /** Decoding undoes encoding on every string. */
  lemma {:induction false} RoundTrip(s: string)
    ensures Decode(Encode(s)) == Some(s)
  {
    if s != "" {
      RoundTrip(s[1..]);
      assert [s[0]] + s[1..] == s;
      DecodeStep(s[0], Encode(s[1..]));
    }
  }

  /** Equal encodings come from equal strings. */
  lemma Injective(a: string, b: string)
    requires Encode(a) == Encode(b)
    ensures a == b
  {
    RoundTrip(a);
    RoundTrip(b);
  }

  lemma ByteIsSafe(b: Byte)
    ensures forall c | c in EncodeByte(b) :: c == '%' || IsAlphanumeric(c)
  {
    UpperHexRoundTrip(b / 16);
    UpperHexRoundTrip(b % 16);
  }

  lemma {:induction false} DigitsAreSafe(ds: seq<Digit>)
    ensures forall c | c in EncodeDigits(ds) :: c == '%' || IsAlphanumeric(c)
    decreases |ds|
  {
    if ds != [] {
      ByteIsSafe(Following(ds[0]));
      DigitsAreSafe(ds[1..]);
    }
  }

  /** An encoded component is made of plain characters and escapes only, so it holds no separator. */
  lemma {:induction false} EncodedIsSafe(s: string)
    ensures forall c | c in Encode(s) :: c == '%' || IsPlain(c)
    ensures Encode(s) == "" <==> s == ""
  {
    if s != "" {
      EncodedIsSafe(s[1..]);
      if !IsPlain(s[0]) {
        SplitIsExact(s[0] as int);
        ByteIsSafe(Lead(s[0] as int));
        DigitsAreSafe(Digits(s[0] as int));
      }
    }
  }
}
