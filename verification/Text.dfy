/** String helpers of the host language. A string is a sequence of Unicode scalar values. */
module Text {

  predicate IsSpace(c: char) {
    c == ' ' || '\t' <= c <= '\r' || c == '\U{00A0}' || c == '\U{1680}' || '\U{2000}' <= c <= '\U{200A}' ||
    c == '\U{2028}' || c == '\U{2029}' || c == '\U{202F}' || c == '\U{205F}' || c == '\U{3000}' || c == '\U{FEFF}'
  }

  function TrimStart(s: string): string {
    if s != "" && IsSpace(s[0]) then TrimStart(s[1..]) else s
  }

  function TrimEnd(s: string): string {
    if s != "" && IsSpace(s[|s| - 1]) then TrimEnd(s[..|s| - 1]) else s
  }

  function Trim(s: string): string {
    TrimEnd(TrimStart(s))
  }

  predicate StartsWith(s: string, prefix: string) {
    prefix <= s
  }

  /** The first index at which `part` occurs, or |s| when it does not. */
  function IndexOf(s: string, part: string): (n: nat)
    ensures n <= |s|
    ensures n < |s| ==> part <= s[n..]
  {
    if s == "" then 0 else if part <= s then 0 else 1 + IndexOf(s[1..], part)
  }

  /** A carriage return before the newline is not part of the line. */
  function StripCr(s: string): string {
    if s != "" && s[|s| - 1] == '\r' then s[..|s| - 1] else s
  }

  function Lower(s: string): (r: string)
    ensures |r| == |s|
  {
    seq(|s|, i requires 0 <= i < |s| => if 'A' <= s[i] <= 'Z' then s[i] - 'A' + 'a' else s[i])
  }

  lemma Associate(a: string, b: string, c: string)
    ensures a + (b + c) == a + b + c
  {
  }

  function Decimal(n: nat): (r: string)
    ensures r != "" && forall c | c in r :: '0' <= c <= '9'
  {
    (if n < 10 then "" else Decimal(n / 10)) + ["0123456789"[n % 10]]
  }

  /** An integer as the host language prints it. */
  function Printed(i: int): string {
    if i < 0 then "-" + Decimal(-i) else Decimal(i)
  }

  lemma {:induction false} DecimalInjective(a: nat, b: nat)
    requires Decimal(a) == Decimal(b)
    ensures a == b
    decreases a
  {
    var x, y := Decimal(a), Decimal(b);
    assert x[|x| - 1] == "0123456789"[a % 10] && y[|y| - 1] == "0123456789"[b % 10];
    assert x[..|x| - 1] == (if a < 10 then "" else Decimal(a / 10)) && y[..|y| - 1] == (if b < 10 then "" else Decimal(b / 10));
    if a >= 10 && b >= 10 {
      DecimalInjective(a / 10, b / 10);
    }
  }

  lemma PrintedSign(i: int)
    ensures Printed(i) != "" && (Printed(i)[0] == '-' <==> i < 0)
  {
    if i >= 0 {
      assert Decimal(i)[0] in Decimal(i);
    }
  }

  lemma PrintedInjective(a: int, b: int)
    requires Printed(a) == Printed(b)
    ensures a == b
  {
    PrintedSign(a);
    PrintedSign(b);
    if a < 0 {
      assert Printed(a)[1..] == Decimal(-a) && Printed(b)[1..] == Decimal(-b);
      DecimalInjective(-a, -b);
    } else {
      DecimalInjective(a, b);
    }
  }
}
