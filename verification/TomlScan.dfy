/** Which lines the `base_url` scanner recognises, as a grammar (lib/ccswitch/common.js 95): blanks, the
    key, blanks, an equals sign, blanks, a quoted literal, blanks and perhaps a comment. */
module TomlScan {
  import opened Text
  import opened JsonString
  import opened LineLens
  import opened Toml

  predicate AllSpace(s: string) {
    forall i | 0 <= i < |s| :: IsSpace(s[i])
  }

  /** What may stand between double quotes: no quote and no backslash but in an escape. */
  predicate QuotedText(s: string) {
    s == "" ||
    (if s[0] == '\\' then |s| >= 2 && s[1] != '\U{2028}' && s[1] != '\U{2029}' && QuotedText(s[2..])
     else s[0] != '"' && QuotedText(s[1..]))
  }

  ghost predicate IsLiteral(l: string) {
    exists inner ::
      || (l == "\"" + inner + "\"" && QuotedText(inner))
      || (l == "'" + inner + "'" && '\'' !in inner)
  }

  ghost predicate IsPrefix(p: string, key: string) {
    exists a, b, c :: p == a + (key + (b + ("=" + c))) && AllSpace(a) && AllSpace(b) && AllSpace(c)
  }

  ghost predicate IsTail(s: string) {
    AllSpace(s) || exists blanks, comment :: s == blanks + ("#" + comment) && AllSpace(blanks)
  }

  /** The line consists of the three parts, and they are what the grammar asks for. */
  ghost predicate Cuts(body: string, p: Parts, key: string) {
    body == p.prefix + (p.literal + p.suffix) && IsPrefix(p.prefix, key) && IsLiteral(p.literal) && IsTail(p.suffix)
  }

  // ---------------------------------------------------------------- blanks

  lemma {:induction false} BlanksAre(s: string)
    ensures AllSpace(s[..Blanks(s)]) && (Blanks(s) < |s| ==> !IsSpace(s[Blanks(s)]))
    decreases |s|
  {
    if s != "" && IsSpace(s[0]) {
      BlanksAre(s[1..]);
      forall i | 0 <= i < Blanks(s) ensures IsSpace(s[..Blanks(s)][i]) {
        assert i > 0 ==> s[i] == s[1..][..Blanks(s[1..])][i - 1];
      }
    }
  }

  lemma {:induction false} BlanksOf(x: string, rest: string)
    requires AllSpace(x) && (rest == "" || !IsSpace(rest[0]))
    ensures Blanks(x + rest) == |x|
    decreases |x|
  {
    if x == "" {
      assert x + rest == rest;
    } else {
      assert (x + rest)[1..] == x[1..] + rest;
      BlanksOf(x[1..], rest);
    }
  }

  lemma TailIff(s: string)
    ensures IsSuffix(s) <==> IsTail(s)
  {
    var n := Blanks(s);
    BlanksAre(s);
    assert s == s[..n] + s[n..];
    if n == |s| {
      assert s[..n] == s;
    } else if s[n] == '#' {
      assert s == s[..n] + ("#" + s[n + 1..]);
    }
    if IsTail(s) {
      if AllSpace(s) {
        BlanksOf(s, "");
        assert s + "" == s;
      } else {
        var blanks, comment :| s == blanks + ("#" + comment) && AllSpace(blanks);
        BlanksOf(blanks, "#" + comment);
      }
    }
  }

  // ---------------------------------------------------------------- the prefix

  lemma EqualsIs(s: string, m: nat) returns (b: string, c: string)
    requires EqualsLength(s) == Some(m)
    ensures s[..m] == b + ("=" + c) && AllSpace(b) && AllSpace(c)
  {
    var n := Blanks(s);
    var k := Blanks(s[n + 1..]);
    BlanksAre(s);
    BlanksAre(s[n + 1..]);
    b, c := s[..n], s[n + 1..][..k];
  }

  lemma KeyIs(y: string, key: string, m: nat) returns (b: string, c: string)
    requires AfterKey(y, key) == Some(m)
    ensures y[..m] == key + (b + ("=" + c)) && AllSpace(b) && AllSpace(c)
  {
    b, c := EqualsIs(y[|key|..], m - |key|);
    SlicedTwice(y, |key|, m);
  }

  lemma SlicedTwice(s: string, n: nat, m: nat)
    requires n <= m <= |s|
    ensures s[..m] == s[..n] + s[n..][..m - n]
  {
  }

  lemma PrefixIs(s: string, key: string, m: nat)
    requires PrefixLength(s, key) == Some(m)
    ensures IsPrefix(s[..m], key)
  {
    var n := Blanks(s);
    BlanksAre(s);
    var b, c := KeyIs(s[n..], key, m - n);
    SlicedTwice(s, n, m);
    assert AllSpace(s[..n]) && s[..m] == s[..n] + (key + (b + ("=" + c)));
  }

  lemma EqualsOf(b: string, c: string, rest: string)
    requires AllSpace(b) && AllSpace(c) && rest == b + ("=" + c)
    ensures EqualsLength(rest) == Some(|rest|)
  {
    BlanksOf(b, "=" + c);
    assert rest[|b| + 1..] == c;
    BlanksOf(c, "");
    assert c + "" == c;
  }

  lemma PrefixOf(p: string, a: string, key: string, rest: string)
    requires AllSpace(a) && key != "" && !IsSpace(key[0]) && EqualsLength(rest) == Some(|rest|) && p == a + (key + rest)
    ensures PrefixLength(p, key) == Some(|p|)
  {
    var y := key + rest;
    BlanksOf(a, y);
    assert p[|a|..] == y && y[|key|..] == rest && key <= y;
    assert AfterKey(y, key) == Some(|y|);
  }

  // ---------------------------------------------------------------- the literal

  lemma {:induction false} ClosingIs(s: string)
    requires ClosingQuote(s).Some?
    ensures var n := ClosingQuote(s).value; s[n] == '"' && QuotedText(s[..n])
    decreases |s|
  {
    var n := ClosingQuote(s).value;
    if s[0] == '\\' {
      ClosingIs(s[2..]);
      assert s[..n][2..] == s[2..][..n - 2];
    } else if s[0] != '"' {
      ClosingIs(s[1..]);
      assert s[..n][1..] == s[1..][..n - 1];
    }
  }

  lemma {:induction false} ClosingOf(inner: string, rest: string)
    requires QuotedText(inner)
    ensures ClosingQuote(inner + ("\"" + rest)) == Some(|inner|)
    decreases |inner|
  {
    var s := inner + ("\"" + rest);
    if inner == "" {
      assert s == "\"" + rest;
    } else if inner[0] == '\\' {
      assert s[2..] == inner[2..] + ("\"" + rest);
      ClosingOf(inner[2..], rest);
    } else {
      assert s[1..] == inner[1..] + ("\"" + rest);
      ClosingOf(inner[1..], rest);
    }
  }

  lemma {:induction false} QuoteAt(s: string)
    ensures '\'' !in s[..IndexOf(s, "'")]
    ensures IndexOf(s, "'") < |s| ==> s[IndexOf(s, "'")] == '\''
    decreases |s|
  {
    if s != "" {
      assert "'" <= s <==> s[0] == '\'';
      if s[0] != '\'' {
        QuoteAt(s[1..]);
        assert s[..IndexOf(s, "'")] == [s[0]] + s[1..][..IndexOf(s[1..], "'")];
      }
    }
  }

  lemma {:induction false} QuoteOf(inner: string, rest: string)
    requires '\'' !in inner
    ensures IndexOf(inner + ("'" + rest), "'") == |inner|
    decreases |inner|
  {
    var s := inner + ("'" + rest);
    assert "'" <= s <==> s[0] == '\'';
    if inner != "" {
      assert s[0] == inner[0] && s[1..] == inner[1..] + ("'" + rest);
      QuoteOf(inner[1..], rest);
    }
  }

  lemma LiteralIs(s: string)
    requires LiteralLength(s).Some?
    ensures IsLiteral(s[..LiteralLength(s).value])
  {
    var n := LiteralLength(s).value;
    if s[0] == '"' {
      ClosingIs(s[1..]);
      assert s[..n] == "\"" + s[1..][..n - 2] + "\"";
    } else {
      QuoteAt(s[1..]);
      assert s[..n] == "'" + s[1..][..n - 2] + "'";
    }
  }

  lemma DoubleOf(l: string, inner: string, rest: string)
    requires l == "\"" + inner + "\"" && QuotedText(inner)
    ensures LiteralLength(l + rest) == Some(|l|)
  {
    assert (l + rest)[1..] == inner + ("\"" + rest);
    ClosingOf(inner, rest);
  }

  lemma SingleOf(l: string, inner: string, rest: string)
    requires l == "'" + inner + "'" && '\'' !in inner
    ensures LiteralLength(l + rest) == Some(|l|)
  {
    assert (l + rest)[1..] == inner + ("'" + rest);
    QuoteOf(inner, rest);
  }

  lemma LiteralOf(l: string, rest: string)
    requires IsLiteral(l)
    ensures LiteralLength(l + rest) == Some(|l|) && l != "" && !IsSpace(l[0])
  {
    var inner :| (l == "\"" + inner + "\"" && QuotedText(inner)) || (l == "'" + inner + "'" && '\'' !in inner);
    if l == "\"" + inner + "\"" && QuotedText(inner) {
      DoubleOf(l, inner, rest);
    } else {
      SingleOf(l, inner, rest);
    }
  }

  // ---------------------------------------------------------------- the line

  lemma Sliced(body: string, start: nat, end: nat)
    requires start <= end <= |body|
    ensures body[start..end] == body[start..][..end - start]
    ensures body == body[..start] + (body[start..end] + body[end..])
  {
  }

  lemma Joined(a: string, b: string, c: string)
    ensures var body := a + (b + c);
            body[..|a|] == a && body[|a|..] == b + c && body[|a|..|a| + |b|] == b && body[|a| + |b|..] == c
  {
  }

  lemma CutAtParts(body: string, start: nat, end: nat, p: Parts)
    requires start <= end <= |body| && CutAt(body, start, end) == Some(p)
    ensures body == p.prefix + (p.literal + p.suffix) && IsSuffix(p.suffix)
    ensures start == |p.prefix| && end == |p.prefix| + |p.literal| && body[start..] == p.literal + p.suffix
  {
    Sliced(body, start, end);
  }

  lemma LiteralAtParts(body: string, start: nat, p: Parts)
    requires start <= |body| && LiteralAt(body, start) == Some(p)
    ensures body == p.prefix + (p.literal + p.suffix) && IsSuffix(p.suffix)
    ensures start == |p.prefix| && LiteralLength(p.literal + p.suffix) == Some(|p.literal|)
  {
    CutAtParts(body, start, start + LiteralLength(body[start..]).value, p);
  }

  lemma KeyedParts(body: string, p: Parts, key: string)
    requires KeyedLiteral(body, key) == Some(p)
    ensures body == p.prefix + (p.literal + p.suffix) && IsSuffix(p.suffix)
    ensures PrefixLength(body, key) == Some(|p.prefix|) && LiteralLength(p.literal + p.suffix) == Some(|p.literal|)
  {
    LiteralAtParts(body, PrefixLength(body, key).value, p);
  }

  lemma KeyedIsCut(body: string, p: Parts, key: string)
    requires PrefixLength(body, key) == Some(|p.prefix|) && LiteralLength(p.literal + p.suffix) == Some(|p.literal|)
    requires body == p.prefix + (p.literal + p.suffix) && IsSuffix(p.suffix)
    ensures Cuts(body, p, key)
  {
    Joined(p.prefix, p.literal, p.suffix);
    assert IsPrefix(p.prefix, key) by {
      PrefixIs(body, key, |p.prefix|);
    }
    assert IsLiteral(p.literal) by {
      LiteralIs(p.literal + p.suffix);
      assert (p.literal + p.suffix)[..|p.literal|] == p.literal;
    }
    assert IsTail(p.suffix) by {
      TailIff(p.suffix);
    }
  }

  lemma PrefixFound(prefix: string, rest: string, key: string)
    requires IsPrefix(prefix, key) && key != "" && !IsSpace(key[0]) && rest != "" && !IsSpace(rest[0])
    ensures PrefixLength(prefix + rest, key) == Some(|prefix|)
  {
    var a, b, c :| prefix == a + (key + (b + ("=" + c))) && AllSpace(a) && AllSpace(b) && AllSpace(c);
    EqualsOf(b, c, b + ("=" + c));
    PrefixOf(prefix, a, key, b + ("=" + c));
    PrefixWithin(prefix, rest, key);
  }

  lemma CutIsKeyed(body: string, p: Parts, key: string)
    requires Cuts(body, p, key) && key != "" && !IsSpace(key[0])
    ensures PrefixLength(body, key) == Some(|p.prefix|) && LiteralLength(p.literal + p.suffix) == Some(|p.literal|) && IsSuffix(p.suffix)
  {
    assert LiteralLength(p.literal + p.suffix) == Some(|p.literal|) && PrefixLength(body, key) == Some(|p.prefix|) by {
      LiteralOf(p.literal, p.suffix);
      PrefixFound(p.prefix, p.literal + p.suffix, key);
    }
    assert IsSuffix(p.suffix) by {
      TailIff(p.suffix);
    }
  }

  lemma KeyedIff(body: string, p: Parts, key: string)
    requires key != "" && !IsSpace(key[0])
    ensures KeyedLiteral(body, key) == Some(p) <==> Cuts(body, p, key)
  {
    if KeyedLiteral(body, key) == Some(p) {
      KeyedParts(body, p, key);
      KeyedIsCut(body, p, key);
    }
    if Cuts(body, p, key) {
      assert body == p.prefix + p.literal + p.suffix;
      assert p.literal != "" && !IsSpace(p.literal[0]) by {
        LiteralOf(p.literal, p.suffix);
      }
      CutIsKeyed(body, p, key);
      Assemble(p, key);
    }
  }

  /** The scanner cuts a line into these parts exactly when the grammar does; so there is at most one
      way to cut a line, and the scanner misses none. */
  lemma AssignmentIff(body: string, p: Parts)
    ensures Assignment(body) == Some(p) <==> Cuts(body, p, "base_url")
  {
    KeyedIff(body, p, "base_url");
  }
}
