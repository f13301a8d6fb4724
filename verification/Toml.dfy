/** The hand-written scanner for `base_url = "…"` lines (lib/ccswitch/common.js 95-127). White space
    and literals are taken within one line.

    A config is read and written through a lens: the values are what its literals denote, and a
    replacement prints a new literal in place of one of them. What has to be shown is that the line
    then scans as the same assignment, with the printed literal and nothing else changed. */
module Toml {
  import opened Text
  import opened JsonString
  import opened LineLens

  // ---------------------------------------------------------------- one line

  /** The number of leading white-space characters. */
  function Blanks(s: string): (n: nat)
    ensures n <= |s|
  {
    if s == "" || !IsSpace(s[0]) then 0 else 1 + Blanks(s[1..])
  }

  function Further(n: nat, r: Option<nat>): Option<nat> {
    if r.Some? then Some(n + r.value) else None
  }

  /** The length of `<blanks>=<blanks>` at the start of the text. */
  function EqualsLength(s: string): (r: Option<nat>)
    ensures r.Some? ==> r.value <= |s|
  {
    var n := Blanks(s);
    if n == |s| || s[n] != '=' then None else Some(n + 1 + Blanks(s[n + 1..]))
  }

  /** The length of `key<blanks>=<blanks>` at the start of the text. */
  function AfterKey(y: string, key: string): (r: Option<nat>)
    ensures r.Some? ==> |key| <= r.value <= |y|
  {
    if key <= y then Further(|key|, EqualsLength(y[|key|..])) else None
  }

  /** The length of `<blanks>key<blanks>=<blanks>` at the start of the line. */
  function PrefixLength(s: string, key: string): (r: Option<nat>)
    ensures r.Some? ==> r.value <= |s|
  {
    Further(Blanks(s), AfterKey(s[Blanks(s)..], key))
  }

  /** Where the double quote that closes a literal stands, given what follows the opening one. */
  function ClosingQuote(s: string): (r: Option<nat>)
    ensures r.Some? ==> r.value < |s|
    decreases |s|
  {
    if s == "" then None
    else if s[0] == '"' then Some(0)
    else if s[0] == '\\' then
      if |s| == 1 || s[1] == '\U{2028}' || s[1] == '\U{2029}' then None
      else if ClosingQuote(s[2..]).Some? then Some(2 + ClosingQuote(s[2..]).value) else None
    else if ClosingQuote(s[1..]).Some? then Some(1 + ClosingQuote(s[1..]).value) else None
  }

  function LiteralLength(s: string): (r: Option<nat>)
    ensures r.Some? ==> 2 <= r.value <= |s|
  {
    if s == "" then None
    else if s[0] == '"' then
      if ClosingQuote(s[1..]).Some? then Some(ClosingQuote(s[1..]).value + 2) else None
    else if s[0] == '\'' then
      var n := IndexOf(s[1..], "'");
      if n == |s[1..]| then None else Some(n + 2)
    else None
  }

  /** Only white space and perhaps a comment. */
  predicate IsSuffix(s: string) {
    Blanks(s) == |s| || s[Blanks(s)] == '#'
  }

  function CutAt(body: string, start: nat, end: nat): (r: Option<Parts>)
    requires start <= end <= |body|
  {
    if IsSuffix(body[end..]) then Some(Parts(body[..start], body[start..end], body[end..])) else None
  }

  function LiteralAt(body: string, start: nat): (r: Option<Parts>)
    requires start <= |body|
  {
    var length := LiteralLength(body[start..]);
    if length.None? then None else CutAt(body, start, start + length.value)
  }

  function KeyedLiteral(body: string, key: string): (r: Option<Parts>) {
    var start := PrefixLength(body, key);
    if start.None? then None else LiteralAt(body, start.value)
  }

  function Assignment(body: string): Option<Parts> {
    KeyedLiteral(body, "base_url")
  }

  /** The string a literal denotes. */
  function Decode(literal: string): Option<string> {
    if |literal| < 2 then None
    else if literal[0] == '"' then Parse(literal[1..|literal| - 1]) else Some(literal[1..|literal| - 1])
  }

  // ---------------------------------------------------------------- a new literal scans back

  lemma {:induction false} BlanksBefore(x: string, rest: string)
    requires rest == "" || !IsSpace(rest[0])
    ensures Blanks(x + rest) == Blanks(x)
    decreases |x|
  {
    if x == "" {
      assert x + rest == rest;
    } else {
      assert (x + rest)[1..] == x[1..] + rest;
      BlanksBefore(x[1..], rest);
    }
  }

  lemma EqualsWithin(x: string, rest: string)
    requires rest != "" && !IsSpace(rest[0])
    ensures EqualsLength(x + rest) == Some(|x|) <==> EqualsLength(x) == Some(|x|)
  {
    var n := Blanks(x);
    BlanksBefore(x, rest);
    if n < |x| {
      assert (x + rest)[n + 1..] == x[n + 1..] + rest;
      BlanksBefore(x[n + 1..], rest);
    }
  }

  lemma StartsWithin(y: string, rest: string, key: string)
    requires |key| <= |y|
    ensures key <= y + rest <==> key <= y
    ensures (y + rest)[|key|..] == y[|key|..] + rest
  {
    assert (y + rest)[..|key|] == y[..|key|];
  }

  lemma AfterKeyWithin(y: string, rest: string, key: string)
    requires rest != "" && !IsSpace(rest[0])
    ensures AfterKey(y + rest, key) == Some(|y|) <==> AfterKey(y, key) == Some(|y|)
  {
    if |key| <= |y| {
      StartsWithin(y, rest, key);
      EqualsWithin(y[|key|..], rest);
    }
  }

  /** The prefix of `x + rest` is all of `x` exactly when it is for `x` alone. */
  lemma PrefixWithin(x: string, rest: string, key: string)
    requires rest != "" && !IsSpace(rest[0])
    ensures PrefixLength(x + rest, key) == Some(|x|) <==> PrefixLength(x, key) == Some(|x|)
  {
    var n := Blanks(x);
    BlanksBefore(x, rest);
    assert (x + rest)[n..] == x[n..] + rest;
    assert PrefixLength(x + rest, key) == Further(n, AfterKey(x[n..] + rest, key));
    AfterKeyWithin(x[n..], rest, key);
  }

  lemma {:induction false} ClosingOver(x: string, rest: string)
    requires '"' !in x && '\\' !in x
    ensures ClosingQuote(x + rest) == Further(|x|, ClosingQuote(rest))
    decreases |x|
  {
    if x == "" {
      assert x + rest == rest;
    } else {
      assert (x + rest)[1..] == x[1..] + rest;
      ClosingOver(x[1..], rest);
    }
  }

  lemma ClosingEscape(e: string, rest: string)
    requires |e| >= 2 && e[0] == '\\' && e[1] < '\U{2028}' && '"' !in e[2..] && '\\' !in e[2..]
    ensures ClosingQuote(e + rest) == Further(|e|, ClosingQuote(rest))
  {
    assert (e + rest)[2..] == e[2..] + rest;
    ClosingOver(e[2..], rest);
  }

  lemma ClosingAfter(c: char, rest: string)
    ensures ClosingQuote(EscapeChar(c) + rest) == Further(|EscapeChar(c)|, ClosingQuote(rest))
  {
    var e := EscapeChar(c);
    if |e| == 1 {
      ClosingOver(e, rest);
    } else {
      if |e| == 6 {
        HexRoundTrip(c as int / 16);
        HexRoundTrip(c as int % 16);
        assert e[2..] == ['0', '0', HexDigit(c as int / 16), HexDigit(c as int % 16)];
      }
      ClosingEscape(e, rest);
    }
  }

  lemma {:induction false} QuoteCloses(v: string, rest: string)
    ensures ClosingQuote(Escape(v) + "\"" + rest) == Some(|Escape(v)|)
    decreases |v|
  {
    if v == "" {
      assert Escape(v) + "\"" + rest == "\"" + rest;
    } else {
      QuoteCloses(v[1..], rest);
      ClosingAfter(v[0], Escape(v[1..]) + "\"" + rest);
      assert Escape(v) + "\"" + rest == EscapeChar(v[0]) + (Escape(v[1..]) + "\"" + rest);
    }
  }

  lemma {:induction false} EscapeStaysOnLine(v: string)
    ensures forall c | c in Escape(v) :: !IsTerminator(c)
  {
    if v != "" {
      EscapeStaysOnLine(v[1..]);
      forall c | c in EscapeChar(v[0]) ensures !IsTerminator(c) {
        if |EscapeChar(v[0])| == 6 {
          HexRoundTrip(v[0] as int / 16);
          HexRoundTrip(v[0] as int % 16);
        }
      }
    }
  }

  lemma DecodeQuote(v: string)
    ensures Decode(Quote(v)) == Some(v)
  {
    QuoteRoundTrip(v);
    assert Quote(v)[1..|Quote(v)| - 1] == Escape(v);
  }

  lemma Assemble(p: Parts, key: string)
    requires p.literal != "" && !IsSpace(p.literal[0]) && IsSuffix(p.suffix)
    requires PrefixLength(p.prefix + (p.literal + p.suffix), key) == Some(|p.prefix|)
    requires LiteralLength(p.literal + p.suffix) == Some(|p.literal|)
    ensures KeyedLiteral(p.prefix + p.literal + p.suffix, key) == Some(p)
  {
    var s := p.prefix + p.literal + p.suffix;
    var start, end := |p.prefix|, |p.prefix| + |p.literal|;
    assert s == p.prefix + (p.literal + p.suffix) && s[start..] == p.literal + p.suffix;
    assert s[..start] == p.prefix && s[start..end] == p.literal && s[end..] == p.suffix;
  }

  lemma CutTwice(s: string, i: nat, j: nat)
    requires i <= j <= |s|
    ensures s == s[..i] + s[i..j] + s[j..] && s[i..] == s[i..j] + s[j..]
    ensures s == s[..i] + (s[i..j] + s[j..])
  {
  }

  lemma LiteralStarts(s: string)
    requires LiteralLength(s).Some?
    ensures !IsSpace(s[0])
  {
  }

  lemma Disassemble(body: string, key: string)
    requires KeyedLiteral(body, key).Some?
    ensures var p := KeyedLiteral(body, key).value;
            && body == p.prefix + p.literal + p.suffix && p.literal != "" && !IsSpace(p.literal[0])
            && PrefixLength(p.prefix + (p.literal + p.suffix), key) == Some(|p.prefix|) && IsSuffix(p.suffix)
  {
    var start := PrefixLength(body, key).value;
    var end := start + LiteralLength(body[start..]).value;
    CutTwice(body, start, end);
    LiteralStarts(body[start..]);
  }

  lemma QuoteIsLiteral(v: string, suffix: string)
    ensures LiteralLength(Quote(v) + suffix) == Some(|Quote(v)|)
  {
    QuoteCloses(v, suffix);
    assert (Quote(v) + suffix)[1..] == Escape(v) + "\"" + suffix;
  }

  /** A line whose literal is replaced by a printed one is again an assignment, of that literal. */
  lemma ReparseAfterPut(body: string, key: string, v: string)
    requires KeyedLiteral(body, key).Some?
    ensures var p := KeyedLiteral(body, key).value;
            KeyedLiteral(p.prefix + Quote(v) + p.suffix, key) == Some(Parts(p.prefix, Quote(v), p.suffix))
  {
    var p := KeyedLiteral(body, key).value;
    Disassemble(body, key);
    PrefixWithin(p.prefix, p.literal + p.suffix, key);
    PrefixWithin(p.prefix, Quote(v) + p.suffix, key);
    QuoteIsLiteral(v, p.suffix);
    Assemble(Parts(p.prefix, Quote(v), p.suffix), key);
  }

  lemma QuoteFits(v: string)
    ensures Fits(Assignment, Quote(v)) && Cuts(Assignment)
  {
    EscapeStaysOnLine(v);
    forall body | Assignment(body).Some?
      ensures FitsAt(Assignment, body, Quote(v))
      ensures body == Assignment(body).value.prefix + Assignment(body).value.literal + Assignment(body).value.suffix
    {
      ReparseAfterPut(body, "base_url", v);
      Disassemble(body, "base_url");
    }
  }

  // ---------------------------------------------------------------- listing and replacing

  function ValuesOf(literals: seq<string>): seq<Option<string>> {
    seq(|literals|, i requires 0 <= i < |literals| => Decode(literals[i]))
  }

  /** The decoded value of every occurrence, None where the literal does not decode. */
  function Values(config: string): seq<Option<string>> {
    ValuesOf(Literals(SplitLines(config), Assignment))
  }

  datatype Entry = Entry(occurrence: nat, value: string)

  function Listed(values: seq<Option<string>>): seq<Entry> {
    if values == [] then []
    else
      var n := |values| - 1;
      Listed(values[..n]) + if values[n].Some? then [Entry(n, values[n].value)] else []
  }

  datatype Replaced = Replaced(value: string, found: bool, actual: Option<string>, changed: bool)

  function ReplaceSpec(config: string, occurrence: nat, expected: string, replacement: string, force: bool): Replaced {
    if occurrence >= |Values(config)| then Replaced(config, false, None, false)
    else
      var actual := Values(config)[occurrence];
      if !force && actual != Some(expected) then Replaced(config, true, actual, false)
      else
        Replaced(Join(Put(SplitLines(config), Assignment, occurrence, Quote(replacement))), true, actual, actual != Some(replacement))
  }

  lemma {:induction false} ListedHolds(values: seq<Option<string>>)
    ensures forall e | e in Listed(values) :: e.occurrence < |values| && values[e.occurrence] == Some(e.value)
    ensures forall o: nat | o < |values| && values[o].Some? :: Entry(o, values[o].value) in Listed(values)
    ensures forall i, j | 0 <= i < j < |Listed(values)| :: Listed(values)[i].occurrence < Listed(values)[j].occurrence
    decreases |values|
  {
    if values != [] {
      ListedHolds(values[..|values| - 1]);
    }
  }

  /** The lines and literals of the text after a put. */
  lemma TextAfterPut(config: string, occurrence: nat, v: string)
    requires occurrence < |Values(config)|
    ensures var lines := SplitLines(config); var next := Put(lines, Assignment, occurrence, Quote(v));
            && SplitLines(Join(next)) == next && Join(lines) == config
            && Literals(next, Assignment) == Literals(lines, Assignment)[occurrence := Quote(v)]
            && Values(Join(next)) == Values(config)[occurrence := Some(v)]
  {
    var lines := SplitLines(config);
    QuoteFits(v);
    SplitThenJoin(config);
    PutKeepsSplit(lines, Assignment, occurrence, Quote(v));
    JoinThenSplit(Put(lines, Assignment, occurrence, Quote(v)));
    PutChangesOne(lines, Assignment, occurrence, Quote(v));
    DecodeQuote(v);
  }

  /** The replacement lands exactly when the occurrence exists and holds what is expected or force is
      given. Then the list of values is the old one with that entry changed; otherwise the text is
      untouched. */
  lemma ReplaceUpdatesOne(config: string, occurrence: nat, expected: string, replacement: string, force: bool)
    ensures var r := ReplaceSpec(config, occurrence, expected, replacement, force);
            && (r.found <==> occurrence < |Values(config)|)
            && (r.found && (force || Values(config)[occurrence] == Some(expected)) ==>
                  Values(r.value) == Values(config)[occurrence := Some(replacement)])
            && (!r.found || !(force || Values(config)[occurrence] == Some(expected)) ==> r.value == config)
            && (r.changed ==> Values(r.value) != Values(config))
  {
    if occurrence < |Values(config)| {
      TextAfterPut(config, occurrence, replacement);
    }
  }

  /** Every other character of the text stays. */
  lemma {:induction false} ReplaceIsLocal(config: string, occurrence: nat, expected: string, replacement: string)
    requires occurrence < |Values(config)| && Values(config)[occurrence] == Some(expected)
    ensures var lines := SplitLines(config);
            var before, after := Before(lines, Assignment, occurrence), After(lines, Assignment, occurrence);
            && config == before + Literals(lines, Assignment)[occurrence] + after
            && ReplaceSpec(config, occurrence, expected, replacement, false).value == before + Quote(replacement) + after
  {
    var lines := SplitLines(config);
    SplitThenJoin(config);
    QuoteFits(replacement);
    PutSame(lines, Assignment, occurrence);
    PutIsLocal(lines, Assignment, occurrence, Literals(lines, Assignment)[occurrence]);
    PutIsLocal(lines, Assignment, occurrence, Quote(replacement));
  }

  /** Two replacements at one occurrence are the second one. */
  lemma ReplaceTwice(config: string, occurrence: nat, expected: string, a: string, b: string)
    requires occurrence < |Values(config)| && Values(config)[occurrence] == Some(expected)
    ensures ReplaceSpec(ReplaceSpec(config, occurrence, expected, a, false).value, occurrence, a, b, false).value
            == ReplaceSpec(config, occurrence, expected, b, false).value
  {
    TextAfterPut(config, occurrence, a);
    QuoteFits(a);
    PutPut(SplitLines(config), Assignment, occurrence, Quote(a), Quote(b));
  }

  lemma SameMiddle(before: string, x: string, y: string, after: string)
    ensures before + x + after == before + y + after <==> x == y
  {
    if before + x + after == before + y + after {
      assert |x| == |y|;
      forall i | 0 <= i < |x| ensures x[i] == y[i] {
        assert (before + x + after)[|before| + i] == (before + y + after)[|before| + i];
      }
    }
  }

  /** Replacing a value and putting it back restores every value, and restores the very text exactly
      when the literal had been written the way values are printed. */
  lemma RestoreIsExactIff(config: string, occurrence: nat, original: string, other: string)
    requires occurrence < |Values(config)| && Values(config)[occurrence] == Some(original)
    ensures var replaced := ReplaceSpec(config, occurrence, original, other, false).value;
            var restored := ReplaceSpec(replaced, occurrence, other, original, false).value;
            && Values(restored) == Values(config)
            && (restored == config <==> Literals(SplitLines(config), Assignment)[occurrence] == Quote(original))
  {
    ReplaceTwice(config, occurrence, original, other, original);
    ReplaceUpdatesOne(config, occurrence, original, original, false);
    ReplaceIsLocal(config, occurrence, original, original);
    var lines := SplitLines(config);
    SameMiddle(Before(lines, Assignment, occurrence), Quote(original), Literals(lines, Assignment)[occurrence],
               After(lines, Assignment, occurrence));
    assert Values(config)[occurrence := Some(original)] == Values(config);
  }

  const SINGLE_QUOTED := "base_url='u'"

  lemma KeyPrefix(s: string)
    requires s == "base_url="
    ensures PrefixLength(s, "base_url") == Some(9)
  {
    assert Blanks(s) == 0 && s[0..] == s && "base_url" <= s;
    var equals := s[8..];
    assert equals == "=" && Blanks(equals) == 0 && equals[1..] == "" && EqualsLength(equals) == Some(1);
  }

  lemma SingleQuotedLiteral(literal: string)
    requires literal == "'u'"
    ensures LiteralLength(literal) == Some(3) && Decode(literal) == Some("u") && literal[0] == '\''
  {
    var rest := literal[1..];
    assert rest == "u'" && rest[1..] == "'" && literal[1..2] == "u";
    var quote := "'";
    assert quote[0] != rest[0] && IndexOf(rest[1..], quote) == 0 && IndexOf(rest, quote) == 1;
  }

  lemma SingleQuotedParts(config: string, p: Parts)
    requires config == SINGLE_QUOTED && p == Parts("base_url=", "'u'", "")
    ensures Assignment(config) == Some(p)
  {
    assert p.literal + p.suffix == p.literal && p.prefix + p.literal + p.suffix == config;
    KeyPrefix(p.prefix);
    SingleQuotedLiteral(p.literal);
    PrefixWithin(p.prefix, p.literal, "base_url");
    Assemble(p, "base_url");
  }

  lemma SingleLine(config: string, p: Parts)
    requires '\n' !in config && '\r' !in config && Assignment(config) == Some(p)
    ensures Literals(SplitLines(config), Assignment) == [p.literal] && Values(config) == [Decode(p.literal)]
  {
    assert BodyLength(config) == |config|;
    assert SplitLines(config) == [Line(config, "")] && [Line(config, "")][1..] == [];
    assert Literals([Line(config, "")], Assignment) == [p.literal] + Literals([], Assignment);
  }

  /** A one-line config whose value stands in single quotes never comes back as it was. */
  lemma SingleQuotesAreLost(config: string, p: Parts, value: string, other: string)
    requires '\n' !in config && '\r' !in config && Assignment(config) == Some(p)
    requires Decode(p.literal) == Some(value) && p.literal[0] == '\''
    ensures var replaced := ReplaceSpec(config, 0, value, other, false).value;
            var restored := ReplaceSpec(replaced, 0, other, value, false).value;
            restored != config && Values(restored) == Values(config)
  {
    SingleLine(config, p);
    RestoreIsExactIff(config, 0, value, other);
    assert Quote(value)[0] == '"';
  }

  lemma SingleQuotedLine(config: string)
    requires config == SINGLE_QUOTED
    ensures '\n' !in config && '\r' !in config
  {
  }

  /** For instance this one, whatever it was replaced by in between. */
  lemma SingleQuotedExample(config: string, value: string, other: string)
    requires config == SINGLE_QUOTED && value == "u"
    ensures var replaced := ReplaceSpec(config, 0, value, other, false).value;
            var restored := ReplaceSpec(replaced, 0, other, value, false).value;
            restored != config && Values(restored) == Values(config)
  {
    var p := Parts("base_url=", "'u'", "");
    SingleQuotedLine(config);
    SingleQuotedParts(config, p);
    SingleQuotedLiteral(p.literal);
    SingleQuotesAreLost(config, p, value, other);
  }

  // ---------------------------------------------------------------- the two functions

  method ListBaseUrls(config: string) returns (out: seq<Entry>)
    ensures out == Listed(Values(config))
    ensures forall e | e in out :: e.occurrence < |Values(config)| && Values(config)[e.occurrence] == Some(e.value)
    ensures forall o: nat | o < |Values(config)| && Values(config)[o].Some? :: Entry(o, Values(config)[o].value) in out
  {
    var literals := CollectLiterals(SplitLines(config), Assignment);
    ghost var values := ValuesOf(literals);
    out := [];
    for occurrence := 0 to |literals|
      invariant out == Listed(values[..occurrence])
    {
      assert values[..occurrence + 1][..occurrence] == values[..occurrence];
      var value := Decode(literals[occurrence]);
      if value.Some? {
        out := out + [Entry(occurrence, value.value)];
      }
    }
    assert values[..|literals|] == values;
    ListedHolds(values);
  }

  method ReplaceBaseUrl(config: string, occurrence: nat, expected: string, replacement: string, force: bool)
    returns (r: Replaced)
    ensures r == ReplaceSpec(config, occurrence, expected, replacement, force)
  {
    SplitThenJoin(config);
    var next, literal := ReplaceLiteral(SplitLines(config), Assignment,
                                        Edit(occurrence, Quote(replacement), l => force || Decode(l) == Some(expected)));
    var found := literal.Some?;
    var actual := if found then Decode(literal.value) else None;
    r := Replaced(Join(next), found, actual, found && (force || actual == Some(expected)) && actual != Some(replacement));
  }
}
