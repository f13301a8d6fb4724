/** A text as lines, and the literal on each line that a parser recognises, as a lens.

    Splitting cuts the text after every line terminator and joining puts it together again. The parser
    is a parameter; all that is asked of it is that it cuts a line into prefix, literal and suffix, and
    that it recognises the literals that are put. */
module LineLens {
  import opened JsonString

  datatype Parts = Parts(prefix: string, literal: string, suffix: string)

  type Parser = string -> Option<Parts>

  /** A line and the terminator after it: "\n", "\r", or "" at the end of the text. */
  datatype Line = Line(body: string, ending: string)

  predicate IsTerminator(c: char) {
    c == '\n' || c == '\r'
  }

  function BodyLength(s: string): (n: nat)
    ensures n <= |s| && (n < |s| ==> IsTerminator(s[n]))
    ensures forall i | 0 <= i < n :: !IsTerminator(s[i])
  {
    if s == "" || IsTerminator(s[0]) then 0 else 1 + BodyLength(s[1..])
  }

  function SplitLines(s: string): seq<Line>
    decreases |s|
  {
    var n := BodyLength(s);
    if n == |s| then [Line(s, "")] else [Line(s[..n], s[n..n + 1])] + SplitLines(s[n + 1..])
  }

  function Join(lines: seq<Line>): string {
    if lines == [] then "" else lines[0].body + lines[0].ending + Join(lines[1..])
  }

  // ---------------------------------------------------------------- the i-th literal

  function Literals(lines: seq<Line>, parse: Parser): seq<string> {
    if lines == [] then []
    else
      var p := parse(lines[0].body);
      (if p.Some? then [p.value.literal] else []) + Literals(lines[1..], parse)
  }

  /** The line with its literal replaced. */
  function Rewritten(line: Line, p: Parts, literal: string): Line {
    line.(body := p.prefix + literal + p.suffix)
  }

  /** Puts the literal on the i-th line that has one. */
  function Put(lines: seq<Line>, parse: Parser, i: nat, literal: string): seq<Line> {
    if lines == [] then []
    else
      var p := parse(lines[0].body);
      if p.None? then [lines[0]] + Put(lines[1..], parse, i, literal)
      else if i == 0 then [Rewritten(lines[0], p.value, literal)] + lines[1..]
      else [lines[0]] + Put(lines[1..], parse, i - 1, literal)
  }

  /** The text before and after the i-th literal. */
  function Before(lines: seq<Line>, parse: Parser, i: nat): string {
    if lines == [] then ""
    else
      var p := parse(lines[0].body);
      if p.Some? && i == 0 then p.value.prefix
      else lines[0].body + lines[0].ending + Before(lines[1..], parse, if p.Some? then i - 1 else i)
  }

  function After(lines: seq<Line>, parse: Parser, i: nat): string {
    if lines == [] then ""
    else
      var p := parse(lines[0].body);
      if p.Some? && i == 0 then p.value.suffix + (lines[0].ending + Join(lines[1..]))
      else After(lines[1..], parse, if p.Some? then i - 1 else i)
  }

  /** The text around the literals: what precedes the first, what stands between two, what follows
      the last. */
  function Frame(lines: seq<Line>, parse: Parser): (r: seq<string>)
    ensures |r| == |Literals(lines, parse)| + 1
  {
    if lines == [] then [""]
    else
      var p, rest := parse(lines[0].body), Frame(lines[1..], parse);
      if p.None? then [lines[0].body + lines[0].ending + rest[0]] + rest[1..]
      else [p.value.prefix, p.value.suffix + lines[0].ending + rest[0]] + rest[1..]
  }

  // ---------------------------------------------------------------- splitting

  ghost predicate Clean(body: string) {
    forall c | c in body :: !IsTerminator(c)
  }

  predicate IsEnding(s: string) {
    |s| == 1 && IsTerminator(s[0])
  }

  /** Clean bodies, each but the last with its terminator. */
  ghost predicate WellSplit(lines: seq<Line>) {
    lines != [] && Clean(lines[0].body) &&
    if |lines| == 1 then lines[0].ending == "" else IsEnding(lines[0].ending) && WellSplit(lines[1..])
  }

  lemma JoinCons(line: Line, rest: seq<Line>)
    ensures Join([line] + rest) == line.body + line.ending + Join(rest)
  {
    assert ([line] + rest)[1..] == rest;
  }

  lemma WellSplitCons(line: Line, rest: seq<Line>)
    requires WellSplit(rest) && Clean(line.body) && IsEnding(line.ending)
    ensures WellSplit([line] + rest)
  {
    assert ([line] + rest)[1..] == rest;
  }

  lemma BodyIsClean(s: string)
    ensures Clean(s[..BodyLength(s)])
  {
    forall c | c in s[..BodyLength(s)] ensures !IsTerminator(c) {
      var i :| 0 <= i < BodyLength(s) && s[i] == c;
    }
  }

  lemma OneLine(s: string)
    requires Clean(s)
    ensures Join([Line(s, "")]) == s && WellSplit([Line(s, "")])
  {
    JoinCons(Line(s, ""), []);
    assert [Line(s, "")] + [] == [Line(s, "")] && s + "" + "" == s;
  }

  lemma ConsStep(s: string, n: nat, rest: seq<Line>)
    requires n < |s| && Clean(s[..n]) && IsEnding(s[n..n + 1])
    requires Join(rest) == s[n + 1..] && WellSplit(rest)
    ensures Join([Line(s[..n], s[n..n + 1])] + rest) == s && WellSplit([Line(s[..n], s[n..n + 1])] + rest)
  {
    JoinCons(Line(s[..n], s[n..n + 1]), rest);
    WellSplitCons(Line(s[..n], s[n..n + 1]), rest);
    assert s[..n] + s[n..n + 1] + s[n + 1..] == s;
  }

  lemma {:induction false} SplitThenJoin(s: string)
    ensures Join(SplitLines(s)) == s && WellSplit(SplitLines(s))
    decreases |s|
  {
    var n := BodyLength(s);
    BodyIsClean(s);
    if n == |s| {
      assert s[..n] == s;
      OneLine(s);
    } else {
      SplitThenJoin(s[n + 1..]);
      ConsStep(s, n, SplitLines(s[n + 1..]));
    }
  }

  lemma {:induction false} BodyLengthOf(body: string, rest: string)
    requires Clean(body)
    requires rest == "" || IsTerminator(rest[0])
    ensures BodyLength(body + rest) == |body|
  {
    assert forall i | 0 <= i < |body| :: (body + rest)[i] == body[i];
    assert rest != "" ==> (body + rest)[|body|] == rest[0];
  }

  lemma SplitFirst(line: Line, rest: string)
    requires Clean(line.body) && IsEnding(line.ending)
    ensures SplitLines(line.body + line.ending + rest) == [line] + SplitLines(rest)
  {
    var s := line.body + line.ending + rest;
    assert s == line.body + (line.ending + rest);
    BodyLengthOf(line.body, line.ending + rest);
    var n := |line.body|;
    assert s[..n] == line.body && s[n..n + 1] == line.ending && s[n + 1..] == rest;
  }

  lemma {:induction false} JoinThenSplit(lines: seq<Line>)
    requires WellSplit(lines)
    ensures SplitLines(Join(lines)) == lines
    decreases |lines|
  {
    assert [lines[0]] + lines[1..] == lines;
    JoinCons(lines[0], lines[1..]);
    if |lines| == 1 {
      var body := lines[0].body;
      BodyLengthOf(body, "");
      assert body + "" == body && body + "" + "" == body;
      assert lines == [Line(body, "")];
    } else {
      JoinThenSplit(lines[1..]);
      SplitFirst(lines[0], Join(lines[1..]));
    }
  }

  // ---------------------------------------------------------------- lens laws

  /** The parser only cuts a line into parts. */
  ghost predicate Cuts(parse: Parser) {
    forall body | parse(body).Some? :: body == parse(body).value.prefix + parse(body).value.literal + parse(body).value.suffix
  }

  ghost predicate FitsAt(parse: Parser, body: string, literal: string)
    requires parse(body).Some?
  {
    var p := parse(body).value;
    parse(p.prefix + literal + p.suffix) == Some(Parts(p.prefix, literal, p.suffix))
  }

  /** A literal that parses back wherever it is put. */
  ghost predicate Fits(parse: Parser, literal: string) {
    Clean(literal) && forall body | parse(body).Some? :: FitsAt(parse, body, literal)
  }

  lemma LiteralsCons(line: Line, rest: seq<Line>, parse: Parser)
    ensures parse(line.body).None? ==> Literals([line] + rest, parse) == Literals(rest, parse)
    ensures parse(line.body).Some? ==> Literals([line] + rest, parse) == [parse(line.body).value.literal] + Literals(rest, parse)
  {
    assert ([line] + rest)[1..] == rest;
    assert [] + Literals(rest, parse) == Literals(rest, parse);
  }

  lemma UpdateCons<T>(first: T, rest: seq<T>, i: nat, x: T)
    requires 0 < i <= |rest|
    ensures ([first] + rest)[i := x] == [first] + rest[i - 1 := x]
    ensures ([first] + rest)[0 := x] == [x] + rest
  {
  }

  lemma PutHere(line: Line, rest: seq<Line>, parse: Parser, literal: string)
    requires Fits(parse, literal) && parse(line.body).Some?
    ensures Literals(Put([line] + rest, parse, 0, literal), parse) == [literal] + Literals(rest, parse)
  {
    assert FitsAt(parse, line.body, literal);
    PutCons(line, rest, parse, 0, literal);
    LiteralsCons(Rewritten(line, parse(line.body).value, literal), rest, parse);
  }

  /** After a put the literals are the old ones with that one changed: their number and order stay. */
  lemma {:induction false} PutChangesOne(lines: seq<Line>, parse: Parser, i: nat, literal: string)
    requires Fits(parse, literal) && i < |Literals(lines, parse)|
    ensures Literals(Put(lines, parse, i, literal), parse) == Literals(lines, parse)[i := literal]
    decreases |lines|
  {
    var line, rest := lines[0], lines[1..];
    var p := parse(line.body);
    assert lines == [line] + rest;
    LiteralsCons(line, rest, parse);
    if p.Some? && i == 0 {
      PutHere(line, rest, parse, literal);
    } else {
      var k := if p.Some? then i - 1 else i;
      PutCons(line, rest, parse, i, literal);
      PutChangesOne(rest, parse, k, literal);
      LiteralsCons(line, Put(rest, parse, k, literal), parse);
      if p.Some? {
        UpdateCons(p.value.literal, Literals(rest, parse), i, literal);
      }
    }
  }

  lemma FrameCons(line: Line, rest: seq<Line>, parse: Parser)
    ensures var p, f := parse(line.body), Frame(rest, parse);
            Frame([line] + rest, parse) ==
              if p.None? then [line.body + line.ending + f[0]] + f[1..]
              else [p.value.prefix, p.value.suffix + line.ending + f[0]] + f[1..]
  {
    assert ([line] + rest)[1..] == rest;
  }

  /** A put leaves the frame alone. */
  lemma {:induction false} PutKeepsFrame(lines: seq<Line>, parse: Parser, i: nat, literal: string)
    requires Fits(parse, literal)
    ensures Frame(Put(lines, parse, i, literal), parse) == Frame(lines, parse)
    decreases |lines|
  {
    if lines != [] {
      var line, rest := lines[0], lines[1..];
      var p := parse(line.body);
      assert lines == [line] + rest;
      FrameCons(line, rest, parse);
      if p.Some? && i == 0 {
        assert FitsAt(parse, line.body, literal);
        FrameCons(Rewritten(line, p.value, literal), rest, parse);
      } else {
        var k := if p.Some? then i - 1 else i;
        PutKeepsFrame(rest, parse, k, literal);
        FrameCons(line, Put(rest, parse, k, literal), parse);
      }
    }
  }

  lemma PutCons(line: Line, rest: seq<Line>, parse: Parser, i: nat, literal: string)
    ensures Put([line] + rest, parse, i, literal) ==
            if parse(line.body).None? then [line] + Put(rest, parse, i, literal)
            else if i == 0 then [Rewritten(line, parse(line.body).value, literal)] + rest
            else [line] + Put(rest, parse, i - 1, literal)
  {
    assert ([line] + rest)[1..] == rest;
  }

  lemma PutPutHere(line: Line, rest: seq<Line>, parse: Parser, a: string, b: string)
    requires Fits(parse, a) && parse(line.body).Some?
    ensures Put(Put([line] + rest, parse, 0, a), parse, 0, b) == Put([line] + rest, parse, 0, b)
  {
    assert FitsAt(parse, line.body, a);
    PutCons(line, rest, parse, 0, a);
    PutCons(line, rest, parse, 0, b);
    PutCons(Rewritten(line, parse(line.body).value, a), rest, parse, 0, b);
  }

  /** The later of two puts at one place wins. */
  lemma {:induction false} PutPut(lines: seq<Line>, parse: Parser, i: nat, a: string, b: string)
    requires Fits(parse, a)
    ensures Put(Put(lines, parse, i, a), parse, i, b) == Put(lines, parse, i, b)
    decreases |lines|
  {
    if lines != [] {
      var line, rest := lines[0], lines[1..];
      assert lines == [line] + rest;
      if parse(line.body).Some? && i == 0 {
        PutPutHere(line, rest, parse, a, b);
      } else {
        var k := if parse(line.body).Some? then i - 1 else i;
        PutCons(line, rest, parse, i, a);
        PutCons(line, rest, parse, i, b);
        PutPut(rest, parse, k, a, b);
        PutCons(line, Put(rest, parse, k, a), parse, i, b);
      }
    }
  }

  /** Putting the literal that is there changes nothing. */
  lemma {:induction false} PutSame(lines: seq<Line>, parse: Parser, i: nat)
    requires Cuts(parse) && i < |Literals(lines, parse)|
    ensures Put(lines, parse, i, Literals(lines, parse)[i]) == lines
    decreases |lines|
  {
    var p := parse(lines[0].body);
    assert lines == [lines[0]] + lines[1..];
    LiteralsCons(lines[0], lines[1..], parse);
    if p.None? {
      PutSame(lines[1..], parse, i);
    } else if i > 0 {
      PutSame(lines[1..], parse, i - 1);
    }
  }

  lemma Glue(a: string, b: string, c: string, d: string)
    ensures a + b + (c + d) == a + b + c + d == a + (b + c + d)
  {
  }

  /** Only the characters of that literal change. */
  lemma {:induction false} PutIsLocal(lines: seq<Line>, parse: Parser, i: nat, literal: string)
    requires i < |Literals(lines, parse)|
    ensures Join(Put(lines, parse, i, literal)) == Before(lines, parse, i) + literal + After(lines, parse, i)
    decreases |lines|
  {
    var line, rest := lines[0], lines[1..];
    var p := parse(line.body);
    assert lines == [line] + rest;
    LiteralsCons(line, rest, parse);
    if p.Some? && i == 0 {
      JoinCons(Rewritten(line, p.value, literal), rest);
      var tail := line.ending + Join(rest);
      assert p.value.prefix + literal + p.value.suffix + line.ending + Join(rest) == p.value.prefix + literal + p.value.suffix + tail;
      Glue(p.value.prefix, literal, p.value.suffix, tail);
    } else {
      var k := if p.Some? then i - 1 else i;
      PutIsLocal(rest, parse, k, literal);
      JoinCons(line, Put(rest, parse, k, literal));
      var start := line.body + line.ending;
      var b, a := Before(rest, parse, k), After(rest, parse, k);
      assert start + (b + literal + a) == start + b + literal + a;
    }
  }

  lemma CleanParts(p: Parts, literal: string)
    requires Clean(p.prefix + p.literal + p.suffix) && Clean(literal)
    ensures Clean(p.prefix + literal + p.suffix)
  {
    forall c | c in p.prefix + literal + p.suffix ensures !IsTerminator(c) {
      assert c in p.prefix || c in p.suffix ==> c in p.prefix + p.literal + p.suffix;
    }
  }

  lemma {:induction false} PutKeepsSplit(lines: seq<Line>, parse: Parser, i: nat, literal: string)
    requires WellSplit(lines) && Clean(literal) && Cuts(parse)
    ensures WellSplit(Put(lines, parse, i, literal)) && |Put(lines, parse, i, literal)| == |lines|
    decreases |lines|
  {
    var p := parse(lines[0].body);
    if p.Some? && i == 0 {
      CleanParts(p.value, literal);
      assert Put(lines, parse, i, literal)[1..] == lines[1..];
    } else {
      var k := if p.Some? then i - 1 else i;
      assert Put(lines, parse, i, literal)[1..] == Put(lines[1..], parse, k, literal);
      if |lines| > 1 {
        PutKeepsSplit(lines[1..], parse, k, literal);
      }
    }
  }

  // ---------------------------------------------------------------- loops over the lines

  lemma {:induction false} LiteralsAppend(lines: seq<Line>, line: Line, parse: Parser)
    ensures Literals(lines + [line], parse) ==
            Literals(lines, parse) + if parse(line.body).Some? then [parse(line.body).value.literal] else []
    decreases |lines|
  {
    if lines == [] {
      assert [] + [line] == [line] && [line][1..] == [];
    } else {
      var first, rest := lines[0], lines[1..];
      assert lines == [first] + rest && lines + [line] == [first] + (rest + [line]);
      LiteralsCons(first, rest, parse);
      LiteralsCons(first, rest + [line], parse);
      LiteralsAppend(rest, line, parse);
    }
  }

  /** Visits every literal in order. */
  method CollectLiterals(lines: seq<Line>, parse: Parser) returns (out: seq<string>)
    ensures out == Literals(lines, parse)
  {
    out := [];
    for n := 0 to |lines|
      invariant out == Literals(lines[..n], parse)
    {
      LiteralsAppend(lines[..n], lines[n], parse);
      assert lines[..n + 1] == lines[..n] + [lines[n]];
      var p := parse(lines[n].body);
      if p.Some? {
        out := out + [p.value.literal];
      }
    }
    assert lines[..|lines|] == lines;
  }

  /** What the loop below still has to produce. */
  function Remaining(lines: seq<Line>, parse: Parser, i: int, literal: string, admit: string -> bool): seq<Line> {
    if lines == [] then []
    else
      var p := parse(lines[0].body);
      if p.None? then [lines[0]] + Remaining(lines[1..], parse, i, literal, admit)
      else if i == 0 && admit(p.value.literal) then [Rewritten(lines[0], p.value, literal)] + lines[1..]
      else [lines[0]] + Remaining(lines[1..], parse, i - 1, literal, admit)
  }

  lemma {:induction false} RemainingNone(lines: seq<Line>, parse: Parser, i: int, literal: string, admit: string -> bool)
    requires i < 0
    ensures Remaining(lines, parse, i, literal, admit) == lines
    decreases |lines|
  {
    if lines != [] {
      RemainingNone(lines[1..], parse, if parse(lines[0].body).None? then i else i - 1, literal, admit);
    }
  }

  /** The step of the induction below, for a line that stays as it is. */
  lemma {:induction false} RemainingPast(line: Line, rest: seq<Line>, parse: Parser, i: nat, k: nat, literal: string, admit: string -> bool)
    requires if parse(line.body).Some? then i == k + 1 else i == k
    requires var ls := Literals(rest, parse);
             Remaining(rest, parse, k, literal, admit) == if k < |ls| && admit(ls[k]) then Put(rest, parse, k, literal) else rest
    ensures var ls := Literals([line] + rest, parse);
            Remaining([line] + rest, parse, i, literal, admit) ==
              if i < |ls| && admit(ls[i]) then Put([line] + rest, parse, i, literal) else [line] + rest
  {
    assert ([line] + rest)[1..] == rest;
    LiteralsCons(line, rest, parse);
    PutCons(line, rest, parse, i, literal);
    assert i < |Literals([line] + rest, parse)| <==> k < |Literals(rest, parse)|;
  }

  lemma {:induction false} RemainingHere(line: Line, rest: seq<Line>, parse: Parser, literal: string, admit: string -> bool)
    requires parse(line.body).Some?
    ensures var ls := Literals([line] + rest, parse);
            Remaining([line] + rest, parse, 0, literal, admit) ==
              if 0 < |ls| && admit(ls[0]) then Put([line] + rest, parse, 0, literal) else [line] + rest
  {
    assert ([line] + rest)[1..] == rest;
    LiteralsCons(line, rest, parse);
    PutCons(line, rest, parse, 0, literal);
    RemainingNone(rest, parse, -1, literal, admit);
  }

  lemma {:induction false} RemainingIsPut(lines: seq<Line>, parse: Parser, i: nat, literal: string, admit: string -> bool)
    ensures var ls := Literals(lines, parse);
            Remaining(lines, parse, i, literal, admit) == if i < |ls| && admit(ls[i]) then Put(lines, parse, i, literal) else lines
    decreases |lines|
  {
    if lines != [] {
      var line, rest := lines[0], lines[1..];
      assert lines == [line] + rest;
      if parse(line.body).Some? && i == 0 {
        RemainingHere(line, rest, parse, literal, admit);
      } else {
        var k := if parse(line.body).Some? then i - 1 else i;
        RemainingIsPut(rest, parse, k, literal, admit);
        RemainingPast(line, rest, parse, i, k, literal, admit);
      }
    }
  }

  lemma Associate<T>(a: seq<T>, b: seq<T>, c: seq<T>)
    ensures a + (b + c) == a + b + c
  {
  }

  /** The variables of the replacing loop: the literals passed, the one seen at the occurrence, and
      the lines produced. */
  datatype Scan = Scan(index: nat, seen: Option<string>, next: seq<Line>)

  /** A replacement: at which occurrence, with which literal, and whether what is there admits it. */
  datatype Edit = Edit(occurrence: nat, literal: string, admit: string -> bool)

  function ScanLine(s: Scan, line: Line, parse: Parser, e: Edit): Scan {
    var p := parse(line.body);
    if p.None? then s.(next := s.next + [line])
    else if s.index == e.occurrence && e.admit(p.value.literal) then
      Scan(s.index + 1, Some(p.value.literal), s.next + [Rewritten(line, p.value, e.literal)])
    else Scan(s.index + 1, if s.index == e.occurrence then Some(p.value.literal) else s.seen, s.next + [line])
  }

  function ScanLines(s: Scan, lines: seq<Line>, parse: Parser, e: Edit): Scan
    decreases |lines|
  {
    if lines == [] then s else ScanLines(ScanLine(s, lines[0], parse, e), lines[1..], parse, e)
  }

  /** The line the loop appends. */
  function Emitted(s: Scan, line: Line, parse: Parser, e: Edit): Line {
    var p := parse(line.body);
    if p.Some? && s.index == e.occurrence && e.admit(p.value.literal) then Rewritten(line, p.value, e.literal) else line
  }

  lemma ScanAppends(s: Scan, line: Line, parse: Parser, e: Edit)
    ensures ScanLine(s, line, parse, e).next == s.next + [Emitted(s, line, parse, e)]
  {
  }

  lemma {:induction false} ScanOne(s: Scan, line: Line, rest: seq<Line>, parse: Parser, e: Edit)
    ensures Remaining([line] + rest, parse, e.occurrence - s.index, e.literal, e.admit)
            == [Emitted(s, line, parse, e)]
               + Remaining(rest, parse, e.occurrence - ScanLine(s, line, parse, e).index, e.literal, e.admit)
  {
    assert ([line] + rest)[1..] == rest;
    if s.index == e.occurrence {
      RemainingNone(rest, parse, -1, e.literal, e.admit);
    }
  }

  lemma {:induction false} ScanNext(s: Scan, lines: seq<Line>, parse: Parser, e: Edit)
    ensures ScanLines(s, lines, parse, e).next == s.next + Remaining(lines, parse, e.occurrence - s.index, e.literal, e.admit)
    decreases |lines|
  {
    if lines == [] {
      assert s.next + [] == s.next;
    } else {
      var line, rest := lines[0], lines[1..];
      var s1 := ScanLine(s, line, parse, e);
      assert lines == [line] + rest;
      ScanOne(s, line, rest, parse, e);
      ScanAppends(s, line, parse, e);
      ScanNext(s1, rest, parse, e);
      Associate(s.next, [Emitted(s, line, parse, e)], Remaining(rest, parse, e.occurrence - s1.index, e.literal, e.admit));
    }
  }

  lemma {:induction false} ScanSeen(s: Scan, lines: seq<Line>, parse: Parser, e: Edit)
    ensures var ls, i := Literals(lines, parse), e.occurrence - s.index;
            ScanLines(s, lines, parse, e).seen == if 0 <= i < |ls| then Some(ls[i]) else s.seen
    decreases |lines|
  {
    if lines != [] {
      assert lines == [lines[0]] + lines[1..];
      LiteralsCons(lines[0], lines[1..], parse);
      ScanSeen(ScanLine(s, lines[0], parse, e), lines[1..], parse, e);
    }
  }

  /** Visits every literal in order and rewrites the one at the occurrence if it is admitted. */
  method ReplaceLiteral(lines: seq<Line>, parse: Parser, e: Edit) returns (next: seq<Line>, seen: Option<string>)
    ensures var ls := Literals(lines, parse);
            && seen == (if e.occurrence < |ls| then Some(ls[e.occurrence]) else None)
            && next == if seen.Some? && e.admit(seen.value) then Put(lines, parse, e.occurrence, e.literal) else lines
  {
    ghost var start := Scan(0, None, []);
    var index := 0;
    next, seen := [], None;
    for n := 0 to |lines|
      invariant index >= 0 && ScanLines(Scan(index, seen, next), lines[n..], parse, e) == ScanLines(start, lines, parse, e)
    {
      var line := lines[n];
      assert lines[n..][0] == line && lines[n..][1..] == lines[n + 1..];
      var p := parse(line.body);
      if p.Some? {
        if index == e.occurrence {
          seen := Some(p.value.literal);
          if e.admit(p.value.literal) {
            line := Rewritten(line, p.value, e.literal);
          }
        }
        index := index + 1;
      }
      next := next + [line];
    }
    ScanNext(start, lines, parse, e);
    ScanSeen(start, lines, parse, e);
    RemainingIsPut(lines, parse, e.occurrence, e.literal, e.admit);
    assert [] + Remaining(lines, parse, e.occurrence, e.literal, e.admit) == Remaining(lines, parse, e.occurrence, e.literal, e.admit);
  }
}
