/** How the retry proxy reads the events of a stream, and what follows for a turn
    (lib/proxy/codex.js 775-838).

    The other modules about the proxy hold for any reading of lines and event types. Here the reading
    is the proxy's own, and the stream is a sequence of events as providers send them. */
module CompatEvents {
  import opened SseLines
  import opened Text
  import opened ResponsesCompat
  import opened CompatTurn

  // ---------------------------------------------------------------- events as text

  /** An event with its name, if it has an `event:` line, and the texts of its `data:` lines. */
  datatype Frame = Frame(name: Option<string>, data: seq<string>)

  predicate OneLine(s: string) {
    forall i | 0 <= i < |s| :: s[i] != '\n'
  }

  /** A name or some data; a blank line after neither ends no event. */
  predicate IsFrame(f: Frame) {
    && (forall i | 0 <= i < |f.data| :: OneLine(f.data[i])) && (f.name.Some? ==> OneLine(f.name.value))
    && (f.data != [] || NameOf(f) != "")
  }

  function NameOf(f: Frame): string {
    if f.name.Some? then Trim(StripCr(f.name.value)) else ""
  }

  function DataLines(data: seq<string>): string {
    if data == [] then "" else "data:" + data[0] + "\n" + DataLines(data[1..])
  }

  function DataText(f: Frame): string {
    DataLines(f.data) + "\n"
  }

  function FrameText(f: Frame): string {
    if f.name.Some? then "event:" + f.name.value + "\n" + DataText(f) else DataText(f)
  }

  function FramesText(fs: seq<Frame>): string {
    if fs == [] then "" else FrameText(fs[0]) + FramesText(fs[1..])
  }

  // ---------------------------------------------------------------- what they mean

  /** The data lines without leading white space, joined by newlines. */
  function Joined(data: seq<string>): string
    requires data != []
    decreases |data|
  {
    var last := TrimStart(StripCr(data[|data| - 1]));
    if |data| == 1 then last else Joined(data[..|data| - 1]) + "\n" + last
  }

  /** The JSON object in the data; there is none in an empty text, in `[DONE]` and in what does not parse. */
  function ObjectOf(f: Frame, parse: string -> Option<Payload>): Option<Payload> {
    if f.data == [] || Joined(f.data) == "" || Joined(f.data) == "[DONE]" then None else parse(Joined(f.data))
  }

  /** A name wins over the type in the payload. */
  function TypeOf(f: Frame, parse: string -> Option<Payload>): string {
    if NameOf(f) != "" then NameOf(f)
    else if ObjectOf(f, parse).Some? then ObjectOf(f, parse).value.kind else ""
  }

  function FailureOf(f: Frame, parse: string -> Option<Payload>): string {
    if ObjectOf(f, parse).Some? then ObjectOf(f, parse).value.failure else ""
  }

  predicate IsOutput(kind: string) {
    "response.output_" <= kind || "response.content_part" <= kind || "response.function_call" <= kind || "response.reasoning" <= kind
  }

  predicate Completes(kind: string) {
    kind == "response.completed"
  }

  predicate Fails(kind: string) {
    kind == "response.failed" || kind == "error"
  }

  predicate Ends(f: Frame, parse: string -> Option<Payload>) {
    Completes(TypeOf(f, parse)) || Fails(TypeOf(f, parse))
  }

  predicate AnyOutput(fs: seq<Frame>, parse: string -> Option<Payload>) {
    exists i | 0 <= i < |fs| :: IsOutput(TypeOf(fs[i], parse))
  }

  // ---------------------------------------------------------------- the proxy's reading

  lemma {:induction false} TrimEndKeepsFirst(s: string)
    requires s != "" && !IsSpace(s[0])
    ensures TrimEnd(s) != ""
    decreases |s|
  {
    if |s| > 1 && IsSpace(s[|s| - 1]) {
      TrimEndKeepsFirst(s[..|s| - 1]);
    }
  }

  lemma ReadsLines(s: string)
    ensures ReadLine("event:" + s) == EventName(Trim(StripCr(s))) && ReadLine("data:" + s) == DataPart(TrimStart(StripCr(s)))
    ensures ReadLine("") == Blank
  {
    ReadsPrefixed("event:", s);
    ReadsPrefixed("data:", s);
    assert "data:" + StripCr(s) != "" && ("data:" + StripCr(s))[0] == 'd';
  }

  lemma ReadsPrefixed(prefix: string, s: string)
    requires |prefix| > 0 && prefix[|prefix| - 1] == ':' && !IsSpace(prefix[0])
    ensures StripCr(prefix + s) == prefix + StripCr(s) && (prefix + StripCr(s))[|prefix|..] == StripCr(s)
    ensures Trim(prefix + StripCr(s)) != "" && prefix <= prefix + StripCr(s)
  {
    var line := prefix + s;
    if s != "" {
      assert line[|line| - 1] == s[|s| - 1];
      assert line[..|line| - 1] == prefix + s[..|s| - 1];
    } else {
      assert line == prefix;
    }
    TrimEndKeepsFirst(prefix + StripCr(s));
  }

  /** A complete line in front of a text. */
  lemma CutLine(event: string, data: seq<string>, line: string, rest: string, h: Host)
    requires OneLine(line)
    ensures CutAt(event, data, line + "\n" + rest, h) ==
            if h.read(line).Blank? then
              match Ending(event, data, h)
              case None => Prepend(line, false, CutAt("", [], rest, h))
              case Some(e) =>
                if TerminalOf(e).Some? then Cut(line + "\n", TerminalOf(e), e.kind.Output?)
                else Prepend(line, e.kind.Output?, CutAt("", [], rest, h))
            else Prepend(line, false, CutAt(NextEvent(event, h.read(line)), NextData(data, h.read(line)), rest, h))
    ensures Lines(line + "\n" + rest) == [line] + Lines(rest)
  {
    LinesCons(line, rest);
    SplitFirst(line, rest);
  }

  lemma SplitFirst(line: string, rest: string)
    requires OneLine(line)
    ensures var text := line + "\n" + rest;
            NewlineAt(text) == |line| < |text| && text[..|line|] == line && text[|line| + 1..] == rest
  {
    NewlineOfConcat(line, "\n" + rest);
    assert line + "\n" + rest == line + ("\n" + rest);
  }

  lemma PrefixedIsOneLine(prefix: string, s: string)
    requires OneLine(prefix) && OneLine(s)
    ensures OneLine(prefix + s)
  {
  }

  /** How the event is classified. */
  function KindOf(kind: string): Kind {
    if IsOutput(kind) then Output else if Completes(kind) then Completion else if Fails(kind) then Failing else Other
  }

  lemma ClassifyIsKind(kind: string)
    ensures Classify(kind) == KindOf(kind) && (Completes(kind) || Fails(kind) ==> !IsOutput(kind))
  {
    assert "response.completed"[10] == 'o' && "response.completed"[11] == 'm' && "response.completed"[9] == 'c';
    assert "response.output_"[9] == 'o' && "response.content_part"[11] == 'n' && "response.function_call"[9] == 'f' && "response.reasoning"[9] == 'r';
    assert "response.failed"[9] == 'f' && "response.failed"[10] == 'a' && "response.function_call"[10] == 'u';
    assert |"error"| == 5;
  }

  function EndOf(f: Frame, parse: string -> Option<Payload>): Terminal {
    if Completes(TypeOf(f, parse)) then Complete else Failure(FailureOf(f, parse))
  }

  /** The data lines as the proxy keeps them. */
  function Stripped(data: seq<string>): seq<string> {
    if data == [] then [] else [TrimStart(StripCr(data[0]))] + Stripped(data[1..])
  }

  lemma {:induction false} JoinSnoc(data: seq<string>, last: string)
    requires data != []
    ensures JoinLines(data + [last]) == JoinLines(data) + "\n" + last
    decreases |data|
  {
    assert (data + [last])[1..] == data[1..] + [last];
    if |data| == 1 {
      assert JoinLines(data[1..] + [last]) == last;
    } else {
      JoinSnoc(data[1..], last);
    }
  }

  lemma {:induction false} StrippedSnoc(data: seq<string>, last: string)
    ensures Stripped(data + [last]) == Stripped(data) + [TrimStart(StripCr(last))]
    decreases |data|
  {
    if data == [] {
      assert [last][1..] == [];
    } else {
      assert (data + [last])[1..] == data[1..] + [last];
      StrippedSnoc(data[1..], last);
    }
  }

  lemma {:induction false} JoinIsJoined(data: seq<string>)
    requires data != []
    ensures JoinLines(Stripped(data)) == Joined(data) && Stripped(data) != []
    decreases |data|
  {
    var front, last := data[..|data| - 1], data[|data| - 1];
    assert data == front + [last];
    StrippedSnoc(front, last);
    if front != [] {
      JoinIsJoined(front);
      JoinSnoc(Stripped(front), TrimStart(StripCr(last)));
    }
  }

  lemma EventIs(f: Frame, event: string, parse: string -> Option<Payload>, busy: string -> bool)
    requires IsFrame(f) && event == NameOf(f)
    ensures var e := Ending(event, Stripped(f.data), ProxyHost(parse, busy));
            && e == Some(Finished(KindOf(TypeOf(f, parse)), FailureOf(f, parse)))
            && TerminalOf(e.value) == (if Ends(f, parse) then Some(EndOf(f, parse)) else None)
            && e.value.kind.Output? == IsOutput(TypeOf(f, parse))
  {
    ClassifyIsKind(TypeOf(f, parse));
    if f.data != [] {
      JoinIsJoined(f.data);
    }
  }

  /** The cut of an event's text in front of a text whose cut is `c`. */
  function Behind(text: string, f: Frame, c: Cut, parse: string -> Option<Payload>): Cut {
    if Ends(f, parse) then Cut(text, Some(EndOf(f, parse)), false)
    else Cut(text + c.prefix, c.terminal, IsOutput(TypeOf(f, parse)) || c.output)
  }

  function Before(text: string, c: Cut): Cut {
    Cut(text + c.prefix, c.terminal, c.output)
  }

  lemma BeforeBehind(front: string, text: string, f: Frame, c: Cut, parse: string -> Option<Payload>)
    ensures Before(front, Behind(text, f, c, parse)) == Behind(front + text, f, c, parse)
  {
    assert front + (text + c.prefix) == front + text + c.prefix;
  }

  /** The blank line that ends an event. */
  lemma BlankCut(f: Frame, event: string, rest: string, parse: string -> Option<Payload>, busy: string -> bool)
    requires IsFrame(f) && event == NameOf(f)
    ensures var h := ProxyHost(parse, busy);
            CutAt(event, Stripped(f.data), "" + "\n" + rest, h) == Behind("\n", f, CutAt("", [], rest, h), parse)
    ensures var h := ProxyHost(parse, busy);
            EndsWithin(event, Stripped(f.data), [""] + Lines(rest), h) <==> Ends(f, parse) || EndsWithin("", [], Lines(rest), h)
  {
    var h := ProxyHost(parse, busy);
    ReadsLines("");
    EventIs(f, event, parse, busy);
    ClassifyIsKind(TypeOf(f, parse));
    CutLine(event, Stripped(f.data), "", rest, h);
    assert ([""] + Lines(rest))[1..] == Lines(rest);
    assert "" + "\n" == "\n" && "" + "\n" + CutAt("", [], rest, h).prefix == "\n" + CutAt("", [], rest, h).prefix;
  }

  lemma EndsWithinLine(event: string, data: seq<string>, line: string, lines: seq<string>, h: Host)
    requires !h.read(line).Blank?
    ensures EndsWithin(event, data, [line] + lines, h) <==>
            EndsWithin(NextEvent(event, h.read(line)), NextData(data, h.read(line)), lines, h)
  {
    assert ([line] + lines)[1..] == lines;
  }

  /** A line that is not blank, in front of a text. */
  lemma OpenLineCut(event: string, data: seq<string>, line: string, text: string, rest: string, h: Host)
    requires OneLine(line) && !h.read(line).Blank? && text == line + "\n" + rest
    ensures CutAt(event, data, text, h) ==
            Prepend(line, false, CutAt(NextEvent(event, h.read(line)), NextData(data, h.read(line)), rest, h))
    ensures EndsWithin(event, data, Lines(text), h) <==>
            EndsWithin(NextEvent(event, h.read(line)), NextData(data, h.read(line)), Lines(rest), h)
  {
    CutLine(event, data, line, rest, h);
    EndsWithinLine(event, data, line, Lines(rest), h);
  }

  lemma NameLineReads(line: string, name: string, parse: string -> Option<Payload>, busy: string -> bool)
    requires OneLine(name) && line == "event:" + name
    ensures ProxyHost(parse, busy).read(line) == EventName(Trim(StripCr(name))) && OneLine(line)
  {
    ReadsLines(name);
    PrefixedIsOneLine("event:", name);
  }

  predicate ReadsData(data: seq<string>, h: Host) {
    forall i | 0 <= i < |data| :: OneLine(data[i]) && h.read("data:" + data[i]) == DataPart(TrimStart(StripCr(data[i])))
  }

  lemma DataLineCut(event: string, kept: seq<string>, datum: string, text: string, rest: string, h: Host)
    requires ReadsData([datum], h) && text == "data:" + datum + "\n" + rest
    ensures CutAt(event, kept, text, h)
         == Prepend("data:" + datum, false, CutAt(event, kept + [TrimStart(StripCr(datum))], rest, h))
    ensures EndsWithin(event, kept, Lines(text), h) <==> EndsWithin(event, kept + [TrimStart(StripCr(datum))], Lines(rest), h)
  {
    assert [datum][0] == datum;
    PrefixedIsOneLine("data:", datum);
    OpenLineCut(event, kept, "data:" + datum, text, rest, h);
  }

  lemma PrependBefore(line: string, text: string, c: Cut)
    ensures Prepend(line, false, Before(text, c)) == Before(line + "\n" + text, c)
  {
    assert line + "\n" + (text + c.prefix) == line + "\n" + text + c.prefix;
  }

  /** Data lines in front of a text. */
  lemma {:induction false} DataLinesCut(event: string, kept: seq<string>, data: seq<string>, text: string, rest: string, h: Host)
    requires ReadsData(data, h) && text == DataLines(data) + rest
    ensures CutAt(event, kept, text, h) == Before(DataLines(data), CutAt(event, kept + Stripped(data), rest, h))
    ensures EndsWithin(event, kept, Lines(text), h) <==> EndsWithin(event, kept + Stripped(data), Lines(rest), h)
    decreases |data|
  {
    if data == [] {
      NoDataCut(event, kept, text, rest, h);
    } else {
      var part, tail := [TrimStart(StripCr(data[0]))], DataLines(data[1..]) + rest;
      SplitLines(data, rest, tail);
      DataLineCut(event, kept, data[0], text, tail, h);
      DataLinesCut(event, kept + part, data[1..], tail, rest, h);
      Reassociate(kept, part, Stripped(data[1..]));
      PrependBefore("data:" + data[0], DataLines(data[1..]), CutAt(event, kept + Stripped(data), rest, h));
    }
  }

  lemma NoDataCut(event: string, kept: seq<string>, text: string, rest: string, h: Host)
    requires text == "" + rest
    ensures CutAt(event, kept, text, h) == Before("", CutAt(event, kept + [], rest, h)) && kept + [] == kept && text == rest
  {
    assert kept + [] == kept && text == rest;
    assert "" + CutAt(event, kept, rest, h).prefix == CutAt(event, kept, rest, h).prefix;
  }

  lemma Reassociate(a: seq<string>, b: seq<string>, c: seq<string>)
    ensures a + b + c == a + (b + c)
  {
  }

  lemma SplitLines(data: seq<string>, rest: string, tail: string)
    requires data != [] && tail == DataLines(data[1..]) + rest
    ensures DataLines(data) + rest == "data:" + data[0] + "\n" + tail
  {
  }

  lemma ReadsAllData(data: seq<string>, parse: string -> Option<Payload>, busy: string -> bool)
    requires forall i | 0 <= i < |data| :: OneLine(data[i])
    ensures ReadsData(data, ProxyHost(parse, busy))
  {
    forall i | 0 <= i < |data| ensures ReadLine("data:" + data[i]) == DataPart(TrimStart(StripCr(data[i]))) {
      ReadsLines(data[i]);
    }
  }

  /** A later `event:` line replaces the name read before it. */
  lemma LaterNameWins(event: string, kept: seq<string>, name: string, text: string, rest: string,
                      parse: string -> Option<Payload>, busy: string -> bool)
    requires OneLine(name) && text == "event:" + name + "\n" + rest
    ensures var h := ProxyHost(parse, busy);
            CutAt(event, kept, text, h) == Prepend("event:" + name, false, CutAt(Trim(StripCr(name)), kept, rest, h))
  {
    var line := "event:" + name;
    NameLineReads(line, name, parse, busy);
    OpenLineCut(event, kept, line, text, rest, ProxyHost(parse, busy));
  }

  /** The data lines and the blank line of an event whose name has been read. */
  lemma DataCut(f: Frame, event: string, text: string, rest: string, parse: string -> Option<Payload>, busy: string -> bool)
    requires IsFrame(f) && event == NameOf(f) && text == DataText(f) + rest
    ensures var h := ProxyHost(parse, busy); CutAt(event, [], text, h) == Behind(DataText(f), f, CutAt("", [], rest, h), parse)
    ensures var h := ProxyHost(parse, busy);
            EndsWithin(event, [], Lines(text), h) <==> Ends(f, parse) || EndsWithin("", [], Lines(rest), h)
  {
    var tail := "" + "\n" + rest;
    assert text == DataLines(f.data) + tail && [] + Stripped(f.data) == Stripped(f.data);
    ReadsAllData(f.data, parse, busy);
    DataLinesCut(event, [], f.data, text, tail, ProxyHost(parse, busy));
    BlankCut(f, event, rest, parse, busy);
    LinesCons("", rest);
    BeforeBehind(DataLines(f.data), "\n", f, CutAt("", [], rest, ProxyHost(parse, busy)), parse);
  }

  lemma SplitName(f: Frame, rest: string, line: string, tail: string)
    requires f.name.Some? && line == "event:" + f.name.value && tail == DataText(f) + rest
    ensures FrameText(f) + rest == line + "\n" + tail && line + "\n" + DataText(f) == FrameText(f)
  {
  }

  /** One whole event in front of a text. */
  lemma FrameCut(f: Frame, text: string, rest: string, parse: string -> Option<Payload>, busy: string -> bool)
    requires IsFrame(f) && text == FrameText(f) + rest
    ensures var h := ProxyHost(parse, busy); CutAt("", [], text, h) == Behind(FrameText(f), f, CutAt("", [], rest, h), parse)
    ensures var h := ProxyHost(parse, busy);
            EndsWithin("", [], Lines(text), h) <==> Ends(f, parse) || EndsWithin("", [], Lines(rest), h)
  {
    if f.name.Some? {
      var line, tail := "event:" + f.name.value, DataText(f) + rest;
      var h := ProxyHost(parse, busy);
      SplitName(f, rest, line, tail);
      NameLineReads(line, f.name.value, parse, busy);
      DataCut(f, NameOf(f), tail, rest, parse, busy);
      OpenLineCut("", [], line, text, tail, h);
      BeforeBehind(line + "\n", DataText(f), f, CutAt("", [], rest, h), parse);
    } else {
      DataCut(f, "", text, rest, parse, busy);
    }
  }

  /** Events that do not end the stream, in front of a text. */
  lemma {:induction false} FramesCut(fs: seq<Frame>, text: string, rest: string, parse: string -> Option<Payload>, busy: string -> bool)
    requires forall i | 0 <= i < |fs| :: IsFrame(fs[i]) && !Ends(fs[i], parse)
    requires text == FramesText(fs) + rest
    ensures var h := ProxyHost(parse, busy); var c := CutAt("", [], rest, h);
            CutAt("", [], text, h) == Cut(FramesText(fs) + c.prefix, c.terminal, AnyOutput(fs, parse) || c.output)
    ensures var h := ProxyHost(parse, busy);
            EndsWithin("", [], Lines(text), h) <==> EndsWithin("", [], Lines(rest), h)
    decreases |fs|
  {
    var c := CutAt("", [], rest, ProxyHost(parse, busy));
    if fs == [] {
      assert text == rest && "" + c.prefix == c.prefix;
    } else {
      var tail := FramesText(fs[1..]) + rest;
      FramesCut(fs[1..], tail, rest, parse, busy);
      SplitFrames(fs, rest);
      SplitFrames(fs, c.prefix);
      FrameCut(fs[0], text, tail, parse, busy);
      AnyOutputCons(fs, parse);
    }
  }

  lemma SplitFrames(fs: seq<Frame>, rest: string)
    requires fs != []
    ensures FramesText(fs) + rest == FrameText(fs[0]) + (FramesText(fs[1..]) + rest)
  {
  }

  lemma AnyOutputCons(fs: seq<Frame>, parse: string -> Option<Payload>)
    requires fs != []
    ensures AnyOutput(fs, parse) <==> IsOutput(TypeOf(fs[0], parse)) || AnyOutput(fs[1..], parse)
  {
    if AnyOutput(fs, parse) {
      var i :| 0 <= i < |fs| && IsOutput(TypeOf(fs[i], parse));
      assert i > 0 ==> fs[1..][i - 1] == fs[i];
    }
    if AnyOutput(fs[1..], parse) {
      var i :| 0 <= i < |fs[1..]| && IsOutput(TypeOf(fs[1..][i], parse));
      assert fs[i + 1] == fs[1..][i];
    }
  }

  // ---------------------------------------------------------------- what a turn makes of them

  /** These events, none of them an ending, then this ending, then anything. */
  predicate EndsWith(text: string, before: seq<Frame>, last: Frame, rest: string, parse: string -> Option<Payload>) {
    && text == FramesText(before) + (FrameText(last) + rest)
    && (forall i | 0 <= i < |before| :: IsFrame(before[i]) && !Ends(before[i], parse))
    && IsFrame(last) && Ends(last, parse)
  }

  lemma CutOfEnding(text: string, before: seq<Frame>, last: Frame, rest: string, parse: string -> Option<Payload>, busy: string -> bool)
    requires EndsWith(text, before, last, rest, parse)
    ensures CutAt("", [], text, ProxyHost(parse, busy)) ==
            Cut(FramesText(before) + FrameText(last), Some(EndOf(last, parse)), AnyOutput(before, parse))
    ensures EndsWithin("", [], Lines(text), ProxyHost(parse, busy))
  {
    FramesCut(before, text, FrameText(last) + rest, parse, busy);
    FrameCut(last, FrameText(last) + rest, rest, parse, busy);
  }

  /** A dial that is made is the last one exactly when it is not to be retried. */
  lemma LastDialIff(attempts: nat -> Attempt, retryMax: nat, h: Host, n: nat, end: Turn)
    requires forall i: nat :: attempts(i).leaves.Never?
    requires end == RunTurn(attempts, retryMax, h).0 && 1 <= n <= end.dials
    ensures n < end.dials <==> RetriedAt(attempts, n, retryMax, h)
    ensures n == end.dials ==> Answers(end, attempts(n), n, h)
  {
    OnlyTheLastAttemptIsSeen(attempts, retryMax, h, end);
  }

  /** With the client connected, a dial whose stream comes to an ending event is answered as that event
      says, `response.completed` as a success and `response.failed` or `error` as a failure, with the text
      up to it and nothing added; only a busy failure before any output, on one of the first four dials,
      is followed by another dial. */
  lemma EndingEventDecides(attempts: nat -> Attempt, retryMax: nat, parse: string -> Option<Payload>, busy: string -> bool,
                           n: nat, before: seq<Frame>, last: Frame, rest: string, end: Turn)
    requires forall i: nat :: attempts(i).leaves.Never?
    requires end == RunTurn(attempts, retryMax, ProxyHost(parse, busy)).0 && 1 <= n <= end.dials
    requires attempts(n).upstream.Stream? && EndsWith(Concat(attempts(n).upstream.chunks), before, last, rest, parse)
    ensures if Fails(TypeOf(last, parse)) && busy(FailureOf(last, parse)) && !AnyOutput(before, parse) && n <= 4 then n < end.dials
            else
              && n == end.dials && end.body == FramesText(before) + FrameText(last) && end.coda == []
              && end.reports == (if Completes(TypeOf(last, parse)) then [Success] else [ResponseFailed])
  {
    var h := ProxyHost(parse, busy);
    CutOfEnding(Concat(attempts(n).upstream.chunks), before, last, rest, parse, busy);
    LastDialIff(attempts, retryMax, h, n, end);
  }

  lemma CutOfNoEnding(fs: seq<Frame>, parse: string -> Option<Payload>, busy: string -> bool)
    requires forall i | 0 <= i < |fs| :: IsFrame(fs[i]) && !Ends(fs[i], parse)
    ensures CutAt("", [], FramesText(fs), ProxyHost(parse, busy)) == Cut(FramesText(fs), None, AnyOutput(fs, parse))
  {
    assert FramesText(fs) + "" == FramesText(fs);
    FramesCut(fs, FramesText(fs), "", parse, busy);
  }

  /** A stream that ends without an ending event is answered in full, with a completion added. */
  lemma StreamWithoutEnding(attempts: nat -> Attempt, retryMax: nat, parse: string -> Option<Payload>, busy: string -> bool,
                            n: nat, fs: seq<Frame>, end: Turn)
    requires forall i: nat :: attempts(i).leaves.Never?
    requires end == RunTurn(attempts, retryMax, ProxyHost(parse, busy)).0 && 1 <= n <= end.dials
    requires attempts(n).upstream.Stream? && attempts(n).upstream.end.Done? && Concat(attempts(n).upstream.chunks) == FramesText(fs)
    requires forall i | 0 <= i < |fs| :: IsFrame(fs[i]) && !Ends(fs[i], parse)
    ensures n == end.dials && end.body == FramesText(fs) && end.coda == [InjectedCompleted] && end.reports == [Success]
  {
    var h := ProxyHost(parse, busy);
    CutOfNoEnding(fs, parse, busy);
    LastDialIff(attempts, retryMax, h, n, end);
  }

  /** A dial that is refused is followed by another exactly when the hook asks for it and a repair is
      left; otherwise, and when upstream cannot be reached, the client is told and the turn reported so. */
  lemma RefusalDecides(attempts: nat -> Attempt, retryMax: nat, parse: string -> Option<Payload>, busy: string -> bool, n: nat, end: Turn)
    requires forall i: nat :: attempts(i).leaves.Never?
    requires end == RunTurn(attempts, retryMax, ProxyHost(parse, busy)).0 && 1 <= n <= end.dials && !attempts(n).upstream.Stream?
    ensures if attempts(n).upstream.Rejected? && attempts(n).upstream.hookRetries && Rejections(attempts, n) < retryMax then n < end.dials
            else
              && n == end.dials && end.body == "" && end.coda == [SendFailed]
              && end.reports == (if attempts(n).upstream.Rejected? then [HttpError] else [ConnectFailed])
  {
    var h := ProxyHost(parse, busy);
    LastDialIff(attempts, retryMax, h, n, end);
  }
}
