/** The buffering retry proxy `proxyResponsesCompat` (lib/proxy/codex.js): it forwards one upstream
    event stream, but holds the text back until an event shows the attempt is the one to keep. */
module ResponsesCompat {
  import opened SseLines
  import opened Text

  const BUSY_RETRY_MAX: nat := 5

  /** What the proxy reads from a JSON payload: its own type, and its error message or "". */
  datatype Payload = Payload(kind: string, failure: string)

  datatype Kind = Output | Completion | Failing | Other

  /** The proxy's reading of an event's type. */
  function Classify(kind: string): Kind {
    if StartsWith(kind, "response.output_") || StartsWith(kind, "response.content_part") ||
       StartsWith(kind, "response.function_call") || StartsWith(kind, "response.reasoning") then Output
    else if kind == "response.completed" then Completion
    else if kind == "response.failed" || kind == "error" then Failing
    else Other
  }

  datatype LineKind = Blank | EventName(name: string) | DataPart(text: string) | Ignored

  /** The proxy's reading of one line. */
  function ReadLine(line: string): LineKind {
    var l := StripCr(line);
    if Trim(l) == "" then Blank
    else if StartsWith(l, "event:") then EventName(Trim(l[6..]))
    else if StartsWith(l, "data:") then DataPart(TrimStart(l[5..]))
    else Ignored
  }

  /** JSON parsing and the upstream-busy pattern, which the proxy takes from its libraries, and the
      reading of lines and of event types: `ReadLine` and `Classify` in the proxy, but nothing below
      depends on which. */
  datatype Host = Host(parse: string -> Option<Payload>, busy: string -> bool,
                       read: string -> LineKind, classify: string -> Kind)

  /** The proxy itself, given its two libraries. */
  function ProxyHost(parse: string -> Option<Payload>, busy: string -> bool): Host {
    Host(parse, busy, ReadLine, Classify)
  }

  // ---------------------------------------------------------------- one event

  datatype Finished = Finished(kind: Kind, failure: string)

  function JoinLines(data: seq<string>): string {
    if data == [] then "" else if |data| == 1 then data[0] else data[0] + "\n" + JoinLines(data[1..])
  }

  /** The event the collected lines denote; a named event wins over the payload's own type. */
  function EventOf(event: string, data: seq<string>, h: Host): Finished {
    var text := JoinLines(data);
    var obj := if text != "" && text != "[DONE]" then h.parse(text) else None;
    Finished(h.classify(if event != "" then event else if obj.Some? then obj.value.kind else ""),
             if obj.Some? then obj.value.failure else "")
  }

  function NextEvent(event: string, line: LineKind): string {
    if line.EventName? then line.name else event
  }

  function NextData(data: seq<string>, line: LineKind): seq<string> {
    if line.DataPart? then data + [line.text] else data
  }

  // ---------------------------------------------------------------- one attempt

  datatype Track = Track(event: string, data: seq<string>, completed: bool, failed: bool, sawOutput: bool,
                         committed: bool, retryBusy: bool, failure: string, pending: string, written: string)

  const FRESH := Track("", [], false, false, false, false, false, "", "", "")

  function WriteOut(t: Track, text: string): Track {
    if t.committed then t.(written := t.written + text) else t.(pending := t.pending + text)
  }

  function Commit(t: Track): Track {
    if t.committed then t else t.(committed := true, written := t.written + t.pending, pending := "")
  }

  /** Keeping the attempt, abandoning it as busy, or waiting, once an event has been noted. */
  function Decide(t: Track, attempt: nat, h: Host): Track {
    var t1 := if t.sawOutput || t.completed then Commit(t) else t;
    if !t1.failed then t1
    else if !t1.committed && !t1.sawOutput && h.busy(t1.failure) && attempt < BUSY_RETRY_MAX then t1.(retryBusy := true)
    else Commit(t1)
  }

  function NoteEvent(t: Track, e: Finished): Track {
    t.(event := "", data := [],
       sawOutput := t.sawOutput || e.kind.Output?,
       completed := t.completed || e.kind.Completion?,
       failed := t.failed || e.kind.Failing?,
       failure := if e.kind.Failing? && t.failure == "" then e.failure else t.failure)
  }

  function FinishEvent(t: Track, attempt: nat, h: Host): Track {
    if t.event == "" && t.data == [] then t
    else Decide(NoteEvent(t, EventOf(t.event, t.data, h)), attempt, h)
  }

  function TrackLine(t: Track, line: string, attempt: nat, h: Host): Track {
    if h.read(line).Blank? then FinishEvent(t, attempt, h)
    else t.(event := NextEvent(t.event, h.read(line)), data := NextData(t.data, h.read(line)))
  }

  predicate Stopped(t: Track) {
    t.retryBusy || t.completed || t.failed
  }

  /** The inner loop: complete lines are tracked and written until one ends the attempt. */
  function Consume(t: Track, buffer: string, attempt: nat, h: Host): (Track, string)
    decreases |buffer|
  {
    var n := NewlineAt(buffer);
    if n == |buffer| then (t, buffer)
    else
      var t1 := WriteOut(TrackLine(t, buffer[..n], attempt, h), buffer[..n] + "\n");
      if Stopped(t1) then (t1, buffer[n + 1..]) else Consume(t1, buffer[n + 1..], attempt, h)
  }

  /** The outer loop over the chunks read. */
  function ReadAll(t: Track, buffer: string, chunks: seq<string>, attempt: nat, h: Host): (Track, string)
    decreases |chunks|
  {
    if chunks == [] then (t, buffer)
    else
      var (t1, b1) := Consume(t, buffer + chunks[0], attempt, h);
      if Stopped(t1) then (t1, b1) else ReadAll(t1, b1, chunks[1..], attempt, h)
  }

  /** At the end of the stream the unfinished line, and then any open event, are processed too. */
  function EndOfStream(t: Track, buffer: string, attempt: nat, h: Host): Track {
    FinishEvent(if buffer == "" then t else WriteOut(TrackLine(t, buffer, attempt, h), buffer), attempt, h)
  }

  function StreamAttempt(chunks: seq<string>, attempt: nat, h: Host): Track {
    var (t, buffer) := ReadAll(FRESH, "", chunks, attempt, h);
    if Stopped(t) then t else EndOfStream(t, buffer, attempt, h)
  }

  // ---------------------------------------------------------------- the reference definition

  datatype Terminal = Complete | Failure(message: string)

  /** `prefix`: the text up to and including the line that ends the first terminal event, or the
      whole text when it has none; `output`: an output event occurred within it. */
  datatype Cut = Cut(prefix: string, terminal: Option<Terminal>, output: bool)

  function TerminalOf(e: Finished): Option<Terminal> {
    if e.kind.Completion? then Some(Complete) else if e.kind.Failing? then Some(Failure(e.failure)) else None
  }

  /** The event that ends on a blank line, or at the end of the text; None when nothing was open. */
  function Ending(event: string, data: seq<string>, h: Host): Option<Finished> {
    if event == "" && data == [] then None else Some(EventOf(event, data, h))
  }

  function CutAt(event: string, data: seq<string>, text: string, h: Host): Cut
    decreases |text|
  {
    var n := NewlineAt(text);
    if n == |text| then
      var blank := text != "" && h.read(text).Blank?;
      var e := if text == "" || blank then Ending(event, data, h)
               else Ending(NextEvent(event, h.read(text)), NextData(data, h.read(text)), h);
      Cut(text, if e.Some? then TerminalOf(e.value) else None, e.Some? && e.value.kind.Output?)
    else
      var line, rest := text[..n], text[n + 1..];
      if h.read(line).Blank? then
        match Ending(event, data, h)
        case None => Prepend(line, false, CutAt("", [], rest, h))
        case Some(e) =>
          if TerminalOf(e).Some? then Cut(line + "\n", TerminalOf(e), e.kind.Output?)
          else Prepend(line, e.kind.Output?, CutAt("", [], rest, h))
      else Prepend(line, false, CutAt(NextEvent(event, h.read(line)), NextData(data, h.read(line)), rest, h))
  }

  function Prepend(line: string, output: bool, c: Cut): Cut {
    Cut(line + "\n" + c.prefix, c.terminal, output || c.output)
  }

  /** One of these complete lines ends a terminal event. */
  predicate EndsWithin(event: string, data: seq<string>, lines: seq<string>, h: Host)
    decreases |lines|
  {
    lines != [] &&
    if h.read(lines[0]).Blank? then
      (Ending(event, data, h).Some? && TerminalOf(Ending(event, data, h).value).Some?) || EndsWithin("", [], lines[1..], h)
    else EndsWithin(NextEvent(event, h.read(lines[0])), NextData(data, h.read(lines[0])), lines[1..], h)
  }

  /** Whether a stream with this cut is abandoned for another attempt. */
  predicate Abandons(c: Cut, attempt: nat, h: Host) {
    c.terminal.Some? && c.terminal.value.Failure? && !c.output && h.busy(c.terminal.value.message) && attempt < BUSY_RETRY_MAX
  }

  // ---------------------------------------------------------------- chunking and the cut

  lemma {:induction false} ConsumeSplit(t: Track, a: string, b: string, attempt: nat, h: Host)
    requires !Stopped(t)
    ensures var (t1, rest) := Consume(t, a, attempt, h);
            if Stopped(t1) then Consume(t, a + b, attempt, h).0 == t1
            else Consume(t, a + b, attempt, h) == Consume(t1, rest + b, attempt, h)
    decreases |a|
  {
    var n := NewlineAt(a);
    NewlineOfConcat(a, b);
    if n < |a| {
      assert (a + b)[..n] == a[..n] && (a + b)[n + 1..] == a[n + 1..] + b;
      var line := a[..n];
      var t1 := WriteOut(TrackLine(t, line, attempt, h), line + "\n");
      ConsumeStep(t, a, line, a[n + 1..], t1, attempt, h);
      ConsumeStep(t, a + b, line, a[n + 1..] + b, t1, attempt, h);
      if !Stopped(t1) {
        ConsumeSplit(t1, a[n + 1..], b, attempt, h);
      }
    }
  }

  /** Chunk boundaries never influence an attempt. */
  lemma {:induction false} ReadAllIsConsume(t: Track, buffer: string, chunks: seq<string>, attempt: nat, h: Host)
    requires !Stopped(t) && NewlineAt(buffer) == |buffer|
    ensures var whole := Consume(t, buffer + Concat(chunks), attempt, h);
            var read := ReadAll(t, buffer, chunks, attempt, h);
            read.0 == whole.0 && (!Stopped(read.0) ==> read.1 == whole.1)
    decreases |chunks|
  {
    if chunks == [] {
      assert buffer + "" == buffer;
    } else {
      var front := buffer + chunks[0];
      assert buffer + Concat(chunks) == front + Concat(chunks[1..]);
      ConsumeSplit(t, front, Concat(chunks[1..]), attempt, h);
      var (t1, b1) := Consume(t, front, attempt, h);
      if !Stopped(t1) {
        ConsumeLeavesTail(t, front, attempt, h);
        ReadAllIsConsume(t1, b1, chunks[1..], attempt, h);
      }
    }
  }

  lemma {:induction false} ConsumeLeavesTail(t: Track, buffer: string, attempt: nat, h: Host)
    ensures var (t1, rest) := Consume(t, buffer, attempt, h); !Stopped(t1) ==> NewlineAt(rest) == |rest|
    decreases |buffer|
  {
    var n := NewlineAt(buffer);
    if n < |buffer| {
      var t1 := WriteOut(TrackLine(t, buffer[..n], attempt, h), buffer[..n] + "\n");
      if !Stopped(t1) {
        ConsumeLeavesTail(t1, buffer[n + 1..], attempt, h);
      }
    }
  }

  /** The held-back text is uncommitted exactly until an output event. */
  ghost predicate Buffering(t: Track) {
    && !Stopped(t) && t.failure == ""
    && t.committed == t.sawOutput
    && Tidy(t)
  }

  function Forwarded(t: Track): string {
    t.written + t.pending
  }

  /** What matters of an attempt once it has ended. */
  datatype Ended = Ended(forwarded: string, retryBusy: bool, completed: bool, failed: bool, committed: bool)

  function Summary(t: Track): Ended {
    Ended(Forwarded(t), t.retryBusy, t.completed, t.failed, t.committed)
  }

  /** How an attempt must end, in terms of the reference cut of the text still to come. */
  function Expected(forwarded: string, sawOutput: bool, c: Cut, attempt: nat, h: Host): Ended {
    var output := sawOutput || c.output;
    var retry := Abandons(c.(output := output), attempt, h);
    Ended(forwarded + c.prefix, retry, c.terminal == Some(Complete), c.terminal.Some? && c.terminal.value.Failure?,
          if c.terminal.Some? then !retry else output)
  }

  /** Text is either all held back or all written. */
  predicate Tidy(t: Track) {
    if t.committed then t.pending == "" else t.written == ""
  }

  ghost predicate EndsAs(t: Track, before: Track, c: Cut, attempt: nat, h: Host) {
    Tidy(t) && Summary(t) == Expected(Forwarded(before), before.sawOutput, c, attempt, h)
  }

  lemma OneEvent(t: Track, attempt: nat, h: Host)
    requires Buffering(t)
    ensures var t1 := FinishEvent(t, attempt, h);
            match Ending(t.event, t.data, h)
            case None => t1 == t
            case Some(e) =>
              && t1.event == "" && t1.data == [] && Forwarded(t1) == Forwarded(t)
              && EndsAs(t1, t, Cut("", TerminalOf(e), e.kind.Output?), attempt, h)
              && (TerminalOf(e).None? ==> Buffering(t1) && t1.sawOutput == (t.sawOutput || e.kind.Output?))
  {
  }

  /** Writing a line while buffering keeps buffering and forwards exactly that text. */
  lemma WriteKeepsBuffering(t: Track, text: string)
    requires Buffering(t)
    ensures Buffering(WriteOut(t, text)) && Forwarded(WriteOut(t, text)) == Forwarded(t) + text
  {
  }

  lemma PrependEnds(t: Track, mid: Track, end: Track, line: string, output: bool, c: Cut, attempt: nat, h: Host)
    requires Forwarded(mid) == Forwarded(t) + (line + "\n") && mid.sawOutput == (t.sawOutput || output)
    requires EndsAs(end, mid, c, attempt, h)
    ensures EndsAs(end, t, Prepend(line, output, c), attempt, h)
  {
    assert Forwarded(t) + (line + "\n") + c.prefix == Forwarded(t) + (line + "\n" + c.prefix);
  }

  lemma NothingLeft(t: Track, attempt: nat, h: Host)
    requires Buffering(t)
    ensures EndsAs(EndOfStream(t, "", attempt, h), t, CutAt(t.event, t.data, "", h), attempt, h)
  {
    OneEvent(t, attempt, h);
    assert Forwarded(t) + "" == Forwarded(t);
  }

  lemma BlankLeft(t: Track, text: string, attempt: nat, h: Host)
    requires Buffering(t) && NewlineAt(text) == |text| && text != "" && h.read(text).Blank?
    ensures EndsAs(EndOfStream(t, text, attempt, h), t, CutAt(t.event, t.data, text, h), attempt, h)
  {
    var ended := FinishEvent(t, attempt, h);
    OneEvent(t, attempt, h);
    if Stopped(ended) {
      var e := Ending(t.event, t.data, h).value;
      WriteAfterEnd(ended, t, text, TerminalOf(e), e.kind.Output?, attempt, h);
    } else {
      WriteKeepsBuffering(ended, text);
    }
    assert EndOfStream(t, text, attempt, h) == WriteOut(ended, text);
  }

  lemma OpenLeft(t: Track, text: string, attempt: nat, h: Host)
    requires Buffering(t) && NewlineAt(text) == |text| && text != "" && !h.read(text).Blank?
    ensures EndsAs(EndOfStream(t, text, attempt, h), t, CutAt(t.event, t.data, text, h), attempt, h)
  {
    var tracked := t.(event := NextEvent(t.event, h.read(text)), data := NextData(t.data, h.read(text)));
    WriteKeepsBuffering(tracked, text);
    OneEvent(WriteOut(tracked, text), attempt, h);
    assert EndOfStream(t, text, attempt, h) == FinishEvent(WriteOut(tracked, text), attempt, h);
  }

  lemma FinalLine(t: Track, text: string, attempt: nat, h: Host)
    requires Buffering(t) && NewlineAt(text) == |text|
    ensures EndsAs(EndOfStream(t, text, attempt, h), t, CutAt(t.event, t.data, text, h), attempt, h)
  {
    if text == "" {
      NothingLeft(t, attempt, h);
    } else if h.read(text).Blank? {
      BlankLeft(t, text, attempt, h);
    } else {
      OpenLeft(t, text, attempt, h);
    }
  }

  lemma WriteAfterEnd(t1: Track, t: Track, text: string, terminal: Option<Terminal>, output: bool, attempt: nat, h: Host)
    requires terminal.Some? && EndsAs(t1, t, Cut("", terminal, output), attempt, h)
    ensures EndsAs(WriteOut(t1, text), t, Cut(text, terminal, output), attempt, h)
  {
    assert Forwarded(t) + "" == Forwarded(t);
    assert t1.written + text + "" == t1.written + "" + text;
  }

  lemma BlankLine(t: Track, text: string, attempt: nat, h: Host) returns (output: bool)
    requires Buffering(t) && NewlineAt(text) < |text| && h.read(text[..NewlineAt(text)]).Blank?
    ensures LineEnds(t, text, output, attempt, h)
  {
    var line := text[..NewlineAt(text)];
    OneEvent(t, attempt, h);
    output := Ending(t.event, t.data, h).Some? && Ending(t.event, t.data, h).value.kind.Output?;
    var tracked := FinishEvent(t, attempt, h);
    if Stopped(tracked) {
      var e := Ending(t.event, t.data, h).value;
      WriteAfterEnd(tracked, t, line + "\n", TerminalOf(e), e.kind.Output?, attempt, h);
    } else {
      WriteKeepsBuffering(tracked, line + "\n");
    }
  }

  lemma {:induction false} OpenLine(t: Track, text: string, attempt: nat, h: Host)
    requires Buffering(t) && NewlineAt(text) < |text| && !h.read(text[..NewlineAt(text)]).Blank?
    ensures LineEnds(t, text, false, attempt, h)
  {
    var line := text[..NewlineAt(text)];
    WriteKeepsBuffering(TrackLine(t, line, attempt, h), line + "\n");
  }

  /** One complete line: it ends the attempt as the cut says, or the cut goes on behind it. */
  ghost predicate LineEnds(t: Track, text: string, output: bool, attempt: nat, h: Host)
    requires NewlineAt(text) < |text|
  {
    var line, rest := text[..NewlineAt(text)], text[NewlineAt(text) + 1..];
    var t1 := WriteOut(TrackLine(t, line, attempt, h), line + "\n");
    var c := CutAt(t.event, t.data, text, h);
    if Stopped(t1) then EndsAs(t1, t, c, attempt, h)
    else
      && Buffering(t1) && Forwarded(t1) == Forwarded(t) + (line + "\n")
      && t1.sawOutput == (t.sawOutput || output)
      && c == Prepend(line, output, CutAt(t1.event, t1.data, rest, h))
  }

  lemma LineStep(t: Track, text: string, attempt: nat, h: Host) returns (output: bool)
    requires Buffering(t) && NewlineAt(text) < |text|
    ensures LineEnds(t, text, output, attempt, h)
  {
    output := false;
    if h.read(text[..NewlineAt(text)]).Blank? {
      output := BlankLine(t, text, attempt, h);
    } else {
      OpenLine(t, text, attempt, h);
    }
  }

  lemma ConsumeStep(t: Track, text: string, line: string, rest: string, t1: Track, attempt: nat, h: Host)
    requires NewlineAt(text) < |text| && line == text[..NewlineAt(text)] && rest == text[NewlineAt(text) + 1..]
    requires t1 == WriteOut(TrackLine(t, line, attempt, h), line + "\n")
    ensures Consume(t, text, attempt, h) == if Stopped(t1) then (t1, rest) else Consume(t1, rest, attempt, h)
  {
  }

  function EndWith(read: (Track, string), attempt: nat, h: Host): Track {
    if Stopped(read.0) then read.0 else EndOfStream(read.0, read.1, attempt, h)
  }

  /** The attempt that reads all of `text` and then meets the end of the stream. */
  function Finish(t: Track, text: string, attempt: nat, h: Host): Track {
    EndWith(Consume(t, text, attempt, h), attempt, h)
  }

  /** The step of the induction below: how the attempt ends after the first line is how it ends. */
  lemma AttemptStep(t: Track, text: string, t1: Track, end: Track, attempt: nat, h: Host)
    requires Buffering(t) && NewlineAt(text) < |text|
    requires t1 == WriteOut(TrackLine(t, text[..NewlineAt(text)], attempt, h), text[..NewlineAt(text)] + "\n")
    requires var rest := text[NewlineAt(text) + 1..];
             if Stopped(t1) then end == t1 else EndsAs(end, t1, CutAt(t1.event, t1.data, rest, h), attempt, h)
    ensures EndsAs(end, t, CutAt(t.event, t.data, text, h), attempt, h)
  {
    var line, rest := text[..NewlineAt(text)], text[NewlineAt(text) + 1..];
    var output := LineStep(t, text, attempt, h);
    if !Stopped(t1) {
      PrependEnds(t, t1, end, line, output, CutAt(t1.event, t1.data, rest, h), attempt, h);
    }
  }

  lemma {:induction false} AttemptMatchesCut(t: Track, text: string, attempt: nat, h: Host)
    requires Buffering(t)
    ensures EndsAs(Finish(t, text, attempt, h), t, CutAt(t.event, t.data, text, h), attempt, h)
    decreases |text|
  {
    var n := NewlineAt(text);
    if n == |text| {
      FinalLine(t, text, attempt, h);
    } else {
      var line, rest := text[..n], text[n + 1..];
      var t1 := WriteOut(TrackLine(t, line, attempt, h), line + "\n");
      ConsumeStep(t, text, line, rest, t1, attempt, h);
      if !Stopped(t1) {
        StaysBuffering(t, text, attempt, h);
        AttemptMatchesCut(t1, rest, attempt, h);
      }
      AttemptStep(t, text, t1, Finish(t, text, attempt, h), attempt, h);
    }
  }

  lemma {:induction false} StaysBuffering(t: Track, text: string, attempt: nat, h: Host)
    requires Buffering(t) && NewlineAt(text) < |text|
    ensures var t1 := WriteOut(TrackLine(t, text[..NewlineAt(text)], attempt, h), text[..NewlineAt(text)] + "\n");
            !Stopped(t1) ==> Buffering(t1)
  {
    var _ := LineStep(t, text, attempt, h);
  }

  lemma {:induction false} StreamAttemptIsFinish(chunks: seq<string>, attempt: nat, h: Host)
    ensures StreamAttempt(chunks, attempt, h) == Finish(FRESH, Concat(chunks), attempt, h)
  {
    assert "" + Concat(chunks) == Concat(chunks);
    ReadAllIsConsume(FRESH, "", chunks, attempt, h);
  }

  /** An attempt whose stream ends without an error: its text is abandoned exactly when the first
      terminal event is a busy failure before any output; otherwise what it writes, once committed,
      is exactly the prefix ending at the first terminal event. */
  lemma {:induction false} StreamAttemptIsCut(chunks: seq<string>, attempt: nat, h: Host)
    ensures var t := StreamAttempt(chunks, attempt, h);
            var c := CutAt("", [], Concat(chunks), h);
            && t.retryBusy == Abandons(c, attempt, h)
            && (t.retryBusy ==> t.written == "")
            && (!t.retryBusy ==> Commit(t).written == c.prefix && (c.terminal.Some? ==> t.written == c.prefix))
            && t.completed == (c.terminal == Some(Complete))
            && t.failed == (c.terminal.Some? && c.terminal.value.Failure?)
  {
    StreamAttemptIsFinish(chunks, attempt, h);
    AttemptMatchesCut(FRESH, Concat(chunks), attempt, h);
    EndedAttempt(StreamAttempt(chunks, attempt, h), CutAt("", [], Concat(chunks), h), attempt, h);
  }

  lemma EndedAttempt(t: Track, c: Cut, attempt: nat, h: Host)
    requires EndsAs(t, FRESH, c, attempt, h)
    ensures t.retryBusy == Abandons(c, attempt, h)
    ensures !t.retryBusy ==> Commit(t).written == c.prefix && (c.terminal.Some? ==> t.written == c.prefix)
  {
    assert "" + c.prefix == c.prefix && "" + "" == "";
    assert t.pending == "" ==> t.written + t.pending == t.written;
    assert t.written == "" ==> t.written + t.pending == t.pending;
    assert "" + t.pending == t.pending;
  }

  lemma PrefixCons(line: string, p: string, rest: string)
    requires p <= rest
    ensures line + "\n" + p <= line + "\n" + rest
  {
  }

  lemma CutStep(event: string, data: seq<string>, text: string, h: Host) returns (event': string, data': seq<string>, output: bool)
    requires NewlineAt(text) < |text|
    ensures var line, rest := text[..NewlineAt(text)], text[NewlineAt(text) + 1..];
            var c := CutAt(event, data, text, h);
            text == line + "\n" + rest &&
            if c.prefix == line + "\n" && c.terminal.Some? then true
            else c == Prepend(line, output, CutAt(event', data', rest, h))
  {
    var l := h.read(text[..NewlineAt(text)]);
    event', data' := if l.Blank? then "" else NextEvent(event, l), if l.Blank? then [] else NextData(data, l);
    output := l.Blank? && Ending(event, data, h).Some? && Ending(event, data, h).value.kind.Output?;
  }

  /** The cut is a prefix of the text, and all of it when there is no terminal event. */
  lemma {:induction false} CutIsPrefix(event: string, data: seq<string>, text: string, h: Host)
    ensures var c := CutAt(event, data, text, h); c.prefix <= text && (c.terminal.None? ==> c.prefix == text)
    decreases |text|
  {
    var n := NewlineAt(text);
    if n < |text| {
      var line, rest := text[..n], text[n + 1..];
      var event', data', output := CutStep(event, data, text, h);
      CutIsPrefix(event', data', rest, h);
      PrefixCons(line, CutAt(event', data', rest, h).prefix, rest);
    }
  }

  // ---------------------------------------------------------------- when reading stops

  /** A line stops the reading exactly when it is blank and ends a terminal event. */
  lemma LineStops(t: Track, line: string, attempt: nat, h: Host)
    requires Buffering(t)
    ensures var t1 := WriteOut(TrackLine(t, line, attempt, h), line + "\n");
            if h.read(line).Blank? then
              && (Stopped(t1) <==> Ending(t.event, t.data, h).Some? && TerminalOf(Ending(t.event, t.data, h).value).Some?)
              && (!Stopped(t1) ==> Buffering(t1) && t1.event == "" && t1.data == [])
            else Buffering(t1) && t1.event == NextEvent(t.event, h.read(line)) && t1.data == NextData(t.data, h.read(line))
  {
    if h.read(line).Blank? {
      OneEvent(t, attempt, h);
      if !Stopped(FinishEvent(t, attempt, h)) {
        WriteKeepsBuffering(FinishEvent(t, attempt, h), line + "\n");
      }
    } else {
      WriteKeepsBuffering(TrackLine(t, line, attempt, h), line + "\n");
    }
  }

  lemma EndsStep(event: string, data: seq<string>, line: string, more: seq<string>, h: Host)
    ensures EndsWithin(event, data, [line] + more, h) <==>
            if h.read(line).Blank? then
              (Ending(event, data, h).Some? && TerminalOf(Ending(event, data, h).value).Some?) || EndsWithin("", [], more, h)
            else EndsWithin(NextEvent(event, h.read(line)), NextData(data, h.read(line)), more, h)
  {
    assert ([line] + more)[1..] == more;
  }

  /** Reading a text stops exactly when one of its complete lines ends a terminal event. */
  lemma {:induction false} StopsIffEnds(t: Track, text: string, attempt: nat, h: Host)
    requires Buffering(t)
    ensures Stopped(Consume(t, text, attempt, h).0) <==> EndsWithin(t.event, t.data, Lines(text), h)
    decreases |text|
  {
    var n := NewlineAt(text);
    if n < |text| {
      var line, rest := text[..n], text[n + 1..];
      var t1 := WriteOut(TrackLine(t, line, attempt, h), line + "\n");
      ConsumeStep(t, text, line, rest, t1, attempt, h);
      LineStops(t, line, attempt, h);
      EndsStep(t.event, t.data, line, Lines(rest), h);
      if !Stopped(t1) {
        StopsIffEnds(t1, rest, attempt, h);
      }
    }
  }
}
