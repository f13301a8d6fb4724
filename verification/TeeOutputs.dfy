/** What the readers beside the forwarded stream report, as functions of the events they read
    (lib/proxy/codex.js 45-103, 121-172; lib/proxy/claude.js 184-226). */
module TeeOutputs {
  import opened SseLines
  import opened Text
  import opened UsageTees

  lemma {:induction false} FoldSnoc<S>(s: S, lines: seq<string>, handle: (S, string) -> Step<S>)
    requires lines != []
    ensures Fold(s, lines, handle) == handle(Fold(s, lines[..|lines| - 1], handle), lines[|lines| - 1]).state
    decreases |lines|
  {
    if |lines| > 1 {
      FoldSnoc(handle(s, lines[0]).state, lines[1..], handle);
      assert lines[1..][..|lines| - 2] == lines[..|lines| - 1][1..];
    }
  }

  // ---------------------------------------------------------------- the payload of a line

  /** What a `data:` field holds, but for the white space around it; the end mark is no payload. */
  function FieldOf(s: string): Option<string> {
    if Trim(StripCr(s)) == "" || Trim(StripCr(s)) == "[DONE]" then None else Some(Trim(StripCr(s)))
  }

  lemma FieldLine(line: string, before: string, s: string)
    requires line == before + "data:" + s
    ensures StripCr(line) == before + "data:" + StripCr(s) && (before + "data:" + StripCr(s))[|before| + 5..] == StripCr(s)
  {
    if s != "" {
      assert line[|line| - 1] == s[|s| - 1] && line[..|line| - 1] == before + "data:" + s[..|s| - 1];
    } else {
      assert line[|line| - 1] == ':' && line == before + "data:" + "";
    }
  }

  /** The Responses tees read lines that start with `data:`. */
  lemma DataPayloadIs(line: string, s: string)
    ensures line == "data:" + s ==> DataPayload(line) == FieldOf(s)
    ensures !("data:" <= StripCr(line)) ==> DataPayload(line).None?
  {
    if line == "data:" + s {
      FieldLine(line, "", s);
      assert "" + "data:" + s == "data:" + s && "" + "data:" + StripCr(s) == "data:" + StripCr(s);
    }
  }

  lemma {:induction false} FirstAt(s: string, part: string, n: nat)
    requires n < |s| && part <= s[n..] && forall i | 0 <= i < n :: !(part <= s[i..])
    ensures IndexOf(s, part) == n
    decreases n
  {
    assert s[0..] == s;
    if n > 0 {
      assert s[1..][n - 1..] == s[n..];
      forall i | 0 <= i < n - 1 ensures !(part <= s[1..][i..]) {
        assert s[1..][i..] == s[i + 1..];
      }
      FirstAt(s[1..], part, n - 1);
    }
  }

  /** The Claude tee takes what follows the first `data:`, wherever that stands in the line. */
  lemma ClaudePayloadIs(line: string, before: string, s: string)
    requires line == before + "data:" + s && forall i | 0 <= i < |before| :: !("data:" <= (before + "data:" + StripCr(s))[i..])
    ensures ClaudePayload(line) == FieldOf(s)
  {
    var l := before + "data:" + StripCr(s);
    FieldLine(line, before, s);
    assert l[|before|..] == "data:" + StripCr(s);
    FirstAt(l, "data:", |before|);
  }

  // ---------------------------------------------------------------- Responses usage

  /** The counts of a usage object: cached input is part of the input reported, and never negative. */
  function CountsOf(u: RawResponses): Usage {
    Usage(if u.totalInput > u.cached then u.totalInput - u.cached else 0, u.output, 0, if u.cached > 0 then u.cached else 0)
  }

  predicate Counts(u: RawResponses) {
    CountsOf(u).input + CountsOf(u).output + CountsOf(u).cacheRead > 0
  }

  /** The usage objects with counts that the lines carry, in order. */
  function Reported(lines: seq<string>, parse: string -> Parsed<RawResponses>): seq<RawResponses> {
    if lines == [] then []
    else
      var before, payload := Reported(lines[..|lines| - 1], parse), DataPayload(lines[|lines| - 1]);
      if payload.Some? && parse(payload.value).Event? && Counts(parse(payload.value).e) then before + [parse(payload.value).e] else before
  }

  function LastOf(us: seq<RawResponses>): Option<Usage> {
    if us == [] then None else Some(CountsOf(us[|us| - 1]))
  }

  /** The tee holds the counts of the last usage object that has any. */
  lemma {:induction false} LastUsageWins(lines: seq<string>, parse: string -> Parsed<RawResponses>)
    ensures Fold(None, lines, UsageLine(parse)) == LastOf(Reported(lines, parse))
    decreases |lines|
  {
    if lines != [] {
      FoldSnoc(None, lines, UsageLine(parse));
      LastUsageWins(lines[..|lines| - 1], parse);
    }
  }

  /** Well-formed counts add up to what was reported. */
  lemma CountsAddUp(u: RawResponses)
    requires 0 <= u.cached <= u.totalInput
    ensures CountsOf(u).input + CountsOf(u).cacheRead == u.totalInput && CountsOf(u).output == u.output
    ensures Counts(u) <==> u.totalInput + u.output > 0
  {
  }

  /** The end of the body: a body that is no event stream is parsed whole, and of one that is, what is
      left of the last line is read too. */
  function FinalResponses(t: Tee<Option<Usage>>, sse: bool, parse: string -> Parsed<RawResponses>): Option<Usage> {
    var text := if sse then (if StartsWith(Trim(t.buffer), "data:") then Trim(Trim(t.buffer)[5..]) else "") else t.buffer;
    var n := if text != "" && parse(text).Event? then NormalizeResponses(parse(text).e) else None;
    if n.Some? then n else t.state
  }

  /** For any chunks of an event stream: the usage of its unfinished last line if it has counts, and
      otherwise that of the last complete line that has. */
  lemma StreamUsageIs(chunks: seq<string>, parse: string -> Parsed<RawResponses>)
    ensures var text := Concat(chunks); var left := Trim(Tail(text));
            var payload := if "data:" <= left then Trim(left[5..]) else "";
            FinalResponses(FeedAll(Tee("", None), chunks, UsageLine(parse)), true, parse) ==
              if payload != "" && parse(payload).Event? && Counts(parse(payload).e) then Some(CountsOf(parse(payload).e))
              else LastOf(Reported(Lines(text), parse))
  {
    var handle := UsageLine(parse);
    FeedAnyChunking(Tee("", None), chunks, handle);
    assert "" + Concat(chunks) == Concat(chunks);
    NeverThrows<Option<Usage>>(None, Lines(Concat(chunks)), handle);
    DrainIsFold<Option<Usage>>(None, Concat(chunks), handle);
    LastUsageWins(Lines(Concat(chunks)), parse);
  }

  // ---------------------------------------------------------------- Responses deltas

  /** The events the lines carry, in order. */
  function EventsIn(lines: seq<string>, parse: string -> Parsed<ResponsesEvent>): seq<ResponsesEvent> {
    if lines == [] then []
    else
      var before, payload := EventsIn(lines[..|lines| - 1], parse), DataPayload(lines[|lines| - 1]);
      if payload.Some? && parse(payload.value).Event? then before + [parse(payload.value).e] else before
  }

  /** The name under which a tool's input is reported: that of its item, as it was last added. */
  function NameOf(events: seq<ResponsesEvent>, id: string): string {
    if events == [] then ""
    else
      var e := events[|events| - 1];
      if e.ItemAdded? && e.id == id && (e.kind == "function_call" || e.kind == "custom_tool_call") then
        if e.name != "" then e.name else e.kind
      else if e.ItemAdded? && e.id == id && (e.kind == "apply_patch_call" || e.kind == "code_interpreter_call") then e.kind
      else NameOf(events[..|events| - 1], id)
  }

  /** What one event makes the tee report after `before`. */
  function ShownBy(e: ResponsesEvent, before: seq<ResponsesEvent>): seq<Out> {
    match e
    case OutputTextPiece(text) => [TextOut(text)]
    case ReasoningPiece(text) => [ReasoningOut(text)]
    case Annotation(source, itemId) => [SourceOut(source, itemId)]
    case ToolPiece(itemId, text, fallbackName) =>
      if itemId == "" then [] else [ToolOut(if NameOf(before, itemId) != "" then NameOf(before, itemId) else fallbackName, text, itemId)]
    case _ => []
  }

  function Shown(events: seq<ResponsesEvent>): seq<Out> {
    if events == [] then [] else Shown(events[..|events| - 1]) + ShownBy(events[|events| - 1], events[..|events| - 1])
  }

  ghost predicate Knows(s: DeltaState, events: seq<ResponsesEvent>) {
    s.deltas == Shown(events) && forall id | id != "" :: NameOf(events, id) == if id in s.toolNames then s.toolNames[id] else ""
  }

  lemma EventKnows(s: DeltaState, events: seq<ResponsesEvent>, e: ResponsesEvent)
    requires Knows(s, events)
    ensures Knows(OnResponsesEvent(s, e), events + [e])
  {
    assert (events + [e])[..|events|] == events;
    var s' := OnResponsesEvent(s, e);
    assert s.deltas + [] == s.deltas;
    forall id | id != "" ensures NameOf(events + [e], id) == if id in s'.toolNames then s'.toolNames[id] else "" {
      assert NameOf(events, id) == if id in s.toolNames then s.toolNames[id] else "";
    }
  }

  /** The deltas of a Responses stream, under any chunking, are those of its events in order, with each
      tool's input under the name its item was last added with. */
  lemma {:induction false} DeltasAreShown(lines: seq<string>, parse: string -> Parsed<ResponsesEvent>)
    ensures Knows(Fold(DeltaState(map[], []), lines, DeltaLine(parse)), EventsIn(lines, parse))
    decreases |lines|
  {
    if lines != [] {
      var before, last := lines[..|lines| - 1], lines[|lines| - 1];
      FoldSnoc(DeltaState(map[], []), lines, DeltaLine(parse));
      DeltasAreShown(before, parse);
      var payload := DataPayload(last);
      if payload.Some? && parse(payload.value).Event? {
        EventKnows(Fold(DeltaState(map[], []), before, DeltaLine(parse)), EventsIn(before, parse), parse(payload.value).e);
      }
    }
  }

  // ---------------------------------------------------------------- Claude deltas

  function ClaudeEventsIn(lines: seq<string>, parse: string -> Parsed<ClaudeEvent>): seq<ClaudeEvent> {
    if lines == [] then []
    else
      var before, e := ClaudeEventsIn(lines[..|lines| - 1], parse), ClaudeEventOf(lines[|lines| - 1], parse);
      if e.Event? then before + [e.e] else before
  }

  /** The block with this index that was started last and not stopped since. */
  function OpenBlock(events: seq<ClaudeEvent>, index: int): Option<Block> {
    if events == [] then None
    else
      match events[|events| - 1]
      case BlockStart(b) => if b.index == Some(index) then Some(b) else OpenBlock(events[..|events| - 1], index)
      case BlockStop(i) => if i == Some(index) then None else OpenBlock(events[..|events| - 1], index)
      case MessageStop => None
      case _ => OpenBlock(events[..|events| - 1], index)
  }

  /** The block started last, unless it was stopped since, by its index or without one. */
  function LatestBlock(events: seq<ClaudeEvent>): Option<Block> {
    if events == [] then None
    else
      var before := LatestBlock(events[..|events| - 1]);
      match events[|events| - 1]
      case BlockStart(b) => Some(b)
      case BlockStop(i) => if i.None? || (before.Some? && before.value.index == i) then None else before
      case MessageStop => None
      case _ => before
  }

  /** What a piece of a block shows: a thinking block's thinking, or its text for want of that; a text
      block's text; a tool's input; and of other pieces compacted text and citations. */
  function PieceShows(b: Block, d: BlockDelta): seq<Out> {
    if b.kind == "thinking" then
      match (d.thinking, d.text)
      case (Some(t), _) => [ReasoningOut(t)]
      case (None, Some(t)) => [ReasoningOut(t)]
      case (None, None) => []
    else if b.kind == "text" && d.text.Some? then [TextOut(d.text.value)]
    else if b.kind == "tool_use" && d.json.Some? then [ToolOut(b.name, d.json.value, b.id)]
    else if d.kind == "compaction_delta" then (if d.content.Some? then [TextOut(d.content.value)] else [])
    else if d.kind == "citations_delta" then (if d.citation.Some? then [SourceOut(d.citation.value, b.id)] else [])
    else []
  }

  /** A piece goes to the open block of its index, one without an index to the block started last. */
  function ClaudeShown(events: seq<ClaudeEvent>): seq<Out> {
    if events == [] then []
    else
      var before, e := events[..|events| - 1], events[|events| - 1];
      ClaudeShown(before) +
      if !e.BlockPiece? then []
      else
        var b := if e.index.Some? then OpenBlock(before, e.index.value) else LatestBlock(before);
        if b.Some? then PieceShows(b.value, e.delta) else []
  }

  ghost predicate Follows(s: ClaudeState, events: seq<ClaudeEvent>, sidecar: bool) {
    && s.deltas == (if sidecar then ClaudeShown(events) else [])
    && s.current == LatestBlock(events)
    && forall i :: OpenBlock(events, i) == if i in s.blocks then Some(s.blocks[i]) else None
  }

  lemma PieceIsShown(b: Block, d: BlockDelta)
    ensures PieceShows(b, d) == match PieceOut(b, d) case Some(out) => [out] case None => []
  {
  }

  lemma BlocksFollow(s: ClaudeState, events: seq<ClaudeEvent>, e: ClaudeEvent, sidecar: bool, i: int)
    requires Follows(s, events, sidecar)
    ensures var s' := OnClaudeEvent(s, e, sidecar); OpenBlock(events + [e], i) == if i in s'.blocks then Some(s'.blocks[i]) else None
  {
    assert (events + [e])[..|events|] == events;
    assert OpenBlock(events, i) == if i in s.blocks then Some(s.blocks[i]) else None;
  }

  lemma LatestFollows(s: ClaudeState, events: seq<ClaudeEvent>, e: ClaudeEvent, sidecar: bool)
    requires Follows(s, events, sidecar)
    ensures OnClaudeEvent(s, e, sidecar).current == LatestBlock(events + [e])
  {
    assert (events + [e])[..|events|] == events;
  }

  lemma ShownFollows(s: ClaudeState, events: seq<ClaudeEvent>, e: ClaudeEvent, sidecar: bool)
    requires Follows(s, events, sidecar)
    ensures OnClaudeEvent(s, e, sidecar).deltas == if sidecar then ClaudeShown(events + [e]) else []
  {
    assert (events + [e])[..|events|] == events;
    assert s.deltas + [] == s.deltas;
    if e.BlockPiece? && sidecar {
      var b := if e.index.Some? then OpenBlock(events, e.index.value) else LatestBlock(events);
      if b.Some? {
        PieceIsShown(b.value, e.delta);
      }
    }
  }

  /** The deltas of a Claude stream are the pieces of its blocks in order; without a listener there are
      none. */
  lemma {:induction false} ClaudeDeltasAreShown(lines: seq<string>, parse: string -> Parsed<ClaudeEvent>, sidecar: bool)
    ensures Follows(Fold(FRESH, lines, ClaudeLine(parse, sidecar)), ClaudeEventsIn(lines, parse), sidecar)
    decreases |lines|
  {
    if lines != [] {
      var before, last := lines[..|lines| - 1], lines[|lines| - 1];
      FoldSnoc(FRESH, lines, ClaudeLine(parse, sidecar));
      ClaudeDeltasAreShown(before, parse, sidecar);
      var s, events, e := Fold(FRESH, before, ClaudeLine(parse, sidecar)), ClaudeEventsIn(before, parse), ClaudeEventOf(last, parse);
      if e.Event? {
        forall i ensures var s' := OnClaudeEvent(s, e.e, sidecar); OpenBlock(events + [e.e], i) == if i in s'.blocks then Some(s'.blocks[i]) else None {
          BlocksFollow(s, events, e.e, sidecar, i);
        }
        LatestFollows(s, events, e.e, sidecar);
        ShownFollows(s, events, e.e, sidecar);
      }
    }
  }
}
