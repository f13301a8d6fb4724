/** The three event-stream readers that run beside the forwarded bytes: the Claude usage and delta
    tee (lib/proxy/claude.js) and the Responses usage and delta tees (lib/proxy/codex.js). */
module UsageTees {
  import opened SseLines
  import opened Text

  /** What JSON parsing makes of a payload; the parser is a parameter of the readers. A payload that
      is the JSON value null parses but has no fields to read. */
  datatype Parsed<+E> = Malformed | Null | Event(e: E)

  datatype Usage = Usage(input: int, output: int, cacheWrite: int, cacheRead: int)

  /** A usage object as received: a field is None unless it holds a number. */
  datatype RawUsage = RawUsage(input: Option<int>, output: Option<int>, cacheWrite: Option<int>, cacheRead: Option<int>)

  datatype Out =
    | TextOut(text: string)
    | ReasoningOut(text: string)
    | ToolOut(name: string, arguments: string, id: string)
    | SourceOut(source: string, id: string)

  // ---------------------------------------------------------------- the Claude tee

  datatype Block = Block(kind: string, index: Option<int>, id: string, name: string)

  datatype BlockDelta = BlockDelta(kind: string, text: Option<string>, thinking: Option<string>, json: Option<string>,
                                   content: Option<string>, citation: Option<string>)

  datatype ClaudeEvent =
    | MessageStart(usage: RawUsage)
    | MessageDelta(usage: RawUsage)
    | BlockStart(block: Block)
    | BlockPiece(index: Option<int>, delta: BlockDelta)
    | BlockStop(index: Option<int>)
    | MessageStop
    | OtherEvent

  datatype ClaudeState = ClaudeState(usage: Usage, got: bool, current: Option<Block>, blocks: map<int, Block>, deltas: seq<Out>)

  const FRESH := ClaudeState(Usage(0, 0, 0, 0), false, None, map[], [])

  function Num(n: Option<int>): int {
    if n.Some? then n.value else 0
  }

  function MergeUsage(s: ClaudeState, u: RawUsage): ClaudeState {
    var merged := Usage(s.usage.input + Num(u.input),
                        if u.output.Some? && u.output.value > s.usage.output then u.output.value else s.usage.output,
                        s.usage.cacheWrite + Num(u.cacheWrite),
                        s.usage.cacheRead + Num(u.cacheRead));
    var touched := (u.output.Some? && u.output.value > s.usage.output) || Num(u.input) != 0 || Num(u.cacheWrite) != 0 || Num(u.cacheRead) != 0;
    s.(usage := merged, got := s.got || touched)
  }

  function PieceOut(b: Block, d: BlockDelta): Option<Out> {
    if b.kind == "text" && d.text.Some? then Some(TextOut(d.text.value))
    else if b.kind == "thinking" then
      if d.thinking.Some? then Some(ReasoningOut(d.thinking.value))
      else if d.text.Some? then Some(ReasoningOut(d.text.value)) else None
    else if b.kind == "tool_use" && d.json.Some? then Some(ToolOut(b.name, d.json.value, b.id))
    else if d.kind == "compaction_delta" && d.content.Some? then Some(TextOut(d.content.value))
    else if d.kind == "citations_delta" && d.citation.Some? then Some(SourceOut(d.citation.value, b.id))
    else None
  }

  function OnClaudeEvent(s: ClaudeState, e: ClaudeEvent, sidecar: bool): ClaudeState {
    match e
    case MessageStart(u) => MergeUsage(s, u)
    case MessageDelta(u) => MergeUsage(s, u)
    case BlockStart(b) => s.(current := Some(b), blocks := if b.index.Some? then s.blocks[b.index.value := b] else s.blocks)
    case BlockPiece(index, d) =>
      if !sidecar then s
      else
        var block := if index.None? then s.current
                     else if index.value in s.blocks then Some(s.blocks[index.value]) else None;
        var out := if block.Some? then PieceOut(block.value, d) else None;
        if out.Some? then s.(deltas := s.deltas + [out.value]) else s
    case BlockStop(index) =>
      s.(blocks := if index.Some? then s.blocks - {index.value} else s.blocks,
         current := if index.None? || (s.current.Some? && s.current.value.index == index) then None else s.current)
    case MessageStop => s.(current := None, blocks := map[])
    case OtherEvent => s
  }

  /** The payload of a line that carries one: here `data:` may stand anywhere in the line. */
  function ClaudePayload(line: string): Option<string> {
    var l := StripCr(line);
    var at := IndexOf(l, "data:");
    if at == |l| then None
    else
      var payload := Trim(l[at + 5..]);
      if payload == "" || payload == "[DONE]" then None else Some(payload)
  }

  function ClaudeEventOf(line: string, parse: string -> Parsed<ClaudeEvent>): Parsed<ClaudeEvent> {
    match ClaudePayload(line)
    case None => Malformed
    case Some(payload) => parse(payload)
  }

  /** One line of the Claude tee. Reading a field of a null payload throws. */
  function ClaudeLine(parse: string -> Parsed<ClaudeEvent>, sidecar: bool): (ClaudeState, string) -> Step<ClaudeState> {
    (s: ClaudeState, line: string) =>
      match ClaudeEventOf(line, parse)
      case Malformed => Next(s)
      case Null => Throws(s)
      case Event(e) => Next(OnClaudeEvent(s, e, sidecar))
  }

  function LineUsage(line: string, parse: string -> Parsed<ClaudeEvent>): Option<RawUsage> {
    match ClaudeEventOf(line, parse)
    case Event(MessageStart(u)) => Some(u)
    case Event(MessageDelta(u)) => Some(u)
    case _ => None
  }

  /** The usage objects a sequence of lines carries, in order. */
  function UsagesIn(lines: seq<string>, parse: string -> Parsed<ClaudeEvent>): seq<RawUsage> {
    if lines == [] then []
    else if LineUsage(lines[0], parse).Some? then [LineUsage(lines[0], parse).value] + UsagesIn(lines[1..], parse)
    else UsagesIn(lines[1..], parse)
  }

  lemma LineEffect(s: ClaudeState, line: string, parse: string -> Parsed<ClaudeEvent>, sidecar: bool)
    ensures var s1 := ClaudeLine(parse, sidecar)(s, line).state;
            match LineUsage(line, parse)
            case Some(u) => s1 == MergeUsage(s, u)
            case None => s1.usage == s.usage && s1.got == s.got
  {
  }

  function SumOf(us: seq<RawUsage>, field: RawUsage -> Option<int>): int {
    if us == [] then 0 else Num(field(us[0])) + SumOf(us[1..], field)
  }

  /** The largest of `floor` and every output count. */
  function LargestOutput(us: seq<RawUsage>, floor: int): int {
    if us == [] then floor
    else LargestOutput(us[1..], if us[0].output.Some? && us[0].output.value > floor then us[0].output.value else floor)
  }

  /** The tee's counts are the sums of the input and cache counts and the maximum output count. */
  lemma {:induction false} ClaudeUsageIsSumsAndMaximum(s: ClaudeState, lines: seq<string>, parse: string -> Parsed<ClaudeEvent>, sidecar: bool)
    ensures var us := UsagesIn(lines, parse);
            Fold(s, lines, ClaudeLine(parse, sidecar)).usage ==
            Usage(s.usage.input + SumOf(us, (u: RawUsage) => u.input), LargestOutput(us, s.usage.output),
                  s.usage.cacheWrite + SumOf(us, (u: RawUsage) => u.cacheWrite),
                  s.usage.cacheRead + SumOf(us, (u: RawUsage) => u.cacheRead))
    decreases |lines|
  {
    if lines != [] {
      LineEffect(s, lines[0], parse, sidecar);
      var s1 := ClaudeLine(parse, sidecar)(s, lines[0]).state;
      ClaudeUsageIsSumsAndMaximum(s1, lines[1..], parse, sidecar);
      if LineUsage(lines[0], parse).Some? {
        assert UsagesIn(lines, parse)[1..] == UsagesIn(lines[1..], parse);
      }
    }
  }

  predicate Informative(u: RawUsage) {
    Num(u.output) > 0 || Num(u.input) != 0 || Num(u.cacheWrite) != 0 || Num(u.cacheRead) != 0
  }

  /** A fresh tee reports usage exactly when some usage object held a positive output count or a
      non-zero input or cache count. */
  lemma {:induction false} ClaudeReportsIff(s: ClaudeState, lines: seq<string>, parse: string -> Parsed<ClaudeEvent>, sidecar: bool)
    requires s.usage.output >= 0 && (s.usage.output > 0 ==> s.got)
    ensures Fold(s, lines, ClaudeLine(parse, sidecar)).got <==>
            s.got || exists u | u in UsagesIn(lines, parse) :: Informative(u)
    decreases |lines|
  {
    if lines != [] {
      LineEffect(s, lines[0], parse, sidecar);
      var s1 := ClaudeLine(parse, sidecar)(s, lines[0]).state;
      ClaudeReportsIff(s1, lines[1..], parse, sidecar);
      if LineUsage(lines[0], parse).Some? {
        var u0 := LineUsage(lines[0], parse).value;
        assert forall u :: u in UsagesIn(lines, parse) <==> u == u0 || u in UsagesIn(lines[1..], parse);
        assert s1.got <==> s.got || Informative(u0);
      }
    }
  }

  function Counts(u: RawUsage): Usage {
    Usage(Num(u.input), Num(u.output), Num(u.cacheWrite), Num(u.cacheRead))
  }

  function Total(u: Usage): int {
    u.input + u.output + u.cacheWrite + u.cacheRead
  }

  /** What the tee returns at the end. A body that is not an event stream is parsed whole; `body` is the
      usage object found in it. */
  function FinalUsage(s: ClaudeState, sse: bool, body: Option<RawUsage>): Option<Usage> {
    if s.got then Some(s.usage)
    else if !sse && body.Some? && Total(Counts(body.value)) > 0 then Some(Counts(body.value))
    else None
  }

  /** An event stream ends with usage exactly when some usage object was informative, and then with the
      sums and the maximum; any other body, whose lines are not read, exactly when its own counts add
      up to something, and then with those. */
  lemma {:induction false} FinalUsageIs(lines: seq<string>, sse: bool, body: Option<RawUsage>, parse: string -> Parsed<ClaudeEvent>, sidecar: bool)
    ensures var us := UsagesIn(lines, parse);
            var r := FinalUsage(if sse then Fold(FRESH, lines, ClaudeLine(parse, sidecar)) else FRESH, sse, body);
            if sse then
              && (r.Some? <==> exists u | u in us :: Informative(u))
              && (r.Some? ==> r.value == Usage(SumOf(us, (u: RawUsage) => u.input), LargestOutput(us, 0),
                                               SumOf(us, (u: RawUsage) => u.cacheWrite), SumOf(us, (u: RawUsage) => u.cacheRead)))
            else r.Some? <==> body.Some? && Total(Counts(body.value)) > 0 && r == Some(Counts(body.value))
  {
    ClaudeReportsIff(FRESH, lines, parse, sidecar);
    ClaudeUsageIsSumsAndMaximum(FRESH, lines, parse, sidecar);
  }

  predicate NullLine(line: string, parse: string -> Parsed<ClaudeEvent>) {
    ClaudeEventOf(line, parse).Null?
  }

  lemma {:induction false} SafeIffNoNull(s: ClaudeState, lines: seq<string>, parse: string -> Parsed<ClaudeEvent>, sidecar: bool)
    ensures SafeBeforeLast(s, lines, ClaudeLine(parse, sidecar)) <==> forall i | 0 <= i < |lines| - 1 :: !NullLine(lines[i], parse)
    decreases |lines|
  {
    if |lines| >= 2 {
      var s1 := ClaudeLine(parse, sidecar)(s, lines[0]).state;
      SafeIffNoNull(s1, lines[1..], parse, sidecar);
      assert forall i | 0 <= i < |lines| - 2 :: lines[1..][i] == lines[i + 1];
      assert forall i | 1 <= i < |lines| - 1 :: lines[i] == lines[1..][i - 1];
    }
  }

  /** However a Claude stream is cut into chunks, buffer, usage and deltas are those of the uncut
      stream, exactly when no line but possibly the last complete one carries a null payload. */
  lemma ClaudeChunkingIff(t: Tee<ClaudeState>, text: string, parse: string -> Parsed<ClaudeEvent>, sidecar: bool)
    requires NewlineAt(t.buffer) == |t.buffer|
    ensures var handle := ClaudeLine(parse, sidecar);
            (forall chunks | Concat(chunks) == text :: FeedAll(t, chunks, handle) == Feed(t, text, handle)) <==>
            var lines := Lines(t.buffer + text); forall i | 0 <= i < |lines| - 1 :: !NullLine(lines[i], parse)
  {
    ChunkingUnobservableIff(t, text, ClaudeLine(parse, sidecar));
    SafeIffNoNull(t.state, Lines(t.buffer + text), parse, sidecar);
  }

  const NULL_LINE := "data: null"

  lemma NullLineIsOne(line: string)
    requires line == NULL_LINE
    ensures NewlineAt(line) == |line|
  {
    assert '\n' !in line;
  }

  lemma NullLinePayload(line: string)
    requires line == NULL_LINE
    ensures ClaudePayload(line) == Some("null")
  {
    assert StripCr(line) == line && "data:" <= line && line[5..] == " null";
    assert TrimStart(" null") == TrimStart("null") == "null";
  }

  lemma NullLineThrows(line: string, parse: string -> Parsed<ClaudeEvent>, sidecar: bool)
    requires line == NULL_LINE && parse("null").Null?
    ensures forall s: ClaudeState :: ClaudeLine(parse, sidecar)(s, line) == Throws(s)
  {
    NullLinePayload(line);
  }

  lemma OneLine(t: Tee<ClaudeState>, line: string, handle: (ClaudeState, string) -> Step<ClaudeState>)
    requires t.buffer == "" && NewlineAt(line) == |line|
    ensures Feed(t, line + "\n", handle) == Tee("", handle(t.state, line).state)
  {
    DrainCons(t.state, line, "", handle);
    assert "" + (line + "\n") == line + "\n" + "";
  }

  lemma NullThenRest(t: Tee<ClaudeState>, line: string, rest: string, handle: (ClaudeState, string) -> Step<ClaudeState>)
    requires t.buffer == "" && NewlineAt(line) == |line| && handle(t.state, line) == Throws(t.state)
    ensures Feed(t, line + "\n" + rest, handle) == Tee(rest, t.state)
  {
    DrainCons(t.state, line, rest, handle);
    assert "" + (line + "\n" + rest) == line + "\n" + rest;
  }

  /** An input that shows it: a null payload and then any line with usage. Read in one chunk the usage
      is left in the buffer; read line by line it is counted. The exception escapes the `data` listener
      (lib/proxy/claude.js 984) and nothing catches it there, so what later chunks do is about a host
      that survives an uncaught exception. */
  lemma UsageAfterNullDependsOnChunks(t: Tee<ClaudeState>, first: string, line: string, u: RawUsage,
                                      parse: string -> Parsed<ClaudeEvent>, sidecar: bool)
    requires t.buffer == "" && first == NULL_LINE && parse("null").Null?
    requires NewlineAt(line) == |line| && LineUsage(line, parse) == Some(u)
    ensures var handle := ClaudeLine(parse, sidecar);
            && Feed(t, first + "\n" + (line + "\n"), handle) == Tee(line + "\n", t.state)
            && FeedAll(t, [first + "\n", line + "\n"], handle) == Tee("", MergeUsage(t.state, u))
  {
    var handle := ClaudeLine(parse, sidecar);
    NullLineIsOne(first);
    NullLineThrows(first, parse, sidecar);
    NullThenRest(t, first, line + "\n", handle);
    NullThenRest(t, first, "", handle);
    assert first + "\n" + "" == first + "\n";
    TwoChunks(t, first + "\n", line + "\n", handle);
    OneLine(t, line, handle);
    LineEffect(t.state, line, parse, sidecar);
  }

  // ---------------------------------------------------------------- the Responses tees

  /** The numbers a Responses usage object reports; absent and zero are the same here. */
  datatype RawResponses = RawResponses(totalInput: int, cached: int, output: int)

  function AtLeastZero(n: int): int {
    if n < 0 then 0 else n
  }

  function NormalizeResponses(u: RawResponses): (r: Option<Usage>)
    ensures r.Some? && 0 <= u.cached <= u.totalInput ==> r.value.input + r.value.cacheRead == u.totalInput
  {
    var n := Usage(AtLeastZero(u.totalInput - u.cached), u.output, 0, AtLeastZero(u.cached));
    if n.input + n.output + n.cacheRead > 0 then Some(n) else None
  }

  /** The payload of a line that starts with `data:`. */
  function DataPayload(line: string): Option<string> {
    var l := StripCr(line);
    if !StartsWith(l, "data:") then None
    else
      var payload := Trim(l[5..]);
      if payload == "" || payload == "[DONE]" then None else Some(payload)
  }

  /** One line of the Responses usage tee: the last reported usage wins. */
  function UsageLine(parse: string -> Parsed<RawResponses>): (Option<Usage>, string) -> Step<Option<Usage>> {
    (s: Option<Usage>, line: string) =>
      match DataPayload(line)
      case None => Next(s)
      case Some(payload) =>
        match parse(payload)
        case Event(u) => Next(var n := NormalizeResponses(u); if n.Some? then n else s)
        case _ => Next(s)
  }

  datatype ResponsesEvent =
    | ItemAdded(id: string, kind: string, name: string)
    | OutputTextPiece(text: string)
    | ReasoningPiece(text: string)
    | ToolPiece(itemId: string, text: string, fallbackName: string)
    | Annotation(source: string, itemId: string)
    | Unused

  datatype DeltaState = DeltaState(toolNames: map<string, string>, deltas: seq<Out>)

  function OnResponsesEvent(s: DeltaState, e: ResponsesEvent): DeltaState {
    match e
    case ItemAdded(id, kind, name) =>
      if id == "" then s
      else if kind == "function_call" || kind == "custom_tool_call" then s.(toolNames := s.toolNames[id := if name != "" then name else kind])
      else if kind == "apply_patch_call" || kind == "code_interpreter_call" then s.(toolNames := s.toolNames[id := kind])
      else s
    case OutputTextPiece(text) => s.(deltas := s.deltas + [TextOut(text)])
    case ReasoningPiece(text) => s.(deltas := s.deltas + [ReasoningOut(text)])
    case ToolPiece(itemId, text, fallbackName) =>
      if itemId == "" then s
      else
        var name := if itemId in s.toolNames && s.toolNames[itemId] != "" then s.toolNames[itemId] else fallbackName;
        s.(deltas := s.deltas + [ToolOut(name, text, itemId)])
    case Annotation(source, itemId) => s.(deltas := s.deltas + [SourceOut(source, itemId)])
    case Unused => s
  }

  /** One line of the Responses delta tee; every exception is caught inside the line. */
  function DeltaLine(parse: string -> Parsed<ResponsesEvent>): (DeltaState, string) -> Step<DeltaState> {
    (s: DeltaState, line: string) =>
      match DataPayload(line)
      case None => Next(s)
      case Some(payload) =>
        match parse(payload)
        case Event(e) => Next(OnResponsesEvent(s, e))
        case _ => Next(s)
  }

  /** Both Responses tees reach the state of the unsplit stream under every chunking, because no line
      of theirs lets an exception escape. */
  lemma ResponsesChunking(usage: Tee<Option<Usage>>, delta: Tee<DeltaState>, chunks: seq<string>,
                          parseUsage: string -> Parsed<RawResponses>, parseDelta: string -> Parsed<ResponsesEvent>)
    requires NewlineAt(usage.buffer) == |usage.buffer| && NewlineAt(delta.buffer) == |delta.buffer|
    ensures FeedAll(usage, chunks, UsageLine(parseUsage)) == Feed(usage, Concat(chunks), UsageLine(parseUsage))
    ensures FeedAll(delta, chunks, DeltaLine(parseDelta)) == Feed(delta, Concat(chunks), DeltaLine(parseDelta))
  {
    FeedAnyChunking(usage, chunks, UsageLine(parseUsage));
    FeedAnyChunking(delta, chunks, DeltaLine(parseDelta));
  }
}
