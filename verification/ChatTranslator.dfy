/** The chat-to-Responses stream translator `chatStreamToResponses` (lib/proxy/codex-transform.js).

    One line of a chat-completions stream becomes any number of Responses events. The translator keeps
    one message item and one call item per tool index, opens each with its first piece and closes them
    on a change of kind, a finish reason or the end of the stream. Every operation keeps
    the emitted trace within the contract stated here. */
module ChatTranslator {
  import Text

  datatype Option<+T> = None | Some(value: T)

  // ---------------------------------------------------------------- input

  /** One entry of a chunk's tool_calls; "" stands for an absent id, name or arguments. */
  datatype Fragment = Fragment(index: Option<int>, id: string, name: string, arguments: string)

  datatype Usage = Usage(input: int, output: int, total: int, cached: int)

  datatype Choice = Choice(tools: seq<Fragment>, content: Option<string>, finish: string)

  /** A line as the translator reads it. Noise covers blank lines, lines without `data:`, payloads
      that are not JSON, and chunks whose fields cannot be read. */
  datatype Line = Noise | DoneMark | Chunk(model: string, usage: Option<Usage>, choice: Option<Choice>)

  // ---------------------------------------------------------------- output

  datatype Item = Message(content: seq<string>) | Call(id: string, name: string, arguments: string)

  datatype Event =
    | Created(model: string)
    | ItemAdded(index: nat, item: Item)
    | PartAdded(index: nat)
    | TextDelta(index: nat, text: string)
    | TextDone(index: nat, text: string)
    | PartDone(index: nat, text: string)
    | MessageDone(index: nat, item: Item)
    | ArgumentsDelta(index: nat, arguments: string)
    | ArgumentsDone(index: nat, arguments: string)
    | CallDone(index: nat, item: Item)
    | Completed(output: seq<Item>, usage: Usage)
    | Failed(message: string)

  /** Everything emitted so far, latest last. */
  datatype Trace = Empty | Snoc(before: Trace, last: Event)

  // ---------------------------------------------------------------- state

  datatype Tool = Tool(key: int, id: string, name: string, arguments: string, outputIndex: nat, done: bool)

  datatype State = State(finished: bool, headerSent: bool, textStarted: bool, partStarted: bool, textFinished: bool,
                         text: string, tools: seq<Tool>, items: seq<Item>, usage: Usage, model: string, trace: Trace)

  const INITIAL := State(false, false, false, false, false, "", [], [], Usage(0, 0, 0, 0), "", Empty)

  function Emit(s: State, e: Event): State {
    s.(trace := Snoc(s.trace, e))
  }

  /** Text events always carry output index 0, wherever the message item really is. */
  function EnsureText(s: State): State {
    if s.textFinished then s
    else
      var s1 := if s.textStarted then s
                else Emit(s, ItemAdded(|s.items|, Message([]))).(items := s.items + [Message([])], textStarted := true);
      if s1.partStarted then s1 else Emit(s1, PartAdded(0)).(partStarted := true)
  }

  function FinishText(s: State): State {
    if s.textFinished then s
    else
      var s1 := Emit(Emit(Emit(s, TextDone(0, s.text)), PartDone(0, s.text)), MessageDone(0, Message([s.text])));
      s1.(items := if |s.items| > 0 && s.items[0].Message? then s.items[0 := Message([s.text])] else s.items, textFinished := true)
  }

  function FinishOpenText(s: State): State {
    if s.textStarted then FinishText(s) else s
  }

  /** The position of the tool with this key, or |tools| when it has not been opened. */
  function FindTool(tools: seq<Tool>, key: int): (i: nat)
    ensures i <= |tools|
    ensures i < |tools| ==> tools[i].key == key
    ensures forall j | 0 <= j < i :: tools[j].key != key
  {
    if tools == [] then 0 else if tools[0].key == key then 0 else 1 + FindTool(tools[1..], key)
  }

  function KeyOf(f: Fragment): int {
    if f.index.Some? then f.index.value else 0
  }

  /** The id made up for the k-th call when the provider sends none. */
  function FallbackId(k: nat): string {
    "fc_" + Text.Decimal(k)
  }

  /** Opens the call the fragment belongs to, or completes its missing name. */
  function EnsureTool(s: State, f: Fragment): State {
    var i := FindTool(s.tools, KeyOf(f));
    if i < |s.tools| then
      if f.name != "" && s.tools[i].name == "" then s.(tools := s.tools[i := s.tools[i].(name := f.name)]) else s
    else
      var t := Tool(KeyOf(f), if f.id != "" then f.id else FallbackId(|s.tools|), f.name, "", |s.items|, false);
      Emit(s, ItemAdded(|s.items|, Call(t.id, t.name, ""))).(tools := s.tools + [t], items := s.items + [Call(t.id, t.name, "")])
  }

  function PushFragment(s: State, f: Fragment): State {
    var s1 := EnsureTool(s, f);
    var i := FindTool(s1.tools, KeyOf(f));
    if f.arguments == "" || i == |s1.tools| then s1
    else
      var t := s1.tools[i].(arguments := s1.tools[i].arguments + f.arguments);
      Emit(s1, ArgumentsDelta(t.outputIndex, f.arguments)).(tools := s1.tools[i := t])
  }

  function PushFragments(s: State, fs: seq<Fragment>): State
    decreases |fs|
  {
    if fs == [] then s else PushFragments(PushFragment(s, fs[0]), fs[1..])
  }

  function FinishTool(s: State, i: nat): State
    requires i < |s.tools|
  {
    var t := s.tools[i];
    if t.done then s
    else
      var item := Call(t.id, t.name, t.arguments);
      Emit(Emit(s, ArgumentsDone(t.outputIndex, t.arguments)), CallDone(t.outputIndex, item))
        .(items := if t.outputIndex < |s.items| then s.items[t.outputIndex := item] else s.items,
          tools := s.tools[i := t.(done := true)])
  }

  function FinishToolsFrom(s: State, i: nat): State
    requires i <= |s.tools|
    decreases |s.tools| - i
  {
    if i == |s.tools| then s else FinishToolsFrom(FinishTool(s, i), i + 1)
  }

  function FinishTools(s: State): State {
    FinishToolsFrom(s, 0)
  }

  function PushContent(s: State, content: string): State {
    var s1 := EnsureText(FinishTools(s));
    Emit(s1.(text := s1.text + content), TextDelta(0, content))
  }

  function SendHeader(s: State): State {
    if s.headerSent then s else Emit(s, Created(s.model)).(headerSent := true)
  }

  function PushChoice(s: State, c: Choice): State {
    var s1 := SendHeader(s);
    if c.tools != [] then PushFragments(FinishOpenText(s1), c.tools)
    else if c.content.Some? then PushContent(s1, c.content.value)
    else if c.finish == "stop" || c.finish == "length" then FinishOpenText(FinishTools(s1))
    else s1
  }

  function End(s: State, error: Option<string>): State {
    if s.finished then s
    else if error.Some? then Emit(s, Failed(error.value)).(finished := true)
    else
      var s1 := FinishOpenText(FinishTools(s));
      Emit(s1, Completed(s1.items, s1.usage)).(finished := true)
  }

  function PushLine(s: State, line: Line): State {
    if s.finished then s
    else
      match line
      case Noise => s
      case DoneMark => End(s, None)
      case Chunk(model, usage, choice) =>
        var s1 := s.(model := if model != "" then model else s.model, usage := if usage.Some? then usage.value else s.usage);
        if choice.None? then s1 else PushChoice(s1, choice.value)
  }

  function PushLines(s: State, lines: seq<Line>): State {
    if lines == [] then s else PushLine(PushLines(s, lines[..|lines| - 1]), lines[|lines| - 1])
  }

  // ---------------------------------------------------------------- what a trace says

  function AddedCount(h: Trace): nat {
    match h case Empty => 0 case Snoc(b, e) => AddedCount(b) + if e.ItemAdded? then 1 else 0
  }

  predicate HeaderSent(h: Trace) {
    match h case Empty => false case Snoc(b, e) => e.Created? || HeaderSent(b)
  }

  predicate Terminated(h: Trace) {
    match h case Empty => false case Snoc(b, e) => e.Completed? || e.Failed? || Terminated(b)
  }

  predicate PartOpened(h: Trace) {
    match h case Empty => false case Snoc(b, e) => e.PartAdded? || PartOpened(b)
  }

  /** Where the message item was added. */
  function MessageAt(h: Trace): Option<nat> {
    match h case Empty => None case Snoc(b, e) => if e.ItemAdded? && e.item.Message? then Some(e.index) else MessageAt(b)
  }

  predicate CallAt(h: Trace, k: nat) {
    match h case Empty => false case Snoc(b, e) => (e.ItemAdded? && e.item.Call? && e.index == k) || CallAt(b, k)
  }

  /** The concatenation of the text deltas. */
  function TextOf(h: Trace): string {
    match h case Empty => "" case Snoc(b, e) => if e.TextDelta? then TextOf(b) + e.text else TextOf(b)
  }

  /** The concatenation of the argument deltas of the item at index k. */
  function ArgumentsOf(h: Trace, k: nat): string {
    match h case Empty => "" case Snoc(b, e) => if e.ArgumentsDelta? && e.index == k then ArgumentsOf(b, k) + e.arguments else ArgumentsOf(b, k)
  }

  /** The item with which the message, or the call at index k, was closed. */
  function ClosedMessage(h: Trace): Option<Item> {
    match h case Empty => None case Snoc(b, e) => if e.MessageDone? then Some(e.item) else ClosedMessage(b)
  }

  function ClosedCall(h: Trace, k: nat): Option<Item> {
    match h case Empty => None case Snoc(b, e) => if e.CallDone? && e.index == k then Some(e.item) else ClosedCall(b, k)
  }

  /** Every text event, from opening the part to closing the message, refers to the item at index m. */
  predicate TextPointsAt(h: Trace, m: nat) {
    match h
    case Empty => true
    case Snoc(b, e) =>
      TextPointsAt(b, m) && ((e.PartAdded? || e.TextDelta? || e.TextDone? || e.PartDone? || e.MessageDone?) ==> e.index == m)
  }

  /** The completed output lists every item as it was closed, except that a message keeps its text
      only when it is the first item. */
  ghost predicate OutputMatches(h: Trace, output: seq<Item>) {
    && |output| == AddedCount(h)
    && (forall k | 0 <= k < |output| && CallAt(h, k) :: ClosedCall(h, k) == Some(output[k]))
    && (MessageAt(h).Some? ==>
          && ClosedMessage(h).Some? && MessageAt(h).value < |output|
          && output[MessageAt(h).value] == if MessageAt(h) == Some(0) then ClosedMessage(h).value else Message([]))
  }

  /** What may be emitted after the history `h`. */
  ghost predicate Allowed(h: Trace, e: Event) {
    !Terminated(h) &&
    match e
    case Created(_) => h == Empty
    case ItemAdded(k, item) => HeaderSent(h) && k == AddedCount(h) && (item.Message? ==> MessageAt(h).None?)
    case PartAdded(k) => k == 0 && MessageAt(h).Some? && ClosedMessage(h).None? && !PartOpened(h)
    case TextDelta(k, _) => k == 0 && MessageAt(h).Some? && PartOpened(h)
    case TextDone(k, text) => k == 0 && MessageAt(h).Some? && PartOpened(h) && ClosedMessage(h).None? && text == TextOf(h)
    case PartDone(k, text) => k == 0 && ClosedMessage(h).None? && h.Snoc? && h.last == TextDone(0, TextOf(h)) && text == TextOf(h)
    case MessageDone(k, item) => k == 0 && ClosedMessage(h).None? && h.Snoc? && h.last == PartDone(0, TextOf(h)) && item == Message([TextOf(h)])
    case ArgumentsDelta(k, _) => CallAt(h, k)
    case ArgumentsDone(k, arguments) => CallAt(h, k) && ClosedCall(h, k).None? && arguments == ArgumentsOf(h, k)
    case CallDone(k, item) => CallAt(h, k) && ClosedCall(h, k).None? && item.Call? && item.arguments == ArgumentsOf(h, k)
                           && h.Snoc? && h.last == ArgumentsDone(k, item.arguments)
    case Completed(output, _) => OutputMatches(h, output)
    case Failed(_) => true
  }

  /** The Responses stream contract: every event was allowed when it was emitted. */
  ghost predicate WellFormed(h: Trace) {
    match h case Empty => true case Snoc(b, e) => WellFormed(b) && Allowed(b, e)
  }

  // ---------------------------------------------------------------- the invariant

  ghost predicate ToolMatches(t: Tool, h: Trace, items: seq<Item>) {
    && t.outputIndex < |items| && CallAt(h, t.outputIndex) && items[t.outputIndex].Call?
    && t.arguments == ArgumentsOf(h, t.outputIndex)
    && ClosedCall(h, t.outputIndex) == if t.done then Some(items[t.outputIndex]) else None
  }

  ghost predicate ToolsMatch(s: State) {
    && (forall i | 0 <= i < |s.tools| :: ToolMatches(s.tools[i], s.trace, s.items))
    && (forall i, j | 0 <= i < j < |s.tools| :: s.tools[i].outputIndex != s.tools[j].outputIndex)
    && (forall k | CallAt(s.trace, k) :: Placed(s.tools, k))
  }

  predicate Placed(tools: seq<Tool>, k: nat) {
    exists i | 0 <= i < |tools| :: tools[i].outputIndex == k
  }

  ghost predicate TextMatches(s: State) {
    && s.textStarted == MessageAt(s.trace).Some? && s.textFinished == ClosedMessage(s.trace).Some?
    && ((s.textFinished || s.partStarted) ==> s.textStarted)
    && s.text == TextOf(s.trace)
    && (forall k | 0 <= k < |s.items| && s.items[k].Message? :: MessageAt(s.trace) == Some(k))
    && (MessageAt(s.trace).Some? ==>
          var m := MessageAt(s.trace).value;
          m < |s.items| && s.items[m].Message? && s.items[m] == if m == 0 && s.textFinished then ClosedMessage(s.trace).value else Message([]))
  }

  /** The translator's variables agree with the trace it has emitted, and that trace is well formed. */
  ghost predicate Valid(s: State) {
    Agrees(s) && s.partStarted == s.textStarted
  }

  ghost predicate Agrees(s: State) {
    && WellFormed(s.trace) && s.partStarted == PartOpened(s.trace)
    && s.headerSent == HeaderSent(s.trace) && (s.headerSent || s.finished || s.trace == Empty)
    && s.finished == Terminated(s.trace)
    && |s.items| == AddedCount(s.trace)
    && ToolsMatch(s) && TextMatches(s)
  }

  /** An event that opens, closes and carries nothing changes none of what is tracked. */
  lemma EmitQuiet(s: State, e: Event)
    requires Valid(s) && Allowed(s.trace, e) && (e.TextDone? || e.PartDone? || e.ArgumentsDone?)
    ensures Valid(Emit(s, e))
    ensures TextOf(Emit(s, e).trace) == TextOf(s.trace) && MessageAt(Emit(s, e).trace) == MessageAt(s.trace)
    ensures ClosedMessage(Emit(s, e).trace) == ClosedMessage(s.trace)
    ensures forall k :: CallAt(Emit(s, e).trace, k) == CallAt(s.trace, k) && ClosedCall(Emit(s, e).trace, k) == ClosedCall(s.trace, k)
    ensures forall k :: ArgumentsOf(Emit(s, e).trace, k) == ArgumentsOf(s.trace, k)
  {
  }

  lemma AddMessage(s: State)
    requires Valid(s) && !s.finished && s.headerSent && !s.textStarted
    ensures Agrees(Emit(s, ItemAdded(|s.items|, Message([]))).(items := s.items + [Message([])], textStarted := true))
  {
  }

  lemma AddPart(s: State)
    requires Agrees(s) && !s.finished && s.textStarted && !s.textFinished && !s.partStarted
    ensures Valid(Emit(s, PartAdded(0)).(partStarted := true))
  {
  }

  lemma EnsureTextKeeps(s: State)
    requires Valid(s) && !s.finished && s.headerSent
    ensures Valid(EnsureText(s)) && EnsureText(s).textStarted && !EnsureText(s).finished && EnsureText(s).headerSent
  {
    if !s.textFinished && !s.textStarted {
      AddMessage(s);
      AddPart(Emit(s, ItemAdded(|s.items|, Message([]))).(items := s.items + [Message([])], textStarted := true));
    }
  }

  lemma CloseMessageKeeps(s: State)
    requires Valid(s) && !s.finished && s.textStarted && !s.textFinished && s.trace.Snoc? && s.trace.last == PartDone(0, s.text)
    ensures var items := if |s.items| > 0 && s.items[0].Message? then s.items[0 := Message([s.text])] else s.items;
            Valid(Emit(s, MessageDone(0, Message([s.text]))).(items := items, textFinished := true))
  {
    var items := if |s.items| > 0 && s.items[0].Message? then s.items[0 := Message([s.text])] else s.items;
    var r := Emit(s, MessageDone(0, Message([s.text]))).(items := items, textFinished := true);
    forall i | 0 <= i < |r.tools| ensures ToolMatches(r.tools[i], r.trace, r.items) {
      assert ToolMatches(s.tools[i], s.trace, s.items);
    }
    forall k | CallAt(r.trace, k) ensures Placed(r.tools, k) {
      assert Placed(s.tools, k);
    }
  }

  lemma FinishTextKeeps(s: State)
    requires Valid(s) && !s.finished && s.textStarted
    ensures Valid(FinishText(s)) && FinishText(s).textFinished && !FinishText(s).finished
    ensures FinishText(s).tools == s.tools && FinishText(s).headerSent == s.headerSent
  {
    if !s.textFinished {
      EmitQuiet(s, TextDone(0, s.text));
      var s1 := Emit(s, TextDone(0, s.text));
      EmitQuiet(s1, PartDone(0, s.text));
      CloseMessageKeeps(Emit(s1, PartDone(0, s.text)));
    }
  }

  lemma {:induction false} FindAppended(tools: seq<Tool>, t: Tool)
    requires FindTool(tools, t.key) == |tools|
    ensures FindTool(tools + [t], t.key) == |tools|
  {
    var i := FindTool(tools + [t], t.key);
    assert (tools + [t])[|tools|].key == t.key;
  }

  /** Events about calls leave the message bookkeeping alone. */
  lemma CallEventKeepsText(s: State, e: Event, items: seq<Item>)
    requires TextMatches(s)
    requires (e.ItemAdded? && e.item.Call?) || e.ArgumentsDelta? || e.ArgumentsDone? || e.CallDone?
    requires |items| >= |s.items| && forall k | 0 <= k < |items| :: (items[k].Message? || (k < |s.items| && s.items[k].Message?)) ==> k < |s.items| && items[k] == s.items[k]
    ensures TextMatches(Emit(s, e).(items := items))
  {
  }

  lemma OpenToolKeeps(s: State, t: Tool)
    requires Valid(s) && !s.finished && s.headerSent
    requires t.outputIndex == |s.items| && t.arguments == "" && !t.done
    ensures var item := Call(t.id, t.name, "");
            Valid(Emit(s, ItemAdded(|s.items|, item)).(tools := s.tools + [t], items := s.items + [item]))
  {
    var item := Call(t.id, t.name, "");
    var r := Emit(s, ItemAdded(|s.items|, item)).(tools := s.tools + [t], items := s.items + [item]);
    AddedBounds(s.trace);
    CallEventKeepsText(s, ItemAdded(|s.items|, item), r.items);
    forall k | CallAt(r.trace, k) ensures Placed(r.tools, k) {
      if k == |s.items| {
        assert r.tools[|s.tools|].outputIndex == k;
      } else {
        assert Placed(s.tools, k);
        var j :| 0 <= j < |s.tools| && s.tools[j].outputIndex == k;
        assert r.tools[j].outputIndex == k;
      }
    }
    forall i | 0 <= i < |r.tools| ensures ToolMatches(r.tools[i], r.trace, r.items) {
      if i < |s.tools| {
        assert ToolMatches(s.tools[i], s.trace, s.items);
      }
    }
  }

  /** Changing one tool in place, with its item and the event that says so. */
  lemma UpdateToolKeeps(s: State, i: nat, t: Tool, e: Event, items: seq<Item>)
    requires Valid(s) && !s.finished && i < |s.tools| && t.outputIndex == s.tools[i].outputIndex
    requires Allowed(s.trace, e)
    requires (e.ArgumentsDelta? || e.CallDone?) && e.index == t.outputIndex
    requires |items| == |s.items| && (forall k | 0 <= k < |items| && k != t.outputIndex :: items[k] == s.items[k])
    requires items[t.outputIndex].Call? && ToolMatches(t, Snoc(s.trace, e), items)
    ensures Valid(Emit(s, e).(tools := s.tools[i := t], items := items))
  {
    var r := Emit(s, e).(tools := s.tools[i := t], items := items);
    assert ToolMatches(s.tools[i], s.trace, s.items);
    CallEventKeepsText(s, e, items);
    forall k | CallAt(r.trace, k) ensures Placed(r.tools, k) {
      assert Placed(s.tools, k);
      var j :| 0 <= j < |s.tools| && s.tools[j].outputIndex == k;
      assert r.tools[j].outputIndex == k;
    }
    forall j | 0 <= j < |r.tools| ensures ToolMatches(r.tools[j], r.trace, r.items) {
      if j != i {
        assert ToolMatches(s.tools[j], s.trace, s.items);
      }
    }
  }

  lemma RenameToolKeeps(s: State, i: nat, name: string)
    requires Valid(s) && i < |s.tools|
    ensures Valid(s.(tools := s.tools[i := s.tools[i].(name := name)]))
  {
    var r := s.(tools := s.tools[i := s.tools[i].(name := name)]);
    forall k | CallAt(r.trace, k) ensures Placed(r.tools, k) {
      assert Placed(s.tools, k);
      var j :| 0 <= j < |s.tools| && s.tools[j].outputIndex == k;
      assert r.tools[j].outputIndex == k;
    }
    forall j | 0 <= j < |r.tools| ensures ToolMatches(r.tools[j], r.trace, r.items) {
      assert ToolMatches(s.tools[j], s.trace, s.items);
    }
  }

  lemma EnsureToolKeeps(s: State, f: Fragment)
    requires Valid(s) && !s.finished && s.headerSent
    ensures var r := EnsureTool(s, f);
            && Valid(r) && !r.finished && r.headerSent && FindTool(r.tools, KeyOf(f)) < |r.tools|
  {
    var i := FindTool(s.tools, KeyOf(f));
    var r := EnsureTool(s, f);
    if i < |s.tools| {
      SameKeys(s.tools, r.tools, KeyOf(f));
      RenameToolKeeps(s, i, f.name);
    } else {
      OpenToolKeeps(s, r.tools[|s.tools|]);
      FindAppended(s.tools, r.tools[|s.tools|]);
    }
  }

  /** No item is referred to before it is added. */
  lemma {:induction false} AddedBounds(h: Trace)
    requires WellFormed(h)
    ensures forall k | k >= AddedCount(h) :: !CallAt(h, k) && ClosedCall(h, k).None? && ArgumentsOf(h, k) == ""
  {
    if h.Snoc? {
      AddedBounds(h.before);
    }
  }

  lemma {:induction false} SameKeys(a: seq<Tool>, b: seq<Tool>, key: int)
    requires |a| == |b| && forall i | 0 <= i < |a| :: a[i].key == b[i].key
    ensures FindTool(a, key) == FindTool(b, key)
    decreases |a|
  {
    if a != [] && a[0].key != key {
      SameKeys(a[1..], b[1..], key);
    }
  }

  lemma PushFragmentKeeps(s: State, f: Fragment)
    requires Valid(s) && !s.finished && s.headerSent
    ensures var r := PushFragment(s, f); Valid(r) && !r.finished && r.headerSent
  {
    EnsureToolKeeps(s, f);
    var s1 := EnsureTool(s, f);
    var i := FindTool(s1.tools, KeyOf(f));
    if f.arguments != "" {
      var t := s1.tools[i].(arguments := s1.tools[i].arguments + f.arguments);
      assert ToolMatches(s1.tools[i], s1.trace, s1.items);
      UpdateToolKeeps(s1, i, t, ArgumentsDelta(t.outputIndex, f.arguments), s1.items);
    }
  }

  lemma {:induction false} PushFragmentsKeep(s: State, fs: seq<Fragment>)
    requires Valid(s) && !s.finished && s.headerSent
    ensures var r := PushFragments(s, fs); Valid(r) && !r.finished && r.headerSent
    decreases |fs|
  {
    if fs != [] {
      PushFragmentKeeps(s, fs[0]);
      PushFragmentsKeep(PushFragment(s, fs[0]), fs[1..]);
    }
  }

  lemma FinishToolKeeps(s: State, i: nat)
    requires Valid(s) && !s.finished && i < |s.tools|
    ensures var r := FinishTool(s, i);
            && Valid(r) && !r.finished && r.headerSent == s.headerSent && |r.tools| == |s.tools| && r.tools[i].done
            && (forall j | 0 <= j < |s.tools| && j != i :: r.tools[j] == s.tools[j])
            && r.textStarted == s.textStarted && r.textFinished == s.textFinished
  {
    var t := s.tools[i];
    assert ToolMatches(t, s.trace, s.items);
    if !t.done {
      EmitQuiet(s, ArgumentsDone(t.outputIndex, t.arguments));
      var s1 := Emit(s, ArgumentsDone(t.outputIndex, t.arguments));
      var item := Call(t.id, t.name, t.arguments);
      UpdateToolKeeps(s1, i, t.(done := true), CallDone(t.outputIndex, item), s1.items[t.outputIndex := item]);
    }
  }

  lemma {:induction false} FinishToolsKeep(s: State, i: nat)
    requires Valid(s) && !s.finished && i <= |s.tools|
    requires forall j | 0 <= j < i :: s.tools[j].done
    ensures var r := FinishToolsFrom(s, i);
            && Valid(r) && !r.finished && r.headerSent == s.headerSent && (forall j | 0 <= j < |r.tools| :: r.tools[j].done)
            && r.textStarted == s.textStarted && r.textFinished == s.textFinished
    decreases |s.tools| - i
  {
    if i < |s.tools| {
      FinishToolKeeps(s, i);
      FinishToolsKeep(FinishTool(s, i), i + 1);
    }
  }

  lemma ClosedOutputMatches(s: State)
    requires Valid(s) && (s.textStarted ==> s.textFinished)
    requires forall j | 0 <= j < |s.tools| :: s.tools[j].done
    ensures OutputMatches(s.trace, s.items)
  {
    forall k | 0 <= k < |s.items| && CallAt(s.trace, k) ensures ClosedCall(s.trace, k) == Some(s.items[k]) {
      assert Placed(s.tools, k);
      var j :| 0 <= j < |s.tools| && s.tools[j].outputIndex == k;
      assert ToolMatches(s.tools[j], s.trace, s.items);
    }
  }

  lemma FinishOpenTextKeeps(s: State)
    requires Valid(s) && !s.finished
    ensures var r := FinishOpenText(s);
            && Valid(r) && !r.finished && r.headerSent == s.headerSent && r.tools == s.tools
            && (r.textStarted ==> r.textFinished)
  {
    if s.textStarted {
      FinishTextKeeps(s);
    }
  }

  lemma CloseAll(s: State)
    requires Valid(s) && !s.finished
    ensures var r := FinishOpenText(FinishTools(s));
            && Valid(r) && !r.finished && r.headerSent == s.headerSent && OutputMatches(r.trace, r.items)
  {
    FinishToolsKeep(s, 0);
    FinishOpenTextKeeps(FinishTools(s));
    ClosedOutputMatches(FinishOpenText(FinishTools(s)));
  }

  lemma EndKeeps(s: State, error: Option<string>)
    requires Valid(s)
    ensures Valid(End(s, error)) && End(s, error).finished
  {
    if !s.finished && error.None? {
      CloseAll(s);
    }
  }

  lemma PushContentKeeps(s: State, content: string)
    requires Valid(s) && !s.finished && s.headerSent
    ensures Valid(PushContent(s, content))
  {
    FinishToolsKeep(s, 0);
    EnsureTextKeeps(FinishTools(s));
    TextDeltaKeeps(EnsureText(FinishTools(s)), content);
  }

  lemma TextDeltaKeeps(s: State, content: string)
    requires Valid(s) && !s.finished && s.textStarted
    ensures Valid(Emit(s.(text := s.text + content), TextDelta(0, content)))
  {
  }

  lemma SendHeaderKeeps(s: State)
    requires Valid(s) && !s.finished
    ensures Valid(SendHeader(s)) && !SendHeader(s).finished && SendHeader(s).headerSent
  {
  }

  lemma PushChoiceKeeps(s: State, c: Choice)
    requires Valid(s) && !s.finished
    ensures Valid(PushChoice(s, c))
  {
    SendHeaderKeeps(s);
    var s1 := SendHeader(s);
    if c.tools != [] {
      FinishOpenTextKeeps(s1);
      PushFragmentsKeep(FinishOpenText(s1), c.tools);
    } else if c.content.Some? {
      PushContentKeeps(s1, c.content.value);
    } else if c.finish == "stop" || c.finish == "length" {
      CloseAll(s1);
    }
  }

  lemma PushLineKeeps(s: State, line: Line)
    requires Valid(s)
    ensures Valid(PushLine(s, line))
  {
    if !s.finished {
      match line
      case Noise =>
      case DoneMark => EndKeeps(s, None);
      case Chunk(model, usage, choice) =>
        var s1 := s.(model := if model != "" then model else s.model, usage := if usage.Some? then usage.value else s.usage);
        assert Valid(s1);
        if choice.Some? {
          PushChoiceKeeps(s1, choice.value);
        }
    }
  }

  lemma {:induction false} PushLinesKeep(lines: seq<Line>)
    ensures Valid(PushLines(INITIAL, lines))
    decreases |lines|
  {
    if lines != [] {
      PushLinesKeep(lines[..|lines| - 1]);
      PushLineKeeps(PushLines(INITIAL, lines[..|lines| - 1]), lines[|lines| - 1]);
    }
  }
}
