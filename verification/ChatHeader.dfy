/** When `response.created` is sent and which model it names
    (lib/proxy/codex-transform.js 304-334). */
module ChatHeader {
  import opened ChatTranslator

  /** The model in the `response.created` of a trace. */
  function HeaderModel(h: Trace): Option<string> {
    match h
    case Empty => None
    case Snoc(b, e) => if e.Created? then Some(e.model) else HeaderModel(b)
  }

  /** The last model these lines name, or "". */
  function LastModel(lines: seq<Line>): string {
    if lines == [] then ""
    else
      var last := lines[|lines| - 1];
      if last.Chunk? && last.model != "" then last.model else LastModel(lines[..|lines| - 1])
  }

  // ---------------------------------------------------------------- one line

  /** The operations between the header and the next line. */
  predicate LeavesHeader(s: State, r: State) {
    HeaderModel(r.trace) == HeaderModel(s.trace) && r.model == s.model && r.finished == s.finished && r.headerSent == s.headerSent
  }

  lemma FragmentLeavesHeader(s: State, f: Fragment)
    ensures LeavesHeader(s, PushFragment(s, f))
  {
    var s1 := EnsureTool(s, f);
    EnsureLeavesHeader(s, f);
    var i := FindTool(s1.tools, KeyOf(f));
    if f.arguments != "" && i < |s1.tools| {
      DeltaLeavesHeader(s1, ArgumentsDelta(s1.tools[i].outputIndex, f.arguments), PushFragment(s, f).tools);
    }
  }

  lemma DeltaLeavesHeader(s: State, e: Event, tools: seq<Tool>)
    requires !e.Created?
    ensures LeavesHeader(s, Emit(s, e).(tools := tools))
  {
  }

  lemma EnsureLeavesHeader(s: State, f: Fragment)
    ensures LeavesHeader(s, EnsureTool(s, f))
  {
  }

  lemma {:induction false} FragmentsLeaveHeader(s: State, fs: seq<Fragment>)
    ensures LeavesHeader(s, PushFragments(s, fs))
    decreases |fs|
  {
    if fs != [] {
      FragmentLeavesHeader(s, fs[0]);
      FragmentsLeaveHeader(PushFragment(s, fs[0]), fs[1..]);
    }
  }

  lemma {:induction false} FinishLeavesHeader(s: State, i: nat)
    requires i <= |s.tools|
    ensures LeavesHeader(s, FinishToolsFrom(s, i))
    decreases |s.tools| - i
  {
    if i < |s.tools| {
      assert LeavesHeader(s, FinishTool(s, i));
      FinishLeavesHeader(FinishTool(s, i), i + 1);
    }
  }

  lemma DoneLeavesHeader(s: State)
    ensures LeavesHeader(s, FinishOpenText(s))
  {
    var s1 := Emit(s, TextDone(0, s.text));
    var s2 := Emit(s1, PartDone(0, s.text));
    assert LeavesHeader(s, s1) && LeavesHeader(s1, s2);
  }

  lemma TextLeavesHeader(s: State, content: string)
    ensures LeavesHeader(s, EnsureText(s)) && LeavesHeader(s, Emit(s.(text := s.text + content), TextDelta(0, content)))
  {
    var s1 := Emit(s, ItemAdded(|s.items|, Message([])));
    assert LeavesHeader(s, s1);
  }

  lemma ContentLeavesHeader(s: State, content: string)
    ensures LeavesHeader(s, PushContent(s, content))
  {
    FinishLeavesHeader(s, 0);
    TextLeavesHeader(FinishTools(s), content);
    TextLeavesHeader(EnsureText(FinishTools(s)), content);
  }

  lemma ChoiceSendsHeader(s: State, c: Choice)
    ensures LeavesHeader(SendHeader(s), PushChoice(s, c))
  {
    var s1 := SendHeader(s);
    if c.tools != [] {
      DoneLeavesHeader(s1);
      FragmentsLeaveHeader(FinishOpenText(s1), c.tools);
    } else if c.content.Some? {
      ContentLeavesHeader(s1, c.content.value);
    } else {
      FinishLeavesHeader(s1, 0);
      DoneLeavesHeader(FinishTools(s1));
    }
  }

  lemma EndLeavesHeader(s: State)
    ensures HeaderModel(End(s, None).trace) == HeaderModel(s.trace) && End(s, None).headerSent == s.headerSent
  {
    FinishLeavesHeader(s, 0);
    DoneLeavesHeader(FinishTools(s));
  }

  // ---------------------------------------------------------------- all lines

  predicate HasEndMark(lines: seq<Line>) {
    lines != [] && (HasEndMark(lines[..|lines| - 1]) || lines[|lines| - 1].DoneMark?)
  }

  /** The model of the header these lines ask for. */
  function HeaderFor(lines: seq<Line>): Option<string> {
    if lines == [] then None
    else
      var init, last := lines[..|lines| - 1], lines[|lines| - 1];
      if HeaderFor(init).Some? || HasEndMark(init) || !last.Chunk? || last.choice.None? then HeaderFor(init) else Some(LastModel(lines))
  }

  predicate HeaderFits(s: State, lines: seq<Line>) {
    && s.finished == HasEndMark(lines) && (!s.finished ==> s.model == LastModel(lines))
    && s.headerSent == HeaderModel(s.trace).Some? && HeaderModel(s.trace) == HeaderFor(lines)
  }

  /** The state once a chunk's model has been read. */
  function Named(s: State, line: Line): State
    requires line.Chunk?
  {
    s.(model := if line.model != "" then line.model else s.model, usage := if line.usage.Some? then line.usage.value else s.usage)
  }

  lemma ChoiceFits(s: State, r: State, lines: seq<Line>)
    requires lines != [] && HeaderFits(s, lines[..|lines| - 1]) && !s.finished
    requires lines[|lines| - 1].Chunk? && lines[|lines| - 1].choice.Some?
    requires LeavesHeader(SendHeader(Named(s, lines[|lines| - 1])), r)
    ensures HeaderFits(r, lines)
  {
  }

  lemma ChunkFits(s: State, lines: seq<Line>)
    requires lines != [] && HeaderFits(s, lines[..|lines| - 1]) && lines[|lines| - 1].Chunk? && !s.finished
    ensures HeaderFits(PushLine(s, lines[|lines| - 1]), lines)
  {
    var line := lines[|lines| - 1];
    if line.choice.Some? {
      ChoiceSendsHeader(Named(s, line), line.choice.value);
      ChoiceFits(s, PushLine(s, line), lines);
    }
  }

  lemma LineFits(s: State, lines: seq<Line>)
    requires lines != [] && HeaderFits(s, lines[..|lines| - 1])
    ensures HeaderFits(PushLine(s, lines[|lines| - 1]), lines)
  {
    if lines[|lines| - 1].DoneMark? {
      EndLeavesHeader(s);
    } else if lines[|lines| - 1].Chunk? && !s.finished {
      ChunkFits(s, lines);
    }
  }

  lemma {:induction false} LinesFit(lines: seq<Line>)
    ensures HeaderFits(PushLines(INITIAL, lines), lines)
    decreases |lines|
  {
    if lines != [] {
      LinesFit(lines[..|lines| - 1]);
      LineFits(PushLines(INITIAL, lines[..|lines| - 1]), lines);
    }
  }

  lemma {:induction false} EndMarkIs(lines: seq<Line>)
    ensures HasEndMark(lines) <==> exists i | 0 <= i < |lines| :: lines[i].DoneMark?
    decreases |lines|
  {
    if lines != [] {
      var init := lines[..|lines| - 1];
      EndMarkIs(init);
      assert forall i | 0 <= i < |init| :: init[i] == lines[i];
    }
  }

  /** The first line with a choice opens the stream, unless the end mark came before it. */
  predicate Opens(lines: seq<Line>, n: nat) {
    && n < |lines| && lines[n].Chunk? && lines[n].choice.Some?
    && forall i | 0 <= i < n :: !lines[i].DoneMark? && (lines[i].Chunk? ==> lines[i].choice.None?)
  }

  lemma {:induction false} NoHeaderBefore(lines: seq<Line>)
    requires forall i | 0 <= i < |lines| :: lines[i].Chunk? ==> lines[i].choice.None?
    ensures HeaderFor(lines) == None
    decreases |lines|
  {
    if lines != [] {
      NoHeaderBefore(lines[..|lines| - 1]);
    }
  }

  lemma {:induction false} HeaderWhereOpened(lines: seq<Line>, n: nat)
    requires Opens(lines, n)
    ensures HeaderFor(lines) == Some(LastModel(lines[..n + 1]))
    decreases |lines|
  {
    var init := lines[..|lines| - 1];
    if n == |init| {
      NoHeaderBefore(init);
      EndMarkIs(init);
      assert lines[..n + 1] == lines;
    } else {
      HeaderWhereOpened(init, n);
      assert init[..n + 1] == lines[..n + 1];
    }
  }

  lemma {:induction false} OpenedIfHeader(lines: seq<Line>) returns (n: nat)
    requires HeaderFor(lines).Some?
    ensures Opens(lines, n)
    decreases |lines|
  {
    var init := lines[..|lines| - 1];
    if HeaderFor(init).Some? {
      n := OpenedIfHeader(init);
    } else {
      n := |init|;
      EndMarkIs(init);
      forall i | 0 <= i < n && lines[i].Chunk? ensures lines[i].choice.None? {
        if lines[i].choice.Some? {
          var k := FirstOpening(init, i);
          HeaderWhereOpened(init, k);
        }
      }
    }
  }

  lemma FirstOpening(lines: seq<Line>, i: nat) returns (n: nat)
    requires i < |lines| && lines[i].Chunk? && lines[i].choice.Some? && !HasEndMark(lines)
    ensures Opens(lines, n)
  {
    EndMarkIs(lines);
    n := 0;
    while !(lines[n].Chunk? && lines[n].choice.Some?)
      invariant n <= i
      invariant forall j | 0 <= j < n :: lines[j].Chunk? ==> lines[j].choice.None?
      decreases i - n
    {
      n := n + 1;
    }
  }

  /** The header is sent for the first line that has a choice, before the end mark, and names the model
      last named by then; no other line sends it. */
  lemma HeaderNamesModel(lines: seq<Line>)
    ensures var h := PushLines(INITIAL, lines).trace;
            && (HeaderModel(h).Some? <==> exists n: nat :: Opens(lines, n))
            && (forall n: nat | Opens(lines, n) :: HeaderModel(h) == Some(LastModel(lines[..n + 1])))
  {
    LinesFit(lines);
    if HeaderFor(lines).Some? {
      var n := OpenedIfHeader(lines);
    }
    forall n: nat | Opens(lines, n) ensures HeaderFor(lines) == Some(LastModel(lines[..n + 1])) {
      HeaderWhereOpened(lines, n);
    }
  }
}
