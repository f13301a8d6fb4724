/** What a finished chat stream leaves in `response.completed`
    (lib/proxy/codex-transform.js 226-283, 336-403, 406-431). */
module ChatOutput {
  import opened ChatTranslator

  // ---------------------------------------------------------------- reference definition

  /** The lines of an ordered stream are text, then tool calls, then a stop. */
  datatype Stage = Talking | Calling | Stopped | Disordered

  function NextStage(st: Stage, line: Line): Stage {
    match line
    case Noise => st
    case DoneMark => Disordered
    case Chunk(_, _, None) => st
    case Chunk(_, _, Some(c)) =>
      if c.tools != [] then (if st.Talking? || st.Calling? then Calling else Disordered)
      else if c.content.Some? then (if st.Talking? then Talking else Disordered)
      else if (c.finish == "stop" || c.finish == "length") && !st.Disordered? then Stopped
      else st
  }

  function StageOf(lines: seq<Line>): Stage {
    if lines == [] then Talking else NextStage(StageOf(lines[..|lines| - 1]), lines[|lines| - 1])
  }

  /** The tool-call fragments a line carries; a line with fragments has its text ignored. */
  function FragmentsOf(line: Line): seq<Fragment> {
    if line.Chunk? && line.choice.Some? then line.choice.value.tools else []
  }

  function TextIn(line: Line): Option<string> {
    if line.Chunk? && line.choice.Some? && line.choice.value.tools == [] then line.choice.value.content else None
  }

  function Fragments(lines: seq<Line>): seq<Fragment> {
    if lines == [] then [] else Fragments(lines[..|lines| - 1]) + FragmentsOf(lines[|lines| - 1])
  }

  predicate HasText(lines: seq<Line>) {
    exists i | 0 <= i < |lines| :: TextIn(lines[i]).Some?
  }

  function Text(lines: seq<Line>): string {
    if lines == [] then ""
    else Text(lines[..|lines| - 1]) + (if TextIn(lines[|lines| - 1]).Some? then TextIn(lines[|lines| - 1]).value else "")
  }

  function LastUsage(lines: seq<Line>): Usage {
    if lines == [] then Usage(0, 0, 0, 0)
    else
      var last := lines[|lines| - 1];
      if last.Chunk? && last.usage.Some? then last.usage.value else LastUsage(lines[..|lines| - 1])
  }

  /** The keys of the fragments in first-seen order. */
  function Keys(fs: seq<Fragment>): seq<int> {
    if fs == [] then []
    else
      var before := Keys(fs[..|fs| - 1]);
      if KeyOf(fs[|fs| - 1]) in before then before else before + [KeyOf(fs[|fs| - 1])]
  }

  function ArgumentsFor(fs: seq<Fragment>, key: int): string {
    if fs == [] then ""
    else ArgumentsFor(fs[..|fs| - 1], key) + (if KeyOf(fs[|fs| - 1]) == key then fs[|fs| - 1].arguments else "")
  }

  /** The first name that is not empty. */
  function NameFor(fs: seq<Fragment>, key: int): string {
    if fs == [] then ""
    else
      var before := NameFor(fs[..|fs| - 1], key);
      if before == "" && KeyOf(fs[|fs| - 1]) == key then fs[|fs| - 1].name else before
  }

  /** The id on the first fragment with this key. */
  function IdFor(fs: seq<Fragment>, key: int): string
    decreases |fs|
  {
    if fs == [] then "" else if KeyOf(fs[0]) == key then fs[0].id else IdFor(fs[1..], key)
  }

  function CallFor(fs: seq<Fragment>, k: nat): Item
    requires k < |Keys(fs)|
  {
    var key := Keys(fs)[k];
    Call(if IdFor(fs, key) != "" then IdFor(fs, key) else FallbackId(k), NameFor(fs, key), ArgumentsFor(fs, key))
  }

  function Calls(fs: seq<Fragment>): seq<Item> {
    seq(|Keys(fs)|, k requires 0 <= k < |Keys(fs)| => CallFor(fs, k))
  }

  function Output(lines: seq<Line>): seq<Item> {
    (if HasText(lines) then [Message([Text(lines)])] else []) + Calls(Fragments(lines))
  }

  // ---------------------------------------------------------------- one fragment

  ghost predicate ToolIs(t: Tool, fs: seq<Fragment>, k: nat, base: nat) {
    && k < |Keys(fs)| && t.key == Keys(fs)[k] && t.outputIndex == base + k && !t.done
    && Call(t.id, t.name, t.arguments) == CallFor(fs, k)
  }

  /** The open calls are exactly those the fragments `fs` describe, placed from `base` on. */
  ghost predicate ToolsAre(s: State, fs: seq<Fragment>, base: nat) {
    && |s.tools| == |Keys(fs)| && |s.items| == base + |s.tools|
    && forall k | 0 <= k < |s.tools| :: ToolIs(s.tools[k], fs, k, base)
  }

  lemma {:induction false} IdForAppend(fs: seq<Fragment>, f: Fragment, key: int)
    ensures key in Keys(fs) ==> IdFor(fs + [f], key) == IdFor(fs, key)
    ensures key !in Keys(fs) ==> IdFor(fs + [f], key) == if KeyOf(f) == key then f.id else ""
    decreases |fs|
  {
    KeysHold(fs, key);
    if fs != [] {
      assert (fs + [f])[1..] == fs[1..] + [f];
      IdForAppend(fs[1..], f, key);
      KeysHold(fs[1..], key);
      if KeyOf(fs[0]) != key && (exists i | 0 <= i < |fs| :: KeyOf(fs[i]) == key) {
        var i :| 0 <= i < |fs| && KeyOf(fs[i]) == key;
        assert fs[1..][i - 1] == fs[i];
      }
    }
  }

  lemma {:induction false} KeysHold(fs: seq<Fragment>, key: int)
    ensures key in Keys(fs) <==> exists i | 0 <= i < |fs| :: KeyOf(fs[i]) == key
    decreases |fs|
  {
    if fs != [] {
      var n := |fs| - 1;
      KeysHold(fs[..n], key);
      if key in Keys(fs) && KeyOf(fs[n]) != key {
        var i :| 0 <= i < n && KeyOf(fs[..n][i]) == key;
        assert KeyOf(fs[i]) == key;
      }
      if exists i | 0 <= i < |fs| :: KeyOf(fs[i]) == key {
        var i :| 0 <= i < |fs| && KeyOf(fs[i]) == key;
        if i < n {
          assert KeyOf(fs[..n][i]) == key;
        }
      }
    }
  }

  lemma {:induction false} NothingFor(fs: seq<Fragment>, key: int)
    requires key !in Keys(fs)
    ensures NameFor(fs, key) == "" && ArgumentsFor(fs, key) == ""
    decreases |fs|
  {
    if fs != [] {
      NothingFor(fs[..|fs| - 1], key);
    }
  }

  lemma {:induction false} KeysDistinct(fs: seq<Fragment>)
    ensures forall i, j | 0 <= i < j < |Keys(fs)| :: Keys(fs)[i] != Keys(fs)[j]
    decreases |fs|
  {
    if fs != [] {
      KeysDistinct(fs[..|fs| - 1]);
    }
  }

  /** What one more fragment does to the k-th call. */
  lemma CallForAppend(fs: seq<Fragment>, f: Fragment, k: nat)
    requires k < |Keys(fs)|
    ensures k < |Keys(fs + [f])| && Keys(fs + [f])[k] == Keys(fs)[k]
    ensures var c := CallFor(fs, k);
            CallFor(fs + [f], k) ==
              if Keys(fs)[k] == KeyOf(f) then Call(c.id, if c.name == "" then f.name else c.name, c.arguments + f.arguments) else c
  {
    assert (fs + [f])[..|fs|] == fs;
    IdForAppend(fs, f, Keys(fs)[k]);
    assert CallFor(fs, k).arguments + "" == CallFor(fs, k).arguments;
  }

  /** The call a new key opens. */
  lemma CallForNew(fs: seq<Fragment>, f: Fragment)
    requires KeyOf(f) !in Keys(fs)
    ensures Keys(fs + [f]) == Keys(fs) + [KeyOf(f)]
    ensures CallFor(fs + [f], |Keys(fs)|) == Call(if f.id != "" then f.id else FallbackId(|Keys(fs)|), f.name, f.arguments)
  {
    assert (fs + [f])[..|fs|] == fs;
    IdForAppend(fs, f, KeyOf(f));
    NothingFor(fs, KeyOf(f));
    assert "" + f.arguments == f.arguments;
  }

  lemma {:induction false} FindByKey(tools: seq<Tool>, fs: seq<Fragment>, key: int)
    requires |tools| == |Keys(fs)| && forall k | 0 <= k < |tools| :: tools[k].key == Keys(fs)[k]
    ensures FindTool(tools, key) < |tools| <==> key in Keys(fs)
    ensures forall k | 0 <= k < |tools| && tools[k].key == key :: k == FindTool(tools, key)
  {
    KeysDistinct(fs);
    if key in Keys(fs) {
      var k :| 0 <= k < |Keys(fs)| && Keys(fs)[k] == key;
      assert tools[k].key == key;
    }
  }

  lemma {:induction false} FindIsKey(s: State, fs: seq<Fragment>, base: nat, key: int)
    requires ToolsAre(s, fs, base)
    ensures FindTool(s.tools, key) < |s.tools| <==> key in Keys(fs)
    ensures forall k | 0 <= k < |s.tools| && s.tools[k].key == key :: k == FindTool(s.tools, key)
  {
    forall k | 0 <= k < |s.tools| ensures s.tools[k].key == Keys(fs)[k] {
      assert ToolIs(s.tools[k], fs, k, base);
    }
    FindByKey(s.tools, fs, key);
  }

  lemma EnsureOldTool(s: State, f: Fragment)
    requires FindTool(s.tools, KeyOf(f)) < |s.tools|
    ensures var i := FindTool(s.tools, KeyOf(f)); var t := s.tools[i]; var r := EnsureTool(s, f);
            && r == s.(tools := s.tools[i := t.(name := if t.name == "" then f.name else t.name)])
            && FindTool(r.tools, KeyOf(f)) == i
  {
    SameKeys(s.tools, EnsureTool(s, f).tools, KeyOf(f));
  }

  lemma OldFragmentEffect(s: State, f: Fragment)
    requires FindTool(s.tools, KeyOf(f)) < |s.tools|
    ensures var i := FindTool(s.tools, KeyOf(f)); var t := s.tools[i]; var r := PushFragment(s, f);
            && r.tools == s.tools[i := t.(name := if t.name == "" then f.name else t.name, arguments := t.arguments + f.arguments)]
            && r == s.(tools := r.tools, trace := r.trace)
  {
    EnsureOldTool(s, f);
    var t := s.tools[FindTool(s.tools, KeyOf(f))];
    assert f.arguments == "" ==> t.arguments + f.arguments == t.arguments;
  }

  lemma NewFragmentEffect(s: State, f: Fragment)
    requires FindTool(s.tools, KeyOf(f)) == |s.tools|
    ensures var id := if f.id != "" then f.id else FallbackId(|s.tools|); var r := PushFragment(s, f);
            && r.tools == s.tools + [Tool(KeyOf(f), id, f.name, f.arguments, |s.items|, false)]
            && r == s.(tools := r.tools, trace := r.trace, items := s.items + [Call(id, f.name, "")])
  {
    var id := if f.id != "" then f.id else FallbackId(|s.tools|);
    FindAppended(s.tools, Tool(KeyOf(f), id, f.name, "", |s.items|, false));
    assert "" + f.arguments == f.arguments;
  }

  lemma OldFragmentRefines(s: State, fs: seq<Fragment>, f: Fragment, base: nat)
    requires ToolsAre(s, fs, base) && KeyOf(f) in Keys(fs)
    ensures var r := PushFragment(s, f); ToolsAre(r, fs + [f], base) && r == s.(tools := r.tools, trace := r.trace)
  {
    var r := PushFragment(s, f);
    FindIsKey(s, fs, base, KeyOf(f));
    OldFragmentEffect(s, f);
    assert (fs + [f])[..|fs|] == fs;
    forall k | 0 <= k < |r.tools| ensures ToolIs(r.tools[k], fs + [f], k, base) {
      assert ToolIs(s.tools[k], fs, k, base);
      CallForAppend(fs, f, k);
    }
  }

  /** The tools of `s` with the one a new key opens are the tools the longer list describes. */
  lemma ToolsAppend(s: State, fs: seq<Fragment>, f: Fragment, base: nat, k: nat)
    requires ToolsAre(s, fs, base) && KeyOf(f) !in Keys(fs) && k <= |s.tools|
    ensures var id := if f.id != "" then f.id else FallbackId(|s.tools|);
            var tools := s.tools + [Tool(KeyOf(f), id, f.name, f.arguments, |s.items|, false)];
            ToolIs(tools[k], fs + [f], k, base)
  {
    CallForNew(fs, f);
    if k < |s.tools| {
      assert ToolIs(s.tools[k], fs, k, base);
      CallForAppend(fs, f, k);
    }
  }

  lemma NewFragmentRefines(s: State, fs: seq<Fragment>, f: Fragment, base: nat)
    requires ToolsAre(s, fs, base) && KeyOf(f) !in Keys(fs)
    ensures var r := PushFragment(s, f);
            && ToolsAre(r, fs + [f], base) && r.items[..base] == s.items[..base]
            && r == s.(tools := r.tools, trace := r.trace, items := r.items)
  {
    var r := PushFragment(s, f);
    FindIsKey(s, fs, base, KeyOf(f));
    NewFragmentEffect(s, f);
    CallForNew(fs, f);
    forall k | 0 <= k < |r.tools| ensures ToolIs(r.tools[k], fs + [f], k, base) {
      ToolsAppend(s, fs, f, base, k);
    }
  }

  /** However the fragments of different calls interleave, one more fragment goes to its own call. */
  lemma FragmentRefines(s: State, fs: seq<Fragment>, f: Fragment, base: nat)
    requires ToolsAre(s, fs, base)
    ensures var r := PushFragment(s, f);
            && ToolsAre(r, fs + [f], base) && r.items[..base] == s.items[..base]
            && r == s.(tools := r.tools, trace := r.trace, items := r.items)
  {
    if KeyOf(f) in Keys(fs) {
      OldFragmentRefines(s, fs, f, base);
    } else {
      NewFragmentRefines(s, fs, f, base);
    }
  }

  lemma {:induction false} FragmentsRefine(s: State, all: seq<Fragment>, n: nat, base: nat)
    requires n <= |all| && ToolsAre(s, all[..n], base)
    ensures var r := PushFragments(s, all[n..]);
            && ToolsAre(r, all, base) && r.items[..base] == s.items[..base]
            && r == s.(tools := r.tools, trace := r.trace, items := r.items)
    decreases |all| - n
  {
    if n == |all| {
      assert all[..n] == all;
    } else {
      var s1 := PushFragment(s, all[n]);
      assert all[n..][1..] == all[n + 1..] && all[..n] + [all[n]] == all[..n + 1];
      FragmentRefines(s, all[..n], all[n], base);
      FragmentsRefine(s1, all, n + 1, base);
    }
  }

  // ---------------------------------------------------------------- closing

  ghost predicate Spread(s: State) {
    && (forall k | 0 <= k < |s.tools| :: s.tools[k].outputIndex < |s.items|)
    && forall j, k | 0 <= j < k < |s.tools| :: s.tools[j].outputIndex != s.tools[k].outputIndex
  }

  function Closed(s: State, t: Tool): Item
    requires t.outputIndex < |s.items|
  {
    if t.done then s.items[t.outputIndex] else Call(t.id, t.name, t.arguments)
  }

  lemma FinishStep(s: State, i: nat)
    requires Spread(s) && i < |s.tools|
    ensures var r := FinishTool(s, i);
            && r.tools == s.tools[i := s.tools[i].(done := true)]
            && r.items == s.items[s.tools[i].outputIndex := Closed(s, s.tools[i])]
            && r == s.(tools := r.tools, trace := r.trace, items := r.items)
  {
  }

  /** `r` is `s` with the calls from the i-th on closed, those still open written into their own slots. */
  ghost predicate FinishedFrom(s: State, r: State, i: nat)
    requires Spread(s)
  {
    && |r.tools| == |s.tools| && |r.items| == |s.items|
    && (forall k | 0 <= k < |s.tools| :: r.tools[k] == if k >= i then s.tools[k].(done := true) else s.tools[k])
    && (forall k | i <= k < |s.tools| :: r.items[s.tools[k].outputIndex] == Closed(s, s.tools[k]))
    && (forall p | 0 <= p < |s.items| && (forall k | i <= k < |s.tools| :: s.tools[k].outputIndex != p) :: r.items[p] == s.items[p])
  }

  lemma FinishCompose(s: State, s1: State, r: State, i: nat)
    requires Spread(s) && i < |s.tools| && s1.tools == s.tools[i := s.tools[i].(done := true)]
    requires s1.items == s.items[s.tools[i].outputIndex := Closed(s, s.tools[i])]
    requires Spread(s1) && FinishedFrom(s1, r, i + 1)
    ensures FinishedFrom(s, r, i)
  {
    forall k | 0 <= k < |s.tools| ensures r.tools[k] == if k >= i then s.tools[k].(done := true) else s.tools[k] {
      assert k != i ==> s1.tools[k] == s.tools[k];
    }
    forall k | i <= k < |s.tools| ensures r.items[s.tools[k].outputIndex] == Closed(s, s.tools[k]) {
      if k == i {
        assert forall j | i + 1 <= j < |s.tools| :: s1.tools[j].outputIndex != s.tools[i].outputIndex;
      } else {
        assert s1.tools[k] == s.tools[k];
      }
    }
    forall p | 0 <= p < |s.items| && (forall k | i <= k < |s.tools| :: s.tools[k].outputIndex != p) ensures r.items[p] == s.items[p] {
      assert forall j | i + 1 <= j < |s.tools| :: s1.tools[j].outputIndex != p;
      assert s.tools[i].outputIndex != p;
    }
  }

  lemma {:induction false} FinishEffect(s: State, i: nat)
    requires Spread(s) && i <= |s.tools|
    ensures var r := FinishToolsFrom(s, i);
            FinishedFrom(s, r, i) && r == s.(tools := r.tools, trace := r.trace, items := r.items)
    decreases |s.tools| - i
  {
    if i < |s.tools| {
      FinishStep(s, i);
      FinishEffect(FinishTool(s, i), i + 1);
      FinishCompose(s, FinishTool(s, i), FinishToolsFrom(s, i), i);
    }
  }

  /** Closing the calls that `fs` describes writes each into its own slot. */
  lemma FinishRefines(s: State, fs: seq<Fragment>, base: nat)
    requires ToolsAre(s, fs, base)
    ensures var r := FinishTools(s);
            && r.items == s.items[..base] + Calls(fs) && (forall k | 0 <= k < |r.tools| :: r.tools[k].done)
            && r == s.(tools := r.tools, trace := r.trace, items := r.items)
  {
    forall k | 0 <= k < |s.tools| ensures s.tools[k].outputIndex == base + k && Closed(s, s.tools[k]) == CallFor(fs, k) {
      assert ToolIs(s.tools[k], fs, k, base);
    }
    FinishEffect(s, 0);
    var r := FinishTools(s);
    forall p | 0 <= p < |r.items| ensures r.items[p] == (s.items[..base] + Calls(fs))[p] {
      if p >= base {
        assert s.tools[p - base].outputIndex == p;
      }
    }
  }

  lemma {:induction false} FinishedAlready(s: State, i: nat)
    requires i <= |s.tools| && forall k | 0 <= k < |s.tools| :: s.tools[k].done
    ensures FinishToolsFrom(s, i) == s
    decreases |s.tools| - i
  {
    if i < |s.tools| {
      FinishedAlready(s, i + 1);
    }
  }

  // ---------------------------------------------------------------- the stream

  /** All that the reference definition takes from the lines so far. */
  datatype Summary = Summary(stage: Stage, hasText: bool, text: string, fragments: seq<Fragment>, usage: Usage)

  function SummaryOf(lines: seq<Line>): Summary {
    Summary(StageOf(lines), HasText(lines), Text(lines), Fragments(lines), LastUsage(lines))
  }

  function Extend(m: Summary, line: Line): Summary {
    Summary(NextStage(m.stage, line), m.hasText || TextIn(line).Some?,
            if TextIn(line).Some? then m.text + TextIn(line).value else m.text,
            if FragmentsOf(line) != [] then m.fragments + FragmentsOf(line) else m.fragments,
            if line.Chunk? && line.usage.Some? then line.usage.value else m.usage)
  }

  function OpenMessage(m: Summary): seq<Item> {
    if m.hasText then [Message([])] else []
  }

  function ClosedMessageOf(m: Summary): seq<Item> {
    if m.hasText then [Message([m.text])] else []
  }

  function OutputOf(m: Summary): seq<Item> {
    ClosedMessageOf(m) + Calls(m.fragments)
  }

  /** The state an ordered stream is in, by its stage. */
  ghost predicate Refines(s: State, m: Summary) {
    && !s.finished && s.text == m.text && s.textStarted == m.hasText
    && match m.stage
       case Talking => m.fragments == [] && s.tools == [] && !s.textFinished && s.items == OpenMessage(m)
       case Calling => s.textFinished == s.textStarted && ToolsAre(s, m.fragments, |ClosedMessageOf(m)|)
                       && s.items[..|ClosedMessageOf(m)|] == ClosedMessageOf(m)
       case Stopped => s.textFinished == s.textStarted && s.items == OutputOf(m)
                       && forall k | 0 <= k < |s.tools| :: s.tools[k].done
       case Disordered => true
  }

  lemma SummaryExtends(lines: seq<Line>)
    requires lines != []
    ensures SummaryOf(lines) == Extend(SummaryOf(lines[..|lines| - 1]), lines[|lines| - 1])
  {
    var before, line := lines[..|lines| - 1], lines[|lines| - 1];
    assert HasText(lines) <==> HasText(before) || TextIn(line).Some? by {
      if HasText(before) {
        var i :| 0 <= i < |before| && TextIn(before[i]).Some?;
        assert TextIn(lines[i]).Some?;
      }
      if HasText(lines) {
        var i :| 0 <= i < |lines| && TextIn(lines[i]).Some?;
        assert i < |before| ==> TextIn(before[i]).Some?;
      }
    }
    assert Text(before) + "" == Text(before) && Fragments(before) + [] == Fragments(before);
  }

  /** Closing everything in an ordered state yields the reference output. */
  lemma ClosedOutput(s: State, m: Summary)
    requires Refines(s, m) && !m.stage.Disordered?
    ensures var r := FinishOpenText(FinishTools(s));
            && r.items == OutputOf(m) && r.textFinished == r.textStarted
            && (forall k | 0 <= k < |r.tools| :: r.tools[k].done)
            && r == s.(tools := r.tools, trace := r.trace, items := r.items, textFinished := r.textFinished)
  {
    match m.stage
    case Talking =>
      assert Calls([]) == [];
      assert OutputOf(m) == ClosedMessageOf(m);
    case Calling => FinishRefines(s, m.fragments, |ClosedMessageOf(m)|);
    case Stopped => FinishedAlready(s, 0);
  }

  lemma OpenCalls(s: State, m: Summary)
    requires Refines(s, m) && (m.stage.Talking? || m.stage.Calling?)
    ensures var r := FinishOpenText(s);
            && ToolsAre(r, m.fragments, |ClosedMessageOf(m)|) && r.textFinished == r.textStarted
            && r.items[..|ClosedMessageOf(m)|] == ClosedMessageOf(m)
            && r == s.(trace := r.trace, items := r.items, textFinished := r.textFinished)
  {
  }

  lemma ToolsRefine(s: State, m: Summary, line: Line)
    requires Refines(s, m) && FragmentsOf(line) != [] && !Extend(m, line).stage.Disordered?
    ensures var r := PushFragments(FinishOpenText(s), FragmentsOf(line));
            Refines(r, Extend(m, line)) && r.usage == s.usage
  {
    OpenCalls(s, m);
    var all := m.fragments + FragmentsOf(line);
    assert all[..|m.fragments|] == m.fragments && all[|m.fragments|..] == FragmentsOf(line);
    FragmentsRefine(FinishOpenText(s), all, |m.fragments|, |ClosedMessageOf(m)|);
  }

  lemma ContentRefines(s: State, m: Summary, line: Line)
    requires Refines(s, m) && TextIn(line).Some? && !Extend(m, line).stage.Disordered?
    ensures var r := PushContent(s, TextIn(line).value);
            Refines(r, Extend(m, line)) && r.usage == s.usage
  {
    assert FinishTools(s) == s;
  }

  lemma StopRefines(s: State, m: Summary, line: Line)
    requires Refines(s, m) && !m.stage.Disordered? && Extend(m, line) == m.(stage := Stopped, usage := Extend(m, line).usage)
    ensures var r := FinishOpenText(FinishTools(s));
            Refines(r, Extend(m, line)) && r.usage == s.usage
  {
    ClosedOutput(s, m);
  }

  lemma ChoiceRefines(s: State, m: Summary, line: Line)
    requires Refines(s, m) && line.Chunk? && line.choice.Some? && !Extend(m, line).stage.Disordered? && s.headerSent
    ensures var r := PushChoice(s, line.choice.value);
            Refines(r, Extend(m, line)) && r.usage == s.usage
  {
    var c := line.choice.value;
    if c.tools != [] {
      ToolsRefine(s, m, line);
    } else if c.content.Some? {
      ContentRefines(s, m, line);
    } else if c.finish == "stop" || c.finish == "length" {
      StopRefines(s, m, line);
    }
  }

  lemma ChunkRefines(s: State, m: Summary, line: Line)
    requires Refines(s, m) && line.Chunk? && line.choice.Some? && !Extend(m, line).stage.Disordered?
    ensures var r := PushChoice(s, line.choice.value); Refines(r, Extend(m, line)) && r.usage == s.usage
  {
    assert Refines(SendHeader(s), m);
    ChoiceRefines(SendHeader(s), m, line);
    assert PushChoice(s, line.choice.value) == PushChoice(SendHeader(s), line.choice.value);
  }

  lemma LineRefines(s: State, m: Summary, line: Line)
    requires Refines(s, m) && s.usage == m.usage && !Extend(m, line).stage.Disordered?
    ensures var r := PushLine(s, line); Refines(r, Extend(m, line)) && r.usage == Extend(m, line).usage
  {
    if line.Chunk? {
      var s1 := s.(model := if line.model != "" then line.model else s.model,
                   usage := if line.usage.Some? then line.usage.value else s.usage);
      assert Refines(s1, m);
      if line.choice.Some? {
        ChunkRefines(s1, m, line);
      }
    }
  }

  lemma {:induction false} OrderedRefines(lines: seq<Line>)
    requires !StageOf(lines).Disordered?
    ensures Refines(PushLines(INITIAL, lines), SummaryOf(lines)) && PushLines(INITIAL, lines).usage == LastUsage(lines)
    decreases |lines|
  {
    if lines != [] {
      SummaryExtends(lines);
      OrderedRefines(lines[..|lines| - 1]);
      LineRefines(PushLines(INITIAL, lines[..|lines| - 1]), SummaryOf(lines[..|lines| - 1]), lines[|lines| - 1]);
    }
  }

  /** For every ordered stream the completed response lists one message with all the text and then
      one call per key in first-seen order with that key's fragments concatenated, and carries the
      usage reported last. */
  lemma {:induction false} OrderedOutput(lines: seq<Line>)
    requires !StageOf(lines).Disordered?
    ensures End(PushLines(INITIAL, lines), None).trace.Snoc?
    ensures End(PushLines(INITIAL, lines), None).trace.last == Completed(Output(lines), LastUsage(lines))
    ensures PushLine(PushLines(INITIAL, lines), DoneMark) == End(PushLines(INITIAL, lines), None)
  {
    OrderedRefines(lines);
    ClosedOutput(PushLines(INITIAL, lines), SummaryOf(lines));
  }

  // ---------------------------------------------------------------- streams in any order

  predicate Stops(line: Line) {
    line.Chunk? && line.choice.Some? && line.choice.value.tools == [] && line.choice.value.content.None? &&
    (line.choice.value.finish == "stop" || line.choice.value.finish == "length")
  }

  /** What matters of the order of the lines. `place`: how many calls had opened before the first text;
      `closed`: a line of fragments or a stop came after that text; `lateText`: some text came after
      that; `shut`: the keys already seen when a text or a stop came; `lateKeys`: those for which
      arguments came after that. */
  datatype Order = Order(place: Option<nat>, closed: bool, lateText: bool, shut: set<int>, lateKeys: set<int>)

  function Late(o: Order, f: Fragment): Order {
    if f.arguments != "" && KeyOf(f) in o.shut then o.(lateKeys := o.lateKeys + {KeyOf(f)}) else o
  }

  function LateAll(o: Order, fs: seq<Fragment>): (r: Order)
    ensures r == o.(lateKeys := r.lateKeys)
    decreases |fs|
  {
    if fs == [] then o else LateAll(Late(o, fs[0]), fs[1..])
  }

  function Close(o: Order): Order {
    o.(closed := o.place.Some?)
  }

  function Shut(o: Order, keys: seq<int>): Order {
    o.(shut := set key | key in keys)
  }

  function Speak(o: Order, keys: seq<int>, text: string): Order {
    o.(place := if o.place.None? then Some(|keys|) else o.place, lateText := o.lateText || (o.closed && text != ""))
  }

  function NextOrder(o: Order, keys: seq<int>, line: Line): Order {
    if FragmentsOf(line) != [] then LateAll(Close(o), FragmentsOf(line))
    else if TextIn(line).Some? then Speak(Shut(o, keys), keys, TextIn(line).value)
    else if Stops(line) then Close(Shut(o, keys))
    else o
  }

  function OrderOf(lines: seq<Line>): Order {
    if lines == [] then Order(None, false, false, {}, {})
    else NextOrder(OrderOf(lines[..|lines| - 1]), Keys(Fragments(lines[..|lines| - 1])), lines[|lines| - 1])
  }

  /** The index of the k-th call: the message takes one place among the calls. */
  function CallPlace(o: Order, k: nat): nat {
    if o.place.Some? && o.place.value <= k then k + 1 else k
  }

  ghost predicate CallFits(t: Tool, items: seq<Item>, fs: seq<Fragment>, o: Order, k: nat) {
    && k < |Keys(fs)| && t.key == Keys(fs)[k] && t.outputIndex == CallPlace(o, k) < |items|
    && t.arguments == ArgumentsFor(fs, t.key) && t.done == (t.key in o.shut)
    && items[t.outputIndex].Call?
    && (t.key in o.lateKeys ==> t.done)
    && (t.done ==> items[t.outputIndex].arguments <= t.arguments
                   && (items[t.outputIndex].arguments == t.arguments <==> t.key !in o.lateKeys))
  }

  ghost predicate CallsFit(s: State, fs: seq<Fragment>, o: Order) {
    && |s.tools| == |Keys(fs)| && |s.items| == |s.tools| + (if o.place.Some? then 1 else 0)
    && (o.place.Some? ==> o.place.value <= |s.tools|)
    && (forall key | key in o.shut || key in o.lateKeys :: key in Keys(fs))
    && forall k | 0 <= k < |s.tools| :: CallFits(s.tools[k], s.items, fs, o, k)
  }

  /** What the message item holds: nothing until it is closed, and then only if it is the first item. */
  ghost predicate MessageFits(item: Item, text: string, o: Order) {
    if o.place == Some(0) && o.closed then
      && item.Message? && |item.content| == 1 && item.content[0] <= text && (item.content[0] == text <==> !o.lateText)
    else item == Message([])
  }

  ghost predicate TextFits(s: State, text: string, o: Order) {
    && s.text == text && s.textStarted == o.place.Some? && s.textFinished == o.closed
    && (o.closed ==> o.place.Some?) && (o.lateText ==> o.closed)
    && (o.place.Some? ==> o.place.value < |s.items| && MessageFits(s.items[o.place.value], text, o))
  }

  ghost predicate Fits(s: State, fs: seq<Fragment>, text: string, o: Order) {
    !s.finished && CallsFit(s, fs, o) && TextFits(s, text, o)
  }

  lemma ArgumentsAppend(fs: seq<Fragment>, f: Fragment, key: int)
    ensures ArgumentsFor(fs + [f], key) == ArgumentsFor(fs, key) + if KeyOf(f) == key then f.arguments else ""
  {
    assert (fs + [f])[..|fs|] == fs;
  }

  lemma OldCallFits(t: Tool, items: seq<Item>, fs: seq<Fragment>, f: Fragment, o: Order, k: nat)
    requires CallFits(t, items, fs, o, k) && KeyOf(f) in Keys(fs)
    ensures CallFits(if t.key == KeyOf(f) then t.(name := if t.name == "" then f.name else t.name, arguments := t.arguments + f.arguments) else t,
                     items, fs + [f], Late(o, f), k)
  {
    assert (fs + [f])[..|fs|] == fs;
    ArgumentsAppend(fs, f, t.key);
    assert t.arguments + "" == t.arguments;
  }

  lemma OldFragmentFits(s: State, fs: seq<Fragment>, f: Fragment, o: Order)
    requires CallsFit(s, fs, o) && KeyOf(f) in Keys(fs)
    ensures var r := PushFragment(s, f); CallsFit(r, fs + [f], Late(o, f)) && r == s.(tools := r.tools, trace := r.trace)
  {
    var r := PushFragment(s, f);
    assert (fs + [f])[..|fs|] == fs;
    FindByKey(s.tools, fs, KeyOf(f));
    OldFragmentEffect(s, f);
    forall k | 0 <= k < |r.tools| ensures CallFits(r.tools[k], r.items, fs + [f], Late(o, f), k) {
      OldCallFits(s.tools[k], s.items, fs, f, o, k);
    }
  }

  lemma OtherCallFits(t: Tool, items: seq<Item>, item: Item, fs: seq<Fragment>, f: Fragment, o: Order, k: nat)
    requires CallFits(t, items, fs, o, k) && KeyOf(f) !in Keys(fs)
    ensures CallFits(t, items + [item], fs + [f], o, k)
  {
    CallForNew(fs, f);
    ArgumentsAppend(fs, f, t.key);
    assert t.arguments + "" == t.arguments;
  }

  lemma NewFragmentFits(s: State, fs: seq<Fragment>, f: Fragment, o: Order)
    requires CallsFit(s, fs, o) && KeyOf(f) !in Keys(fs)
    ensures var r := PushFragment(s, f);
            && CallsFit(r, fs + [f], Late(o, f)) && s.items <= r.items
            && r == s.(tools := r.tools, trace := r.trace, items := r.items)
  {
    var r := PushFragment(s, f);
    FindByKey(s.tools, fs, KeyOf(f));
    NewFragmentEffect(s, f);
    CallForNew(fs, f);
    NothingFor(fs, KeyOf(f));
    ArgumentsAppend(fs, f, KeyOf(f));
    assert Late(o, f) == o;
    forall k | 0 <= k < |r.tools| ensures CallFits(r.tools[k], r.items, fs + [f], o, k) {
      if k < |s.tools| {
        OtherCallFits(s.tools[k], s.items, r.items[|s.items|], fs, f, o, k);
      }
    }
  }

  lemma FragmentFits(s: State, fs: seq<Fragment>, f: Fragment, o: Order)
    requires CallsFit(s, fs, o)
    ensures var r := PushFragment(s, f);
            && CallsFit(r, fs + [f], Late(o, f)) && s.items <= r.items
            && r == s.(tools := r.tools, trace := r.trace, items := r.items)
  {
    if KeyOf(f) in Keys(fs) {
      OldFragmentFits(s, fs, f, o);
    } else {
      NewFragmentFits(s, fs, f, o);
    }
  }

  lemma {:induction false} FragmentsFit(s: State, all: seq<Fragment>, n: nat, o: Order)
    requires n <= |all| && CallsFit(s, all[..n], o)
    ensures var r := PushFragments(s, all[n..]);
            && CallsFit(r, all, LateAll(o, all[n..])) && s.items <= r.items
            && r == s.(tools := r.tools, trace := r.trace, items := r.items)
    decreases |all| - n
  {
    if n == |all| {
      assert all[..n] == all;
    } else {
      assert all[n..][1..] == all[n + 1..] && all[..n] + [all[n]] == all[..n + 1];
      FragmentFits(s, all[..n], all[n], o);
      FragmentsFit(PushFragment(s, all[n]), all, n + 1, Late(o, all[n]));
    }
  }

  lemma ShutFits(s: State, fs: seq<Fragment>, text: string, o: Order)
    requires Fits(s, fs, text, o)
    ensures var r := FinishTools(s);
            Fits(r, fs, text, Shut(o, Keys(fs))) && r == s.(tools := r.tools, trace := r.trace, items := r.items)
  {
    KeysDistinct(fs);
    assert forall k | 0 <= k < |s.tools| :: CallFits(s.tools[k], s.items, fs, o, k);
    FinishEffect(s, 0);
    var r := FinishTools(s);
    forall k | 0 <= k < |r.tools| ensures CallFits(r.tools[k], r.items, fs, Shut(o, Keys(fs)), k) {
      assert CallFits(s.tools[k], s.items, fs, o, k) && r.items[s.tools[k].outputIndex] == Closed(s, s.tools[k]);
    }
    if o.place.Some? {
      assert r.items[o.place.value] == s.items[o.place.value];
    }
  }

  lemma CloseFits(s: State, fs: seq<Fragment>, text: string, o: Order)
    requires Fits(s, fs, text, o)
    ensures var r := FinishOpenText(s);
            Fits(r, fs, text, Close(o)) && r == s.(trace := r.trace, items := r.items, textFinished := r.textFinished)
  {
    var r := FinishOpenText(s);
    if |s.tools| > 0 {
      assert CallFits(s.tools[0], s.items, fs, o, 0);
    }
    forall k | 0 <= k < |r.tools| ensures CallFits(r.tools[k], r.items, fs, Close(o), k) {
      assert CallFits(s.tools[k], s.items, fs, o, k);
    }
  }

  lemma EnsureTextFits(s: State, fs: seq<Fragment>, text: string, o: Order)
    requires Fits(s, fs, text, o)
    ensures Fits(EnsureText(s), fs, text, Speak(o, Keys(fs), ""))
  {
    var r := EnsureText(s);
    forall k | 0 <= k < |r.tools| ensures CallFits(r.tools[k], r.items, fs, Speak(o, Keys(fs), ""), k) {
      assert CallFits(s.tools[k], s.items, fs, o, k);
    }
  }

  lemma DeltaFits(s: State, fs: seq<Fragment>, text: string, o: Order, content: string)
    requires Fits(s, fs, text, o) && o.place.Some?
    ensures Fits(Emit(s.(text := s.text + content), TextDelta(0, content)), fs, text + content,
                 o.(lateText := o.lateText || (o.closed && content != "")))
  {
    var o' := o.(lateText := o.lateText || (o.closed && content != ""));
    forall k | 0 <= k < |s.tools| ensures CallFits(s.tools[k], s.items, fs, o', k) {
      assert CallFits(s.tools[k], s.items, fs, o, k);
    }
    assert content == "" ==> text + content == text;
  }

  lemma ContentFits(s: State, fs: seq<Fragment>, text: string, o: Order, content: string)
    requires Fits(s, fs, text, o)
    ensures Fits(PushContent(s, content), fs, text + content, Speak(Shut(o, Keys(fs)), Keys(fs), content))
  {
    ShutFits(s, fs, text, o);
    EnsureTextFits(FinishTools(s), fs, text, Shut(o, Keys(fs)));
    DeltaFits(EnsureText(FinishTools(s)), fs, text, Speak(Shut(o, Keys(fs)), Keys(fs), ""), content);
  }

  lemma ToolsFit(s: State, fs: seq<Fragment>, text: string, o: Order, more: seq<Fragment>)
    requires Fits(s, fs, text, o)
    ensures Fits(PushFragments(FinishOpenText(s), more), fs + more, text, LateAll(Close(o), more))
  {
    CloseFits(s, fs, text, o);
    assert (fs + more)[..|fs|] == fs && (fs + more)[|fs|..] == more;
    FragmentsFit(FinishOpenText(s), fs + more, |fs|, Close(o));
  }

  lemma ChoiceFits(s: State, fs: seq<Fragment>, text: string, o: Order, line: Line)
    requires Fits(s, fs, text, o) && line.Chunk? && line.choice.Some?
    ensures Fits(PushChoice(s, line.choice.value), fs + FragmentsOf(line),
                 text + (if TextIn(line).Some? then TextIn(line).value else ""), NextOrder(o, Keys(fs), line))
  {
    var c, s1 := line.choice.value, SendHeader(s);
    assert Fits(s1, fs, text, o);
    assert fs + [] == fs && text + "" == text;
    if c.tools != [] {
      ToolsFit(s1, fs, text, o, c.tools);
    } else if c.content.Some? {
      ContentFits(s1, fs, text, o, c.content.value);
    } else if Stops(line) {
      ShutFits(s1, fs, text, o);
      CloseFits(FinishTools(s1), fs, text, Shut(o, Keys(fs)));
    }
  }

  lemma LineFits(s: State, fs: seq<Fragment>, text: string, o: Order, line: Line)
    requires Fits(s, fs, text, o) && !line.DoneMark?
    ensures Fits(PushLine(s, line), fs + FragmentsOf(line),
                 text + (if TextIn(line).Some? then TextIn(line).value else ""), NextOrder(o, Keys(fs), line))
  {
    assert fs + [] == fs && text + "" == text;
    if line.Chunk? {
      var s1 := s.(model := if line.model != "" then line.model else s.model,
                   usage := if line.usage.Some? then line.usage.value else s.usage);
      assert Fits(s1, fs, text, o);
      if line.choice.Some? {
        ChoiceFits(s1, fs, text, o, line);
      }
    }
  }

  lemma {:induction false} RunFits(lines: seq<Line>)
    requires DoneMark !in lines
    ensures Fits(PushLines(INITIAL, lines), Fragments(lines), Text(lines), OrderOf(lines))
    decreases |lines|
  {
    if lines != [] {
      var before := lines[..|lines| - 1];
      RunFits(before);
      LineFits(PushLines(INITIAL, before), Fragments(before), Text(before), OrderOf(before), lines[|lines| - 1]);
    }
  }

  lemma {:induction false} PlaceIffText(lines: seq<Line>)
    ensures OrderOf(lines).place.Some? <==> HasText(lines)
    decreases |lines|
  {
    if lines != [] {
      PlaceIffText(lines[..|lines| - 1]);
      SummaryExtends(lines);
    }
  }

  /** The state from which the completed response is made. */
  lemma EndFits(lines: seq<Line>)
    requires DoneMark !in lines
    ensures var s := PushLines(INITIAL, lines); var r := FinishOpenText(FinishTools(s)); var fs := Fragments(lines);
            && Fits(r, fs, Text(lines), Close(Shut(OrderOf(lines), Keys(fs))))
            && End(s, None).trace == Snoc(r.trace, Completed(r.items, r.usage))
  {
    var s := PushLines(INITIAL, lines);
    RunFits(lines);
    ShutFits(s, Fragments(lines), Text(lines), OrderOf(lines));
    CloseFits(FinishTools(s), Fragments(lines), Text(lines), Shut(OrderOf(lines), Keys(Fragments(lines))));
  }

  /** In whatever order lines come: the completed response has one item per call and one for the
      message. The message holds all the text exactly when no call opened before it and no text came
      after it was closed; a call holds all its fragments' arguments exactly when none came after it
      was closed. */
  lemma {:induction false} CompleteExactlyWhenInOrder(lines: seq<Line>, k: nat)
    requires DoneMark !in lines
    ensures var h := End(PushLines(INITIAL, lines), None).trace; var o := OrderOf(lines); var fs := Fragments(lines);
            && h.Snoc? && h.last.Completed? && |h.last.output| == |Keys(fs)| + (if HasText(lines) then 1 else 0)
            && (HasText(lines) ==>
                  o.place.Some? && o.place.value < |h.last.output| && h.last.output[o.place.value].Message? &&
                  (h.last.output[o.place.value] == Message([Text(lines)]) <==> o.place == Some(0) && !o.lateText))
            && (k < |Keys(fs)| ==>
                  CallPlace(o, k) < |h.last.output| && h.last.output[CallPlace(o, k)].Call? &&
                  (h.last.output[CallPlace(o, k)].arguments == ArgumentsFor(fs, Keys(fs)[k]) <==> Keys(fs)[k] !in o.lateKeys))
  {
    EndFits(lines);
    PlaceIffText(lines);
    var r := FinishOpenText(FinishTools(PushLines(INITIAL, lines)));
    if k < |r.tools| {
      assert CallFits(r.tools[k], r.items, Fragments(lines), Close(Shut(OrderOf(lines), Keys(Fragments(lines)))), k);
    }
  }

  /** The end mark ends the stream; whatever lines follow it are ignored. So the statement above is
      about every stream, cut at its first end mark. */
  lemma {:induction false} NothingAfterDone(lines: seq<Line>, rest: seq<Line>)
    ensures PushLines(INITIAL, lines + [DoneMark] + rest) == End(PushLines(INITIAL, lines), None)
    decreases |rest|
  {
    var all := lines + [DoneMark] + rest;
    if rest == [] {
      assert all[..|all| - 1] == lines;
    } else {
      assert all[..|all| - 1] == lines + [DoneMark] + rest[..|rest| - 1];
      NothingAfterDone(lines, rest[..|rest| - 1]);
    }
  }

  /** What the completed response may lack was streamed all the same. */
  lemma {:induction false} EverythingIsStreamed(lines: seq<Line>, k: nat)
    requires DoneMark !in lines && k < |Keys(Fragments(lines))|
    ensures var h := End(PushLines(INITIAL, lines), None).trace; var fs := Fragments(lines);
            TextOf(h) == Text(lines) && ArgumentsOf(h, CallPlace(OrderOf(lines), k)) == ArgumentsFor(fs, Keys(fs)[k])
  {
    EndFits(lines);
    RunFits(lines);
    PushLinesKeep(lines);
    CloseAll(PushLines(INITIAL, lines));
    var r := FinishOpenText(FinishTools(PushLines(INITIAL, lines)));
    assert CallFits(r.tools[k], r.items, Fragments(lines), Close(Shut(OrderOf(lines), Keys(Fragments(lines)))), k);
  }

  /** Text events carry index 0 in every well-formed trace, and a closed message has had one. */
  lemma {:induction false} TextPointsAtFirst(h: Trace, m: nat)
    requires WellFormed(h)
    ensures TextPointsAt(h, 0)
    ensures ClosedMessage(h).Some? && TextPointsAt(h, m) ==> m == 0
  {
    if h.Snoc? {
      assert Allowed(h.before, h.last);
      TextPointsAtFirst(h.before, m);
    }
  }

  /** Text events point at the item that was added for the message exactly when no call opened before
      the first text. */
  lemma {:induction false} TextPointsAtItsMessageIff(lines: seq<Line>)
    requires DoneMark !in lines && HasText(lines)
    ensures var h := End(PushLines(INITIAL, lines), None).trace;
            && MessageAt(h) == OrderOf(lines).place && MessageAt(h).Some?
            && (TextPointsAt(h, MessageAt(h).value) <==> OrderOf(lines).place == Some(0))
  {
    var s := PushLines(INITIAL, lines);
    EndFits(lines);
    RunFits(lines);
    PlaceIffText(lines);
    PushLinesKeep(lines);
    CloseAll(s);
    EndKeeps(s, None);
    TextPointsAtFirst(End(s, None).trace, OrderOf(lines).place.value);
  }

  const TOOL_FIRST := Fragment(Some(0), "a", "f", "{}")
  const TOOL_LINE := Chunk("", None, Some(Choice([TOOL_FIRST], None, "")))
  const TEXT_LINE := Chunk("", None, Some(Choice([], Some("hi"), "")))

  const TOOL_TRACE := Snoc(Snoc(Snoc(Empty, Created("")), ItemAdded(0, Call("a", "f", ""))), ArgumentsDelta(0, "{}"))
  const AFTER_TOOL := INITIAL.(headerSent := true, tools := [Tool(0, "a", "f", "{}", 0, false)],
                               items := [Call("a", "f", "")], trace := TOOL_TRACE)

  lemma ExampleFragment()
    ensures PushFragment(SendHeader(INITIAL), TOOL_FIRST) == AFTER_TOOL
  {
    var s0 := SendHeader(INITIAL);
    assert EnsureTool(s0, TOOL_FIRST) ==
      s0.(tools := [Tool(0, "a", "f", "", 0, false)], items := [Call("a", "f", "")], trace := TOOL_TRACE.before);
    assert FindTool([Tool(0, "a", "f", "", 0, false)], 0) == 0;
    assert "" + "{}" == "{}";
  }

  lemma ExampleTool()
    ensures PushLine(INITIAL, TOOL_LINE) == AFTER_TOOL
  {
    ExampleFragment();
    assert [TOOL_FIRST][1..] == [];
    assert PushFragments(SendHeader(INITIAL), [TOOL_FIRST]) == PushFragments(AFTER_TOOL, []);
  }

  const CLOSED_TRACE := Snoc(Snoc(TOOL_TRACE, ArgumentsDone(0, "{}")), CallDone(0, Call("a", "f", "{}")))
  const TEXT_TRACE := Snoc(Snoc(Snoc(CLOSED_TRACE, ItemAdded(1, Message([]))), PartAdded(0)), TextDelta(0, "hi"))
  const AFTER_TEXT := AFTER_TOOL.(tools := [Tool(0, "a", "f", "{}", 0, true)], items := [Call("a", "f", "{}"), Message([])],
                                  textStarted := true, partStarted := true, text := "hi", trace := TEXT_TRACE)

  lemma ExampleText()
    ensures PushLine(AFTER_TOOL, TEXT_LINE) == AFTER_TEXT
  {
    var closed := FinishTool(AFTER_TOOL, 0);
    assert closed == AFTER_TOOL.(tools := AFTER_TEXT.tools, items := [Call("a", "f", "{}")], trace := CLOSED_TRACE);
    assert FinishToolsFrom(AFTER_TOOL, 0) == FinishToolsFrom(closed, 1) == closed;
    assert "" + "hi" == "hi";
    assert PushContent(AFTER_TOOL, "hi") == AFTER_TEXT;
  }

  lemma ExampleEnd()
    ensures var h := End(AFTER_TEXT, None).trace;
            h.Snoc? && h.last == Completed([Call("a", "f", "{}"), Message([])], Usage(0, 0, 0, 0)) && TextOf(h) == TextOf(TEXT_TRACE)
  {
    FinishedAlready(AFTER_TEXT, 0);
    assert AFTER_TEXT.items[0].Call?;
  }

  lemma ExampleRun()
    ensures PushLines(INITIAL, [TOOL_LINE, TEXT_LINE]) == AFTER_TEXT
  {
    ExampleTool();
    ExampleText();
    assert [TOOL_LINE, TEXT_LINE][..1] == [TOOL_LINE] && [TOOL_LINE][..0] == [];
    assert PushLines(INITIAL, [TOOL_LINE]) == AFTER_TOOL;
  }

  /** Such streams exist: a call opens before the message, and the text is lost from the output. */
  lemma TextAfterToolIsLost()
    ensures var h := End(PushLines(INITIAL, [TOOL_LINE, TEXT_LINE]), None).trace;
            h.Snoc? && h.last == Completed([Call("a", "f", "{}"), Message([])], Usage(0, 0, 0, 0)) && TextOf(h) == "hi"
  {
    ExampleRun();
    ExampleEnd();
    assert TextOf(TEXT_TRACE.before) == "" && "" + "hi" == "hi";
  }

  const STOP_LINE := Chunk("", None, Some(Choice([], None, "stop")))
  const MORE := Fragment(Some(0), "", "", "!")
  const MORE_LINE := Chunk("", None, Some(Choice([MORE], None, "")))

  const AFTER_STOP := AFTER_TOOL.(tools := [Tool(0, "a", "f", "{}", 0, true)], items := [Call("a", "f", "{}")], trace := CLOSED_TRACE)
  const AFTER_MORE := AFTER_STOP.(tools := [Tool(0, "a", "f", "{}!", 0, true)], trace := Snoc(CLOSED_TRACE, ArgumentsDelta(0, "!")))

  lemma ExampleStop()
    ensures PushLine(AFTER_TOOL, STOP_LINE) == AFTER_STOP
  {
    assert FinishTool(AFTER_TOOL, 0) == AFTER_STOP;
    assert FinishToolsFrom(AFTER_TOOL, 0) == FinishToolsFrom(AFTER_STOP, 1) == AFTER_STOP;
  }

  lemma ExampleMore()
    ensures PushLine(AFTER_STOP, MORE_LINE) == AFTER_MORE
  {
    assert EnsureTool(AFTER_STOP, MORE) == AFTER_STOP && FindTool(AFTER_STOP.tools, 0) == 0;
    assert "{}" + "!" == "{}!";
    assert PushFragment(AFTER_STOP, MORE) == AFTER_MORE;
    assert [MORE][1..] == [];
    assert PushFragments(AFTER_STOP, [MORE]) == PushFragments(AFTER_MORE, []);
  }

  lemma ExampleMoreRun()
    ensures PushLines(INITIAL, [TOOL_LINE, STOP_LINE, MORE_LINE]) == AFTER_MORE
  {
    ExampleTool();
    ExampleStop();
    ExampleMore();
    var lines := [TOOL_LINE, STOP_LINE, MORE_LINE];
    assert lines[..2] == [TOOL_LINE, STOP_LINE] && [TOOL_LINE, STOP_LINE][..1] == [TOOL_LINE] && [TOOL_LINE][..0] == [];
    assert PushLines(INITIAL, [TOOL_LINE]) == AFTER_TOOL;
    assert PushLines(INITIAL, [TOOL_LINE, STOP_LINE]) == AFTER_STOP;
  }

  /** And a fragment that comes after its call was closed is streamed but missing from the output. */
  lemma LateFragmentIsLost()
    ensures var h := End(PushLines(INITIAL, [TOOL_LINE, STOP_LINE, MORE_LINE]), None).trace;
            h.Snoc? && h.last == Completed([Call("a", "f", "{}")], Usage(0, 0, 0, 0)) && ArgumentsOf(h, 0) == "{}!"
  {
    ExampleMoreRun();
    FinishedAlready(AFTER_MORE, 0);
    assert End(AFTER_MORE, None).trace == Snoc(AFTER_MORE.trace, Completed([Call("a", "f", "{}")], Usage(0, 0, 0, 0)));
    assert "" + "{}" == "{}" && "{}" + "!" == "{}!";
    assert ArgumentsOf(TOOL_TRACE, 0) == "{}";
    assert ArgumentsOf(CLOSED_TRACE, 0) == "{}";
  }
}
