/** The translator as the closure it is: variables updated line by line
    (lib/proxy/codex-transform.js 156-432). */
module ChatStream {
  import opened ChatTranslator

  // ---------------------------------------------------------------- every trace

  /** For every sequence of lines, and however the stream is ended, the emitted trace is well formed. */
  lemma {:induction false} EveryTraceIsWellFormed(lines: seq<Line>, error: Option<string>)
    ensures WellFormed(PushLines(INITIAL, lines).trace)
    ensures var end := End(PushLines(INITIAL, lines), error); WellFormed(end.trace) && Terminated(end.trace)
  {
    PushLinesKeep(lines);
    EndKeeps(PushLines(INITIAL, lines), error);
  }

  /** Nothing follows a terminal event, so a well-formed trace holds at most one. */
  lemma {:induction false} TerminalIsLast(h: Trace)
    requires WellFormed(h)
    ensures h.Snoc? ==> !Terminated(h.before)
  {
    if h.Snoc? {
      assert Allowed(h.before, h.last);
    }
  }

  // ---------------------------------------------------------------- the closure

  /** Closing calls does not look at the finished flag, so it may be raised first. */
  lemma {:induction false} FinishIgnoresFlag(s: State, i: nat)
    requires i <= |s.tools|
    ensures FinishToolsFrom(s.(finished := true), i) == FinishToolsFrom(s, i).(finished := true)
    decreases |s.tools| - i
  {
    if i < |s.tools| {
      assert FinishTool(s.(finished := true), i) == FinishTool(s, i).(finished := true);
      FinishIgnoresFlag(FinishTool(s, i), i + 1);
    }
  }

  lemma EndFlagFirst(s: State)
    requires !s.finished
    ensures var r := FinishOpenText(FinishTools(s.(finished := true))); End(s, None) == Emit(r, Completed(r.items, r.usage))
  {
    FinishIgnoresFlag(s, 0);
  }

  class Translator {
    var finished: bool
    var headerSent: bool
    var textStarted: bool
    var textPartStarted: bool
    var textFinished: bool
    var text: string
    /** The insertion-ordered map from chat index to open call. */
    var tools: seq<Tool>
    var items: seq<Item>
    var usage: Usage
    var model: string
    var emitted: Trace

    ghost function Now(): State
      reads this
    {
      State(finished, headerSent, textStarted, textPartStarted, textFinished, text, tools, items, usage, model, emitted)
    }

    constructor ()
      ensures Now() == INITIAL
    {
      finished, headerSent, textStarted, textPartStarted, textFinished := false, false, false, false, false;
      text, tools, items, usage, model, emitted := "", [], [], Usage(0, 0, 0, 0), "", Empty;
    }

    method Sse(e: Event)
      modifies this`emitted
      ensures Now() == Emit(old(Now()), e)
    {
      emitted := Snoc(emitted, e);
    }

    method EnsureTextItem()
      modifies this
      ensures Now() == EnsureText(old(Now()))
    {
      if textFinished {
        return;
      }
      if !textStarted {
        items := items + [Message([])];
        Sse(ItemAdded(|items| - 1, Message([])));
        textStarted := true;
      }
      if !textPartStarted {
        Sse(PartAdded(0));
        textPartStarted := true;
      }
    }

    method FinishTextItem(fullText: string)
      requires fullText == text
      modifies this
      ensures Now() == FinishText(old(Now()))
    {
      if textFinished {
        return;
      }
      Sse(TextDone(0, fullText));
      Sse(PartDone(0, fullText));
      Sse(MessageDone(0, Message([fullText])));
      if |items| > 0 && items[0].Message? {
        items := items[0 := Message([fullText])];
      }
      textFinished := true;
    }

    method FinishOpenTextItem()
      modifies this
      ensures Now() == FinishOpenText(old(Now()))
    {
      if textStarted && !textFinished {
        FinishTextItem(text);
      }
    }

    method EnsureToolItem(f: Fragment) returns (i: nat)
      modifies this
      ensures Now() == EnsureTool(old(Now()), f)
      ensures i < |tools| && i == FindTool(tools, KeyOf(f))
    {
      i := FindTool(tools, KeyOf(f));
      ghost var before := tools;
      if i < |tools| {
        if f.name != "" && tools[i].name == "" {
          tools := tools[i := tools[i].(name := f.name)];
        }
        SameKeys(before, tools, KeyOf(f));
        return;
      }
      var t := Tool(KeyOf(f), if f.id != "" then f.id else FallbackId(|tools|), f.name, "", |items|, false);
      FindAppended(tools, t);
      tools := tools + [t];
      items := items + [Call(t.id, t.name, "")];
      Sse(ItemAdded(t.outputIndex, Call(t.id, t.name, "")));
    }

    method FinishToolItem(i: nat)
      requires i < |tools|
      modifies this
      ensures Now() == FinishTool(old(Now()), i)
    {
      var t := tools[i];
      if t.done {
        return;
      }
      Sse(ArgumentsDone(t.outputIndex, t.arguments));
      Sse(CallDone(t.outputIndex, Call(t.id, t.name, t.arguments)));
      if t.outputIndex < |items| {
        items := items[t.outputIndex := Call(t.id, t.name, t.arguments)];
      }
      tools := tools[i := t.(done := true)];
    }

    method FinishToolItems()
      modifies this
      ensures Now() == FinishTools(old(Now()))
    {
      var i := 0;
      while i < |tools|
        invariant i <= |tools|
        invariant FinishToolsFrom(Now(), i) == FinishTools(old(Now()))
        decreases |tools| - i
      {
        FinishToolItem(i);
        i := i + 1;
      }
    }

    method PushToolCalls(calls: seq<Fragment>)
      modifies this
      ensures Now() == PushFragments(old(Now()), calls)
    {
      var n := 0;
      while n < |calls|
        invariant n <= |calls|
        invariant PushFragments(Now(), calls[n..]) == PushFragments(old(Now()), calls)
      {
        ghost var before := Now();
        var f := calls[n];
        var i := EnsureToolItem(f);
        if f.arguments != "" {
          tools := tools[i := tools[i].(arguments := tools[i].arguments + f.arguments)];
          Sse(ArgumentsDelta(tools[i].outputIndex, f.arguments));
        }
        assert Now() == PushFragment(before, f) && calls[n..][1..] == calls[n + 1..];
        n := n + 1;
      }
    }

    method PushText(content: string)
      modifies this
      ensures Now() == PushContent(old(Now()), content)
    {
      FinishToolItems();
      EnsureTextItem();
      text := text + content;
      Sse(TextDelta(0, content));
    }

    method PushChunk(c: Choice)
      modifies this
      ensures Now() == PushChoice(old(Now()), c)
    {
      if !headerSent {
        headerSent := true;
        Sse(Created(model));
      }
      if c.tools != [] {
        FinishOpenTextItem();
        PushToolCalls(c.tools);
        return;
      }
      if c.content.Some? {
        PushText(c.content.value);
        return;
      }
      if c.finish == "stop" || c.finish == "length" {
        FinishToolItems();
        FinishOpenTextItem();
      }
    }

    method Push(line: Line)
      modifies this
      ensures Now() == PushLine(old(Now()), line)
    {
      if finished {
        return;
      }
      match line
      case Noise =>
      case DoneMark => Close(None);
      case Chunk(m, u, choice) =>
        if m != "" {
          model := m;
        }
        if u.Some? {
          usage := u.value;
        }
        if choice.Some? {
          PushChunk(choice.value);
        }
    }

    method Close(error: Option<string>)
      modifies this
      ensures Now() == End(old(Now()), error)
    {
      if finished {
        return;
      }
      finished := true;
      if error.Some? {
        Sse(Failed(error.value));
        return;
      }
      EndFlagFirst(old(Now()));
      FinishToolItems();
      FinishOpenTextItem();
      Sse(Completed(items, usage));
    }
  }
}
