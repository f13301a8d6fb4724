/** Incremental reading of newline-separated text, as the event-stream readers do it: append the
    chunk to a buffer, hand every complete line to a handler, keep the unfinished tail. A handler
    may throw; the lines after it then stay in the buffer. */
module SseLines {

  datatype Option<+T> = None | Some(value: T)

  /** `Next(s)`: the line was handled; `Throws(s)`: it escaped with an exception, state being s. */
  datatype Step<+S> = Next(state: S) | Throws(state: S)

  datatype Tee<+S> = Tee(buffer: string, state: S)

  /** The index of the first newline, or |s| when there is none. */
  function NewlineAt(s: string): (n: nat)
    ensures n <= |s|
    ensures n < |s| ==> s[n] == '\n'
    ensures forall i | 0 <= i < n :: s[i] != '\n'
  {
    if s == "" then 0 else if s[0] == '\n' then 0 else 1 + NewlineAt(s[1..])
  }

  function Drain<S>(t: Tee<S>, handle: (S, string) -> Step<S>): Tee<S>
    decreases |t.buffer|
  {
    var n := NewlineAt(t.buffer);
    if n == |t.buffer| then t
    else
      match handle(t.state, t.buffer[..n])
      case Next(s) => Drain(Tee(t.buffer[n + 1..], s), handle)
      case Throws(s) => Tee(t.buffer[n + 1..], s)
  }

  function Feed<S>(t: Tee<S>, chunk: string, handle: (S, string) -> Step<S>): Tee<S> {
    Drain(Tee(t.buffer + chunk, t.state), handle)
  }

  function FeedAll<S>(t: Tee<S>, chunks: seq<string>, handle: (S, string) -> Step<S>): Tee<S>
    decreases |chunks|
  {
    if chunks == [] then t else FeedAll(Feed(t, chunks[0], handle), chunks[1..], handle)
  }

  function Concat(chunks: seq<string>): string {
    if chunks == [] then "" else chunks[0] + Concat(chunks[1..])
  }

  /** The complete lines of a text, without their newlines, and what follows the last newline. */
  function Lines(s: string): seq<string>
    decreases |s|
  {
    var n := NewlineAt(s);
    if n == |s| then [] else [s[..n]] + Lines(s[n + 1..])
  }

  function Tail(s: string): string
    decreases |s|
  {
    var n := NewlineAt(s);
    if n == |s| then s else Tail(s[n + 1..])
  }

  function Fold<S>(s: S, lines: seq<string>, handle: (S, string) -> Step<S>): S {
    if lines == [] then s else Fold(handle(s, lines[0]).state, lines[1..], handle)
  }

  /** Handling the lines in order from `s`, no line before the last one throws. */
  ghost predicate SafeBeforeLast<S>(s: S, lines: seq<string>, handle: (S, string) -> Step<S>) {
    |lines| >= 2 ==> handle(s, lines[0]).Next? && SafeBeforeLast(handle(s, lines[0]).state, lines[1..], handle)
  }

  lemma NewlineOfConcat(a: string, b: string)
    ensures NewlineAt(a) < |a| ==> NewlineAt(a + b) == NewlineAt(a)
    ensures NewlineAt(a) == |a| ==> NewlineAt(a + b) == |a| + NewlineAt(b)
  {
    assert forall i | 0 <= i < |a| :: (a + b)[i] == a[i];
    assert forall i | 0 <= i < |b| :: (a + b)[|a| + i] == b[i];
  }

  /** While nothing throws before the last line, draining is folding the handler over the complete
      lines, with the text after the last newline left in the buffer. */
  lemma {:induction false} DrainIsFold<S>(s: S, text: string, handle: (S, string) -> Step<S>)
    requires SafeBeforeLast(s, Lines(text), handle)
    ensures Drain(Tee(text, s), handle) == Tee(Tail(text), Fold(s, Lines(text), handle))
    decreases |text|
  {
    var n := NewlineAt(text);
    if n < |text| {
      var rest := text[n + 1..];
      assert Lines(text)[1..] == Lines(rest);
      var step := handle(s, text[..n]);
      if step.Next? {
        DrainIsFold(step.state, rest, handle);
      } else {
        assert Lines(rest) == [];
        assert NewlineAt(rest) == |rest|;
      }
    }
  }

  lemma {:induction false} DrainCons<S>(s: S, line: string, rest: string, handle: (S, string) -> Step<S>)
    requires NewlineAt(line) == |line|
    ensures Drain(Tee(line + "\n" + rest, s), handle) ==
            match handle(s, line) case Next(s') => Drain(Tee(rest, s'), handle) case Throws(s') => Tee(rest, s')
  {
    var text := line + "\n" + rest;
    NewlineOfConcat(line, "\n" + rest);
    assert text == line + ("\n" + rest);
    assert text[..|line|] == line && text[|line| + 1..] == rest;
  }

  lemma FirstLine(text: string) returns (line: string, rest: string)
    requires NewlineAt(text) < |text|
    ensures text == line + "\n" + rest && NewlineAt(line) == |line| == NewlineAt(text)
    ensures Lines(text) == [line] + Lines(rest)
  {
    var n := NewlineAt(text);
    line, rest := text[..n], text[n + 1..];
  }

  lemma Reassociate(line: string, a: string, b: string)
    ensures line + "\n" + a + b == line + "\n" + (a + b)
  {
  }

  lemma LinesCons(line: string, rest: string)
    requires NewlineAt(line) == |line|
    ensures Lines(line + "\n" + rest) == [line] + Lines(rest)
  {
    var text := line + "\n" + rest;
    NewlineOfConcat(line, "\n" + rest);
    assert text == line + ("\n" + rest);
    assert text[..|line|] == line && text[|line| + 1..] == rest;
  }

  lemma {:induction false} DrainSplit<S>(s: S, a: string, b: string, handle: (S, string) -> Step<S>)
    requires SafeBeforeLast(s, Lines(a + b), handle)
    ensures var first := Drain(Tee(a, s), handle);
            Drain(Tee(first.buffer + b, first.state), handle) == Drain(Tee(a + b, s), handle)
    decreases |a|
  {
    if NewlineAt(a) < |a| {
      var line, rest := FirstLine(a);
      Reassociate(line, rest, b);
      LinesCons(line, rest + b);
      assert Lines(a + b)[1..] == Lines(rest + b);
      DrainCons(s, line, rest, handle);
      DrainCons(s, line, rest + b, handle);
      if handle(s, line).Next? {
        DrainSplit(handle(s, line).state, rest, b, handle);
      } else {
        assert Lines(rest + b) == [];
      }
    }
  }

  /** Chunk boundaries do not matter as long as no line before the last one throws. */
  lemma FeedSplit<S>(t: Tee<S>, a: string, b: string, handle: (S, string) -> Step<S>)
    requires SafeBeforeLast(t.state, Lines(t.buffer + a + b), handle)
    ensures Feed(Feed(t, a, handle), b, handle) == Feed(t, a + b, handle)
  {
    assert t.buffer + (a + b) == t.buffer + a + b;
    DrainSplit(t.state, t.buffer + a, b, handle);
  }

  lemma TailRest(line: string, rest: string)
    requires NewlineAt(line) == |line|
    ensures Tail(line + "\n" + rest) == Tail(rest)
  {
    var text := line + "\n" + rest;
    NewlineOfConcat(line, "\n" + rest);
    assert text == line + ("\n" + rest);
    assert text[|line| + 1..] == rest;
  }

  lemma {:induction false} LinesOfConcat(a: string, b: string)
    ensures Lines(a + b) == Lines(a) + Lines(Tail(a) + b)
    decreases |a|
  {
    if NewlineAt(a) < |a| {
      var line, rest := FirstLine(a);
      Reassociate(line, rest, b);
      LinesCons(line, rest + b);
      LinesOfConcat(rest, b);
      TailRest(line, rest);
      assert [line] + (Lines(rest) + Lines(Tail(rest) + b)) == [line] + Lines(rest) + Lines(Tail(rest) + b);
    }
  }

  lemma {:induction false} SafeOfConcat<S>(s: S, a: seq<string>, b: seq<string>, handle: (S, string) -> Step<S>)
    requires SafeBeforeLast(s, a + b, handle)
    ensures SafeBeforeLast(s, a, handle) && SafeBeforeLast(Fold(s, a, handle), b, handle)
    decreases |a|
  {
    if a == [] {
      assert a + b == b;
    } else {
      assert (a + b)[1..] == a[1..] + b;
      if |a + b| >= 2 {
        SafeOfConcat(handle(s, a[0]).state, a[1..], b, handle);
      }
    }
  }

  /** One chunk of a safe text: the complete lines so far are folded, and the rest stays safe. */
  lemma SafeChunk<S>(t: Tee<S>, chunk: string, rest: string, handle: (S, string) -> Step<S>)
    requires SafeBeforeLast(t.state, Lines(t.buffer + chunk + rest), handle)
    ensures var t1 := Feed(t, chunk, handle);
            SafeBeforeLast(t1.state, Lines(t1.buffer + rest), handle) && NewlineAt(t1.buffer) == |t1.buffer|
  {
    var front := t.buffer + chunk;
    LinesOfConcat(front, rest);
    SafeOfConcat(t.state, Lines(front), Lines(Tail(front) + rest), handle);
    DrainIsFold(t.state, front, handle);
    TailHasNoNewline(front);
  }

  /** However a safe text is cut into chunks, it gives the state and buffer of feeding it at once. */
  lemma {:induction false} SafeAnyChunking<S>(t: Tee<S>, chunks: seq<string>, handle: (S, string) -> Step<S>)
    requires NewlineAt(t.buffer) == |t.buffer| && SafeBeforeLast(t.state, Lines(t.buffer + Concat(chunks)), handle)
    ensures FeedAll(t, chunks, handle) == Feed(t, Concat(chunks), handle)
    decreases |chunks|
  {
    if chunks == [] {
      assert t.buffer + "" == t.buffer;
    } else {
      assert t.buffer + Concat(chunks) == t.buffer + chunks[0] + Concat(chunks[1..]);
      FeedSplit(t, chunks[0], Concat(chunks[1..]), handle);
      SafeChunk(t, chunks[0], Concat(chunks[1..]), handle);
      SafeAnyChunking(Feed(t, chunks[0], handle), chunks[1..], handle);
    }
  }

  /** A reader whose handler never throws is therefore safe under any chunking whatsoever. */
  lemma FeedAnyChunking<S>(t: Tee<S>, chunks: seq<string>, handle: (S, string) -> Step<S>)
    requires NewlineAt(t.buffer) == |t.buffer|
    requires forall s, line :: handle(s, line).Next?
    ensures FeedAll(t, chunks, handle) == Feed(t, Concat(chunks), handle)
  {
    NeverThrows(t.state, Lines(t.buffer + Concat(chunks)), handle);
    SafeAnyChunking(t, chunks, handle);
  }

  lemma {:induction false} NeverThrows<S>(s: S, lines: seq<string>, handle: (S, string) -> Step<S>)
    requires forall s', line :: handle(s', line).Next?
    ensures SafeBeforeLast(s, lines, handle)
    decreases |lines|
  {
    if |lines| >= 2 {
      NeverThrows(handle(s, lines[0]).state, lines[1..], handle);
    }
  }

  lemma {:induction false} TailHasNoNewline(s: string)
    ensures NewlineAt(Tail(s)) == |Tail(s)|
    decreases |s|
  {
    var n := NewlineAt(s);
    if n < |s| {
      TailHasNoNewline(s[n + 1..]);
    }
  }

  lemma {:induction false} DrainShrinks<S>(t: Tee<S>, handle: (S, string) -> Step<S>)
    ensures |Drain(t, handle).buffer| <= |t.buffer|
    ensures NewlineAt(t.buffer) < |t.buffer| ==> |Drain(t, handle).buffer| < |t.buffer|
    decreases |t.buffer|
  {
    var n := NewlineAt(t.buffer);
    if n < |t.buffer| {
      DrainShrinks(Tee(t.buffer[n + 1..], handle(t.state, t.buffer[..n]).state), handle);
    }
  }

  /** Feeding `a` then `b` ends differently from feeding `text` at once. */
  ghost predicate SplitShows<S>(s: S, text: string, a: string, b: string, handle: (S, string) -> Step<S>) {
    var first := Drain(Tee(a, s), handle);
    Drain(Tee(first.buffer + b, first.state), handle) != Drain(Tee(text, s), handle)
  }

  lemma {:induction false} ThrowShows<S>(s: S, line: string, rest: string, handle: (S, string) -> Step<S>)
    requires NewlineAt(line) == |line| && NewlineAt(rest) < |rest| && handle(s, line).Throws?
    ensures SplitShows(s, line + "\n" + rest, line + "\n", rest, handle)
  {
    DrainCons(s, line, rest, handle);
    DrainCons(s, line, "", handle);
    assert line + "\n" + "" == line + "\n";
    assert "" + rest == rest;
    DrainShrinks(Tee(rest, handle(s, line).state), handle);
  }

  lemma {:induction false} LaterShows<S>(s: S, line: string, rest: string, a: string, b: string, handle: (S, string) -> Step<S>)
    requires NewlineAt(line) == |line| && handle(s, line).Next?
    requires SplitShows(handle(s, line).state, rest, a, b, handle)
    ensures SplitShows(s, line + "\n" + rest, line + "\n" + a, b, handle)
  {
    DrainCons(s, line, rest, handle);
    DrainCons(s, line, a, handle);
  }

  lemma {:induction false} UnsafeSplit<S>(s: S, text: string, handle: (S, string) -> Step<S>) returns (a: string, b: string)
    requires !SafeBeforeLast(s, Lines(text), handle)
    ensures a + b == text && NewlineAt(text) < |a| && SplitShows(s, text, a, b, handle)
    decreases |text|
  {
    var line, rest := FirstLine(text);
    assert Lines(text)[1..] == Lines(rest);
    if handle(s, line).Throws? {
      a, b := line + "\n", rest;
      ThrowShows(s, line, rest, handle);
    } else {
      a, b := UnsafeSplit(handle(s, line).state, rest, handle);
      LaterShows(s, line, rest, a, b, handle);
      Reassociate(line, a, b);
      a := line + "\n" + a;
    }
  }

  lemma SplitInsideText<S>(t: Tee<S>, text: string, a: string, b: string, handle: (S, string) -> Step<S>) returns (a': string)
    requires NewlineAt(t.buffer) == |t.buffer|
    requires a + b == t.buffer + text && NewlineAt(t.buffer + text) < |a|
    ensures a' + b == text && t.buffer + a' == a
  {
    NewlineOfConcat(t.buffer, text);
    a' := a[|t.buffer|..];
    assert a == (a + b)[..|a|];
    assert (a + b)[..|t.buffer|] == t.buffer;
    assert a' + b == (a + b)[|t.buffer|..];
  }

  /** The chunking of a stream, into however many pieces, is unobservable exactly when no line before
      the last complete one makes the handler throw. */
  lemma ChunkingUnobservableIff<S(!new)>(t: Tee<S>, text: string, handle: (S, string) -> Step<S>)
    requires NewlineAt(t.buffer) == |t.buffer|
    ensures (forall chunks | Concat(chunks) == text :: FeedAll(t, chunks, handle) == Feed(t, text, handle))
            <==> SafeBeforeLast(t.state, Lines(t.buffer + text), handle)
  {
    if SafeBeforeLast(t.state, Lines(t.buffer + text), handle) {
      forall chunks | Concat(chunks) == text ensures FeedAll(t, chunks, handle) == Feed(t, text, handle) {
        SafeAnyChunking(t, chunks, handle);
      }
    } else {
      var a, b := UnsafeSplit(t.state, t.buffer + text, handle);
      var a' := SplitInsideText(t, text, a, b, handle);
      TwoChunks(t, a', b, handle);
      assert FeedAll(t, [a', b], handle) != Feed(t, text, handle);
    }
  }

  lemma TwoChunks<S>(t: Tee<S>, a: string, b: string, handle: (S, string) -> Step<S>)
    ensures Concat([a, b]) == a + b && FeedAll(t, [a, b], handle) == Feed(Feed(t, a, handle), b, handle)
  {
    assert [a, b][1..] == [b] && [b][1..] == [] && b + "" == b;
    assert Concat([a, b]) == a + Concat([b]) && Concat([b]) == b + Concat([]);
    assert FeedAll(t, [a, b], handle) == FeedAll(Feed(t, a, handle), [b], handle);
  }

  /** The reader as it runs: a buffer and a state updated chunk by chunk. */
  class LineReader<S> {
    var buffer: string
    var state: S
    const handle: (S, string) -> Step<S>

    constructor (initial: S, handle: (S, string) -> Step<S>)
      ensures this.handle == handle && Now() == Tee("", initial)
    {
      this.buffer, this.state, this.handle := "", initial, handle;
    }

    function Now(): Tee<S>
      reads this
    {
      Tee(buffer, state)
    }

    method Push(chunk: string)
      modifies this
      ensures Now() == Feed(old(Now()), chunk, handle)
    {
      buffer := buffer + chunk;
      var n := NewlineAt(buffer);
      while n < |buffer|
        invariant n == NewlineAt(buffer)
        invariant Drain(Now(), handle) == Feed(old(Now()), chunk, handle)
        decreases |buffer|
      {
        var step := handle(state, buffer[..n]);
        buffer, state := buffer[n + 1..], step.state;
        if step.Throws? {
          return;
        }
        n := NewlineAt(buffer);
      }
    }
  }
}
