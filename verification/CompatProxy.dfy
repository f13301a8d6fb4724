/** The imperative form of the responses-compat proxy: one attempt's tracker with its queue of
    held-back writes, the nested reading loops with their early exits, and the loop over attempts. */
module CompatProxy {
  import opened SseLines
  import opened ResponsesCompat
  import opened CompatTurn

  class Tracker {
    var currentEvent: string
    var currentData: seq<string>
    var completed: bool
    var failed: bool
    var sawOutput: bool
    var committed: bool
    var retryBusy: bool
    var failedMessage: string
    var pendingWrites: seq<string>
    var written: string
    const attempt: nat
    const host: Host

    constructor (attempt: nat, host: Host)
      ensures Now() == FRESH && this.attempt == attempt && this.host == host
    {
      currentEvent, currentData, failedMessage, pendingWrites, written := "", [], "", [], "";
      completed, failed, sawOutput, committed, retryBusy := false, false, false, false, false;
      this.attempt, this.host := attempt, host;
    }

    function Now(): Track
      reads this
    {
      Track(currentEvent, currentData, completed, failed, sawOutput, committed, retryBusy, failedMessage,
            Concat(pendingWrites), written)
    }

    method Write(text: string)
      modifies this`written, this`pendingWrites
      ensures Now() == WriteOut(old(Now()), text)
    {
      if committed {
        written := written + text;
      } else {
        ConcatSnoc(pendingWrites, text);
        pendingWrites := pendingWrites + [text];
      }
    }

    method CommitPending()
      modifies this`committed, this`written, this`pendingWrites
      ensures Now() == Commit(old(Now()))
    {
      if committed {
        return;
      }
      committed := true;
      while pendingWrites != []
        invariant committed
        invariant written + Concat(pendingWrites) == old(written) + Concat(old(pendingWrites))
        decreases |pendingWrites|
      {
        Reassociate3(written, pendingWrites[0], Concat(pendingWrites[1..]));
        written := written + pendingWrites[0];
        pendingWrites := pendingWrites[1..];
      }
      assert written + "" == written;
    }

    method CommitOrRetry()
      modifies this`committed, this`written, this`pendingWrites, this`retryBusy
      ensures Now() == Decide(old(Now()), attempt, host)
    {
      if sawOutput || completed {
        CommitPending();
      }
      if failed {
        if !committed && !sawOutput && host.busy(failedMessage) && attempt < BUSY_RETRY_MAX {
          retryBusy := true;
        } else {
          CommitPending();
        }
      }
    }

    method FinishTrackedEvent()
      modifies this
      ensures Now() == FinishEvent(old(Now()), attempt, host)
    {
      if currentEvent == "" && currentData == [] {
        return;
      }
      var e := EventOf(currentEvent, currentData, host);
      currentEvent, currentData := "", [];
      match e.kind {
        case Output => sawOutput := true;
        case Completion => completed := true;
        case Failing =>
          failed := true;
          if failedMessage == "" {
            failedMessage := e.failure;
          }
        case Other =>
      }
      assert Now() == NoteEvent(old(Now()), e);
      CommitOrRetry();
    }

    method TrackSseLine(line: string)
      modifies this
      ensures Now() == TrackLine(old(Now()), line, attempt, host)
    {
      match host.read(line)
      case Blank => FinishTrackedEvent();
      case EventName(name) => currentEvent := name;
      case DataPart(text) => currentData := currentData + [text];
      case Ignored =>
    }

    /** Reads the chunks up to the end of the stream, a terminal event or a busy failure. */
    method ReadStream(chunks: seq<string>) returns (stopped: bool, rest: string)
      requires !Stopped(Now())
      modifies this
      ensures (Now(), rest) == ReadAll(old(Now()), "", chunks, attempt, host) && stopped == Stopped(Now())
    {
      var i, buffer := 0, "";
      while i < |chunks|
        invariant 0 <= i <= |chunks| && !Stopped(Now())
        invariant ReadAll(old(Now()), "", chunks, attempt, host) == ReadAll(Now(), buffer, chunks[i..], attempt, host)
      {
        assert chunks[i..][0] == chunks[i] && chunks[i..][1..] == chunks[i + 1..];
        buffer := buffer + chunks[i];
        i := i + 1;
        buffer := ReadLines(buffer);
        if Stopped(Now()) {
          return true, buffer;
        }
      }
      return false, buffer;
    }

    method ReadLines(input: string) returns (buffer: string)
      requires !Stopped(Now())
      modifies this
      ensures (Now(), buffer) == Consume(old(Now()), input, attempt, host)
    {
      buffer := input;
      var n := NewlineAt(buffer);
      while n < |buffer|
        invariant n == NewlineAt(buffer) && !Stopped(Now())
        invariant Consume(old(Now()), input, attempt, host) == Consume(Now(), buffer, attempt, host)
        decreases |buffer|
      {
        var line := buffer[..n];
        buffer := buffer[n + 1..];
        TrackSseLine(line);
        Write(line + "\n");
        if retryBusy || completed || failed {
          return;
        }
        n := NewlineAt(buffer);
      }
    }

    method ReadToEnd(chunks: seq<string>)
      requires Now() == FRESH
      modifies this
      ensures Now() == StreamAttempt(chunks, attempt, host)
    {
      var stopped, rest := ReadStream(chunks);
      if !stopped {
        if rest != "" {
          TrackSseLine(rest);
          Write(rest);
        }
        FinishTrackedEvent();
      }
    }
  }

  lemma {:induction false} ConcatSnoc(writes: seq<string>, text: string)
    ensures Concat(writes + [text]) == Concat(writes) + text
    decreases |writes|
  {
    if writes == [] {
      assert Concat([text]) == text + "";
    } else {
      ConcatSnoc(writes[1..], text);
      assert (writes + [text])[1..] == writes[1..] + [text];
      Reassociate3(writes[0], Concat(writes[1..]), text);
    }
  }

  method ServeStream(s: Turn, chunks: seq<string>, end: StreamEnd, leaves: Leaves, attempt: nat, host: Host) returns (turn: Turn, again: bool)
    ensures (turn, again) == RunStream(s, chunks, end, leaves, attempt, host)
  {
    var tracker := new Tracker(attempt, host);
    var stopped, rest := tracker.ReadStream(chunks);
    if !stopped && leaves.WhileReading? {
      return EndStream(Leave(s.(body := s.body + tracker.written)), tracker.Now()), false;
    }
    if !stopped && end.ReadError? {
      tracker.CommitPending();
      return EndStream(Append(s.(body := s.body + tracker.written), StreamFailed), tracker.Now()), false;
    }
    if !stopped {
      if rest != "" {
        tracker.TrackSseLine(rest);
        tracker.Write(rest);
      }
      tracker.FinishTrackedEvent();
    }
    turn := LeaveIf(s.(body := s.body + tracker.written), leaves.WhileReading?);
    if tracker.retryBusy {
      return LeaveIf(turn, leaves.WhileBackingOff?), true;
    }
    if !tracker.completed && !tracker.failed {
      tracker.CommitPending();
      turn := Append(turn.(body := s.body + tracker.written), InjectedCompleted);
    }
    return EndStream(turn, tracker.Now()), false;
  }

  /** One pass of the loop: the dial, then either the error body and the repair hook or the stream. A
      disconnect during the dial aborts it. */
  method ServeAttempt(s: Turn, a: Attempt, attempt: nat, retryMax: nat, host: Host) returns (turn: Turn, again: bool)
    ensures (turn, again) == RunAttempt(s, a, attempt, retryMax, host)
  {
    turn := s.(dials := s.dials + 1);
    var unreachable := a.upstream.Unreachable?;
    if a.leaves.WhileDialing? {
      unreachable := unreachable || !turn.closed;
      turn := Leave(turn);
    }
    if unreachable {
      turn := Settle(turn, ConnectFailed);
      turn := Append(turn, SendFailed);
      return turn.(ended := true), false;
    }
    if a.upstream.Rejected? {
      if a.leaves.WhileReadingError? {
        turn := Leave(turn);
      }
      if !turn.closed && turn.repairs < retryMax {
        if a.leaves.WhileRepairing? {
          turn := Leave(turn);
        }
        if a.upstream.hookRetries {
          return turn.(repairs := turn.repairs + 1), true;
        }
      }
      turn := Settle(turn, HttpError);
      turn := Append(turn, SendFailed);
      return turn.(ended := true), false;
    }
    if turn.closed {
      return EndStream(turn, FRESH), false;
    }
    turn, again := ServeStream(turn, a.upstream.chunks, a.upstream.end, a.leaves, attempt, host);
  }

  /** The retry loop: it always returns from inside, and does what `RunTurn` says. */
  method ServeTurn(attempts: nat -> Attempt, retryMax: nat, parse: string -> Option<Payload>, busy: string -> bool) returns (turn: Turn)
    ensures turn == RunTurn(attempts, retryMax, ProxyHost(parse, busy)).0
    ensures turn.ended && |turn.reports| == 1 && turn.dials <= BUSY_RETRY_MAX + retryMax
  {
    var host := ProxyHost(parse, busy);
    EveryTurnReturns(attempts, retryMax, host);
    turn := START;
    var attempt: nat := 1;
    while attempt <= BUSY_RETRY_MAX + retryMax
      invariant Loop(turn, Pass(attempts, retryMax, host), attempt, BUSY_RETRY_MAX + retryMax) == RunTurn(attempts, retryMax, host)
      decreases BUSY_RETRY_MAX + retryMax + 1 - attempt
    {
      var again: bool;
      LoopStep(turn, Pass(attempts, retryMax, host), attempt, BUSY_RETRY_MAX + retryMax);
      turn, again := ServeAttempt(turn, attempts(attempt), attempt, retryMax, host);
      if !again {
        return;
      }
      attempt := attempt + 1;
    }
    turn := turn.(ended := true);
  }
}
