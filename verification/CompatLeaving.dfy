/** A client that leaves during a turn of the retry proxy: when its leaving is noticed, what it was
    sent before, and how the turn ends (lib/proxy/codex.js 699-935). */
module CompatLeaving {
  import opened SseLines
  import opened ResponsesCompat
  import opened CompatTurn

  /** An output event ends within these complete lines. */
  predicate OutputWithin(event: string, data: seq<string>, lines: seq<string>, h: Host)
    decreases |lines|
  {
    lines != [] &&
    if h.read(lines[0]).Blank? then
      (Ending(event, data, h).Some? && Ending(event, data, h).value.kind.Output?) || OutputWithin("", [], lines[1..], h)
    else OutputWithin(NextEvent(event, h.read(lines[0])), NextData(data, h.read(lines[0])), lines[1..], h)
  }

  /** The client leaves during the n-th dial, at a moment that this dial has; what holds before it is
      that it is connected. */
  predicate LeavesAt(attempts: nat -> Attempt, n: nat, retryMax: nat, h: Host) {
    var upstream := attempts(n).upstream;
    match attempts(n).leaves
    case Never => false
    case WhileDialing => true
    case WhileReadingError => upstream.Rejected?
    case WhileRepairing => upstream.Rejected? && Rejections(attempts, n) < retryMax
    case WhileReading => upstream.Stream?
    case WhileBackingOff => upstream.Stream? && RetriedAt(attempts, n, retryMax, h)
  }

  /** The turn does not notice before it makes one more dial. */
  predicate GoesOn(a: Attempt, attempt: nat, h: Host) {
    match a.leaves
    case WhileRepairing => a.upstream == Rejected(true)
    case WhileReading =>
      && a.upstream.Stream? && EndsWithin("", [], Lines(Concat(a.upstream.chunks)), h)
      && Abandons(CutAt("", [], Concat(a.upstream.chunks), h), attempt, h)
    case WhileBackingOff => true
    case _ => false
  }

  /** What has been sent to a client that leaves during this dial: nothing, unless it leaves while a stream
      is read; then the text up to an ending event, or else the complete lines once there was output. */
  ghost predicate Sent(body: string, a: Attempt, h: Host) {
    if !a.upstream.Stream? || !a.leaves.WhileReading? then body == ""
    else
      var text := Concat(a.upstream.chunks);
      if EndsWithin("", [], Lines(text), h) then body == CutAt("", [], text, h).prefix
      else if OutputWithin("", [], Lines(text), h) then body + Tail(text) == text
      else body == ""
  }

  // ---------------------------------------------------------------- what was written before

  lemma LineSaw(t: Track, line: string, attempt: nat, h: Host)
    requires Buffering(t)
    ensures var t1 := WriteOut(TrackLine(t, line, attempt, h), line + "\n"); var l := h.read(line);
            !Stopped(t1) ==>
              && Buffering(t1)
              && t1.event == (if l.Blank? then "" else NextEvent(t.event, l))
              && t1.data == (if l.Blank? then [] else NextData(t.data, l))
              && (t1.sawOutput <==> t.sawOutput || (l.Blank? && Ending(t.event, t.data, h).Some? && Ending(t.event, t.data, h).value.kind.Output?))
  {
  }

  lemma {:induction false} ConsumeSaw(t: Track, buffer: string, attempt: nat, h: Host)
    requires Buffering(t)
    ensures var t1 := Consume(t, buffer, attempt, h).0;
            !Stopped(t1) ==> (t1.sawOutput <==> t.sawOutput || OutputWithin(t.event, t.data, Lines(buffer), h))
    decreases |buffer|
  {
    var n := NewlineAt(buffer);
    if n < |buffer| {
      var line, rest := buffer[..n], buffer[n + 1..];
      var t1 := WriteOut(TrackLine(t, line, attempt, h), line + "\n");
      ConsumeStep(t, buffer, line, rest, t1, attempt, h);
      LineSaw(t, line, attempt, h);
      if !Stopped(t1) {
        ConsumeSaw(t1, rest, attempt, h);
        assert Lines(buffer)[0] == line && Lines(buffer)[1..] == Lines(rest);
      }
    }
  }

  /** What is written when the reading of a stream breaks off. */
  lemma WrittenSoFar(chunks: seq<string>, attempt: nat, h: Host)
    requires !Stopped(ReadAll(FRESH, "", chunks, attempt, h).0)
    ensures var written := ReadAll(FRESH, "", chunks, attempt, h).0.written; var text := Concat(chunks);
            if OutputWithin("", [], Lines(text), h) then written + Tail(text) == text else written == ""
  {
    var text := Concat(chunks);
    assert "" + text == text;
    ReadAllIsConsume(FRESH, "", chunks, attempt, h);
    ConsumeSaw(FRESH, text, attempt, h);
    ConsumeForwards(FRESH, text, attempt, h);
    var t := Consume(FRESH, text, attempt, h).0;
    assert t.committed ==> t.written + t.pending == t.written;
  }

  // ---------------------------------------------------------------- one pass

  lemma LeftWhileReading(s: Turn, chunks: seq<string>, end: StreamEnd, attempt: nat, h: Host)
    requires Untouched(s)
    ensures var (s1, again) := RunStream(s, chunks, end, WhileReading, attempt, h);
            var a := Attempt(Stream(chunks, end), WhileReading);
            && again == GoesOn(a, attempt, h) && s1.closed && s1.coda == [] && s1.reports == [ClientDisconnected]
            && (if again then s1.body == "" else Sent(s1.body, a, h))
  {
    StopsIffCutApplies(chunks, attempt, h);
    StreamAttemptIsCut(chunks, attempt, h);
    var read := ReadAll(FRESH, "", chunks, attempt, h).0;
    if Stopped(read) {
      var t := StreamAttempt(chunks, attempt, h);
      assert "" + t.written == t.written;
    } else {
      WrittenSoFar(chunks, attempt, h);
      assert "" + read.written == read.written;
    }
  }

  lemma LeftBackingOff(s: Turn, chunks: seq<string>, end: StreamEnd, attempt: nat, h: Host)
    requires Untouched(s)
    ensures var (s0, again) := RunStream(s, chunks, end, Never, attempt, h);
            && RunStream(s, chunks, end, WhileBackingOff, attempt, h) == (LeaveIf(s0, again), again)
            && (again ==> s0.body == "" && s0.coda == [] && s0.reports == [] && !s0.ended)
  {
    StreamAttemptIsCut(chunks, attempt, h);
    assert "" + "" == "";
  }

  /** What a pass leaves behind during which the client leaves. */
  ghost predicate Departs(s1: Turn, again: bool, a: Attempt, attempt: nat, retryMax: nat, h: Host) {
    && again == GoesOn(a, attempt, h) && s1.closed && s1.dials == attempt && s1.coda == [] && s1.reports == [ClientDisconnected]
    && (if again then InBudget(s1, attempt + 1, retryMax) else Sent(s1.body, a, h))
  }

  lemma LeavingStream(s: Turn, attempts: nat -> Attempt, n: nat, retryMax: nat, h: Host)
    requires Connected(s, attempts, n, retryMax) && LeavesAt(attempts, n, retryMax, h)
    requires attempts(n).upstream.Stream? && !attempts(n).leaves.WhileDialing?
    ensures var (s1, again) := RunAttempt(s, attempts(n), n, retryMax, h); Departs(s1, again, attempts(n), n, retryMax, h)
  {
    var a, dialed := attempts(n), s.(dials := s.dials + 1);
    AttemptInBudget(s, a, n, retryMax, h);
    StreamPass(s, a, n, retryMax, h);
    if a.leaves.WhileReading? {
      LeftWhileReading(dialed, a.upstream.chunks, a.upstream.end, n, h);
    } else {
      LeftBackingOff(dialed, a.upstream.chunks, a.upstream.end, n, h);
      ConnectedStream(dialed, a.upstream.chunks, a.upstream.end, n, h);
    }
  }

  lemma LeavingPass(s: Turn, attempts: nat -> Attempt, n: nat, retryMax: nat, h: Host)
    requires Connected(s, attempts, n, retryMax) && LeavesAt(attempts, n, retryMax, h)
    ensures var (s1, again) := RunAttempt(s, attempts(n), n, retryMax, h); Departs(s1, again, attempts(n), n, retryMax, h)
  {
    if attempts(n).upstream.Stream? && !attempts(n).leaves.WhileDialing? {
      LeavingStream(s, attempts, n, retryMax, h);
    }
  }

  /** A pass begun after the client has left. */
  lemma PassAfterLeaving(s: Turn, a: Attempt, attempt: nat, retryMax: nat, h: Host)
    requires InBudget(s, attempt, retryMax) && s.closed
    ensures var (s1, again) := RunAttempt(s, a, attempt, retryMax, h);
            !again && s1.closed && s1.dials == attempt && s1.coda == [] && s1.reports == [ClientDisconnected] && s1.body == ""
  {
  }

  /** A moment of leaving that the dial does not have makes no difference. */
  lemma StayingPass(s: Turn, attempts: nat -> Attempt, n: nat, retryMax: nat, h: Host)
    requires Connected(s, attempts, n, retryMax) && !LeavesAt(attempts, n, retryMax, h)
    ensures RunAttempt(s, attempts(n), n, retryMax, h) == RunAttempt(s, attempts(n).(leaves := Never), n, retryMax, h)
  {
    var a, dialed := attempts(n), s.(dials := s.dials + 1);
    if a.upstream.Stream? && a.leaves.WhileBackingOff? {
      LeftBackingOff(dialed, a.upstream.chunks, a.upstream.end, n, h);
      ConnectedStream(dialed, a.upstream.chunks, a.upstream.end, n, h);
      StreamPass(s, a, n, retryMax, h);
      StreamPass(s, a.(leaves := Never), n, retryMax, h);
    }
  }

  // ---------------------------------------------------------------- whole turns

  ghost predicate StaysBefore(attempts: nat -> Attempt, n: nat, retryMax: nat, h: Host) {
    forall k: nat | 1 <= k < n :: !LeavesAt(attempts, k, retryMax, h)
  }

  ghost function StillConnected(attempts: nat -> Attempt, retryMax: nat, h: Host): (Turn, nat) -> bool {
    (t: Turn, n: nat) => InBudget(t, n, retryMax) && (StaysBefore(attempts, n, retryMax, h) ==> Connected(t, attempts, n, retryMax))
  }

  ghost function RetriesIfStays(attempts: nat -> Attempt, retryMax: nat, h: Host): nat -> bool {
    (n: nat) => StaysBefore(attempts, n + 1, retryMax, h) ==> RetriedAt(attempts, n, retryMax, h)
  }

  ghost function AnswersIfStays(attempts: nat -> Attempt, retryMax: nat, h: Host): (Turn, nat) -> bool {
    (t: Turn, n: nat) => t.dials == n && (StaysBefore(attempts, n + 1, retryMax, h) ==> Answered(t, attempts, n, retryMax, h))
  }

  ghost predicate Answered(t: Turn, attempts: nat -> Attempt, n: nat, retryMax: nat, h: Host) {
    !t.closed && Answers(t, attempts(n), n, h) && !RetriedAt(attempts, n, retryMax, h)
  }

  lemma StayingConnectedPass(t: Turn, attempts: nat -> Attempt, n: nat, retryMax: nat, h: Host)
    requires Connected(t, attempts, n, retryMax) && !LeavesAt(attempts, n, retryMax, h)
    ensures var (s1, again) := RunAttempt(t, attempts(n), n, retryMax, h);
            && again == RetriedAt(attempts, n, retryMax, h)
            && if again then Connected(s1, attempts, n + 1, retryMax) else s1.dials == n && !s1.closed && Answers(s1, attempts(n), n, h)
  {
    var a := attempts(n).(leaves := Never);
    StayingPass(t, attempts, n, retryMax, h);
    AttemptInBudget(t, a, n, retryMax, h);
    ConnectedAttempt(t, a, n, retryMax, h);
  }

  /** What a pass leaves of that, whichever way it goes. */
  ghost predicate StayingStep(result: (Turn, bool), attempts: nat -> Attempt, n: nat, retryMax: nat, h: Host) {
    if result.1 then
      && InBudget(result.0, n + 1, retryMax)
      && (StaysBefore(attempts, n + 1, retryMax, h) ==> Connected(result.0, attempts, n + 1, retryMax) && RetriedAt(attempts, n, retryMax, h))
    else result.0.dials == n && (StaysBefore(attempts, n + 1, retryMax, h) ==> Answered(result.0, attempts, n, retryMax, h))
  }

  lemma StayingStepHolds(t: Turn, attempts: nat -> Attempt, n: nat, retryMax: nat, h: Host)
    requires InBudget(t, n, retryMax) && (StaysBefore(attempts, n, retryMax, h) ==> Connected(t, attempts, n, retryMax))
    ensures StayingStep(RunAttempt(t, attempts(n), n, retryMax, h), attempts, n, retryMax, h)
  {
    AttemptInBudget(t, attempts(n), n, retryMax, h);
    if StaysBefore(attempts, n + 1, retryMax, h) {
      assert StaysBefore(attempts, n, retryMax, h) && !LeavesAt(attempts, n, retryMax, h);
      StayingConnectedPass(t, attempts, n, retryMax, h);
    }
  }

  lemma StayingIsGood(t: Turn, pass: (Turn, nat) -> (Turn, bool), attempts: nat -> Attempt, n: nat, retryMax: nat, h: Host)
    requires StayingStep(pass(t, n), attempts, n, retryMax, h)
    ensures GoodPass(t, pass, n, StillConnected(attempts, retryMax, h), RetriesIfStays(attempts, retryMax, h),
                     AnswersIfStays(attempts, retryMax, h))
  {
  }

  /** A client that does not leave at a moment its dials have is answered by the first dial that is not to
      be retried, exactly as a client that never leaves. */
  lemma StayingClientIsAnswered(attempts: nat -> Attempt, retryMax: nat, h: Host, end: Turn)
    requires end == RunTurn(attempts, retryMax, h).0
    requires forall k: nat | 1 <= k <= end.dials :: !LeavesAt(attempts, k, retryMax, h)
    ensures !end.closed && Answers(end, attempts(end.dials), end.dials, h) && !RetriedAt(attempts, end.dials, retryMax, h)
    ensures forall k: nat | 1 <= k < end.dials :: RetriedAt(attempts, k, retryMax, h)
  {
    var pass, inv := Pass(attempts, retryMax, h), StillConnected(attempts, retryMax, h);
    var q, post := RetriesIfStays(attempts, retryMax, h), AnswersIfStays(attempts, retryMax, h);
    forall t: Turn, n: nat | inv(t, n) ensures n <= BUSY_RETRY_MAX + retryMax && GoodPass(t, pass, n, inv, q, post) {
      StayingStepHolds(t, attempts, n, retryMax, h);
      StayingIsGood(t, pass, attempts, n, retryMax, h);
    }
    var last := LoopInduction(START, pass, 1, BUSY_RETRY_MAX + retryMax, inv, q, post);
    assert post(end, last) && StaysBefore(attempts, last + 1, retryMax, h);
    forall k: nat | 1 <= k < end.dials ensures RetriedAt(attempts, k, retryMax, h) {
      assert q(k) && StaysBefore(attempts, k + 1, retryMax, h);
    }
  }

  /** How a turn ends whose client left during the m-th dial. */
  ghost predicate GoneAfter(end: Turn, a: Attempt, m: nat, h: Host) {
    && end.closed && end.coda == [] && end.reports == [ClientDisconnected]
    && end.dials == (if GoesOn(a, m, h) then m + 1 else m)
    && (if GoesOn(a, m, h) then end.body == "" else Sent(end.body, a, h))
  }

  /** Before the m-th dial, at which the client leaves, and after it. */
  ghost predicate Leaving(t: Turn, attempts: nat -> Attempt, m: nat, n: nat, retryMax: nat, h: Host) {
    && InBudget(t, n, retryMax) && (n <= m ==> Connected(t, attempts, n, retryMax))
    && (n > m ==> n == m + 1 && t.closed && GoesOn(attempts(m), m, h))
  }

  ghost predicate Left(t: Turn, attempts: nat -> Attempt, m: nat, n: nat, h: Host) {
    t.dials == n && (n >= m ==> GoneAfter(t, attempts(m), m, h))
  }

  ghost function LeavingAt(attempts: nat -> Attempt, m: nat, retryMax: nat, h: Host): (Turn, nat) -> bool {
    (t: Turn, n: nat) => Leaving(t, attempts, m, n, retryMax, h)
  }

  ghost function HasLeft(attempts: nat -> Attempt, m: nat, h: Host): (Turn, nat) -> bool {
    (t: Turn, n: nat) => Left(t, attempts, m, n, h)
  }

  ghost function Anything(): nat -> bool {
    (n: nat) => true
  }

  lemma LeavingStep(t: Turn, attempts: nat -> Attempt, m: nat, n: nat, retryMax: nat, h: Host)
    requires Leaving(t, attempts, m, n, retryMax, h) && StaysBefore(attempts, m, retryMax, h) && LeavesAt(attempts, m, retryMax, h)
    ensures var (s1, again) := RunAttempt(t, attempts(n), n, retryMax, h);
            if again then Leaving(s1, attempts, m, n + 1, retryMax, h) else Left(s1, attempts, m, n, h)
  {
    if n < m {
      assert !LeavesAt(attempts, n, retryMax, h);
      StayingConnectedPass(t, attempts, n, retryMax, h);
    } else if n == m {
      LeavingPass(t, attempts, n, retryMax, h);
    } else {
      PassAfterLeaving(t, attempts(n), n, retryMax, h);
    }
  }

  lemma LeavingIsGood(t: Turn, pass: (Turn, nat) -> (Turn, bool), attempts: nat -> Attempt, m: nat, n: nat, retryMax: nat, h: Host)
    requires var (s1, again) := pass(t, n);
             if again then Leaving(s1, attempts, m, n + 1, retryMax, h) else Left(s1, attempts, m, n, h)
    ensures GoodPass(t, pass, n, LeavingAt(attempts, m, retryMax, h), Anything(), HasLeft(attempts, m, h))
  {
  }

  /** A client that leaves is sent nothing more, and the turn is reported as its leaving. The dial during
      which it leaves is the last one, or the last but one when it was to be retried anyway. */
  lemma LeavingEndsTheTurn(attempts: nat -> Attempt, retryMax: nat, h: Host, m: nat, end: Turn)
    requires end == RunTurn(attempts, retryMax, h).0 && 1 <= m <= end.dials
    requires LeavesAt(attempts, m, retryMax, h) && StaysBefore(attempts, m, retryMax, h)
    ensures GoneAfter(end, attempts(m), m, h)
  {
    var pass, inv, q, post := Pass(attempts, retryMax, h), LeavingAt(attempts, m, retryMax, h), Anything(), HasLeft(attempts, m, h);
    forall t: Turn, n: nat | inv(t, n) ensures n <= BUSY_RETRY_MAX + retryMax && GoodPass(t, pass, n, inv, q, post) {
      LeavingStep(t, attempts, m, n, retryMax, h);
      LeavingIsGood(t, pass, attempts, m, n, retryMax, h);
    }
    var last := LoopInduction(START, pass, 1, BUSY_RETRY_MAX + retryMax, inv, q, post);
    assert post(end, last);
  }
}
