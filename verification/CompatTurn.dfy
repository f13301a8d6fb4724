/** A whole turn of `proxyResponsesCompat`: the loop over attempts, the client's disconnect and the
    terminal report (lib/proxy/codex.js). */
module CompatTurn {
  import opened SseLines
  import opened ResponsesCompat

  datatype StreamEnd = Done | ReadError

  /** What one dial meets. `hookRetries` is the repair hook's answer to a rejection. */
  datatype Upstream = Unreachable | Rejected(hookRetries: bool) | Stream(chunks: seq<string>, end: StreamEnd)

  /** The awaited moment of an attempt during which the client leaves, if it does. */
  datatype Leaves = Never | WhileDialing | WhileReadingError | WhileRepairing | WhileReading | WhileBackingOff

  datatype Attempt = Attempt(upstream: Upstream, leaves: Leaves)

  datatype Report = ClientDisconnected | ConnectFailed | HttpError | ResponseFailed | Success

  /** Events the proxy itself appends to the downstream. */
  datatype Coda = InjectedCompleted | StreamFailed | SendFailed

  datatype Turn = Turn(closed: bool, ended: bool, repairs: nat, dials: nat, body: string, coda: seq<Coda>, reports: seq<Report>)

  const START := Turn(false, false, 0, 0, "", [], [])

  /** Every terminal outcome funnels through here; only the first is reported. */
  function Settle(s: Turn, r: Report): Turn {
    if s.reports == [] then s.(reports := [r]) else s
  }

  function Leave(s: Turn): Turn {
    if s.closed || s.ended then s else Settle(s.(closed := true), ClientDisconnected)
  }

  function LeaveIf(s: Turn, leaves: bool): Turn {
    if leaves then Leave(s) else s
  }

  function Append(s: Turn, c: Coda): Turn {
    if s.closed then s else s.(coda := s.coda + [c])
  }

  function Fail(s: Turn, r: Report): Turn {
    Append(Settle(s, r), SendFailed).(ended := true)
  }

  function EndStream(s: Turn, t: Track): Turn {
    Settle(s, if t.failed then ResponseFailed else Success).(ended := true)
  }

  /** Reading a stream while the client is connected at the start of it. */
  function RunStream(s: Turn, chunks: seq<string>, end: StreamEnd, leaves: Leaves, attempt: nat, h: Host): (Turn, bool) {
    var (read, _) := ReadAll(FRESH, "", chunks, attempt, h);
    if Stopped(read) || (end.Done? && !leaves.WhileReading?) then
      var t := StreamAttempt(chunks, attempt, h);
      var s1 := LeaveIf(s.(body := s.body + t.written), leaves.WhileReading?);
      if t.retryBusy then (LeaveIf(s1, leaves.WhileBackingOff?), true)
      else if t.completed || t.failed then (EndStream(s1, t), false)
      else (EndStream(Append(s1.(body := s.body + Commit(t).written), InjectedCompleted), t), false)
    else if leaves.WhileReading? then
      (EndStream(Leave(s.(body := s.body + read.written)), read), false)
    else
      (EndStream(Append(s.(body := s.body + Commit(read).written), StreamFailed), read), false)
  }

  /** One pass of the loop; the boolean says whether it continues with another attempt. */
  function RunAttempt(s: Turn, a: Attempt, attempt: nat, retryMax: nat, h: Host): (Turn, bool) {
    var dialed := LeaveIf(s.(dials := s.dials + 1), a.leaves.WhileDialing?);
    // A disconnect aborts the dial in progress.
    if a.upstream.Unreachable? || (a.leaves.WhileDialing? && !s.closed) then (Fail(dialed, ConnectFailed), false)
    else
      match a.upstream
      case Rejected(hookRetries) =>
        var s1 := LeaveIf(dialed, a.leaves.WhileReadingError?);
        if s1.closed || s1.repairs >= retryMax then (Fail(s1, HttpError), false)
        else
          var s2 := LeaveIf(s1, a.leaves.WhileRepairing?);
          if hookRetries then (s2.(repairs := s2.repairs + 1), true) else (Fail(s2, HttpError), false)
      case Stream(chunks, end) =>
        if dialed.closed then (EndStream(dialed, FRESH), false)
        else RunStream(dialed, chunks, end, a.leaves, attempt, h)
  }

  /** The loop over attempts up to `limit`, with `returned` false when it runs off its end instead of
      returning from inside. `pass` is one execution of its body. */
  function Loop(s: Turn, pass: (Turn, nat) -> (Turn, bool), attempt: nat, limit: nat): (Turn, bool)
    decreases limit + 1 - attempt
  {
    if attempt > limit then (s.(ended := true), false)
    else
      var (s1, again) := pass(s, attempt);
      if again then Loop(s1, pass, attempt + 1, limit) else (s1, true)
  }

  function Pass(attempts: nat -> Attempt, retryMax: nat, h: Host): (Turn, nat) -> (Turn, bool) {
    (s: Turn, attempt: nat) => RunAttempt(s, attempts(attempt), attempt, retryMax, h)
  }

  /** A turn against the given upstream behaviour. */
  function RunTurn(attempts: nat -> Attempt, retryMax: nat, h: Host): (Turn, bool) {
    Loop(START, Pass(attempts, retryMax, h), 1, BUSY_RETRY_MAX + retryMax)
  }

  lemma LoopStep(s: Turn, pass: (Turn, nat) -> (Turn, bool), attempt: nat, limit: nat)
    requires attempt <= limit
    ensures var (s1, again) := pass(s, attempt);
            Loop(s, pass, attempt, limit) == if again then Loop(s1, pass, attempt + 1, limit) else (s1, true)
  {
  }

  lemma StreamPass(s: Turn, a: Attempt, attempt: nat, retryMax: nat, h: Host)
    requires a.upstream.Stream? && !s.closed && !a.leaves.WhileDialing?
    ensures RunAttempt(s, a, attempt, retryMax, h) ==
            RunStream(s.(dials := s.dials + 1), a.upstream.chunks, a.upstream.end, a.leaves, attempt, h)
  {
  }

  ghost predicate GoodPass(s: Turn, pass: (Turn, nat) -> (Turn, bool), attempt: nat,
                           inv: (Turn, nat) -> bool, q: nat -> bool, post: (Turn, nat) -> bool) {
    var (s1, again) := pass(s, attempt);
    if again then inv(s1, attempt + 1) && q(attempt) else post(s1, attempt)
  }

  /** The induction behind every claim about the loop: `inv` holds before each pass, a pass that
      continues shows `q`, and one that returns shows `post`. */
  lemma {:induction false} LoopInduction(s: Turn, pass: (Turn, nat) -> (Turn, bool), attempt: nat, limit: nat,
                                         inv: (Turn, nat) -> bool, q: nat -> bool, post: (Turn, nat) -> bool) returns (last: nat)
    requires inv(s, attempt)
    requires forall t: Turn, n: nat | inv(t, n) :: n <= limit && GoodPass(t, pass, n, inv, q, post)
    ensures var (end, returned) := Loop(s, pass, attempt, limit); returned && attempt <= last <= limit && post(end, last)
    ensures forall k | attempt <= k < last :: q(k)
    decreases limit + 1 - attempt
  {
    last := attempt;
    assert GoodPass(s, pass, attempt, inv, q, post);
    if pass(s, attempt).1 {
      last := LoopInduction(pass(s, attempt).0, pass, attempt + 1, limit, inv, q, post);
    }
  }

  // ---------------------------------------------------------------- the loop bound and the report

  /** The budget: repairs and busy retries are counted apart, and busy retries stop at the fourth. */
  ghost predicate InBudget(s: Turn, attempt: nat, retryMax: nat) {
    && 1 <= attempt && s.dials == attempt - 1 && s.repairs <= retryMax
    && attempt - 1 - s.repairs <= BUSY_RETRY_MAX - 1
    && !s.ended && s.body == "" && s.coda == []
    && s.reports == if s.closed then [ClientDisconnected] else []
  }

  /** What a pass of the loop leaves: a busy retry or a repair within budget, or the end of the turn. */
  ghost predicate PassEnds(s: Turn, again: bool, attempt: nat, retryMax: nat) {
    if again then InBudget(s, attempt + 1, retryMax)
    else s.ended && |s.reports| == 1 && s.dials == attempt && (s.closed <==> s.reports == [ClientDisconnected])
  }

  lemma StreamInBudget(s: Turn, chunks: seq<string>, end: StreamEnd, leaves: Leaves, attempt: nat, retryMax: nat, h: Host)
    requires attempt >= 1 && InBudget(s.(dials := attempt - 1), attempt, retryMax) && s.dials == attempt && !s.closed
    ensures var (s1, again) := RunStream(s, chunks, end, leaves, attempt, h); PassEnds(s1, again, attempt, retryMax)
  {
    StreamAttemptIsCut(chunks, attempt, h);
    assert "" + "" == "";
  }

  lemma RejectionInBudget(s: Turn, a: Attempt, attempt: nat, retryMax: nat, h: Host)
    requires InBudget(s, attempt, retryMax) && !a.upstream.Stream?
    ensures var (s1, again) := RunAttempt(s, a, attempt, retryMax, h); PassEnds(s1, again, attempt, retryMax)
  {
  }

  /** A stream that nobody is there to read. */
  lemma UnreadInBudget(s: Turn, a: Attempt, attempt: nat, retryMax: nat, h: Host)
    requires InBudget(s, attempt, retryMax) && a.upstream.Stream? && (s.closed || a.leaves.WhileDialing?)
    ensures var (s1, again) := RunAttempt(s, a, attempt, retryMax, h); PassEnds(s1, again, attempt, retryMax)
  {
  }

  lemma AttemptInBudget(s: Turn, a: Attempt, attempt: nat, retryMax: nat, h: Host)
    requires InBudget(s, attempt, retryMax)
    ensures var (s1, again) := RunAttempt(s, a, attempt, retryMax, h); PassEnds(s1, again, attempt, retryMax)
  {
    if !a.upstream.Stream? {
      RejectionInBudget(s, a, attempt, retryMax, h);
    } else if s.closed || a.leaves.WhileDialing? {
      UnreadInBudget(s, a, attempt, retryMax, h);
    } else {
      StreamPass(s, a, attempt, retryMax, h);
      StreamInBudget(s.(dials := s.dials + 1), a.upstream.chunks, a.upstream.end, a.leaves, attempt, retryMax, h);
    }
  }

  /** Every turn returns from inside the loop, after at most five dials plus the repairs allowed,
      with the response ended and exactly one terminal report; the report blames the client exactly
      when it left first. */
  lemma EveryTurnReturns(attempts: nat -> Attempt, retryMax: nat, h: Host)
    ensures var (end, returned) := RunTurn(attempts, retryMax, h);
            && returned && end.ended && |end.reports| == 1
            && 1 <= end.dials <= BUSY_RETRY_MAX + retryMax
            && (end.closed <==> end.reports == [ClientDisconnected])
  {
    var pass := Pass(attempts, retryMax, h);
    var inv, q := (t: Turn, n: nat) => InBudget(t, n, retryMax), (n: nat) => true;
    var post := (t: Turn, n: nat) => PassEnds(t, false, n, retryMax);
    forall t: Turn, n: nat | inv(t, n) ensures GoodPass(t, pass, n, inv, q, post) {
      AttemptInBudget(t, attempts(n), n, retryMax, h);
    }
    var last := LoopInduction(START, pass, 1, BUSY_RETRY_MAX + retryMax, inv, q, post);
    assert post(RunTurn(attempts, retryMax, h).0, last);
  }

  // ---------------------------------------------------------------- what the client receives

  /** The stream is answered as cut at its first terminal event: it ends normally, or that event
      comes before the read error. */
  predicate CutApplies(chunks: seq<string>, end: StreamEnd, h: Host) {
    end.Done? || EndsWithin("", [], Lines(Concat(chunks)), h)
  }

  lemma StopsIffCutApplies(chunks: seq<string>, attempt: nat, h: Host)
    ensures Stopped(ReadAll(FRESH, "", chunks, attempt, h).0) <==> EndsWithin("", [], Lines(Concat(chunks)), h)
  {
    assert "" + Concat(chunks) == Concat(chunks);
    ReadAllIsConsume(FRESH, "", chunks, attempt, h);
    StopsIffEnds(FRESH, Concat(chunks), attempt, h);
  }

  /** Whether this attempt, met with the client connected, is retried rather than answered. */
  predicate Retried(a: Attempt, attempt: nat, repairs: nat, retryMax: nat, h: Host) {
    match a.upstream
    case Unreachable => false
    case Rejected(hookRetries) => repairs < retryMax && hookRetries
    case Stream(chunks, end) => CutApplies(chunks, end, h) && Abandons(CutAt("", [], Concat(chunks), h), attempt, h)
  }

  /** How many of the dials before the n-th were rejected. */
  function Rejections(attempts: nat -> Attempt, n: nat): nat {
    if n <= 1 then 0 else Rejections(attempts, n - 1) + if attempts(n - 1).upstream.Rejected? then 1 else 0
  }

  /** Whether the n-th dial of a turn is retried: the repairs used so far are the rejections before it. */
  predicate RetriedAt(attempts: nat -> Attempt, n: nat, retryMax: nat, h: Host) {
    Retried(attempts(n), n, Rejections(attempts, n), retryMax, h)
  }

  /** What the client gets from the attempt that answers it. A read error sends the complete lines
      read so far and a failure event, yet the turn is reported as a success. */
  ghost predicate Answers(end: Turn, a: Attempt, attempt: nat, h: Host) {
    match a.upstream
    case Stream(chunks, streamEnd) =>
      var c := CutAt("", [], Concat(chunks), h);
      if CutApplies(chunks, streamEnd, h) then
        && end.body == c.prefix && c.prefix <= Concat(chunks)
        && end.coda == (if c.terminal.Some? then [] else [InjectedCompleted])
        && end.reports == (if c.terminal.Some? && c.terminal.value.Failure? then [ResponseFailed] else [Success])
      else
        end.body + Tail(Concat(chunks)) == Concat(chunks) && end.coda == [StreamFailed] && end.reports == [Success]
    case Unreachable => end.body == "" && end.coda == [SendFailed] && end.reports == [ConnectFailed]
    case Rejected(_) => end.body == "" && end.coda == [SendFailed] && end.reports == [HttpError]
  }

  lemma {:induction false} ConsumeForwards(t: Track, buffer: string, attempt: nat, h: Host)
    requires Buffering(t)
    ensures var (t1, rest) := Consume(t, buffer, attempt, h);
            !Stopped(t1) ==> Buffering(t1) && rest == Tail(buffer) && Forwarded(t1) + rest == Forwarded(t) + buffer
    decreases |buffer|
  {
    var n := NewlineAt(buffer);
    if n < |buffer| {
      var line, rest := buffer[..n], buffer[n + 1..];
      var t1 := WriteOut(TrackLine(t, line, attempt, h), line + "\n");
      ConsumeStep(t, buffer, line, rest, t1, attempt, h);
      var _ := LineStep(t, buffer, attempt, h);
      if !Stopped(t1) {
        ConsumeForwards(t1, rest, attempt, h);
        LineThenRest(Forwarded(t), buffer);
      }
    }
  }

  lemma Reassociate3(a: string, b: string, c: string)
    ensures a + b + c == a + (b + c)
  {
  }

  lemma {:induction false} LineThenRest(before: string, buffer: string)
    requires NewlineAt(buffer) < |buffer|
    ensures var n := NewlineAt(buffer); before + (buffer[..n] + "\n") + buffer[n + 1..] == before + buffer
  {
    var line, rest := FirstLine(buffer);
    Reassociate3(before, line + "\n", rest);
  }

  lemma CommittedIsForwarded(t: Track)
    requires Buffering(t)
    ensures Commit(t).written == Forwarded(t)
  {
    assert t.written + "" == t.written;
  }

  /** A turn that has written nothing yet and whose client is there. */
  predicate Untouched(s: Turn) {
    !s.closed && !s.ended && s.body == "" && s.coda == [] && s.reports == []
  }

  lemma ConnectedCut(s: Turn, chunks: seq<string>, end: StreamEnd, attempt: nat, h: Host)
    requires Untouched(s) && CutApplies(chunks, end, h)
    ensures var (s1, again) := RunStream(s, chunks, end, Never, attempt, h);
            && again == Retried(Attempt(Stream(chunks, end), Never), attempt, 0, 0, h) && !s1.closed
            && (!again ==> Answers(s1, Attempt(Stream(chunks, end), Never), attempt, h))
  {
    StreamAttemptIsCut(chunks, attempt, h);
    StopsIffCutApplies(chunks, attempt, h);
    CutIsPrefix("", [], Concat(chunks), h);
    var t := StreamAttempt(chunks, attempt, h);
    assert "" + t.written == t.written && "" + Commit(t).written == Commit(t).written;
  }

  lemma ConnectedBreak(s: Turn, chunks: seq<string>, end: StreamEnd, attempt: nat, h: Host)
    requires Untouched(s) && !CutApplies(chunks, end, h)
    ensures var (s1, again) := RunStream(s, chunks, end, Never, attempt, h);
            !again && !s1.closed && Answers(s1, Attempt(Stream(chunks, end), Never), attempt, h)
  {
    var read := ReadAll(FRESH, "", chunks, attempt, h).0;
    StopsIffCutApplies(chunks, attempt, h);
    assert "" + Concat(chunks) == Concat(chunks);
    ReadAllIsConsume(FRESH, "", chunks, attempt, h);
    ConsumeForwards(FRESH, Concat(chunks), attempt, h);
    CommittedIsForwarded(read);
    assert "" + Commit(read).written == Commit(read).written && Forwarded(FRESH) + Concat(chunks) == Concat(chunks);
    assert RunStream(s, chunks, end, Never, attempt, h)
           == (EndStream(Append(s.(body := s.body + Commit(read).written), StreamFailed), read), false);
  }

  lemma ConnectedStream(s: Turn, chunks: seq<string>, end: StreamEnd, attempt: nat, h: Host)
    requires Untouched(s)
    ensures var (s1, again) := RunStream(s, chunks, end, Never, attempt, h);
            && again == Retried(Attempt(Stream(chunks, end), Never), attempt, 0, 0, h) && !s1.closed
            && (!again ==> Answers(s1, Attempt(Stream(chunks, end), Never), attempt, h))
  {
    if CutApplies(chunks, end, h) {
      ConnectedCut(s, chunks, end, attempt, h);
    } else {
      ConnectedBreak(s, chunks, end, attempt, h);
    }
  }

  lemma ConnectedRejection(s: Turn, a: Attempt, attempt: nat, retryMax: nat, h: Host)
    requires InBudget(s, attempt, retryMax) && !s.closed && a.leaves.Never? && !a.upstream.Stream?
    ensures var (s1, again) := RunAttempt(s, a, attempt, retryMax, h);
            && again == Retried(a, attempt, s.repairs, retryMax, h) && !s1.closed
            && (again ==> s1.repairs == s.repairs + if a.upstream.Rejected? then 1 else 0)
            && (!again ==> Answers(s1, a, attempt, h))
  {
  }

  lemma StreamKeepsRepairs(s: Turn, chunks: seq<string>, end: StreamEnd, leaves: Leaves, attempt: nat, h: Host)
    ensures RunStream(s, chunks, end, leaves, attempt, h).0.repairs == s.repairs
  {
  }

  lemma ConnectedAttempt(s: Turn, a: Attempt, attempt: nat, retryMax: nat, h: Host)
    requires InBudget(s, attempt, retryMax) && !s.closed && a.leaves.Never?
    ensures var (s1, again) := RunAttempt(s, a, attempt, retryMax, h);
            && again == Retried(a, attempt, s.repairs, retryMax, h) && !s1.closed
            && (again ==> s1.repairs == s.repairs + if a.upstream.Rejected? then 1 else 0)
            && (!again ==> Answers(s1, a, attempt, h))
  {
    if !a.upstream.Stream? {
      ConnectedRejection(s, a, attempt, retryMax, h);
    } else {
      StreamPass(s, a, attempt, retryMax, h);
      ConnectedStream(s.(dials := s.dials + 1), a.upstream.chunks, a.upstream.end, attempt, h);
      StreamKeepsRepairs(s.(dials := s.dials + 1), a.upstream.chunks, a.upstream.end, a.leaves, attempt, h);
    }
  }

  ghost predicate Connected(s: Turn, attempts: nat -> Attempt, attempt: nat, retryMax: nat) {
    InBudget(s, attempt, retryMax) && !s.closed && s.repairs == Rejections(attempts, attempt)
  }

  ghost function ConnectedBefore(attempts: nat -> Attempt, retryMax: nat): (Turn, nat) -> bool {
    (t: Turn, n: nat) => Connected(t, attempts, n, retryMax)
  }

  ghost function Retries(attempts: nat -> Attempt, retryMax: nat, h: Host): nat -> bool {
    (n: nat) => RetriedAt(attempts, n, retryMax, h)
  }

  ghost function AnsweredAt(attempts: nat -> Attempt, retryMax: nat, h: Host): (Turn, nat) -> bool {
    (t: Turn, n: nat) => t.dials == n && Answers(t, attempts(n), n, h) && !RetriedAt(attempts, n, retryMax, h)
  }

  lemma ConnectedPass(t: Turn, attempts: nat -> Attempt, n: nat, retryMax: nat, h: Host)
    requires Connected(t, attempts, n, retryMax) && attempts(n).leaves.Never?
    ensures var (s1, again) := RunAttempt(t, attempts(n), n, retryMax, h);
            && again == RetriedAt(attempts, n, retryMax, h)
            && if again then Connected(s1, attempts, n + 1, retryMax) else s1.dials == n && Answers(s1, attempts(n), n, h)
  {
    AttemptInBudget(t, attempts(n), n, retryMax, h);
    ConnectedAttempt(t, attempts(n), n, retryMax, h);
  }

  lemma GoodConnectedPass(t: Turn, attempts: nat -> Attempt, n: nat, retryMax: nat, h: Host)
    requires Connected(t, attempts, n, retryMax) && attempts(n).leaves.Never?
    ensures GoodPass(t, Pass(attempts, retryMax, h), n, ConnectedBefore(attempts, retryMax), Retries(attempts, retryMax, h),
                     AnsweredAt(attempts, retryMax, h))
  {
    ConnectedPass(t, attempts, n, retryMax, h);
    assert Pass(attempts, retryMax, h)(t, n) == RunAttempt(t, attempts(n), n, retryMax, h);
  }

  lemma ConnectedTurn(attempts: nat -> Attempt, retryMax: nat, h: Host)
    requires forall i: nat :: attempts(i).leaves.Never?
    ensures AnsweredAt(attempts, retryMax, h)(RunTurn(attempts, retryMax, h).0, RunTurn(attempts, retryMax, h).0.dials)
    ensures forall k | 1 <= k < RunTurn(attempts, retryMax, h).0.dials :: Retries(attempts, retryMax, h)(k)
  {
    var inv, q, post := ConnectedBefore(attempts, retryMax), Retries(attempts, retryMax, h), AnsweredAt(attempts, retryMax, h);
    forall t: Turn, n: nat | inv(t, n) ensures n <= BUSY_RETRY_MAX + retryMax && GoodPass(t, Pass(attempts, retryMax, h), n, inv, q, post) {
      GoodConnectedPass(t, attempts, n, retryMax, h);
    }
    var last := LoopInduction(START, Pass(attempts, retryMax, h), 1, BUSY_RETRY_MAX + retryMax, inv, q, post);
  }

  /** With the client connected, the last dial is the first that is not to be retried, and the client
      receives exactly what that dial's text cut at its first terminal event gives, plus one injected
      completion when it had none: no byte of an earlier dial is ever written. */
  lemma OnlyTheLastAttemptIsSeen(attempts: nat -> Attempt, retryMax: nat, h: Host, end: Turn)
    requires forall i: nat :: attempts(i).leaves.Never?
    requires end == RunTurn(attempts, retryMax, h).0
    ensures Answers(end, attempts(end.dials), end.dials, h) && !RetriedAt(attempts, end.dials, retryMax, h)
    ensures forall k | 1 <= k < end.dials :: RetriedAt(attempts, k, retryMax, h)
  {
    ConnectedTurn(attempts, retryMax, h);
    assert AnsweredAt(attempts, retryMax, h)(end, end.dials);
    forall k | 1 <= k < end.dials ensures RetriedAt(attempts, k, retryMax, h) {
      assert Retries(attempts, retryMax, h)(k);
    }
  }

  // ---------------------------------------------------------------- read errors

  /** With the client connected, it is sent a failure event while the turn is reported as a success
      exactly when the last dial's stream breaks off with a read error and no complete line of it had
      ended a terminal event. */
  lemma FailureReportedAsSuccessIff(attempts: nat -> Attempt, retryMax: nat, h: Host, end: Turn)
    requires forall i: nat :: attempts(i).leaves.Never?
    requires end == RunTurn(attempts, retryMax, h).0
    ensures end.coda == [StreamFailed] && end.reports == [Success] <==>
            var upstream := attempts(end.dials).upstream;
            upstream.Stream? && upstream.end.ReadError? && !EndsWithin("", [], Lines(Concat(upstream.chunks)), h)
  {
    OnlyTheLastAttemptIsSeen(attempts, retryMax, h, end);
    AnsweredWithFailureIff(end, attempts(end.dials), end.dials, h);
  }

  lemma AnsweredWithFailureIff(end: Turn, a: Attempt, attempt: nat, h: Host)
    requires Answers(end, a, attempt, h)
    ensures end.coda == [StreamFailed] && end.reports == [Success] <==>
            a.upstream.Stream? && a.upstream.end.ReadError? && !EndsWithin("", [], Lines(Concat(a.upstream.chunks)), h)
  {
    var sent := [InjectedCompleted, StreamFailed, SendFailed];
    assert [sent[0]][0] != [sent[1]][0] && [sent[2]][0] != [sent[1]][0];
  }

  const BREAKS_OFF := Attempt(Stream([": ping\n"], ReadError), Never)

  lemma PingEndsNothing(h: Host)
    ensures Concat([": ping\n"]) == ": ping\n" && Lines(": ping\n") == [": ping"] && !EndsWithin("", [], [": ping"], h)
  {
    assert [": ping\n"][1..] == [] && ": ping\n" + "" == ": ping\n";
    assert '\n' !in ": ping" && ": ping\n" == ": ping" + "\n" + "";
    LinesCons(": ping", "");
    assert EndsWithin("", [], [": ping"][1..], h) == false;
  }

  /** Such a turn: one comment line, and then the connection breaks. */
  lemma BrokenStreamIsReportedAsSuccess(retryMax: nat, parse: string -> Option<Payload>, busy: string -> bool)
    ensures var end := RunTurn((n: nat) => BREAKS_OFF, retryMax, ProxyHost(parse, busy)).0;
            end.dials >= 1 && end.body == ": ping\n" && end.coda == [StreamFailed] && end.reports == [Success]
  {
    var attempts := (n: nat) => BREAKS_OFF;
    var h := ProxyHost(parse, busy);
    var end := RunTurn(attempts, retryMax, h).0;
    PingEndsNothing(h);
    EveryTurnReturns(attempts, retryMax, h);
    FailureReportedAsSuccessIff(attempts, retryMax, h, end);
    OnlyTheLastAttemptIsSeen(attempts, retryMax, h, end);
    TailOfLine(": ping");
    assert end.body + "" == end.body;
  }

  lemma TailOfLine(line: string)
    requires '\n' !in line
    ensures Tail(line + "\n") == ""
  {
    assert line + "\n" + "" == line + "\n";
    TailRest(line, "");
  }
}
