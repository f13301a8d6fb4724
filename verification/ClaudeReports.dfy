/** What the usage event of a Claude turn carries (lib/proxy/claude.js 816-834, 926-937, 980-1005). */
module ClaudeReports {
  import opened ClaudeTurn

  // ---------------------------------------------------------------- the observed response

  datatype Seen = Seen(statusCode: int, sse: bool)

  /** The status and content type of the last response to arrive, read off the events. */
  function LastResponse(cfg: Config, gone: bool, events: seq<Event>): Option<Seen> {
    if events == [] then None
    else
      var before, e := events[..|events| - 1], events[|events| - 1];
      if e.Response? && Has(Run(cfg, gone, before), e.dial, Awaiting) then Some(Seen(e.statusCode, e.sse))
      else LastResponse(cfg, gone, before)
  }

  predicate Ok(statusCode: int) {
    200 <= statusCode <= 299
  }

  /** A dial whose body streams is the last one, its response was the last to arrive, and it counts as
      good exactly when that was a 2xx; the turn remembers that response. */
  ghost predicate Observes(t: Turn, seen: Option<Seen>) {
    && t.statusCode == (if seen.Some? then Some(seen.value.statusCode) else None)
    && t.streamed == (if seen.Some? then Some(seen.value.sse) else None)
    && forall d | 0 <= d < |t.dials| && t.dials[d].Streaming? ::
         d == |t.dials| - 1 && seen.Some? && (t.dials[d].ok <==> Ok(seen.value.statusCode))
  }

  lemma SettleObserves(cfg: Config, t: Turn, v: Verdict, seen: Option<Seen>)
    requires Observes(t, seen)
    ensures Observes(Settle(cfg, t, v), seen) && Observes(Reject(cfg, t), seen)
  {
    SettleKeepsDials(cfg, t, v);
    RejectKeepsDials(cfg, t);
  }

  lemma SetDialObserves(t: Turn, d: nat, s: Dial, seen: Option<Seen>)
    requires Observes(t, seen) && d < |t.dials|
    requires s.Streaming? ==> t.dials[d].Streaming? && s.ok == t.dials[d].ok
    ensures Observes(SetDial(t, d, s), seen) && Observes(SetDial(t, d, s).(ended := true), seen)
  {
  }

  lemma ResponseObserves(cfg: Config, t: Turn, d: nat, statusCode: int, sse: bool, seen: Option<Seen>)
    requires Observes(t, seen) && DialsFit(cfg, t) && Has(t, d, Awaiting)
    ensures Observes(OnResponse(cfg, t, d, statusCode, sse), Some(Seen(statusCode, sse)))
  {
    assert d == |t.dials| - 1;
  }

  lemma RetryObserves(t: Turn, d: nat, seen: Option<Seen>)
    requires Observes(t, seen) && Has(t, d, Hooked) && d == |t.dials| - 1
    ensures Observes(DialUpstream(SetDial(t, d, Closed).(repairs := t.repairs + 1)), seen)
  {
  }

  lemma StreamEndObserves(cfg: Config, t: Turn, d: nat, v: Verdict, seen: Option<Seen>)
    requires Observes(t, seen) && d < |t.dials| && t.dials[d].Streaming?
    ensures var r := SetDial(Settle(cfg, t, v), d, t.dials[d].(ended := true)); Observes(r, seen) && Observes(r.(ended := true), seen)
  {
    SettleObserves(cfg, t, v, seen);
    SettleKeepsDials(cfg, t, v);
    SetDialObserves(Settle(cfg, t, v), d, t.dials[d].(ended := true), seen);
  }

  lemma ErrorObserves(cfg: Config, t: Turn, d: nat, seen: Option<Seen>)
    requires Observes(t, seen) && d < |t.dials|
    ensures Observes(OnRequestError(cfg, t, d), seen)
  {
    SettleObserves(cfg, t, Error(ConnectFailed), seen);
    SettleKeepsDials(cfg, t, Error(ConnectFailed));
    var s := Settle(cfg, t, Error(ConnectFailed));
    SetDialObserves(if t.clientGone then s else s.(ended := true), d, Closed, seen);
  }

  lemma HookObserves(cfg: Config, t: Turn, e: Event, seen: Option<Seen>)
    requires Observes(t, seen) && DialsFit(cfg, t) && (e.BodyRead? || e.HookResult?)
    ensures Observes(Next(cfg, t, e), seen)
  {
    SettleObserves(cfg, t, Error(HttpError), seen);
    RejectKeepsDials(cfg, t);
    if e.BodyRead? && Has(t, e.dial, Reading) {
      SetDialObserves(t, e.dial, Hooked, seen);
      SetDialObserves(Reject(cfg, t), e.dial, Closed, seen);
    }
    if e.HookResult? && Has(t, e.dial, Hooked) {
      assert e.dial == |t.dials| - 1;
      RetryObserves(t, e.dial, seen);
      SetDialObserves(Reject(cfg, t), e.dial, Closed, seen);
    }
  }

  lemma NextObserves(cfg: Config, t: Turn, e: Event, seen: Option<Seen>)
    requires Observes(t, seen) && DialsFit(cfg, t)
    ensures Observes(Next(cfg, t, e), if e.Response? && Has(t, e.dial, Awaiting) then Some(Seen(e.statusCode, e.sse)) else seen)
  {
    match e
    case ClientClose => SettleObserves(cfg, t.(clientGone := true), Error(ClientDisconnected), seen);
    case Response(d, statusCode, sse) => if Has(t, d, Awaiting) { ResponseObserves(cfg, t, d, statusCode, sse, seen); }
    case RequestError(d) => if d < |t.dials| { ErrorObserves(cfg, t, d, seen); }
    case Data(_) =>
    case End(d, usage) =>
      if d < |t.dials| && t.dials[d].Streaming? {
        StreamEndObserves(cfg, t, d, if t.dials[d].ok then Success(usage) else Error(HttpError), seen);
      }
    case Aborted(d) => if d < |t.dials| && t.dials[d].Streaming? { StreamEndObserves(cfg, t, d, Error(StreamAborted), seen); }
    case StreamError(d) => if d < |t.dials| && t.dials[d].Streaming? { StreamEndObserves(cfg, t, d, Error(StreamFailed), seen); }
    case _ => HookObserves(cfg, t, e, seen);
  }

  lemma {:induction false} RunObserves(cfg: Config, gone: bool, events: seq<Event>)
    ensures Observes(Run(cfg, gone, events), LastResponse(cfg, gone, events))
    decreases |events|
  {
    if events == [] {
      StartObserves(cfg, gone);
    } else {
      var n := |events| - 1;
      RunObserves(cfg, gone, events[..n]);
      RunValid(cfg, gone, events[..n]);
      NextObserves(cfg, Run(cfg, gone, events[..n]), events[n], LastResponse(cfg, gone, events[..n]));
    }
  }

  lemma StartObserves(cfg: Config, gone: bool)
    ensures Observes(Start(cfg, gone), None)
  {
    var t := Turn([], 0, gone, false, false, false, false, false, None, None, if cfg.activity then [RequestStarted] else []);
    SettleKeepsDials(cfg, t, Error(ClientDisconnected));
  }

  // ---------------------------------------------------------------- the report

  /** The last response that had arrived when the turn was settled. */
  function SeenAtEnd(cfg: Config, gone: bool, events: seq<Event>): Option<Seen> {
    if events == [] then None
    else
      var before := events[..|events| - 1];
      if FirstCause(cfg, gone, before).Some? then SeenAtEnd(cfg, gone, before) else LastResponse(cfg, gone, before)
  }

  /** A turn is a success only if the body of a 2xx response ended; and one that ended otherwise is
      reported as an HTTP error. */
  lemma {:induction false} SuccessMeansOk(cfg: Config, gone: bool, events: seq<Event>)
    ensures var cause, seen := FirstCause(cfg, gone, events), SeenAtEnd(cfg, gone, events);
            cause.Some? && cause.value.Success? ==> seen.Some? && Ok(seen.value.statusCode)
    decreases |events|
  {
    if events != [] {
      var n := |events| - 1;
      SuccessMeansOk(cfg, gone, events[..n]);
      RunObserves(cfg, gone, events[..n]);
    }
  }

  /** The end of a body settles an unsettled turn as a success with its usage exactly when the last
      response was a 2xx, and as an HTTP error otherwise. */
  lemma EndDecides(cfg: Config, gone: bool, events: seq<Event>, d: nat, usage: Option<Usage>)
    requires var t := Run(cfg, gone, events); !t.settled && d < |t.dials| && t.dials[d].Streaming?
    ensures var seen := LastResponse(cfg, gone, events);
            && seen.Some?
            && FirstCause(cfg, gone, events + [End(d, usage)]) ==
                 Some(if Ok(seen.value.statusCode) then Success(usage) else Error(HttpError))
  {
    RunObserves(cfg, gone, events);
    FirstCauseWins(cfg, gone, events);
    assert (events + [End(d, usage)])[..|events|] == events;
  }

  /** The usage event among the terminal emissions, with the status and content type of `seen`. */
  ghost predicate Carries(cfg: Config, log: seq<Emission>, seen: Option<Seen>) {
    var es := Terminals(log);
    es != [] && es[0].UsageEvent?
    && es[0].statusCode == (if seen.Some? then Some(seen.value.statusCode) else None)
    && es[0].streamed == (if seen.Some? then seen.value.sse else cfg.requestedStream)
  }

  lemma SettleCarries(cfg: Config, t: Turn, v: Verdict, seen: Option<Seen>)
    requires cfg.usage && !t.settled && !t.usageSent && !t.endSent && Terminals(t.log) == [] && Observes(t, seen)
    ensures Carries(cfg, Settle(cfg, t, v).log, seen)
  {
    var t1 := EmitUsage(cfg, t.(settled := true), v);
    TerminalsAppend(t.log, t1.log[|t.log|]);
    TerminalsAppend(t1.log, ActivityEnd(v.Success?));
  }

  lemma NextCarries(cfg: Config, t: Turn, e: Event, v: Option<Verdict>, seen: Option<Seen>, last: Option<Seen>)
    requires cfg.usage && Valid(cfg, t) && Told(cfg, t, v) && Observes(t, last)
    requires v.Some? ==> Carries(cfg, t.log, seen)
    ensures var cause := if v.Some? then v else CauseOf(cfg, t, e);
            cause.Some? ==> Carries(cfg, Next(cfg, t, e).log, if v.Some? then seen else last)
  {
    if v.Some? {
      SettledIsQuiet(cfg, t, e);
      TerminalsAppend(t.log, FirstByte);
    } else if CauseOf(cfg, t, e).Some? {
      var from := if e.ClientClose? then t.(clientGone := true) else t;
      CauseIsSettled(cfg, t, e, CauseOf(cfg, t, e).value);
      SettleCarries(cfg, from, CauseOf(cfg, t, e).value, last);
    }
  }

  /** The usage event carries the status and the content type of the last response that had arrived when
      the turn was settled, and without one no status and what the client asked for. */
  lemma {:induction false} UsageEventCarries(cfg: Config, gone: bool, events: seq<Event>)
    requires cfg.usage && FirstCause(cfg, gone, events).Some?
    ensures Carries(cfg, Run(cfg, gone, events).log, SeenAtEnd(cfg, gone, events))
    decreases |events|
  {
    if events == [] {
      var t := Turn([], 0, gone, false, false, false, false, false, None, None, if cfg.activity then [RequestStarted] else []);
      TerminalsAppend([], RequestStarted);
      assert [] + [RequestStarted] == [RequestStarted];
      SettleCarries(cfg, t, Error(ClientDisconnected), None);
    } else {
      var n := |events| - 1;
      var t, v := Run(cfg, gone, events[..n]), FirstCause(cfg, gone, events[..n]);
      RunValid(cfg, gone, events[..n]);
      FirstCauseWins(cfg, gone, events[..n]);
      RunObserves(cfg, gone, events[..n]);
      if v.Some? {
        UsageEventCarries(cfg, gone, events[..n]);
      }
      NextCarries(cfg, t, events[n], v, SeenAtEnd(cfg, gone, events[..n]), LastResponse(cfg, gone, events[..n]));
    }
  }

  // ---------------------------------------------------------------- whole turns

  /** Everything emitted in a turn without a disconnect that ends with this verdict. */
  function Story(cfg: Config, bytes: bool, v: Verdict, seen: Seen): seq<Emission> {
    (if cfg.activity then [RequestStarted] + (if bytes then [FirstByte] else []) else [])
    + (if cfg.usage then [UsageEvent(v.Success?, if v.Error? then Some(v.code) else None, if v.Success? then v.usage else None,
                                     Some(seen.statusCode), seen.sse)] else [])
    + (if cfg.activity then [ActivityEnd(v.Success?)] else [])
  }

  /** A response that streams to its end: every 2xx, and without a hook every other one too. */
  lemma StreamedTurn(cfg: Config, statusCode: int, sse: bool, usage: Option<Usage>)
    requires Ok(statusCode) || !cfg.hooks
    ensures var t := Run(cfg, false, [Response(0, statusCode, sse), Data(0), Data(0), End(0, usage)]);
            var v := if Ok(statusCode) then Success(usage) else Error(HttpError);
            t.log == Story(cfg, true, v, Seen(statusCode, sse)) && t.ended && |t.dials| == 1
  {
    var e0, e1, e3 := Response(0, statusCode, sse), Data(0), End(0, usage);
    assert [e0, e1, e1, e3][..3] == [e0, e1, e1] && [e0, e1, e1][..2] == [e0, e1] && [e0, e1][..1] == [e0] && [e0][..0] == [];
    var t1 := Next(cfg, Start(cfg, false), e0);
    assert t1.dials == [Streaming(Ok(statusCode), false)] && Run(cfg, false, [e0]) == t1;
    var t2 := Next(cfg, t1, e1);
    assert t2.dials == t1.dials && Run(cfg, false, [e0, e1]) == t2;
    assert Next(cfg, t2, e1) == t2 && Run(cfg, false, [e0, e1, e1]) == t2;
  }

  lemma OfferedStart(cfg: Config, statusCode: int, sse: bool)
    requires !Ok(statusCode) && cfg.hooks && cfg.retryMax > 0
    ensures var t := Run(cfg, false, [Response(0, statusCode, sse), BodyRead(0)]);
            t == Start(cfg, false).(dials := [Hooked], statusCode := Some(statusCode), streamed := Some(sse))
  {
    var e0, e1 := Response(0, statusCode, sse), BodyRead(0);
    assert [e0, e1][..1] == [e0] && [e0][..0] == [];
    assert Run(cfg, false, [e0]) == Next(cfg, Start(cfg, false), e0);
    assert Run(cfg, false, [e0]).dials == [Reading];
  }

  /** A rejection the hook does not repair is the client's. */
  lemma RejectedTurn(cfg: Config, statusCode: int, sse: bool)
    requires !Ok(statusCode) && cfg.hooks && cfg.retryMax > 0
    ensures var t := Run(cfg, false, [Response(0, statusCode, sse), BodyRead(0), HookResult(0, false)]);
            t.log == Story(cfg, false, Error(HttpError), Seen(statusCode, sse)) && t.ended && |t.dials| == 1
  {
    var es := [Response(0, statusCode, sse), BodyRead(0), HookResult(0, false)];
    assert es[..2] == [es[0], es[1]];
    OfferedStart(cfg, statusCode, sse);
  }

  lemma RepairedStart(cfg: Config, first: int, sse: bool)
    requires !Ok(first) && cfg.hooks && cfg.retryMax > 0
    ensures var t := Run(cfg, false, [Response(0, first, sse), BodyRead(0), HookResult(0, true)]);
            t == Start(cfg, false).(dials := [Closed, Awaiting], repairs := 1, statusCode := Some(first), streamed := Some(sse))
  {
    var es := [Response(0, first, sse), BodyRead(0), HookResult(0, true)];
    assert es[..2] == [es[0], es[1]];
    OfferedStart(cfg, first, sse);
    assert [Hooked][0 := Closed] + [Awaiting] == [Closed, Awaiting];
  }

  /** One that it repairs is invisible: the turn is reported with the second response alone. */
  lemma RepairedTurn(cfg: Config, first: int, statusCode: int, sse: bool, usage: Option<Usage>)
    requires !Ok(first) && Ok(statusCode) && cfg.hooks && cfg.retryMax > 0
    ensures var t := Run(cfg, false, [Response(0, first, sse), BodyRead(0), HookResult(0, true), Response(1, statusCode, sse), End(1, usage)]);
            t.log == Story(cfg, false, Success(usage), Seen(statusCode, sse)) && t.ended && |t.dials| == 2 && t.repairs == 1
  {
    var es := [Response(0, first, sse), BodyRead(0), HookResult(0, true), Response(1, statusCode, sse), End(1, usage)];
    assert es[..4][..3] == [es[0], es[1], es[2]];
    RepairedStart(cfg, first, sse);
    var t3 := Run(cfg, false, [es[0], es[1], es[2]]);
    var t4 := Next(cfg, t3, es[3]);
    assert t4.dials == [Closed, Streaming(true, false)] && Run(cfg, false, es[..4]) == t4;
  }

  /** What is emitted in a turn that no response reaches. */
  function Unanswered(cfg: Config, code: ErrorCode): seq<Emission> {
    (if cfg.activity then [RequestStarted] else [])
    + (if cfg.usage then [UsageEvent(false, Some(code), None, None, cfg.requestedStream)] else [])
    + (if cfg.activity then [ActivityEnd(false)] else [])
  }

  /** A provider that cannot be reached, and a client that leaves while it is being dialled. */
  lemma UnansweredTurns(cfg: Config)
    ensures var t := Run(cfg, false, [RequestError(0)]); t.log == Unanswered(cfg, ConnectFailed) && t.ended && t.dials == [Closed]
    ensures var t := Run(cfg, false, [ClientClose]); t.log == Unanswered(cfg, ClientDisconnected) && !t.ended && t.dials == [Awaiting]
  {
    assert [RequestError(0)][..0] == [] && [ClientClose][..0] == [];
  }

  lemma GoneStart(cfg: Config)
    ensures var t := Start(cfg, true);
            t.dials == [] && t.log == Unanswered(cfg, ClientDisconnected) && !t.ended && t.settled && t.clientGone
  {
  }

  lemma NothingToWaitFor(cfg: Config, t: Turn, e: Event)
    requires t.dials == [] && t.clientGone
    ensures Next(cfg, t, e) == t
  {
  }

  /** A client that left during the preparation is reported so, and nothing is ever dialled. */
  lemma {:induction false} GoneBeforeStart(cfg: Config, events: seq<Event>)
    ensures var t := Run(cfg, true, events);
            t == Start(cfg, true) && t.dials == [] && t.log == Unanswered(cfg, ClientDisconnected) && !t.ended
    decreases |events|
  {
    GoneStart(cfg);
    if events != [] {
      GoneBeforeStart(cfg, events[..|events| - 1]);
      NothingToWaitFor(cfg, Start(cfg, true), events[|events| - 1]);
    }
  }
}
