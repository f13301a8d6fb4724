/** One forwarded Claude turn as an event machine (lib/proxy/claude.js 742-1010,
    lib/proxy/request-hook.js 158-178).

    Events may arrive in any order the sockets allow and also in orders they do not; dials are numbered
    from 0 in the order they are made. */
module ClaudeTurn {

  datatype Option<+T> = None | Some(value: T)

  type Usage = string

  datatype ErrorCode = ClientDisconnected | HttpError | StreamAborted | StreamFailed | ConnectFailed

  datatype Verdict = Success(usage: Option<Usage>) | Error(code: ErrorCode)

  /** What the callbacks are given. A usage event carries a status and, separately, an error code. */
  datatype Emission =
    | RequestStarted
    | FirstByte
    | UsageEvent(success: bool, code: Option<ErrorCode>, usage: Option<Usage>, statusCode: Option<int>, streamed: bool)
    | ActivityEnd(success: bool)

  /** A dial: no response yet; its body streams to the client (2xx or not), ended or not; its error
      body is being read for the hook; the hook is running; nothing more to come. */
  datatype Dial = Awaiting | Streaming(ok: bool, ended: bool) | Reading | Hooked | Closed

  /** Which callbacks are wired, whether rejections are offered to a hook, and how often it may repair. */
  datatype Config = Config(usage: bool, activity: bool, hooks: bool, retryMax: nat, requestedStream: bool)

  datatype Turn = Turn(dials: seq<Dial>, repairs: nat, clientGone: bool, ended: bool, settled: bool,
                       usageSent: bool, endSent: bool, firstByte: bool,
                       statusCode: Option<int>, streamed: Option<bool>, log: seq<Emission>)

  datatype Event =
    | ClientClose
    | Response(dial: nat, statusCode: int, sse: bool)
    | RequestError(dial: nat)
    | Data(dial: nat)
    | End(dial: nat, usage: Option<Usage>)
    | Aborted(dial: nat)
    | StreamError(dial: nat)
    | BodyRead(dial: nat)
    | HookResult(dial: nat, retry: bool)

  predicate Has(t: Turn, d: nat, s: Dial) {
    d < |t.dials| && t.dials[d] == s
  }

  function EmitUsage(cfg: Config, t: Turn, v: Verdict): Turn {
    if t.usageSent || !cfg.usage then t
    else
      var e := UsageEvent(v.Success?, if v.Error? then Some(v.code) else None, if v.Success? then v.usage else None,
                          t.statusCode, if t.streamed.Some? then t.streamed.value else cfg.requestedStream);
      t.(usageSent := true, log := t.log + [e])
  }

  function EmitEnd(cfg: Config, t: Turn, success: bool): Turn {
    if !cfg.activity || t.endSent then t else t.(endSent := true, log := t.log + [ActivityEnd(success)])
  }

  /** The one authority for the end of a turn. */
  function Settle(cfg: Config, t: Turn, v: Verdict): Turn {
    if t.settled then t else EmitEnd(cfg, EmitUsage(cfg, t.(settled := true), v), v.Success?)
  }

  function DialUpstream(t: Turn): Turn {
    t.(dials := t.dials + [Awaiting])
  }

  function SetDial(t: Turn, d: nat, s: Dial): Turn
    requires d < |t.dials|
  {
    t.(dials := t.dials[d := s])
  }

  function OnClientClose(cfg: Config, t: Turn): Turn {
    var gone := t.(clientGone := true);
    if t.settled || t.ended then gone else Settle(cfg, gone, Error(ClientDisconnected))
  }

  function OnResponse(cfg: Config, t: Turn, d: nat, statusCode: int, sse: bool): Turn
    requires d < |t.dials|
  {
    var seen := t.(statusCode := Some(statusCode), streamed := Some(sse));
    var ok := 200 <= statusCode < 300;
    if !ok && cfg.hooks then SetDial(seen, d, Reading) else SetDial(seen, d, Streaming(ok, false))
  }

  /** The client gets the rejection it would have got without a hook, if it is still there. */
  function Reject(cfg: Config, t: Turn): Turn {
    if t.clientGone then t else Settle(cfg, t, Error(HttpError)).(ended := true)
  }

  function OnRequestError(cfg: Config, t: Turn, d: nat): Turn
    requires d < |t.dials|
  {
    var s := Settle(cfg, t, Error(ConnectFailed));
    var answered := if t.clientGone then s else s.(ended := true);
    if t.dials[d].Reading? || t.dials[d].Hooked? then answered else SetDial(answered, d, Closed)
  }

  function OnEnd(cfg: Config, t: Turn, d: nat, usage: Option<Usage>): Turn
    requires d < |t.dials| && t.dials[d].Streaming?
  {
    var v := if t.dials[d].ok then Success(usage) else Error(HttpError);
    SetDial(Settle(cfg, t, v), d, t.dials[d].(ended := true)).(ended := true)
  }

  function Next(cfg: Config, t: Turn, e: Event): Turn {
    match e
    case ClientClose => if t.clientGone then t else OnClientClose(cfg, t)
    case Response(d, statusCode, sse) => if Has(t, d, Awaiting) then OnResponse(cfg, t, d, statusCode, sse) else t
    case RequestError(d) => if d < |t.dials| then OnRequestError(cfg, t, d) else t
    case Data(d) =>
      if d < |t.dials| && t.dials[d].Streaming? && !t.firstByte then
        t.(firstByte := true, log := if cfg.activity then t.log + [FirstByte] else t.log)
      else t
    case End(d, usage) => if d < |t.dials| && t.dials[d].Streaming? then OnEnd(cfg, t, d, usage) else t
    case Aborted(d) =>
      if d < |t.dials| && t.dials[d].Streaming? then SetDial(Settle(cfg, t, Error(StreamAborted)), d, t.dials[d].(ended := true)) else t
    case StreamError(d) =>
      if d < |t.dials| && t.dials[d].Streaming? then SetDial(Settle(cfg, t, Error(StreamFailed)), d, t.dials[d].(ended := true)) else t
    case BodyRead(d) =>
      if !Has(t, d, Reading) then t
      else if !t.clientGone && t.repairs < cfg.retryMax then SetDial(t, d, Hooked)
      else SetDial(Reject(cfg, t), d, Closed)
    case HookResult(d, retry) =>
      if !Has(t, d, Hooked) then t
      else if retry then DialUpstream(SetDial(t, d, Closed).(repairs := t.repairs + 1))
      else SetDial(Reject(cfg, t), d, Closed)
  }

  /** `gone`: the client left while the request was being prepared, so nothing is dialled. */
  function Start(cfg: Config, gone: bool): Turn {
    var t := Turn([], 0, gone, false, false, false, false, false, None, None, if cfg.activity then [RequestStarted] else []);
    if gone then Settle(cfg, t, Error(ClientDisconnected)) else DialUpstream(t)
  }

  function Run(cfg: Config, gone: bool, events: seq<Event>): Turn {
    if events == [] then Start(cfg, gone) else Next(cfg, Run(cfg, gone, events[..|events| - 1]), events[|events| - 1])
  }

  // ---------------------------------------------------------------- the bookkeeping

  predicate Busy(s: Dial) {
    s.Awaiting? || s.Reading? || s.Hooked?
  }

  predicate Open(s: Dial) {
    Busy(s) || (s.Streaming? && !s.ended)
  }

  /** Only the last dial can still lead to another one. */
  ghost predicate DialsFit(cfg: Config, t: Turn) {
    && (forall d | 0 <= d < |t.dials| - 1 :: !Busy(t.dials[d]))
    && |t.dials| == (if t.dials == [] then 0 else 1) + t.repairs
    && t.repairs <= cfg.retryMax
    && (t.dials != [] && t.dials[|t.dials| - 1].Hooked? ==> t.repairs < cfg.retryMax)
  }

  /** An unsettled turn has something left to wait for. */
  predicate EndsFit(t: Turn) {
    && (t.clientGone || t.ended ==> t.settled)
    && (!t.settled ==> t.dials != [] && Open(t.dials[|t.dials| - 1]))
  }

  predicate FlagsFit(cfg: Config, t: Turn) {
    t.usageSent == (t.settled && cfg.usage) && t.endSent == (t.settled && cfg.activity)
  }

  ghost predicate Fits(cfg: Config, t: Turn) {
    DialsFit(cfg, t) && FlagsFit(cfg, t)
  }

  ghost predicate Valid(cfg: Config, t: Turn) {
    Fits(cfg, t) && EndsFit(t)
  }

  /** Settling touches neither dials nor repairs. */
  lemma SettleKeepsDials(cfg: Config, t: Turn, v: Verdict)
    ensures var r := Settle(cfg, t, v); r.dials == t.dials && r.repairs == t.repairs && r.settled && r.clientGone == t.clientGone
    ensures FlagsFit(cfg, t) ==> FlagsFit(cfg, Settle(cfg, t, v))
  {
  }

  lemma RejectKeepsDials(cfg: Config, t: Turn)
    ensures var r := Reject(cfg, t);
            r.dials == t.dials && r.repairs == t.repairs && r.clientGone == t.clientGone && (t.settled || !t.clientGone ==> r.settled)
    ensures FlagsFit(cfg, t) ==> FlagsFit(cfg, Reject(cfg, t))
  {
    SettleKeepsDials(cfg, t, Error(HttpError));
  }

  lemma SetDialFits(cfg: Config, t: Turn, d: nat, s: Dial)
    requires DialsFit(cfg, t) && d < |t.dials|
    requires Busy(s) ==> Busy(t.dials[d]) && (s.Hooked? ==> t.repairs < cfg.retryMax)
    ensures DialsFit(cfg, SetDial(t, d, s))
  {
  }

  lemma HookFits(cfg: Config, t: Turn, d: nat, retry: bool)
    requires Fits(cfg, t)
    ensures Fits(cfg, Next(cfg, t, HookResult(d, retry)))
  {
    if Has(t, d, Hooked) {
      assert d == |t.dials| - 1;
      SetDialFits(cfg, t, d, Closed);
      RejectKeepsDials(cfg, t);
      if !retry {
        SetDialFits(cfg, Reject(cfg, t), d, Closed);
      }
    }
  }

  lemma ReadFits(cfg: Config, t: Turn, d: nat)
    requires Fits(cfg, t)
    ensures Fits(cfg, Next(cfg, t, BodyRead(d)))
  {
    if Has(t, d, Reading) {
      RejectKeepsDials(cfg, t);
      if !t.clientGone && t.repairs < cfg.retryMax {
        SetDialFits(cfg, t, d, Hooked);
      } else {
        SetDialFits(cfg, Reject(cfg, t), d, Closed);
      }
    }
  }

  lemma ErrorFits(cfg: Config, t: Turn, d: nat)
    requires Fits(cfg, t) && d < |t.dials|
    ensures Fits(cfg, OnRequestError(cfg, t, d))
  {
    SettleKeepsDials(cfg, t, Error(ConnectFailed));
    var s := Settle(cfg, t, Error(ConnectFailed));
    SetDialFits(cfg, if t.clientGone then s else s.(ended := true), d, Closed);
  }

  lemma StreamFits(cfg: Config, t: Turn, d: nat, v: Verdict)
    requires Fits(cfg, t) && d < |t.dials| && t.dials[d].Streaming?
    ensures Fits(cfg, SetDial(Settle(cfg, t, v), d, t.dials[d].(ended := true)))
    ensures Fits(cfg, SetDial(Settle(cfg, t, v), d, t.dials[d].(ended := true)).(ended := true))
  {
    SettleKeepsDials(cfg, t, v);
    SetDialFits(cfg, Settle(cfg, t, v), d, t.dials[d].(ended := true));
  }

  lemma ResponseFits(cfg: Config, t: Turn, d: nat, statusCode: int, sse: bool)
    requires Fits(cfg, t) && Has(t, d, Awaiting)
    ensures Fits(cfg, OnResponse(cfg, t, d, statusCode, sse))
  {
    var seen := t.(statusCode := Some(statusCode), streamed := Some(sse));
    var ok := 200 <= statusCode < 300;
    SetDialFits(cfg, seen, d, if !ok && cfg.hooks then Reading else Streaming(ok, false));
  }

  lemma CloseFits(cfg: Config, t: Turn)
    requires Fits(cfg, t)
    ensures Fits(cfg, OnClientClose(cfg, t))
  {
    SettleKeepsDials(cfg, t.(clientGone := true), Error(ClientDisconnected));
  }

  lemma NextFits(cfg: Config, t: Turn, e: Event)
    requires Fits(cfg, t)
    ensures Fits(cfg, Next(cfg, t, e))
  {
    match e
    case ClientClose => CloseFits(cfg, t);
    case Response(d, statusCode, sse) => if Has(t, d, Awaiting) { ResponseFits(cfg, t, d, statusCode, sse); }
    case RequestError(d) => if d < |t.dials| { ErrorFits(cfg, t, d); }
    case Data(_) =>
    case End(d, usage) =>
      if d < |t.dials| && t.dials[d].Streaming? { StreamFits(cfg, t, d, if t.dials[d].ok then Success(usage) else Error(HttpError)); }
    case Aborted(d) => if d < |t.dials| && t.dials[d].Streaming? { StreamFits(cfg, t, d, Error(StreamAborted)); }
    case StreamError(d) => if d < |t.dials| && t.dials[d].Streaming? { StreamFits(cfg, t, d, Error(StreamFailed)); }
    case BodyRead(d) => ReadFits(cfg, t, d);
    case HookResult(d, retry) => HookFits(cfg, t, d, retry);
  }

  lemma NextEndsFit(cfg: Config, t: Turn, e: Event)
    requires Valid(cfg, t)
    ensures EndsFit(Next(cfg, t, e))
  {
  }

  lemma NextValid(cfg: Config, t: Turn, e: Event)
    requires Valid(cfg, t)
    ensures Valid(cfg, Next(cfg, t, e))
  {
    NextFits(cfg, t, e);
    NextEndsFit(cfg, t, e);
  }

  lemma {:induction false} RunValid(cfg: Config, gone: bool, events: seq<Event>)
    ensures Valid(cfg, Run(cfg, gone, events))
    decreases |events|
  {
    if events != [] {
      RunValid(cfg, gone, events[..|events| - 1]);
      NextValid(cfg, Run(cfg, gone, events[..|events| - 1]), events[|events| - 1]);
    }
  }

  /** However events interleave, a turn dials at most once more than the hook may repair. */
  lemma DialsAreBounded(cfg: Config, gone: bool, events: seq<Event>)
    ensures var t := Run(cfg, gone, events); |t.dials| <= 1 + cfg.retryMax && t.repairs <= cfg.retryMax
  {
    RunValid(cfg, gone, events);
  }

  // ---------------------------------------------------------------- the terminal event

  /** The verdict an event calls for, whether or not the turn is already settled. */
  function CauseOf(cfg: Config, t: Turn, e: Event): Option<Verdict> {
    match e
    case ClientClose => if t.clientGone || t.ended then None else Some(Error(ClientDisconnected))
    case RequestError(d) => if d < |t.dials| then Some(Error(ConnectFailed)) else None
    case End(d, usage) =>
      if d < |t.dials| && t.dials[d].Streaming? then Some(if t.dials[d].ok then Success(usage) else Error(HttpError)) else None
    case Aborted(d) => if d < |t.dials| && t.dials[d].Streaming? then Some(Error(StreamAborted)) else None
    case StreamError(d) => if d < |t.dials| && t.dials[d].Streaming? then Some(Error(StreamFailed)) else None
    case BodyRead(d) =>
      if Has(t, d, Reading) && !t.clientGone && t.repairs >= cfg.retryMax then Some(Error(HttpError)) else None
    case HookResult(d, retry) => if Has(t, d, Hooked) && !retry && !t.clientGone then Some(Error(HttpError)) else None
    case _ => None
  }

  /** The first verdict of a run. */
  function FirstCause(cfg: Config, gone: bool, events: seq<Event>): Option<Verdict> {
    if events == [] then if gone then Some(Error(ClientDisconnected)) else None
    else
      var before := FirstCause(cfg, gone, events[..|events| - 1]);
      if before.Some? then before else CauseOf(cfg, Run(cfg, gone, events[..|events| - 1]), events[|events| - 1])
  }

  function IsTerminal(e: Emission): bool {
    e.UsageEvent? || e.ActivityEnd?
  }

  /** The terminal emissions, in order. */
  function Terminals(log: seq<Emission>): seq<Emission> {
    if log == [] then []
    else Terminals(log[..|log| - 1]) + if IsTerminal(log[|log| - 1]) then [log[|log| - 1]] else []
  }

  /** The emissions a verdict stands for: at most one usage event and one activity end, with the same
      status, and an error code exactly when the turn failed. */
  predicate Reports(cfg: Config, es: seq<Emission>, v: Verdict) {
    var usages, ends := if cfg.usage then 1 else 0, if cfg.activity then 1 else 0;
    && |es| == usages + ends
    && (cfg.usage ==> es[0].UsageEvent? && es[0].success == v.Success? && es[0].code == (if v.Error? then Some(v.code) else None)
                      && es[0].usage == (if v.Success? then v.usage else None))
    && (cfg.activity ==> es[usages] == ActivityEnd(v.Success?))
  }

  lemma TerminalsAppend(log: seq<Emission>, e: Emission)
    ensures Terminals(log + [e]) == Terminals(log) + if IsTerminal(e) then [e] else []
  {
    assert (log + [e])[..|log|] == log;
  }

  lemma SettleReports(cfg: Config, t: Turn, v: Verdict)
    requires !t.settled && !t.usageSent && !t.endSent && Terminals(t.log) == []
    ensures Reports(cfg, Terminals(Settle(cfg, t, v).log), v)
  {
    var t1 := EmitUsage(cfg, t.(settled := true), v);
    if cfg.usage {
      TerminalsAppend(t.log, t1.log[|t.log|]);
    }
    if cfg.activity {
      TerminalsAppend(t1.log, ActivityEnd(v.Success?));
    }
  }

  /** What the log says about the verdict so far. */
  ghost predicate Told(cfg: Config, t: Turn, v: Option<Verdict>) {
    t.settled == v.Some? && if v.None? then Terminals(t.log) == [] else Reports(cfg, Terminals(t.log), v.value)
  }

  /** A settled turn says no more about its end. */
  lemma SettledIsQuiet(cfg: Config, t: Turn, e: Event)
    requires t.settled
    ensures Next(cfg, t, e).settled && (!e.Data? ==> Next(cfg, t, e).log == t.log)
  {
    match e
    case ClientClose =>
    case End(_, _) =>
    case RequestError(_) =>
    case _ =>
  }

  lemma SettledStaysTold(cfg: Config, t: Turn, e: Event, v: Verdict)
    requires Told(cfg, t, Some(v))
    ensures Told(cfg, Next(cfg, t, e), Some(v))
  {
    SettledIsQuiet(cfg, t, e);
    TerminalsAppend(t.log, FirstByte);
  }

  lemma QuietStaysTold(cfg: Config, t: Turn, e: Event)
    requires EndsFit(t) && Told(cfg, t, None) && CauseOf(cfg, t, e).None?
    ensures Told(cfg, Next(cfg, t, e), None)
  {
    if e.Data? {
      TerminalsAppend(t.log, FirstByte);
    }
  }

  lemma CauseIsSettled(cfg: Config, t: Turn, e: Event, v: Verdict)
    requires EndsFit(t) && !t.settled && CauseOf(cfg, t, e) == Some(v)
    ensures var from := if e.ClientClose? then t.(clientGone := true) else t;
            Next(cfg, t, e).log == Settle(cfg, from, v).log && Next(cfg, t, e).settled
  {
    SettleKeepsDials(cfg, t, v);
  }

  lemma CauseIsTold(cfg: Config, t: Turn, e: Event, v: Verdict)
    requires Valid(cfg, t) && Told(cfg, t, None) && CauseOf(cfg, t, e) == Some(v)
    ensures Told(cfg, Next(cfg, t, e), Some(v))
  {
    var from := if e.ClientClose? then t.(clientGone := true) else t;
    SettleReports(cfg, from, v);
    CauseIsSettled(cfg, t, e, v);
  }

  /** An event's effect on the log: the first verdict is reported, later ones are not. */
  lemma NextTold(cfg: Config, t: Turn, e: Event, v: Option<Verdict>)
    requires Valid(cfg, t) && Told(cfg, t, v)
    ensures Told(cfg, Next(cfg, t, e), if v.Some? then v else CauseOf(cfg, t, e))
  {
    if v.Some? {
      SettledStaysTold(cfg, t, e, v.value);
    } else if CauseOf(cfg, t, e).Some? {
      CauseIsTold(cfg, t, e, CauseOf(cfg, t, e).value);
    } else {
      QuietStaysTold(cfg, t, e);
    }
  }

  /** Whatever the interleaving, the callbacks hear of exactly the first verdict, once. */
  lemma {:induction false} FirstCauseWins(cfg: Config, gone: bool, events: seq<Event>)
    ensures Told(cfg, Run(cfg, gone, events), FirstCause(cfg, gone, events))
    decreases |events|
  {
    if events == [] {
      var t := Turn([], 0, gone, false, false, false, false, false, None, None, if cfg.activity then [RequestStarted] else []);
      TerminalsAppend([], RequestStarted);
      assert [] + [RequestStarted] == [RequestStarted];
      if gone {
        SettleReports(cfg, t, Error(ClientDisconnected));
      }
    } else {
      var n := |events| - 1;
      FirstCauseWins(cfg, gone, events[..n]);
      RunValid(cfg, gone, events[..n]);
      NextTold(cfg, Run(cfg, gone, events[..n]), events[n], FirstCause(cfg, gone, events[..n]));
    }
  }

  /** Nothing more can come from any dial. */
  predicate Finished(t: Turn) {
    forall d | 0 <= d < |t.dials| :: t.dials[d].Closed? || (t.dials[d].Streaming? && t.dials[d].ended)
  }

  /** Once the client has gone or every dial has finished, the turn has reported its end: exactly one
      usage event and one activity end to the callbacks that are wired. */
  lemma {:induction false} EveryTurnReports(cfg: Config, gone: bool, events: seq<Event>)
    requires var t := Run(cfg, gone, events); t.clientGone || Finished(t)
    ensures var t := Run(cfg, gone, events);
            t.settled && FirstCause(cfg, gone, events).Some? && Reports(cfg, Terminals(t.log), FirstCause(cfg, gone, events).value)
  {
    RunValid(cfg, gone, events);
    FirstCauseWins(cfg, gone, events);
  }

  // ---------------------------------------------------------------- dials after a disconnect

  /** The one kind of step that dials: the hook that is deciding about a dial asks for a retry. */
  predicate Redials(t: Turn, e: Event) {
    e.HookResult? && e.retry && Has(t, e.dial, Hooked)
  }

  /** `after` is `before` with at most one dial changed, which is not newly handed to the hook. */
  ghost predicate OneDialMoves(before: Turn, after: Turn) {
    && before.clientGone == after.clientGone && |after.dials| == |before.dials|
    && forall d | 0 <= d < |before.dials| :: after.dials[d] == before.dials[d] || !(before.dials[d].Hooked? || after.dials[d].Hooked?)
  }

  lemma ErrorMoves(cfg: Config, t: Turn, d: nat)
    requires d < |t.dials|
    ensures OneDialMoves(t, OnRequestError(cfg, t, d))
  {
    SettleKeepsDials(cfg, t, Error(ConnectFailed));
  }

  lemma SettledStreamMoves(cfg: Config, t: Turn, d: nat, v: Verdict)
    requires d < |t.dials| && t.dials[d].Streaming?
    ensures var r := SetDial(Settle(cfg, t, v), d, t.dials[d].(ended := true)); OneDialMoves(t, r) && OneDialMoves(t, r.(ended := true))
  {
    SettleKeepsDials(cfg, t, v);
  }

  lemma StreamMoves(cfg: Config, t: Turn, e: Event)
    requires e.End? || e.Aborted? || e.StreamError?
    ensures OneDialMoves(t, Next(cfg, t, e))
  {
    if e.dial < |t.dials| && t.dials[e.dial].Streaming? {
      match e
      case End(d, usage) => SettledStreamMoves(cfg, t, d, if t.dials[d].ok then Success(usage) else Error(HttpError));
      case Aborted(d) => SettledStreamMoves(cfg, t, d, Error(StreamAborted));
      case StreamError(d) => SettledStreamMoves(cfg, t, d, Error(StreamFailed));
    }
  }

  lemma PlainMoves(cfg: Config, t: Turn, e: Event)
    requires e.Response? || e.Data?
    ensures OneDialMoves(t, Next(cfg, t, e))
  {
  }

  lemma CloseKeepsDials(cfg: Config, t: Turn)
    ensures Next(cfg, t, ClientClose).dials == t.dials
  {
    SettleKeepsDials(cfg, t.(clientGone := true), Error(ClientDisconnected));
  }

  lemma AnswerGrows(cfg: Config, t: Turn, d: nat, retry: bool)
    ensures |Next(cfg, t, HookResult(d, retry)).dials| == |t.dials| + if retry && Has(t, d, Hooked) then 1 else 0
  {
    RejectKeepsDials(cfg, t);
  }

  lemma ReadKeepsCount(cfg: Config, t: Turn, d: nat)
    ensures |Next(cfg, t, BodyRead(d)).dials| == |t.dials|
  {
    RejectKeepsDials(cfg, t);
  }

  /** A turn dials in exactly one kind of step. */
  lemma DialsGrowIff(cfg: Config, t: Turn, e: Event)
    ensures |Next(cfg, t, e).dials| == |t.dials| + if Redials(t, e) then 1 else 0
  {
    match e
    case ClientClose => CloseKeepsDials(cfg, t);
    case RequestError(d) => if d < |t.dials| { ErrorMoves(cfg, t, d); }
    case BodyRead(d) => ReadKeepsCount(cfg, t, d);
    case HookResult(d, retry) => AnswerGrows(cfg, t, d, retry);
    case Response(_, _, _) => PlainMoves(cfg, t, e);
    case Data(_) => PlainMoves(cfg, t, e);
    case _ => StreamMoves(cfg, t, e);
  }

  /** The later events of a turn that has reached `t`. */
  function Continue(cfg: Config, t: Turn, events: seq<Event>): Turn
    decreases |events|
  {
    if events == [] then t else Continue(cfg, Next(cfg, t, events[0]), events[1..])
  }

  lemma {:induction false} RunThenContinue(cfg: Config, gone: bool, before: seq<Event>, after: seq<Event>)
    ensures Run(cfg, gone, before + after) == Continue(cfg, Run(cfg, gone, before), after)
    decreases |after|
  {
    if after == [] {
      assert before + after == before;
    } else {
      var one := before + [after[0]];
      assert one[..|one| - 1] == before && one + after[1..] == before + after;
      RunThenContinue(cfg, gone, one, after[1..]);
    }
  }

  /** What the hook first answers about dial `d` among these events. */
  function FirstAnswer(events: seq<Event>, d: nat): Option<bool> {
    if events == [] then None
    else if events[0].HookResult? && events[0].dial == d then Some(events[0].retry)
    else FirstAnswer(events[1..], d)
  }

  /** The hook is deciding about the latest dial. */
  predicate Deciding(t: Turn) {
    t.dials != [] && t.dials[|t.dials| - 1].Hooked?
  }

  /** A step after the disconnect: the hook is never asked again, and while it is deciding only its
      answer ends that. */
  lemma GoneStep(cfg: Config, t: Turn, e: Event)
    requires Valid(cfg, t) && t.clientGone
    ensures var t' := Next(cfg, t, e);
            && t'.clientGone && (Redials(t, e) <==> Deciding(t) && e == HookResult(|t.dials| - 1, true))
            && (Deciding(t') <==> Deciding(t) && !(e.HookResult? && e.dial == |t.dials| - 1))
  {
    match e
    case ClientClose =>
    case RequestError(d) => if d < |t.dials| { ErrorMoves(cfg, t, d); }
    case BodyRead(_) => RejectKeepsDials(cfg, t);
    case HookResult(_, _) => RejectKeepsDials(cfg, t);
    case Response(_, _, _) => PlainMoves(cfg, t, e);
    case Data(_) => PlainMoves(cfg, t, e);
    case _ => StreamMoves(cfg, t, e);
  }

  /** From any reachable turn whose client has gone, later events make at most one more dial: exactly
      one if the hook is deciding about the latest dial and first answers that it is to be retried. */
  lemma {:induction false} DialsOnceGone(cfg: Config, t: Turn, events: seq<Event>)
    requires Valid(cfg, t) && t.clientGone
    ensures |Continue(cfg, t, events).dials| ==
            |t.dials| + if Deciding(t) && FirstAnswer(events, |t.dials| - 1) == Some(true) then 1 else 0
    decreases |events|
  {
    if events != [] {
      var t' := Next(cfg, t, events[0]);
      GoneStep(cfg, t, events[0]);
      DialsGrowIff(cfg, t, events[0]);
      NextValid(cfg, t, events[0]);
      DialsOnceGone(cfg, t', events[1..]);
    }
  }

  /** So in every run a dial follows a disconnect exactly when the client left while the hook was
      deciding and the hook then asks for a retry; and never more than one. */
  lemma {:induction false} DialFollowsDisconnectIff(cfg: Config, gone: bool, before: seq<Event>, after: seq<Event>, t: Turn)
    requires t == Run(cfg, gone, before) && t.clientGone
    ensures |Run(cfg, gone, before + after).dials| ==
            |t.dials| + if Deciding(t) && FirstAnswer(after, |t.dials| - 1) == Some(true) then 1 else 0
  {
    RunThenContinue(cfg, gone, before, after);
    RunValid(cfg, gone, before);
    DialsOnceGone(cfg, t, after);
  }

  /** A disconnect is not a promise that no dial follows: a client that leaves while the hook is
      deciding does not stop the repaired request. */
  lemma {:induction false} DialAfterDisconnect(cfg: Config)
    requires cfg.hooks && cfg.retryMax > 0
    ensures var t := Run(cfg, false, [Response(0, 500, false), BodyRead(0), ClientClose, HookResult(0, true)]);
            t.clientGone && |t.dials| == 2 && t.dials[1].Awaiting?
  {
    var e0, e1, e2, e3 := Response(0, 500, false), BodyRead(0), ClientClose, HookResult(0, true);
    assert [e0, e1, e2, e3][..3] == [e0, e1, e2] && [e0, e1, e2][..2] == [e0, e1] && [e0, e1][..1] == [e0] && [e0][..0] == [];
    var t1 := Next(cfg, Start(cfg, false), e0);
    assert t1.dials == [Reading] && Run(cfg, false, [e0]) == t1;
    var t2 := Next(cfg, t1, e1);
    assert t2.dials == [Hooked] && Run(cfg, false, [e0, e1]) == t2;
    var t3 := Next(cfg, t2, e2);
    assert t3.dials == [Hooked] && Run(cfg, false, [e0, e1, e2]) == t3;
    assert Next(cfg, t3, e3).dials == [Closed, Awaiting];
  }
}
