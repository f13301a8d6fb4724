/** The handlers of one forwarded Claude turn, updating its flags in place (lib/proxy/claude.js 742-1010). */
module ClaudeForwarder {
  import opened ClaudeTurn

  class Forwarder {
    const cfg: Config
    var dials: seq<Dial>
    var repairs: nat
    var clientGone: bool
    var writableEnded: bool
    var terminalSettled: bool
    var usageEventEmitted: bool
    var activityEnded: bool
    var firstByteSeen: bool
    var observedStatusCode: Option<int>
    var responseIsSse: Option<bool>
    var log: seq<Emission>

    ghost function Now(): Turn
      reads this
    {
      Turn(dials, repairs, clientGone, writableEnded, terminalSettled, usageEventEmitted, activityEnded, firstByteSeen,
           observedStatusCode, responseIsSse, log)
    }

    constructor (cfg: Config, gone: bool)
      ensures this.cfg == cfg && Now() == ClaudeTurn.Start(cfg, gone)
    {
      this.cfg := cfg;
      dials, repairs, clientGone, writableEnded, terminalSettled := [], 0, gone, false, false;
      usageEventEmitted, activityEnded, firstByteSeen, observedStatusCode, responseIsSse := false, false, false, None, None;
      log := if cfg.activity then [RequestStarted] else [];
      new;
      if gone {
        SettleTerminal(Error(ClientDisconnected));
      } else {
        Dial();
      }
    }

    method EmitUsageEvent(v: Verdict)
      modifies this`usageEventEmitted, this`log
      ensures Now() == EmitUsage(cfg, old(Now()), v)
    {
      if usageEventEmitted || !cfg.usage {
        return;
      }
      usageEventEmitted := true;
      var isStream := if responseIsSse.None? then cfg.requestedStream else responseIsSse.value;
      log := log + [UsageEvent(v.Success?, if v.Error? then Some(v.code) else None, if v.Success? then v.usage else None,
                               observedStatusCode, isStream)];
    }

    method EmitActivityEnd(success: bool)
      modifies this`activityEnded, this`log
      ensures Now() == EmitEnd(cfg, old(Now()), success)
    {
      if !cfg.activity || activityEnded {
        return;
      }
      activityEnded := true;
      log := log + [ActivityEnd(success)];
    }

    method SettleTerminal(v: Verdict)
      modifies this`terminalSettled, this`usageEventEmitted, this`activityEnded, this`log
      ensures Now() == Settle(cfg, old(Now()), v)
    {
      if terminalSettled {
        return;
      }
      terminalSettled := true;
      EmitUsageEvent(v);
      EmitActivityEnd(v.Success?);
    }

    method Dial()
      modifies this`dials
      ensures Now() == DialUpstream(old(Now()))
    {
      dials := dials + [Awaiting];
    }

    method HandleClientClose()
      modifies this
      ensures Now() == Next(cfg, old(Now()), ClientClose)
    {
      if clientGone {
        return;
      }
      clientGone := true;
      if terminalSettled || writableEnded {
        return;
      }
      SettleTerminal(Error(ClientDisconnected));
    }

    method HandleUpstreamResponse(d: nat, statusCode: int, sse: bool)
      modifies this
      ensures Now() == Next(cfg, old(Now()), Response(d, statusCode, sse))
    {
      if d >= |dials| || !dials[d].Awaiting? {
        return;
      }
      observedStatusCode := Some(statusCode);
      responseIsSse := Some(sse);
      var ok := 200 <= statusCode < 300;
      if !ok && cfg.hooks {
        dials := dials[d := Reading];
        return;
      }
      dials := dials[d := Streaming(ok, false)];
    }

    method HandleRequestError(d: nat)
      requires d < |dials|
      modifies this
      ensures Now() == Next(cfg, old(Now()), RequestError(d))
    {
      SettleTerminal(Error(ConnectFailed));
      if !clientGone {
        writableEnded := true;
      }
      if !dials[d].Reading? && !dials[d].Hooked? {
        dials := dials[d := Closed];
      }
    }

    method HandleData(d: nat)
      modifies this
      ensures Now() == Next(cfg, old(Now()), Data(d))
    {
      if d < |dials| && dials[d].Streaming? && !firstByteSeen {
        firstByteSeen := true;
        if cfg.activity {
          log := log + [FirstByte];
        }
      }
    }

    method HandleEnd(d: nat, usage: Option<Usage>)
      requires d < |dials| && dials[d].Streaming?
      modifies this
      ensures Now() == Next(cfg, old(Now()), End(d, usage))
    {
      SettleTerminal(if dials[d].ok then Success(usage) else Error(HttpError));
      assert dials == old(dials);
      dials := dials[d := dials[d].(ended := true)];
      writableEnded := true;
    }

    method HandleAborted(d: nat)
      requires d < |dials| && dials[d].Streaming?
      modifies this
      ensures Now() == Next(cfg, old(Now()), Aborted(d))
    {
      SettleTerminal(Error(StreamAborted));
      dials := dials[d := dials[d].(ended := true)];
    }

    method HandleStreamError(d: nat)
      requires d < |dials| && dials[d].Streaming?
      modifies this
      ensures Now() == Next(cfg, old(Now()), StreamError(d))
    {
      SettleTerminal(Error(StreamFailed));
      dials := dials[d := dials[d].(ended := true)];
    }

    method RejectToClient()
      modifies this`terminalSettled, this`usageEventEmitted, this`activityEnded, this`log, this`writableEnded
      ensures Now() == Reject(cfg, old(Now()))
    {
      if clientGone {
        return;
      }
      SettleTerminal(Error(HttpError));
      writableEnded := true;
    }

    /** The error body has been read; the hook is asked only while the client is there and repairs are left. */
    method AfterErrorBody(d: nat)
      requires d < |dials| && dials[d].Reading?
      modifies this
      ensures Now() == Next(cfg, old(Now()), BodyRead(d))
    {
      if !clientGone && repairs < cfg.retryMax {
        dials := dials[d := Hooked];
        return;
      }
      RejectToClient();
      dials := dials[d := Closed];
    }

    /** The hook has decided; a repair dials again without looking at the client. */
    method AfterHook(d: nat, retry: bool)
      requires d < |dials| && dials[d].Hooked?
      modifies this
      ensures Now() == Next(cfg, old(Now()), HookResult(d, retry))
    {
      if retry {
        repairs := repairs + 1;
        dials := dials[d := Closed];
        Dial();
        return;
      }
      RejectToClient();
      dials := dials[d := Closed];
    }
  }
}
