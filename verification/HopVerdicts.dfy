/** Every answer of the credential store, read off the operations (lib/proxy/hop-credentials.js 116-195,
    206-214). */
module HopVerdicts {
  import opened JsonString
  import opened HopRoutes
  import opened HopCredentials

  /** The times at which records of a route were revoked that the store still keeps: the operations that
      took the route from its holder, without those a later purge reached. */
  function RevokedTimes(ops: seq<Op>, route: Route): set<int> {
    if ops == [] then {}
    else
      var before, op := ops[..|ops| - 1], ops[|ops| - 1];
      var times, held := RevokedTimes(before, route), HolderOf(before, route);
      match op
      case Purge(cutoff) => set t | t in times && t > cutoff
      case Issue(_, _, now) => if held.Some? && Takes(op, route, held.value.id) then times + {now} else times
      case Revoke(_, _, now) => if held.Some? && Takes(op, route, held.value.id) then times + {now} else times
  }

  /** The same in the record list. */
  function Times(records: seq<Record>, route: Route): set<int> {
    if records == [] then {}
    else (if records[0].route == route && !Live(records[0]) then {records[0].revokedAt} else {}) + Times(records[1..], route)
  }

  lemma {:induction false} TimesConcat(a: seq<Record>, b: seq<Record>, route: Route)
    ensures Times(a + b, route) == Times(a, route) + Times(b, route)
    decreases |a|
  {
    if a == [] {
      assert a + b == b;
    } else {
      assert (a + b)[1..] == a[1..] + b;
      TimesConcat(a[1..], b, route);
    }
  }

  /** Revoking adds its time exactly when the live record of the route is selected. */
  lemma {:induction false} TimesRevoke(records: seq<Record>, selected: Record -> bool, now: int, route: Route)
    requires now > 0 && OneLive(records)
    ensures var r := FindLive(records, route);
            Times(RevokeWhere(records, selected, now), route) ==
            Times(records, route) + if r.Some? && selected(r.value) then {now} else {}
    decreases |records|
  {
    if records != [] {
      var rest := RevokeWhere(records[1..], selected, now);
      TimesRevoke(records[1..], selected, now, route);
      var after := RevokeWhere(records, selected, now);
      assert after[1..] == rest && after[0] == if Live(records[0]) && selected(records[0]) then records[0].(revokedAt := now) else records[0];
    }
  }

  lemma {:induction false} TimesPurge(records: seq<Record>, before: int, route: Route)
    ensures Times(PurgeFrom(records, before), route) == set t | t in Times(records, route) && t > before
    decreases |records|
  {
    if records != [] {
      TimesPurge(records[1..], before, route);
      var rest := PurgeFrom(records[1..], before);
      assert [] + rest == rest && ([records[0]] + rest)[1..] == rest;
    }
  }

  lemma {:induction false} AllLive(records: seq<Record>, route: Route)
    requires forall i | 0 <= i < |records| :: Live(records[i])
    ensures Times(records, route) == {}
    decreases |records|
  {
    if records != [] {
      AllLive(records[1..], route);
    }
  }

  lemma {:induction false} KnownIff(records: seq<Record>, route: Route)
    ensures Known(records, route) <==> FindLive(records, route).Some? || Times(records, route) != {}
    decreases |records|
  {
    if records != [] {
      KnownIff(records[1..], route);
      if Known(records, route) && records[0].route != route {
        var i :| 0 <= i < |records| && records[i].route == route;
        assert records[1..][i - 1].route == route;
      }
      if Known(records[1..], route) {
        var i :| 0 <= i < |records[1..]| && records[1..][i].route == route;
        assert records[i + 1].route == route;
      }
    }
  }

  lemma IssueTimes(s: Store, routes: seq<Route>, expiresAt: int, now: int, route: Route)
    requires OneLive(s.records) && now > 0 && IssueAdmitted(routes, expiresAt, now)
    ensures Times(IssueBundle(s, routes, expiresAt, now).records, route) ==
            Times(s.records, route) + if FindLive(s.records, route).Some? && route in routes then {now} else {}
  {
    var rotated, added := RevokeWhere(s.records, InRoutes(routes), now), NewRecords(s, routes, expiresAt, now);
    TimesConcat(rotated, added, route);
    TimesRevoke(s.records, InRoutes(routes), now, route);
    AllLive(added, route);
    FindLiveIs(s.records, route);
  }

  lemma RevokeTimes(s: Store, ids: set<nat>, sessionId: string, now: int, route: Route)
    requires OneLive(s.records) && now > 0
    ensures var held := HolderIn(s.records, route);
            Times(RevokeRecords(s, ids, sessionId, now).records, route) ==
            Times(s.records, route) + if held.Some? && Takes(Revoke(ids, sessionId, now), route, held.value.id) then {now} else {}
  {
    TimesRevoke(s.records, SelectedBy(ids, sessionId), now, route);
    FindLiveIs(s.records, route);
  }

  lemma {:induction false} TimesRefine(ops: seq<Op>, route: Route)
    requires forall i | 0 <= i < |ops| :: Timely(ops[i])
    ensures Times(Run(ops).records, route) == RevokedTimes(ops, route)
    decreases |ops|
  {
    if ops != [] {
      var before, op := ops[..|ops| - 1], ops[|ops| - 1];
      var s := Run(before);
      TimesRefine(before, route);
      RunRefines(before);
      assert HolderIn(s.records, route) == HolderOf(before, route);
      match op
      case Issue(routes, expiresAt, now) => if IssueAdmitted(routes, expiresAt, now) { IssueTimes(s, routes, expiresAt, now, route); }
      case Revoke(ids, sessionId, now) => RevokeTimes(s, ids, sessionId, now, route);
      case Purge(cutoff) => TimesPurge(s.records, cutoff, route);
    }
  }

  /** The answer for every route and token. A route is unmanaged only when nobody holds it and no record
      of a revocation is kept; a route that was taken from its holder is refused as revoked; one that is
      held answers by expiry, presence and match of the token, in this order. */
  lemma VerdictIs(ops: seq<Op>, route: Route, token: Option<nat>, now: int)
    requires forall i | 0 <= i < |ops| :: Timely(ops[i])
    ensures var v := Verify(Run(ops), route, token, now); var held := HolderOf(ops, route);
            && (v.Unmanaged? <==> held.None? && RevokedTimes(ops, route) == {})
            && (v.Revoked? <==> held.None? && RevokedTimes(ops, route) != {})
            && (v.Expired? <==> held.Some? && held.value.expiresAt <= now)
            && (v.Missing? <==> held.Some? && held.value.expiresAt > now && token.None?)
            && (v.Mismatch? <==> held.Some? && held.value.expiresAt > now && token.Some? && token.value != held.value.token)
            && (v.Valid? <==> held.Some? && held.value.expiresAt > now && token == Some(held.value.token))
  {
    RunRefines(ops);
    TimesRefine(ops, route);
    var records := Run(ops).records;
    KnownIff(records, route);
    assert HolderIn(records, route) == HolderOf(ops, route);
  }

  /** So a route that a bundle named stays managed while no purge reaches its revocations: a request for
      it is never let through as one of a legacy session. */
  lemma {:induction false} IssuedStaysManaged(ops: seq<Op>, n: nat, route: Route, token: Option<nat>, now: int)
    requires forall i | 0 <= i < |ops| :: Timely(ops[i])
    requires IsBundle(ops, n) && route in ops[n].routes && forall m | n < m < |ops| :: !ops[m].Purge?
    ensures !Verify(Run(ops), route, token, now).Unmanaged?
  {
    VerdictIs(ops, route, token, now);
    KeptOrHeld(ops, n, route);
  }

  lemma {:induction false} KeptOrHeld(ops: seq<Op>, n: nat, route: Route)
    requires IsBundle(ops, n) && route in ops[n].routes && forall m | n < m < |ops| :: !ops[m].Purge?
    ensures HolderOf(ops, route).Some? || RevokedTimes(ops, route) != {}
    decreases |ops|
  {
    var last := |ops| - 1;
    if n < last {
      var before, op := ops[..last], ops[last];
      assert before[n] == ops[n] && forall m | n < m < last :: before[m] == ops[m];
      KeptOrHeld(before, n, route);
      if op.Issue? {
        assert op.now in RevokedTimes(before, route) + {op.now};
      } else {
        assert op.Revoke? && op.now in RevokedTimes(before, route) + {op.now};
      }
    }
  }

  /** The proxies' gate: an unmanaged route passes only where no managed credential is required, and
      sessions of a takeover always require one. */
  predicate Passes(s: Store, route: Route, token: Option<nat>, now: int, required: bool) {
    var v := Verify(s, route, token, now);
    v.Valid? || (v.Unmanaged? && !required && !("direct-" <= route.sessionId))
  }

  /** What gets through: the live token of the route or, where nothing is required, a route that no
      record is kept of. */
  lemma PassesIff(ops: seq<Op>, route: Route, token: Option<nat>, now: int, required: bool)
    requires forall i | 0 <= i < |ops| :: Timely(ops[i])
    ensures var held := HolderOf(ops, route);
            Passes(Run(ops), route, token, now, required) <==>
              if held.Some? then held.value.expiresAt > now && token == Some(held.value.token)
              else !required && !("direct-" <= route.sessionId) && RevokedTimes(ops, route) == {}
  {
    VerdictIs(ops, route, token, now);
  }

  /** A bundle is refused, and the store left alone, exactly when it names no route or more than 256, names
      one twice, or would be expired. */
  lemma IssueRefusedIff(s: Store, routes: seq<Route>, expiresAt: int, now: int)
    ensures IssueBundle(s, routes, expiresAt, now) == s <==>
            || routes == [] || |routes| > 256 || expiresAt <= now
            || exists i, j :: 0 <= i < j < |routes| && routes[i] == routes[j]
  {
    NoRepeatIff(routes);
    assert IssueAdmitted(routes, expiresAt, now) ==> IssueBundle(s, routes, expiresAt, now).nextToken == s.nextToken + 1;
  }
}
