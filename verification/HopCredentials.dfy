/** The store of hop credentials (lib/proxy/hop-credentials.js 111-195).

    A record keeps its normalized route; comparing route keys is comparing routes, because the key is
    injective. Tokens are named by the bundle that made them, hashes being injective. */
module HopCredentials {
  import opened JsonString
  import opened HopRoutes

  /** revokedAt 0 stands for not revoked: the source tests the time for truth. */
  datatype Record = Record(id: nat, route: Route, token: nat, issuedAt: int, expiresAt: int, revokedAt: int)

  datatype Store = Store(records: seq<Record>, nextId: nat, nextToken: nat)

  datatype Op =
    | Issue(routes: seq<Route>, expiresAt: int, now: int)
    | Revoke(ids: set<nat>, sessionId: string, now: int)
    | Purge(before: int)

  datatype Verdict = Unmanaged | Revoked | Expired | Missing | Mismatch | Valid

  predicate Live(r: Record) {
    r.revokedAt == 0
  }

  // ---------------------------------------------------------------- operations

  predicate NoRepeat(routes: seq<Route>) {
    routes == [] || (routes[0] !in routes[1..] && NoRepeat(routes[1..]))
  }

  lemma {:induction false} NoRepeatIff(routes: seq<Route>)
    ensures NoRepeat(routes) <==> forall i, j | 0 <= i < j < |routes| :: routes[i] != routes[j]
    decreases |routes|
  {
    if routes != [] {
      NoRepeatIff(routes[1..]);
      assert forall i | 0 <= i < |routes| - 1 :: routes[1..][i] == routes[i + 1];
      assert forall i | 1 <= i < |routes| :: routes[i] == routes[1..][i - 1];
      if routes[0] in routes[1..] {
        var k :| 0 <= k < |routes| - 1 && routes[1..][k] == routes[0];
        assert routes[k + 1] == routes[0];
      }
    }
  }

  predicate IssueAdmitted(routes: seq<Route>, expiresAt: int, now: int) {
    1 <= |routes| <= 256 && NoRepeat(routes) && expiresAt > now
  }

  /** Existing records with every selected one revoked. */
  function RevokeWhere(records: seq<Record>, selected: Record -> bool, now: int): seq<Record> {
    if records == [] then []
    else [if Live(records[0]) && selected(records[0]) then records[0].(revokedAt := now) else records[0]]
         + RevokeWhere(records[1..], selected, now)
  }

  function NewRecords(s: Store, routes: seq<Route>, expiresAt: int, now: int): seq<Record> {
    seq(|routes|, i requires 0 <= i < |routes| => Record(s.nextId + i, routes[i], s.nextToken, now, expiresAt, 0))
  }

  function InRoutes(routes: seq<Route>): Record -> bool {
    (r: Record) => r.route in routes
  }

  function IssueBundle(s: Store, routes: seq<Route>, expiresAt: int, now: int): Store {
    if !IssueAdmitted(routes, expiresAt, now) then s
    else Store(RevokeWhere(s.records, InRoutes(routes), now) + NewRecords(s, routes, expiresAt, now),
               s.nextId + |routes|, s.nextToken + 1)
  }

  /** By ids when any are given, otherwise by session. */
  predicate RevokeSelects(ids: set<nat>, sessionId: string, r: Record) {
    r.id in ids || (ids == {} && sessionId != "" && r.route.sessionId == sessionId)
  }

  function SelectedBy(ids: set<nat>, sessionId: string): Record -> bool {
    (r: Record) => RevokeSelects(ids, sessionId, r)
  }

  function RevokeRecords(s: Store, ids: set<nat>, sessionId: string, now: int): Store {
    s.(records := RevokeWhere(s.records, SelectedBy(ids, sessionId), now))
  }

  function PurgeFrom(records: seq<Record>, before: int): seq<Record> {
    if records == [] then []
    else (if !Live(records[0]) && records[0].revokedAt <= before then [] else [records[0]]) + PurgeFrom(records[1..], before)
  }

  function Apply(s: Store, op: Op): Store {
    match op
    case Issue(routes, expiresAt, now) => IssueBundle(s, routes, expiresAt, now)
    case Revoke(ids, sessionId, now) => RevokeRecords(s, ids, sessionId, now)
    case Purge(before) => s.(records := PurgeFrom(s.records, before))
  }

  function Run(ops: seq<Op>): Store {
    if ops == [] then Store([], 0, 0) else Apply(Run(ops[..|ops| - 1]), ops[|ops| - 1])
  }

  predicate Known(records: seq<Record>, route: Route) {
    exists i | 0 <= i < |records| :: records[i].route == route
  }

  /** The first live record of the route. */
  function FindLive(records: seq<Record>, route: Route): Option<Record> {
    if records == [] then None
    else if records[0].route == route && Live(records[0]) then Some(records[0])
    else FindLive(records[1..], route)
  }

  /** The store's answer for a route and a presented token, if any. */
  function Verify(s: Store, route: Route, token: Option<nat>, now: int): Verdict {
    if !Known(s.records, route) then Unmanaged
    else
      var active := FindLive(s.records, route);
      if active.None? then Revoked
      else if active.value.expiresAt <= now then Expired
      else if token.None? then Missing
      else if token.value == active.value.token then Valid else Mismatch
  }

  // ---------------------------------------------------------------- the map it stands for

  datatype Holder = Holder(id: nat, token: nat, expiresAt: int)

  /** Clocks are past the epoch, so a revocation time is never zero. */
  predicate Timely(op: Op) {
    op.Purge? || op.now > 0
  }

  function IndexOf(routes: seq<Route>, route: Route): (i: nat)
    requires route in routes
    ensures i < |routes| && routes[i] == route
  {
    if routes[0] == route then 0 else 1 + IndexOf(routes[1..], route)
  }

  /** Who holds a route after some operations, read off the operations alone: the bundle that named it
      last, unless it was revoked since. */
  function HolderOf(ops: seq<Op>, route: Route): Option<Holder> {
    if ops == [] then None
    else
      var before, op := ops[..|ops| - 1], ops[|ops| - 1];
      var held := HolderOf(before, route);
      match op
      case Issue(routes, expiresAt, now) =>
        if IssueAdmitted(routes, expiresAt, now) && route in routes then
          Some(Holder(IssuedIds(before) + IndexOf(routes, route), IssuedBundles(before), expiresAt))
        else held
      case Revoke(ids, sessionId, _) =>
        if held.Some? && (held.value.id in ids || (ids == {} && sessionId != "" && route.sessionId == sessionId)) then None else held
      case Purge(_) => held
  }

  /** How many ids, and how many tokens, have been handed out. */
  function IssuedIds(ops: seq<Op>): nat {
    if ops == [] then 0
    else
      var op := ops[|ops| - 1];
      IssuedIds(ops[..|ops| - 1]) + if op.Issue? && IssueAdmitted(op.routes, op.expiresAt, op.now) then |op.routes| else 0
  }

  function IssuedBundles(ops: seq<Op>): nat {
    if ops == [] then 0
    else
      var op := ops[|ops| - 1];
      IssuedBundles(ops[..|ops| - 1]) + if op.Issue? && IssueAdmitted(op.routes, op.expiresAt, op.now) then 1 else 0
  }

  /** At most one live record per route. */
  predicate OneLive(records: seq<Record>) {
    records == [] ||
    ((Live(records[0]) ==> FindLive(records[1..], records[0].route).None?) && OneLive(records[1..]))
  }

  function HolderIn(records: seq<Record>, route: Route): Option<Holder> {
    var r := FindLive(records, route);
    if r.None? then None else Some(Holder(r.value.id, r.value.token, r.value.expiresAt))
  }

  // ---------------------------------------------------------------- lemmas on the list

  lemma {:induction false} FindLiveIs(records: seq<Record>, route: Route)
    ensures var r := FindLive(records, route); r.Some? ==> r.value in records && r.value.route == route && Live(r.value)
    ensures FindLive(records, route).None? ==> forall r | r in records && r.route == route :: !Live(r)
    decreases |records|
  {
    if records != [] {
      FindLiveIs(records[1..], route);
    }
  }

  /** Revoking the selected records ends the live one if it is selected, and changes no other route's. */
  lemma {:induction false} RevokeEffect(records: seq<Record>, selected: Record -> bool, now: int, route: Route)
    requires now > 0 && OneLive(records)
    ensures var after := RevokeWhere(records, selected, now); var r := FindLive(records, route);
            && OneLive(after) && |after| == |records|
            && FindLive(after, route) == if r.Some? && selected(r.value) then None else r
    decreases |records|
  {
    if records != [] {
      RevokeEffect(records[1..], selected, now, route);
      RevokeEffect(records[1..], selected, now, records[0].route);
    }
  }

  lemma {:induction false} PurgeEffect(records: seq<Record>, before: int, route: Route)
    ensures FindLive(PurgeFrom(records, before), route) == FindLive(records, route)
    ensures OneLive(records) ==> OneLive(PurgeFrom(records, before))
    decreases |records|
  {
    if records != [] {
      PurgeEffect(records[1..], before, route);
      PurgeEffect(records[1..], before, records[0].route);
      var kept := PurgeFrom(records[1..], before);
      assert [] + kept == kept && ([records[0]] + kept)[1..] == kept;
    }
  }

  lemma {:induction false} FindInConcat(a: seq<Record>, b: seq<Record>, route: Route)
    ensures FindLive(a + b, route) == if FindLive(a, route).Some? then FindLive(a, route) else FindLive(b, route)
    decreases |a|
  {
    if a == [] {
      assert a + b == b;
    } else {
      assert (a + b)[1..] == a[1..] + b;
      FindInConcat(a[1..], b, route);
    }
  }

  lemma {:induction false} OneLiveConcat(a: seq<Record>, b: seq<Record>)
    requires OneLive(a) && OneLive(b) && forall route | FindLive(a, route).Some? :: FindLive(b, route).None?
    ensures OneLive(a + b)
    decreases |a|
  {
    if a == [] {
      assert a + b == b;
    } else {
      assert (a + b)[1..] == a[1..] + b;
      forall route | FindLive(a[1..], route).Some? ensures FindLive(b, route).None? {
        assert FindLive(a, route).Some?;
      }
      OneLiveConcat(a[1..], b);
      FindInConcat(a[1..], b, a[0].route);
    }
  }

  lemma {:induction false} NewRecordsHold(id: nat, routes: seq<Route>, token: nat, expiresAt: int, now: int, route: Route)
    requires NoRepeat(routes)
    ensures var rs := NewRecords(Store([], id, token), routes, expiresAt, now);
            && OneLive(rs)
            && FindLive(rs, route) == if route in routes then Some(Record(id + IndexOf(routes, route), route, token, now, expiresAt, 0)) else None
    decreases |routes|
  {
    var rs := NewRecords(Store([], id, token), routes, expiresAt, now);
    if routes != [] {
      var rest := NewRecords(Store([], id + 1, token), routes[1..], expiresAt, now);
      assert rs[1..] == rest;
      NewRecordsHold(id + 1, routes[1..], token, expiresAt, now, route);
      NewRecordsHold(id + 1, routes[1..], token, expiresAt, now, routes[0]);
      assert route in routes <==> route == routes[0] || route in routes[1..];
    }
  }

  lemma RotatedOut(records: seq<Record>, routes: seq<Route>, now: int, route: Route)
    requires OneLive(records) && now > 0
    ensures FindLive(RevokeWhere(records, InRoutes(routes), now), route) ==
            if route in routes then None else FindLive(records, route)
  {
    RevokeEffect(records, InRoutes(routes), now, route);
    FindLiveIs(records, route);
  }

  lemma NewHolder(s: Store, routes: seq<Route>, expiresAt: int, now: int, route: Route)
    requires NoRepeat(routes)
    ensures HolderIn(NewRecords(s, routes, expiresAt, now), route) ==
            if route in routes then Some(Holder(s.nextId + IndexOf(routes, route), s.nextToken, expiresAt)) else None
  {
    assert NewRecords(s, routes, expiresAt, now) == NewRecords(Store([], s.nextId, s.nextToken), routes, expiresAt, now);
    NewRecordsHold(s.nextId, routes, s.nextToken, expiresAt, now, route);
  }

  lemma HolderInConcat(a: seq<Record>, b: seq<Record>, route: Route)
    ensures HolderIn(a + b, route) == if HolderIn(a, route).Some? then HolderIn(a, route) else HolderIn(b, route)
  {
    FindInConcat(a, b, route);
  }

  /** A new bundle takes over exactly its routes. */
  lemma IssueEffect(s: Store, routes: seq<Route>, expiresAt: int, now: int, route: Route)
    requires OneLive(s.records) && now > 0 && IssueAdmitted(routes, expiresAt, now)
    ensures var r := IssueBundle(s, routes, expiresAt, now);
            HolderIn(r.records, route) ==
              if route in routes then Some(Holder(s.nextId + IndexOf(routes, route), s.nextToken, expiresAt))
              else HolderIn(s.records, route)
  {
    var rotated := RevokeWhere(s.records, InRoutes(routes), now);
    var added := NewRecords(s, routes, expiresAt, now);
    assert IssueBundle(s, routes, expiresAt, now).records == rotated + added;
    RotatedOut(s.records, routes, now, route);
    NewHolder(s, routes, expiresAt, now, route);
    HolderInConcat(rotated, added, route);
  }

  lemma IssueKeepsOneLive(s: Store, routes: seq<Route>, expiresAt: int, now: int)
    requires OneLive(s.records) && now > 0 && IssueAdmitted(routes, expiresAt, now)
    ensures OneLive(IssueBundle(s, routes, expiresAt, now).records)
  {
    var rotated := RevokeWhere(s.records, InRoutes(routes), now);
    var added := NewRecords(s, routes, expiresAt, now);
    assert added == NewRecords(Store([], s.nextId, s.nextToken), routes, expiresAt, now);
    RevokeEffect(s.records, InRoutes(routes), now, routes[0]);
    NewRecordsHold(s.nextId, routes, s.nextToken, expiresAt, now, routes[0]);
    forall route | FindLive(rotated, route).Some? ensures FindLive(added, route).None? {
      RotatedOut(s.records, routes, now, route);
      NewRecordsHold(s.nextId, routes, s.nextToken, expiresAt, now, route);
    }
    OneLiveConcat(rotated, added);
  }

  /** The list stands for the map from routes to holders. */
  ghost predicate Refines(s: Store, ops: seq<Op>) {
    && OneLive(s.records) && s.nextId == IssuedIds(ops) && s.nextToken == IssuedBundles(ops)
    && forall route :: HolderIn(s.records, route) == HolderOf(ops, route)
  }

  lemma RevokeRefines(s: Store, ids: set<nat>, sessionId: string, now: int, route: Route)
    requires OneLive(s.records) && now > 0
    ensures var after := RevokeRecords(s, ids, sessionId, now); var held := HolderIn(s.records, route);
            && OneLive(after.records)
            && HolderIn(after.records, route) ==
                 if held.Some? && (held.value.id in ids || (ids == {} && sessionId != "" && route.sessionId == sessionId)) then None else held
  {
    RevokeEffect(s.records, SelectedBy(ids, sessionId), now, route);
    FindLiveIs(s.records, route);
  }

  lemma IssueStep(s: Store, ops: seq<Op>)
    requires ops != [] && ops[|ops| - 1].Issue? && Timely(ops[|ops| - 1]) && Refines(s, ops[..|ops| - 1])
    ensures Refines(Apply(s, ops[|ops| - 1]), ops)
  {
    var op := ops[|ops| - 1];
    var s' := Apply(s, op);
    if IssueAdmitted(op.routes, op.expiresAt, op.now) {
      IssueKeepsOneLive(s, op.routes, op.expiresAt, op.now);
      forall route ensures HolderIn(s'.records, route) == HolderOf(ops, route) {
        assert HolderIn(s.records, route) == HolderOf(ops[..|ops| - 1], route);
        IssueEffect(s, op.routes, op.expiresAt, op.now, route);
      }
    }
  }

  lemma RevokeStep(s: Store, ops: seq<Op>, any: Route)
    requires ops != [] && ops[|ops| - 1].Revoke? && Timely(ops[|ops| - 1]) && Refines(s, ops[..|ops| - 1])
    ensures Refines(Apply(s, ops[|ops| - 1]), ops)
  {
    var op := ops[|ops| - 1];
    var s' := Apply(s, op);
    RevokeRefines(s, op.ids, op.sessionId, op.now, any);
    forall route ensures HolderIn(s'.records, route) == HolderOf(ops, route) {
      RevokeRefines(s, op.ids, op.sessionId, op.now, route);
    }
  }

  lemma PurgeStep(s: Store, ops: seq<Op>, any: Route)
    requires ops != [] && ops[|ops| - 1].Purge? && Refines(s, ops[..|ops| - 1])
    ensures Refines(Apply(s, ops[|ops| - 1]), ops)
  {
    var op := ops[|ops| - 1];
    PurgeEffect(s.records, op.before, any);
    forall route ensures HolderIn(Apply(s, op).records, route) == HolderOf(ops, route) {
      PurgeEffect(s.records, op.before, route);
    }
  }

  /** Over every sequence of issues, rotations, revocations and purges the record list holds at most
      one live record per route, and it is the one a plain map would hold. */
  lemma {:induction false} RunRefines(ops: seq<Op>)
    requires forall i | 0 <= i < |ops| :: Timely(ops[i])
    ensures Refines(Run(ops), ops)
    decreases |ops|
  {
    if ops != [] {
      RunRefines(ops[..|ops| - 1]);
      var any := Route("", "", "", "", "", "");
      match ops[|ops| - 1]
      case Issue(_, _, _) => IssueStep(Run(ops[..|ops| - 1]), ops);
      case Revoke(_, _, _) => RevokeStep(Run(ops[..|ops| - 1]), ops, any);
      case Purge(_) => PurgeStep(Run(ops[..|ops| - 1]), ops, any);
    }
  }

  /** Verification agrees with the map: a token is accepted exactly when it holds the route and has not
      expired. */
  lemma VerifyIsLookup(ops: seq<Op>, route: Route, token: nat, now: int)
    requires forall i | 0 <= i < |ops| :: Timely(ops[i])
    ensures Verify(Run(ops), route, Some(token), now).Valid? <==>
            HolderOf(ops, route).Some? && HolderOf(ops, route).value.token == token && HolderOf(ops, route).value.expiresAt > now
  {
    RunRefines(ops);
    var records := Run(ops).records;
    FindLiveIs(records, route);
    assert HolderIn(records, route) == HolderOf(ops, route);
  }

  // ---------------------------------------------------------------- one bundle

  /** The operation takes the route away from the holder with this id. */
  predicate Takes(op: Op, route: Route, id: nat) {
    match op
    case Issue(routes, expiresAt, now) => IssueAdmitted(routes, expiresAt, now) && route in routes
    case Revoke(ids, sessionId, _) => id in ids || (ids == {} && sessionId != "" && route.sessionId == sessionId)
    case Purge(_) => false
  }

  lemma {:induction false} TokensAreFresh(ops: seq<Op>, route: Route)
    ensures HolderOf(ops, route).Some? ==> HolderOf(ops, route).value.token < IssuedBundles(ops)
    decreases |ops|
  {
    if ops != [] {
      TokensAreFresh(ops[..|ops| - 1], route);
    }
  }

  /** The bundle issued by the n-th operation. */
  predicate IsBundle(ops: seq<Op>, n: nat) {
    n < |ops| && ops[n].Issue? && IssueAdmitted(ops[n].routes, ops[n].expiresAt, ops[n].now)
  }

  lemma {:induction false} BundlesGrow(ops: seq<Op>, n: nat)
    requires n <= |ops|
    ensures IssuedBundles(ops[..n]) <= IssuedBundles(ops)
    ensures IsBundle(ops, n) ==> IssuedBundles(ops[..n]) < IssuedBundles(ops)
    decreases |ops|
  {
    if n == |ops| {
      assert ops[..n] == ops;
    } else {
      var before := ops[..|ops| - 1];
      BundlesGrow(before, n);
      assert before[..n] == ops[..n];
    }
  }

  /** The operations after the n-th leave the route with the holder. */
  predicate Untaken(ops: seq<Op>, n: nat, route: Route, id: nat) {
    forall m | n < m < |ops| :: !Takes(ops[m], route, id)
  }

  /** A bundle's token holds exactly those of its own routes that no later operation took away. */
  lemma {:induction false} BundleHoldsIff(ops: seq<Op>, n: nat, route: Route)
    requires IsBundle(ops, n)
    ensures var token := IssuedBundles(ops[..n]); var held := HolderOf(ops, route);
            if route in ops[n].routes then
              var id := IssuedIds(ops[..n]) + IndexOf(ops[n].routes, route);
              && (held.Some? && held.value.token == token <==> Untaken(ops, n, route, id))
              && (held.Some? && held.value.token == token ==> held == Some(Holder(id, token, ops[n].expiresAt)))
            else held.Some? ==> held.value.token != token
    decreases |ops|
  {
    var last := |ops| - 1;
    var before := ops[..last];
    if n == last {
      TokensAreFresh(before, route);
    } else {
      assert before[..n] == ops[..n] && before[n] == ops[n];
      BundleHoldsIff(before, n, route);
      BundlesGrow(before, n);
      var held := HolderOf(before, route);
      if route in ops[n].routes {
        var id := IssuedIds(ops[..n]) + IndexOf(ops[n].routes, route);
        assert Untaken(ops, n, route, id) <==> Untaken(before, n, route, id) && !Takes(ops[last], route, id);
      }
    }
  }

  /** The token of a bundle is accepted on exactly the bundle routes not since rotated, revoked or
      expired, and on no other route. */
  lemma BundleTokenAcceptedIff(ops: seq<Op>, n: nat, route: Route, now: int)
    requires IsBundle(ops, n) && forall i | 0 <= i < |ops| :: Timely(ops[i])
    ensures Verify(Run(ops), route, Some(IssuedBundles(ops[..n])), now).Valid? <==>
            route in ops[n].routes && ops[n].expiresAt > now &&
            Untaken(ops, n, route, IssuedIds(ops[..n]) + IndexOf(ops[n].routes, route))
  {
    BundleHoldsIff(ops, n, route);
    VerifyIsLookup(ops, route, IssuedBundles(ops[..n]), now);
  }

  lemma {:induction false} HolderAfterIssue(ops: seq<Op>, routes: seq<Route>, expiresAt: int, now: int, route: Route)
    requires IssueAdmitted(routes, expiresAt, now)
    ensures HolderOf(ops + [Issue(routes, expiresAt, now)], route) ==
            if route in routes then Some(Holder(IssuedIds(ops) + IndexOf(routes, route), IssuedBundles(ops), expiresAt))
            else HolderOf(ops, route)
  {
    assert (ops + [Issue(routes, expiresAt, now)])[..|ops|] == ops;
  }

  /** Right after it is issued, a bundle's token opens exactly its routes, until it expires. */
  lemma {:induction false} FreshTokenOpens(ops: seq<Op>, routes: seq<Route>, expiresAt: int, now: int, later: int, route: Route)
    requires IssueAdmitted(routes, expiresAt, now) && now > 0 && forall i | 0 <= i < |ops| :: Timely(ops[i])
    ensures Verify(Run(ops + [Issue(routes, expiresAt, now)]), route, Some(IssuedBundles(ops)), later).Valid? <==>
            route in routes && later < expiresAt
  {
    VerifyIsLookup(ops + [Issue(routes, expiresAt, now)], route, IssuedBundles(ops), later);
    HolderAfterIssue(ops, routes, expiresAt, now, route);
    TokensAreFresh(ops, route);
  }

  // ---------------------------------------------------------------- the store object

  lemma {:induction false} RevokeAppend(records: seq<Record>, r: Record, selected: Record -> bool, now: int)
    ensures RevokeWhere(records + [r], selected, now) ==
            RevokeWhere(records, selected, now) + [if Live(r) && selected(r) then r.(revokedAt := now) else r]
    decreases |records|
  {
    if records == [] {
      assert [] + [r] == [r] && [r][1..] == [];
    } else {
      assert (records + [r])[1..] == records[1..] + [r];
      RevokeAppend(records[1..], r, selected, now);
    }
  }

  lemma {:induction false} PurgeAppend(records: seq<Record>, r: Record, before: int)
    ensures PurgeFrom(records + [r], before) ==
            PurgeFrom(records, before) + if !Live(r) && r.revokedAt <= before then [] else [r]
    decreases |records|
  {
    if records == [] {
      assert [] + [r] == [r] && [r][1..] == [];
    } else {
      assert (records + [r])[1..] == records[1..] + [r];
      PurgeAppend(records[1..], r, before);
    }
  }

  class CredentialStore {
    var credentials: seq<Record>
    var nextId: nat
    var nextToken: nat

    ghost function Now(): Store
      reads this
    {
      Store(credentials, nextId, nextToken)
    }

    constructor ()
      ensures Now() == Run([])
    {
      credentials, nextId, nextToken := [], 0, 0;
    }

    method RevokeSelected(selected: Record -> bool, now: int)
      modifies this`credentials
      ensures credentials == RevokeWhere(old(credentials), selected, now)
    {
      var next: seq<Record> := [];
      var document := credentials;
      for n := 0 to |document|
        invariant next == RevokeWhere(document[..n], selected, now)
      {
        var r := document[n];
        RevokeAppend(document[..n], r, selected, now);
        assert document[..n + 1] == document[..n] + [r];
        next := next + [if Live(r) && selected(r) then r.(revokedAt := now) else r];
      }
      assert document[..|document|] == document;
      credentials := next;
    }

    /** None when the bundle is not admitted; otherwise the token of the new bundle. */
    method Issue(routes: seq<Route>, expiresAt: int, now: int) returns (token: Option<nat>)
      modifies this
      ensures Now() == Apply(old(Now()), Op.Issue(routes, expiresAt, now))
      ensures token == if IssueAdmitted(routes, expiresAt, now) then Some(old(nextToken)) else None
    {
      if |routes| == 0 || |routes| > 256 || !NoRepeat(routes) || expiresAt <= now {
        return None;
      }
      var records := NewRecords(Store(credentials, nextId, nextToken), routes, expiresAt, now);
      RevokeSelected(InRoutes(routes), now);
      credentials := credentials + records;
      token := Some(nextToken);
      nextId := nextId + |routes|;
      nextToken := nextToken + 1;
    }

    method Revoke(ids: set<nat>, sessionId: string, now: int)
      modifies this
      ensures Now() == Apply(old(Now()), Op.Revoke(ids, sessionId, now))
    {
      RevokeSelected(SelectedBy(ids, sessionId), now);
    }

    method Purge(before: int)
      modifies this`credentials
      ensures Now() == Apply(old(Now()), Op.Purge(before))
    {
      var next: seq<Record> := [];
      var document := credentials;
      for n := 0 to |document|
        invariant next == PurgeFrom(document[..n], before)
      {
        var r := document[n];
        PurgeAppend(document[..n], r, before);
        assert document[..n + 1] == document[..n] + [r];
        if Live(r) || r.revokedAt > before {
          next := next + [r];
        }
      }
      assert document[..|document|] == document;
      credentials := next;
    }

    /** Filters the records of the route and looks for a live one among them. */
    method VerifyToken(route: Route, token: Option<nat>, now: int) returns (v: Verdict)
      ensures v == Verify(Now(), route, token, now)
    {
      var known := false;
      var active: Option<Record> := None;
      for n := 0 to |credentials|
        invariant known == Known(credentials[..n], route)
        invariant active == FindLive(credentials[..n], route)
      {
        assert credentials[..n + 1] == credentials[..n] + [credentials[n]];
        FindInConcat(credentials[..n], [credentials[n]], route);
        assert forall i | 0 <= i < n :: credentials[..n + 1][i] == credentials[..n][i];
        assert credentials[..n + 1][n] == credentials[n];
        if credentials[n].route == route {
          known := true;
          if active.None? && Live(credentials[n]) {
            active := Some(credentials[n]);
          }
        }
      }
      assert credentials[..|credentials|] == credentials;
      if !known {
        return Unmanaged;
      }
      if active.None? {
        return Verdict.Revoked;
      }
      if active.value.expiresAt <= now {
        return Expired;
      }
      if token.None? {
        return Missing;
      }
      return if token.value == active.value.token then Valid else Mismatch;
    }
  }
}
