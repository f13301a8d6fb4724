/** Route names of hop credentials (lib/proxy/hop-credentials.js 10-63).

    A route names a CLI, a provider, a session and a role as the caller wrote them. It is normalized
    when a credential is issued and again when one is presented, so normalizing has to be idempotent;
    and it is compared through a key made of its parts, so the key has to tell all routes apart.
    A role may be given in any of three fields. */
module HopRoutes {
  import opened JsonString
  import opened Text
  import Percent

  /** What a caller passes; "" stands for an absent part, None for an absent role kind. */
  datatype Input = Input(cli: string, providerId: string, sessionId: string, roleKind: Option<string>,
                         agentRole: string, routeName: string, role: string)

  datatype Route = Route(cli: string, providerId: string, sessionId: string, roleKind: string,
                         agentRole: string, routeName: string)

  datatype Role = Role(roleKind: string, agentRole: string, routeName: string)

  predicate IsPartChar(c: char) {
    Percent.IsAlphanumeric(c) || c == '.' || c == '_' || c == '-'
  }

  predicate IsPart(s: string) {
    0 < |s| <= 128 && Percent.IsAlphanumeric(s[0]) && forall i | 0 <= i < |s| :: IsPartChar(s[i])
  }

  function CleanPart(value: string): (r: Option<string>)
    ensures r.Some? ==> IsPart(r.value)
  {
    if IsPart(Trim(value)) then Some(Trim(value)) else None
  }

  function CleanLower(value: string): Option<string> {
    var part := CleanPart(value);
    if part.None? then None else Some(Lower(part.value))
  }

  predicate IsRoleChar(c: char) {
    'a' <= c <= 'z' || '0' <= c <= '9' || c == '_' || c == '-'
  }

  predicate IsRoleName(s: string) {
    0 < |s| <= 64 && 'a' <= s[0] <= 'z' && forall i | 0 <= i < |s| :: IsRoleChar(s[i])
  }

  predicate IsBuiltin(s: string) {
    s == "default" || s == "worker" || s == "explorer"
  }

  function RequestedRole(i: Input): string {
    Lower(Trim(if i.routeName != "" then i.routeName else if i.agentRole != "" then i.agentRole
               else if i.role != "" then i.role else "main"))
  }

  function RoleNamed(raw: string): Option<Role> {
    if raw == "main" then Some(Role("main", "", "main"))
    else if raw == "aux" then Some(Role("aux", "", "aux"))
    else if raw == "sub" then Some(Role("sub", "default", "default"))
    else if IsRoleName(raw) then Some(Role("sub", if IsBuiltin(raw) then raw else "custom", raw))
    else None
  }

  predicate IsRoleKind(s: string) {
    s == "main" || s == "sub" || s == "aux"
  }

  /** None where the source throws. */
  function NormalizeRoute(i: Input): Option<Route> {
    var role := RoleNamed(RequestedRole(i));
    var kind := if role.None? then None else if i.roleKind.None? then Some(role.value.roleKind) else CleanLower(i.roleKind.value);
    if kind.None? || !IsRoleKind(kind.value) then None
    else
      var cli, provider, session := CleanLower(i.cli), CleanPart(i.providerId), CleanPart(i.sessionId);
      var agent := if kind.value != "sub" then Some("") else if i.agentRole != "" then CleanLower(i.agentRole) else Some(role.value.agentRole);
      var name := if kind.value != "sub" then kind else if i.routeName != "" then CleanLower(i.routeName) else Some(role.value.routeName);
      if cli.None? || provider.None? || session.None? || agent.None? || name.None? then None
      else Some(Route(cli.value, provider.value, session.value, kind.value, agent.value, name.value))
  }

  /** A route without a role kind has the kind its role name stands for. */
  lemma KindDefaults(i: Input, role: Role)
    requires RoleNamed(RequestedRole(i)) == Some(role) && CleanLower(role.roleKind) == Some(role.roleKind)
    ensures NormalizeRoute(i.(roleKind := None)) == NormalizeRoute(i.(roleKind := Some(role.roleKind)))
  {
    assert RequestedRole(i.(roleKind := None)) == RequestedRole(i) == RequestedRole(i.(roleKind := Some(role.roleKind)));
  }

  /** A normalized route passed in again, as verify and issue do. */
  function AsInput(r: Route): Input {
    Input(r.cli, r.providerId, r.sessionId, Some(r.roleKind), r.agentRole, r.routeName, "")
  }

  // ---------------------------------------------------------------- idempotence

  predicate IsLower(s: string) {
    forall i | 0 <= i < |s| :: !('A' <= s[i] <= 'Z')
  }

  lemma LowerIsLower(s: string)
    ensures IsLower(Lower(s)) && (IsLower(s) ==> Lower(s) == s)
  {
    forall i | 0 <= i < |s| ensures !('A' <= Lower(s)[i] <= 'Z') {
    }
    if IsLower(s) {
      forall i | 0 <= i < |s| ensures Lower(s)[i] == s[i] {
      }
      assert Lower(s) == s;
    }
  }

  /** Nothing to trim. */
  predicate Tight(s: string) {
    s != "" && !IsSpace(s[0]) && !IsSpace(s[|s| - 1])
  }

  lemma TrimTight(s: string)
    requires Tight(s)
    ensures Trim(s) == s
  {
    assert TrimStart(s) == s;
    assert TrimEnd(s) == s;
  }

  lemma PartTight(s: string)
    requires IsPart(s)
    ensures Tight(s) && Trim(s) == s
  {
    assert IsPartChar(s[0]) && IsPartChar(s[|s| - 1]);
    TrimTight(s);
  }

  lemma LowerPart(s: string)
    requires IsPart(s)
    ensures IsPart(Lower(s)) && CleanLower(Lower(s)) == Some(Lower(s))
  {
    var l := Lower(s);
    forall i | 0 <= i < |l| ensures IsPartChar(l[i]) {
      assert IsPartChar(s[i]);
    }
    PartTight(l);
    LowerIsLower(l);
    LowerIsLower(s);
  }

  lemma CleanAgain(value: string)
    ensures CleanPart(value).Some? ==> CleanPart(CleanPart(value).value) == CleanPart(value)
    ensures CleanLower(value).Some? ==> CleanLower(CleanLower(value).value) == CleanLower(value)
  {
    if CleanPart(value).Some? {
      PartTight(CleanPart(value).value);
      LowerPart(CleanPart(value).value);
    }
  }

  lemma RoleNameFacts(s: string)
    requires IsRoleName(s)
    ensures IsPart(s) && IsLower(s)
  {
    forall i | 0 <= i < |s| ensures IsPartChar(s[i]) && !('A' <= s[i] <= 'Z') {
      assert IsRoleChar(s[i]);
    }
    assert IsRoleChar(s[0]);
  }

  /** The name RoleNamed chooses, requested again, is the same name. */
  lemma NameAgain(raw: string)
    requires RoleNamed(raw).Some?
    ensures var n := RoleNamed(raw).value.routeName; IsRoleName(n) && Lower(Trim(n)) == n
  {
    var n := RoleNamed(raw).value.routeName;
    if raw == "main" || raw == "aux" || raw == "sub" {
      assert n == "main" || n == "aux" || n == "default";
    }
    assert IsRoleName(n);
    RoleNameFacts(n);
    PartTight(n);
    LowerIsLower(n);
  }

  /** The given name, cleaned, is the name that was requested. */
  lemma GivenName(value: string)
    requires CleanLower(value).Some?
    ensures CleanLower(value).value == Lower(Trim(value)) && CleanLower(value).value != ""
    ensures Lower(Trim(CleanLower(value).value)) == CleanLower(value).value
  {
    PartTight(Trim(value));
    LowerPart(Trim(value));
    PartTight(Lower(Trim(value)));
    LowerIsLower(Trim(value));
    LowerIsLower(Lower(Trim(value)));
  }

  /** What the role of a normalized route's own name is. */
  lemma RoleAgain(i: Input, r: Route)
    requires NormalizeRoute(i) == Some(r)
    ensures RequestedRole(AsInput(r)) == r.routeName && r.routeName != "" && RoleNamed(r.routeName).Some?
    ensures r.roleKind == "sub" && r.agentRole == "" ==> RoleNamed(r.routeName).value.agentRole == ""
  {
    var raw := RequestedRole(i);
    var role := RoleNamed(raw).value;
    if r.roleKind != "sub" {
      assert r.routeName == "main" || r.routeName == "aux";
      NameAgain(r.routeName);
    } else if i.routeName != "" {
      GivenName(i.routeName);
    } else {
      NameAgain(raw);
    }
    if r.roleKind == "sub" && r.agentRole == "" {
      if i.agentRole != "" {
        GivenName(i.agentRole);
      }
      assert role.agentRole == "";
      assert raw == "main" || raw == "aux";
    }
  }

  lemma KindAgain(i: Input, r: Route)
    requires NormalizeRoute(i) == Some(r)
    ensures IsRoleKind(r.roleKind) && CleanLower(r.roleKind) == Some(r.roleKind)
  {
    if i.roleKind.Some? {
      CleanAgain(i.roleKind.value);
    } else {
      RoleNameFacts(r.roleKind);
      LowerPart(r.roleKind);
      LowerIsLower(r.roleKind);
    }
  }

  /** Normalizing a normalized route changes nothing. */
  lemma NormalizeIdempotent(i: Input, r: Route)
    requires NormalizeRoute(i) == Some(r)
    ensures NormalizeRoute(AsInput(r)) == Some(r)
  {
    RoleAgain(i, r);
    KindAgain(i, r);
    CleanAgain(i.cli);
    CleanAgain(i.providerId);
    CleanAgain(i.sessionId);
    if r.roleKind == "sub" {
      SubAgain(i, r);
    }
  }

  /** The two names of a sub route stay as they are. */
  lemma SubAgain(i: Input, r: Route)
    requires NormalizeRoute(i) == Some(r) && r.roleKind == "sub"
    ensures r.agentRole != "" ==> CleanLower(r.agentRole) == Some(r.agentRole)
    ensures CleanLower(r.routeName) == Some(r.routeName)
  {
    if i.agentRole != "" {
      CleanAgain(i.agentRole);
    } else if r.agentRole != "" {
      AgentAgain(RequestedRole(i));
    }
    if i.routeName != "" {
      CleanAgain(i.routeName);
    } else {
      NameAgain(RequestedRole(i));
      NameIsClean(RequestedRole(i));
    }
  }

  lemma AgentAgain(raw: string)
    requires RoleNamed(raw).Some? && RoleNamed(raw).value.agentRole != ""
    ensures CleanLower(RoleNamed(raw).value.agentRole) == Some(RoleNamed(raw).value.agentRole)
  {
    var a := RoleNamed(raw).value.agentRole;
    assert a == "default" || a == "worker" || a == "explorer" || a == "custom";
    RoleNameFacts(a);
    LowerPart(a);
    LowerIsLower(a);
  }

  lemma NameIsClean(raw: string)
    requires RoleNamed(raw).Some?
    ensures CleanLower(RoleNamed(raw).value.routeName) == Some(RoleNamed(raw).value.routeName)
  {
    var n := RoleNamed(raw).value.routeName;
    NameAgain(raw);
    RoleNameFacts(n);
    LowerPart(n);
    LowerIsLower(n);
  }

  // ---------------------------------------------------------------- route keys

  function Joined(parts: seq<string>): string {
    if parts == [] then "" else if |parts| == 1 then parts[0] else parts[0] + "|" + Joined(parts[1..])
  }

  function Encoded(parts: seq<string>): seq<string> {
    seq(|parts|, i requires 0 <= i < |parts| => Percent.Encode(parts[i]))
  }

  function PartsOf(r: Route): seq<string> {
    [r.cli, r.providerId, r.sessionId, r.roleKind, r.agentRole, r.routeName]
  }

  function RouteKey(r: Route): string {
    Joined(Encoded(PartsOf(r)))
  }

  predicate NoBar(parts: seq<string>) {
    forall i | 0 <= i < |parts| :: '|' !in parts[i]
  }

  lemma SameHead(x: string, y: string, xs: string, ys: string)
    requires '|' !in x && '|' !in y && x + "|" + xs == y + "|" + ys
    ensures x == y && xs == ys
  {
    var s, t := x + "|" + xs, y + "|" + ys;
    assert s[|x|] == '|' && t[|y|] == '|';
    assert forall i | 0 <= i < |x| :: s[i] == x[i] != '|';
    assert forall i | 0 <= i < |y| :: t[i] == y[i] != '|';
    assert |x| == |y|;
    assert x == s[..|x|] && y == t[..|y|] && xs == s[|x| + 1..] && ys == t[|y| + 1..];
  }

  lemma {:induction false} JoinInjective(a: seq<string>, b: seq<string>)
    requires |a| == |b| && NoBar(a) && NoBar(b) && Joined(a) == Joined(b)
    ensures a == b
    decreases |a|
  {
    if |a| == 1 {
      assert a == [a[0]] && b == [b[0]];
    } else if |a| > 1 {
      SameHead(a[0], b[0], Joined(a[1..]), Joined(b[1..]));
      assert forall i | 0 <= i < |a| - 1 :: a[1..][i] == a[i + 1] && b[1..][i] == b[i + 1];
      JoinInjective(a[1..], b[1..]);
      assert a == [a[0]] + a[1..] && b == [b[0]] + b[1..];
    }
  }

  lemma EncodedNoBar(parts: seq<string>)
    ensures NoBar(Encoded(parts))
  {
    forall i | 0 <= i < |parts| ensures '|' !in Encoded(parts)[i] {
      Percent.EncodedIsSafe(parts[i]);
    }
  }

  lemma EncodedInjective(a: seq<string>, b: seq<string>)
    requires |a| == |b| && Encoded(a) == Encoded(b)
    ensures a == b
  {
    forall i | 0 <= i < |a| ensures a[i] == b[i] {
      assert Encoded(a)[i] == Percent.Encode(a[i]) && Encoded(b)[i] == Percent.Encode(b[i]);
      Percent.Injective(a[i], b[i]);
    }
  }

  /** Different routes have different keys. */
  lemma RouteKeyInjective(a: Route, b: Route)
    requires RouteKey(a) == RouteKey(b)
    ensures a == b
  {
    EncodedNoBar(PartsOf(a));
    EncodedNoBar(PartsOf(b));
    JoinInjective(Encoded(PartsOf(a)), Encoded(PartsOf(b)));
    EncodedInjective(PartsOf(a), PartsOf(b));
    assert PartsOf(a)[0] == a.cli && PartsOf(b)[0] == b.cli && PartsOf(a)[1] == a.providerId && PartsOf(b)[1] == b.providerId;
    assert PartsOf(a)[2] == a.sessionId && PartsOf(b)[2] == b.sessionId && PartsOf(a)[3] == a.roleKind && PartsOf(b)[3] == b.roleKind;
    assert PartsOf(a)[4] == a.agentRole && PartsOf(b)[4] == b.agentRole && PartsOf(a)[5] == a.routeName && PartsOf(b)[5] == b.routeName;
  }
}
