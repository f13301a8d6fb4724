/** The routes a direct takeover issues credentials for, and the routes its written URLs reach
    (lib/direct-cli-config/index.js 130-133, 171-214, 239-288; lib/proxy/codex.js 349-365;
    lib/proxy/claude.js 366-398, 503-526).

    Both sides normalize roles on their own: the takeover when it plans credentials, the proxy when a
    request arrives under a written URL. The results are stated about the credential store the two
    share. */
module DirectRoutes {
  import opened JsonString
  import opened Text
  import opened HopRoutes
  import opened HopCredentials
  import Percent
  import Gateway

  /** A route profile's provider ids. */
  datatype Profile = Profile(id: string, main: string, subagent: Option<string>, roles: map<string, string>)

  function SessionId(p: Profile): string {
    "direct-" + p.id
  }

  function EndpointOf(p: Profile, role: string): string {
    if role in p.roles then p.roles[role] else if p.subagent.Some? then p.subagent.value else p.main
  }

  // ---------------------------------------------------------------- the plan

  function MainInput(cli: string, p: Profile): Input {
    Input(cli, p.main, SessionId(p), Some("main"), "", "main", "")
  }

  function RoleOf(name: string): Role {
    var role := RoleNamed(Lower(Trim(name)));
    if role.Some? then role.value else Role("sub", "custom", "")
  }

  function CodexRoleInput(provider: string, session: string, name: string): Input {
    Input("codex", provider, session, Some(RoleOf(name).roleKind), RoleOf(name).agentRole, name, "")
  }

  /** The main route and one per role name, in the given order. */
  function CodexPlan(p: Profile, names: seq<string>): seq<Input> {
    [MainInput("codex", p)] +
    seq(|names|, i requires 0 <= i < |names| => CodexRoleInput(EndpointOf(p, names[i]), SessionId(p), names[i]))
  }

  function ClaudeSub(p: Profile): Option<string> {
    if p.subagent.Some? then p.subagent else if "default" in p.roles then Some(p.roles["default"]) else None
  }

  function ClaudePlan(p: Profile): seq<Input> {
    [MainInput("claude", p)] +
    if ClaudeSub(p).Some? then [Input("claude", ClaudeSub(p).value, SessionId(p), Some("sub"), "default", "default", "")] else []
  }

  /** None where normalizing throws on some route. */
  function MapAll(inputs: seq<Input>, normalize: Input -> Option<Route>): Option<seq<Route>> {
    if inputs == [] then Some([])
    else
      var first, rest := normalize(inputs[0]), MapAll(inputs[1..], normalize);
      if first.None? || rest.None? then None else Some([first.value] + rest.value)
  }

  function NormalizeAll(inputs: seq<Input>): Option<seq<Route>> {
    MapAll(inputs, NormalizeRoute)
  }

  // ---------------------------------------------------------------- what the proxies authorize

  /** The route the Codex proxy verifies for a URL's provider, session and role; None when it refuses
      the role. */
  function CodexProxyRoute(provider: string, session: string, role: string): Option<Route> {
    var named := RoleNamed(Lower(Trim(role)));
    if named.None? || named.value.roleKind == "aux" then None
    else NormalizeRoute(Input("codex", provider, session, Some(named.value.roleKind), named.value.agentRole, named.value.routeName, ""))
  }

  /** The Claude proxy's route, for a main request or one whose model names a sub provider. */
  function ClaudeProxyRoute(provider: string, session: string, sub: Option<string>): Option<Route> {
    var role := if sub.Some? then Role("sub", "default", "default") else if session == "aux" then Role("aux", "", "aux") else Role("main", "", "main");
    NormalizeRoute(Input("claude", if sub.Some? then sub.value else provider, session, Some(role.roleKind), role.agentRole, role.routeName, ""))
  }

  /** The route under which a Codex provider entry looks its token up. */
  function LookupRoute(provider: string, session: string, role: string): Route {
    Route("codex", provider, session, RoleOf(role).roleKind, RoleOf(role).agentRole, RoleOf(role).routeName)
  }

  // ---------------------------------------------------------------- agreement

  lemma LowerNames()
    ensures CleanLower("codex") == Some("codex") && CleanLower("claude") == Some("claude")
    ensures CleanLower("main") == Some("main") && CleanLower("sub") == Some("sub") && CleanLower("aux") == Some("aux")
    ensures CleanLower("default") == Some("default")
  {
    CliNames();
    KindNames();
    NameCleans("default");
  }

  lemma CliNames()
    ensures CleanLower("codex") == Some("codex") && CleanLower("claude") == Some("claude")
  {
    NameCleans("codex");
    NameCleans("claude");
  }

  lemma KindNames()
    ensures CleanLower("main") == Some("main") && CleanLower("sub") == Some("sub") && CleanLower("aux") == Some("aux")
  {
    NameCleans("main");
    NameCleans("sub");
    NameCleans("aux");
  }

  lemma NameCleans(s: string)
    requires IsRoleName(s)
    ensures CleanLower(s) == Some(s) && Lower(Trim(s)) == s
  {
    RoleNameFacts(s);
    PartTight(s);
    LowerIsLower(s);
  }

  lemma PartCleans(s: string)
    requires IsPart(s)
    ensures CleanPart(s) == Some(s) && CleanLower(s) == Some(Lower(s)) && Lower(Trim(s)) == Lower(s)
  {
    PartTight(s);
  }

  /** Normalizing an input whose parts are clean. */
  lemma NormalizeClean(cli: string, provider: string, session: string, kind: string, agent: string, name: string)
    requires CleanLower(cli) == Some(cli) && IsPart(provider) && IsPart(session) && IsRoleKind(kind) && CleanLower(kind) == Some(kind)
    requires name != "" && IsPart(name) && RoleNamed(Lower(name)).Some?
    requires kind == "sub" ==> agent != "" && CleanLower(agent) == Some(agent)
    ensures NormalizeRoute(Input(cli, provider, session, Some(kind), agent, name, "")) ==
            Some(Route(cli, provider, session, kind, if kind == "sub" then agent else "", if kind == "sub" then Lower(name) else kind))
  {
    PartCleans(provider);
    PartCleans(session);
    PartCleans(name);
  }

  lemma RoleFacts(raw: string)
    requires RoleNamed(raw).Some?
    ensures var role := RoleNamed(raw).value;
            && IsRoleKind(role.roleKind) && CleanLower(role.roleKind) == Some(role.roleKind)
            && (role.roleKind == "sub" ==> role.agentRole != "" && CleanLower(role.agentRole) == Some(role.agentRole))
            && IsPart(role.routeName) && Lower(role.routeName) == role.routeName && RoleNamed(role.routeName).Some?
            && (raw == role.routeName <==> raw != "sub")
            && (role.roleKind == "aux" <==> raw == "aux") && (role.roleKind != "sub" ==> raw == role.roleKind)
  {
    LowerNames();
    NameAgain(raw);
    RoleNameFacts(RoleNamed(raw).value.routeName);
    LowerIsLower(RoleNamed(raw).value.routeName);
    if RoleNamed(raw).value.roleKind == "sub" {
      AgentAgain(raw);
    }
  }

  /** The role names a profile can hold: a letter, then letters, digits, `_` and `-`, in any case. */
  predicate AdmittedName(name: string) {
    IsPart(name) && RoleNamed(Lower(name)).Some?
  }

  /** They are the names the profile store admits (lib/route-profile-store.js 31). */
  lemma AdmittedNameIff(name: string)
    ensures AdmittedName(name) <==>
            && 1 <= |name| <= 64 && ('a' <= name[0] <= 'z' || 'A' <= name[0] <= 'Z')
            && forall i | 0 <= i < |name| ::
                 'a' <= name[i] <= 'z' || 'A' <= name[i] <= 'Z' || '0' <= name[i] <= '9' || name[i] == '_' || name[i] == '-'
  {
    if AdmittedName(name) {
      RoleNameChars(Lower(name));
      forall i | 0 <= i < |name|
        ensures 'a' <= name[i] <= 'z' || 'A' <= name[i] <= 'Z' || '0' <= name[i] <= '9' || name[i] == '_' || name[i] == '-'
      {
        assert IsRoleChar(Lower(name)[i]);
      }
    } else if 1 <= |name| <= 64 && ('a' <= name[0] <= 'z' || 'A' <= name[0] <= 'Z') {
      assert IsRoleChar(Lower(name)[0]);
      if forall i | 0 <= i < |name| ::
           'a' <= name[i] <= 'z' || 'A' <= name[i] <= 'Z' || '0' <= name[i] <= '9' || name[i] == '_' || name[i] == '-' {
        assert IsRoleName(Lower(name)) && IsPart(name);
        assert false;
      }
    }
  }

  lemma RoleNameChars(raw: string)
    requires RoleNamed(raw).Some?
    ensures IsRoleName(raw)
  {
  }

  /** A role has its own provider, or the subagent's, or the main loop's; and Claude's subagent the
      profile's, or the default role's, or no route at all. */
  lemma ProvidersFallBack(p: Profile, role: string)
    ensures role in p.roles ==> EndpointOf(p, role) == p.roles[role]
    ensures role !in p.roles && p.subagent.Some? ==> EndpointOf(p, role) == p.subagent.value
    ensures role !in p.roles && p.subagent.None? ==> EndpointOf(p, role) == p.main
    ensures p.subagent.Some? ==> ClaudeSub(p) == p.subagent
    ensures p.subagent.None? && "default" in p.roles ==> ClaudeSub(p) == Some(p.roles["default"])
    ensures p.subagent.None? && "default" !in p.roles ==> ClaudeSub(p).None? && ClaudePlan(p) == [MainInput("claude", p)]
  {
  }

  /** The route a role's credential is issued for. */
  function PlannedRoute(provider: string, session: string, name: string): Route {
    Route("codex", provider, session, RoleOf(name).roleKind, RoleOf(name).agentRole, Lower(name))
  }

  lemma AdmittedFacts(provider: string, session: string, name: string)
    requires IsPart(provider) && IsPart(session) && AdmittedName(name)
    ensures Lower(Trim(name)) == Lower(name) && RoleNamed(Lower(name)) == Some(RoleOf(name))
    ensures RoleOf(name).routeName == if Lower(name) == "sub" then "default" else Lower(name)
    ensures AdmittedName(RoleOf(name).routeName) && Lower(RoleOf(name).routeName) == RoleOf(name).routeName
  {
    PartCleans(name);
    RoleFacts(Lower(name));
  }

  /** The takeover plans a route for the name as it stands; the token is looked up under the route of
      the role the name stands for, and that is also the route the proxy verifies for the URL, except
      that it refuses `aux`. */
  lemma CodexRoutes(provider: string, session: string, name: string)
    requires IsPart(provider) && IsPart(session) && AdmittedName(name)
    ensures NormalizeRoute(CodexRoleInput(provider, session, name)) == Some(PlannedRoute(provider, session, name))
    ensures CodexProxyRoute(provider, session, name) == if Lower(name) == "aux" then None else Some(LookupRoute(provider, session, name))
    ensures LookupRoute(provider, session, name) == PlannedRoute(provider, session, if Lower(name) == "sub" then "default" else name)
  {
    AdmittedFacts(provider, session, name);
    RoleFacts(Lower(name));
    LowerNames();
    var role := RoleOf(name);
    NormalizeClean("codex", provider, session, role.roleKind, role.agentRole, name);
    NormalizeClean("codex", provider, session, role.roleKind, role.agentRole, role.routeName);
    assert role.roleKind != "sub" ==> role.agentRole == "";
    DefaultRole();
  }

  lemma DefaultRole()
    ensures RoleOf("default") == Role("sub", "default", "default") && Lower("default") == "default"
  {
    NameCleans("default");
    RoleNameFacts("default");
    LowerIsLower("default");
  }

  /** For every role name a profile can hold: the route planned for it is the route the proxy verifies
      for its URL, and the one its token is looked up under, exactly when the name is not, in any
      case, `sub` or `aux`. */
  lemma CodexRoutesAgreeIff(provider: string, session: string, name: string)
    requires IsPart(provider) && IsPart(session) && AdmittedName(name)
    ensures var planned := NormalizeRoute(CodexRoleInput(provider, session, name));
            && planned.Some?
            && (CodexProxyRoute(provider, session, name) == planned <==> Lower(name) != "sub" && Lower(name) != "aux")
            && (LookupRoute(provider, session, name) == planned.value <==> Lower(name) != "sub")
  {
    CodexRoutes(provider, session, name);
    DefaultRole();
    if Lower(name) == "sub" {
      assert PlannedRoute(provider, session, "default").routeName != PlannedRoute(provider, session, name).routeName;
    }
  }

  lemma ClaudeRoutesAgree(p: Profile, sub: Option<string>)
    requires IsPart(p.main) && IsPart(SessionId(p)) && (sub.Some? ==> IsPart(sub.value))
    ensures NormalizeRoute(MainInput("claude", p)) == Some(Route("claude", p.main, SessionId(p), "main", "", "main"))
    ensures ClaudeProxyRoute(p.main, SessionId(p), None) == NormalizeRoute(MainInput("claude", p))
    ensures sub.Some? ==>
              ClaudeProxyRoute(p.main, SessionId(p), sub) ==
              NormalizeRoute(Input("claude", sub.value, SessionId(p), Some("sub"), "default", "default", "")) ==
              Some(Route("claude", sub.value, SessionId(p), "sub", "default", "default"))
  {
    LowerNames();
    RoleFacts("main");
    RoleFacts("sub");
    assert SessionId(p)[0] == 'd' && SessionId(p) != "aux";
    NormalizeClean("claude", p.main, SessionId(p), "main", "", "main");
    if sub.Some? {
      NormalizeClean("claude", sub.value, SessionId(p), "sub", "default", "default");
    }
  }

  // ---------------------------------------------------------------- the whole takeover

  /** A profile whose ids are clean, and its role names: the built-in ones and its own. */
  ghost predicate AdmittedProfile(p: Profile, names: seq<string>) {
    && IsPart(p.main) && IsPart(SessionId(p)) && |names| < 256
    && forall i | 0 <= i < |names| :: AdmittedName(names[i]) && IsPart(EndpointOf(p, names[i]))
  }

  /** The i-th entry of the plan: the main loop, then the roles. */
  function NameAt(names: seq<string>, i: nat): string
    requires i <= |names|
  {
    if i == 0 then "main" else names[i - 1]
  }

  function ProviderAt(p: Profile, names: seq<string>, i: nat): string
    requires i <= |names|
  {
    if i == 0 then p.main else EndpointOf(p, names[i - 1])
  }

  function PlannedRoutes(p: Profile, names: seq<string>): seq<Route> {
    seq(|names| + 1, i requires 0 <= i <= |names| => PlannedRoute(ProviderAt(p, names, i), SessionId(p), NameAt(names, i)))
  }

  lemma {:induction false} MapsTo(inputs: seq<Input>, routes: seq<Route>, normalize: Input -> Option<Route>)
    requires |inputs| == |routes| && forall i | 0 <= i < |inputs| :: normalize(inputs[i]) == Some(routes[i])
    ensures MapAll(inputs, normalize) == Some(routes)
    decreases |inputs|
  {
    if inputs != [] {
      assert forall i | 0 <= i < |inputs| - 1 :: inputs[1..][i] == inputs[i + 1] && routes[1..][i] == routes[i + 1];
      MapsTo(inputs[1..], routes[1..], normalize);
      assert [routes[0]] + routes[1..] == routes;
    }
  }

  lemma MainRole()
    ensures AdmittedName("main") && RoleOf("main") == Role("main", "", "main") && Lower("main") == "main"
  {
    NameCleans("main");
    RoleNameFacts("main");
    LowerIsLower("main");
  }

  lemma EntryAt(p: Profile, names: seq<string>, i: nat)
    requires AdmittedProfile(p, names) && i <= |names|
    ensures IsPart(ProviderAt(p, names, i)) && AdmittedName(NameAt(names, i))
    ensures NormalizeRoute(CodexPlan(p, names)[i]) == Some(PlannedRoutes(p, names)[i])
  {
    MainRole();
    if i == 0 {
      LowerNames();
      NormalizeClean("codex", p.main, SessionId(p), "main", "", "main");
    } else {
      CodexRoutes(EndpointOf(p, names[i - 1]), SessionId(p), names[i - 1]);
    }
  }

  lemma PlanNormalizes(p: Profile, names: seq<string>)
    requires AdmittedProfile(p, names)
    ensures NormalizeAll(CodexPlan(p, names)) == Some(PlannedRoutes(p, names))
  {
    var inputs, routes := CodexPlan(p, names), PlannedRoutes(p, names);
    forall i | 0 <= i < |inputs| ensures NormalizeRoute(inputs[i]) == Some(routes[i]) {
      EntryAt(p, names, i);
    }
    MapsTo(inputs, routes, NormalizeRoute);
  }

  /** The bundle is issued unless two entries have the same provider and, but for case, the same name. */
  lemma BundleAdmittedIff(p: Profile, names: seq<string>, expiresAt: int, now: int)
    requires AdmittedProfile(p, names) && expiresAt > now
    ensures IssueAdmitted(PlannedRoutes(p, names), expiresAt, now) <==>
            forall i, j | 0 <= i < j <= |names| ::
              ProviderAt(p, names, i) != ProviderAt(p, names, j) || Lower(NameAt(names, i)) != Lower(NameAt(names, j))
  {
    var routes := PlannedRoutes(p, names);
    NoRepeatIff(routes);
    forall i, j | 0 <= i < j <= |names|
      ensures routes[i] == routes[j] <==>
              ProviderAt(p, names, i) == ProviderAt(p, names, j) && Lower(NameAt(names, i)) == Lower(NameAt(names, j))
    {
      EntryAt(p, names, i);
      EntryAt(p, names, j);
      PartCleans(NameAt(names, i));
      PartCleans(NameAt(names, j));
    }
  }

  /** Every provider entry finds its token, so the files can be written. */
  ghost predicate Writable(p: Profile, names: seq<string>) {
    forall i | 0 <= i <= |names| :: LookupRoute(ProviderAt(p, names, i), SessionId(p), NameAt(names, i)) in PlannedRoutes(p, names)
  }

  /** A role has `default`'s route: another entry is named `default` and has the same provider. */
  ghost predicate HasDefault(p: Profile, names: seq<string>, i: nat)
    requires i <= |names|
  {
    exists j | 0 <= j <= |names| :: Lower(NameAt(names, j)) == "default" && ProviderAt(p, names, j) == ProviderAt(p, names, i)
  }

  lemma DefaultIsPlanned(p: Profile, names: seq<string>, i: nat)
    requires AdmittedProfile(p, names) && i <= |names|
    ensures PlannedRoute(ProviderAt(p, names, i), SessionId(p), "default") in PlannedRoutes(p, names) <==> HasDefault(p, names, i)
  {
    var routes, wanted := PlannedRoutes(p, names), PlannedRoute(ProviderAt(p, names, i), SessionId(p), "default");
    DefaultRole();
    forall j | 0 <= j <= |names|
      ensures routes[j] == wanted <==> Lower(NameAt(names, j)) == "default" && ProviderAt(p, names, j) == ProviderAt(p, names, i)
    {
      EntryAt(p, names, j);
      PartCleans(NameAt(names, j));
    }
  }

  lemma LookupFindsIff(p: Profile, names: seq<string>, i: nat)
    requires AdmittedProfile(p, names) && i <= |names|
    ensures LookupRoute(ProviderAt(p, names, i), SessionId(p), NameAt(names, i)) in PlannedRoutes(p, names) <==>
            (Lower(NameAt(names, i)) == "sub" ==> HasDefault(p, names, i))
  {
    EntryAt(p, names, i);
    CodexRoutes(ProviderAt(p, names, i), SessionId(p), NameAt(names, i));
    DefaultIsPlanned(p, names, i);
    assert PlannedRoutes(p, names)[i] == PlannedRoute(ProviderAt(p, names, i), SessionId(p), NameAt(names, i));
  }

  /** The files can be written exactly when every role named `sub` has the provider of one named
      `default`. */
  lemma WritableIff(p: Profile, names: seq<string>)
    requires AdmittedProfile(p, names)
    ensures Writable(p, names) <==> forall i | 0 <= i <= |names| :: Lower(NameAt(names, i)) == "sub" ==> HasDefault(p, names, i)
  {
    forall i | 0 <= i <= |names|
      ensures LookupRoute(ProviderAt(p, names, i), SessionId(p), NameAt(names, i)) in PlannedRoutes(p, names) <==>
              (Lower(NameAt(names, i)) == "sub" ==> HasDefault(p, names, i))
    {
      LookupFindsIff(p, names, i);
    }
  }

  /** The proxy lets a request under the written URL of a provider, session and role through. */
  predicate Accepts(s: Store, provider: string, session: string, role: string, token: nat, now: int) {
    var route := CodexProxyRoute(provider, session, role);
    route.Some? && Verify(s, route.value, Some(token), now).Valid?
  }

  /** Every takeover that is issued and written, whatever its role names: the URL written for an entry
      is accepted with the token written for it, until that expires, exactly when the entry is not named
      `aux`; and the token opens no route outside the plan. */
  lemma CodexAcceptedIff(ops: seq<Op>, p: Profile, names: seq<string>, expiresAt: int, now: int, later: int)
    requires AdmittedProfile(p, names) && expiresAt > now > 0 && forall i | 0 <= i < |ops| :: Timely(ops[i])
    requires IssueAdmitted(PlannedRoutes(p, names), expiresAt, now) && Writable(p, names)
    ensures var routes := PlannedRoutes(p, names); var after := Run(ops + [Issue(routes, expiresAt, now)]); var token := IssuedBundles(ops);
            && NormalizeAll(CodexPlan(p, names)) == Some(routes)
            && (forall i | 0 <= i <= |names| ::
                  Accepts(after, ProviderAt(p, names, i), SessionId(p), NameAt(names, i), token, later) <==>
                  Lower(NameAt(names, i)) != "aux" && later < expiresAt)
            && (forall route :: Verify(after, route, Some(token), later).Valid? <==> route in routes && later < expiresAt)
  {
    var routes := PlannedRoutes(p, names);
    var after, token := Run(ops + [Issue(routes, expiresAt, now)]), IssuedBundles(ops);
    PlanNormalizes(p, names);
    FreshBundle(ops, routes, expiresAt, now, later);
    forall i | 0 <= i <= |names|
      ensures Accepts(after, ProviderAt(p, names, i), SessionId(p), NameAt(names, i), token, later) <==>
              Lower(NameAt(names, i)) != "aux" && later < expiresAt
    {
      EntryAt(p, names, i);
      CodexRoutes(ProviderAt(p, names, i), SessionId(p), NameAt(names, i));
    }
  }

  // The built-in roles and one more, with main provider "m".

  function WithRole(name: string, provider: string): Profile {
    Profile("p", "m", None, map[name := provider])
  }

  function WithBuiltins(name: string): seq<string> {
    [name, "default", "explorer", "worker"]
  }

  lemma LowerCase(name: string)
    requires IsRoleName(name)
    ensures AdmittedName(name) && Lower(name) == name
  {
    NameCleans(name);
    RoleNameFacts(name);
    LowerIsLower(name);
  }

  lemma ExampleIds(id: string)
    requires id == "m" || id == "n" || id == "direct-p"
    ensures IsPart(id)
  {
  }

  lemma ExampleNames(name: string)
    requires name == "aux" || name == "sub" || name == "default" || name == "explorer" || name == "worker"
    ensures AdmittedName(name) && Lower(name) == name
  {
    LowerCase(name);
  }

  predicate IsExample(p: Profile, names: seq<string>, name: string, provider: string) {
    && p == WithRole(name, provider) && names == WithBuiltins(name)
    && (name == "aux" || name == "sub") && (provider == "m" || provider == "n")
  }

  lemma ExampleEntries(p: Profile, names: seq<string>, name: string, provider: string)
    requires IsExample(p, names, name, provider)
    ensures ProviderAt(p, names, 1) == provider && forall i | 0 <= i <= 4 && i != 1 :: ProviderAt(p, names, i) == "m"
    ensures NameAt(names, 0) == "main" && NameAt(names, 1) == name && NameAt(names, 2) == "default"
            && NameAt(names, 3) == "explorer" && NameAt(names, 4) == "worker"
  {
  }

  lemma ExampleProfile(p: Profile, names: seq<string>, name: string, provider: string)
    requires IsExample(p, names, name, provider)
    ensures AdmittedProfile(p, names) && forall i | 0 <= i <= |names| :: Lower(NameAt(names, i)) == NameAt(names, i)
  {
    ExampleEntries(p, names, name, provider);
    ExampleIds(provider);
    ExampleIds("m");
    ExampleIds(SessionId(p));
    MainRole();
    forall i | 0 <= i < |names| ensures AdmittedName(names[i]) && Lower(names[i]) == names[i] && IsPart(EndpointOf(p, names[i])) {
      ExampleNames(names[i]);
      assert EndpointOf(p, names[i]) == ProviderAt(p, names, i + 1);
    }
  }

  lemma ExampleDistinct(p: Profile, names: seq<string>, name: string, provider: string)
    requires IsExample(p, names, name, provider)
    ensures forall i, j | 0 <= i < j <= 4 :: NameAt(names, i) != NameAt(names, j)
  {
    ExampleEntries(p, names, name, provider);
    var initials := [NameAt(names, 0)[0], NameAt(names, 1)[0], NameAt(names, 2)[0], NameAt(names, 3)[0], NameAt(names, 4)[0]];
    assert forall i, j | 0 <= i < j <= 4 :: initials[i] != initials[j];
  }

  lemma ExampleWritable(p: Profile, names: seq<string>, name: string, provider: string)
    requires IsExample(p, names, name, provider)
    ensures Writable(p, names) <==> (name == "sub" ==> provider == "m")
  {
    ExampleProfile(p, names, name, provider);
    ExampleEntries(p, names, name, provider);
    ExampleDistinct(p, names, name, provider);
    WritableIff(p, names);
    forall j | 0 <= j <= 4 ensures Lower(NameAt(names, j)) == "default" <==> j == 2 {
      assert NameAt(names, 2) == "default";
    }
    assert HasDefault(p, names, 1) <==> provider == "m";
  }

  lemma ExampleIsIssued(p: Profile, names: seq<string>, name: string, provider: string, expiresAt: int, now: int)
    requires IsExample(p, names, name, provider) && expiresAt > now
    ensures AdmittedProfile(p, names) && IssueAdmitted(PlannedRoutes(p, names), expiresAt, now)
    ensures Writable(p, names) <==> (name == "sub" ==> provider == "m")
  {
    ExampleProfile(p, names, name, provider);
    ExampleDistinct(p, names, name, provider);
    BundleAdmittedIff(p, names, expiresAt, now);
    ExampleWritable(p, names, name, provider);
  }

  /** A role named `aux`: the takeover is issued and written, and its URL refused. */
  lemma AuxIsRefused(p: Profile, names: seq<string>, name: string, provider: string, expiresAt: int, now: int)
    requires IsExample(p, names, name, provider) && name == "aux" && expiresAt > now
    ensures IssueAdmitted(PlannedRoutes(p, names), expiresAt, now) && Writable(p, names)
    ensures NameAt(names, 1) == name && CodexProxyRoute(ProviderAt(p, names, 1), SessionId(p), name).None?
  {
    ExampleIsIssued(p, names, name, provider, expiresAt, now);
    ExampleProfile(p, names, name, provider);
    ExampleEntries(p, names, name, provider);
    EntryAt(p, names, 1);
    CodexRoutes(provider, SessionId(p), name);
  }

  /** A role named `sub` with the provider of `default`: its URL is accepted, as `default`'s. */
  lemma SubLikeDefaultIsAccepted(ops: seq<Op>, p: Profile, names: seq<string>, name: string, provider: string,
                                 expiresAt: int, now: int, later: int)
    requires IsExample(p, names, name, provider) && name == "sub" && provider == "m"
    requires expiresAt > later && expiresAt > now > 0 && forall i | 0 <= i < |ops| :: Timely(ops[i])
    ensures var routes := PlannedRoutes(p, names);
            && IssueAdmitted(routes, expiresAt, now) && Writable(p, names)
            && NameAt(names, 1) == name && NameAt(names, 2) == "default"
            && Accepts(Run(ops + [Issue(routes, expiresAt, now)]), ProviderAt(p, names, 1), SessionId(p), name, IssuedBundles(ops), later)
            && CodexProxyRoute(ProviderAt(p, names, 1), SessionId(p), name) == Some(routes[2])
  {
    ExampleIsIssued(p, names, name, provider, expiresAt, now);
    ExampleProfile(p, names, name, provider);
    ExampleEntries(p, names, name, provider);
    CodexAcceptedIff(ops, p, names, expiresAt, now, later);
    EntryAt(p, names, 1);
    CodexRoutes(provider, SessionId(p), name);
  }

  /** A role named `sub` with another provider: no token is found for it, and nothing is written. */
  lemma SubUnlikeDefaultIsNotWritten(p: Profile, names: seq<string>, name: string, provider: string, expiresAt: int, now: int)
    requires IsExample(p, names, name, provider) && name == "sub" && provider == "n" && expiresAt > now
    ensures IssueAdmitted(PlannedRoutes(p, names), expiresAt, now) && !Writable(p, names)
  {
    ExampleIsIssued(p, names, name, provider, expiresAt, now);
  }

  /** A role name written in lower case that is not one of the reserved ones. */
  predicate PlainName(name: string) {
    IsRoleName(name) && name != "main" && name != "sub" && name != "aux"
  }

  ghost predicate PlainProfile(p: Profile, names: seq<string>) {
    && IsPart(p.main) && IsPart(SessionId(p)) && |names| < 256
    && (forall i | 0 <= i < |names| :: PlainName(names[i]) && IsPart(EndpointOf(p, names[i])))
    && (forall i, j | 0 <= i < j < |names| :: names[i] != names[j])
  }

  lemma PlainProfileFits(p: Profile, names: seq<string>, expiresAt: int, now: int)
    requires PlainProfile(p, names) && expiresAt > now
    ensures AdmittedProfile(p, names) && IssueAdmitted(PlannedRoutes(p, names), expiresAt, now) && Writable(p, names)
    ensures forall i | 0 <= i <= |names| :: Lower(NameAt(names, i)) == NameAt(names, i)
  {
    MainRole();
    forall i | 0 <= i < |names| ensures AdmittedName(names[i]) && Lower(names[i]) == names[i] {
      LowerCase(names[i]);
    }
    BundleAdmittedIff(p, names, expiresAt, now);
    WritableIff(p, names);
  }

  /** A profile of plain role names: its bundle is issued, every written URL is accepted with the token
      written for it until it expires, and the token opens no route outside the plan. */
  lemma CodexTakeoverIsAccepted(ops: seq<Op>, p: Profile, names: seq<string>, expiresAt: int, now: int, later: int)
    requires PlainProfile(p, names) && expiresAt > now > 0 && forall i | 0 <= i < |ops| :: Timely(ops[i])
    ensures var routes := PlannedRoutes(p, names); var after := Run(ops + [Issue(routes, expiresAt, now)]); var token := IssuedBundles(ops);
            && NormalizeAll(CodexPlan(p, names)) == Some(routes) && IssueAdmitted(routes, expiresAt, now)
            && (forall i | 0 <= i <= |names| ::
                  && CodexProxyRoute(ProviderAt(p, names, i), SessionId(p), NameAt(names, i)) == Some(routes[i])
                  && LookupRoute(ProviderAt(p, names, i), SessionId(p), NameAt(names, i)) == routes[i]
                  && (Accepts(after, ProviderAt(p, names, i), SessionId(p), NameAt(names, i), token, later) <==> later < expiresAt))
            && (forall route :: Verify(after, route, Some(token), later).Valid? <==> route in routes && later < expiresAt)
  {
    PlainProfileFits(p, names, expiresAt, now);
    CodexAcceptedIff(ops, p, names, expiresAt, now, later);
    var routes := PlannedRoutes(p, names);
    forall i | 0 <= i <= |names|
      ensures CodexProxyRoute(ProviderAt(p, names, i), SessionId(p), NameAt(names, i)) == Some(routes[i])
      ensures LookupRoute(ProviderAt(p, names, i), SessionId(p), NameAt(names, i)) == routes[i]
    {
      EntryAt(p, names, i);
      CodexRoutes(ProviderAt(p, names, i), SessionId(p), NameAt(names, i));
      assert Lower(NameAt(names, i)) == NameAt(names, i);
    }
  }

  /** Right after it is issued, a bundle's token opens exactly its routes. */
  lemma {:induction false} FreshBundle(ops: seq<Op>, routes: seq<Route>, expiresAt: int, now: int, later: int)
    requires IssueAdmitted(routes, expiresAt, now) && now > 0 && forall i | 0 <= i < |ops| :: Timely(ops[i])
    ensures forall route :: Verify(Run(ops + [Issue(routes, expiresAt, now)]), route, Some(IssuedBundles(ops)), later).Valid? <==>
              route in routes && later < expiresAt
  {
    forall route ensures Verify(Run(ops + [Issue(routes, expiresAt, now)]), route, Some(IssuedBundles(ops)), later).Valid? <==>
                         route in routes && later < expiresAt
    {
      FreshTokenOpens(ops, routes, expiresAt, now, later, route);
    }
  }

  function ClaudeRoutes(p: Profile): seq<Route> {
    [Route("claude", p.main, SessionId(p), "main", "", "main")] +
    if ClaudeSub(p).Some? then [Route("claude", ClaudeSub(p).value, SessionId(p), "sub", "default", "default")] else []
  }

  lemma ClaudePlanNormalizes(p: Profile)
    requires IsPart(p.main) && IsPart(SessionId(p)) && (ClaudeSub(p).Some? ==> IsPart(ClaudeSub(p).value))
    ensures NormalizeAll(ClaudePlan(p)) == Some(ClaudeRoutes(p)) && NoRepeat(ClaudeRoutes(p)) && 1 <= |ClaudeRoutes(p)| <= 2
  {
    ClaudeRoutesAgree(p, ClaudeSub(p));
    var inputs, routes := ClaudePlan(p), ClaudeRoutes(p);
    MapsTo(inputs, routes, NormalizeRoute);
    NoRepeatIff(routes);
    assert |routes| == 2 ==> routes[0].roleKind != routes[1].roleKind;
  }

  /** The same for Claude: the one token opens the main route and the subagent's, and nothing else. */
  lemma ClaudeTakeoverIsAccepted(ops: seq<Op>, p: Profile, expiresAt: int, now: int, later: int)
    requires IsPart(p.main) && IsPart(SessionId(p)) && (ClaudeSub(p).Some? ==> IsPart(ClaudeSub(p).value))
    requires expiresAt > now > 0 && forall i | 0 <= i < |ops| :: Timely(ops[i])
    ensures var routes := ClaudeRoutes(p); var after := Run(ops + [Issue(routes, expiresAt, now)]);
            && NormalizeAll(ClaudePlan(p)) == Some(routes) && IssueAdmitted(routes, expiresAt, now)
            && ClaudeProxyRoute(p.main, SessionId(p), None) == Some(routes[0])
            && (ClaudeSub(p).Some? ==> ClaudeProxyRoute(p.main, SessionId(p), ClaudeSub(p)) == Some(routes[1]))
            && (forall route :: Verify(after, route, Some(IssuedBundles(ops)), later).Valid? <==> route in routes && later < expiresAt)
  {
    ClaudePlanNormalizes(p);
    ClaudeRoutesAgree(p, ClaudeSub(p));
    FreshBundle(ops, ClaudeRoutes(p), expiresAt, now, later);
  }

  // ---------------------------------------------------------------- what a URL carries

  lemma {:induction false} EncodePlain(s: string)
    requires forall i | 0 <= i < |s| :: IsPartChar(s[i])
    ensures Percent.Encode(s) == s
  {
    if s != "" {
      assert IsPartChar(s[0]) && forall i | 0 <= i < |s| - 1 :: s[1..][i] == s[i + 1];
      EncodePlain(s[1..]);
      assert [s[0]] + s[1..] == s;
    }
  }

  /** The Claude proxy reads provider and session off the path without decoding them; for clean ids it
      reads what was written. */
  lemma ClaudeUrlCarries(provider: string, session: string, api: string)
    requires IsPart(provider) && IsPart(session) && (api == "" || api[0] == '/')
    ensures Gateway.Segments(Gateway.PathOf([Percent.Encode(provider), Percent.Encode(session)]) + api)
            == [provider, session] + Gateway.Segments(api)
  {
    EncodePlain(provider);
    EncodePlain(session);
    assert forall i | 0 <= i < |provider| :: IsPartChar(provider[i]);
    assert forall i | 0 <= i < |session| :: IsPartChar(session[i]);
    Gateway.SegmentsTakeFirst();
    Gateway.SplitUndoesJoin(Gateway.Segments, [provider, session], api);
  }

  const PREFIX := "cpr:"

  /** Provider and model around the first colon. */
  function SplitModel(body: string): Option<(string, string)> {
    var i := ColonAt(body);
    if i == |body| then None
    else
      var provider, name := Trim(body[..i]), Trim(body[i + 1..]);
      if provider == "" || name == "" then None else Some((provider, name))
  }

  function ColonAt(s: string): (n: nat)
    ensures n <= |s| && (n < |s| ==> s[n] == ':') && forall i | 0 <= i < n :: s[i] != ':'
  {
    if s == "" || s[0] == ':' then 0 else 1 + ColonAt(s[1..])
  }

  /** The subagent's provider and model from a model name that carries them. */
  function DecodeModel(model: string): Option<(string, string)> {
    if PREFIX <= model then SplitModel(model[|PREFIX|..]) else None
  }

  lemma ColonAfter(provider: string, rest: string)
    requires ':' !in provider
    ensures ColonAt(provider + ":" + rest) == |provider|
  {
    var s := provider + ":" + rest;
    assert forall i | 0 <= i < |provider| :: s[i] == provider[i];
    assert s[|provider|] == ':';
  }

  lemma SplitUndoesJoin(provider: string, model: string)
    requires ':' !in provider && Tight(provider) && Trim(model) != ""
    ensures SplitModel(provider + ":" + model) == Some((provider, Trim(model)))
  {
    var body := provider + ":" + model;
    ColonAfter(provider, model);
    assert body[..|provider|] == provider && body[|provider| + 1..] == model;
    TrimTight(provider);
  }

  /** The model written for Claude's subagents decodes to the provider the plan names. */
  lemma SubModelRoundTrip(provider: string, model: string)
    requires IsPart(provider) && Trim(model) != ""
    ensures DecodeModel(PREFIX + (provider + ":" + model)) == Some((provider, Trim(model)))
  {
    forall i | 0 <= i < |provider| ensures provider[i] != ':' {
      assert IsPartChar(provider[i]);
    }
    PartTight(provider);
    SplitUndoesJoin(provider, model);
    assert (PREFIX + (provider + ":" + model))[|PREFIX|..] == provider + ":" + model;
  }
}
