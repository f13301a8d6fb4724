/** The provider entries a direct takeover writes for the Codex agents
    (lib/direct-cli-config/index.js 275-303).

    Each role gets an agent file, and that file names a provider entry of the main configuration. The
    entry's name is made from the role's, and a later role of the same entry name overwrites the entry. */
module DirectEntries {
  import opened JsonString
  import opened Text
  import opened HopRoutes
  import opened HopCredentials
  import opened DirectRoutes

  const LENGTH := 48

  /** Lower case, other characters replaced, cut to 48. */
  function SafeRoleName(role: string): (r: string) {
    var safe := seq(|role|, i requires 0 <= i < |role| => if IsRoleChar(Lower(role)[i]) then Lower(role)[i] else '_');
    if |safe| <= LENGTH then safe else safe[..LENGTH]
  }

  function EntryName(role: string): string {
    if role == "default" then "cpr_direct_sub" else "cpr_direct_role_" + SafeRoleName(role)
  }

  /** The entries by name, each with the role whose URL and token it holds. */
  function Entries(roles: seq<string>, entryName: string -> string): map<string, string> {
    if roles == [] then map[]
    else Entries(roles[..|roles| - 1], entryName)[entryName(roles[|roles| - 1]) := roles[|roles| - 1]]
  }

  /** The loop over the roles, in the order of the profile. */
  method WriteEntries(roles: seq<string>) returns (entries: map<string, string>)
    ensures entries == Entries(roles, EntryName)
  {
    entries := map[];
    for n := 0 to |roles|
      invariant entries == Entries(roles[..n], EntryName)
    {
      assert roles[..n + 1][..n] == roles[..n];
      entries := entries[EntryName(roles[n]) := roles[n]];
    }
    assert roles[..|roles|] == roles;
  }

  /** An agent's entry is that of the last role with the same entry name. */
  lemma {:induction false} LastRoleWins(roles: seq<string>, entryName: string -> string, i: nat) returns (last: nat)
    requires i < |roles|
    ensures i <= last < |roles| && entryName(roles[last]) == entryName(roles[i])
    ensures forall j | last < j < |roles| :: entryName(roles[j]) != entryName(roles[i])
    ensures entryName(roles[i]) in Entries(roles, entryName) && Entries(roles, entryName)[entryName(roles[i])] == roles[last]
    decreases |roles|
  {
    last := |roles| - 1;
    if entryName(roles[last]) != entryName(roles[i]) {
      last := LastRoleWins(roles[..last], entryName, i);
    }
  }

  /** The i-th role's agent uses the URL and the token of that role. */
  predicate Own(roles: seq<string>, entryName: string -> string, i: nat)
    requires i < |roles|
  {
    entryName(roles[i]) in Entries(roles, entryName) && Entries(roles, entryName)[entryName(roles[i])] == roles[i]
  }

  /** Every agent uses its own exactly when no two roles have the same entry name. */
  lemma {:induction false} EveryAgentHasItsOwnIff(roles: seq<string>, entryName: string -> string)
    requires forall i, j | 0 <= i < j < |roles| :: roles[i] != roles[j]
    ensures (forall i | 0 <= i < |roles| :: Own(roles, entryName, i)) <==>
            forall i, j | 0 <= i < j < |roles| :: entryName(roles[i]) != entryName(roles[j])
  {
    if forall i | 0 <= i < |roles| :: Own(roles, entryName, i) {
      forall i, j | 0 <= i < j < |roles| ensures entryName(roles[i]) != entryName(roles[j]) {
        assert Own(roles, entryName, i) && Own(roles, entryName, j);
      }
    } else {
      var i :| 0 <= i < |roles| && !Own(roles, entryName, i);
      var last := LastRoleWins(roles, entryName, i);
      assert i < last;
    }
  }

  /** Two names a profile can hold make the same entry name exactly when, but for case, their first 48
      characters agree and neither is `default`. */
  lemma SameEntryIff(a: string, b: string)
    requires AdmittedName(a) && AdmittedName(b) && a != b
    ensures EntryName(a) == EntryName(b) <==> a != "default" && b != "default" && Cut(Lower(a)) == Cut(Lower(b))
  {
    SafeIsCut(a);
    SafeIsCut(b);
    RoleEntry(a);
    RoleEntry(b);
  }

  function Cut(s: string): string {
    if |s| <= LENGTH then s else s[..LENGTH]
  }

  lemma SafeIsCut(role: string)
    requires AdmittedName(role)
    ensures SafeRoleName(role) == Cut(Lower(role))
  {
    NameIsRoleName(Lower(role));
  }

  lemma NameIsRoleName(raw: string)
    requires RoleNamed(raw).Some?
    ensures forall i | 0 <= i < |raw| :: IsRoleChar(raw[i])
  {
  }

  lemma RoleEntry(role: string)
    ensures role != "default" ==> EntryName(role)[11] == 'r' && EntryName(role)[16..] == SafeRoleName(role)
    ensures EntryName("default")[11] == 's'
  {
    assert ("cpr_direct_role_" + SafeRoleName(role))[16..] == SafeRoleName(role);
  }

  // Two roles that differ in case only, with providers "m" and "n".

  predicate IsExample(p: Profile, names: seq<string>, roles: seq<string>, a: string, b: string) {
    && a == "Foo" && b == "foo" && p == Profile("p", "m", None, map[a := "m", b := "n"])
    && names == [a, "default", "explorer", b, "worker"] && roles == ["default", "worker", "explorer", a, b]
  }

  lemma ExampleLower(a: string, b: string)
    requires a == "Foo" && b == "foo"
    ensures Lower(a) == b && AdmittedName(a) && AdmittedName(b) && Lower(b) == b && a != b
  {
    assert Lower(a)[0] == 'f' && Lower(a)[1] == 'o' && Lower(a)[2] == 'o';
    assert Lower(a) == b;
    LowerCase(b);
    forall i | 0 <= i < |a| ensures IsPartChar(a[i]) {
    }
  }

  lemma ExampleNamesOf(p: Profile, names: seq<string>, roles: seq<string>, a: string, b: string)
    requires IsExample(p, names, roles, a, b)
    ensures ProviderAt(p, names, 4) == "n" && forall i | 0 <= i <= 5 && i != 4 :: ProviderAt(p, names, i) == "m"
    ensures NameAt(names, 0) == "main" && NameAt(names, 1) == a && NameAt(names, 2) == "default"
            && NameAt(names, 3) == "explorer" && NameAt(names, 4) == b && NameAt(names, 5) == "worker"
  {
  }

  lemma ExampleAdmitted(p: Profile, names: seq<string>, roles: seq<string>, a: string, b: string)
    requires IsExample(p, names, roles, a, b)
    ensures AdmittedProfile(p, names)
    ensures forall i | 0 <= i <= 5 && i != 1 :: Lower(NameAt(names, i)) == NameAt(names, i)
    ensures Lower(NameAt(names, 1)) == b
  {
    ExampleNamesOf(p, names, roles, a, b);
    ExampleLower(a, b);
    MainRole();
    ExampleIds("m");
    ExampleIds("n");
    ExampleIds(SessionId(p));
    ExampleNames("default");
    ExampleNames("explorer");
    ExampleNames("worker");
    forall i | 0 <= i < |names| ensures AdmittedName(names[i]) && IsPart(EndpointOf(p, names[i])) {
      assert NameAt(names, i + 1) == names[i] && ProviderAt(p, names, i + 1) == EndpointOf(p, names[i]);
    }
  }

  /** The i-th name, in lower case. */
  function LowerAt(b: string, i: nat): string {
    if i == 0 then "main" else if i == 2 then "default" else if i == 3 then "explorer" else if i == 5 then "worker" else b
  }

  lemma ExampleLowerAt(p: Profile, names: seq<string>, roles: seq<string>, a: string, b: string)
    requires IsExample(p, names, roles, a, b)
    ensures forall i | 0 <= i <= 5 :: Lower(NameAt(names, i)) == LowerAt(b, i)
  {
    ExampleAdmitted(p, names, roles, a, b);
    ExampleNamesOf(p, names, roles, a, b);
  }

  lemma LowerAtDiffer(b: string, i: nat, j: nat)
    requires b == "foo" && i < j <= 5
    ensures LowerAt(b, i) != "sub" && LowerAt(b, j) != "sub"
    ensures LowerAt(b, i) == LowerAt(b, j) ==> i == 1 && j == 4
  {
    assert |LowerAt(b, i)| == |LowerAt(b, j)| ==> i == 1 && j == 4;
    assert "foo"[0] != "sub"[0];
  }

  lemma ExampleIssued(p: Profile, names: seq<string>, roles: seq<string>, a: string, b: string, expiresAt: int, now: int)
    requires IsExample(p, names, roles, a, b) && expiresAt > now
    ensures AdmittedProfile(p, names) && IssueAdmitted(PlannedRoutes(p, names), expiresAt, now) && Writable(p, names)
  {
    ExampleAdmitted(p, names, roles, a, b);
    ExampleNamesOf(p, names, roles, a, b);
    ExampleLowerAt(p, names, roles, a, b);
    forall i, j | 0 <= i < j <= 5
      ensures LowerAt(b, i) != "sub" && LowerAt(b, j) != "sub"
      ensures LowerAt(b, i) == LowerAt(b, j) ==> i == 1 && j == 4
    {
      LowerAtDiffer(b, i, j);
    }
    AdmittedUnderDistinctNames(p, names, b, expiresAt, now);
  }

  lemma AdmittedUnderDistinctNames(p: Profile, names: seq<string>, b: string, expiresAt: int, now: int)
    requires AdmittedProfile(p, names) && |names| == 5 && expiresAt > now
    requires forall i | 0 <= i <= 5 :: Lower(NameAt(names, i)) == LowerAt(b, i)
    requires forall i, j | 0 <= i < j <= 5 ::
               LowerAt(b, i) != "sub" && LowerAt(b, j) != "sub" && (LowerAt(b, i) == LowerAt(b, j) ==> i == 1 && j == 4)
    requires ProviderAt(p, names, 1) != ProviderAt(p, names, 4)
    ensures IssueAdmitted(PlannedRoutes(p, names), expiresAt, now) && Writable(p, names)
  {
    BundleAdmittedIff(p, names, expiresAt, now);
    WritableIff(p, names);
    forall i | 0 <= i <= 5 ensures Lower(NameAt(names, i)) != "sub" {
      assert i < 5 ==> LowerAt(b, i) != "sub";
      assert i == 5 ==> LowerAt(b, i) != "sub";
    }
  }

  /** Such a profile is admitted, its bundle issued and its files written; but the agent named in upper
      case uses the other role's provider, URL and token. */
  lemma MixedCaseSharesAnEntry(p: Profile, names: seq<string>, roles: seq<string>, a: string, b: string, expiresAt: int, now: int)
    requires IsExample(p, names, roles, a, b) && expiresAt > now
    ensures IssueAdmitted(PlannedRoutes(p, names), expiresAt, now) && Writable(p, names)
    ensures EntryName(a) in Entries(roles, EntryName) && Entries(roles, EntryName)[EntryName(a)] == b
    ensures EndpointOf(p, a) == "m" && EndpointOf(p, b) == "n"
  {
    ExampleIssued(p, names, roles, a, b, expiresAt, now);
    ExampleLower(a, b);
    SameEntryIff(a, b);
    var last := LastRoleWins(roles, EntryName, 3);
    assert roles[3] == a && roles[4] == b;
  }
}
