/** Reading and changing the managed endpoint fields of the CC-Switch database
    (lib/ccswitch/operations.js, lib/ccswitch/plan.js).

    A row's settings are its parsed JSON. The TOML text in them is seen through its lens: the text
    around the `base_url` literals and the decoded values of the literals. */
module CcSwitchOps {
  import opened JsonString
  import Toml
  import LineLens

  datatype App = Claude | Codex

  datatype Key = Key(app: App, id: string)

  datatype Config = Config(frame: seq<string>, values: seq<Option<string>>)

  /** `rest` is everything else in the settings. */
  datatype Settings = Settings(env: Option<string>, config: Option<Config>, rest: string)

  /** None stands for settings that are not JSON. */
  datatype Db = Db(providers: map<Key, Option<Settings>>, endpoints: map<int, Row>)

  datatype Row = Row(owner: Key, url: string)

  datatype Field = EnvUrl(key: Key) | TomlUrl(key: Key, occurrence: nat) | Endpoint(rowId: int, key: Key)

  datatype Change = Change(field: Field, original: string, applied: string)

  // ---------------------------------------------------------------- one field

  datatype Current = Missing | Invalid | Value(value: Option<string>)

  function Get(db: Db, f: Field): Current {
    match f
    case Endpoint(id, key) =>
      if id in db.endpoints && db.endpoints[id].owner == key then Value(Some(db.endpoints[id].url)) else Missing
    case EnvUrl(key) =>
      if key !in db.providers then Missing
      else if db.providers[key].None? then Invalid
      else Value(db.providers[key].value.env)
    case TomlUrl(key, i) =>
      if key !in db.providers then Missing
      else if db.providers[key].None? || db.providers[key].value.config.None? then Invalid
      else
        var values := db.providers[key].value.config.value.values;
        if i < |values| && values[i].Some? then Value(values[i]) else Invalid
  }

  function SetSettings(db: Db, key: Key, s: Settings): Db {
    db.(providers := db.providers[key := Some(s)])
  }

  /** Writes a field that can be read. */
  function Set(db: Db, f: Field, v: string): Db
    requires Get(db, f).Value?
  {
    match f
    case Endpoint(id, key) => db.(endpoints := db.endpoints[id := db.endpoints[id].(url := v)])
    case EnvUrl(key) => SetSettings(db, key, db.providers[key].value.(env := Some(v)))
    case TomlUrl(key, i) =>
      var s := db.providers[key].value;
      SetSettings(db, key, s.(config := Some(s.config.value.(values := s.config.value.values[i := Some(v)]))))
  }

  // ---------------------------------------------------------------- inspection

  datatype Condition = Gone | Unreadable | Applied | Original | Drift

  function Inspect(db: Db, c: Change): Condition {
    match Get(db, c.field)
    case Missing => Gone
    case Invalid => Unreadable
    case Value(v) => if v == Some(c.applied) then Applied else if v == Some(c.original) then Original else Drift
  }

  function Replacement(c: Change, restoring: bool): string {
    if restoring then c.original else c.applied
  }

  function Expected(c: Change, restoring: bool): string {
    if restoring then c.applied else c.original
  }

  /** The condition a field has when nothing is left to do. */
  function Settled(restoring: bool): Condition {
    if restoring then Original else Applied
  }

  function Ready(restoring: bool): Condition {
    if restoring then Applied else Original
  }

  predicate Mutable(db: Db, c: Change, restoring: bool, force: bool) {
    var k := Inspect(db, c);
    k == Ready(restoring) || (force && k != Gone && k != Unreadable)
  }

  predicate AllMutable(db: Db, changes: seq<Change>, restoring: bool, force: bool) {
    changes == [] || (Mutable(db, changes[0], restoring, force) && AllMutable(db, changes[1..], restoring, force))
  }

  function Actionable(db: Db, changes: seq<Change>, restoring: bool): (r: seq<Change>)
    ensures |r| <= |changes|
  {
    if changes == [] then []
    else (if Inspect(db, changes[0]) == Settled(restoring) then [] else [changes[0]]) + Actionable(db, changes[1..], restoring)
  }

  // ---------------------------------------------------------------- the transaction

  /** What the TOML replacement does to the lens view of the text: None when the transaction throws. */
  function ReplaceIn(config: Config, i: nat, expected: string, replacement: string, force: bool): Option<Config> {
    if i >= |config.values| then None
    else if !force && config.values[i] != Some(expected) then
      if config.values[i] == Some(replacement) then Some(config) else None
    else Some(config.(values := config.values[i := Some(replacement)]))
  }

  /** One change inside the transaction; None when it throws. */
  function Step(db: Db, c: Change, restoring: bool, force: bool): Option<Db> {
    var expected, replacement := Expected(c, restoring), Replacement(c, restoring);
    match c.field
    case EnvUrl(key) =>
      if key !in db.providers || db.providers[key].None? then None
      else
        var s := db.providers[key].value;
        if !force && s.env != Some(expected) then None else Some(SetSettings(db, key, s.(env := Some(replacement))))
    case TomlUrl(key, i) =>
      if key !in db.providers || db.providers[key].None? || db.providers[key].value.config.None? then None
      else
        var s := db.providers[key].value;
        var next := ReplaceIn(s.config.value, i, expected, replacement, force);
        if next.None? then None else Some(SetSettings(db, key, s.(config := Some(next.value))))
    case Endpoint(id, key) =>
      if id in db.endpoints && db.endpoints[id].owner == key && (force || db.endpoints[id].url == expected)
      then Some(db.(endpoints := db.endpoints[id := db.endpoints[id].(url := replacement)])) else None
  }

  function Steps(db: Db, changes: seq<Change>, restoring: bool, force: bool): Option<Db>
    decreases |changes|
  {
    if changes == [] then Some(db)
    else
      var next := Step(db, changes[0], restoring, force);
      if next.None? then None else Steps(next.value, changes[1..], restoring, force)
  }

  function SettingsOf(changes: seq<Change>): seq<Change> {
    if changes == [] then []
    else (if changes[0].field.Endpoint? then [] else [changes[0]]) + SettingsOf(changes[1..])
  }

  function EndpointsOf(changes: seq<Change>): seq<Change> {
    if changes == [] then []
    else (if changes[0].field.Endpoint? then [changes[0]] else []) + EndpointsOf(changes[1..])
  }

  /** The transaction rewrites the provider rows first, then the endpoint rows. */
  function Ordered(changes: seq<Change>): seq<Change> {
    SettingsOf(changes) + EndpointsOf(changes)
  }

  datatype Outcome = Refused | Interrupted | Done(db: Db, changed: nat, unmoved: nat)

  /** All or nothing: a refusal or a throw inside the transaction leaves the database as it was. */
  function Mutate(db: Db, changes: seq<Change>, restoring: bool, force: bool): Outcome {
    var todo := Actionable(db, changes, restoring);
    if !AllMutable(db, todo, restoring, force) then Refused
    else
      var next := Steps(db, Ordered(todo), restoring, force);
      if next.None? then Interrupted else Done(next.value, |todo|, |changes| - |todo|)
  }

  // ---------------------------------------------------------------- fields are independent

  datatype SettingsShape = NoJson | SettingsShape(frame: Option<seq<string>>, count: nat, rest: string)

  function SettingsShapeOf(s: Option<Settings>): SettingsShape {
    match s
    case None => NoJson
    case Some(Settings(_, None, rest)) => SettingsShape(None, 0, rest)
    case Some(Settings(_, Some(config), rest)) => SettingsShape(Some(config.frame), |config.values|, rest)
  }

  datatype Shape = Shape(providers: map<Key, SettingsShape>, owners: map<int, Key>)

  /** Everything that is not a field's value. */
  function ShapeOf(db: Db): Shape {
    Shape(map k | k in db.providers :: SettingsShapeOf(db.providers[k]), map id | id in db.endpoints :: db.endpoints[id].owner)
  }

  lemma SetEffect(db: Db, f: Field, v: string)
    requires Get(db, f).Value?
    ensures Get(Set(db, f, v), f) == Value(Some(v)) && ShapeOf(Set(db, f, v)) == ShapeOf(db)
    ensures forall g | g != f :: Get(Set(db, f, v), g) == Get(db, g)
  {
    if !f.Endpoint? {
      assert SettingsShapeOf(Set(db, f, v).providers[f.key]) == SettingsShapeOf(db.providers[f.key]);
      assert ShapeOf(Set(db, f, v)).providers == ShapeOf(db).providers;
    } else {
      assert ShapeOf(Set(db, f, v)).owners == ShapeOf(db).owners;
    }
  }

  lemma SameSettings(a: Db, b: Db, k: Key)
    requires ShapeOf(a) == ShapeOf(b) && k in a.providers && k in b.providers
    requires forall f :: Get(a, f) == Get(b, f)
    ensures a.providers[k] == b.providers[k]
  {
    var x, y := a.providers[k], b.providers[k];
    assert SettingsShapeOf(x) == ShapeOf(a).providers[k] && SettingsShapeOf(y) == ShapeOf(b).providers[k];
    if x.Some? {
      assert Get(a, EnvUrl(k)) == Get(b, EnvUrl(k));
      if x.value.config.Some? {
        var p, q := x.value.config.value.values, y.value.config.value.values;
        forall i | 0 <= i < |p| ensures p[i] == q[i] {
          assert Get(a, TomlUrl(k, i)) == Get(b, TomlUrl(k, i));
        }
        assert p == q;
      }
    }
  }

  /** A database is its shape and the values of its fields. */
  lemma SameDb(a: Db, b: Db)
    requires ShapeOf(a) == ShapeOf(b) && forall f :: Get(a, f) == Get(b, f)
    ensures a == b
  {
    assert a.providers.Keys == ShapeOf(a).providers.Keys && b.providers.Keys == ShapeOf(b).providers.Keys;
    assert a.endpoints.Keys == ShapeOf(a).owners.Keys && b.endpoints.Keys == ShapeOf(b).owners.Keys;
    forall k | k in a.providers ensures a.providers[k] == b.providers[k] {
      SameSettings(a, b, k);
    }
    forall id | id in a.endpoints ensures a.endpoints[id] == b.endpoints[id] {
      assert a.endpoints[id].owner == ShapeOf(a).owners[id] == b.endpoints[id].owner;
      assert Get(a, Endpoint(id, a.endpoints[id].owner)) == Get(b, Endpoint(id, a.endpoints[id].owner));
    }
    assert a.providers == b.providers && a.endpoints == b.endpoints;
  }

  // ---------------------------------------------------------------- what a mutation does

  predicate Manages(changes: seq<Change>, f: Field) {
    changes != [] && (changes[0].field == f || Manages(changes[1..], f))
  }

  /** No field is listed twice. */
  predicate Distinct(changes: seq<Change>) {
    changes == [] || (!Manages(changes[1..], changes[0].field) && Distinct(changes[1..]))
  }

  /** Every managed field holds its replacement. */
  predicate AllSet(db: Db, changes: seq<Change>, restoring: bool) {
    changes == [] ||
    (Get(db, changes[0].field) == Value(Some(Replacement(changes[0], restoring))) && AllSet(db, changes[1..], restoring))
  }

  /** Nothing outside the managed fields differs. */
  ghost predicate Untouched(before: Db, after: Db, changes: seq<Change>) {
    ShapeOf(after) == ShapeOf(before) && forall f | !Manages(changes, f) :: Get(after, f) == Get(before, f)
  }

  lemma StepIsSet(db: Db, c: Change, restoring: bool, force: bool)
    requires Mutable(db, c, restoring, force)
    ensures Get(db, c.field).Value? && Step(db, c, restoring, force) == Some(Set(db, c.field, Replacement(c, restoring)))
  {
  }

  /** A field that has changed since it was inspected makes an unforced transaction throw, except that a
      base URL which already is the replacement is left as it is. */
  lemma UnforcedStepNeeds(db: Db, c: Change, restoring: bool)
    ensures var v := Get(db, c.field); var r := Step(db, c, restoring, false);
            && (r.Some? <==> v == Value(Some(Expected(c, restoring))) || (c.field.TomlUrl? && v == Value(Some(Replacement(c, restoring)))))
            && (r.Some? ==> r.value == Set(db, c.field, Replacement(c, restoring)))
  {
    if c.field.TomlUrl? && Get(db, c.field) == Value(Some(Replacement(c, restoring))) {
      var s := db.providers[c.field.key].value;
      assert s.config.value.values[c.field.occurrence := Some(Replacement(c, restoring))] == s.config.value.values;
      assert Set(db, c.field, Replacement(c, restoring)).providers[c.field.key] == db.providers[c.field.key];
    }
  }

  lemma {:induction false} SetKeepsMutable(db: Db, f: Field, v: string, changes: seq<Change>, restoring: bool, force: bool)
    requires Get(db, f).Value? && !Manages(changes, f)
    ensures AllMutable(Set(db, f, v), changes, restoring, force) == AllMutable(db, changes, restoring, force)
    decreases |changes|
  {
    if changes != [] {
      SetEffect(db, f, v);
      SetKeepsMutable(db, f, v, changes[1..], restoring, force);
    }
  }

  lemma {:induction false} StepsEffect(db: Db, todo: seq<Change>, restoring: bool, force: bool)
    requires Distinct(todo) && AllMutable(db, todo, restoring, force)
    ensures var r := Steps(db, todo, restoring, force);
            r.Some? && AllSet(r.value, todo, restoring) && Untouched(db, r.value, todo)
    decreases |todo|
  {
    if todo != [] {
      var c, rest := todo[0], todo[1..];
      StepIsSet(db, c, restoring, force);
      SetEffect(db, c.field, Replacement(c, restoring));
      SetKeepsMutable(db, c.field, Replacement(c, restoring), rest, restoring, force);
      StepsEffect(Set(db, c.field, Replacement(c, restoring)), rest, restoring, force);
    }
  }

  lemma {:induction false} ActionableHolds(db: Db, changes: seq<Change>, restoring: bool, force: bool)
    ensures var todo := Actionable(db, changes, restoring);
            && (forall f | Manages(todo, f) :: Manages(changes, f))
            && (Distinct(changes) ==> Distinct(todo))
            && (AllMutable(db, todo, restoring, force) <==>
                  forall i | 0 <= i < |changes| :: Inspect(db, changes[i]) == Settled(restoring) || Mutable(db, changes[i], restoring, force))
    decreases |changes|
  {
    if changes != [] {
      var rest, todo := changes[1..], Actionable(db, changes, restoring);
      ActionableHolds(db, rest, restoring, force);
      assert forall i | 0 < i < |changes| :: changes[i] == rest[i - 1];
      assert forall i | 0 <= i < |rest| :: rest[i] == changes[i + 1];
      if Inspect(db, changes[0]) == Settled(restoring) {
        assert todo == Actionable(db, rest, restoring);
      } else {
        assert todo[1..] == Actionable(db, rest, restoring);
      }
    }
  }

  lemma {:induction false} ActionableManages(db: Db, changes: seq<Change>, restoring: bool, f: Field)
    requires Manages(Actionable(db, changes, restoring), f)
    ensures Manages(changes, f)
    decreases |changes|
  {
    var todo := Actionable(db, changes, restoring);
    if Inspect(db, changes[0]) == Settled(restoring) {
      assert todo == Actionable(db, changes[1..], restoring);
      ActionableManages(db, changes[1..], restoring, f);
    } else if changes[0].field != f {
      assert todo[1..] == Actionable(db, changes[1..], restoring);
      ActionableManages(db, changes[1..], restoring, f);
    }
  }

  /** What is left alone because it is settled holds its replacement too. */
  lemma {:induction false} ActionableCovers(db: Db, after: Db, changes: seq<Change>, restoring: bool)
    requires Distinct(changes) && AllSet(after, Actionable(db, changes, restoring), restoring)
    requires forall f | Manages(changes, f) && !Manages(Actionable(db, changes, restoring), f) :: Get(after, f) == Get(db, f)
    ensures AllSet(after, changes, restoring)
    decreases |changes|
  {
    if changes != [] {
      var c, rest, todo := changes[0], changes[1..], Actionable(db, changes, restoring);
      var below := Actionable(db, rest, restoring);
      if Manages(below, c.field) {
        ActionableManages(db, rest, restoring, c.field);
        assert false;
      }
      if Inspect(db, c) == Settled(restoring) {
        assert todo == below;
        assert Manages(changes, c.field);
      } else {
        assert todo[0] == c && todo[1..] == below;
      }
      forall f | Manages(rest, f) && !Manages(below, f) ensures Get(after, f) == Get(db, f) {
        assert Manages(changes, f) && f != c.field;
      }
      ActionableCovers(db, after, rest, restoring);
    }
  }

  lemma {:induction false} Concatenated(a: seq<Change>, b: seq<Change>)
    ensures forall f :: Manages(a + b, f) <==> Manages(a, f) || Manages(b, f)
    ensures forall db, restoring, force ::
              AllMutable(db, a + b, restoring, force) <==> AllMutable(db, a, restoring, force) && AllMutable(db, b, restoring, force)
    ensures forall db, restoring :: AllSet(db, a + b, restoring) <==> AllSet(db, a, restoring) && AllSet(db, b, restoring)
    ensures Distinct(a) && Distinct(b) && (forall f | Manages(a, f) :: !Manages(b, f)) ==> Distinct(a + b)
    decreases |a|
  {
    if a == [] {
      assert a + b == b;
    } else {
      assert (a + b)[1..] == a[1..] + b && (a + b)[0] == a[0];
      Concatenated(a[1..], b);
      assert Manages(a, a[0].field) && forall f | Manages(a[1..], f) :: Manages(a, f);
    }
  }

  lemma {:induction false} OrderedHolds(todo: seq<Change>)
    ensures forall f :: Manages(todo, f) <==> Manages(SettingsOf(todo), f) || Manages(EndpointsOf(todo), f)
    ensures forall f | Manages(SettingsOf(todo), f) :: !f.Endpoint?
    ensures forall f | Manages(EndpointsOf(todo), f) :: f.Endpoint?
    ensures forall db, restoring, force ::
              AllMutable(db, todo, restoring, force) <==>
              AllMutable(db, SettingsOf(todo), restoring, force) && AllMutable(db, EndpointsOf(todo), restoring, force)
    ensures forall db, restoring ::
              AllSet(db, todo, restoring) <==> AllSet(db, SettingsOf(todo), restoring) && AllSet(db, EndpointsOf(todo), restoring)
    ensures Distinct(todo) ==> Distinct(SettingsOf(todo)) && Distinct(EndpointsOf(todo))
    decreases |todo|
  {
    if todo != [] {
      OrderedHolds(todo[1..]);
      if todo[0].field.Endpoint? {
        assert SettingsOf(todo) == SettingsOf(todo[1..]) && EndpointsOf(todo)[1..] == EndpointsOf(todo[1..]);
      } else {
        assert EndpointsOf(todo) == EndpointsOf(todo[1..]) && SettingsOf(todo)[1..] == SettingsOf(todo[1..]);
      }
    }
  }

  lemma OrderedStepsEffect(db: Db, todo: seq<Change>, restoring: bool, force: bool)
    requires Distinct(todo) && AllMutable(db, todo, restoring, force)
    ensures var r := Steps(db, Ordered(todo), restoring, force);
            r.Some? && AllSet(r.value, todo, restoring) && Untouched(db, r.value, todo)
  {
    OrderedHolds(todo);
    Concatenated(SettingsOf(todo), EndpointsOf(todo));
    StepsEffect(db, Ordered(todo), restoring, force);
  }

  /** A mutation is refused exactly when some field is neither settled nor mutable. Otherwise it
      commits: every managed field holds its replacement, everything else is as it was, and it never
      fails halfway. */
  lemma {:induction false} MutateCommits(db: Db, changes: seq<Change>, restoring: bool, force: bool)
    requires Distinct(changes)
    ensures var r := Mutate(db, changes, restoring, force);
            && (r.Refused? <==> !forall i | 0 <= i < |changes| ::
                  Inspect(db, changes[i]) == Settled(restoring) || Mutable(db, changes[i], restoring, force))
            && !r.Interrupted?
            && (r.Done? ==> AllSet(r.db, changes, restoring) && Untouched(db, r.db, changes) && r.changed + r.unmoved == |changes|)
  {
    var todo := Actionable(db, changes, restoring);
    ActionableHolds(db, changes, restoring, force);
    if AllMutable(db, todo, restoring, force) {
      OrderedStepsEffect(db, todo, restoring, force);
      ActionableCovers(db, Steps(db, Ordered(todo), restoring, force).value, changes, restoring);
    }
  }

  // ---------------------------------------------------------------- verification and round trips

  /** The check that follows a commit. */
  predicate Verified(db: Db, changes: seq<Change>, restoring: bool) {
    forall i | 0 <= i < |changes| :: Inspect(db, changes[i]) == Settled(restoring)
  }

  /** No change names a URL that is its own replacement. */
  predicate LoopFree(changes: seq<Change>) {
    forall i | 0 <= i < |changes| :: changes[i].original != changes[i].applied
  }

  lemma {:induction false} AllSetAt(db: Db, changes: seq<Change>, restoring: bool, i: nat)
    requires AllSet(db, changes, restoring) && i < |changes|
    ensures Get(db, changes[i].field) == Value(Some(Replacement(changes[i], restoring)))
    decreases i
  {
    if i > 0 {
      AllSetAt(db, changes[1..], restoring, i - 1);
    }
  }

  /** Verification after a commit cannot fail when applying, and when restoring it passes exactly when
      no original equals its replacement. */
  lemma VerificationHolds(db: Db, changes: seq<Change>, restoring: bool, force: bool)
    requires Distinct(changes) && Mutate(db, changes, restoring, force).Done?
    ensures Verified(Mutate(db, changes, restoring, force).db, changes, restoring) <==> !restoring || LoopFree(changes)
  {
    MutateCommits(db, changes, restoring, force);
    var after := Mutate(db, changes, restoring, force).db;
    forall i | 0 <= i < |changes|
      ensures Inspect(after, changes[i]) == Settled(restoring) <==> !restoring || changes[i].original != changes[i].applied
    {
      AllSetAt(after, changes, restoring, i);
    }
  }

  lemma {:induction false} SettledNothingToDo(db: Db, changes: seq<Change>, restoring: bool)
    requires Verified(db, changes, restoring)
    ensures Actionable(db, changes, restoring) == []
    decreases |changes|
  {
    if changes != [] {
      assert Inspect(db, changes[0]) == Settled(restoring);
      forall i | 0 <= i < |changes[1..]| ensures Inspect(db, changes[1..][i]) == Settled(restoring) {
        assert changes[1..][i] == changes[i + 1];
      }
      SettledNothingToDo(db, changes[1..], restoring);
    }
  }

  /** Each direction is idempotent: a second run finds nothing to do. */
  lemma {:induction false} MutateTwice(db: Db, changes: seq<Change>, restoring: bool, force: bool)
    requires Distinct(changes) && LoopFree(changes) && Mutate(db, changes, restoring, force).Done?
    ensures var after := Mutate(db, changes, restoring, force).db;
            Mutate(after, changes, restoring, force) == Done(after, 0, |changes|)
  {
    VerificationHolds(db, changes, restoring, force);
    SettledNothingToDo(Mutate(db, changes, restoring, force).db, changes, restoring);
  }

  /** Restoring after an apply: whatever has been edited outside the managed fields since, the restore
      commits, every managed field is back at its original, and every edit stays. */
  lemma {:induction false} RestoreAfterEdits(edited: Db, changes: seq<Change>)
    requires Distinct(changes) && LoopFree(changes) && AllSet(edited, changes, false)
    ensures var r := Mutate(edited, changes, true, false);
            && r.Done? && AllSet(r.db, changes, true) && Untouched(edited, r.db, changes) && Verified(r.db, changes, true)
  {
    forall i | 0 <= i < |changes| ensures Inspect(edited, changes[i]) == Applied {
      AllSetAt(edited, changes, false, i);
    }
    MutateCommits(edited, changes, true, false);
    VerificationHolds(edited, changes, true, false);
  }

  ghost predicate AllOriginal(db: Db, changes: seq<Change>) {
    forall i | 0 <= i < |changes| :: Get(db, changes[i].field) == Value(Some(changes[i].original))
  }

  lemma {:induction false} ManagedAt(changes: seq<Change>, f: Field) returns (i: nat)
    requires Manages(changes, f)
    ensures i < |changes| && changes[i].field == f
    decreases |changes|
  {
    if changes[0].field == f {
      i := 0;
    } else {
      var j := ManagedAt(changes[1..], f);
      i := j + 1;
    }
  }

  /** With no edits in between, restore is the inverse of apply on the whole database. */
  lemma {:induction false} RestoreUndoesApply(db: Db, changes: seq<Change>)
    requires Distinct(changes) && LoopFree(changes) && AllOriginal(db, changes)
    ensures var applied := Mutate(db, changes, false, false);
            applied.Done? && Mutate(applied.db, changes, true, false).Done? && Mutate(applied.db, changes, true, false).db == db
  {
    MutateCommits(db, changes, false, false);
    var applied := Mutate(db, changes, false, false).db;
    RestoreAfterEdits(applied, changes);
    var restored := Mutate(applied, changes, true, false).db;
    forall f ensures Get(restored, f) == Get(db, f) {
      if Manages(changes, f) {
        var i := ManagedAt(changes, f);
        AllSetAt(restored, changes, true, i);
      }
    }
    SameDb(restored, db);
  }

  /** Force does not reach further: it commits exactly when every field can be read, and like an
      unforced mutation it changes managed fields only. */
  lemma ForceTouchesManagedOnly(db: Db, changes: seq<Change>, restoring: bool)
    requires Distinct(changes)
    ensures var r := Mutate(db, changes, restoring, true);
            && (r.Done? <==> forall i | 0 <= i < |changes| :: Get(db, changes[i].field).Value?)
            && (r.Done? ==> Untouched(db, r.db, changes) && AllSet(r.db, changes, restoring))
  {
    MutateCommits(db, changes, restoring, true);
    forall i | 0 <= i < |changes|
      ensures Get(db, changes[i].field).Value? <==>
              Inspect(db, changes[i]) == Settled(restoring) || Mutable(db, changes[i], restoring, true)
    {
    }
  }

  // ---------------------------------------------------------------- the text behind the lens

  /** How a TOML text appears in the model. */
  function ViewOf(text: string): Config {
    Config(LineLens.Frame(LineLens.SplitLines(text), Toml.Assignment), Toml.Values(text))
  }

  lemma PutIsViewed(text: string, i: nat, v: string)
    requires i < |Toml.Values(text)|
    ensures ViewOf(LineLens.Join(LineLens.Put(LineLens.SplitLines(text), Toml.Assignment, i, Quote(v))))
            == ViewOf(text).(values := Toml.Values(text)[i := Some(v)])
  {
    Toml.TextAfterPut(text, i, v);
    Toml.QuoteFits(v);
    LineLens.PutKeepsFrame(LineLens.SplitLines(text), Toml.Assignment, i, Quote(v));
  }

  /** The replacement on the text is the replacement on its view. */
  lemma ReplaceIsViewed(text: string, i: nat, expected: string, replacement: string, force: bool)
    ensures var r := Toml.ReplaceSpec(text, i, expected, replacement, force);
            var throws := !r.found || (!r.changed && r.actual != Some(replacement));
            ReplaceIn(ViewOf(text), i, expected, replacement, force) == if throws then None else Some(ViewOf(r.value))
  {
    if i < |Toml.Values(text)| {
      PutIsViewed(text, i, replacement);
    }
  }
}
