/** The persisted phases of a CC-Switch takeover across crashes (lib/ccswitch/apply.js 33-145,
    lib/ccswitch/restore.js 25-38 and 59-93, lib/ccswitch/status.js).

    Every write of the state file and the database transaction is one step, and a step can fail or be
    where the process dies. */
module CcSwitchPhases {
  import opened Faults
  import opened JsonString
  import opened CcSwitchOps
  import opened CcSwitchPlan
  import TakeoverState
  import Text

  datatype Status = Applying | Active | Restoring | Conflict | RollbackRequired | Restored

  datatype Record = Record(status: Status, changes: seq<Change>, proxy: string)

  datatype World = World(db: Db, state: Option<Record>, clock: nat, alive: bool)

  /** What an apply is called with. `snapshot` is None when it takes a fresh one; `admitted` says
      whether the schema, health, routing and identity checks pass. */
  datatype Request = Request(admitted: bool, proxy: string, snapshot: Option<Db>, rows: Rows, selected: set<Key>,
                             url: Printer, localPrefix: string)

  datatype Command = Apply(request: Request) | Restore(admitted: bool, force: bool)

  datatype Answer = Declined | AlreadyActive | AlreadyRestored | Completed(changed: nat) | Failed | VerificationFailed

  // ---------------------------------------------------------------- steps

  predicate Lands(w: World, faults: seq<Fault>) {
    w.alive && At(faults, w.clock) == Fine
  }

  function Tick(w: World, faults: seq<Fault>): World {
    w.(clock := w.clock + 1, alive := w.alive && At(faults, w.clock) != Dies)
  }

  function WriteState(w: World, faults: seq<Fault>, r: Record): (World, bool) {
    if Lands(w, faults) then (Tick(w, faults).(state := Some(r)), true) else (Tick(w, faults), false)
  }

  /** The database transaction; a fault makes it throw and leaves the database alone. */
  function Transact(w: World, faults: seq<Fault>, changes: seq<Change>, restoring: bool, force: bool): (World, Option<nat>) {
    if !Lands(w, faults) then (Tick(w, faults), None)
    else
      match Mutate(w.db, changes, restoring, force)
      case Done(db, changed, _) => (Tick(w, faults).(db := db), Some(changed))
      case _ => (Tick(w, faults), None)
  }

  // ---------------------------------------------------------------- status

  datatype Takeover = Inactive | IsRestored | IsActive | InConflict

  predicate AllIn(db: Db, changes: seq<Change>, k: Condition) {
    forall i | 0 <= i < |changes| :: Inspect(db, changes[i]) == k
  }

  /** How the conditions of the fields fold into one. */
  function StatusOf(w: World): Takeover {
    if w.state.None? then Inactive
    else if AllIn(w.db, w.state.value.changes, Original) then IsRestored
    else if AllIn(w.db, w.state.value.changes, Applied) then IsActive
    else InConflict
  }

  // ---------------------------------------------------------------- commands

  predicate Ended(state: Option<Record>) {
    state.None? || state.value.status.Restored?
  }

  /** From the pending state on: transaction, verification, active state. */
  function RunPlan(w: World, faults: seq<Fault>, r: Record): (World, Answer) {
    var (w1, pending) := WriteState(w, faults, r);
    if !pending then (w1, Failed)
    else
      var (w2, changed) := Transact(w1, faults, r.changes, false, false);
      if changed.None? then (WriteState(w2, faults, r.(status := RollbackRequired)).0, Failed)
      else if !Verified(w2.db, r.changes, false) then (WriteState(w2, faults, r.(status := RollbackRequired)).0, VerificationFailed)
      else
        var (w3, active) := WriteState(w2, faults, r.(status := Active));
        (w3, if active then Completed(changed.value) else Failed)
  }

  function ApplySpec(w: World, faults: seq<Fault>, q: Request): (World, Answer) {
    if !q.admitted then (w, Declined)
    else if !Ended(w.state) then
      if StatusOf(w) == IsActive && w.state.value.proxy == q.proxy then
        if w.state.value.status.Active? then (w, AlreadyActive)
        else
          var (w1, written) := WriteState(w, faults, w.state.value.(status := Active));
          (w1, if written then AlreadyActive else Failed)
      else (w, Declined)
    else
      var snapshot := if q.snapshot.Some? then q.snapshot.value else w.db;
      var changes := Collect(snapshot, q.rows, q.selected, q.url);
      if !NoLoop(changes, q.localPrefix) || changes == [] || !AllIn(w.db, changes, Original) then (w, Declined)
      else RunPlan(w, faults, Record(Applying, changes, q.proxy))
  }

  /** Everything after the phase `restoring` has been written. */
  function RunRestore(w: World, faults: seq<Fault>, r: Record, force: bool): (World, Answer) {
    var (w1, changed) := Transact(w, faults, r.changes, true, force);
    if changed.None? then (WriteState(w1, faults, r.(status := Conflict)).0, Failed)
    else if !Verified(w1.db, r.changes, true) then (WriteState(w1, faults, r.(status := Conflict)).0, VerificationFailed)
    else
      var (w2, ended) := WriteState(w1, faults, r.(status := Restored));
      (w2, if !ended then Failed else Completed(changed.value))
  }

  function RestoreSpec(w: World, faults: seq<Fault>, admitted: bool, force: bool): (World, Answer) {
    if Ended(w.state) then (w, AlreadyRestored)
    else if !admitted then (w, Declined)
    else
      var r := w.state.value.(status := Restoring);
      var (w1, marked) := WriteState(w, faults, r);
      if !marked then (w1, Failed) else RunRestore(w1, faults, r, force)
  }

  /** One command run by a fresh process. */
  function Execute(w: World, faults: seq<Fault>, c: Command): (World, Answer) {
    var started := w.(alive := true);
    match c
    case Apply(request) => ApplySpec(started, faults, request)
    case Restore(admitted, force) => RestoreSpec(started, faults, admitted, force)
  }

  function Run(w: World, faults: seq<Fault>, commands: seq<Command>): World {
    if commands == [] then w else Execute(Run(w, faults, commands[..|commands| - 1]), faults, commands[|commands| - 1]).0
  }

  function Start(db: Db): World {
    World(db, None, 0, true)
  }

  // ---------------------------------------------------------------- the invariant

  /** Changes that apply to `base` and can be undone. */
  ghost predicate Sound(base: Db, changes: seq<Change>) {
    Distinct(changes) && LoopFree(changes) && AllOriginal(base, changes) && changes != []
  }

  function AppliedDb(base: Db, changes: seq<Change>): Db {
    var r := Mutate(base, changes, false, false);
    if r.Done? then r.db else base
  }

  /** The database is the original one or the fully taken-over one; which of the two, once the phase
      says so. */
  ghost predicate Consistent(w: World, base: Db) {
    match w.state
    case None => w.db == base
    case Some(r) =>
      Sound(base, r.changes) &&
      match r.status
      case Restored => w.db == base
      case Active => w.db == AppliedDb(base, r.changes)
      case _ => w.db == base || w.db == AppliedDb(base, r.changes)
  }

  /** A request names each row once. */
  predicate WellFormed(c: Command) {
    c.Apply? ==> DistinctRows(c.request.rows)
  }

  lemma AppliedFacts(base: Db, changes: seq<Change>)
    requires Sound(base, changes)
    ensures Mutate(base, changes, false, false).Done? && Verified(AppliedDb(base, changes), changes, false)
    ensures AllIn(AppliedDb(base, changes), changes, Applied) && AllIn(base, changes, Original)
  {
    MutateCommits(base, changes, false, false);
    VerificationHolds(base, changes, false, false);
  }

  /** Restoring from either database, forced or not, ends at the original one and verifies. */
  lemma RestoreReachesBase(base: Db, db: Db, changes: seq<Change>, force: bool)
    requires Sound(base, changes) && (db == base || db == AppliedDb(base, changes))
    ensures var r := Mutate(db, changes, true, force); r.Done? && r.db == base && Verified(base, changes, true)
  {
    AppliedFacts(base, changes);
    MutateCommits(db, changes, true, force);
    MutateCommits(base, changes, false, false);
    var restored := Mutate(db, changes, true, force).db;
    forall f ensures Get(restored, f) == Get(base, f) {
      if Manages(changes, f) {
        var i := ManagedAt(changes, f);
        AllSetAt(restored, changes, true, i);
      }
    }
    SameDb(restored, base);
  }

  lemma RunPlanKeeps(w: World, faults: seq<Fault>, base: Db, r: Record)
    requires w.db == base && Sound(base, r.changes) && r.status.Applying? && Ended(w.state) && Consistent(w, base)
    ensures Consistent(RunPlan(w, faults, r).0, base)
    ensures !RunPlan(w, faults, r).1.VerificationFailed?
  {
    AppliedFacts(base, r.changes);
  }

  lemma ApplyKeeps(w: World, faults: seq<Fault>, base: Db, q: Request)
    requires Consistent(w, base) && DistinctRows(q.rows)
    ensures Consistent(ApplySpec(w, faults, q).0, base)
    ensures !ApplySpec(w, faults, q).1.VerificationFailed?
  {
    if q.admitted {
      if Ended(w.state) {
        var snapshot := if q.snapshot.Some? then q.snapshot.value else w.db;
        var changes := Collect(snapshot, q.rows, q.selected, q.url);
        if NoLoop(changes, q.localPrefix) && changes != [] && AllIn(w.db, changes, Original) {
          CollectIsSound(snapshot, q.rows, q.selected, q.url);
          forall i | 0 <= i < |changes| ensures Get(base, changes[i].field) == Value(Some(changes[i].original)) {
            assert Inspect(w.db, changes[i]) == Original;
          }
          RunPlanKeeps(w, faults, base, Record(Applying, changes, q.proxy));
        }
      } else {
        AppliedFacts(base, w.state.value.changes);
        assert Inspect(base, w.state.value.changes[0]) == Original;
      }
    }
  }

  lemma RunRestoreKeeps(w: World, faults: seq<Fault>, base: Db, r: Record, force: bool)
    requires Consistent(w, base) && w.state == Some(r) && r.status.Restoring?
    ensures var (w', a) := RunRestore(w, faults, r, force);
            && Consistent(w', base) && !a.VerificationFailed?
            && (a.Completed? ==> w'.db == base && w'.state == Some(r.(status := Restored)))
  {
    RestoreReachesBase(base, w.db, r.changes, force);
    var (w1, changed) := Transact(w, faults, r.changes, true, force);
    assert w1.state == w.state && (changed.Some? ==> w1.db == base) && (changed.None? ==> w1.db == w.db);
  }

  lemma RestoreKeeps(w: World, faults: seq<Fault>, base: Db, admitted: bool, force: bool)
    requires Consistent(w, base)
    ensures var (w', a) := RestoreSpec(w, faults, admitted, force);
            && Consistent(w', base) && !a.VerificationFailed?
            && (a.Completed? ==> w'.db == base && w'.state.Some? && w'.state.value.status.Restored?)
  {
    if !Ended(w.state) && admitted {
      var r := w.state.value.(status := Restoring);
      var (w1, marked) := WriteState(w, faults, r);
      if marked {
        assert Consistent(w1, base);
        RunRestoreKeeps(w1, faults, base, r, force);
      }
    }
  }

  /** Over every run of applies and restores, whatever fails and wherever processes die: the database
      is the original or the fully taken-over one, as the phase says. */
  lemma {:induction false} EveryRunIsConsistent(base: Db, faults: seq<Fault>, commands: seq<Command>)
    requires forall i | 0 <= i < |commands| :: WellFormed(commands[i])
    ensures Consistent(Run(Start(base), faults, commands), base)
    decreases |commands|
  {
    if commands != [] {
      var n := |commands| - 1;
      EveryRunIsConsistent(base, faults, commands[..n]);
      var started := Run(Start(base), faults, commands[..n]).(alive := true);
      match commands[n]
      case Apply(request) => ApplyKeeps(started, faults, base, request);
      case Restore(admitted, force) => RestoreKeeps(started, faults, base, admitted, force);
    }
  }

  // ---------------------------------------------------------------- what the phase is good for

  function StatusName(s: Status): string {
    match s
    case Applying => "applying"
    case Active => "active"
    case Restoring => "restoring"
    case Conflict => "conflict"
    case RollbackRequired => "rollback-required"
    case Restored => "restored"
  }

  /** The state file as the lifecycle guard reads it. */
  function Persisted(state: Option<Record>): Option<TakeoverState.State> {
    if state.None? then None else Some(TakeoverState.State(StatusName(state.value.status), "", true, true))
  }

  lemma GuardReadsPhase(state: Option<Record>)
    ensures TakeoverState.IsActive(Persisted(state)) <==> !Ended(state)
  {
    if state.Some? {
      var name := StatusName(state.value.status);
      assert TakeoverState.StatePhase(Persisted(state)) == name by {
        assert Text.Lower(name) == name;
      }
      assert TakeoverState.ACTIVE_PHASES[0] == "applying" && TakeoverState.ACTIVE_PHASES[1] == "active"
          && TakeoverState.ACTIVE_PHASES[2] == "restoring" && TakeoverState.ACTIVE_PHASES[3] == "conflict"
          && TakeoverState.ACTIVE_PHASES[4] == "rollback-required" && TakeoverState.INACTIVE_PHASES[1] == "restored";
      TakeoverState.InactiveIff(Persisted(state));
    }
  }

  /** Whenever any field holds a URL of the takeover, the guard sees an active takeover: stop is refused. */
  lemma {:induction false} TakenOverMeansActive(base: Db, faults: seq<Fault>, commands: seq<Command>)
    requires forall i | 0 <= i < |commands| :: WellFormed(commands[i])
    ensures var w := Run(Start(base), faults, commands);
            w.db != base ==> TakeoverState.IsActive(Persisted(w.state))
  {
    EveryRunIsConsistent(base, faults, commands);
    GuardReadsPhase(Run(Start(base), faults, commands).state);
  }

  lemma QuietRestoreRuns(w: World, faults: seq<Fault>, base: Db, force: bool)
    requires w.alive && Consistent(w, base) && !Ended(w.state) && QuietFrom(faults, w.clock)
    ensures RestoreSpec(w, faults, true, force).1.Completed?
  {
    var r := w.state.value.(status := Restoring);
    assert At(faults, w.clock) == Fine && At(faults, w.clock + 1) == Fine && At(faults, w.clock + 2) == Fine;
    RestoreReachesBase(base, w.db, r.changes, force);
    var w1 := WriteState(w, faults, r).0;
    assert Transact(w1, faults, r.changes, true, force) == (Tick(w1, faults).(db := base), Some(Mutate(w.db, r.changes, true, force).changed));
  }

  /** From whatever point earlier runs crashed at, a restore that meets no further fault ends with the
      original database and the phase restored. */
  lemma QuietRestoreCompletes(base: Db, faults: seq<Fault>, commands: seq<Command>, force: bool)
    requires forall i | 0 <= i < |commands| :: WellFormed(commands[i])
    requires QuietFrom(faults, Run(Start(base), faults, commands).clock)
    ensures var (w', a) := Execute(Run(Start(base), faults, commands), faults, Restore(true, force));
            && w'.db == base && Ended(w'.state) && (a.Completed? || a.AlreadyRestored?)
  {
    EveryRunIsConsistent(base, faults, commands);
    var started := Run(Start(base), faults, commands).(alive := true);
    RestoreKeeps(started, faults, base, true, force);
    if !Ended(started.state) {
      QuietRestoreRuns(started, faults, base, force);
    }
  }
}
