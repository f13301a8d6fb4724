/** The CC-Switch takeover as it runs: a database edited inside a transaction and a state file
    rewritten phase by phase (lib/ccswitch/operations.js 47-93, lib/ccswitch/apply.js 33-145,
    lib/ccswitch/restore.js 59-93). */
module CcSwitchTakeover {
  import opened Faults
  import opened JsonString
  import opened CcSwitchOps
  import opened CcSwitchPlan
  import opened CcSwitchPhases

  lemma {:induction false} ActionableAppend(db: Db, before: seq<Change>, c: Change, restoring: bool)
    ensures Actionable(db, before + [c], restoring) ==
            Actionable(db, before, restoring) + if Inspect(db, c) == Settled(restoring) then [] else [c]
    decreases |before|
  {
    if before == [] {
      assert [] + [c] == [c] && [c][1..] == [];
    } else {
      assert (before + [c])[1..] == before[1..] + [c];
      ActionableAppend(db, before[1..], c, restoring);
    }
  }

  method SelectActionable(db: Db, changes: seq<Change>, restoring: bool) returns (todo: seq<Change>)
    ensures todo == Actionable(db, changes, restoring)
  {
    todo := [];
    for n := 0 to |changes|
      invariant todo == Actionable(db, changes[..n], restoring)
    {
      ActionableAppend(db, changes[..n], changes[n], restoring);
      assert changes[..n + 1] == changes[..n] + [changes[n]];
      if Inspect(db, changes[n]) != Settled(restoring) {
        todo := todo + [changes[n]];
      }
    }
    assert changes[..|changes|] == changes;
  }

  method CheckMutable(db: Db, todo: seq<Change>, restoring: bool, force: bool) returns (ok: bool)
    ensures ok == AllMutable(db, todo, restoring, force)
  {
    for n := 0 to |todo|
      invariant AllMutable(db, todo, restoring, force) == AllMutable(db, todo[n..], restoring, force)
    {
      assert todo[n..][0] == todo[n] && todo[n..][1..] == todo[n + 1..];
      if !Mutable(db, todo[n], restoring, force) {
        return false;
      }
    }
    return true;
  }

  method RunSteps(db: Db, changes: seq<Change>, restoring: bool, force: bool) returns (r: Option<Db>)
    ensures r == Steps(db, changes, restoring, force)
  {
    var work := db;
    for n := 0 to |changes|
      invariant Steps(db, changes, restoring, force) == Steps(work, changes[n..], restoring, force)
    {
      assert changes[n..][0] == changes[n] && changes[n..][1..] == changes[n + 1..];
      var next := Step(work, changes[n], restoring, force);
      if next.None? {
        return None;
      }
      work := next.value;
    }
    return Some(work);
  }

  class Takeover {
    const faults: seq<Fault>
    var db: Db
    var state: Option<Record>
    var clock: nat
    var alive: bool

    ghost function Now(): World
      reads this
    {
      World(db, state, clock, alive)
    }

    constructor (db: Db, faults: seq<Fault>)
      ensures Now() == Start(db) && this.faults == faults
    {
      this.db, this.faults, state, clock, alive := db, faults, None, 0, true;
    }

    method Step() returns (lands: bool)
      modifies this`clock, this`alive
      ensures lands == Lands(old(Now()), faults) && Now() == Tick(old(Now()), faults)
    {
      var fault := At(faults, clock);
      lands := alive && fault == Fine;
      clock := clock + 1;
      alive := alive && fault != Dies;
    }

    method WriteCcSwitch(r: Record) returns (ok: bool)
      modifies this`state, this`clock, this`alive
      ensures (Now(), ok) == WriteState(old(Now()), faults, r)
    {
      ok := Step();
      if ok {
        state := Some(r);
      }
    }

    /** Inspects every change, refuses on drift, and then runs the transaction on a working copy that
        is only kept when no change throws. */
    method Mutate(changes: seq<Change>, restoring: bool, force: bool) returns (r: Outcome)
      modifies this`db
      ensures r == CcSwitchOps.Mutate(old(db), changes, restoring, force)
      ensures db == if r.Done? then r.db else old(db)
    {
      var todo := SelectActionable(db, changes, restoring);
      var admitted := CheckMutable(db, todo, restoring, force);
      if !admitted {
        return Outcome.Refused;
      }
      var next := RunSteps(db, Ordered(todo), restoring, force);
      if next.None? {
        return Outcome.Interrupted;
      }
      db := next.value;
      return Outcome.Done(next.value, |todo|, |changes| - |todo|);
    }

    method Transaction(changes: seq<Change>, restoring: bool, force: bool) returns (changed: Option<nat>)
      modifies this`db, this`clock, this`alive
      ensures (Now(), changed) == Transact(old(Now()), faults, changes, restoring, force)
    {
      var lands := Step();
      if !lands {
        return None;
      }
      var r := Mutate(changes, restoring, force);
      return if r.Done? then Some(r.changed) else None;
    }

    method Apply(q: Request) returns (a: Answer)
      modifies this
      ensures (Now(), a) == ApplySpec(old(Now()), faults, q)
    {
      if !q.admitted {
        return Declined;
      }
      if state.Some? && !state.value.status.Restored? {
        if StatusOf(World(db, state, clock, alive)) == IsActive && state.value.proxy == q.proxy {
          if !state.value.status.Active? {
            var written := WriteCcSwitch(state.value.(status := Active));
            return if written then AlreadyActive else Failed;
          }
          return AlreadyActive;
        }
        return Declined;
      }
      var snapshot := if q.snapshot.Some? then q.snapshot.value else db;
      var changes := Collect(snapshot, q.rows, q.selected, q.url);
      if !NoLoop(changes, q.localPrefix) || changes == [] || !AllIn(db, changes, Original) {
        return Declined;
      }
      var pending := Record(Applying, changes, q.proxy);
      var written := WriteCcSwitch(pending);
      if !written {
        return Failed;
      }
      var changed := Transaction(changes, false, false);
      if changed.None? {
        var _ := WriteCcSwitch(pending.(status := RollbackRequired));
        return Failed;
      }
      if !Verified(db, changes, false) {
        var _ := WriteCcSwitch(pending.(status := RollbackRequired));
        return VerificationFailed;
      }
      var active := WriteCcSwitch(pending.(status := Active));
      return if active then Completed(changed.value) else Failed;
    }

    method Restore(admitted: bool, force: bool) returns (a: Answer)
      modifies this
      ensures (Now(), a) == RestoreSpec(old(Now()), faults, admitted, force)
    {
      if state.None? || state.value.status.Restored? {
        return AlreadyRestored;
      }
      if !admitted {
        return Declined;
      }
      var restoring := state.value.(status := Restoring);
      var marked := WriteCcSwitch(restoring);
      if !marked {
        return Failed;
      }
      var changed := Transaction(restoring.changes, true, force);
      if changed.None? {
        var _ := WriteCcSwitch(restoring.(status := Conflict));
        return Failed;
      }
      if !Verified(db, restoring.changes, true) {
        var _ := WriteCcSwitch(restoring.(status := Conflict));
        return VerificationFailed;
      }
      var ended := WriteCcSwitch(restoring.(status := Restored));
      return if ended then Completed(changed.value) else Failed;
    }
  }
}
