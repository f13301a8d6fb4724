/** What the CC-Switch commands answer, and what they leave (lib/ccswitch/apply.js 33-145,
    lib/ccswitch/restore.js 59-93): in every world, and wherever one of their writes throws. */
module CcSwitchAnswers {
  import opened Faults
  import opened JsonString
  import opened CcSwitchOps
  import opened CcSwitchPlan
  import opened CcSwitchPhases

  // ---------------------------------------------------------------- conditions, in terms of values

  /** Every field holds its local URL. */
  ghost predicate TakenOver(db: Db, changes: seq<Change>) {
    forall i | 0 <= i < |changes| :: Get(db, changes[i].field) == Value(Some(changes[i].applied))
  }

  ghost predicate PutBack(db: Db, changes: seq<Change>) {
    forall i | 0 <= i < |changes| :: Get(db, changes[i].field) == Value(Some(changes[i].original))
  }

  /** No original is, or begins like, one of the router's own URLs. */
  ghost predicate Upstream(changes: seq<Change>, localPrefix: string) {
    forall i | 0 <= i < |changes| :: changes[i].original != changes[i].applied && !(localPrefix <= changes[i].original)
  }

  ghost predicate NothingRuns(state: Option<Record>) {
    state.None? || state.value.status == Restored
  }

  /** What a request collects from its snapshot, or from the database when it takes a fresh one. */
  function Planned(w: World, q: Request): seq<Change> {
    Collect(if q.snapshot.Some? then q.snapshot.value else w.db, q.rows, q.selected, q.url)
  }

  /** A takeover can start: something is collected, all of it leads upstream, and the database still
      holds it. */
  ghost predicate Startable(w: World, q: Request) {
    Planned(w, q) != [] && Upstream(Planned(w, q), q.localPrefix) && PutBack(w.db, Planned(w, q))
  }

  lemma OriginalIff(db: Db, changes: seq<Change>, localPrefix: string)
    requires Upstream(changes, localPrefix)
    ensures AllIn(db, changes, Original) <==> PutBack(db, changes)
  {
    if AllIn(db, changes, Original) {
      forall i | 0 <= i < |changes| ensures Get(db, changes[i].field) == Value(Some(changes[i].original)) {
        assert Inspect(db, changes[i]) == Original;
      }
    } else {
      var i :| 0 <= i < |changes| && Inspect(db, changes[i]) != Original;
      assert Get(db, changes[i].field) != Value(Some(changes[i].original));
    }
  }

  lemma AppliedIff(db: Db, changes: seq<Change>)
    ensures AllIn(db, changes, Applied) <==> TakenOver(db, changes)
  {
    if AllIn(db, changes, Applied) {
      forall i | 0 <= i < |changes| ensures Get(db, changes[i].field) == Value(Some(changes[i].applied)) {
        assert Inspect(db, changes[i]) == Applied;
      }
    } else {
      var i :| 0 <= i < |changes| && Inspect(db, changes[i]) != Applied;
      assert Get(db, changes[i].field) != Value(Some(changes[i].applied));
    }
  }

  // ---------------------------------------------------------------- how many fields a mutation changes

  function Shifted(s: set<nat>): set<nat> {
    set i | i in s :: i + 1
  }

  lemma {:induction false} ShiftKeepsSize(s: set<nat>)
    ensures |Shifted(s)| == |s|
    decreases s
  {
    if s != {} {
      var x :| x in s;
      ShiftKeepsSize(s - {x});
      forall j ensures j in Shifted(s) <==> j in Shifted(s - {x}) + {x + 1} {
        if j in Shifted(s) {
          var i :| i in s && i + 1 == j;
          assert i == x || i in s - {x};
        }
      }
      assert Shifted(s) == Shifted(s - {x}) + {x + 1};
    } else {
      assert Shifted(s) == {};
    }
  }

  /** The positions of the fields that are not settled yet. */
  ghost function Unsettled(db: Db, changes: seq<Change>, restoring: bool): set<nat> {
    set i: nat | i < |changes| && Inspect(db, changes[i]) != Settled(restoring)
  }

  lemma {:induction false} ActionableCounts(db: Db, changes: seq<Change>, restoring: bool)
    ensures |Actionable(db, changes, restoring)| == |Unsettled(db, changes, restoring)|
    decreases |changes|
  {
    var s := Unsettled(db, changes, restoring);
    if changes == [] {
      assert s == {};
    } else {
      var rest := Unsettled(db, changes[1..], restoring);
      ActionableCounts(db, changes[1..], restoring);
      ShiftKeepsSize(rest);
      var shifted := Shifted(rest);
      forall i ensures i in s <==> i in shifted || (i == 0 && Inspect(db, changes[0]) != Settled(restoring)) {
        if i in s && i > 0 {
          assert i - 1 in rest;
        }
      }
      if Inspect(db, changes[0]) != Settled(restoring) {
        assert s == shifted + {0};
      } else {
        assert s == shifted;
      }
    }
  }

  lemma FullSet(s: set<nat>, n: nat)
    requires forall i: nat :: i in s <==> i < n
    ensures |s| == n
    decreases n
  {
    if n == 0 {
      assert s == {};
    } else {
      FullSet(s - {n - 1}, n - 1);
    }
  }

  // ---------------------------------------------------------------- apply

  /** An apply is declined, and then changes nothing, exactly when a check refuses it, when a takeover
      is recorded that is not this one in full, or when none can start. */
  lemma ApplyDeclinedIff(w: World, faults: seq<Fault>, q: Request)
    ensures var (w', a) := ApplySpec(w, faults, q);
            && (a == Declined ==> w' == w)
            && (a == Declined <==>
                  || !q.admitted
                  || (NothingRuns(w.state) && !Startable(w, q))
                  || (!NothingRuns(w.state) && !SameTakeover(w, q)))
  {
    if NothingRuns(w.state) {
      if Upstream(Planned(w, q), q.localPrefix) {
        OriginalIff(w.db, Planned(w, q), q.localPrefix);
      }
    } else {
      ActiveIff(w);
    }
  }

  /** The recorded takeover is in the database in full, for the same address of the router. */
  ghost predicate SameTakeover(w: World, q: Request) {
    && w.state.Some? && w.state.value.changes != []
    && TakenOver(w.db, w.state.value.changes) && w.state.value.proxy == q.proxy
  }

  lemma ActiveIff(w: World)
    requires w.state.Some?
    ensures StatusOf(w) == IsActive <==> w.state.value.changes != [] && TakenOver(w.db, w.state.value.changes)
  {
    var changes := w.state.value.changes;
    AppliedIff(w.db, changes);
    if changes != [] && AllIn(w.db, changes, Applied) {
      assert Inspect(w.db, changes[0]) == Applied;
    }
  }

  /** An apply finds its takeover active exactly when it is recorded and in the database in full for the
      same address, and the record already says so or can be written; it changes no more than the
      record's status. */
  lemma AlreadyActiveIff(w: World, faults: seq<Fault>, q: Request)
    ensures var (w', a) := ApplySpec(w, faults, q);
            && (a == AlreadyActive <==>
                  && q.admitted && !NothingRuns(w.state) && SameTakeover(w, q)
                  && (w.state.value.status == Active || Lands(w, faults)))
            && (a == AlreadyActive ==> w'.db == w.db && w'.state == Some(w.state.value.(status := Active)))
  {
    if w.state.Some? {
      ActiveIff(w);
    }
  }

  /** A first apply that is admitted, can start and meets no fault takes every collected field over:
      each holds its local URL, nothing else is touched, and the record says so. */
  lemma ApplyTakesOver(w: World, faults: seq<Fault>, q: Request)
    requires q.admitted && NothingRuns(w.state) && Startable(w, q) && DistinctRows(q.rows)
    requires w.alive && QuietFrom(faults, w.clock)
    ensures var (w', a) := ApplySpec(w, faults, q); var changes := Planned(w, q);
            && a == Completed(|changes|)
            && TakenOver(w'.db, changes) && Untouched(w.db, w'.db, changes)
            && w'.state == Some(Record(Active, changes, q.proxy))
            && (forall c | c in changes :: c.applied == q.url(c.field.key, RowOf(c.field)))
            && w'.alive && QuietFrom(faults, w'.clock)
  {
    PlanFacts(w, q);
    var changes := Planned(w, q);
    assert At(faults, w.clock) == Fine && At(faults, w.clock + 1) == Fine && At(faults, w.clock + 2) == Fine;
  }

  lemma PlanIsSound(w: World, q: Request)
    requires Startable(w, q) && DistinctRows(q.rows)
    ensures Distinct(Planned(w, q)) && AllIn(w.db, Planned(w, q), Original)
    ensures forall c | c in Planned(w, q) :: c.applied == q.url(c.field.key, RowOf(c.field))
  {
    var source := if q.snapshot.Some? then q.snapshot.value else w.db;
    CollectIsSound(source, q.rows, q.selected, q.url);
    CollectIsExact(source, q.rows, q.selected, q.url);
    OriginalIff(w.db, Planned(w, q), q.localPrefix);
  }

  lemma AllOriginalCommit(db: Db, changes: seq<Change>)
    requires Distinct(changes) && AllIn(db, changes, Original)
    ensures var r := Mutate(db, changes, false, false);
            r.Done? && r.changed == |changes| && TakenOver(r.db, changes) && Untouched(db, r.db, changes)
  {
    forall i | 0 <= i < |changes| ensures Inspect(db, changes[i]) == Original && Mutable(db, changes[i], false, false) {
    }
    MutateCommits(db, changes, false, false);
    var r := Mutate(db, changes, false, false);
    forall i | 0 <= i < |changes| ensures Get(r.db, changes[i].field) == Value(Some(changes[i].applied)) {
      AllSetAt(r.db, changes, false, i);
    }
    ActionableCounts(db, changes, false);
    FullSet(Unsettled(db, changes, false), |changes|);
  }

  lemma PlanFacts(w: World, q: Request)
    requires Startable(w, q) && DistinctRows(q.rows)
    ensures var changes := Planned(w, q); var r := Mutate(w.db, changes, false, false);
            && Distinct(changes) && AllIn(w.db, changes, Original)
            && r.Done? && r.changed == |changes| && TakenOver(r.db, changes) && Untouched(w.db, r.db, changes)
            && Verified(r.db, changes, false)
            && (forall c | c in changes :: c.applied == q.url(c.field.key, RowOf(c.field)))
  {
    PlanIsSound(w, q);
    AllOriginalCommit(w.db, Planned(w, q));
    VerificationHolds(w.db, Planned(w, q), false, false);
  }

  /** Step `t` throws and from step `from` on no other step is disturbed. */
  ghost predicate OnlyFails(faults: seq<Fault>, from: nat, t: nat) {
    At(faults, t) == Fails && forall u: nat | u >= from && u != t :: At(faults, u) == Fine
  }

  /** Which write of an apply throws decides what is left: before the transaction the database is as it
      was, and the record, if there is a new one, asks for a rollback; after it every field is taken over
      and the record still says that the apply is under way. */
  lemma FailedApply(w: World, faults: seq<Fault>, q: Request, t: nat)
    requires q.admitted && NothingRuns(w.state) && Startable(w, q) && DistinctRows(q.rows)
    requires w.alive && OnlyFails(faults, w.clock, t) && w.clock <= t < w.clock + 3
    ensures var (w', a) := ApplySpec(w, faults, q); var changes := Planned(w, q);
            && a == Failed
            && (t == w.clock ==> w'.db == w.db && w'.state == w.state)
            && (t == w.clock + 1 ==> w'.db == w.db && w'.state == Some(Record(RollbackRequired, changes, q.proxy)))
            && (t == w.clock + 2 ==> TakenOver(w'.db, changes) && Untouched(w.db, w'.db, changes)
                                     && w'.state == Some(Record(Applying, changes, q.proxy)))
  {
    PlanFacts(w, q);
  }

  // ---------------------------------------------------------------- restore

  /** Each field can be restored: it holds one of its two URLs, or anything at all under force. */
  ghost predicate Restorable(db: Db, changes: seq<Change>, force: bool) {
    forall i | 0 <= i < |changes| ::
      var current := Get(db, changes[i].field);
      current == Value(Some(changes[i].applied)) || current == Value(Some(changes[i].original)) || (force && current.Value?)
  }

  /** The fields that do not hold their original. */
  ghost function ToRestore(db: Db, changes: seq<Change>): set<nat> {
    set i: nat | i < |changes| && Get(db, changes[i].field) != Value(Some(changes[i].original))
  }

  lemma RestorableIff(db: Db, changes: seq<Change>, force: bool)
    ensures Restorable(db, changes, force) <==>
            forall i | 0 <= i < |changes| :: Inspect(db, changes[i]) == Settled(true) || Mutable(db, changes[i], true, force)
  {
    forall i | 0 <= i < |changes|
      ensures (Inspect(db, changes[i]) == Settled(true) || Mutable(db, changes[i], true, force)) <==>
              var current := Get(db, changes[i].field);
              current == Value(Some(changes[i].applied)) || current == Value(Some(changes[i].original)) || (force && current.Value?)
    {
    }
  }

  lemma UnsettledIsToRestore(db: Db, changes: seq<Change>)
    requires LoopFree(changes)
    ensures |Actionable(db, changes, true)| == |ToRestore(db, changes)|
  {
    ActionableCounts(db, changes, true);
    assert Unsettled(db, changes, true) == ToRestore(db, changes);
  }

  lemma RestoreFacts(db: Db, changes: seq<Change>, force: bool)
    requires Distinct(changes) && LoopFree(changes)
    ensures var r := Mutate(db, changes, true, force);
            && (r.Done? <==> Restorable(db, changes, force))
            && (r.Done? ==> PutBack(r.db, changes) && Untouched(db, r.db, changes) && Verified(r.db, changes, true)
                            && r.changed == |ToRestore(db, changes)|)
  {
    MutateCommits(db, changes, true, force);
    RestorableIff(db, changes, force);
    var r := Mutate(db, changes, true, force);
    if r.Done? {
      VerificationHolds(db, changes, true, force);
      UnsettledIsToRestore(db, changes);
      forall i | 0 <= i < |changes| ensures Get(r.db, changes[i].field) == Value(Some(changes[i].original)) {
        AllSetAt(r.db, changes, true, i);
      }
    }
  }

  /** A restore with nothing recorded, or refused by a check, changes nothing. One that meets no fault
      puts every field back, counts those it changed, and ends the takeover, exactly when every field can
      be restored; otherwise it changes no field and records the conflict. */
  lemma RestoreAnswers(w: World, faults: seq<Fault>, admitted: bool, force: bool)
    requires w.alive && QuietFrom(faults, w.clock)
    requires w.state.Some? ==> Distinct(w.state.value.changes) && LoopFree(w.state.value.changes)
    ensures var (w', a) := RestoreSpec(w, faults, admitted, force);
            if NothingRuns(w.state) then w' == w && a == AlreadyRestored
            else if !admitted then w' == w && a == Declined
            else
              var r := w.state.value;
              if Restorable(w.db, r.changes, force) then
                && a == Completed(|ToRestore(w.db, r.changes)|)
                && PutBack(w'.db, r.changes) && Untouched(w.db, w'.db, r.changes)
                && w'.state == Some(r.(status := Restored))
              else a == Failed && w'.db == w.db && w'.state == Some(r.(status := Conflict))
  {
    if !NothingRuns(w.state) {
      RestoreFacts(w.db, w.state.value.changes, force);
      assert At(faults, w.clock) == Fine && At(faults, w.clock + 1) == Fine && At(faults, w.clock + 2) == Fine;
    }
  }

  /** Which write of a restore throws decides what is left. */
  lemma FailedRestore(w: World, faults: seq<Fault>, force: bool, t: nat)
    requires !NothingRuns(w.state) && Distinct(w.state.value.changes) && LoopFree(w.state.value.changes)
    requires Restorable(w.db, w.state.value.changes, force)
    requires w.alive && OnlyFails(faults, w.clock, t) && w.clock <= t < w.clock + 3
    ensures var (w', a) := RestoreSpec(w, faults, true, force); var r := w.state.value;
            && a == Failed
            && (t == w.clock ==> w'.db == w.db && w'.state == w.state)
            && (t == w.clock + 1 ==> w'.db == w.db && w'.state == Some(r.(status := Conflict)))
            && (t == w.clock + 2 ==> PutBack(w'.db, r.changes) && Untouched(w.db, w'.db, r.changes)
                                     && w'.state == Some(r.(status := Restoring)))
  {
    RestoreFacts(w.db, w.state.value.changes, force);
  }
}
