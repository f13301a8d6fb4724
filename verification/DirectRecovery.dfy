/** What the takeover protocol guarantees over whole runs, and where it does not. */
module DirectRecovery {
  import opened Faults
  import opened DirectTakeover

  // ---------------------------------------------------------------- every run

  ghost predicate CoveringRun(base: map<Path, Bytes>, faults: seq<Fault>, steps: seq<(Env, Command)>) {
    forall i | 0 <= i < |steps| :: Covering(Run(Start(base), faults, steps[..i]), base, steps[i].1)
  }

  /** Crash consistency over every run: whatever commands ran, whatever writes failed and wherever
      processes died, each file holds its base content or what the record planned, a record exists
      whenever any file differs from base, and an active record means all files are as planned. */
  lemma {:induction false} EveryRunIsConsistent(base: map<Path, Bytes>, faults: seq<Fault>, steps: seq<(Env, Command)>)
    requires CoveringRun(base, faults, steps)
    ensures Consistent(Run(Start(base), faults, steps), base)
    decreases |steps|
  {
    if steps != [] {
      var n := |steps| - 1;
      forall i | 0 <= i < n ensures Covering(Run(Start(base), faults, steps[..n][..i]), base, steps[..n][i].1) {
        assert steps[..n][..i] == steps[..i];
      }
      EveryRunIsConsistent(base, faults, steps[..n]);
      assert steps[..n] == steps[..|steps| - 1];
      ExecuteKeeps(Run(Start(base), faults, steps[..n]), faults, steps[n].0, base, steps[n].1);
    }
  }

  /** A restore of the record's own snapshot may be forced. */
  predicate Unforced(c: Command) {
    (c.Snapshot? ==> !c.force) && (c.Restore? ==> !c.force || c.snapshotId.None?)
  }

  lemma UnforcedRunsCover(base: map<Path, Bytes>, faults: seq<Fault>, steps: seq<(Env, Command)>)
    requires forall i | 0 <= i < |steps| :: Unforced(steps[i].1)
    ensures CoveringRun(base, faults, steps)
  {
  }

  // ---------------------------------------------------------------- recovery

  /** In a consistent world the restore guard reduces to this: only an active record whose profile
      changed or whose credentials are gone is refused. */
  lemma AcceptedIff(w: World, env: Env, base: map<Path, Bytes>)
    requires Consistent(w, base) && w.record.Some?
    ensures RestoreAccepted(w, env, w.record.value) <==>
            !w.record.value.phase.Active? || (!ProfileDrifted(env, w.record.value) && CredentialsLive(w, env, w.record.value))
  {
    var r := w.record.value;
    if !r.phase.Active? {
      var m := w.manifests[r.snapshotId];
      forall i | 0 <= i < |r.applied|
        ensures var current := Lookup(w.files, r.applied[i].path);
                current == r.applied[i].content || Lists(m.files, r.applied[i].path, current)
      {
        var p := r.applied[i].path;
        assert p in PathsOf(m.files);
        var j :| 0 <= j < |m.files| && m.files[j].path == p;
        assert m.files[j].content == Lookup(base, p);
      }
    }
  }

  /** However many earlier restores crashed, one that is accepted and meets no further fault puts
      every file back, removes the record and leaves the takeover's credentials revoked. */
  lemma QuietRestoreCompletes(w: World, faults: seq<Fault>, env: Env, base: map<Path, Bytes>)
    requires Consistent(w, base) && w.record.Some? && QuietFrom(faults, w.clock)
    requires RestoreAccepted(w, env, w.record.value)
    ensures var w' := Execute(w, faults, env, Restore(None, false));
            && w'.files == base && w'.record.None?
            && (forall c | c in w.record.value.credentials :: c in w'.revoked)
  {
    var started := w.(alive := true);
    assert Consistent(started, base);
    var r := w.record.value;
    assert RestoreAccepted(started, env, r);
    var originals := w.manifests[r.snapshotId].files;
    RestoreRecordedKeeps(started, faults, base, originals);
    var w1 := WriteRecord(started, faults, Some(r.(phase := Restoring))).0;
    SweepEffect(w1, faults, Reversed(originals), true);
  }

  /** Even where outside edits are possible, an unforced restore is admitted only if every managed
      file still holds the planned or the snapshot contents, so it never overwrites an edit. */
  lemma UnforcedRestoreOverwritesNoEdit(w: World, env: Env, id: Option<nat>, i: nat)
    requires RestoreAdmitted(w, env, id, false) && i < |w.record.value.applied|
    ensures var rec := w.record.value.applied[i];
            Lookup(w.files, rec.path) == rec.content ||
            (w.record.value.snapshotId in w.manifests &&
             Lists(w.manifests[w.record.value.snapshotId].files, rec.path, Lookup(w.files, rec.path)))
  {
    assert RestoreAccepted(w, env, w.record.value);
  }

  // ---------------------------------------------------------------- crashes without failed writes

  /** The credentials of an active record are still good in the store. */
  ghost predicate ActiveUnrevoked(w: World) {
    w.record.Some? && w.record.value.phase.Active? ==> forall c | c in w.record.value.credentials :: c !in w.revoked
  }

  lemma {:induction false} SweepDead(w: World, faults: seq<Fault>, recs: seq<FileRecord>, stop: bool)
    requires !w.alive
    ensures var w' := Sweep(w, faults, recs, stop).0; w' == w.(clock := w'.clock)
    decreases |recs|
  {
    if recs != [] {
      SweepDead(Put(w, faults, recs[0]).0, faults, recs[1..], stop);
    }
  }

  /** Without failed writes a sweep stops only because the process died. */
  lemma {:induction false} SweepStopsDead(w: World, faults: seq<Fault>, recs: seq<FileRecord>)
    requires CrashOnly(faults)
    ensures var (w', ok) := Sweep(w, faults, recs, true); ok || !w'.alive
    decreases |recs|
  {
    if recs != [] {
      SweepStopsDead(Put(w, faults, recs[0]).0, faults, recs[1..]);
    }
  }

  lemma DeadUndo(w: World, faults: seq<Fault>, r: Record, originals: seq<FileRecord>)
    requires !w.alive
    ensures var w' := UndoApply(w, faults, r, originals); w' == w.(clock := w'.clock)
  {
    SweepDead(Revoke(w, faults, r.credentials).0, faults, Reversed(originals), false);
  }

  lemma WriteFilesKeepUnrevoked(w: World, faults: seq<Fault>, r: Record, originals: seq<FileRecord>)
    requires CrashOnly(faults) && w.record.None? && r.phase.Applying? && forall c | c in r.credentials :: c !in w.revoked
    ensures ActiveUnrevoked(WriteFiles(w, faults, r, originals).0)
  {
    var (w1, recorded) := WriteRecord(w, faults, Some(r));
    var (w2, written) := Sweep(w1, faults, r.applied, true);
    SweepEffect(w1, faults, r.applied, true);
    SweepStopsDead(w1, faults, r.applied);
    if !written {
      DeadUndo(w2, faults, r, originals);
    } else {
      var (w3, active) := WriteRecord(w2, faults, Some(r.(phase := Active)));
      if !active {
        DeadUndo(w3, faults, r, originals);
      }
    }
  }

  lemma ApplyKeepsUnrevoked(w: World, faults: seq<Fault>, env: Env, base: map<Path, Bytes>, c: Command)
    requires CrashOnly(faults) && Consistent(w, base) && ActiveUnrevoked(w) && c.Apply?
    ensures ActiveUnrevoked(ApplySpec(w, faults, env, c).0)
  {
    if c.profileId in env.profiles && w.record.None? {
      var (w1, id) := if c.snapshotId.Some? then (w, c.snapshotId) else TakeSnapshot(w, faults, env, c.profileId, c.targets, false);
      if id.Some? && ApplyAdmitted(w1, env, c.profileId, id.value, c.targets) && Lands(w1, faults) && PlanMatches(c.targets, c.plan) {
        WriteFilesKeepUnrevoked(Tick(w1, faults).(nextCredential := w1.nextCredential + c.routes), faults,
          Record(Applying, c.profileId, env.profiles[c.profileId], id.value, Fresh(w1, c.routes), c.plan),
          w1.manifests[id.value].files);
      }
    }
  }

  lemma RestoreKeepsUnrevoked(w: World, faults: seq<Fault>, originals: seq<FileRecord>)
    requires CrashOnly(faults) && ActiveUnrevoked(w)
    ensures ActiveUnrevoked(RestoreFiles(w, faults, originals).0)
  {
    var (w1, marked) := if w.record.Some? then WriteRecord(w, faults, Some(w.record.value.(phase := Restoring))) else (w, true);
    var (w2, restored) := Sweep(w1, faults, Reversed(originals), true);
    SweepEffect(w1, faults, Reversed(originals), true);
    SweepStopsDead(w1, faults, Reversed(originals));
    if w.record.Some? && marked && !restored {
      SweepDead(w2, faults, w.record.value.applied, false);
    }
  }

  lemma ExecuteKeepsUnrevoked(w: World, faults: seq<Fault>, env: Env, base: map<Path, Bytes>, c: Command)
    requires CrashOnly(faults) && Consistent(w, base) && ActiveUnrevoked(w)
    ensures ActiveUnrevoked(Execute(w, faults, env, c))
  {
    var started := w.(alive := true);
    match c
    case Snapshot(_, _, _) =>
    case Apply(_, _, _, _, _) => ApplyKeepsUnrevoked(started, faults, env, base, c);
    case Restore(snapshotId, force) =>
      if RestoreAdmitted(started, env, snapshotId, force) {
        var id := if snapshotId.Some? then snapshotId.value else started.record.value.snapshotId;
        RestoreKeepsUnrevoked(started, faults, started.manifests[id].files);
      }
  }

  lemma {:induction false} CrashOnlyRuns(base: map<Path, Bytes>, faults: seq<Fault>, steps: seq<(Env, Command)>)
    requires CrashOnly(faults) && CoveringRun(base, faults, steps)
    ensures ActiveUnrevoked(Run(Start(base), faults, steps))
    decreases |steps|
  {
    if steps != [] {
      var n := |steps| - 1;
      forall i | 0 <= i < n ensures Covering(Run(Start(base), faults, steps[..n][..i]), base, steps[..n][i].1) {
        assert steps[..n][..i] == steps[..i];
      }
      CrashOnlyRuns(base, faults, steps[..n]);
      EveryRunIsConsistent(base, faults, steps[..n]);
      ExecuteKeepsUnrevoked(Run(Start(base), faults, steps[..n]), faults, steps[n].0, base, steps[n].1);
    }
  }

  /** If no write ever threw, then whatever crashed, an unforced restore is accepted as long as the
      profile is unchanged and the credentials neither expired nor purged. */
  lemma {:induction false} CrashesNeverBlockRestore(base: map<Path, Bytes>, faults: seq<Fault>, steps: seq<(Env, Command)>, env: Env)
    requires CrashOnly(faults) && CoveringRun(base, faults, steps)
    requires Run(Start(base), faults, steps).record.Some?
    requires var r := Run(Start(base), faults, steps).record.value;
             !ProfileDrifted(env, r) && forall c | c in r.credentials :: c !in env.stale
    ensures RestoreAccepted(Run(Start(base), faults, steps), env, Run(Start(base), faults, steps).record.value)
  {
    EveryRunIsConsistent(base, faults, steps);
    CrashOnlyRuns(base, faults, steps);
    AcceptedIff(Run(Start(base), faults, steps), env, base);
  }

  /** So after any run of crashes, however many of them struck earlier restores, one unforced restore
      that meets no further fault puts every file back and removes the record. */
  lemma {:induction false} EveryCrashedRunRestores(base: map<Path, Bytes>, faults: seq<Fault>, steps: seq<(Env, Command)>, env: Env)
    requires CrashOnly(faults) && CoveringRun(base, faults, steps)
    requires QuietFrom(faults, Run(Start(base), faults, steps).clock)
    requires Run(Start(base), faults, steps).record.Some?
    requires !ProfileDrifted(env, Run(Start(base), faults, steps).record.value)
    requires forall c | c in Run(Start(base), faults, steps).record.value.credentials :: c !in env.stale
    ensures var w := Execute(Run(Start(base), faults, steps), faults, env, Restore(None, false));
            w.files == base && w.record.None?
  {
    EveryRunIsConsistent(base, faults, steps);
    CrashesNeverBlockRestore(base, faults, steps, env);
    QuietRestoreCompletes(Run(Start(base), faults, steps), faults, env, base);
  }

  // One file "f", one profile "p", one credential: the witness that failed writes matter.
  const QUIET_ENV := Env(map["p" := "h"], {})
  const PLAN := [FileRecord("f", Some("new"))]
  const MANIFEST := Manifest("p", "h", [FileRecord("f", Some("old"))])
  const ACTIVE := Record(Active, "p", "h", 0, [0], PLAN)
  const APPLY_F := Apply("p", None, ["f"], PLAN, 1)
  const FAULTS := [Fine, Fine, Fine, Fine, Fine, Fine, Fine, Fine, Dies, Fine, Fails]
  const APPLIED := World(map["f" := "new"], Some(ACTIVE), map[0 := MANIFEST], 1, 1, {}, 5, true)
  const CRASHED := World(map["f" := "old"], Some(ACTIVE.(phase := Restoring)), map[0 := MANIFEST], 1, 1, {0}, 9, false)

  lemma ExampleApply()
    ensures Execute(Start(map["f" := "old"]), FAULTS, QUIET_ENV, APPLY_F) == APPLIED
  {
    var w0 := Start(map["f" := "old"]);
    assert ReadRecords(w0, ["f"]) == [FileRecord("f", Some("old"))];
    var snapped := World(w0.files, None, map[0 := MANIFEST], 1, 0, {}, 1, true);
    assert TakeSnapshot(w0, FAULTS, QUIET_ENV, "p", ["f"], false) == (snapped, Some(0));
    assert MANIFEST.files[0].path == "f" && PLAN[0].path == "f";
    assert PathsOf(MANIFEST.files) == {"f"} && PathsOf(PLAN) == {"f"} && (set p | p in ["f"]) == {"f"};
    assert Fresh(snapped, 1) == [0];
  }

  lemma ExampleCrashedRestore()
    ensures Execute(APPLIED, FAULTS, QUIET_ENV, Restore(None, false)) == CRASHED
  {
    assert Reversed(MANIFEST.files) == MANIFEST.files && (set c | c in [0]) == {0};
    assert RestoreAccepted(APPLIED, QUIET_ENV, ACTIVE);
    assert Store(APPLIED.files, MANIFEST.files[0]) == CRASHED.files;
    assert Sweep(APPLIED.(record := Some(ACTIVE.(phase := Restoring)), clock := 6), FAULTS, MANIFEST.files, true)
           == (CRASHED.(clock := 7, alive := true, revoked := {}), true);
  }

  /** A restore that fails on its first file and then rolls forward re-activates a record whose
      credentials an earlier crashed restore already revoked; no unforced restore is accepted then. */
  lemma RollForwardReopens(w: World, faults: seq<Fault>, env: Env, base: map<Path, Bytes>, c: nat)
    requires Consistent(w, base) && w.record.Some? && w.record.value.phase.Restoring?
    requires c in w.record.value.credentials && c in w.revoked
    requires var files := w.manifests[w.record.value.snapshotId].files; files != [] && files[|files| - 1].content.Some?
    requires At(faults, w.clock).Fine? && At(faults, w.clock + 1).Fails? && QuietFrom(faults, w.clock + 2)
    ensures var w' := Execute(w, faults, env, Restore(None, false));
            && w'.record == Some(w.record.value.(phase := Active)) && AllPlanned(w', w.record.value)
            && !RestoreAccepted(w', env, w'.record.value)
  {
    var r := w.record.value;
    var started := w.(alive := true);
    assert Consistent(started, base);
    AcceptedIff(started, env, base);
    var originals := Reversed(w.manifests[r.snapshotId].files);
    var w1 := WriteRecord(started, faults, Some(r)).0;
    var w2 := w1.(clock := w1.clock + 1);
    assert Sweep(w1, faults, originals, true) == (w2, false);
    SweepEffect(w2, faults, r.applied, false);
    SweepMixed(w2, faults, base, r.applied, r.applied, false);
  }

  const TWICE := [(QUIET_ENV, APPLY_F), (QUIET_ENV, Restore(None, false)), (QUIET_ENV, Restore(None, false))]

  lemma ExampleCrashedRun()
    ensures Run(Start(map["f" := "old"]), FAULTS, TWICE[..2]) == CRASHED
  {
    ExampleApply();
    ExampleCrashedRestore();
    assert TWICE[..2][..1] == TWICE[..1] && TWICE[..1][..0] == [];
    assert Run(Start(map["f" := "old"]), FAULTS, TWICE[..1]) == APPLIED;
  }

  lemma ExampleRollForward()
    ensures var w := Execute(CRASHED, FAULTS, QUIET_ENV, Restore(None, false));
            w.record == Some(ACTIVE) && AllPlanned(w, ACTIVE) && !RestoreAccepted(w, QUIET_ENV, ACTIVE)
  {
    ExampleCrashedRun();
    UnforcedRunsCover(map["f" := "old"], FAULTS, TWICE[..2]);
    EveryRunIsConsistent(map["f" := "old"], FAULTS, TWICE[..2]);
    RollForwardReopens(CRASHED, FAULTS, QUIET_ENV, map["f" := "old"], 0);
  }

  /** The claim above needs the absence of failed writes: a restore that crashed after revoking,
      then one that failed and rolled forward, leave an active record with revoked credentials, and
      the next unforced restore is refused although profile and credentials never went stale. */
  lemma FailedWriteBlocksRestore()
    ensures var w := Run(Start(map["f" := "old"]), FAULTS, TWICE);
            && CoveringRun(map["f" := "old"], FAULTS, TWICE)
            && w.record == Some(ACTIVE) && AllPlanned(w, ACTIVE)
            && !ProfileDrifted(QUIET_ENV, ACTIVE) && QUIET_ENV.stale == {}
            && !RestoreAccepted(w, QUIET_ENV, ACTIVE)
  {
    ExampleCrashedRun();
    ExampleRollForward();
    UnforcedRunsCover(map["f" := "old"], FAULTS, TWICE);
  }

  /** A quiet sweep of base contents leaves every listed file at its base content and no other
      file changed. */
  lemma {:induction false} QuietSweepToBase(w: World, faults: seq<Fault>, base: map<Path, Bytes>, recs: seq<FileRecord>)
    requires w.alive && QuietFrom(faults, w.clock) && BaseContents(recs, base)
    ensures var w' := Sweep(w, faults, recs, true).0;
            && w' == w.(files := w'.files, clock := w'.clock)
            && forall p :: Lookup(w'.files, p) == if p in PathsOf(recs) then Lookup(base, p) else Lookup(w.files, p)
  {
    SweepEffect(w, faults, recs, true);
  }

  lemma RestoreFilesQuiet(w: World, faults: seq<Fault>, base: map<Path, Bytes>, originals: seq<FileRecord>)
    requires w.alive && w.record.Some? && QuietFrom(faults, w.clock) && BaseContents(originals, base)
    ensures var w' := RestoreFiles(w, faults, originals).0;
            && w' == w.(files := w'.files, record := None, revoked := w'.revoked, clock := w'.clock)
            && w'.revoked == w.revoked + (set c | c in w.record.value.credentials)
            && forall p :: Lookup(w'.files, p) == if p in PathsOf(originals) then Lookup(base, p) else Lookup(w.files, p)
  {
    var w1 := WriteRecord(w, faults, Some(w.record.value.(phase := Restoring))).0;
    ReversedBase(originals, base);
    QuietSweepToBase(w1, faults, base, Reversed(originals));
    SweepEffect(w1, faults, Reversed(originals), true);
    EndTakeoverQuiet(Sweep(w1, faults, Reversed(originals), true).0, faults, w.record.value.credentials);
  }

  lemma EndTakeoverQuiet(w: World, faults: seq<Fault>, ids: seq<nat>)
    requires w.alive && QuietFrom(faults, w.clock)
    ensures var (w', outcome) := EndTakeover(w, faults, ids);
            outcome.Succeeded? && w' == w.(record := None, revoked := w.revoked + (set c | c in ids), clock := w'.clock)
  {
    if ids == [] {
      assert w.revoked + (set c | c in ids) == w.revoked;
    }
  }

  lemma ForcedRestoreQuiet(w: World, faults: seq<Fault>, env: Env, base: map<Path, Bytes>, id: nat)
    requires Consistent(w, base) && w.record.Some? && QuietFrom(faults, w.clock) && id in w.manifests
    ensures var w' := Execute(w, faults, env, Restore(Some(id), true));
            && (Consistent(w', base) <==> w'.files == base)
            && forall p :: Lookup(w'.files, p) ==
                 if p in PathsOf(w.manifests[id].files) then Lookup(base, p) else Lookup(w.files, p)
  {
    RestoreFilesQuiet(w.(alive := true), faults, base, w.manifests[id].files);
    assert RestoreAdmitted(w.(alive := true), env, Some(id), true);
  }

  /** A forced restore of another snapshot drops the record, so it stays consistent exactly when the
      applied files that snapshot does not list are already back at their base content. */
  lemma ForcedRestoreIff(w: World, faults: seq<Fault>, env: Env, base: map<Path, Bytes>, id: nat)
    requires Consistent(w, base) && w.record.Some? && QuietFrom(faults, w.clock) && id in w.manifests
    ensures Consistent(Execute(w, faults, env, Restore(Some(id), true)), base) <==>
            forall i | 0 <= i < |w.record.value.applied| ::
              var p := w.record.value.applied[i].path;
              p in PathsOf(w.manifests[id].files) || Lookup(w.files, p) == Lookup(base, p)
  {
    ForcedRestoreQuiet(w, faults, env, base, id);
    var r := w.record.value;
    var w' := Execute(w, faults, env, Restore(Some(id), true));
    var listed := PathsOf(w.manifests[id].files);
    if forall i | 0 <= i < |r.applied| :: r.applied[i].path in listed || Lookup(w.files, r.applied[i].path) == Lookup(base, r.applied[i].path) {
      forall p ensures Lookup(w'.files, p) == Lookup(base, p) {
        if Lookup(w.files, p) != Lookup(base, p) {
          var i :| 0 <= i < |r.applied| && r.applied[i].path == p;
        }
      }
      SameFiles(w'.files, base);
    }
  }

  // A profile that gains a role between a snapshot and the takeover: "c" is its configuration file and
  // "a" the file of the new role.
  const BEFORE_ENV := Env(map["p" := "h0"], {})
  const AFTER_ENV := Env(map["p" := "h1"], {})
  const FIRST := Manifest("p", "h0", [FileRecord("c", Some("old"))])
  const SECOND := Manifest("p", "h1", [FileRecord("c", Some("old")), FileRecord("a", None)])
  const BOTH := [FileRecord("c", Some("new")), FileRecord("a", Some("new"))]
  const SNAPPED := World(map["c" := "old"], None, map[0 := FIRST], 1, 0, {}, 1, true)
  const TAKEN := World(map["c" := "new", "a" := "new"], Some(Record(Active, "p", "h1", 1, [0], BOTH)),
                       map[0 := FIRST, 1 := SECOND], 2, 1, {}, 7, true)

  const EXAMPLE_STEPS := [(BEFORE_ENV, Snapshot("p", ["c"], false)), (AFTER_ENV, Apply("p", None, ["c", "a"], BOTH, 1)),
                          (AFTER_ENV, Restore(Some(0), true))]

  lemma ExampleSnapshot()
    ensures Execute(Start(map["c" := "old"]), [], BEFORE_ENV, Snapshot("p", ["c"], false)) == SNAPPED
  {
    assert ReadRecords(Start(map["c" := "old"]), ["c"]) == [FileRecord("c", Some("old"))];
  }

  lemma ExampleSecondSnapshot()
    ensures TakeSnapshot(SNAPPED, [], AFTER_ENV, "p", ["c", "a"], false)
            == (SNAPPED.(manifests := map[0 := FIRST, 1 := SECOND], nextSnapshot := 2, clock := 2), Some(1))
  {
    assert ReadRecords(SNAPPED, ["c", "a"]) == [FileRecord("c", Some("old")), FileRecord("a", None)];
  }

  lemma ExampleWrites(w: World)
    requires w.alive && w.files == map["c" := "old"]
    ensures Sweep(w, [], BOTH, true) == (w.(files := map["c" := "new", "a" := "new"], clock := w.clock + 2), true)
  {
    var w1 := Put(w, [], BOTH[0]).0;
    assert w1 == w.(files := map["c" := "new"], clock := w.clock + 1);
    assert Put(w1, [], BOTH[1]) == (w1.(files := map["c" := "new", "a" := "new"], clock := w.clock + 2), true);
    assert BOTH[1..] == [BOTH[1]] && BOTH[1..][1..] == [];
    assert Sweep(w1, [], BOTH[1..], true) == Put(w1, [], BOTH[1]);
  }

  lemma ExamplePaths()
    ensures PathsOf(SECOND.files) == {"c", "a"} && PathsOf(BOTH) == {"c", "a"} && (set p | p in ["c", "a"]) == {"c", "a"}
    ensures PathsOf(FIRST.files) == {"c"}
  {
    assert SECOND.files[0].path == "c" && SECOND.files[1].path == "a" && BOTH[0].path == "c" && BOTH[1].path == "a";
    assert ["c", "a"][0] == "c" && ["c", "a"][1] == "a" && FIRST.files[0].path == "c";
  }

  lemma ExampleTakeover()
    ensures Execute(SNAPPED, [], AFTER_ENV, Apply("p", None, ["c", "a"], BOTH, 1)) == TAKEN
  {
    ExampleSecondSnapshot();
    ExamplePaths();
    var w := SNAPPED.(manifests := map[0 := FIRST, 1 := SECOND], nextSnapshot := 2, clock := 2);
    assert Fresh(w, 1) == [0];
    assert ApplyAdmitted(w, AFTER_ENV, "p", 1, ["c", "a"]) && PlanMatches(["c", "a"], BOTH);
    ExampleWrites(w.(record := Some(Record(Applying, "p", "h1", 1, [0], BOTH)), nextCredential := 1, clock := 4));
  }

  lemma ExampleRun()
    ensures Run(Start(map["c" := "old"]), [], EXAMPLE_STEPS[..2]) == TAKEN
  {
    var base := map["c" := "old"];
    assert EXAMPLE_STEPS[..2][..1] == EXAMPLE_STEPS[..1] && EXAMPLE_STEPS[..1][..0] == [];
    ExampleSnapshot();
    ExampleTakeover();
    assert Run(Start(base), [], EXAMPLE_STEPS[..1]) == SNAPPED;
  }

  lemma ExampleTakeoverIsConsistent()
    ensures Consistent(TAKEN, map["c" := "old"])
  {
    ExampleRun();
    UnforcedRunsCover(map["c" := "old"], [], EXAMPLE_STEPS[..2]);
    EveryRunIsConsistent(map["c" := "old"], [], EXAMPLE_STEPS[..2]);
  }

  lemma ExampleForcedRestore()
    ensures var w := Execute(TAKEN, [], AFTER_ENV, Restore(Some(0), true));
            w.record.None? && Lookup(w.files, "a") == Some("new") && Lookup(w.files, "c") == Some("old")
  {
    ExampleTakeoverIsConsistent();
    ExamplePaths();
    ForcedRestoreQuiet(TAKEN, [], AFTER_ENV, map["c" := "old"], 0);
    RestoreFilesQuiet(TAKEN, [], map["c" := "old"], FIRST.files);
    assert RestoreAdmitted(TAKEN, AFTER_ENV, Some(0), true) && TAKEN.(alive := true) == TAKEN;
  }

  /** Such a run: after a snapshot the profile gains a role, and a takeover writes that role's file too;
      the forced restore of the first snapshot leaves it taken over with no record of it. */
  lemma ForcedRestoreStrandsTakeover()
    ensures var base := map["c" := "old"];
            var w := Run(Start(base), [], EXAMPLE_STEPS);
            w.record.None? && Lookup(w.files, "a") == Some("new") && Lookup(w.files, "c") == Some("old") && !Consistent(w, base)
  {
    ExampleRun();
    ExampleForcedRestore();
  }

  // ---------------------------------------------------------------- snapshots of a takeover

  /** A snapshot that is forced while a takeover is active keeps the invariant exactly when the files it
      reads hold their base content: otherwise it records taken-over contents as originals. */
  lemma ForcedSnapshotIff(w: World, faults: seq<Fault>, env: Env, base: map<Path, Bytes>, profileId: string, targets: seq<Path>)
    requires Consistent(w, base) && profileId in env.profiles && Lands(w.(alive := true), faults)
    ensures Consistent(Execute(w, faults, env, Snapshot(profileId, targets, true)), base) <==> AtBase(w, base, targets)
  {
    var started := w.(alive := true);
    var w' := Execute(w, faults, env, Snapshot(profileId, targets, true));
    if AtBase(w, base, targets) {
      TakeSnapshotKeeps(started, faults, env, base, profileId, targets, true);
    } else {
      var p :| p in targets && Lookup(w.files, p) != Lookup(base, p);
      var i :| 0 <= i < |targets| && targets[i] == p;
      assert w'.manifests[w.nextSnapshot].files[i] == FileRecord(p, Lookup(w.files, p));
    }
  }

  /** A later forced restore of such a snapshot puts its files back to what they held when it was taken,
      drops whatever record there is, and touches nothing else. */
  lemma ForcedSnapshotComesBack(w: World, targets: seq<Path>, later: World, faults: seq<Fault>, env: Env, id: nat)
    requires id in later.manifests && later.manifests[id].files == ReadRecords(w, targets) && QuietFrom(faults, later.clock)
    ensures var w' := Execute(later, faults, env, Restore(Some(id), true));
            && w'.record.None?
            && forall p :: Lookup(w'.files, p) == Lookup(if p in targets then w.files else later.files, p)
  {
    var records := ReadRecords(w, targets);
    assert forall i | 0 <= i < |targets| :: records[i].path == targets[i];
    assert forall p :: p in PathsOf(records) <==> p in targets;
    var started := later.(alive := true);
    if later.record.Some? {
      RestoreFilesQuiet(started, faults, w.files, records);
    } else {
      ReversedBase(records, w.files);
      QuietSweepToBase(started, faults, w.files, Reversed(records));
      SweepEffect(started, faults, Reversed(records), true);
    }
    assert RestoreAdmitted(started, env, Some(id), true);
  }

  /** So once the takeover itself is over, restoring a snapshot taken of it brings the taken-over
      contents back with no record of them, unless there were none. */
  lemma RestoringATakeoverStrandsIff(w: World, targets: seq<Path>, later: World, faults: seq<Fault>, env: Env, base: map<Path, Bytes>, id: nat)
    requires id in later.manifests && later.manifests[id].files == ReadRecords(w, targets) && QuietFrom(faults, later.clock)
    requires later.files == base
    ensures var w' := Execute(later, faults, env, Restore(Some(id), true));
            w'.record.None? && (w'.files == base <==> AtBase(w, base, targets))
  {
    ForcedSnapshotComesBack(w, targets, later, faults, env, id);
    var w' := Execute(later, faults, env, Restore(Some(id), true));
    if AtBase(w, base, targets) {
      SameFiles(w'.files, base);
    }
  }
}
