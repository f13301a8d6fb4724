/** What the takeover commands answer, and what they leave (lib/direct-cli-config/index.js 216-237,
    334-525): in every world, whether or not an earlier run kept it consistent. */
module DirectApply {
  import opened Faults
  import opened DirectTakeover
  import opened DirectRecovery

  // ---------------------------------------------------------------- when apply refuses

  /** The records are about these paths and no others. */
  ghost predicate About(recs: seq<FileRecord>, targets: seq<Path>) {
    forall p :: p in targets <==> exists i | 0 <= i < |recs| :: recs[i].path == p
  }

  /** The snapshot is of this profile as it is now, and every file still is as the snapshot has it. */
  ghost predicate SnapshotFits(w: World, env: Env, c: Command, id: nat)
    requires c.Apply?
  {
    && c.profileId in env.profiles && id in w.manifests
    && w.manifests[id].profileId == c.profileId && w.manifests[id].profileHash == env.profiles[c.profileId]
    && About(w.manifests[id].files, c.targets)
    && forall i | 0 <= i < |w.manifests[id].files| ::
         Lookup(w.files, w.manifests[id].files[i].path) == w.manifests[id].files[i].content
  }

  /** The plan writes each of the target files once. */
  ghost predicate PlanFits(c: Command)
    requires c.Apply?
  {
    && About(c.plan, c.targets)
    && (forall i, j | 0 <= i < j < |c.plan| :: c.plan[i].path != c.plan[j].path)
    && forall i | 0 <= i < |c.plan| :: c.plan[i].content.Some?
  }

  lemma AboutPaths(recs: seq<FileRecord>, targets: seq<Path>)
    ensures About(recs, targets) <==> PathsOf(recs) == (set p | p in targets)
  {
    assert forall p :: p in PathsOf(recs) <==> exists i | 0 <= i < |recs| :: recs[i].path == p;
    assert forall p :: p in (set q | q in targets) <==> p in targets;
    if About(recs, targets) {
      forall p ensures p in PathsOf(recs) <==> p in targets {
      }
    } else {
      var p :| (p in targets) != (exists i | 0 <= i < |recs| :: recs[i].path == p);
      assert (p in PathsOf(recs)) != (p in (set q | q in targets));
    }
  }

  /** An apply from a named snapshot is refused, and then writes nothing at all, exactly when the
      snapshot does not fit: a file edited since, another profile, a changed profile, other files. */
  lemma ApplyRefusedIff(w: World, faults: seq<Fault>, env: Env, c: Command, id: nat)
    requires c.Apply? && c.snapshotId == Some(id) && w.record.None?
    ensures ApplySpec(w, faults, env, c) == (w, Refused) <==> !SnapshotFits(w, env, c, id)
  {
    if id in w.manifests {
      AboutPaths(w.manifests[id].files, c.targets);
    }
  }

  /** While a takeover is recorded, apply writes nothing; it reports the takeover as active exactly when
      it is of this profile, unchanged, with every file as planned and every credential live. */
  lemma ApplyDuringTakeover(w: World, faults: seq<Fault>, env: Env, c: Command)
    requires c.Apply? && w.record.Some?
    ensures var r := w.record.value;
            var intact := && r.profileId == c.profileId
                          && c.profileId in env.profiles && env.profiles[c.profileId] == r.profileHash
                          && (forall i | 0 <= i < |r.applied| :: Lookup(w.files, r.applied[i].path) == r.applied[i].content)
                          && (forall k | k in r.credentials :: k !in w.revoked && k !in env.stale);
            ApplySpec(w, faults, env, c) == (w, if intact then AlreadyActive else Refused)
  {
  }

  // ---------------------------------------------------------------- an undisturbed apply

  /** The files are as the plan says, and no other file changed. */
  ghost predicate PlanWritten(before: map<Path, Bytes>, after: map<Path, Bytes>, plan: seq<FileRecord>, targets: seq<Path>) {
    && (forall i | 0 <= i < |plan| :: Lookup(after, plan[i].path) == plan[i].content)
    && (forall p | p !in targets :: Lookup(after, p) == Lookup(before, p))
  }

  lemma SweepWritesPlan(w: World, faults: seq<Fault>, plan: seq<FileRecord>, targets: seq<Path>)
    requires w.alive && QuietFrom(faults, w.clock) && About(plan, targets) && Distinct(plan)
    ensures var (w', ok) := Sweep(w, faults, plan, true);
            ok && w' == w.(files := w'.files, clock := w'.clock) && w.clock <= w'.clock && PlanWritten(w.files, w'.files, plan, targets)
  {
    SweepEffect(w, faults, plan, true);
    var w' := Sweep(w, faults, plan, true).0;
    forall i | 0 <= i < |plan| ensures Lookup(w'.files, plan[i].path) == plan[i].content {
      assert plan[i].path in PathsOf(plan);
    }
    forall p | p !in targets ensures Lookup(w'.files, p) == Lookup(w.files, p) {
      assert !Lists(plan, p, Lookup(w'.files, p));
    }
  }

  /** An apply whose snapshot and plan fit and that meets no fault succeeds: the planned files are
      written and nothing else is, and the active record names the snapshot, the plan and the fresh
      credentials. */
  lemma ApplyCompletes(w: World, faults: seq<Fault>, env: Env, c: Command, id: nat)
    requires c.Apply? && c.snapshotId == Some(id) && w.record.None? && SnapshotFits(w, env, c, id) && PlanFits(c)
    requires w.alive && QuietFrom(faults, w.clock)
    ensures var (w', a) := ApplySpec(w, faults, env, c);
            var credentials := seq(c.routes, k => w.nextCredential + k);
            && a == Succeeded && PlanWritten(w.files, w'.files, c.plan, c.targets)
            && w' == w.(files := w'.files, clock := w'.clock, nextCredential := w.nextCredential + c.routes,
                        record := Some(Record(Active, c.profileId, env.profiles[c.profileId], id, credentials, c.plan)))
            && w.clock <= w'.clock
  {
    AboutPaths(w.manifests[id].files, c.targets);
    AboutPaths(c.plan, c.targets);
    var w1 := w.(clock := w.clock + 1, nextCredential := w.nextCredential + c.routes);
    var r := Record(Applying, c.profileId, env.profiles[c.profileId], id, Fresh(w, c.routes), c.plan);
    var w2 := w1.(record := Some(r), clock := w1.clock + 1);
    assert WriteRecord(w1, faults, Some(r)) == (w2, true);
    SweepWritesPlan(w2, faults, c.plan, c.targets);
    assert Fresh(w, c.routes) == seq(c.routes, k => w.nextCredential + k);
    assert ApplySpec(w, faults, env, c) == WriteFiles(w1, faults, r, w.manifests[id].files);
  }

  /** A plan for other files is refused before any file or the record is touched, and the credentials
      issued for it are revoked. */
  lemma UnfitPlanIsRefused(w: World, faults: seq<Fault>, env: Env, c: Command, id: nat)
    requires c.Apply? && c.snapshotId == Some(id) && w.record.None? && SnapshotFits(w, env, c, id) && !PlanFits(c)
    requires w.alive && QuietFrom(faults, w.clock)
    ensures var (w', a) := ApplySpec(w, faults, env, c);
            && a == Refused && w'.files == w.files && w'.record.None?
            && forall k | w.nextCredential <= k < w'.nextCredential :: k in w'.revoked
  {
    AboutPaths(w.manifests[id].files, c.targets);
    AboutPaths(c.plan, c.targets);
    var creds := Fresh(w, c.routes);
    var w1 := w.(clock := w.clock + 1, nextCredential := w.nextCredential + c.routes);
    assert ApplySpec(w, faults, env, c) == (Revoke(w1, faults, creds).0, Refused);
    forall k | w.nextCredential <= k < w.nextCredential + c.routes ensures k in creds {
      assert creds[k - w.nextCredential] == k;
    }
  }

  /** What a snapshot records: the profile as it is and the target files' contents. It is refused, and
      changes nothing, for an unknown profile or during a takeover it is not forced over. */
  lemma SnapshotRecords(w: World, faults: seq<Fault>, env: Env, profileId: string, targets: seq<Path>, force: bool)
    requires w.alive && QuietFrom(faults, w.clock)
    ensures var (w', id) := TakeSnapshot(w, faults, env, profileId, targets, force);
            if profileId in env.profiles && (w.record.None? || force) then
              && id == Some(w.nextSnapshot)
              && w' == w.(clock := w.clock + 1, nextSnapshot := w.nextSnapshot + 1, manifests := w'.manifests)
              && w'.manifests.Keys == w.manifests.Keys + {w.nextSnapshot}
              && (forall k | k in w.manifests && k != w.nextSnapshot :: w'.manifests[k] == w.manifests[k])
              && var m := w'.manifests[w.nextSnapshot];
              && m.profileId == profileId && m.profileHash == env.profiles[profileId] && |m.files| == |targets|
              && (forall i | 0 <= i < |targets| :: m.files[i] == FileRecord(targets[i], Lookup(w.files, targets[i])))
            else w' == w && id.None?
  {
  }

  /** An apply without a snapshot takes one first, and that snapshot fits. */
  lemma ApplyTakesItsOwnSnapshot(w: World, faults: seq<Fault>, env: Env, c: Command)
    requires c.Apply? && c.snapshotId.None? && w.record.None? && c.profileId in env.profiles
    requires w.alive && QuietFrom(faults, w.clock)
    ensures var w1 := TakeSnapshot(w, faults, env, c.profileId, c.targets, false).0;
            var named := Apply(c.profileId, Some(w.nextSnapshot), c.targets, c.plan, c.routes);
            && w1.files == w.files && w1.record.None? && w1.alive && w1.clock == w.clock + 1
            && w1.nextCredential == w.nextCredential && w1.revoked == w.revoked
            && SnapshotFits(w1, env, named, w.nextSnapshot)
            && ApplySpec(w, faults, env, c) == ApplySpec(w1, faults, env, named)
  {
    SnapshotRecords(w, faults, env, c.profileId, c.targets, false);
    var w1 := TakeSnapshot(w, faults, env, c.profileId, c.targets, false).0;
    var m := w1.manifests[w.nextSnapshot];
    forall p ensures p in c.targets <==> exists i | 0 <= i < |m.files| :: m.files[i].path == p {
      if p in c.targets {
        var i :| 0 <= i < |c.targets| && c.targets[i] == p;
        assert m.files[i].path == p;
      }
    }
  }

  // ---------------------------------------------------------------- and back

  /** An undisturbed restore after an undisturbed apply gives back exactly the files the apply started
      from, removes the record and revokes the credentials. Unforced, it needs their ids to be fresh. */
  lemma RestoreUndoesApply(w: World, faults: seq<Fault>, env: Env, c: Command, id: nat, force: bool)
    requires c.Apply? && c.snapshotId == Some(id) && w.record.None? && SnapshotFits(w, env, c, id) && PlanFits(c)
    requires w.alive && QuietFrom(faults, w.clock)
    requires force || forall k | w.nextCredential <= k :: k !in w.revoked && k !in env.stale
    ensures var applied := ApplySpec(w, faults, env, c).0;
            var (w', a) := RestoreSpec(applied, faults, env, Restore(None, force));
            && a == Succeeded && w'.files == w.files && w'.record.None?
            && forall k | w.nextCredential <= k < w'.nextCredential :: k in w'.revoked
  {
    ApplyCompletes(w, faults, env, c, id);
    var applied := ApplySpec(w, faults, env, c).0;
    var r := applied.record.value;
    var originals := w.manifests[id].files;
    forall k | k in r.credentials ensures k >= w.nextCredential {
    }
    assert RestoreAdmitted(applied, env, None, force);
    RestoreFilesQuiet(applied, faults, w.files, originals);
    var (w', a) := RestoreSpec(applied, faults, env, Restore(None, force));
    AboutPaths(originals, c.targets);
    forall p ensures Lookup(w'.files, p) == Lookup(w.files, p) {
      assert p in PathsOf(originals) <==> p in c.targets;
    }
    SameFiles(w'.files, w.files);
    forall k | w.nextCredential <= k < w'.nextCredential ensures k in w'.revoked {
      assert r.credentials[k - w.nextCredential] == k;
    }
    RestoreSucceeds(applied, faults, originals);
  }

  lemma RestoreSucceeds(w: World, faults: seq<Fault>, originals: seq<FileRecord>)
    requires w.alive && QuietFrom(faults, w.clock)
    ensures RestoreFiles(w, faults, originals).1 == Succeeded
  {
    var w1 := if w.record.Some? then WriteRecord(w, faults, Some(w.record.value.(phase := Restoring))).0 else w;
    SweepEffect(w1, faults, Reversed(originals), true);
  }

  /** When a restore of the recorded takeover is refused, in every world: its snapshot is gone, or it is
      not forced and something has drifted that recovery cannot account for. */
  lemma RestoreRefusedIff(w: World, faults: seq<Fault>, env: Env, force: bool)
    requires w.record.Some?
    ensures var r := w.record.value;
            var inPlace := forall i | 0 <= i < |r.applied| :: Lookup(w.files, r.applied[i].path) == r.applied[i].content;
            var current := r.profileId in env.profiles && env.profiles[r.profileId] == r.profileHash
                           && forall k | k in r.credentials :: k !in w.revoked && k !in env.stale;
            RestoreSpec(w, faults, env, Restore(None, force)) == (w, Refused) <==>
              || r.snapshotId !in w.manifests
              || (!force && if r.phase.Active? then !inPlace || !current
                            else !(inPlace && current) && exists i | 0 <= i < |r.applied| ::
                                   Lookup(w.files, r.applied[i].path) != r.applied[i].content
                                   && !Lists(w.manifests[r.snapshotId].files, r.applied[i].path, Lookup(w.files, r.applied[i].path)))
  {
    var r := w.record.value;
    if r.snapshotId in w.manifests {
      assert RestoreFiles(w, faults, w.manifests[r.snapshotId].files).1 != Refused;
    }
  }

  /** Without a record only a forced restore of a named snapshot runs; with one, an unforced restore
      never runs from another snapshot. */
  lemma RestoreNeedsForceIff(w: World, faults: seq<Fault>, env: Env, id: nat, force: bool)
    requires id in w.manifests && (w.record.None? || w.record.value.snapshotId != id)
    ensures RestoreSpec(w, faults, env, Restore(Some(id), force)) == (w, Refused) <==> !force
    ensures w.record.None? ==> RestoreSpec(w, faults, env, Restore(None, force)) == (w, Refused)
  {
    assert RestoreFiles(w, faults, w.manifests[id].files).1 != Refused;
  }

  // ---------------------------------------------------------------- one failing step

  /** Step `t` throws and from step `from` on no other step is disturbed. */
  ghost predicate OnlyFails(faults: seq<Fault>, from: nat, t: nat) {
    At(faults, t) == Fails && forall u: nat | u >= from && u != t :: At(faults, u) == Fine
  }

  /** A sweep that fails is past the failing step, so nothing goes wrong after it. */
  lemma {:induction false} SweepPastFault(w: World, faults: seq<Fault>, recs: seq<FileRecord>, t: nat)
    requires w.alive && OnlyFails(faults, w.clock, t)
    ensures var (w', ok) := Sweep(w, faults, recs, true);
            && w' == w.(files := w'.files, clock := w'.clock) && w.clock <= w'.clock
            && (!ok ==> QuietFrom(faults, w'.clock))
    decreases |recs|
  {
    if recs != [] {
      var (w1, ok) := Put(w, faults, recs[0]);
      assert w1.alive && OnlyFails(faults, w1.clock, t);
      if ok {
        SweepPastFault(w1, faults, recs[1..], t);
      }
    }
  }

  /** A quiet sweep that does not stop puts every file in the list back. */
  lemma QuietFullSweep(w: World, faults: seq<Fault>, base: map<Path, Bytes>, recs: seq<FileRecord>)
    requires w.alive && QuietFrom(faults, w.clock) && BaseContents(recs, base)
    ensures var (w', ok) := Sweep(w, faults, recs, false);
            && ok && w' == w.(files := w'.files, clock := w'.clock) && w.clock <= w'.clock
            && forall p :: Lookup(w'.files, p) == if p in PathsOf(recs) then Lookup(base, p) else Lookup(w.files, p)
  {
    SweepEffect(w, faults, recs, false);
  }

  lemma UndoApplyQuiet(w: World, faults: seq<Fault>, base: map<Path, Bytes>, r: Record, originals: seq<FileRecord>)
    requires w.alive && QuietFrom(faults, w.clock) && BaseContents(originals, base)
    requires forall p | p !in PathsOf(originals) :: Lookup(w.files, p) == Lookup(base, p)
    ensures var w' := UndoApply(w, faults, r, originals);
            && w'.files == base && w'.record.None? && w'.nextCredential == w.nextCredential
            && forall k | k in r.credentials :: k in w'.revoked
  {
    ReversedBase(originals, base);
    var w1 := Revoke(w, faults, r.credentials).0;
    QuietFullSweep(w1, faults, base, Reversed(originals));
    var w' := UndoApply(w, faults, r, originals);
    forall p ensures Lookup(w'.files, p) == Lookup(base, p) {
    }
    SameFiles(w'.files, base);
  }

  lemma WriteFilesUndone(w: World, faults: seq<Fault>, r: Record, originals: seq<FileRecord>, t: nat)
    requires w.alive && w.record.None? && OnlyFails(faults, w.clock, t) && BaseContents(originals, w.files)
    requires PathsOf(r.applied) == PathsOf(originals)
    ensures var (w', a) := WriteFiles(w, faults, r, originals);
            a.Failed? ==> w'.files == w.files && w'.record.None? && w'.nextCredential == w.nextCredential
                          && forall k | k in r.credentials :: k in w'.revoked
  {
    var (w1, recorded) := WriteRecord(w, faults, Some(r));
    if recorded {
      var (w2, written) := Sweep(w1, faults, r.applied, true);
      SweepPastFault(w1, faults, r.applied, t);
      SweepEffect(w1, faults, r.applied, true);
      forall p | p !in PathsOf(originals) ensures Lookup(w2.files, p) == Lookup(w.files, p) {
        assert !Lists(r.applied, p, Lookup(w2.files, p));
      }
      if !written {
        UndoApplyQuiet(w2, faults, w.files, r, originals);
      } else {
        var (w3, active) := WriteRecord(w2, faults, Some(r.(phase := Active)));
        if !active {
          UndoApplyQuiet(w3, faults, w.files, r, originals);
        }
      }
    }
  }

  /** Wherever one write of an apply throws: if the apply fails, every file is as it was before, no
      record is left, and the credentials it issued are revoked. */
  lemma FailedApplyLeavesNothing(w: World, faults: seq<Fault>, env: Env, c: Command, id: nat, t: nat)
    requires c.Apply? && c.snapshotId == Some(id) && w.record.None? && SnapshotFits(w, env, c, id) && PlanFits(c)
    requires w.alive && OnlyFails(faults, w.clock, t)
    ensures var (w', a) := ApplySpec(w, faults, env, c);
            a.Failed? ==> w'.files == w.files && w'.record.None?
                          && forall k | w.nextCredential <= k < w'.nextCredential :: k in w'.revoked
  {
    AboutPaths(w.manifests[id].files, c.targets);
    AboutPaths(c.plan, c.targets);
    if Lands(w, faults) {
      var w1 := w.(clock := w.clock + 1, nextCredential := w.nextCredential + c.routes);
      var r := Record(Applying, c.profileId, env.profiles[c.profileId], id, Fresh(w, c.routes), c.plan);
      assert ApplySpec(w, faults, env, c) == WriteFiles(w1, faults, r, w.manifests[id].files);
      WriteFilesUndone(w1, faults, r, w.manifests[id].files, t);
      forall k | w.nextCredential <= k < w.nextCredential + c.routes ensures k in r.credentials {
        assert r.credentials[k - w.nextCredential] == k;
      }
    }
  }

  /** Rolling forward, undisturbed, makes every applied file as planned again and the record active. */
  lemma RollForwardQuiet(w: World, faults: seq<Fault>, before: map<Path, Bytes>, r: Record)
    requires w.alive && QuietFrom(faults, w.clock)
    requires forall i | 0 <= i < |r.applied| :: Lookup(before, r.applied[i].path) == r.applied[i].content
    requires forall p | p !in PathsOf(r.applied) :: Lookup(w.files, p) == Lookup(before, p)
    ensures var w' := RollForward(w, faults, Some(r)); w'.files == before && w'.record == Some(r.(phase := Active))
  {
    QuietFullSweep(w, faults, before, r.applied);
    var w' := RollForward(w, faults, Some(r));
    forall p ensures Lookup(w'.files, p) == Lookup(before, p) {
    }
    SameFiles(w'.files, before);
  }

  /** Wherever one write of a restore throws: if the restore fails, either the takeover is as it was,
      with an active record or with the one there was, or only revoking failed and every file is back; if
      it succeeds, every file is back and every credential revoked, whether or not the record is gone. */
  lemma FailedRestoreLosesNothing(w: World, faults: seq<Fault>, env: Env, force: bool, t: nat)
    requires w.record.Some? && w.record.value.snapshotId in w.manifests && AllPlanned(w, w.record.value)
    requires PathsOf(w.manifests[w.record.value.snapshotId].files) == PathsOf(w.record.value.applied)
    requires w.alive && OnlyFails(faults, w.clock, t)
    ensures var (w', a) := RestoreSpec(w, faults, env, Restore(None, force));
            var r := w.record.value; var originals := w.manifests[r.snapshotId].files;
            a.Failed? ==>
              || (w'.files == w.files && (w'.record == Some(r) || w'.record == Some(r.(phase := Active))))
              || (w'.record == Some(r.(phase := Restoring))
                  && forall p | p in PathsOf(originals) :: Lists(originals, p, Lookup(w'.files, p)))
    ensures var (w', a) := RestoreSpec(w, faults, env, Restore(None, force));
            var r := w.record.value; var originals := w.manifests[r.snapshotId].files;
            a.Succeeded? ==>
              && (forall c | c in r.credentials :: c in w'.revoked)
              && (w'.record.None? || w'.record == Some(r.(phase := Restoring)))
              && forall p | p in PathsOf(originals) :: Lists(originals, p, Lookup(w'.files, p))
  {
    var r := w.record.value;
    var originals := w.manifests[r.snapshotId].files;
    if RestoreAdmitted(w, env, None, force) {
      var (w1, marked) := WriteRecord(w, faults, Some(r.(phase := Restoring)));
      if marked {
        var (w2, restored) := Sweep(w1, faults, Reversed(originals), true);
        SweepPastFault(w1, faults, Reversed(originals), t);
        SweepEffect(w1, faults, Reversed(originals), true);
        ReversedLists(originals);
        if !restored {
          forall p | p !in PathsOf(r.applied) ensures Lookup(w2.files, p) == Lookup(w.files, p) {
            assert !Lists(Reversed(originals), p, Lookup(w2.files, p));
          }
          RollForwardQuiet(w2, faults, w.files, r);
        }
      }
    }
  }

  // ---------------------------------------------------------------- rollbacks that fail themselves

  /** An undo or a roll-forward whose own writes fail does not end the takeover: if every later write
      lands, the record stays and asks for a rollback exactly when some file could not be put in place. */
  lemma UncleanUndo(w: World, faults: seq<Fault>, r: Record, originals: seq<FileRecord>)
    requires Lands(w, faults)
    requires var swept := Sweep(Revoke(w, faults, r.credentials).0, faults, Reversed(originals), false).0; Lands(swept, faults)
    ensures var swept := Sweep(Revoke(w, faults, r.credentials).0, faults, Reversed(originals), false);
            UndoApply(w, faults, r, originals).record == if swept.1 then None else Some(r.(phase := RollbackRequired))
    ensures UndoApply(w, faults, r, originals).record.None? ==>
              forall p | p in PathsOf(originals) :: Lists(originals, p, Lookup(UndoApply(w, faults, r, originals).files, p))
  {
    SweepEffect(Revoke(w, faults, r.credentials).0, faults, Reversed(originals), false);
    ReversedLists(originals);
  }

  lemma UncleanRollForward(w: World, faults: seq<Fault>, r: Record)
    requires var swept := Sweep(w, faults, r.applied, false).0; Lands(swept, faults)
    ensures var swept := Sweep(w, faults, r.applied, false);
            RollForward(w, faults, Some(r)).record == Some(r.(phase := if swept.1 then Active else RollbackRequired))
    ensures RollForward(w, faults, Some(r)).record.value.phase.Active? ==>
              forall p | p in PathsOf(r.applied) :: Lists(r.applied, p, Lookup(RollForward(w, faults, Some(r)).files, p))
  {
    SweepEffect(w, faults, r.applied, false);
  }
}
