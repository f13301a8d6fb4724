/** The imperative form of the direct takeover: the persisted state as fields, written one step at
    a time. Every method is tied to the specification functions of DirectTakeover, whose lemmas say
    what they achieve. */
module DirectCliManager {
  import opened Faults
  import opened DirectTakeover

  class Manager {
    var files: map<Path, Bytes>
    var record: Option<Record>
    var manifests: map<nat, Manifest>
    var nextSnapshot: nat
    var nextCredential: nat
    var revoked: set<nat>
    var clock: nat
    var alive: bool
    const faults: seq<Fault>

    constructor (base: map<Path, Bytes>, faults: seq<Fault>)
      ensures Disk() == Start(base) && this.faults == faults
    {
      files, record, manifests, nextSnapshot, nextCredential, revoked, clock, alive := base, None, map[], 0, 0, {}, 0, true;
      this.faults := faults;
    }

    function Disk(): World
      reads this
    {
      World(files, record, manifests, nextSnapshot, nextCredential, revoked, clock, alive)
    }

    /** Meets the next fault; `lands` says whether the write it precedes takes effect. */
    method Step() returns (lands: bool)
      modifies this`clock, this`alive
      ensures Disk() == Tick(old(Disk()), faults) && lands == Lands(old(Disk()), faults)
    {
      lands := alive && At(faults, clock) == Fine;
      alive := alive && At(faults, clock) != Dies;
      clock := clock + 1;
    }

    method WriteDirect(r: Option<Record>) returns (ok: bool)
      modifies this`clock, this`alive, this`record
      ensures (Disk(), ok) == WriteRecord(old(Disk()), faults, r)
    {
      ok := Step();
      if ok {
        record := r;
      }
    }

    method RevokeCredentials(ids: seq<nat>) returns (ok: bool)
      modifies this`clock, this`alive, this`revoked
      ensures (Disk(), ok) == Revoke(old(Disk()), faults, ids)
    {
      ok := Step();
      if ok {
        revoked := revoked + set c | c in ids;
      }
    }

    method PutFile(rec: FileRecord) returns (ok: bool)
      modifies this`clock, this`alive, this`files
      ensures (Disk(), ok) == Put(old(Disk()), faults, rec)
    {
      if rec.content.None? && rec.path !in files {
        return true;
      }
      ok := Step();
      if ok {
        files := Store(files, rec);
        if rec.content.None? {
          ok := Step();
        }
      }
    }

    method PutFiles(recs: seq<FileRecord>, stopOnError: bool) returns (ok: bool)
      modifies this`clock, this`alive, this`files
      ensures (Disk(), ok) == Sweep(old(Disk()), faults, recs, stopOnError)
    {
      ok := true;
      var i := 0;
      while i < |recs|
        invariant 0 <= i <= |recs|
        invariant stopOnError ==> ok
        invariant Sweep(old(Disk()), faults, recs, stopOnError) ==
                  var (w, rest) := Sweep(Disk(), faults, recs[i..], stopOnError); (w, ok && rest)
      {
        assert recs[i..][1..] == recs[i + 1..];
        var put := PutFile(recs[i]);
        if !put && stopOnError {
          return false;
        }
        ok := ok && put;
        i := i + 1;
      }
    }

    method CreateSnapshot(env: Env, profileId: string, targets: seq<Path>, force: bool) returns (id: Option<nat>)
      modifies this
      ensures (Disk(), id) == TakeSnapshot(old(Disk()), faults, env, profileId, targets, force)
    {
      if profileId !in env.profiles || (record.Some? && !force) {
        return None;
      }
      var m := Manifest(profileId, env.profiles[profileId], ReadRecords(Disk(), targets));
      var lands := Step();
      if !lands {
        return None;
      }
      id := Some(nextSnapshot);
      manifests := manifests[nextSnapshot := m];
      nextSnapshot := nextSnapshot + 1;
    }

    method RollBack(r: Record, originals: seq<FileRecord>)
      modifies this
      ensures Disk() == UndoApply(old(Disk()), faults, r, originals)
    {
      var revokedAll := RevokeCredentials(r.credentials);
      if revokedAll {
        var clean := PutFiles(Reversed(originals), false);
        var _ := WriteDirect(if clean then None else Some(r.(phase := RollbackRequired)));
      }
    }

    method Write(r: Record, originals: seq<FileRecord>) returns (outcome: Outcome)
      modifies this
      ensures (Disk(), outcome) == WriteFiles(old(Disk()), faults, r, originals)
    {
      outcome := Failed;
      var recorded := WriteDirect(Some(r));
      if !recorded {
        var _ := RevokeCredentials(r.credentials);
        return;
      }
      var written := PutFiles(r.applied, true);
      if written {
        var active := WriteDirect(Some(r.(phase := Active)));
        if active {
          return Succeeded;
        }
      }
      RollBack(r, originals);
    }

    method ApplyProfile(env: Env, c: Command) returns (outcome: Outcome)
      requires c.Apply?
      modifies this
      ensures (Disk(), outcome) == ApplySpec(old(Disk()), faults, env, c)
    {
      if c.profileId !in env.profiles {
        return Refused;
      }
      if record.Some? {
        return if record.value.profileId == c.profileId && !Drifted(Disk(), env, record.value) then AlreadyActive else Refused;
      }
      var id := c.snapshotId;
      if id.None? {
        id := CreateSnapshot(env, c.profileId, c.targets, false);
        if id.None? {
          return Failed;
        }
      }
      if !ApplyAdmitted(Disk(), env, c.profileId, id.value, c.targets) {
        return Refused;
      }
      var credentials := Fresh(Disk(), c.routes);
      var issued := Step();
      if !issued {
        return Failed;
      }
      nextCredential := nextCredential + c.routes;
      if !PlanMatches(c.targets, c.plan) {
        var _ := RevokeCredentials(credentials);
        return Refused;
      }
      var r := Record(Applying, c.profileId, env.profiles[c.profileId], id.value, credentials, c.plan);
      outcome := Write(r, manifests[id.value].files);
    }

    method RestoreSnapshot(env: Env, c: Command) returns (outcome: Outcome)
      requires c.Restore?
      modifies this
      ensures (Disk(), outcome) == RestoreSpec(old(Disk()), faults, env, c)
    {
      if !RestoreAdmitted(Disk(), env, c.snapshotId, c.force) {
        return Refused;
      }
      var state := record;
      var originals := manifests[if c.snapshotId.Some? then c.snapshotId.value else record.value.snapshotId].files;
      if state.Some? {
        var marked := WriteDirect(Some(state.value.(phase := Restoring)));
        if !marked {
          return Failed;
        }
      }
      var restored := PutFiles(Reversed(originals), true);
      if !restored {
        if state.Some? {
          var clean := PutFiles(state.value.applied, false);
          var _ := WriteDirect(Some(state.value.(phase := if clean then Active else RollbackRequired)));
        }
        return Failed;
      }
      if state.Some? {
        if state.value.credentials != [] {
          var revokedAll := RevokeCredentials(state.value.credentials);
          if !revokedAll {
            return Failed;
          }
        }
        var _ := WriteDirect(None);
      }
      return Succeeded;
    }
  }
}
