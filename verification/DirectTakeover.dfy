/** The write-ahead takeover of native CLI files (lib/direct-cli-config/index.js).

    The protocol takes a snapshot, persists what it is about to do, writes the files and then marks the
    takeover active; restore works the other way round and rolls forward when it cannot finish. This
    module holds the commands as functions and the proof that each of them, wherever its writes fail or
    its process dies, keeps the files and the record in step. */
module DirectTakeover {
  import opened Faults

  type Path = string
  type Bytes = string

  datatype Option<+T> = None | Some(value: T)

  /** A path with the contents it had, or will have; None means the file is absent. */
  datatype FileRecord = FileRecord(path: Path, content: Option<Bytes>)

  datatype Manifest = Manifest(profileId: string, profileHash: string, files: seq<FileRecord>)

  datatype Phase = Applying | Active | Restoring | RollbackRequired

  datatype Record = Record(phase: Phase, profileId: string, profileHash: string, snapshotId: nat,
                           credentials: seq<nat>, applied: seq<FileRecord>)

  /** Everything the protocol persists plus the liveness of the process that runs it. A dead process
      keeps executing in the model but its writes have no effect, which is what a crash between two
      writes leaves on disk. Hashes are modelled as injective, so comparing hashes is comparing
      contents. */
  datatype World = World(files: map<Path, Bytes>, record: Option<Record>, manifests: map<nat, Manifest>,
                         nextSnapshot: nat, nextCredential: nat, revoked: set<nat>, clock: nat, alive: bool)

  /** What a command reads but the protocol does not own: the route profiles' hashes, and the
      credentials that have expired or were purged from the credential store. */
  datatype Env = Env(profiles: map<string, string>, stale: set<nat>)

  datatype Outcome = Refused | AlreadyActive | Succeeded | Failed

  datatype Command =
    | Snapshot(profileId: string, targets: seq<Path>, force: bool)
    | Apply(profileId: string, snapshotId: Option<nat>, targets: seq<Path>, plan: seq<FileRecord>, routes: nat)
    | Restore(snapshotId: Option<nat>, force: bool)

  function Lookup(files: map<Path, Bytes>, p: Path): Option<Bytes> {
    if p in files then Some(files[p]) else None
  }

  function PathsOf(recs: seq<FileRecord>): set<Path> {
    set i | 0 <= i < |recs| :: recs[i].path
  }

  predicate Distinct(recs: seq<FileRecord>) {
    forall i, j | 0 <= i < j < |recs| :: recs[i].path != recs[j].path
  }

  /** `recs` names `p` with contents `c`. */
  predicate Lists(recs: seq<FileRecord>, p: Path, c: Option<Bytes>) {
    exists i | 0 <= i < |recs| :: recs[i].path == p && recs[i].content == c
  }

  function Reversed(recs: seq<FileRecord>): (r: seq<FileRecord>)
    ensures |r| == |recs|
    ensures forall i | 0 <= i < |recs| :: r[i] == recs[|recs| - 1 - i]
  {
    if recs == [] then [] else Reversed(recs[1..]) + [recs[0]]
  }

  // ---------------------------------------------------------------- single writes

  function Store(files: map<Path, Bytes>, rec: FileRecord): map<Path, Bytes> {
    match rec.content
    case Some(c) => files[rec.path := c]
    case None => files - {rec.path}
  }

  /** Whether the write at the current step takes effect. */
  function Lands(w: World, faults: seq<Fault>): bool {
    w.alive && At(faults, w.clock) == Fine
  }

  /** The world after a step's fault has struck, before its effect. */
  function Tick(w: World, faults: seq<Fault>): World {
    w.(clock := w.clock + 1, alive := w.alive && At(faults, w.clock) != Dies)
  }

  function WriteRecord(w: World, faults: seq<Fault>, r: Option<Record>): (World, bool) {
    if Lands(w, faults) then (Tick(w, faults).(record := r), true) else (Tick(w, faults), false)
  }

  function Revoke(w: World, faults: seq<Fault>, ids: seq<nat>): (World, bool) {
    if Lands(w, faults) then (Tick(w, faults).(revoked := w.revoked + (set c | c in ids)), true) else (Tick(w, faults), false)
  }

  /** Puts one file into the recorded state. Writing is one atomic rename; removing is a rename
      to a tombstone followed by deleting the tombstone, and an absent file needs neither. */
  function Put(w: World, faults: seq<Fault>, rec: FileRecord): (World, bool) {
    if rec.content.None? && rec.path !in w.files then (w, true)
    else if !Lands(w, faults) then (Tick(w, faults), false)
    else
      var moved := Tick(w, faults).(files := Store(w.files, rec));
      if rec.content.Some? then (moved, true)
      else (Tick(moved, faults), Lands(moved, faults))
  }

  /** Puts a list of files in order. With `stopOnError` the first failure ends the sweep;
      otherwise every file is attempted and the result says whether all succeeded. */
  function Sweep(w: World, faults: seq<Fault>, recs: seq<FileRecord>, stopOnError: bool): (World, bool)
    decreases |recs|
  {
    if recs == [] then (w, true)
    else
      var (w1, ok) := Put(w, faults, recs[0]);
      if !ok && stopOnError then (w1, false)
      else
        var (w2, rest) := Sweep(w1, faults, recs[1..], stopOnError);
        (w2, ok && rest)
  }

  // ---------------------------------------------------------------- status

  predicate ProfileDrifted(env: Env, r: Record) {
    r.profileId !in env.profiles || env.profiles[r.profileId] != r.profileHash
  }

  predicate CredentialsLive(w: World, env: Env, r: Record) {
    forall c | c in r.credentials :: c !in w.revoked && c !in env.stale
  }

  predicate AllPlanned(w: World, r: Record) {
    forall i | 0 <= i < |r.applied| :: Lookup(w.files, r.applied[i].path) == r.applied[i].content
  }

  predicate Drifted(w: World, env: Env, r: Record) {
    ProfileDrifted(env, r) || !AllPlanned(w, r) || !CredentialsLive(w, env, r)
  }

  predicate RecoverySafe(w: World, r: Record) {
    r.phase.Active? ||
    (r.snapshotId in w.manifests &&
     forall i | 0 <= i < |r.applied| ::
       var current := Lookup(w.files, r.applied[i].path);
       current == r.applied[i].content || Lists(w.manifests[r.snapshotId].files, r.applied[i].path, current))
  }

  /** The guard an unforced restore passes. */
  predicate RestoreAccepted(w: World, env: Env, r: Record) {
    !Drifted(w, env, r) || (!r.phase.Active? && RecoverySafe(w, r))
  }

  // ---------------------------------------------------------------- commands

  function ReadRecords(w: World, targets: seq<Path>): seq<FileRecord> {
    seq(|targets|, i requires 0 <= i < |targets| => FileRecord(targets[i], Lookup(w.files, targets[i])))
  }

  function TakeSnapshot(w: World, faults: seq<Fault>, env: Env, profileId: string, targets: seq<Path>, force: bool): (World, Option<nat>) {
    if profileId !in env.profiles || (w.record.Some? && !force) then (w, None)
    else if !Lands(w, faults) then (Tick(w, faults), None)
    else
      var m := Manifest(profileId, env.profiles[profileId], ReadRecords(w, targets));
      (Tick(w, faults).(manifests := w.manifests[w.nextSnapshot := m], nextSnapshot := w.nextSnapshot + 1),
       Some(w.nextSnapshot))
  }

  /** Every check between loading the manifest and issuing credentials. */
  predicate ApplyAdmitted(w: World, env: Env, profileId: string, id: nat, targets: seq<Path>) {
    profileId in env.profiles && id in w.manifests &&
    var m := w.manifests[id];
    m.profileId == profileId && m.profileHash == env.profiles[profileId] &&
    PathsOf(m.files) == (set p | p in targets) &&
    forall i | 0 <= i < |m.files| :: Lookup(w.files, m.files[i].path) == m.files[i].content
  }

  predicate PlanMatches(targets: seq<Path>, plan: seq<FileRecord>) {
    PathsOf(plan) == (set p | p in targets) && Distinct(plan) && forall i | 0 <= i < |plan| :: plan[i].content.Some?
  }

  function Fresh(w: World, routes: nat): seq<nat> {
    seq(routes, i => w.nextCredential + i)
  }

  /** The catch block of apply: revoke, restore in reverse order, then drop or mark the record. */
  function UndoApply(w: World, faults: seq<Fault>, r: Record, originals: seq<FileRecord>): World {
    var (w1, revoked) := Revoke(w, faults, r.credentials);
    if !revoked then w1
    else
      var (w2, clean) := Sweep(w1, faults, Reversed(originals), false);
      WriteRecord(w2, faults, if clean then None else Some(r.(phase := RollbackRequired))).0
  }

  /** From the persisted intent to the active record. */
  function WriteFiles(w: World, faults: seq<Fault>, r: Record, originals: seq<FileRecord>): (World, Outcome) {
    var (w1, recorded) := WriteRecord(w, faults, Some(r));
    if !recorded then (Revoke(w1, faults, r.credentials).0, Failed)
    else
      var (w2, written) := Sweep(w1, faults, r.applied, true);
      if !written then (UndoApply(w2, faults, r, originals), Failed)
      else
        var (w3, active) := WriteRecord(w2, faults, Some(r.(phase := Active)));
        if active then (w3, Succeeded) else (UndoApply(w3, faults, r, originals), Failed)
  }

  function ApplyFrom(w: World, faults: seq<Fault>, env: Env, profileId: string, id: nat, targets: seq<Path>,
                     plan: seq<FileRecord>, routes: nat): (World, Outcome)
  {
    if !ApplyAdmitted(w, env, profileId, id, targets) then (w, Refused)
    else if !Lands(w, faults) then (Tick(w, faults), Failed)
    else
      var creds := Fresh(w, routes);
      var w1 := Tick(w, faults).(nextCredential := w.nextCredential + routes);
      if !PlanMatches(targets, plan) then (Revoke(w1, faults, creds).0, Refused)
      else
        WriteFiles(w1, faults, Record(Applying, profileId, env.profiles[profileId], id, creds, plan),
                   w.manifests[id].files)
  }

  function ApplySpec(w: World, faults: seq<Fault>, env: Env, c: Command): (World, Outcome)
    requires c.Apply?
  {
    if c.profileId !in env.profiles then (w, Refused)
    else if w.record.Some? then
      (w, if w.record.value.profileId == c.profileId && !Drifted(w, env, w.record.value) then AlreadyActive else Refused)
    else
      var (w1, id) := if c.snapshotId.Some? then (w, c.snapshotId) else TakeSnapshot(w, faults, env, c.profileId, c.targets, false);
      if id.None? then (w1, Failed)
      else ApplyFrom(w1, faults, env, c.profileId, id.value, c.targets, c.plan, c.routes)
  }

  /** The catch block of restore: roll every applied file forward, then re-mark the record. */
  function RollForward(w: World, faults: seq<Fault>, record: Option<Record>): World {
    if record.None? then w
    else
      var (w1, clean) := Sweep(w, faults, record.value.applied, false);
      WriteRecord(w1, faults, Some(record.value.(phase := if clean then Active else RollbackRequired))).0
  }

  predicate RestoreAdmitted(w: World, env: Env, snapshotId: Option<nat>, force: bool) {
    (snapshotId.Some? || w.record.Some?) &&
    (if snapshotId.Some? then snapshotId.value else w.record.value.snapshotId) in w.manifests &&
    (force || (w.record.Some? &&
               (snapshotId.Some? ==> snapshotId.value == w.record.value.snapshotId) &&
               RestoreAccepted(w, env, w.record.value)))
  }

  /** Revokes the takeover's credentials and drops the record. Removing the record swallows its own
      error, so the caller sees success either way. */
  function EndTakeover(w: World, faults: seq<Fault>, ids: seq<nat>): (World, Outcome) {
    var (w1, revoked) := if ids == [] then (w, true) else Revoke(w, faults, ids);
    if !revoked then (w1, Failed) else (WriteRecord(w1, faults, None).0, Succeeded)
  }

  function RestoreFiles(w: World, faults: seq<Fault>, originals: seq<FileRecord>): (World, Outcome) {
    var record := w.record;
    var (w1, marked) := if record.Some? then WriteRecord(w, faults, Some(record.value.(phase := Restoring))) else (w, true);
    if !marked then (w1, Failed)
    else
      var (w2, restored) := Sweep(w1, faults, Reversed(originals), true);
      if !restored then (RollForward(w2, faults, record), Failed)
      else if record.None? then (w2, Succeeded)
      else EndTakeover(w2, faults, record.value.credentials)
  }

  function RestoreSpec(w: World, faults: seq<Fault>, env: Env, c: Command): (World, Outcome)
    requires c.Restore?
  {
    if !RestoreAdmitted(w, env, c.snapshotId, c.force) then (w, Refused)
    else
      var id := if c.snapshotId.Some? then c.snapshotId.value else w.record.value.snapshotId;
      RestoreFiles(w, faults, w.manifests[id].files)
  }

  /** One command run by a fresh process. */
  function Execute(w: World, faults: seq<Fault>, env: Env, c: Command): World {
    var started := w.(alive := true);
    match c
    case Snapshot(profileId, targets, force) => TakeSnapshot(started, faults, env, profileId, targets, force).0
    case Apply(_, _, _, _, _) => ApplySpec(started, faults, env, c).0
    case Restore(_, _) => RestoreSpec(started, faults, env, c).0
  }

  function Run(w: World, faults: seq<Fault>, steps: seq<(Env, Command)>): World {
    if steps == [] then w
    else
      var before := Run(w, faults, steps[..|steps| - 1]);
      Execute(before, faults, steps[|steps| - 1].0, steps[|steps| - 1].1)
  }

  function Start(base: map<Path, Bytes>): World {
    World(base, None, map[], 0, 0, {}, 0, true)
  }

  // ---------------------------------------------------------------- the invariant

  /** Every file holds its base content or what the takeover planned for it. */
  ghost predicate Mixed(files: map<Path, Bytes>, base: map<Path, Bytes>, applied: seq<FileRecord>) {
    forall p :: Lookup(files, p) == Lookup(base, p) || Lists(applied, p, Lookup(files, p))
  }

  ghost predicate BaseContents(recs: seq<FileRecord>, base: map<Path, Bytes>) {
    forall i | 0 <= i < |recs| :: recs[i].content == Lookup(base, recs[i].path)
  }

  ghost predicate RecordConsistent(w: World, base: map<Path, Bytes>, r: Record) {
    && r.snapshotId in w.manifests
    && PathsOf(w.manifests[r.snapshotId].files) == PathsOf(r.applied)
    && Distinct(r.applied)
    && Mixed(w.files, base, r.applied)
    && (r.phase.Active? ==> AllPlanned(w, r))
    && forall c | c in r.credentials :: c < w.nextCredential
  }

  /** These files hold their base content. */
  ghost predicate AtBase(w: World, base: map<Path, Bytes>, targets: seq<Path>) {
    forall p | p in targets :: Lookup(w.files, p) == Lookup(base, p)
  }

  /** What every crash leaves true: `base` is the content before any takeover. */
  ghost predicate Consistent(w: World, base: map<Path, Bytes>) {
    && (forall id | id in w.manifests :: id < w.nextSnapshot && BaseContents(w.manifests[id].files, base))
    && (forall c | c in w.revoked :: c < w.nextCredential)
    && match w.record
       case None => w.files == base
       case Some(r) => RecordConsistent(w, base, r)
  }

  lemma SameFiles(a: map<Path, Bytes>, b: map<Path, Bytes>)
    requires forall p :: Lookup(a, p) == Lookup(b, p)
    ensures a == b
  {
    forall p ensures p in a <==> p in b {
      assert Lookup(a, p) == Lookup(b, p);
    }
    forall p | p in a ensures a[p] == b[p] {
      assert Lookup(a, p) == Lookup(b, p);
    }
  }

  lemma PutEffect(w: World, faults: seq<Fault>, rec: FileRecord)
    ensures var (w', ok) := Put(w, faults, rec);
            && w' == w.(files := w'.files, clock := w'.clock, alive := w'.alive)
            && w.clock <= w'.clock && (w'.alive ==> w.alive)
            && (forall p | p != rec.path :: Lookup(w'.files, p) == Lookup(w.files, p))
            && (Lookup(w'.files, rec.path) == rec.content || (!ok && Lookup(w'.files, rec.path) == Lookup(w.files, rec.path)))
            && (w.alive && QuietFrom(faults, w.clock) ==> ok && w'.alive)
  {
  }

  /** A sweep touches nothing but the listed files, each of which ends as it was or as listed;
      a successful one leaves every listed file as listed; a quiet one succeeds. */
  lemma {:induction false} SweepEffect(w: World, faults: seq<Fault>, recs: seq<FileRecord>, stop: bool)
    ensures var (w', ok) := Sweep(w, faults, recs, stop);
            && w' == w.(files := w'.files, clock := w'.clock, alive := w'.alive)
            && w.clock <= w'.clock && (w'.alive ==> w.alive)
            && (forall p :: Lookup(w'.files, p) == Lookup(w.files, p) || Lists(recs, p, Lookup(w'.files, p)))
            && (ok ==> forall p | p in PathsOf(recs) :: Lists(recs, p, Lookup(w'.files, p)))
            && (w.alive && QuietFrom(faults, w.clock) ==> ok && w'.alive)
    decreases |recs|
  {
    if recs != [] {
      PutEffect(w, faults, recs[0]);
      var (w1, ok) := Put(w, faults, recs[0]);
      var (w', all) := Sweep(w, faults, recs, stop);
      SweepEffect(w1, faults, recs[1..], stop);
      forall p ensures Lookup(w'.files, p) == Lookup(w.files, p) || Lists(recs, p, Lookup(w'.files, p))
               ensures all && p in PathsOf(recs) ==> Lists(recs, p, Lookup(w'.files, p))
      {
        SweepStep(w1, w', recs, p);
      }
    }
  }

  lemma SweepStep(w1: World, w': World, recs: seq<FileRecord>, p: Path)
    requires recs != []
    ensures Lists(recs[1..], p, Lookup(w'.files, p)) ==> Lists(recs, p, Lookup(w'.files, p))
    ensures Lookup(w'.files, p) == Lookup(w1.files, p) == recs[0].content && p == recs[0].path
            ==> Lists(recs, p, Lookup(w'.files, p))
    ensures p in PathsOf(recs) ==> p == recs[0].path || p in PathsOf(recs[1..])
  {
    if Lists(recs[1..], p, Lookup(w'.files, p)) {
      var i :| 0 <= i < |recs[1..]| && recs[1..][i].path == p && recs[1..][i].content == Lookup(w'.files, p);
      assert recs[i + 1] == recs[1..][i];
    }
    if p in PathsOf(recs) && p != recs[0].path {
      var i :| 0 <= i < |recs| && recs[i].path == p;
      assert recs[1..][i - 1] == recs[i];
    }
  }

  lemma ReversedLists(recs: seq<FileRecord>)
    ensures PathsOf(Reversed(recs)) == PathsOf(recs)
    ensures forall p, c :: Lists(Reversed(recs), p, c) ==> Lists(recs, p, c)
  {
    var r := Reversed(recs);
    forall p | p in PathsOf(recs) ensures p in PathsOf(r) {
      var i :| 0 <= i < |recs| && recs[i].path == p;
      assert r[|recs| - 1 - i].path == p;
    }
  }

  /** Sweeping base or planned contents keeps the mixture; a completed sweep of base contents over
      all planned paths ends it, and a completed sweep of the plan leaves all files planned. */
  lemma {:induction false} SweepMixed(w: World, faults: seq<Fault>, base: map<Path, Bytes>, applied: seq<FileRecord>,
                   recs: seq<FileRecord>, stop: bool)
    requires Mixed(w.files, base, applied)
    requires BaseContents(recs, base) || recs == applied
    ensures var (w', ok) := Sweep(w, faults, recs, stop);
            && Mixed(w'.files, base, applied)
            && (ok && BaseContents(recs, base) && PathsOf(applied) <= PathsOf(recs) ==> w'.files == base)
            && (ok && recs == applied && Distinct(applied) ==>
                  forall i | 0 <= i < |applied| :: Lookup(w'.files, applied[i].path) == applied[i].content)
  {
    SweepEffect(w, faults, recs, stop);
    var (w', ok) := Sweep(w, faults, recs, stop);
    if ok && BaseContents(recs, base) && PathsOf(applied) <= PathsOf(recs) {
      forall p ensures Lookup(w'.files, p) == Lookup(base, p) {
        if Lists(applied, p, Lookup(w'.files, p)) {
          assert p in PathsOf(applied);
        }
      }
      SameFiles(w'.files, base);
    }
    if ok && recs == applied && Distinct(applied) {
      forall i | 0 <= i < |applied| ensures Lookup(w'.files, applied[i].path) == applied[i].content {
        assert applied[i].path in PathsOf(applied);
      }
    }
  }

  lemma ReversedBase(recs: seq<FileRecord>, base: map<Path, Bytes>)
    requires BaseContents(recs, base)
    ensures BaseContents(Reversed(recs), base) && PathsOf(Reversed(recs)) == PathsOf(recs)
  {
    ReversedLists(recs);
  }

  lemma UndoApplyKeeps(w: World, faults: seq<Fault>, base: map<Path, Bytes>, r: Record)
    requires Consistent(w, base) && w.record == Some(r) && !r.phase.Active?
    ensures Consistent(UndoApply(w, faults, r, w.manifests[r.snapshotId].files), base)
  {
    var originals := w.manifests[r.snapshotId].files;
    var (w1, revoked) := Revoke(w, faults, r.credentials);
    ReversedBase(originals, base);
    SweepEffect(w1, faults, Reversed(originals), false);
    SweepMixed(w1, faults, base, r.applied, Reversed(originals), false);
  }

  lemma WriteFilesKeeps(w: World, faults: seq<Fault>, base: map<Path, Bytes>, r: Record)
    requires Consistent(w, base) && w.record.None?
    requires r.phase.Applying? && r.snapshotId in w.manifests && Distinct(r.applied)
    requires PathsOf(w.manifests[r.snapshotId].files) == PathsOf(r.applied)
    requires forall c | c in r.credentials :: c < w.nextCredential
    ensures Consistent(WriteFiles(w, faults, r, w.manifests[r.snapshotId].files).0, base)
  {
    var (w1, recorded) := WriteRecord(w, faults, Some(r));
    if recorded {
      assert Consistent(w1, base);
      var (w2, written) := Sweep(w1, faults, r.applied, true);
      SweepEffect(w1, faults, r.applied, true);
      SweepMixed(w1, faults, base, r.applied, r.applied, true);
      assert Consistent(w2, base);
      if !written {
        UndoApplyKeeps(w2, faults, base, r);
      } else {
        var (w3, active) := WriteRecord(w2, faults, Some(r.(phase := Active)));
        if !active {
          assert Consistent(w3, base);
          UndoApplyKeeps(w3, faults, base, r);
        }
      }
    }
  }

  lemma TakeSnapshotKeeps(w: World, faults: seq<Fault>, env: Env, base: map<Path, Bytes>, profileId: string, targets: seq<Path>, force: bool)
    requires Consistent(w, base) && (force ==> AtBase(w, base, targets))
    ensures Consistent(TakeSnapshot(w, faults, env, profileId, targets, force).0, base)
  {
  }

  lemma IssueKeeps(w: World, faults: seq<Fault>, base: map<Path, Bytes>, routes: nat)
    requires Consistent(w, base)
    ensures Consistent(Tick(w, faults).(nextCredential := w.nextCredential + routes), base)
  {
  }

  lemma RevokeKeeps(w: World, faults: seq<Fault>, base: map<Path, Bytes>, ids: seq<nat>)
    requires Consistent(w, base) && forall c | c in ids :: c < w.nextCredential
    ensures Consistent(Revoke(w, faults, ids).0, base)
  {
  }

  lemma AdmittedKeeps(w: World, faults: seq<Fault>, env: Env, base: map<Path, Bytes>, profileId: string, id: nat,
                      targets: seq<Path>, plan: seq<FileRecord>, routes: nat)
    requires Consistent(w, base) && w.record.None? && ApplyAdmitted(w, env, profileId, id, targets) && Lands(w, faults)
    ensures Consistent(ApplyFrom(w, faults, env, profileId, id, targets, plan, routes).0, base)
  {
    var w1 := Tick(w, faults).(nextCredential := w.nextCredential + routes);
    IssueKeeps(w, faults, base, routes);
    if PlanMatches(targets, plan) {
      assert PathsOf(w.manifests[id].files) == PathsOf(plan);
      WriteFilesKeeps(w1, faults, base,
        Record(Applying, profileId, env.profiles[profileId], id, Fresh(w, routes), plan));
    } else {
      RevokeKeeps(w1, faults, base, Fresh(w, routes));
    }
  }

  lemma ApplyFromKeeps(w: World, faults: seq<Fault>, env: Env, base: map<Path, Bytes>, profileId: string, id: nat,
                       targets: seq<Path>, plan: seq<FileRecord>, routes: nat)
    requires Consistent(w, base) && w.record.None?
    ensures Consistent(ApplyFrom(w, faults, env, profileId, id, targets, plan, routes).0, base)
  {
    if ApplyAdmitted(w, env, profileId, id, targets) && Lands(w, faults) {
      AdmittedKeeps(w, faults, env, base, profileId, id, targets, plan, routes);
    }
  }

  lemma ApplyKeeps(w: World, faults: seq<Fault>, env: Env, base: map<Path, Bytes>, c: Command)
    requires Consistent(w, base) && c.Apply?
    ensures Consistent(ApplySpec(w, faults, env, c).0, base)
  {
    if c.profileId in env.profiles && w.record.None? {
      TakeSnapshotKeeps(w, faults, env, base, c.profileId, c.targets, false);
      var (w1, id) := if c.snapshotId.Some? then (w, c.snapshotId) else TakeSnapshot(w, faults, env, c.profileId, c.targets, false);
      if id.Some? {
        ApplyFromKeeps(w1, faults, env, base, c.profileId, id.value, c.targets, c.plan, c.routes);
      }
    }
  }

  lemma RollForwardKeeps(w: World, faults: seq<Fault>, base: map<Path, Bytes>, r: Record)
    requires Consistent(w, base) && w.record == Some(r.(phase := Restoring))
    ensures Consistent(RollForward(w, faults, Some(r)), base)
  {
    SweepEffect(w, faults, r.applied, false);
    SweepMixed(w, faults, base, r.applied, r.applied, false);
  }

  lemma EndTakeoverKeeps(w: World, faults: seq<Fault>, base: map<Path, Bytes>)
    requires Consistent(w, base) && w.record.Some? && w.files == base
    ensures var (w', outcome) := EndTakeover(w, faults, w.record.value.credentials);
            Consistent(w', base) && w'.files == base
  {
  }

  lemma RestoreUnrecordedKeeps(w: World, faults: seq<Fault>, base: map<Path, Bytes>, originals: seq<FileRecord>)
    requires Consistent(w, base) && BaseContents(originals, base) && w.record.None?
    ensures Consistent(RestoreFiles(w, faults, originals).0, base)
    ensures RestoreFiles(w, faults, originals).0.files == base
  {
    ReversedBase(originals, base);
    SweepEffect(w, faults, Reversed(originals), true);
    var w2 := Sweep(w, faults, Reversed(originals), true).0;
    forall p ensures Lookup(w2.files, p) == Lookup(base, p) {}
    SameFiles(w2.files, base);
  }

  lemma RestoreRecordedKeeps(w: World, faults: seq<Fault>, base: map<Path, Bytes>, originals: seq<FileRecord>)
    requires Consistent(w, base) && BaseContents(originals, base) && w.record.Some?
    requires PathsOf(w.record.value.applied) <= PathsOf(originals)
    ensures Consistent(RestoreFiles(w, faults, originals).0, base)
    ensures RestoreFiles(w, faults, originals).1.Succeeded? ==> RestoreFiles(w, faults, originals).0.files == base
  {
    ReversedBase(originals, base);
    var r := w.record.value;
    var (w1, marked) := WriteRecord(w, faults, Some(r.(phase := Restoring)));
    assert Consistent(w1, base);
    if marked {
      var (w2, restored) := Sweep(w1, faults, Reversed(originals), true);
      assert Consistent(w2, base) && w2.record == w1.record && (restored ==> w2.files == base) by {
        SweepEffect(w1, faults, Reversed(originals), true);
        SweepMixed(w1, faults, base, r.applied, Reversed(originals), true);
      }
      if restored {
        EndTakeoverKeeps(w2, faults, base);
      } else {
        RollForwardKeeps(w2, faults, base, r);
      }
    }
  }

  /** What makes a forced command safe to run: a snapshot finds base contents, and the snapshot a
      restore names covers every applied file. Unforced commands need nothing. */
  ghost predicate Covering(w: World, base: map<Path, Bytes>, c: Command) {
    && (c.Snapshot? && c.force ==> AtBase(w, base, c.targets))
    && (c.Restore? && c.force && c.snapshotId.Some? && w.record.Some? && c.snapshotId.value in w.manifests ==>
          PathsOf(w.record.value.applied) <= PathsOf(w.manifests[c.snapshotId.value].files))
  }

  lemma ExecuteKeeps(w: World, faults: seq<Fault>, env: Env, base: map<Path, Bytes>, c: Command)
    requires Consistent(w, base) && Covering(w, base, c)
    ensures Consistent(Execute(w, faults, env, c), base)
  {
    var started := w.(alive := true);
    assert Consistent(started, base);
    match c
    case Snapshot(profileId, targets, force) => TakeSnapshotKeeps(started, faults, env, base, profileId, targets, force);
    case Apply(_, _, _, _, _) => ApplyKeeps(started, faults, env, base, c);
    case Restore(snapshotId, force) =>
      if RestoreAdmitted(started, env, snapshotId, force) {
        var id := if snapshotId.Some? then snapshotId.value else w.record.value.snapshotId;
        if w.record.None? {
          RestoreUnrecordedKeeps(started, faults, base, w.manifests[id].files);
        } else {
          RestoreRecordedKeeps(started, faults, base, w.manifests[id].files);
        }
      }
  }
}
