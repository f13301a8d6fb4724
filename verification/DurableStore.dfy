/** The durable store on top of the backed-up file: what one locked operation does to it
    (lib/durable-store.js 197-273, lib/atomic-json.js 59-144). */
module DurableStore {
  import opened BackupRing
  import Lock = LockProtocol

  type Doc = Lock.Doc

  /** What save and mutate return, or the errors they throw. */
  datatype Answer = Wrote(revision: int) | Unchanged(revision: int) | Conflict(actual: int) | Corrupted(reason: Reason) | WriteFailed

  /** The document a fresh load sees. */
  function Visible(r: Ring<Doc>): Lock.Option<Doc>
    requires |r.slots| > 0
  {
    if r.slots[0].Good? then Lock.Some(r.slots[0].doc) else Lock.None
  }

  function LoadedDoc(out: Loaded<Doc>, fallback: Lock.Payload): Lock.Loaded
    requires out.Fallback? || out.Primary? || out.Recovered?
  {
    if out.Fallback? then Lock.Loaded(fallback, 0, false) else Lock.Loaded(out.doc.payload, out.doc.revision, true)
  }

  /** The body that save and mutate run under the lock. */
  ghost function Operate(r: Ring<Doc>, hits: seq<Hit>, keep: nat, fallback: Lock.Payload, job: Lock.Job): (Ring<Doc>, Answer)
    requires keep < |r.slots|
  {
    var (r1, out) := Load(r, hits, keep);
    if out.Failed? then (r1, Corrupted(out.reason))
    else if out.WriteError? then (r1, WriteFailed)
    else
      var l := LoadedDoc(out, fallback);
      var next := Lock.Outcome(job, l);
      if next.None? then (r1, if job.Save? then Conflict(l.revision) else Unchanged(l.revision))
      else
        var (r2, ok) := Write(r1, hits, keep, next.value);
        (r2, if ok then Wrote(next.value.revision) else WriteFailed)
  }

  /** The single commit step of the locking protocol is a sound picture of the many file operations
      behind it: with a sound primary, whatever fails and wherever the process dies, the visible
      document afterwards is the one before or the one the job produces, and it is the latter
      exactly when the operation reports the write. */
  lemma OperationIsOneStep(r: Ring<Doc>, hits: seq<Hit>, keep: nat, fallback: Lock.Payload, job: Lock.Job)
    requires NewestFirst(r) && keep < |r.slots| && !r.slots[0].Corrupt?
    ensures var (r', a) := Operate(r, hits, keep, fallback, job);
            var next := Lock.Outcome(job, Lock.Read(fallback, Visible(r)));
            && NewestFirst(r') && !r'.slots[0].Corrupt?
            && Visible(r') == (if a.Wrote? then next else Visible(r))
            && (a.Wrote? ==> next == Lock.Some(r'.slots[0].doc) && a.revision == next.value.revision)
            && (next.None? <==> a.Conflict? || a.Unchanged?)
  {
    var l := Lock.Read(fallback, Visible(r));
    var next := Lock.Outcome(job, l);
    assert Load(r, hits, keep).0 == r && LoadedDoc(Load(r, hits, keep).1, fallback) == l;
    if next.Some? {
      WriteKeeps(r, hits, keep, next.value);
    }
  }

  /** With a damaged primary an operation first falls back to the newest readable backup, and it
      refuses, leaving every file alone, when there is none. */
  lemma {:induction false} DamagedOperation(r: Ring<Doc>, hits: seq<Hit>, keep: nat, fallback: Lock.Payload, job: Lock.Job)
    requires NewestFirst(r) && keep < |r.slots| && r.slots[0].Corrupt?
    ensures var (r', a) := Operate(r, hits, keep, fallback, job); var n := FirstGood(r.slots, 1, keep);
            && NewestFirst(r')
            && (a.Corrupted? <==> n > keep)
            && (a.Corrupted? ==> r' == r && a.reason == r.slots[0].reason)
            && (a.Wrote? ==> Lock.Outcome(job, Lock.Read(fallback, Lock.Some(r.slots[n].doc))) == Visible(r'))
            && (a.Conflict? || a.Unchanged? ==> Visible(r') == Lock.Some(r.slots[n].doc))
  {
    var (r1, out) := Load(r, hits, keep);
    LoadKeeps(r, hits, keep);
    if out.Recovered? {
      var next := Lock.Outcome(job, LoadedDoc(out, fallback));
      if next.Some? {
        WriteKeeps(r1, hits, keep, next.value);
      }
    }
  }

  // ---------------------------------------------------------------- what is stored

  /** The document an operation works on: the primary, the newest readable backup of a damaged one, or
      the default when there is no file. */
  ghost predicate WorksOn(r: Ring<Doc>, keep: nat, fallback: Lock.Payload, l: Lock.Loaded)
    requires keep < |r.slots|
  {
    match r.slots[0]
    case Absent => l == Lock.Loaded(fallback, 0, false)
    case Good(_, doc) => l == Lock.Loaded(doc.payload, doc.revision, true)
    case Corrupt(_) =>
      exists n | 1 <= n <= keep ::
        && r.slots[n].Good? && l == Lock.Loaded(r.slots[n].doc.payload, r.slots[n].doc.revision, true)
        && forall i | 1 <= i < n :: !r.slots[i].Good?
  }

  lemma LoadWorksOn(r: Ring<Doc>, hits: seq<Hit>, keep: nat, fallback: Lock.Payload, l: Lock.Loaded)
    requires NewestFirst(r) && keep < |r.slots| && WorksOn(r, keep, fallback, l)
    ensures var (r', out) := Load(r, hits, keep);
            && NewestFirst(r') && |r'.slots| == |r.slots| && !out.Failed?
            && (out.WriteError? || LoadedDoc(out, fallback) == l)
            && (out.WriteError? ==> r.slots[0].Corrupt?)
            && (r.alive && QuietFrom(hits, r.clock) ==> !out.WriteError? && r'.alive && QuietFrom(hits, r'.clock))
  {
    LoadKeeps(r, hits, keep);
    if r.slots[0].Corrupt? {
      var n :| 1 <= n <= keep && r.slots[n].Good? && l == Lock.Loaded(r.slots[n].doc.payload, r.slots[n].doc.revision, true)
               && forall i | 1 <= i < n :: !r.slots[i].Good?;
      assert FirstGood(r.slots, 1, keep) == n;
    }
  }

  lemma QuietWriteLands(r: Ring<Doc>, hits: seq<Hit>, keep: nat, doc: Doc)
    requires r.alive && QuietFrom(hits, r.clock) && keep < |r.slots|
    ensures Write(r, hits, keep, doc).1
  {
    if keep == 0 || r.slots[0].Absent? {
      QuietWriteAlone(r, hits, keep, doc);
    } else {
      QuietWriteShifts(r, hits, keep, doc);
    }
  }

  /** A mutate that reports its write has stored the payload its callback returned, at the next revision;
      it reports no change exactly when the callback returned nothing; undisturbed, it does one or the
      other. */
  lemma MutateStores(r: Ring<Doc>, hits: seq<Hit>, keep: nat, fallback: Lock.Payload, fn: Lock.Loaded -> Lock.Option<Lock.Payload>,
                     l: Lock.Loaded)
    requires NewestFirst(r) && keep < |r.slots| && WorksOn(r, keep, fallback, l)
    ensures var (r', a) := Operate(r, hits, keep, fallback, Lock.Mutate(fn));
            && (a.Wrote? ==> fn(l).Some? && Visible(r') == Lock.Some(Lock.Doc(fn(l).value, l.revision + 1)) && a.revision == l.revision + 1)
            && (a.Unchanged? ==> fn(l).None? && a.revision == l.revision)
            && (a.Wrote? || a.Unchanged? || a.WriteFailed?)
            && (r.alive && QuietFrom(hits, r.clock) ==> a == if fn(l).Some? then Wrote(l.revision + 1) else Unchanged(l.revision))
  {
    LoadWorksOn(r, hits, keep, fallback, l);
    var (r1, out) := Load(r, hits, keep);
    if !out.WriteError? && fn(l).Some? {
      WriteKeeps(r1, hits, keep, Lock.Doc(fn(l).value, l.revision + 1));
      if r.alive && QuietFrom(hits, r.clock) {
        QuietWriteLands(r1, hits, keep, Lock.Doc(fn(l).value, l.revision + 1));
      }
    }
  }

  /** A save that reports its write has stored its payload at the next revision; it conflicts exactly
      when a revision is expected and the stored one is another. */
  lemma SaveStores(r: Ring<Doc>, hits: seq<Hit>, keep: nat, fallback: Lock.Payload, payload: Lock.Payload, expected: Lock.Option<int>,
                   l: Lock.Loaded)
    requires NewestFirst(r) && keep < |r.slots| && WorksOn(r, keep, fallback, l)
    ensures var (r', a) := Operate(r, hits, keep, fallback, Lock.Save(payload, expected));
            var stale := expected.Some? && expected.value != l.revision;
            && (a.Wrote? ==> !stale && Visible(r') == Lock.Some(Lock.Doc(payload, l.revision + 1)) && a.revision == l.revision + 1)
            && (a.Conflict? ==> stale && a.actual == l.revision)
            && (a.Wrote? || a.Conflict? || a.WriteFailed?)
            && (r.alive && QuietFrom(hits, r.clock) ==> a == if stale then Conflict(l.revision) else Wrote(l.revision + 1))
  {
    LoadWorksOn(r, hits, keep, fallback, l);
    var (r1, out) := Load(r, hits, keep);
    if !out.WriteError? && !(expected.Some? && expected.value != l.revision) {
      WriteKeeps(r1, hits, keep, Lock.Doc(payload, l.revision + 1));
      if r.alive && QuietFrom(hits, r.clock) {
        QuietWriteLands(r1, hits, keep, Lock.Doc(payload, l.revision + 1));
      }
    }
  }

  // ---------------------------------------------------------------- the files

  /** One JSON file, its backups, and the process working on them. */
  class JsonFile<T> {
    const slots: array<Slot<T>>
    const hits: seq<Hit>
    var written: nat
    var clock: nat
    var alive: bool

    ghost function Now(): (r: Ring<T>)
      reads this, slots
      ensures |r.slots| == slots.Length
    {
      Ring(slots[..], written, clock, alive)
    }

    constructor (n: nat, hits: seq<Hit>)
      ensures Now() == Empty(n) && this.hits == hits && fresh(slots)
    {
      slots := new Slot<T>[n](_ => Absent);
      this.hits := hits;
      written, clock, alive := 0, 0, true;
      new;
      assert slots[..] == Empty<T>(n).slots;
    }

    /** Whether the next file operation takes effect. */
    method Step() returns (lands: bool)
      modifies this`clock, this`alive
      ensures lands == Lands(old(Now()), hits) && Now() == Tick(old(Now()), hits)
    {
      var hit := At(hits, clock);
      lands := alive && hit.Fine?;
      clock := clock + 1;
      alive := alive && !hit.Dies?;
    }

    method RemoveBackup(i: nat)
      requires i < slots.Length
      modifies this`clock, this`alive, slots
      ensures Now() == Remove(old(Now()), hits, i)
    {
      var lands := Step();
      if lands {
        slots[i] := Absent;
      }
    }

    method RenameBackup(i: nat)
      requires i + 1 < slots.Length
      modifies this`clock, this`alive, slots
      ensures Now() == Shift(old(Now()), hits, i)
    {
      var lands := Step();
      if lands && !slots[i].Absent? {
        slots[i + 1] := slots[i];
        slots[i] := Absent;
      }
    }

    method CopyToFirstBackup()
      requires slots.Length > 1
      modifies this`clock, this`alive, slots
      ensures Now() == CopyPrimary(old(Now()), hits)
    {
      var torn := alive && !At(hits, clock).Fine? && At(hits, clock).torn;
      var lands := Step();
      if lands {
        slots[1] := slots[0];
      } else if torn {
        slots[1] := Corrupt(Truncated);
      }
    }

    method ReplacePrimary(s: Slot<T>) returns (ok: bool)
      requires slots.Length > 0
      modifies this`clock, this`alive, slots
      ensures (Now(), ok) == Replace(old(Now()), hits, s)
    {
      ok := Step();
      if ok {
        slots[0] := s;
      }
    }

    method RotateBackups(keep: nat)
      requires keep < slots.Length
      modifies this`clock, this`alive, slots
      ensures Now() == Rotate(old(Now()), hits, keep)
    {
      if keep == 0 || slots[0].Absent? {
        return;
      }
      RemoveBackup(keep);
      var i := keep - 1;
      while i >= 1
        invariant 0 <= i < keep && Now().written == old(Now()).written
        invariant ShiftDown(Now(), hits, i) == ShiftDown(Remove(old(Now()), hits, keep), hits, keep - 1)
        decreases i
      {
        RenameBackup(i);
        i := i - 1;
      }
      CopyToFirstBackup();
    }

    method WriteJson(keep: nat, doc: T) returns (ok: bool)
      requires keep < slots.Length
      modifies this, slots
      ensures (Now(), ok) == Write(old(Now()), hits, keep, doc)
    {
      RotateBackups(keep);
      RotateKeepsCount(old(Now()), hits, keep);
      written := written + 1;
      ok := ReplacePrimary(Good(written, doc));
    }

    method LoadOrRecover(keep: nat) returns (out: Loaded<T>)
      requires keep < slots.Length
      modifies this, slots
      ensures (Now(), out) == Load(old(Now()), hits, keep)
    {
      match slots[0]
      case Absent => out := Fallback;
      case Good(_, doc) => out := Primary(doc);
      case Corrupt(reason) =>
        var i := 1;
        while i <= keep
          invariant 1 <= i <= keep + 1 && Now() == old(Now())
          invariant FirstGood(slots[..], 1, keep) == FirstGood(slots[..], i, keep)
        {
          if slots[i].Good? {
            var found := slots[i];
            var _ := Step();
            var ok := ReplacePrimary(found);
            return if ok then Recovered(i, found.doc) else WriteError;
          }
          i := i + 1;
        }
        out := Failed(reason);
    }
  }

  lemma RotateKeepsCount<T>(r: Ring<T>, hits: seq<Hit>, keep: nat)
    requires keep < |r.slots|
    ensures Rotate(r, hits, keep).written == r.written
  {
    if keep > 0 {
      ShiftDownKeepsCount(Remove(r, hits, keep), hits, keep - 1);
    }
  }

  lemma {:induction false} ShiftDownKeepsCount<T>(r: Ring<T>, hits: seq<Hit>, i: nat)
    requires i < |r.slots| && (i > 0 ==> i + 1 < |r.slots|)
    ensures ShiftDown(r, hits, i).written == r.written
    decreases i
  {
    if i > 0 {
      ShiftDownKeepsCount(Shift(r, hits, i), hits, i - 1);
    }
  }

  /** The store; its operations run with the lock held. */
  class Store {
    const file: JsonFile<Doc>
    const keep: nat
    const fallback: Lock.Payload

    constructor (file: JsonFile<Doc>, keep: nat, fallback: Lock.Payload)
      ensures this.file == file && this.keep == keep && this.fallback == fallback
    {
      this.file, this.keep, this.fallback := file, keep, fallback;
    }

    method Save(payload: Lock.Payload, expected: Lock.Option<int>) returns (a: Answer)
      requires keep < file.slots.Length
      modifies file, file.slots
      ensures (file.Now(), a) == Operate(old(file.Now()), file.hits, keep, fallback, Lock.Save(payload, expected))
    {
      var out := file.LoadOrRecover(keep);
      if out.Failed? {
        return Corrupted(out.reason);
      }
      if out.WriteError? {
        return WriteFailed;
      }
      var current := LoadedDoc(out, fallback);
      if expected.Some? && expected.value != current.revision {
        return Conflict(current.revision);
      }
      var revision := current.revision + 1;
      var ok := file.WriteJson(keep, Lock.Doc(payload, revision));
      return if ok then Wrote(revision) else WriteFailed;
    }

    method Mutate(fn: Lock.Loaded -> Lock.Option<Lock.Payload>) returns (a: Answer)
      requires keep < file.slots.Length
      modifies file, file.slots
      ensures (file.Now(), a) == Operate(old(file.Now()), file.hits, keep, fallback, Lock.Mutate(fn))
    {
      var out := file.LoadOrRecover(keep);
      if out.Failed? {
        return Corrupted(out.reason);
      }
      if out.WriteError? {
        return WriteFailed;
      }
      var current := LoadedDoc(out, fallback);
      var next := fn(current);
      if next.None? {
        return Unchanged(current.revision);
      }
      var revision := current.revision + 1;
      var ok := file.WriteJson(keep, Lock.Doc(next.value, revision));
      return if ok then Wrote(revision) else WriteFailed;
    }
  }
}
