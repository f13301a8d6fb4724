/** The rolling backups of one JSON file and their recovery (lib/atomic-json.js 59-144). */
module BackupRing {

  datatype Option<+T> = None | Some(value: T)

  /** Why a file does not read as a document. */
  datatype Reason = Permission | Io | Truncated | Unparseable | Invalid

  /** A slot of the ring: 0 is the primary, i is `.bak<i>`. A document carries the number of the
      write that produced it; copies keep that number. */
  datatype Slot<+T> = Absent | Corrupt(reason: Reason) | Good(gen: nat, doc: T)

  /** What happens to a step: it works, it throws, or the process dies at it. A copy can leave a
      truncated target behind in both bad cases. */
  datatype Hit = Fine | Fails(torn: bool) | Dies(torn: bool)

  datatype Ring<+T> = Ring(slots: seq<Slot<T>>, written: nat, clock: nat, alive: bool)

  datatype Loaded<+T> = Fallback | Primary(doc: T) | Recovered(backup: nat, doc: T) | Failed(reason: Reason) | WriteError

  function At(hits: seq<Hit>, t: nat): Hit {
    if t < |hits| then hits[t] else Fine
  }

  predicate Lands<T>(r: Ring<T>, hits: seq<Hit>) {
    r.alive && At(hits, r.clock).Fine?
  }

  predicate Tears<T>(r: Ring<T>, hits: seq<Hit>) {
    r.alive && !At(hits, r.clock).Fine? && At(hits, r.clock).torn
  }

  function Tick<T>(r: Ring<T>, hits: seq<Hit>): Ring<T> {
    r.(clock := r.clock + 1, alive := r.alive && !At(hits, r.clock).Dies?)
  }

  // ---------------------------------------------------------------- steps

  function Remove<T>(r: Ring<T>, hits: seq<Hit>, i: nat): Ring<T>
    requires i < |r.slots|
  {
    if Lands(r, hits) then Tick(r, hits).(slots := r.slots[i := Absent]) else Tick(r, hits)
  }

  /** Renames `.bak<i>` to `.bak<i+1>`; a missing source and any error are swallowed. */
  function Shift<T>(r: Ring<T>, hits: seq<Hit>, i: nat): Ring<T>
    requires i + 1 < |r.slots|
  {
    if Lands(r, hits) && !r.slots[i].Absent? then Tick(r, hits).(slots := r.slots[i + 1 := r.slots[i]][i := Absent])
    else Tick(r, hits)
  }

  /** Copies the primary over `.bak1`. */
  function CopyPrimary<T>(r: Ring<T>, hits: seq<Hit>): Ring<T>
    requires 1 < |r.slots|
  {
    if Lands(r, hits) then Tick(r, hits).(slots := r.slots[1 := r.slots[0]])
    else if Tears(r, hits) then Tick(r, hits).(slots := r.slots[1 := Corrupt(Truncated)])
    else Tick(r, hits)
  }

  /** A temporary file renamed over the primary: all or nothing. */
  function Replace<T>(r: Ring<T>, hits: seq<Hit>, s: Slot<T>): (Ring<T>, bool)
    requires |r.slots| > 0
  {
    if Lands(r, hits) then (Tick(r, hits).(slots := r.slots[0 := s]), true) else (Tick(r, hits), false)
  }

  /** The shifting loop from index i down to 1. */
  function ShiftDown<T>(r: Ring<T>, hits: seq<Hit>, i: nat): (r': Ring<T>)
    requires i < |r.slots| && (i > 0 ==> i + 1 < |r.slots|)
    ensures |r'.slots| == |r.slots|
    decreases i
  {
    if i == 0 then r else ShiftDown(Shift(r, hits, i), hits, i - 1)
  }

  function Rotate<T>(r: Ring<T>, hits: seq<Hit>, keep: nat): (r': Ring<T>)
    requires keep < |r.slots|
    ensures |r'.slots| == |r.slots|
  {
    if keep == 0 || r.slots[0].Absent? then r
    else CopyPrimary(ShiftDown(Remove(r, hits, keep), hits, keep - 1), hits)
  }

  /** Writes the next generation. */
  function Write<T>(r: Ring<T>, hits: seq<Hit>, keep: nat, doc: T): (res: (Ring<T>, bool))
    requires keep < |r.slots|
    ensures |res.0.slots| == |r.slots|
  {
    Replace(Rotate(r, hits, keep).(written := r.written + 1), hits, Good(r.written + 1, doc))
  }

  /** The first readable backup among i..keep, or keep + 1. */
  function FirstGood<T>(slots: seq<Slot<T>>, i: nat, keep: nat): (n: nat)
    requires keep < |slots| && i <= keep + 1
    ensures i <= n <= keep + 1 && (n <= keep ==> slots[n].Good?)
    ensures forall j | i <= j < n :: !slots[j].Good?
    decreases keep + 1 - i
  {
    if i == keep + 1 || slots[i].Good? then i else FirstGood(slots, i + 1, keep)
  }

  function Load<T>(r: Ring<T>, hits: seq<Hit>, keep: nat): (res: (Ring<T>, Loaded<T>))
    requires keep < |r.slots|
    ensures |res.0.slots| == |r.slots|
  {
    match r.slots[0]
    case Absent => (r, Fallback)
    case Good(_, doc) => (r, Primary(doc))
    case Corrupt(reason) =>
      var n := FirstGood(r.slots, 1, keep);
      if n > keep then (r, Failed(reason))
      else
        var (r1, ok) := Replace(Tick(r, hits), hits, r.slots[n]);
        (r1, if ok then Recovered(n, r.slots[n].doc) else WriteError)
  }

  // ---------------------------------------------------------------- order

  /** Readable slots are in newest-first order, the primary before every backup, and none is newer
      than the last write. */
  ghost predicate NewestFirst<T>(r: Ring<T>) {
    && (forall i, j | 0 <= i < j < |r.slots| && r.slots[i].Good? && r.slots[j].Good? :: r.slots[i].gen >= r.slots[j].gen)
    && (forall i | 0 <= i < |r.slots| && r.slots[i].Good? :: r.slots[i].gen <= r.written)
  }

  lemma {:induction false} ShiftDownKeeps<T>(r: Ring<T>, hits: seq<Hit>, i: nat)
    requires NewestFirst(r) && i < |r.slots| && (i > 0 ==> i + 1 < |r.slots|)
    ensures var r' := ShiftDown(r, hits, i);
            && NewestFirst(r') && r' == r.(slots := r'.slots, clock := r'.clock, alive := r'.alive)
            && (|r.slots| > 0 ==> r'.slots[0] == r.slots[0]) && (r'.alive ==> r.alive)
    decreases i
  {
    if i > 0 {
      ShiftDownKeeps(Shift(r, hits, i), hits, i - 1);
    }
  }

  lemma RemoveKeeps<T>(r: Ring<T>, hits: seq<Hit>, i: nat)
    requires NewestFirst(r) && 0 < i < |r.slots|
    ensures var r' := Remove(r, hits, i);
            && NewestFirst(r') && r' == r.(slots := r'.slots, clock := r'.clock, alive := r'.alive)
            && |r'.slots| == |r.slots| && r'.slots[0] == r.slots[0] && (r'.alive ==> r.alive)
  {
  }

  lemma CopyKeeps<T>(r: Ring<T>, hits: seq<Hit>)
    requires NewestFirst(r) && 1 < |r.slots|
    ensures var r' := CopyPrimary(r, hits);
            && NewestFirst(r') && r' == r.(slots := r'.slots, clock := r'.clock, alive := r'.alive)
            && r'.slots[0] == r.slots[0] && (r'.alive ==> r.alive)
  {
  }

  lemma RotateKeeps<T>(r: Ring<T>, hits: seq<Hit>, keep: nat)
    requires NewestFirst(r) && keep < |r.slots|
    ensures var r' := Rotate(r, hits, keep);
            && NewestFirst(r') && r' == r.(slots := r'.slots, clock := r'.clock, alive := r'.alive)
            && r'.slots[0] == r.slots[0] && (r'.alive ==> r.alive)
  {
    if keep > 0 && !r.slots[0].Absent? {
      RemoveKeeps(r, hits, keep);
      ShiftDownKeeps(Remove(r, hits, keep), hits, keep - 1);
      CopyKeeps(ShiftDown(Remove(r, hits, keep), hits, keep - 1), hits);
    }
  }

  /** Whatever fails and wherever the process dies, a write leaves the old or the new primary and
      the ring in order; a successful one leaves the new primary. */
  lemma WriteKeeps<T>(r: Ring<T>, hits: seq<Hit>, keep: nat, doc: T)
    requires NewestFirst(r) && keep < |r.slots|
    ensures var (r', ok) := Write(r, hits, keep, doc);
            && NewestFirst(r')
            && r'.slots[0] == if ok then Good(r.written + 1, doc) else r.slots[0]
  {
    RotateKeeps(r, hits, keep);
  }

  // ---------------------------------------------------------------- runs

  datatype Event<+T> = Save(keep: nat, doc: T) | Recover(keep: nat) | Damage(slot: nat, left: Slot<T>)

  /** Damage at rest makes any slot unreadable or removes it. */
  function Apply<T>(r: Ring<T>, hits: seq<Hit>, e: Event<T>): (r': Ring<T>)
    ensures |r'.slots| == |r.slots|
  {
    var started := r.(alive := true);
    match e
    case Save(keep, doc) => if keep < |r.slots| then Write(started, hits, keep, doc).0 else r
    case Recover(keep) => if keep < |r.slots| then Load(started, hits, keep).0 else r
    case Damage(i, left) => if i < |r.slots| && !left.Good? then r.(slots := r.slots[i := left]) else r
  }

  function Run<T>(r: Ring<T>, hits: seq<Hit>, events: seq<Event<T>>): (r': Ring<T>)
    ensures |r'.slots| == |r.slots|
  {
    if events == [] then r else Apply(Run(r, hits, events[..|events| - 1]), hits, events[|events| - 1])
  }

  function Empty<T>(n: nat): Ring<T> {
    Ring(seq(n, _ => Absent), 0, 0, true)
  }

  lemma LoadKeeps<T>(r: Ring<T>, hits: seq<Hit>, keep: nat)
    requires NewestFirst(r) && keep < |r.slots|
    ensures NewestFirst(Load(r, hits, keep).0)
  {
  }

  /** Over any run of writes, recoveries, crashes at any file operation and damage at rest. */
  lemma {:induction false} EveryRunIsNewestFirst<T>(n: nat, hits: seq<Hit>, events: seq<Event<T>>)
    ensures NewestFirst(Run(Empty(n), hits, events))
    decreases |events|
  {
    if events != [] {
      var r := Run(Empty(n), hits, events[..|events| - 1]);
      EveryRunIsNewestFirst(n, hits, events[..|events| - 1]);
      match events[|events| - 1]
      case Save(keep, doc) => if keep < |r.slots| { WriteKeeps(r.(alive := true), hits, keep, doc); }
      case Recover(keep) => if keep < |r.slots| { LoadKeeps(r.(alive := true), hits, keep); }
      case Damage(_, _) =>
    }
  }

  // ---------------------------------------------------------------- recovery

  /** `s` is readable and at least as new as every readable slot a load may consult. */
  ghost predicate Newest<T>(slots: seq<Slot<T>>, keep: nat, s: Slot<T>)
    requires keep < |slots|
  {
    s.Good? && forall i | 0 <= i <= keep && slots[i].Good? :: slots[i].gen <= s.gen
  }

  /** After any run, a load falls back to the default exactly when the primary is absent, reports the
      primary's own error exactly when no backup reads either, and otherwise yields the newest
      surviving document. */
  lemma LoadYieldsNewest<T>(n: nat, hits: seq<Hit>, events: seq<Event<T>>, keep: nat)
    requires keep < n
    ensures var r := Run(Empty(n), hits, events); var out := Load(r, hits, keep).1;
            && (out.Fallback? <==> r.slots[0].Absent?)
            && (forall reason :: out == Failed(reason) <==>
                  r.slots[0] == Corrupt(reason) && forall i | 1 <= i <= keep :: !r.slots[i].Good?)
            && (out.Primary? ==> Newest(r.slots, keep, r.slots[0]) && out.doc == r.slots[0].doc)
            && (out.Recovered? ==> 1 <= out.backup <= keep && Newest(r.slots, keep, r.slots[out.backup])
                                   && out.doc == r.slots[out.backup].doc)
  {
    EveryRunIsNewestFirst(n, hits, events);
  }

  /** A recovered document is the primary from then on: loading again changes nothing. */
  lemma RecoveryIsIdempotent<T>(r: Ring<T>, hits: seq<Hit>, keep: nat)
    requires keep < |r.slots| && Load(r, hits, keep).1.Recovered?
    ensures var (r', out) := Load(r, hits, keep);
            Load(r', hits, keep) == (r', Primary(out.doc)) && r'.slots[1..] == r.slots[1..]
  {
  }

  // ---------------------------------------------------------------- what rotation keeps

  ghost predicate CrashOnly(hits: seq<Hit>) {
    forall t: nat :: !At(hits, t).Fails?
  }

  /** A crashing rotation has either moved the document at j one place back or not touched it yet. */
  ghost predicate Survives<T>(before: Ring<T>, after: Ring<T>, j: nat)
    requires j + 1 < |before.slots| && |after.slots| == |before.slots|
  {
    before.slots[j].Good? ==>
      after.slots[j + 1] == before.slots[j] || (!after.alive && after.slots[j] == before.slots[j])
  }

  lemma {:induction false} ShiftDownSurvives<T>(r: Ring<T>, hits: seq<Hit>, i: nat, j: nat)
    requires CrashOnly(hits) && i < |r.slots| && (i > 0 ==> i + 1 < |r.slots|) && j < |r.slots|
    ensures var r' := ShiftDown(r, hits, i);
            && (1 <= j <= i ==> Survives(r, r', j))
            && (j == 0 || j > i + 1 ==> r'.slots[j] == r.slots[j])
            && (!r.alive ==> !r'.alive && r'.slots == r.slots)
    decreases i
  {
    if i > 0 {
      assert !At(hits, r.clock).Fails?;
      var r1 := Shift(r, hits, i);
      ShiftDownSurvives(r1, hits, i - 1, j);
      ShiftDownSurvives(r1, hits, i - 1, i + 1);
    }
  }

  /** If no operation throws, a write that completes or dies anywhere loses at most the oldest
      backup: every other readable generation is still where it was, or one place further. */
  lemma OnlyTheOldestIsLost<T>(r: Ring<T>, hits: seq<Hit>, keep: nat, doc: T, j: nat)
    requires CrashOnly(hits) && j < keep < |r.slots| && r.slots[j].Good?
    requires !r.slots[0].Absent?
    ensures var r' := Write(r, hits, keep, doc).0; r'.slots[j] == r.slots[j] || r'.slots[j + 1] == r.slots[j]
  {
    var r1 := Remove(r, hits, keep);
    ShiftDownSurvives(r1, hits, keep - 1, j);
    ShiftDownSurvives(r1, hits, keep - 1, 0);
    var r2 := ShiftDown(r1, hits, keep - 1);
    assert !At(hits, r.clock).Fails? && !At(hits, r2.clock).Fails? && !At(hits, r2.clock + 1).Fails?;
  }

  ghost predicate QuietFrom(hits: seq<Hit>, t: nat) {
    forall u: nat :: t <= u ==> At(hits, u).Fine?
  }

  lemma {:induction false} ShiftDownQuiet<T>(r: Ring<T>, hits: seq<Hit>, i: nat, j: nat)
    requires r.alive && QuietFrom(hits, r.clock) && i < |r.slots| && (i > 0 ==> i + 1 < |r.slots|) && j < |r.slots|
    requires i > 0 ==> r.slots[i + 1].Absent?
    ensures var r' := ShiftDown(r, hits, i);
            && (1 <= j <= i ==> r'.slots[j + 1] == r.slots[j])
            && (j == 0 || j > i + 1 ==> r'.slots[j] == r.slots[j])
            && r'.alive && QuietFrom(hits, r'.clock) && r'.written == r.written
    decreases i
  {
    if i > 0 {
      assert At(hits, r.clock).Fine?;
      var r1 := Shift(r, hits, i);
      ShiftDownQuiet(r1, hits, i - 1, j);
      ShiftDownQuiet(r1, hits, i - 1, i + 1);
    }
  }

  /** Undisturbed, a write puts the new document in front, moves every slot one place back and drops
      the last one kept. */
  lemma QuietWriteShifts<T>(r: Ring<T>, hits: seq<Hit>, keep: nat, doc: T)
    requires r.alive && QuietFrom(hits, r.clock) && 0 < keep < |r.slots| && !r.slots[0].Absent?
    ensures var (r', ok) := Write(r, hits, keep, doc);
            && ok && r'.slots == [Good(r.written + 1, doc)] + r.slots[..keep] + r.slots[keep + 1..]
            && r'.alive && QuietFrom(hits, r'.clock) && r'.written == r.written + 1
  {
    assert At(hits, r.clock).Fine?;
    var r1 := Remove(r, hits, keep);
    var r2 := ShiftDown(r1, hits, keep - 1);
    ShiftDownQuiet(r1, hits, keep - 1, 0);
    assert At(hits, r2.clock).Fine? && At(hits, r2.clock + 1).Fine?;
    var r' := Write(r, hits, keep, doc).0;
    var expected := [Good(r.written + 1, doc)] + r.slots[..keep] + r.slots[keep + 1..];
    forall j | 0 <= j < |r.slots| ensures r'.slots[j] == expected[j] {
      ShiftDownQuiet(r1, hits, keep - 1, if 1 < j <= keep then j - 1 else j);
    }
    assert r'.slots == expected;
  }

  /** Renaming a backup that is not there leaves the one it would replace alone. */
  lemma MissingBackupStays<T>(r: Ring<T>, hits: seq<Hit>, i: nat)
    requires i + 1 < |r.slots| && r.slots[i].Absent?
    ensures Shift(r, hits, i).slots == r.slots
  {
  }

  /** Without backups to keep or a file to back up, only the primary changes. */
  lemma QuietWriteAlone<T>(r: Ring<T>, hits: seq<Hit>, keep: nat, doc: T)
    requires r.alive && QuietFrom(hits, r.clock) && keep < |r.slots| && (keep == 0 || r.slots[0].Absent?)
    ensures var (r', ok) := Write(r, hits, keep, doc);
            && ok && r'.slots == r.slots[0 := Good(r.written + 1, doc)]
            && r'.alive && QuietFrom(hits, r'.clock) && r'.written == r.written + 1
  {
    assert At(hits, r.clock).Fine?;
  }

  lemma QuietWriteAt<T>(r: Ring<T>, hits: seq<Hit>, keep: nat, doc: T, j: nat)
    requires r.alive && QuietFrom(hits, r.clock) && 0 < keep < |r.slots| && !r.slots[0].Absent? && j <= keep
    ensures var r' := Write(r, hits, keep, doc).0;
            && r'.slots[j] == (if j == 0 then Good(r.written + 1, doc) else r.slots[j - 1])
            && r'.slots[0].Good? && r'.alive && QuietFrom(hits, r'.clock) && r'.written == r.written + 1
  {
    QuietWriteShifts(r, hits, keep, doc);
  }

  function Saves<T>(keep: nat, docs: seq<T>): seq<Event<T>> {
    seq(|docs|, i requires 0 <= i < |docs| => Save(keep, docs[i]))
  }

  /** After any number of undisturbed writes the ring holds the most recent documents, newest first,
      each under the number of its write. */
  lemma {:induction false} RingHoldsTheLatest<T>(n: nat, hits: seq<Hit>, keep: nat, docs: seq<T>, j: nat)
    requires QuietFrom(hits, 0) && 0 < keep < n && j <= keep && j < |docs|
    ensures var r := Run(Empty(n), hits, Saves(keep, docs));
            && r.alive && QuietFrom(hits, r.clock) && r.written == |docs|
            && r.slots[j] == Good(|docs| - j, docs[|docs| - 1 - j]) && r.slots[0].Good?
    decreases |docs|
  {
    var m := |docs| - 1;
    assert Saves(keep, docs)[..m] == Saves(keep, docs[..m]);
    var r := Run(Empty(n), hits, Saves(keep, docs[..m]));
    if m == 0 {
      assert At(hits, 0).Fine?;
    } else {
      RingHoldsTheLatest(n, hits, keep, docs[..m], if j == 0 then 0 else j - 1);
      QuietWriteAt(r, hits, keep, docs[m], j);
    }
  }

  // ---------------------------------------------------------------- corruption

  predicate IsDamage<T>(e: Event<T>) {
    e.Damage?
  }

  predicate PrimaryAdvances<T>(before: Slot<T>, after: Slot<T>) {
    match before
    case Absent => !after.Corrupt?
    case Corrupt(_) => true
    case Good(gen, _) => after.Good? && after.gen >= gen
  }

  /** While nothing is damaged at rest, the primary is never unreadable and its generation never
      goes back, whatever fails or crashes. */
  lemma {:induction false} UndamagedPrimaryAdvances<T>(n: nat, hits: seq<Hit>, events: seq<Event<T>>, e: Event<T>)
    requires n > 0 && (forall i | 0 <= i < |events| :: !IsDamage(events[i])) && !IsDamage(e)
    ensures var r := Run(Empty(n), hits, events);
            !r.slots[0].Corrupt? && PrimaryAdvances(r.slots[0], Apply(r, hits, e).slots[0])
    decreases |events|
  {
    var r := Run(Empty(n), hits, events);
    if events != [] {
      UndamagedPrimaryAdvances(n, hits, events[..|events| - 1], events[|events| - 1]);
    }
    EveryRunIsNewestFirst(n, hits, events);
    if e.Save? && e.keep < |r.slots| {
      WriteKeeps(r.(alive := true), hits, e.keep, e.doc);
    }
  }

  lemma NextIsApply<T>(n: nat, hits: seq<Hit>, events: seq<Event<T>>, e: Event<T>)
    ensures Run(Empty(n), hits, events + [e]) == Apply(Run(Empty(n), hits, events), hits, e)
  {
    assert (events + [e])[..|events|] == events;
  }

  /** A backup among the kept ones holds this generation. */
  predicate Kept<T>(r: Ring<T>, keep: nat, gen: nat)
    requires keep < |r.slots|
  {
    exists i | 1 <= i <= keep :: r.slots[i].Good? && r.slots[i].gen == gen
  }

  predicate NoneKept<T>(r: Ring<T>, keep: nat)
    requires keep < |r.slots|
  {
    forall i | 1 <= i <= keep :: !r.slots[i].Good?
  }

  lemma RecoverDamaged<T>(r: Ring<T>, hits: seq<Hit>, reason: Reason, keep: nat)
    requires keep < |r.slots| && QuietFrom(hits, r.clock)
    ensures var damaged := r.(slots := r.slots[0 := Corrupt(reason)]);
            var found := FirstGood(damaged.slots, 1, keep);
            Apply(damaged, hits, Recover(keep)).slots[0] == if found > keep then Corrupt(reason) else r.slots[found]
  {
    assert At(hits, r.clock + 1).Fine?;
  }

  lemma NewestKept<T>(r: Ring<T>, reason: Reason, keep: nat)
    requires NewestFirst(r) && keep < |r.slots| && r.slots[0].Good?
    ensures var damaged := r.slots[0 := Corrupt(reason)]; var found := FirstGood(damaged, 1, keep);
            if found > keep then NoneKept(r, keep)
            else
              && r.slots[found] in r.slots[1..keep + 1] && Newest(damaged, keep, r.slots[found])
              && r.slots[found].gen <= r.slots[0].gen
              && (r.slots[found].gen == r.slots[0].gen <==> Kept(r, keep, r.slots[0].gen))
  {
    var damaged := r.slots[0 := Corrupt(reason)];
    var found := FirstGood(damaged, 1, keep);
    assert forall i | 1 <= i <= keep :: damaged[i] == r.slots[i];
    if found <= keep {
      assert r.slots[1..keep + 1][found - 1] == r.slots[found];
      if Kept(r, keep, r.slots[0].gen) {
        var i :| 1 <= i <= keep && r.slots[i].Good? && r.slots[i].gen == r.slots[0].gen;
        assert damaged[i].Good? && found <= i;
      }
    }
  }

  /** After any run, if a readable primary is damaged and an undisturbed recovery follows, the primary
      is back at the generation it lost exactly when a kept backup holds that generation. In any case
      it is the newest readable backup, never newer than what was lost, and it stays damaged exactly
      when no backup reads. */
  lemma {:induction false} RecoveryKeepsGenerationIff<T>(n: nat, hits: seq<Hit>, events: seq<Event<T>>, reason: Reason, keep: nat)
    requires keep < n && Run(Empty(n), hits, events).slots[0].Good? && QuietFrom(hits, Run(Empty(n), hits, events).clock)
    ensures var r := Run(Empty(n), hits, events);
            var recovered := Run(Empty(n), hits, events + [Damage(0, Corrupt(reason))] + [Recover(keep)]).slots[0];
            && (recovered.Good? && recovered.gen == r.slots[0].gen <==> Kept(r, keep, r.slots[0].gen))
            && (recovered == Corrupt(reason) <==> NoneKept(r, keep))
            && (!NoneKept(r, keep) ==>
                  recovered in r.slots[1..keep + 1] && Newest(r.slots[0 := Corrupt(reason)], keep, recovered) && recovered.gen <= r.slots[0].gen)
  {
    var r := Run(Empty(n), hits, events);
    EveryRunIsNewestFirst(n, hits, events);
    NextIsApply(n, hits, events, Damage(0, Corrupt(reason)));
    NextIsApply(n, hits, events + [Damage(0, Corrupt(reason))], Recover(keep));
    RecoverDamaged(r, hits, reason, keep);
    NewestKept(r, reason, keep);
  }

  /** Damage ends that: two writes, a damaged primary and a recovery bring back the first write. */
  lemma RecoveryGoesBack<T>(a: T, b: T)
    ensures var r := Run(Empty(2), [], [Save(1, a), Save(1, b), Damage(0, Corrupt(Truncated)), Recover(1)]);
            r.slots[0] == Good(1, a) && r.written == 2
  {
    var events := [Save(1, a), Save(1, b), Damage(0, Corrupt(Truncated)), Recover(1)];
    assert events[..3] == [Save(1, a), Save(1, b), Damage(0, Corrupt(Truncated))];
    assert events[..3][..2] == [Save(1, a), Save(1, b)] && events[..3][..2][..1] == [Save(1, a)];
    assert Saves(1, [a, b]) == [Save(1, a), Save(1, b)];
    RingHoldsTheLatest(2, [], 1, [a, b], 0);
    RingHoldsTheLatest(2, [], 1, [a, b], 1);
    var r := Run(Empty(2), [], [Save(1, a), Save(1, b)]);
    assert Run(Empty(2), [], events[..3]) == r.(slots := r.slots[0 := Corrupt(Truncated)]);
  }
}
