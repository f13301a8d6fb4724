/** Contending processes around one lock file and one stored document (lib/durable-store.js 101-157, 218-273). */
module LockProtocol {

  datatype Option<+T> = None | Some(value: T)

  type Payload = string

  datatype Doc = Doc(payload: Payload, revision: int)

  /** What a callback is given and what `load` returns. */
  datatype Loaded = Loaded(payload: Payload, revision: int, present: bool)

  /** `Mutate` returns the next payload or None for no write. */
  datatype Job = Mutate(fn: Loaded -> Option<Payload>) | Save(payload: Payload, expected: Option<int>)

  /** The lock file's contents. */
  datatype Owner = Owner(pid: nat, token: nat)

  /** What a contender knows about the lock: it may try, its attempt failed, it has read the file
      (None when it was gone), or it has judged what it read stale. */
  datatype View = Fresh | Blocked | Seen(holder: Option<Owner>) | Stale(holder: Option<Owner>)

  datatype Process =
    | Idle
    | Contending(token: nat, job: Job, view: View)
    | Locked(token: nat, turn: nat, job: Job)
    | Working(token: nat, turn: nat, job: Job, loaded: Loaded)
    | Leaving(token: nat, turn: nat)
    | Dead

  /** One committed write: the turn in which the lock was taken, and the job. */
  datatype Entry = Entry(turn: nat, job: Job)

  /** `used` holds every token that has been in the lock file, `log` every write in order. */
  datatype System = System(fallback: Payload, lock: Option<Owner>, file: Option<Doc>, procs: map<nat, Process>,
                           nextToken: nat, nextTurn: nat, used: set<nat>, log: seq<Entry>)

  /** One event is one step of one process. Creating the lock file and writing its contents is one
      step, and so is re-reading it and removing it; every other pair of file operations can be
      interleaved with the other processes, and a process can die between any two steps. */
  datatype Event =
    | Begin(pid: nat, job: Job)
    | TryCreate(pid: nat)
    | ReadLock(pid: nat)
    | JudgeStale(pid: nat)
    | Break(pid: nat)
    | Wait(pid: nat)
    | GiveUp(pid: nat)
    | Load(pid: nat)
    | Commit(pid: nat)
    | Throw(pid: nat)
    | Release(pid: nat)
    | ReleaseFails(pid: nat)
    | Crash(pid: nat)
    | Restart(pid: nat)

  function Of(s: System, p: nat): Process {
    if p in s.procs then s.procs[p] else Idle
  }

  function Set(s: System, p: nat, q: Process): System {
    s.(procs := s.procs[p := q])
  }

  /** The process is alive inside its critical section. */
  predicate Holds(q: Process, token: nat) {
    (q.Locked? || q.Working? || q.Leaving?) && q.token == token
  }

  /** The owner is alive and still inside the critical section it took the lock for. */
  predicate HeldLive(s: System, o: Owner) {
    Holds(Of(s, o.pid), o.token)
  }

  /** When a contender may judge a lock stale. The owner it read is dead or gone, or the file has
      disappeared, or the file that is there now has no live holder. The last case is where the
      age limit is assumed never to catch a live holder. */
  predicate MayBeStale(s: System, holder: Option<Owner>) {
    || s.lock.None?
    || !HeldLive(s, s.lock.value)
    || (holder.Some? && !HeldLive(s, holder.value))
  }

  function Read(fallback: Payload, file: Option<Doc>): Loaded {
    if file.Some? then Loaded(file.value.payload, file.value.revision, true) else Loaded(fallback, 0, false)
  }

  /** The document a job writes, or None when it writes nothing. */
  function Outcome(job: Job, l: Loaded): Option<Doc> {
    match job
    case Mutate(fn) => if fn(l).Some? then Some(Doc(fn(l).value, l.revision + 1)) else None
    case Save(payload, expected) =>
      if expected.Some? && expected.value != l.revision then None else Some(Doc(payload, l.revision + 1))
  }

  function Attempt(s: System, p: nat): System
    requires Of(s, p).Contending?
  {
    var q := Of(s, p);
    if s.lock.Some? then Set(s, p, q.(view := Blocked))
    else
      Set(s, p, Locked(q.token, s.nextTurn, q.job))
        .(lock := Some(Owner(p, q.token)), nextTurn := s.nextTurn + 1, used := s.used + {q.token})
  }

  /** Removes the lock only if it still is what was judged stale. */
  function BreakLock(s: System, p: nat): System
    requires Of(s, p).Contending? && Of(s, p).view.Stale?
  {
    var q := Of(s, p);
    var untouched := if q.view.holder.None? then s.lock.None?
                     else s.lock.Some? && s.lock.value.token == q.view.holder.value.token;
    Set(s, p, q.(view := Fresh)).(lock := if untouched then None else s.lock)
  }

  function Finish(s: System, p: nat): System
    requires Of(s, p).Working?
  {
    var q := Of(s, p);
    var written := Outcome(q.job, q.loaded);
    var left := Set(s, p, Leaving(q.token, q.turn));
    if written.None? then left else left.(file := written, log := s.log + [Entry(q.turn, q.job)])
  }

  function LetGo(s: System, p: nat): System
    requires Of(s, p).Leaving?
  {
    var mine := s.lock.None? || s.lock.value.token == Of(s, p).token;
    Set(s, p, Idle).(lock := if mine then None else s.lock)
  }

  function Next(s: System, e: Event): System {
    var q := Of(s, e.pid);
    match e
    case Begin(p, job) =>
      if q.Idle? then Set(s, p, Contending(s.nextToken, job, Fresh)).(nextToken := s.nextToken + 1) else s
    case TryCreate(p) => if q.Contending? && q.view.Fresh? then Attempt(s, p) else s
    case ReadLock(p) => if q.Contending? && q.view.Blocked? then Set(s, p, q.(view := Seen(s.lock))) else s
    case JudgeStale(p) =>
      if q.Contending? && q.view.Seen? && MayBeStale(s, q.view.holder) then Set(s, p, q.(view := Stale(q.view.holder))) else s
    case Break(p) => if q.Contending? && q.view.Stale? then BreakLock(s, p) else s
    case Wait(p) => if q.Contending? && q.view.Seen? then Set(s, p, q.(view := Fresh)) else s
    case GiveUp(p) => if q.Contending? && q.view.Seen? then Set(s, p, Idle) else s
    case Load(p) => if q.Locked? then Set(s, p, Working(q.token, q.turn, q.job, Read(s.fallback, s.file))) else s
    case Commit(p) => if q.Working? then Finish(s, p) else s
    case Throw(p) => if q.Locked? || q.Working? then Set(s, p, Leaving(q.token, q.turn)) else s
    case Release(p) => if q.Leaving? then LetGo(s, p) else s
    case ReleaseFails(p) => if q.Leaving? then Set(s, p, Idle) else s
    case Crash(p) => Set(s, p, Dead)
    case Restart(p) => if q.Dead? then Set(s, p, Idle) else s
  }

  function Run(s: System, events: seq<Event>): System {
    if events == [] then s else Next(Run(s, events[..|events| - 1]), events[|events| - 1])
  }

  function Start(fallback: Payload, file: Option<Doc>): System {
    System(fallback, None, file, map[], 0, 0, {}, [])
  }

  // ---------------------------------------------------------------- mutual exclusion

  predicate InPlay(q: Process) {
    q.Contending? || q.Locked? || q.Working? || q.Leaving?
  }

  predicate Apart(s: System, p: nat, q: nat) {
    p != q && InPlay(Of(s, p)) && InPlay(Of(s, q)) ==> Of(s, p).token != Of(s, q).token
  }

  /** An owner that was read is either still the owner or will never be it again. */
  predicate Remembers(s: System, o: Owner) {
    o.token in s.used && (s.lock.Some? && s.lock.value.token == o.token ==> s.lock.value == o)
  }

  /** A contender's own token has never been in the file, while every owner it read was; what it
      judged stale is not a live holder's lock; and whoever is inside has its own lock in the file. */
  predicate ProcessFits(s: System, p: nat) {
    var q := Of(s, p);
    && (InPlay(q) ==> q.token < s.nextToken)
    && (q.Contending? ==> q.token !in s.used)
    && (q.Contending? && (q.view.Seen? || q.view.Stale?) && q.view.holder.Some? ==> Remembers(s, q.view.holder.value))
    && (q.Contending? && q.view.Stale? && q.view.holder.Some? && s.lock == q.view.holder ==> !HeldLive(s, s.lock.value))
    && (q.Locked? || q.Working? || q.Leaving? ==> s.lock == Some(Owner(p, q.token)) && q.turn + 1 == s.nextTurn)
  }

  ghost predicate Exclusive(s: System) {
    && (forall p :: ProcessFits(s, p))
    && (forall p, q :: Apart(s, p, q))
    && (forall t | t in s.used :: t < s.nextToken)
    && (s.lock.Some? ==> s.lock.value.token in s.used)
  }

  lemma NextFits(s: System, e: Event, p: nat)
    requires Exclusive(s)
    ensures ProcessFits(Next(s, e), p)
  {
    assert ProcessFits(s, p) && ProcessFits(s, e.pid) && Apart(s, p, e.pid);
  }

  lemma NextExclusive(s: System, e: Event)
    requires Exclusive(s)
    ensures Exclusive(Next(s, e))
  {
    var s' := Next(s, e);
    assert ProcessFits(s, e.pid);
    forall p ensures ProcessFits(s', p) {
      NextFits(s, e, p);
    }
    forall p, q ensures Apart(s', p, q) {
      assert ProcessFits(s, p) && ProcessFits(s, q) && Apart(s, p, q);
    }
  }

  lemma {:induction false} RunExclusive(fallback: Payload, file: Option<Doc>, events: seq<Event>)
    ensures Exclusive(Run(Start(fallback, file), events))
    decreases |events|
  {
    if events != [] {
      RunExclusive(fallback, file, events[..|events| - 1]);
      NextExclusive(Run(Start(fallback, file), events[..|events| - 1]), events[|events| - 1]);
    }
  }

  /** However processes contend, crash, give up and restart, there is never more than one inside. */
  lemma {:induction false} NeverTwoHolders(fallback: Payload, file: Option<Doc>, events: seq<Event>, p: nat, q: nat)
    requires var s := Run(Start(fallback, file), events); HeldBy(s, p) && HeldBy(s, q)
    ensures p == q
  {
    var s := Run(Start(fallback, file), events);
    RunExclusive(fallback, file, events);
    assert ProcessFits(s, p) && ProcessFits(s, q);
  }

  predicate HeldBy(s: System, p: nat) {
    var q := Of(s, p); q.Locked? || q.Working? || q.Leaving?
  }

  /** A lock whose holder died or failed to remove it never wedges: a fresh contender that runs
      undisturbed gets in. */
  lemma StaleLockIsRecovered(s: System, p: nat)
    requires Exclusive(s) && Of(s, p).Contending? && Of(s, p).view.Fresh?
    requires s.lock.Some? && !HeldLive(s, s.lock.value)
    ensures var judged := Next(Next(Next(s, TryCreate(p)), ReadLock(p)), JudgeStale(p));
            Of(Next(Next(judged, Break(p)), TryCreate(p)), p).Locked?
  {
    var q := Of(s, p);
    var judged := Next(Next(Next(s, TryCreate(p)), ReadLock(p)), JudgeStale(p));
    assert Of(judged, p) == q.(view := Stale(s.lock)) && judged.lock == s.lock by {
      assert Of(Next(s, TryCreate(p)), p) == q.(view := Blocked);
      assert Of(Next(Next(s, TryCreate(p)), ReadLock(p)), p) == q.(view := Seen(s.lock));
    }
  }

  // ---------------------------------------------------------------- serializability

  /** The document after the logged jobs ran one after the other, from `file`. */
  function Replay(fallback: Payload, file: Option<Doc>, log: seq<Entry>): Option<Doc> {
    if log == [] then file
    else Outcome(log[|log| - 1].job, Read(fallback, Replay(fallback, file, log[..|log| - 1])))
  }

  /** Every logged job did write when its turn came. */
  predicate AllWrote(fallback: Payload, file: Option<Doc>, log: seq<Entry>) {
    log == [] ||
    (AllWrote(fallback, file, log[..|log| - 1]) && Replay(fallback, file, log).Some?)
  }

  /** Whoever has loaded still sees the current document, and its turn is later than every write's. */
  predicate InsideFits(s: System, p: nat) {
    var q := Of(s, p);
    && (q.Working? ==> q.loaded == Read(s.fallback, s.file))
    && (q.Locked? || q.Working? ==> forall i | 0 <= i < |s.log| :: s.log[i].turn < q.turn)
  }

  ghost predicate Serial(s: System, file: Option<Doc>) {
    && s.file == Replay(s.fallback, file, s.log)
    && AllWrote(s.fallback, file, s.log)
    && (forall p :: InsideFits(s, p))
    && TurnsFit(s)
  }

  lemma FinishInside(s: System, p: nat, q: nat)
    requires Exclusive(s) && Of(s, p).Working? && InsideFits(s, q)
    ensures InsideFits(Finish(s, p), q)
  {
    assert ProcessFits(s, p) && ProcessFits(s, q);
  }

  /** The written document is what the logged jobs, with this one, leave. */
  lemma {:induction false} FinishReplays(s: System, p: nat, file: Option<Doc>)
    requires Of(s, p).Working? && InsideFits(s, p) && s.file == Replay(s.fallback, file, s.log) && AllWrote(s.fallback, file, s.log)
    ensures var s' := Finish(s, p); s'.file == Replay(s'.fallback, file, s'.log) && AllWrote(s'.fallback, file, s'.log)
  {
    var q := Of(s, p);
    if Outcome(q.job, q.loaded).Some? {
      ReplayAppend(s.fallback, file, s.log, Entry(q.turn, q.job));
    }
  }

  lemma {:induction false} ReplayAppend(fallback: Payload, file: Option<Doc>, log: seq<Entry>, e: Entry)
    ensures Replay(fallback, file, log + [e]) == Outcome(e.job, Read(fallback, Replay(fallback, file, log)))
    ensures AllWrote(fallback, file, log + [e]) <==> AllWrote(fallback, file, log) && Replay(fallback, file, log + [e]).Some?
  {
    assert (log + [e])[..|log|] == log;
  }

  ghost predicate TurnsFit(s: System) {
    && (forall i, j | 0 <= i < j < |s.log| :: s.log[i].turn < s.log[j].turn)
    && forall i | 0 <= i < |s.log| :: s.log[i].turn < s.nextTurn
  }

  lemma FinishTurns(s: System, p: nat)
    requires Of(s, p).Working? && InsideFits(s, p) && ProcessFits(s, p) && TurnsFit(s)
    ensures TurnsFit(Finish(s, p))
  {
  }

  lemma FinishSerial(s: System, p: nat, file: Option<Doc>)
    requires Exclusive(s) && Serial(s, file) && Of(s, p).Working?
    ensures Serial(Finish(s, p), file)
  {
    assert ProcessFits(s, p) && InsideFits(s, p);
    forall q ensures InsideFits(Finish(s, p), q) {
      assert InsideFits(s, q);
      FinishInside(s, p, q);
    }
    FinishReplays(s, p, file);
    FinishTurns(s, p);
  }

  lemma QuietNext(s: System, e: Event, q: nat)
    requires forall i | 0 <= i < |s.log| :: s.log[i].turn < s.nextTurn
    requires InsideFits(s, q) && InsideFits(s, e.pid) && !(e.Commit? && Of(s, e.pid).Working?)
    ensures InsideFits(Next(s, e), q)
    ensures var s' := Next(s, e);
            s'.file == s.file && s'.log == s.log && s'.fallback == s.fallback && s'.nextTurn >= s.nextTurn
  {
  }

  lemma NextSerial(s: System, e: Event, file: Option<Doc>)
    requires Exclusive(s) && Serial(s, file)
    ensures Serial(Next(s, e), file) && Next(s, e).fallback == s.fallback
  {
    assert InsideFits(s, e.pid);
    if e.Commit? && Of(s, e.pid).Working? {
      FinishSerial(s, e.pid, file);
    } else {
      QuietNext(s, e, e.pid);
      forall q ensures InsideFits(Next(s, e), q) {
        assert InsideFits(s, q);
        QuietNext(s, e, q);
      }
    }
  }

  /** Serializability: in every run the stored document is what the committed jobs leave when they
      run alone one after the other in the order they took the lock, and the revision counts them. */
  lemma {:induction false} EveryRunIsSerial(fallback: Payload, file: Option<Doc>, events: seq<Event>)
    ensures Serial(Run(Start(fallback, file), events), file) && Exclusive(Run(Start(fallback, file), events))
    ensures Run(Start(fallback, file), events).fallback == fallback
    ensures var s := Run(Start(fallback, file), events);
            Read(fallback, s.file).revision == Read(fallback, file).revision + |s.log|
    decreases |events|
  {
    if events != [] {
      var before := Run(Start(fallback, file), events[..|events| - 1]);
      EveryRunIsSerial(fallback, file, events[..|events| - 1]);
      NextSerial(before, events[|events| - 1], file);
      NextExclusive(before, events[|events| - 1]);
    }
    RevisionCounts(fallback, file, Run(Start(fallback, file), events).log);
  }

  lemma NextGrows(s: System, e: Event)
    ensures s.log <= Next(s, e).log
  {
  }

  /** The log only grows. */
  lemma {:induction false} LogGrows(s: System, events: seq<Event>, n: nat)
    requires n <= |events|
    ensures Run(s, events[..n]).log <= Run(s, events).log
    decreases |events|
  {
    if n == |events| {
      assert events[..n] == events;
    } else {
      LogGrows(s, events[..|events| - 1], n);
      NextGrows(Run(s, events[..|events| - 1]), events[|events| - 1]);
      assert events[..|events| - 1][..n] == events[..n];
    }
  }

  /** The revision counts the writes. */
  lemma {:induction false} RevisionCounts(fallback: Payload, file: Option<Doc>, log: seq<Entry>)
    requires AllWrote(fallback, file, log)
    ensures Read(fallback, Replay(fallback, file, log)).revision == Read(fallback, file).revision + |log|
    decreases |log|
  {
    if log != [] {
      RevisionCounts(fallback, file, log[..|log| - 1]);
    }
  }

  lemma {:induction false} AllWrotePrefix(fallback: Payload, file: Option<Doc>, log: seq<Entry>, n: nat)
    requires n <= |log| && AllWrote(fallback, file, log)
    ensures AllWrote(fallback, file, log[..n])
    decreases |log|
  {
    if n == |log| {
      assert log[..n] == log;
    } else {
      AllWrotePrefix(fallback, file, log[..|log| - 1], n);
      assert log[..|log| - 1][..n] == log[..n];
    }
  }

  lemma SavePosition(fallback: Payload, file: Option<Doc>, log: seq<Entry>, i: nat)
    requires AllWrote(fallback, file, log) && i < |log| && log[i].job.Save? && log[i].job.expected.Some?
    ensures log[i].job.expected.value == Read(fallback, file).revision + i
  {
    AllWrotePrefix(fallback, file, log, i + 1);
    assert log[..i + 1][..i] == log[..i];
    RevisionCounts(fallback, file, log[..i]);
  }

  /** Optimistic saves: if a caller saw revision `e` at some moment and a save expecting `e`
      committed, then the save replaced exactly the document the caller saw: the writes before the
      save are the writes before that moment, and none came between. */
  lemma {:induction false} CasSaveSawTheLatest(fallback: Payload, file: Option<Doc>, events: seq<Event>, seen: nat, i: nat)
    requires seen <= |events|
    requires var s := Run(Start(fallback, file), events);
             i < |s.log| && s.log[i].job.Save? &&
             s.log[i].job.expected == Some(Read(fallback, Run(Start(fallback, file), events[..seen]).file).revision)
    ensures Run(Start(fallback, file), events[..seen]).log == Run(Start(fallback, file), events).log[..i]
  {
    EveryRunIsSerial(fallback, file, events);
    EveryRunIsSerial(fallback, file, events[..seen]);
    SavePosition(fallback, file, Run(Start(fallback, file), events).log, i);
    LogGrows(Start(fallback, file), events, seen);
  }

  // ---------------------------------------------------------------- what is stored

  /** What a job leaves of the document it found: what its callback returned or the payload it saves,
      at the next revision. */
  function After(l: Loaded, job: Job): Loaded {
    match job
    case Mutate(fn) => Loaded(if fn(l).Some? then fn(l).value else l.payload, l.revision + 1, true)
    case Save(payload, _) => Loaded(payload, l.revision + 1, true)
  }

  /** The document after these jobs, one after the other. */
  function Fold(l: Loaded, log: seq<Entry>): Loaded {
    if log == [] then l else After(Fold(l, log[..|log| - 1]), log[|log| - 1].job)
  }

  /** A job that had something to write: its callback returned a payload, or the revision it expects is
      the stored one. */
  predicate Writes(l: Loaded, job: Job) {
    match job
    case Mutate(fn) => fn(l).Some?
    case Save(_, expected) => expected.None? || expected.value == l.revision
  }

  lemma {:induction false} ReplayIsFold(fallback: Payload, file: Option<Doc>, log: seq<Entry>)
    requires AllWrote(fallback, file, log)
    ensures Read(fallback, Replay(fallback, file, log)) == Fold(Read(fallback, file), log)
    ensures log != [] ==> Writes(Fold(Read(fallback, file), log[..|log| - 1]), log[|log| - 1].job)
    decreases |log|
  {
    if log != [] {
      ReplayIsFold(fallback, file, log[..|log| - 1]);
    }
  }

  /** Over every run the stored document is the fold of the callbacks and saved payloads in the order of
      the log, and each of them had something to write when its turn came. */
  lemma {:induction false} EveryRunStoresTheFold(fallback: Payload, file: Option<Doc>, events: seq<Event>)
    ensures var s := Run(Start(fallback, file), events); var first := Read(fallback, file);
            && Read(fallback, s.file) == Fold(first, s.log)
            && (forall i | 0 <= i < |s.log| :: Writes(Fold(first, s.log[..i]), s.log[i].job))
  {
    EveryRunIsSerial(fallback, file, events);
    var log := Run(Start(fallback, file), events).log;
    ReplayIsFold(fallback, file, log);
    forall i | 0 <= i < |log| ensures Writes(Fold(Read(fallback, file), log[..i]), log[i].job) {
      AllWrotePrefix(fallback, file, log, i + 1);
      ReplayIsFold(fallback, file, log[..i + 1]);
      assert log[..i + 1][..i] == log[..i];
    }
  }

  /** A commit writes exactly when the job has something to write, and then stores and logs it. */
  lemma CommitStores(s: System, p: nat)
    requires Of(s, p).Working?
    ensures var s', q := Next(s, Commit(p)), Of(s, p);
            if Writes(q.loaded, q.job) then
              && s'.file == Some(Doc(After(q.loaded, q.job).payload, q.loaded.revision + 1))
              && s'.log == s.log + [Entry(q.turn, q.job)] && Of(s', p) == Leaving(q.token, q.turn)
            else s'.file == s.file && s'.log == s.log && Of(s', p) == Leaving(q.token, q.turn)
  {
  }

  /** A contender that found the lock taken can wait and get in once it is free, or give up and leave
      everything as it is; and a holder that cannot remove the lock leaves it behind, without a holder. */
  lemma OtherWaysOut(s: System, p: nat)
    ensures Of(s, p).Contending? && Of(s, p).view.Seen? && s.lock.None? ==> Of(Next(Next(s, Wait(p)), TryCreate(p)), p).Locked?
    ensures Of(s, p).Contending? && Of(s, p).view.Seen? ==> Next(s, GiveUp(p)) == Set(s, p, Idle)
    ensures Of(s, p).Leaving? && s.lock == Some(Owner(p, Of(s, p).token)) ==>
              var s' := Next(s, ReleaseFails(p)); s' == Set(s, p, Idle) && !HeldLive(s', s'.lock.value)
    ensures Of(s, p).Locked? || Of(s, p).Working? ==>
              Next(s, Throw(p)) == Set(s, p, Leaving(Of(s, p).token, Of(s, p).turn))
  {
    if Of(s, p).Contending? && Of(s, p).view.Seen? {
      assert Of(Next(s, Wait(p)), p) == Of(s, p).(view := Fresh);
    }
  }

  /** An idle process that finds the lock free and runs undisturbed does its job on the stored document
      and leaves the lock free. */
  lemma UndisturbedJobIsDone(s: System, p: nat, job: Job)
    requires Of(s, p).Idle? && s.lock.None?
    ensures var l := Read(s.fallback, s.file);
            var s' := Next(Next(Next(Next(Next(s, Begin(p, job)), TryCreate(p)), Load(p)), Commit(p)), Release(p));
            && Of(s', p).Idle? && s'.lock.None?
            && (if Writes(l, job) then Read(s.fallback, s'.file) == After(l, job) && |s'.log| == |s.log| + 1
                else s'.file == s.file && s'.log == s.log)
  {
    var locked := Next(Next(s, Begin(p, job)), TryCreate(p));
    assert Of(Next(s, Begin(p, job)), p) == Contending(s.nextToken, job, Fresh);
    assert Of(locked, p) == Locked(s.nextToken, s.nextTurn, job) && locked.file == s.file;
    var working := Next(locked, Load(p));
    assert Of(working, p) == Working(s.nextToken, s.nextTurn, job, Read(s.fallback, s.file));
    CommitStores(working, p);
  }
}
