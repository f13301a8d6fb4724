/** The usage ledger: daily shards, the id index over them, pruning and roll-ups
    (lib/usage-ledger.js 179-186, 207-230, 269-299, 315-343). */
module UsageLedger {

  datatype Option<+T> = None | Some(value: T)

  type Id = string

  datatype Tokens = Tokens(input: nat, output: nat, cacheRead: nat, cacheWrite: nat, total: nat)

  datatype Status = Success | Error | Unobservable

  datatype Event = Event(id: Id, at: nat, status: Status, exact: bool, latency: nat, tokens: Option<Tokens>)

  const DAY := 86400000

  function DayOf(e: Event): nat {
    e.at / DAY
  }

  /** The last millisecond of a day. */
  function DayEnd(day: nat): nat {
    day * DAY + (DAY - 1)
  }

  /** `index` is None until the ids have been read from the shards. */
  datatype Ledger = Ledger(shards: map<nat, seq<Event>>, index: Option<set<Id>>)

  predicate Stored(shards: map<nat, seq<Event>>, e: Event) {
    exists d | d in shards :: e in shards[d]
  }

  function Ids(events: seq<Event>): set<Id> {
    set i | 0 <= i < |events| :: events[i].id
  }

  function AllIds(shards: map<nat, seq<Event>>): set<Id> {
    set d, i | d in shards && 0 <= i < |shards[d]| :: shards[d][i].id
  }

  // ---------------------------------------------------------------- operations

  function EnsureIndex(l: Ledger): set<Id> {
    if l.index.Some? then l.index.value else AllIds(l.shards)
  }

  function Put(shards: map<nat, seq<Event>>, e: Event): map<nat, seq<Event>> {
    shards[DayOf(e) := (if DayOf(e) in shards then shards[DayOf(e)] else []) + [e]]
  }

  /** What becomes of the line: it is not written; it is on disk, but flushing or closing the file
      throws; or all goes well. */
  datatype Write = Fails | LandsThenThrows | Succeeds

  datatype Outcome = Inserted | Duplicate | Threw

  function IdsBefore(shards: map<nat, seq<Event>>, day: nat): set<Id> {
    set d, i | d in shards && d < day && 0 <= i < |shards[d]| :: shards[d][i].id
  }

  /** Reading the ids, oldest shard first, meets a shard that cannot be read. Shards from the day
      `bad` on are unreadable. */
  predicate Unreadable(l: Ledger, bad: Option<nat>) {
    l.index.None? && bad.Some? && exists d | d in l.shards :: bad.value <= d
  }

  /** An index that could not be read to its end is kept all the same. */
  function Append(l: Ledger, e: Event, w: Write, bad: Option<nat>): (Ledger, Outcome) {
    if Unreadable(l, bad) then (l.(index := Some(IdsBefore(l.shards, bad.value))), Threw)
    else
      var ids := EnsureIndex(l);
      if e.id in ids then (l.(index := Some(ids)), Duplicate)
      else
        match w
        case Fails => (l.(index := Some(ids)), Threw)
        case LandsThenThrows => (Ledger(Put(l.shards, e), Some(ids)), Threw)
        case Succeeds => (Ledger(Put(l.shards, e), Some(ids + {e.id})), Inserted)
  }

  function Expired(shards: map<nat, seq<Event>>, cutoff: int): set<nat> {
    set d | d in shards && DayEnd(d) < cutoff
  }

  /** Errors of removing a file are swallowed; `stuck` are the days whose file stays. */
  function Prune(l: Ledger, cutoff: int, dryRun: bool, stuck: set<nat>): Ledger {
    if dryRun || Expired(l.shards, cutoff) == {} then l else Ledger(l.shards - (Expired(l.shards, cutoff) - stuck), None)
  }

  datatype Op = Add(event: Event, write: Write, bad: Option<nat>) | Drop(cutoff: int, dryRun: bool, stuck: set<nat>) | Restart

  function Apply(l: Ledger, op: Op): Ledger {
    match op
    case Add(e, w, bad) => Append(l, e, w, bad).0
    case Drop(cutoff, dryRun, stuck) => Prune(l, cutoff, dryRun, stuck)
    case Restart => l.(index := None)
  }

  function Run(ops: seq<Op>): Ledger {
    if ops == [] then Ledger(map[], None) else Apply(Run(ops[..|ops| - 1]), ops[|ops| - 1])
  }

  // ---------------------------------------------------------------- what the index misses

  /** The stored ids that the cached index does not hold, followed through the operations: a line that
      landed before its append threw adds its id, a reading that broke off leaves out what it did not
      reach, a later append of the id that succeeds puts it in, and dropping the index ends it all. */
  function Forgotten(ops: seq<Op>): set<Id> {
    if ops == [] then {}
    else
      var l, f := Run(ops[..|ops| - 1]), Forgotten(ops[..|ops| - 1]);
      match ops[|ops| - 1]
      case Add(e, w, bad) =>
        if Unreadable(l, bad) then AllIds(l.shards) - IdsBefore(l.shards, bad.value)
        else if e.id in AllIds(l.shards) && e.id !in f then f
        else if w.LandsThenThrows? then f + {e.id} else if w.Succeeds? then f - {e.id} else f
      case Drop(cutoff, dryRun, _) => if dryRun || Expired(l.shards, cutoff) == {} then f else {}
      case Restart => {}
  }

  /** The index, as soon as it is read, holds exactly the stored ids that have not been forgotten. */
  ghost predicate IndexIs(l: Ledger, forgotten: set<Id>) {
    && forgotten <= AllIds(l.shards)
    && if l.index.Some? then l.index.value == AllIds(l.shards) - forgotten else forgotten == {}
  }

  /** Every event is in the shard of its day. */
  ghost predicate DaysFit(shards: map<nat, seq<Event>>) {
    forall d, i | d in shards && 0 <= i < |shards[d]| :: DayOf(shards[d][i]) == d
  }

  /** No id is stored twice. */
  ghost predicate Unique(shards: map<nat, seq<Event>>) {
    forall d, i, c, j | d in shards && c in shards && 0 <= i < |shards[d]| && 0 <= j < |shards[c]| ::
      shards[d][i].id == shards[c][j].id ==> d == c && i == j
  }

  lemma PutIds(shards: map<nat, seq<Event>>, e: Event)
    ensures AllIds(Put(shards, e)) == AllIds(shards) + {e.id}
  {
    var r: map<nat, seq<Event>>, day := Put(shards, e), DayOf(e);
    forall id ensures id in AllIds(r) <==> id in AllIds(shards) + {e.id} {
      if id in AllIds(shards) {
        var d, i :| d in shards && 0 <= i < |shards[d]| && shards[d][i].id == id;
        assert r[d][i].id == id;
      }
      if id == e.id {
        assert r[day][|r[day]| - 1].id == id;
      }
    }
  }

  lemma PutAt(shards: map<nat, seq<Event>>, e: Event, d: nat, i: nat)
    requires d in Put(shards, e) && i < |Put(shards, e)[d]|
    ensures var r := Put(shards, e);
            (d == DayOf(e) && i == |r[d]| - 1 && r[d][i] == e) || (d in shards && i < |shards[d]| && r[d][i] == shards[d][i])
  {
  }

  lemma PutDays(shards: map<nat, seq<Event>>, e: Event)
    requires DaysFit(shards)
    ensures DaysFit(Put(shards, e))
  {
  }

  /** Storing an event keeps ids unique exactly when its id was not stored before. */
  lemma PutUnique(shards: map<nat, seq<Event>>, e: Event)
    requires Unique(shards)
    ensures Unique(Put(shards, e)) <==> e.id !in AllIds(shards)
  {
    var r: map<nat, seq<Event>>, day := Put(shards, e), DayOf(e);
    if e.id in AllIds(shards) {
      var d, i :| d in shards && 0 <= i < |shards[d]| && shards[d][i].id == e.id;
      assert r[d][i].id == r[day][|r[day]| - 1].id;
    } else {
      forall d, i, c, j | d in r && c in r && 0 <= i < |r[d]| && 0 <= j < |r[c]|
        ensures r[d][i].id == r[c][j].id ==> d == c && i == j
      {
        PutAt(shards, e, d, i);
        PutAt(shards, e, c, j);
        assert d in shards && i < |shards[d]| ==> shards[d][i].id in AllIds(shards);
        assert c in shards && j < |shards[c]| ==> shards[c][j].id in AllIds(shards);
      }
    }
  }

  lemma BeforeIsPart(shards: map<nat, seq<Event>>, day: nat)
    ensures IdsBefore(shards, day) <= AllIds(shards)
  {
    forall id | id in IdsBefore(shards, day) ensures id in AllIds(shards) {
      var d, i :| d in shards && d < day && 0 <= i < |shards[d]| && shards[d][i].id == id;
    }
  }

  lemma AddKeepsIndex(l: Ledger, f: set<Id>, e: Event, w: Write, bad: Option<nat>)
    requires IndexIs(l, f)
    ensures var f' := if Unreadable(l, bad) then AllIds(l.shards) - IdsBefore(l.shards, bad.value)
                      else if e.id in AllIds(l.shards) && e.id !in f then f
                      else if w.LandsThenThrows? then f + {e.id} else if w.Succeeds? then f - {e.id} else f;
            IndexIs(Append(l, e, w, bad).0, f')
  {
    PutIds(l.shards, e);
    if Unreadable(l, bad) {
      BeforeIsPart(l.shards, bad.value);
    }
  }

  /** Over every run of appends, writes that fail before or after the line has landed, readings that
      break off, prunes and restarts: every event is in its day's shard, and the index holds exactly the
      stored ids that were not forgotten. */
  lemma {:induction false} RunValid(ops: seq<Op>)
    ensures DaysFit(Run(ops).shards) && IndexIs(Run(ops), Forgotten(ops))
    decreases |ops|
  {
    if ops != [] {
      var before := ops[..|ops| - 1];
      var l := Run(before);
      RunValid(before);
      match ops[|ops| - 1]
      case Add(e, w, bad) =>
        AddKeepsIndex(l, Forgotten(before), e, w, bad);
        PutDays(l.shards, e);
      case Drop(_, _, _) =>
      case Restart =>
    }
  }

  /** So the index is complete exactly when nothing is forgotten, and nothing is while every line that
      landed was reported and every reading went to its end. */
  lemma {:induction false} IndexIsCompleteIff(ops: seq<Op>)
    ensures EnsureIndex(Run(ops)) == AllIds(Run(ops).shards) <==> Forgotten(ops) == {}
    ensures (forall i | 0 <= i < |ops| :: ops[i].Add? ==> !ops[i].write.LandsThenThrows? && ops[i].bad.None?) ==> Forgotten(ops) == {}
    decreases |ops|
  {
    RunValid(ops);
    if ops != [] {
      var n := |ops| - 1;
      IndexIsCompleteIff(ops[..n]);
      assert forall i | 0 <= i < n :: ops[..n][i] == ops[i];
    }
  }

  // ---------------------------------------------------------------- appending again

  /** The n-th operation stores an id that is stored but forgotten. */
  predicate Doubles(ops: seq<Op>, n: nat)
    requires n < |ops|
  {
    ops[n].Add? && !ops[n].write.Fails? && ops[n].event.id in Forgotten(ops[..n])
  }

  lemma RunNext(ops: seq<Op>, n: nat)
    requires n < |ops|
    ensures Run(ops[..n + 1]) == Apply(Run(ops[..n]), ops[n])
  {
    assert ops[..n + 1][..n] == ops[..n];
  }

  lemma StepUnique(ops: seq<Op>, n: nat)
    requires n < |ops| && Unique(Run(ops[..n]).shards)
    ensures Unique(Run(ops[..n + 1]).shards) <==> !Doubles(ops, n)
  {
    var l := Run(ops[..n]);
    RunNext(ops, n);
    RunValid(ops[..n]);
    if ops[n].Add? {
      PutUnique(l.shards, ops[n].event);
    }
  }

  /** Throughout a run no id is stored twice exactly when no append ever stores an id that is stored
      but forgotten. */
  lemma {:induction false} NeverTwiceIff(ops: seq<Op>)
    ensures (forall n | 0 <= n <= |ops| :: Unique(Run(ops[..n]).shards)) <==> forall n | 0 <= n < |ops| :: !Doubles(ops, n)
  {
    if forall n | 0 <= n <= |ops| :: Unique(Run(ops[..n]).shards) {
      forall n | 0 <= n < |ops| ensures !Doubles(ops, n) {
        assert Unique(Run(ops[..n]).shards) && Unique(Run(ops[..n + 1]).shards);
        StepUnique(ops, n);
      }
    } else {
      var n :| 0 <= n <= |ops| && !Unique(Run(ops[..n]).shards);
      var m := FirstDouble(ops, n);
    }
  }

  lemma {:induction false} FirstDouble(ops: seq<Op>, n: nat) returns (m: nat)
    requires n <= |ops| && !Unique(Run(ops[..n]).shards)
    ensures m < n && Doubles(ops, m)
    decreases n
  {
    assert n > 0;
    m := n - 1;
    if Unique(Run(ops[..m]).shards) {
      StepUnique(ops, m);
    } else {
      m := FirstDouble(ops, m);
    }
  }

  /** After any run: an append reports an insertion exactly when the id is not among those known and the
      write succeeds, a duplicate exactly when it is; it stores the event exactly when the id is unknown
      and the line lands; and nothing stored is lost. */
  lemma {:induction false} AppendEffect(ops: seq<Op>, e: Event, w: Write, bad: Option<nat>, other: Event)
    ensures var l := Run(ops); var (r, outcome) := Append(l, e, w, bad);
            var known, read := e.id in AllIds(l.shards) && e.id !in Forgotten(ops), !Unreadable(l, bad);
            && (outcome.Inserted? <==> read && !known && w.Succeeds?)
            && (outcome.Duplicate? <==> read && known)
            && (Stored(r.shards, other) <==> Stored(l.shards, other) || (read && !known && !w.Fails? && other == e))
  {
    RunValid(ops);
    StoredAfterPut(Run(ops).shards, e, other);
  }

  lemma StoredAfterPut(shards: map<nat, seq<Event>>, e: Event, other: Event)
    ensures Stored(Put(shards, e), other) <==> Stored(shards, other) || other == e
  {
    var r: map<nat, seq<Event>>, day := Put(shards, e), DayOf(e);
    if Stored(shards, other) {
      var d :| d in shards && other in shards[d];
      assert other in r[d];
    }
    assert r[day][|r[day]| - 1] == e;
    assert e in r[day];
    if Stored(r, other) {
      var d :| d in r && other in r[d];
      assert d != day ==> other in shards[d];
      assert d == day ==> other == e || (day in shards && other in shards[day]);
    }
  }

  /** Once an append has reported back, appending the id again changes nothing, whatever happens. */
  lemma AppendIsIdempotent(l: Ledger, e: Event, w: Write, bad: Option<nat>, again: Event, w': Write, bad': Option<nat>)
    requires !Append(l, e, w, bad).1.Threw? && again.id == e.id
    ensures var r := Append(l, e, w, bad).0; Append(r, again, w', bad') == (r, Duplicate)
  {
  }

  /** Not so after one that threw once its line had landed: the retry stores the event again, and a
      roll-up counts it twice. */
  lemma RetryStoresTwice(e: Event)
    ensures var r := Run([Add(e, LandsThenThrows, None), Add(e, Succeeds, None)]);
            r.shards == map[DayOf(e) := [e, e]] && !Unique(r.shards) && Totals([e, e]).events == 2
  {
    var ops := [Add(e, LandsThenThrows, None), Add(e, Succeeds, None)];
    RunNext(ops, 0);
    RunNext(ops, 1);
    FirstAndSecond(e);
    assert ops[..0] == [] && ops[..2] == ops;
    assert Run(ops[..1]) == Ledger(map[DayOf(e) := [e]], Some({}));
    TwiceIsNotUnique(e);
    assert [e, e][..1] == [e] && [e][..0] == [];
    assert Totals([e]) == Count(ZERO, e) && Totals([e, e]) == Count(Totals([e]), e);
  }

  /** Nor after a reading that broke off: what it did not reach is stored again. */
  lemma BrokenReadingStoresTwice(e: Event, first: Event, w: Write)
    ensures var r := Run([Add(e, Succeeds, None), Restart, Add(first, w, Some(0)), Add(e, Succeeds, None)]);
            r.shards == map[DayOf(e) := [e, e]] && !Unique(r.shards)
  {
    var ops := [Add(e, Succeeds, None), Restart, Add(first, w, Some(0)), Add(e, Succeeds, None)];
    RunNext(ops, 0);
    RunNext(ops, 1);
    RunNext(ops, 2);
    RunNext(ops, 3);
    assert ops[..0] == [] && ops[..4] == ops;
    var stored: map<nat, seq<Event>> := map[DayOf(e) := [e]];
    FirstAndSecond(e);
    assert {} + {e.id} == {e.id};
    assert Run(ops[..1]) == Ledger(stored, Some({e.id}));
    assert Run(ops[..2]) == Ledger(stored, None);
    assert DayOf(e) in stored && Unreadable(Ledger(stored, None), Some(0)) && IdsBefore(stored, 0) == {};
    assert Run(ops[..3]) == Ledger(stored, Some({}));
    TwiceIsNotUnique(e);
  }

  lemma FirstAndSecond(e: Event)
    ensures AllIds(map[]) == {} && Put(map[], e) == map[DayOf(e) := [e]]
    ensures Put(map[DayOf(e) := [e]], e) == map[DayOf(e) := [e, e]]
  {
    assert [] + [e] == [e] && [e] + [e] == [e, e];
  }

  lemma TwiceIsNotUnique(e: Event)
    ensures !Unique(map[DayOf(e) := [e, e]])
  {
    var shards: map<nat, seq<Event>> := map[DayOf(e) := [e, e]];
    assert shards[DayOf(e)][0].id == shards[DayOf(e)][1].id;
  }

  lemma DayIs(e: Event)
    ensures DayOf(e) == e.at / 86400000 && DayEnd(DayOf(e)) == e.at - e.at % 86400000 + 86399999
  {
  }

  /** Pruning removes exactly the events of days, midnight to midnight, that ended before the cut-off,
      except where the file could not be removed. */
  lemma {:induction false} PruneIsExact(ops: seq<Op>, cutoff: int, stuck: set<nat>, e: Event)
    ensures var l := Run(ops);
            Stored(Prune(l, cutoff, false, stuck).shards, e) <==>
            Stored(l.shards, e) && (e.at - e.at % 86400000 + 86399999 >= cutoff || e.at / 86400000 in stuck)
  {
    DayIs(e);
    RunValid(ops);
    var l := Run(ops);
    var r := Prune(l, cutoff, false, stuck);
    if Stored(l.shards, e) {
      var d :| d in l.shards && e in l.shards[d];
      var i :| 0 <= i < |l.shards[d]| && l.shards[d][i] == e;
      assert DayOf(e) == d;
      if DayEnd(d) >= cutoff || d in stuck {
        assert d in r.shards;
      }
    }
    if Stored(r.shards, e) {
      var d :| d in r.shards && e in r.shards[d];
      assert d in l.shards && e in l.shards[d];
      var i :| 0 <= i < |l.shards[d]| && l.shards[d][i] == e;
    }
  }

  // ---------------------------------------------------------------- roll-ups

  datatype Row = Row(events: nat, successful: nat, failed: nat, observed: nat, unobservable: nat, input: nat, output: nat,
                     cacheRead: nat, cacheWrite: nat, total: nat, exact: nat, reconciled: nat, latency: nat)

  const ZERO := Row(0, 0, 0, 0, 0, 0, 0, 0, 0, 0, 0, 0, 0)

  function Plus(a: Row, b: Row): Row {
    Row(a.events + b.events, a.successful + b.successful, a.failed + b.failed, a.observed + b.observed,
        a.unobservable + b.unobservable, a.input + b.input, a.output + b.output, a.cacheRead + b.cacheRead,
        a.cacheWrite + b.cacheWrite, a.total + b.total, a.exact + b.exact, a.reconciled + b.reconciled, a.latency + b.latency)
  }

  /** What one event adds to its row. */
  function Count(row: Row, e: Event): Row {
    var r := row.(events := row.events + 1,
                  failed := row.failed + if e.status.Error? then 1 else 0,
                  successful := row.successful + if e.status.Success? then 1 else 0,
                  exact := row.exact + if e.exact then 1 else 0,
                  reconciled := row.reconciled + if e.exact then 0 else 1,
                  latency := row.latency + e.latency);
    match e.tokens
    case None => r.(unobservable := row.unobservable + 1)
    case Some(t) =>
      r.(observed := row.observed + 1, input := row.input + t.input, output := row.output + t.output,
         cacheRead := row.cacheRead + t.cacheRead, cacheWrite := row.cacheWrite + t.cacheWrite, total := row.total + t.total)
  }

  /** The groups in first-seen order. */
  type Groups = seq<(string, Row)>

  function Find(groups: Groups, id: string): (i: nat)
    ensures i <= |groups|
    ensures i < |groups| ==> groups[i].0 == id
    ensures forall j | 0 <= j < i :: groups[j].0 != id
  {
    if groups == [] || groups[0].0 == id then 0 else 1 + Find(groups[1..], id)
  }

  function AddTo(groups: Groups, id: string, e: Event): Groups {
    var i := Find(groups, id);
    if i < |groups| then groups[i := (id, Count(groups[i].1, e))] else groups + [(id, Count(ZERO, e))]
  }

  function RolledUp(events: seq<Event>, key: Event -> string): Groups {
    if events == [] then []
    else AddTo(RolledUp(events[..|events| - 1], key), key(events[|events| - 1]), events[|events| - 1])
  }

  /** The totals of the events of one group, and of all events. */
  function TotalsOf(events: seq<Event>, key: Event -> string, id: string): Row {
    if events == [] then ZERO
    else
      var before, e := TotalsOf(events[..|events| - 1], key, id), events[|events| - 1];
      if key(e) == id then Count(before, e) else before
  }

  function Totals(events: seq<Event>): Row {
    if events == [] then ZERO else Count(Totals(events[..|events| - 1]), events[|events| - 1])
  }

  function SumOf(groups: Groups): Row {
    if groups == [] then ZERO else Plus(SumOf(groups[..|groups| - 1]), groups[|groups| - 1].1)
  }

  lemma PlusCount(a: Row, b: Row, e: Event)
    ensures Plus(a, Count(b, e)) == Count(Plus(a, b), e) == Plus(Count(a, e), b)
  {
  }

  lemma {:induction false} SumOfUpdate(groups: Groups, i: nat, e: Event)
    requires i < |groups|
    ensures SumOf(groups[i := (groups[i].0, Count(groups[i].1, e))]) == Count(SumOf(groups), e)
    decreases |groups|
  {
    var n := |groups| - 1;
    var g := (groups[i].0, Count(groups[i].1, e));
    PlusCount(SumOf(groups[..n]), groups[n].1, e);
    if i < n {
      SumOfUpdate(groups[..n], i, e);
      assert groups[i := g][..n] == groups[..n][i := g];
    } else {
      assert groups[i := g][..n] == groups[..n];
    }
  }

  lemma {:induction false} SumOfAppend(groups: Groups, g: (string, Row))
    ensures SumOf(groups + [g]) == Plus(SumOf(groups), g.1)
  {
    assert (groups + [g])[..|groups|] == groups;
  }

  lemma {:induction false} SumOfNew(groups: Groups, id: string, e: Event)
    ensures SumOf(groups + [(id, Count(ZERO, e))]) == Count(SumOf(groups), e)
  {
    SumOfAppend(groups, (id, Count(ZERO, e)));
    PlusCount(SumOf(groups), ZERO, e);
    PlusZero(SumOf(groups));
  }

  lemma PlusZero(a: Row)
    ensures Plus(a, ZERO) == a
  {
  }

  lemma {:induction false} SumOfAddTo(groups: Groups, id: string, e: Event)
    ensures SumOf(AddTo(groups, id, e)) == Count(SumOf(groups), e)
  {
    var i, next := Find(groups, id), AddTo(groups, id, e);
    if i < |groups| {
      assert next == groups[i := (groups[i].0, Count(groups[i].1, e))];
      SumOfUpdate(groups, i, e);
    } else {
      assert next == groups + [(id, Count(ZERO, e))];
      SumOfNew(groups, id, e);
    }
  }

  /** Nothing is lost or counted twice: the rows of the groups add up to the totals. */
  lemma {:induction false} RollupConserves(events: seq<Event>, key: Event -> string)
    ensures SumOf(RolledUp(events, key)) == Totals(events)
    decreases |events|
  {
    if events != [] {
      var n := |events| - 1;
      RollupConserves(events[..n], key);
      SumOfAddTo(RolledUp(events[..n], key), key(events[n]), events[n]);
    }
  }

  /** The row of a group, zero when it has none. */
  function RowFor(groups: Groups, id: string): Row {
    var i := Find(groups, id);
    if i < |groups| then groups[i].1 else ZERO
  }

  lemma {:induction false} FindAfterUpdate(groups: Groups, i: nat, row: Row, id: string)
    requires i < |groups|
    ensures Find(groups[i := (groups[i].0, row)], id) == Find(groups, id)
    decreases |groups|
  {
    if groups[0].0 != id && i > 0 {
      assert groups[i := (groups[i].0, row)][1..] == groups[1..][i - 1 := (groups[i].0, row)];
      FindAfterUpdate(groups[1..], i - 1, row, id);
    }
  }

  lemma {:induction false} FindAfterAppend(groups: Groups, g: (string, Row), id: string)
    ensures Find(groups + [g], id) == if Find(groups, id) < |groups| || g.0 == id then Find(groups, id) else |groups| + 1
    decreases |groups|
  {
    if groups == [] {
      assert groups + [g] == [g] && [g][1..] == [];
    } else {
      assert (groups + [g])[1..] == groups[1..] + [g];
      FindAfterAppend(groups[1..], g, id);
    }
  }

  lemma AddToRow(groups: Groups, id: string, e: Event, g: string)
    ensures RowFor(AddTo(groups, id, e), g) == if g == id then Count(RowFor(groups, g), e) else RowFor(groups, g)
    ensures Find(AddTo(groups, id, e), g) < |AddTo(groups, id, e)| <==> g == id || Find(groups, g) < |groups|
  {
    var i := Find(groups, id);
    if i < |groups| {
      FindAfterUpdate(groups, i, Count(groups[i].1, e), g);
    } else {
      FindAfterAppend(groups, (id, Count(ZERO, e)), g);
    }
  }

  /** Each group's row holds the totals of exactly its own events, and only groups with events have rows. */
  lemma {:induction false} RollupPartitions(events: seq<Event>, key: Event -> string, g: string)
    ensures RowFor(RolledUp(events, key), g) == TotalsOf(events, key, g)
    ensures Find(RolledUp(events, key), g) < |RolledUp(events, key)| <==> exists e :: e in events && key(e) == g
    decreases |events|
  {
    if events != [] {
      var n := |events| - 1;
      RollupPartitions(events[..n], key, g);
      AddToRow(RolledUp(events[..n], key), key(events[n]), events[n], g);
      assert forall e :: e in events <==> e in events[..n] || e == events[n];
    }
  }

  predicate DistinctNames(groups: Groups) {
    forall i, j | 0 <= i < j < |groups| :: groups[i].0 != groups[j].0
  }

  lemma AddToKeepsDistinct(groups: Groups, id: string, e: Event)
    requires DistinctNames(groups)
    ensures DistinctNames(AddTo(groups, id, e))
  {
  }

  lemma {:induction false} OneRowPerGroup(events: seq<Event>, key: Event -> string)
    ensures DistinctNames(RolledUp(events, key))
    decreases |events|
  {
    if events != [] {
      OneRowPerGroup(events[..|events| - 1], key);
      AddToKeepsDistinct(RolledUp(events[..|events| - 1], key), key(events[|events| - 1]), events[|events| - 1]);
    }
  }

  // ---------------------------------------------------------------- the ledger object

  class UsageStore {
    var shards: map<nat, seq<Event>>
    var eventIds: Option<set<Id>>

    ghost function Now(): Ledger
      reads this
    {
      Ledger(shards, eventIds)
    }

    constructor ()
      ensures Now() == Run([])
    {
      shards, eventIds := map[], None;
    }

    /** Reads the ids shard by shard, oldest first. The index is set before it is filled, so a shard
        that cannot be read leaves it unfinished. */
    method ReadIndex(bad: Option<nat>) returns (ok: bool)
      modifies this`eventIds
      ensures ok == !Unreadable(old(Now()), bad)
      ensures eventIds == Some(if ok then EnsureIndex(old(Now())) else IdsBefore(shards, bad.value))
    {
      if eventIds.Some? {
        return true;
      }
      var ids := {};
      eventIds := Some(ids);
      var left := shards.Keys;
      while left != {}
        invariant left <= shards.Keys && eventIds == Some(ids)
        invariant forall d, c | d in left && c in shards && c !in left :: c < d
        invariant bad.Some? ==> forall d | d in shards && d !in left :: d < bad.value
        invariant ids == set d, i | d in shards && d !in left && 0 <= i < |shards[d]| :: shards[d][i].id
        decreases |left|
      {
        var day := Oldest(left);
        if bad.Some? && bad.value <= day {
          assert forall d | d in left :: bad.value <= d;
          assert ids == IdsBefore(shards, bad.value);
          return false;
        }
        left := left - {day};
        ids := ids + Ids(shards[day]);
        eventIds := Some(ids);
      }
      assert ids == AllIds(shards);
      return true;
    }

    method AppendEvent(e: Event, w: Write, bad: Option<nat>) returns (outcome: Outcome)
      modifies this
      ensures (Now(), outcome) == Append(old(Now()), e, w, bad)
    {
      var ok := ReadIndex(bad);
      if !ok {
        return Threw;
      }
      var ids := eventIds.value;
      if e.id in ids {
        return Duplicate;
      }
      if w.Fails? {
        return Threw;
      }
      var day := DayOf(e);
      shards := shards[day := (if day in shards then shards[day] else []) + [e]];
      if w.LandsThenThrows? {
        return Threw;
      }
      eventIds := Some(ids + {e.id});
      return Inserted;
    }

    /** The days reported as removed are all the expired ones. */
    method RemoveExpired(cutoff: int, dryRun: bool, stuck: set<nat>) returns (removed: set<nat>)
      modifies this`shards
      ensures removed == Expired(old(shards), cutoff)
      ensures shards == if dryRun then old(shards) else old(shards) - (removed - stuck)
    {
      removed := {};
      var left := shards.Keys;
      while left != {}
        invariant left <= old(shards).Keys && removed == Expired(old(shards), cutoff) - left
        invariant shards == if dryRun then old(shards) else old(shards) - (removed - stuck)
        decreases |left|
      {
        var day :| day in left;
        left := left - {day};
        if DayEnd(day) < cutoff {
          RemoveOneMore(old(shards), removed, stuck, day);
          removed := removed + {day};
          if !dryRun && day !in stuck {
            shards := shards - {day};
          }
        }
      }
    }

    method PruneShards(cutoff: int, dryRun: bool, stuck: set<nat>) returns (removed: set<nat>)
      modifies this
      ensures Now() == Prune(old(Now()), cutoff, dryRun, stuck) && removed == Expired(old(shards), cutoff)
    {
      removed := RemoveExpired(cutoff, dryRun, stuck);
      if removed == {} {
        assert shards == old(shards);
      } else if !dryRun {
        eventIds := None;
      }
    }
  }

  lemma RemoveOneMore(files: map<nat, seq<Event>>, removed: set<nat>, stuck: set<nat>, day: nat)
    ensures var next := removed + {day} - stuck;
            if day in stuck then next == removed - stuck else files - (removed - stuck) - {day} == files - next
  {
  }

  method Oldest(days: set<nat>) returns (day: nat)
    requires days != {}
    ensures day in days && forall d | d in days :: day <= d
  {
    day :| day in days;
    var left := days - {day};
    while left != {}
      invariant left <= days && day in days && forall d | d in days && d !in left :: day <= d
      decreases |left|
    {
      var d :| d in left;
      left := left - {d};
      if d < day {
        day := d;
      }
    }
  }

  /** One pass over the events, updating the rows in place. */
  method Rollup(events: seq<Event>, key: Event -> string) returns (groups: Groups)
    ensures groups == RolledUp(events, key)
    ensures SumOf(groups) == Totals(events)
  {
    groups := [];
    for n := 0 to |events|
      invariant groups == RolledUp(events[..n], key)
    {
      var e := events[n];
      assert events[..n + 1][..n] == events[..n];
      var i := Find(groups, key(e));
      if i == |groups| {
        groups := groups + [(key(e), ZERO)];
      }
      groups := groups[i := (key(e), Count(groups[i].1, e))];
    }
    assert events[..|events|] == events;
    RollupConserves(events, key);
  }
}
