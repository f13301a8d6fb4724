/** Dispatchers per origin and their replacement (lib/proxy/provider-transport.js 75-166).

    An entry is named by its generation number. Each step runs from one await to the next. */
module Transport {

  datatype Option<+T> = None | Some(value: T)

  type Origin = string

  /** A fetch waiting for its first or second upstream call, or over. */
  datatype Fetch = Calling(origin: Origin, entry: nat, replayable: bool, calls: nat) | Over(calls: nat)

  /** `owner` maps every entry ever created to its origin, `closes` counts the close calls, and
      `replacements` lists which entry was replaced by which. */
  datatype State = State(origins: map<Origin, nat>, owner: map<nat, Origin>, retired: set<nat>, closes: multiset<nat>,
                         generation: nat, closing: bool, fetches: map<nat, Fetch>, replacements: seq<(nat, nat)>)

  /** `creates` says whether making a dispatcher succeeds if the step makes one. */
  datatype Event =
    | Start(id: nat, origin: Origin, replayable: bool, creates: bool)
    | Succeed(id: nat)
    | Fail(id: nat, invalidSession: bool, creates: bool)
    | GoAway(entry: nat, creates: bool)
    | Close

  const INITIAL := State(map[], map[], {}, multiset{}, 0, false, map[], [])

  // ---------------------------------------------------------------- operations

  /** The number is used up even when making the dispatcher fails. */
  function CreateEntry(s: State, origin: Origin, creates: bool): (State, Option<nat>) {
    var g := s.generation + 1;
    if creates then (s.(generation := g, owner := s.owner[g := origin]), Some(g)) else (s.(generation := g), None)
  }

  function Retire(s: State, entry: nat): State {
    if entry in s.retired then s else s.(retired := s.retired + {entry}, closes := s.closes + multiset{entry})
  }

  function Lookup(s: State, origin: Origin): Option<nat> {
    if origin in s.origins then Some(s.origins[origin]) else None
  }

  /** Replaces the failed entry if it is still the current one; what to use from now on. */
  function Rotate(s: State, origin: Origin, failed: nat, creates: bool): (State, Option<nat>) {
    var current := Lookup(s, origin);
    if s.closing || (current.Some? && current.value != failed) then (s, current)
    else
      var (s1, made) := CreateEntry(s, origin, creates);
      if made.None? then (s1, current)
      else
        (Retire(s1.(origins := s1.origins[origin := made.value]), failed)
           .(replacements := s1.replacements + [(failed, made.value)]), made)
  }

  function SetFetch(s: State, id: nat, f: Fetch): State {
    s.(fetches := s.fetches[id := f])
  }

  function StartFetch(s: State, id: nat, origin: Origin, replayable: bool, creates: bool): State {
    if s.closing then SetFetch(s, id, Over(0))
    else if origin in s.origins then SetFetch(s, id, Calling(origin, s.origins[origin], replayable, 1))
    else
      var (s1, made) := CreateEntry(s, origin, creates);
      if made.None? then SetFetch(s1, id, Over(0))
      else SetFetch(s1.(origins := s1.origins[origin := made.value]), id, Calling(origin, made.value, replayable, 1))
  }

  function FailFetch(s: State, id: nat, f: Fetch, invalidSession: bool, creates: bool): State
    requires f.Calling?
  {
    if !invalidSession then SetFetch(s, id, Over(f.calls))
    else
      var (s1, replacement) := Rotate(s, f.origin, f.entry, creates);
      if f.calls > 1 || replacement.None? || !f.replayable then SetFetch(s1, id, Over(f.calls))
      else SetFetch(s1, id, Calling(f.origin, replacement.value, f.replayable, f.calls + 1))
  }

  function RetireAll(s: State, entries: set<nat>): State {
    s.(retired := s.retired + entries, closes := s.closes + multiset(entries - s.retired))
  }

  function CloseAll(s: State): State {
    if s.closing then s
    else
      RetireAll(s.(closing := true, origins := map[]), s.origins.Values)
  }

  function Next(s: State, e: Event): State {
    match e
    case Start(id, origin, replayable, creates) => if id in s.fetches then s else StartFetch(s, id, origin, replayable, creates)
    case Succeed(id) => if id in s.fetches && s.fetches[id].Calling? then SetFetch(s, id, Over(s.fetches[id].calls)) else s
    case Fail(id, invalidSession, creates) =>
      if id in s.fetches && s.fetches[id].Calling? then FailFetch(s, id, s.fetches[id], invalidSession, creates) else s
    case GoAway(entry, creates) => if entry in s.owner && !s.closing then Rotate(s, s.owner[entry], entry, creates).0 else s
    case Close => CloseAll(s)
  }

  function Run(events: seq<Event>): State {
    if events == [] then INITIAL else Next(Run(events[..|events| - 1]), events[|events| - 1])
  }

  // ---------------------------------------------------------------- the invariant

  /** The entries that have been made and not retired. */
  function Live(s: State): set<nat> {
    set g | g in s.owner && g !in s.retired
  }

  ghost predicate Entries(s: State) {
    && (forall g | g in s.owner :: g <= s.generation)
    && s.retired <= s.owner.Keys
    && (forall o | o in s.origins :: s.origins[o] in s.owner && s.owner[s.origins[o]] == o && s.origins[o] !in s.retired)
    && (forall g | g in s.owner && g !in s.retired :: s.owner[g] in s.origins && s.origins[s.owner[g]] == g)
    && (if s.closing then s.origins == map[] else forall g | g in s.owner :: s.owner[g] in s.origins)
  }

  ghost predicate ClosedOnce(s: State) {
    forall g :: s.closes[g] == if g in s.retired then 1 else 0
  }

  ghost predicate ReplacedOnce(s: State) {
    && (forall i | 0 <= i < |s.replacements| :: s.replacements[i].0 in s.retired && s.replacements[i].0 < s.replacements[i].1 <= s.generation)
    && (forall i, j | 0 <= i < j < |s.replacements| ::
          s.replacements[i].0 != s.replacements[j].0 && s.replacements[i].1 < s.replacements[j].1)
  }

  ghost predicate FetchesFit(s: State) {
    forall id | id in s.fetches ::
      s.fetches[id].calls <= 2 &&
      (s.fetches[id].Calling? ==>
         s.fetches[id].calls >= 1 && s.fetches[id].entry in s.owner && s.owner[s.fetches[id].entry] == s.fetches[id].origin)
  }

  ghost predicate Valid(s: State) {
    Entries(s) && ClosedOnce(s) && ReplacedOnce(s) && FetchesFit(s)
  }

  lemma CreateKeeps(s: State, origin: Origin)
    requires Valid(s) && !s.closing && origin !in s.origins
    ensures var (s1, made) := CreateEntry(s, origin, true); Valid(s1.(origins := s1.origins[origin := made.value]))
  {
  }

  lemma RotateKeeps(s: State, origin: Origin, failed: nat, creates: bool)
    requires Valid(s) && failed in s.owner && s.owner[failed] == origin
    ensures var (r, current) := Rotate(s, origin, failed, creates);
            && Valid(r) && r.fetches == s.fetches && s.owner.Keys <= r.owner.Keys
            && (forall g | g in s.owner :: r.owner[g] == s.owner[g])
            && (current.Some? ==> current.value in r.owner && r.owner[current.value] == origin)
  {
    if !s.closing && Lookup(s, origin) == Some(failed) && creates {
      RotatedEntries(s, origin, failed);
    }
  }

  /** A failed current entry and the one that replaces it. */
  function Replaced(s: State, origin: Origin, failed: nat): State {
    var made := s.generation + 1;
    s.(generation := made, owner := s.owner[made := origin], origins := s.origins[origin := made],
       retired := s.retired + {failed}, closes := s.closes + multiset{failed},
       replacements := s.replacements + [(failed, made)])
  }

  lemma ReplacedEntries(s: State, origin: Origin, failed: nat)
    requires Entries(s) && !s.closing && Lookup(s, origin) == Some(failed)
    ensures Entries(Replaced(s, origin, failed))
  {
  }

  lemma ReplacedCloses(s: State, origin: Origin, failed: nat)
    requires ClosedOnce(s) && failed !in s.retired
    ensures ClosedOnce(Replaced(s, origin, failed))
  {
  }

  lemma ReplacedReplacements(s: State, origin: Origin, failed: nat)
    requires ReplacedOnce(s) && failed !in s.retired && failed <= s.generation
    ensures ReplacedOnce(Replaced(s, origin, failed))
  {
    assert forall i | 0 <= i < |s.replacements| :: s.replacements[i].0 in s.retired;
  }

  lemma RotatedEntries(s: State, origin: Origin, failed: nat)
    requires Valid(s) && !s.closing && Lookup(s, origin) == Some(failed)
    ensures Valid(Rotate(s, origin, failed, true).0)
  {
    assert Rotate(s, origin, failed, true).0 == Replaced(s, origin, failed);
    ReplacedEntries(s, origin, failed);
    ReplacedCloses(s, origin, failed);
    ReplacedReplacements(s, origin, failed);
  }

  lemma FetchKeeps(s: State, id: nat, f: Fetch)
    requires Valid(s) && f.calls <= 2 && (f.Calling? ==> f.calls >= 1 && f.entry in s.owner && s.owner[f.entry] == f.origin)
    ensures Valid(SetFetch(s, id, f))
  {
  }

  lemma CloseKeeps(s: State)
    requires Valid(s)
    ensures Valid(CloseAll(s))
  {
    var active := s.origins.Values - s.retired;
    if !s.closing {
      forall g | g in s.owner && g !in s.retired ensures g in active {
        assert s.owner[g] in s.origins;
      }
    }
  }

  lemma NextValid(s: State, e: Event)
    requires Valid(s)
    ensures Valid(Next(s, e))
  {
    match e
    case Start(id, origin, replayable, creates) =>
      if id !in s.fetches {
        StartKeeps(s, id, origin, replayable, creates);
      }
    case Succeed(id) =>
      if id in s.fetches && s.fetches[id].Calling? {
        FetchKeeps(s, id, Over(s.fetches[id].calls));
      }
    case Fail(id, invalidSession, creates) =>
      if id in s.fetches && s.fetches[id].Calling? {
        FailKeeps(s, id, invalidSession, creates);
      }
    case GoAway(entry, creates) =>
      if entry in s.owner && !s.closing {
        RotateKeeps(s, s.owner[entry], entry, creates);
      }
    case Close => CloseKeeps(s);
  }

  lemma StartKeeps(s: State, id: nat, origin: Origin, replayable: bool, creates: bool)
    requires Valid(s)
    ensures Valid(StartFetch(s, id, origin, replayable, creates))
  {
    if !s.closing && origin !in s.origins {
      var (s1, made) := CreateEntry(s, origin, creates);
      if creates {
        CreateKeeps(s, origin);
        FetchKeeps(s1.(origins := s1.origins[origin := made.value]), id, Calling(origin, made.value, replayable, 1));
      } else {
        FetchKeeps(s1, id, Over(0));
      }
    }
  }

  lemma FailKeeps(s: State, id: nat, invalidSession: bool, creates: bool)
    requires Valid(s) && id in s.fetches && s.fetches[id].Calling?
    ensures Valid(FailFetch(s, id, s.fetches[id], invalidSession, creates))
  {
    var f := s.fetches[id];
    if invalidSession {
      RotateKeeps(s, f.origin, f.entry, creates);
      var (s1, replacement) := Rotate(s, f.origin, f.entry, creates);
      if f.calls > 1 || replacement.None? || !f.replayable {
        FetchKeeps(s1, id, Over(f.calls));
      } else {
        FetchKeeps(s1, id, Calling(f.origin, replacement.value, f.replayable, f.calls + 1));
      }
    } else {
      FetchKeeps(s, id, Over(f.calls));
    }
  }

  lemma {:induction false} RunValid(events: seq<Event>)
    ensures Valid(Run(events))
    decreases |events|
  {
    if events != [] {
      RunValid(events[..|events| - 1]);
      NextValid(Run(events[..|events| - 1]), events[|events| - 1]);
    }
  }

  // ---------------------------------------------------------------- results

  /** Under any interleaving the live dispatchers are exactly the current ones of the origins, and none
      is closed twice. */
  lemma LiveAreCurrent(events: seq<Event>, g: nat)
    ensures var s := Run(events); Live(s) == s.origins.Values && s.closes[g] <= 1 && (s.closes[g] == 1 <==> g in s.retired)
  {
    RunValid(events);
    var s := Run(events);
    forall h | h in s.origins.Values ensures h in Live(s) {
      var o :| o in s.origins && s.origins[o] == h;
    }
    forall h | h in Live(s) ensures h in s.origins.Values {
      assert s.origins[s.owner[h]] == h;
    }
  }

  /** Any number of failures of one entry make at most one replacement, and replacements come in
      strictly increasing generations. */
  lemma {:induction false} OneReplacementPerEntry(events: seq<Event>, i: nat, j: nat)
    requires var s := Run(events); i < j < |s.replacements|
    ensures var s := Run(events); s.replacements[i].0 != s.replacements[j].0 && s.replacements[i].1 < s.replacements[j].1
  {
    RunValid(events);
  }

  /** A fetch calls upstream at most twice. */
  lemma {:induction false} AtMostTwoCalls(events: seq<Event>, id: nat)
    requires id in Run(events).fetches
    ensures Run(events).fetches[id].calls <= 2
  {
    RunValid(events);
  }

  lemma ClosingStays(s: State, e: Event)
    requires s.closing
    ensures Next(s, e).closing && Next(s, e).owner == s.owner
  {
  }

  lemma {:induction false} StaysClosed(before: seq<Event>, after: seq<Event>)
    requires Run(before).closing
    ensures Run(before + after).closing && Run(before + after).owner == Run(before).owner
    decreases |after|
  {
    if after == [] {
      assert before + after == before;
    } else {
      var n := |after| - 1;
      StaysClosed(before, after[..n]);
      RunSnoc(before, after);
      ClosingStays(Run(before + after[..n]), after[n]);
    }
  }

  lemma RunSnoc(before: seq<Event>, after: seq<Event>)
    requires after != []
    ensures Run(before + after) == Next(Run(before + after[..|after| - 1]), after[|after| - 1])
  {
    assert (before + after)[..|before + after| - 1] == before + after[..|after| - 1];
  }

  /** After a close nothing is live, and nothing is made any more. */
  lemma NothingLivesAfterClose(before: seq<Event>, after: seq<Event>)
    requires Close in before
    ensures var s := Run(before + after); s.closing && Live(s) == {} && s.owner == Run(before).owner
  {
    ClosedBy(before);
    StaysClosed(before, after);
    RunValid(before + after);
  }

  lemma {:induction false} ClosedBy(events: seq<Event>)
    requires Close in events
    ensures Run(events).closing
    decreases |events|
  {
    var n := |events| - 1;
    if events[n] != Close {
      assert Close in events[..n];
      ClosedBy(events[..n]);
      ClosingStays(Run(events[..n]), events[n]);
    }
  }

  // ---------------------------------------------------------------- what each step does

  /** A fetch that starts calls the current dispatcher of its origin, or a new one where there is none;
      it is over without a call exactly when the transport is closed or no dispatcher can be made. */
  lemma StartAnswers(s: State, id: nat, origin: Origin, replayable: bool, creates: bool)
    requires id !in s.fetches
    ensures var s' := Next(s, Start(id, origin, replayable, creates));
            if s.closing || (origin !in s.origins && !creates) then s'.fetches == s.fetches[id := Over(0)] && s'.origins == s.origins
            else
              && origin in s'.origins && s'.fetches == s.fetches[id := Calling(origin, s'.origins[origin], replayable, 1)]
              && (if origin in s.origins then s'.origins == s.origins
                  else s'.origins == s.origins[origin := s.generation + 1] && s'.owner == s.owner[s.generation + 1 := origin])
  {
  }

  /** What a failure of `failed` does to the dispatchers: on an open transport one that is still current
      is replaced by a new one, retired and closed, if one can be made; otherwise nothing changes. */
  ghost predicate Reported(s: State, s': State, failed: nat, creates: bool)
    requires failed in s.owner
  {
    var origin := s.owner[failed];
    if !s.closing && origin in s.origins && s.origins[origin] == failed && creates then
      && s'.origins == s.origins[origin := s.generation + 1] && s'.owner == s.owner[s.generation + 1 := origin]
      && s'.retired == s.retired + {failed} && s'.closes == s.closes + multiset{failed}
      && s'.replacements == s.replacements + [(failed, s.generation + 1)]
    else
      && s'.origins == s.origins && s'.owner == s.owner && s'.retired == s.retired && s'.closes == s.closes
      && s'.replacements == s.replacements
  }

  lemma RotateReports(s: State, failed: nat, creates: bool)
    requires Valid(s) && failed in s.owner
    ensures var origin := s.owner[failed]; var (s', current) := Rotate(s, origin, failed, creates);
            && Reported(s, s', failed, creates) && s'.fetches == s.fetches
            && current == (if s.closing then None else Lookup(s', origin))
            && (!s.closing ==> origin in s'.origins)
  {
    var origin := s.owner[failed];
    if s.closing {
      assert origin !in s.origins;
    } else {
      assert origin in s.origins;
    }
  }

  lemma GoAwayReports(s: State, entry: nat, creates: bool)
    requires Valid(s) && entry in s.owner
    ensures var s' := Next(s, GoAway(entry, creates)); Reported(s, s', entry, creates) && s'.fetches == s.fetches
  {
    RotateReports(s, entry, creates);
  }

  /** A failed call is made again exactly when it was the first one, the session was invalid, the request
      can be replayed and the transport is open; and then on what is current now. Every other failure
      ends the fetch; only an invalid session is held against the dispatcher. */
  lemma FailureAnswers(s: State, id: nat, invalidSession: bool, creates: bool)
    requires Valid(s) && id in s.fetches && s.fetches[id].Calling?
    ensures var f := s.fetches[id]; var s' := Next(s, Fail(id, invalidSession, creates));
            && f.entry in s.owner && s.owner[f.entry] == f.origin && 1 <= f.calls <= 2
            && (if invalidSession then Reported(s, s', f.entry, creates) else s' == s.(fetches := s'.fetches))
            && (if invalidSession && f.calls == 1 && f.replayable && !s.closing then
                  f.origin in s'.origins && s'.fetches == s.fetches[id := Calling(f.origin, s'.origins[f.origin], true, 2)]
                else s'.fetches == s.fetches[id := Over(f.calls)])
  {
    if invalidSession {
      RotateReports(s, s.fetches[id].entry, creates);
    }
  }

  /** A success ends its fetch and changes nothing else. */
  lemma SuccessAnswers(s: State, id: nat)
    requires id in s.fetches && s.fetches[id].Calling?
    ensures Next(s, Succeed(id)) == s.(fetches := s.fetches[id := Over(s.fetches[id].calls)])
  {
  }

  /** Closing retires and closes what is current, and leaves calls under way alone. */
  lemma CloseAnswers(s: State)
    requires Valid(s) && !s.closing
    ensures var s' := Next(s, Close);
            s' == s.(closing := true, origins := map[], retired := s.retired + s.origins.Values, closes := s.closes + multiset(s.origins.Values))
  {
    forall g | g in s.origins.Values ensures g !in s.retired {
      var o :| o in s.origins && s.origins[o] == g;
    }
    assert s.origins.Values - s.retired == s.origins.Values;
  }

  // ---------------------------------------------------------------- the transport object

  lemma RetireOne(s: State, entries: set<nat>, entry: nat)
    requires entry in entries
    ensures RetireAll(Retire(s, entry), entries - {entry}) == RetireAll(s, entries)
  {
    var r := Retire(s, entry);
    var due, rest := entries - s.retired, entries - {entry} - r.retired;
    assert r.retired + (entries - {entry}) == s.retired + entries;
    if entry in s.retired {
      assert rest == due;
    } else {
      AddOne(s.closes, rest, due, entry);
    }
  }

  lemma AddOne(m: multiset<nat>, rest: set<nat>, due: set<nat>, entry: nat)
    requires entry !in rest && due == rest + {entry}
    ensures m + multiset{entry} + multiset(rest) == m + multiset(due)
  {
    assert multiset(due) == multiset(rest) + multiset{entry};
  }

  class ProviderTransport {
    var origins: map<Origin, nat>
    var owner: map<nat, Origin>
    var retired: set<nat>
    var closes: multiset<nat>
    var generation: nat
    var closing: bool
    var fetches: map<nat, Fetch>
    var replacements: seq<(nat, nat)>

    ghost function Now(): State
      reads this
    {
      State(origins, owner, retired, closes, generation, closing, fetches, replacements)
    }

    constructor ()
      ensures Now() == INITIAL
    {
      origins, owner, retired, closes, generation := map[], map[], {}, multiset{}, 0;
      closing, fetches, replacements := false, map[], [];
    }

    method RetireEntry(entry: nat)
      modifies this`retired, this`closes
      ensures Now() == Retire(old(Now()), entry)
    {
      if entry in retired {
        return;
      }
      retired := retired + {entry};
      closes := closes + multiset{entry};
    }

    method MakeEntry(origin: Origin, creates: bool) returns (made: Option<nat>)
      modifies this`generation, this`owner
      ensures (Now(), made) == CreateEntry(old(Now()), origin, creates)
    {
      generation := generation + 1;
      if !creates {
        return None;
      }
      owner := owner[generation := origin];
      return Some(generation);
    }

    method RotateEntry(origin: Origin, failed: nat, creates: bool) returns (current: Option<nat>)
      modifies this
      ensures (Now(), current) == Rotate(old(Now()), origin, failed, creates)
    {
      current := if origin in origins then Some(origins[origin]) else None;
      if closing || (current.Some? && current.value != failed) {
        return;
      }
      var made := MakeEntry(origin, creates);
      if made.None? {
        return;
      }
      origins := origins[origin := made.value];
      RetireEntry(failed);
      replacements := replacements + [(failed, made.value)];
      current := made;
    }

    method BeginFetch(id: nat, origin: Origin, replayable: bool, creates: bool)
      requires id !in fetches
      modifies this
      ensures Now() == Next(old(Now()), Start(id, origin, replayable, creates))
    {
      if closing {
        fetches := fetches[id := Over(0)];
        return;
      }
      if origin !in origins {
        var made := MakeEntry(origin, creates);
        if made.None? {
          fetches := fetches[id := Over(0)];
          return;
        }
        origins := origins[origin := made.value];
      }
      fetches := fetches[id := Calling(origin, origins[origin], replayable, 1)];
    }

    method FetchFailed(id: nat, invalidSession: bool, creates: bool)
      requires id in fetches && fetches[id].Calling?
      modifies this
      ensures Now() == Next(old(Now()), Fail(id, invalidSession, creates))
    {
      var f := fetches[id];
      if !invalidSession {
        fetches := fetches[id := Over(f.calls)];
        return;
      }
      var replacement := RotateEntry(f.origin, f.entry, creates);
      if f.calls > 1 || replacement.None? || !f.replayable {
        fetches := fetches[id := Over(f.calls)];
        return;
      }
      fetches := fetches[id := Calling(f.origin, replacement.value, f.replayable, f.calls + 1)];
    }

    method Disconnected(entry: nat, creates: bool)
      requires entry in owner
      modifies this
      ensures Now() == Next(old(Now()), GoAway(entry, creates))
    {
      if !closing {
        var _ := RotateEntry(owner[entry], entry, creates);
      }
    }

    method Close()
      modifies this
      ensures Now() == Next(old(Now()), Event.Close)
    {
      if closing {
        return;
      }
      closing := true;
      var active := origins.Values;
      origins := map[];
      ghost var target := RetireAll(Now(), active);
      while active != {}
        invariant RetireAll(Now(), active) == target
        decreases |active|
      {
        var entry :| entry in active;
        RetireOne(Now(), active, entry);
        active := active - {entry};
        RetireEntry(entry);
      }
    }
  }
}
