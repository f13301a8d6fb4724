/** Choosing providers and collecting their managed fields (lib/ccswitch/plan.js). */
module CcSwitchPlan {
  import opened JsonString
  import opened CcSwitchOps
  import Gateway
  import Text

  // ---------------------------------------------------------------- selection

  /** A requested provider; None for an app type that is not supported. */
  datatype Item = Item(app: Option<App>, id: string)

  datatype Selection = Selected(keys: set<Key>) | ConfirmationRequired | SelectionRequired | InvalidItem | NotFound

  predicate ValidItem(item: Item) {
    item.app.Some? && item.id != ""
  }

  function KeyOf(item: Item): Key
    requires item.app.Some?
  {
    Key(item.app.value, item.id)
  }

  /** The providers asked for. */
  function Requested(input: seq<Item>): set<Key> {
    set i | 0 <= i < |input| && ValidItem(input[i]) :: KeyOf(input[i])
  }

  predicate AllValid(input: seq<Item>) {
    forall i | 0 <= i < |input| :: ValidItem(input[i])
  }

  lemma SameSize<T>(a: set<T>, b: set<T>)
    requires a <= b && |a| == |b|
    ensures a == b
  {
    assert b == a + (b - a);
  }

  /** What the caller may take over. Taking over every provider, however it is asked for, needs the
      explicit confirmation when that is required. */
  method NormalizeSelection(input: seq<Item>, available: set<Key>, allProviders: bool, requireAll: bool, confirmed: bool)
    returns (r: Selection)
    ensures r.SelectionRequired? <==> !allProviders && input == []
    ensures r.InvalidItem? <==> !allProviders && !AllValid(input)
    ensures r.NotFound? <==> !allProviders && input != [] && AllValid(input) && !(Requested(input) <= available)
    ensures r.ConfirmationRequired? <==>
            requireAll && !confirmed && (allProviders || (input != [] && AllValid(input) && Requested(input) == available))
    ensures r.Selected? ==> r.keys == if allProviders then available else Requested(input)
  {
    if allProviders {
      return if requireAll && !confirmed then ConfirmationRequired else Selected(available);
    }
    if input == [] {
      return SelectionRequired;
    }
    var selected: set<Key> := {};
    for n := 0 to |input|
      invariant forall i | 0 <= i < n :: ValidItem(input[i])
      invariant selected == Requested(input[..n])
    {
      if !ValidItem(input[n]) {
        return InvalidItem;
      }
      assert Requested(input[..n + 1]) == Requested(input[..n]) + {KeyOf(input[n])} by {
        assert input[..n + 1][n] == input[n];
        assert forall i | 0 <= i < n :: input[..n][i] == input[..n + 1][i];
      }
      selected := selected + {KeyOf(input[n])};
    }
    assert input[..|input|] == input;
    if !(selected <= available) {
      return NotFound;
    }
    if |selected| == |available| {
      SameSize(selected, available);
    }
    if requireAll && |selected| == |available| && !confirmed {
      return ConfirmationRequired;
    }
    return Selected(selected);
  }

  // ---------------------------------------------------------------- collection

  /** The local URL of a provider, or of one of its endpoint rows. */
  type Printer = (Key, Option<int>) -> string

  function TomlChanges(key: Key, values: seq<Option<string>>, applied: string): seq<Change> {
    if values == [] then []
    else
      var n := |values| - 1;
      TomlChanges(key, values[..n], applied) +
      if values[n].Some? then [Change(TomlUrl(key, n), values[n].value, applied)] else []
  }

  function ProviderChanges(key: Key, settings: Option<Settings>, applied: string): seq<Change> {
    if settings.None? then []
    else
      match key.app
      case Claude =>
        if settings.value.env.Some? && settings.value.env.value != "" then
          [Change(EnvUrl(key), settings.value.env.value, applied)] else []
      case Codex => if settings.value.config.Some? then TomlChanges(key, settings.value.config.value.values, applied) else []
  }

  function AllProviderChanges(db: Db, order: seq<Key>, selected: set<Key>, url: Printer): seq<Change> {
    if order == [] then []
    else
      (if order[0] in selected && order[0] in db.providers
       then ProviderChanges(order[0], db.providers[order[0]], url(order[0], None)) else [])
      + AllProviderChanges(db, order[1..], selected, url)
  }

  function EndpointChanges(db: Db, ids: seq<int>, selected: set<Key>, url: Printer): seq<Change> {
    if ids == [] then []
    else
      (if ids[0] in db.endpoints && db.endpoints[ids[0]].owner in selected
       then [Change(Endpoint(ids[0], db.endpoints[ids[0]].owner), db.endpoints[ids[0]].url,
                    url(db.endpoints[ids[0]].owner, Some(ids[0])))] else [])
      + EndpointChanges(db, ids[1..], selected, url)
  }

  /** Provider rows in `order`, endpoint rows in the order of `ids`. */
  datatype Rows = Rows(order: seq<Key>, ids: seq<int>)

  function Collect(db: Db, rows: Rows, selected: set<Key>, url: Printer): seq<Change> {
    AllProviderChanges(db, rows.order, selected, url) + EndpointChanges(db, rows.ids, selected, url)
  }

  function RowOf(f: Field): Option<int> {
    if f.Endpoint? then Some(f.rowId) else None
  }

  /** What a field must be for the collection to list it. */
  predicate Eligible(db: Db, rows: Rows, selected: set<Key>, f: Field) {
    && f.key in selected && Get(db, f).Value? && Get(db, f).value.Some?
    && match f
       case EnvUrl(key) => key in rows.order && key.app.Claude? && Get(db, f).value.value != ""
       case TomlUrl(key, _) => key in rows.order && key.app.Codex?
       case Endpoint(id, _) => id in rows.ids
  }

  /** A change as the collection builds it. */
  predicate IsChange(db: Db, url: Printer, c: Change) {
    Get(db, c.field) == Value(Some(c.original)) && c.applied == url(c.field.key, RowOf(c.field))
  }

  lemma {:induction false} TomlChangesHold(key: Key, values: seq<Option<string>>, applied: string)
    ensures forall c :: c in TomlChanges(key, values, applied) <==>
              c.field.TomlUrl? && c.field.key == key && c.field.occurrence < |values|
              && values[c.field.occurrence] == Some(c.original) && c.applied == applied
    decreases |values|
  {
    if values != [] {
      TomlChangesHold(key, values[..|values| - 1], applied);
    }
  }

  lemma {:induction false} TomlChangesDistinct(key: Key, values: seq<Option<string>>, applied: string)
    ensures Distinct(TomlChanges(key, values, applied))
    decreases |values|
  {
    if values != [] {
      var n := |values| - 1;
      TomlChangesDistinct(key, values[..n], applied);
      TomlChangesHold(key, values[..n], applied);
      var before := TomlChanges(key, values[..n], applied);
      if values[n].Some? {
        var c := Change(TomlUrl(key, n), values[n].value, applied);
        if Manages(before, c.field) {
          var i := ManagedAt(before, c.field);
        }
        Concatenated(before, [c]);
        OneChange(c);
      } else {
        assert before + [] == before;
      }
    }
  }

  lemma OneChange(c: Change)
    ensures Distinct([c]) && forall f :: Manages([c], f) <==> f == c.field
  {
    assert [c][1..] == [];
  }

  lemma ProviderChangesHold(db: Db, key: Key, url: Printer)
    requires key in db.providers
    ensures var cs := ProviderChanges(key, db.providers[key], url(key, None));
            && Distinct(cs)
            && forall c :: c in cs <==> c.field.key == key && !c.field.Endpoint? && IsChange(db, url, c)
                                         && Eligible(db, Rows([key], []), {key}, c.field)
  {
    var s := db.providers[key];
    if s.Some? && key.app.Codex? && s.value.config.Some? {
      TomlChangesHold(key, s.value.config.value.values, url(key, None));
      TomlChangesDistinct(key, s.value.config.value.values, url(key, None));
    } else if s.Some? && s.value.env.Some? {
      OneChange(Change(EnvUrl(key), s.value.env.value, url(key, None)));
    }
  }

  predicate DistinctRows(rows: Rows) {
    (forall i, j | 0 <= i < j < |rows.order| :: rows.order[i] != rows.order[j]) &&
    forall i, j | 0 <= i < j < |rows.ids| :: rows.ids[i] != rows.ids[j]
  }

  lemma {:induction false} ProvidersHold(db: Db, order: seq<Key>, selected: set<Key>, url: Printer)
    ensures forall c :: c in AllProviderChanges(db, order, selected, url) <==>
              IsChange(db, url, c) && Eligible(db, Rows(order, []), selected, c.field)
    decreases |order|
  {
    if order != [] {
      var key, rest := order[0], order[1..];
      ProvidersHold(db, rest, selected, url);
      if key in db.providers {
        ProviderChangesHold(db, key, url);
      }
      forall c ensures c in AllProviderChanges(db, order, selected, url) <==>
                       IsChange(db, url, c) && Eligible(db, Rows(order, []), selected, c.field)
      {
        assert c.field.key in order <==> c.field.key == key || c.field.key in rest;
      }
    }
  }

  lemma {:induction false} EndpointsHold(db: Db, ids: seq<int>, selected: set<Key>, url: Printer)
    ensures forall c :: c in EndpointChanges(db, ids, selected, url) <==>
              IsChange(db, url, c) && Eligible(db, Rows([], ids), selected, c.field)
    decreases |ids|
  {
    if ids != [] {
      EndpointsHold(db, ids[1..], selected, url);
      forall c ensures c in EndpointChanges(db, ids, selected, url) <==>
                       IsChange(db, url, c) && Eligible(db, Rows([], ids), selected, c.field)
      {
        assert c.field.Endpoint? ==> (c.field.rowId in ids <==> c.field.rowId == ids[0] || c.field.rowId in ids[1..]);
      }
    }
  }

  /** The collection is exact: it lists the eligible fields of the selected providers and no others,
      each with the value the database holds and its own local URL. */
  lemma CollectIsExact(db: Db, rows: Rows, selected: set<Key>, url: Printer)
    ensures forall c :: c in Collect(db, rows, selected, url) <==> IsChange(db, url, c) && Eligible(db, rows, selected, c.field)
  {
    ProvidersHold(db, rows.order, selected, url);
    EndpointsHold(db, rows.ids, selected, url);
  }

  lemma ManagedIsListed(changes: seq<Change>, f: Field) returns (c: Change)
    requires Manages(changes, f)
    ensures c in changes && c.field == f
  {
    var i := ManagedAt(changes, f);
    c := changes[i];
  }

  lemma {:induction false} ProvidersDistinct(db: Db, order: seq<Key>, selected: set<Key>, url: Printer)
    requires DistinctRows(Rows(order, []))
    ensures Distinct(AllProviderChanges(db, order, selected, url))
    decreases |order|
  {
    if order != [] {
      var key, rest := order[0], order[1..];
      assert DistinctRows(Rows(rest, [])) && key !in rest;
      ProvidersDistinct(db, rest, selected, url);
      var tail := AllProviderChanges(db, rest, selected, url);
      if key in selected && key in db.providers {
        var head := ProviderChanges(key, db.providers[key], url(key, None));
        ProviderChangesHold(db, key, url);
        ProvidersHold(db, rest, selected, url);
        forall f | Manages(head, f) ensures !Manages(tail, f) {
          var c := ManagedIsListed(head, f);
          if Manages(tail, f) {
            var d := ManagedIsListed(tail, f);
          }
        }
        Concatenated(head, tail);
      } else {
        assert [] + tail == tail;
      }
    }
  }

  lemma {:induction false} EndpointsDistinct(db: Db, ids: seq<int>, selected: set<Key>, url: Printer)
    requires DistinctRows(Rows([], ids))
    ensures Distinct(EndpointChanges(db, ids, selected, url))
    decreases |ids|
  {
    if ids != [] {
      assert DistinctRows(Rows([], ids[1..])) && ids[0] !in ids[1..];
      EndpointsDistinct(db, ids[1..], selected, url);
      var changes, tail := EndpointChanges(db, ids, selected, url), EndpointChanges(db, ids[1..], selected, url);
      if |changes| == |tail| + 1 {
        EndpointsHold(db, ids[1..], selected, url);
        assert changes[1..] == tail;
        if Manages(tail, changes[0].field) {
          var c := ManagedIsListed(tail, changes[0].field);
        }
      } else {
        assert changes == tail;
      }
    }
  }

  /** No field is collected twice, and every original is what the database holds. */
  lemma CollectIsSound(db: Db, rows: Rows, selected: set<Key>, url: Printer)
    requires DistinctRows(rows)
    ensures Distinct(Collect(db, rows, selected, url)) && AllOriginal(db, Collect(db, rows, selected, url))
  {
    var settings, endpoints := AllProviderChanges(db, rows.order, selected, url), EndpointChanges(db, rows.ids, selected, url);
    ProvidersDistinct(db, rows.order, selected, url);
    EndpointsDistinct(db, rows.ids, selected, url);
    ProvidersHold(db, rows.order, selected, url);
    EndpointsHold(db, rows.ids, selected, url);
    forall f | Manages(settings, f) ensures !Manages(endpoints, f) {
      var c := ManagedIsListed(settings, f);
      if Manages(endpoints, f) {
        var d := ManagedIsListed(endpoints, f);
      }
    }
    Concatenated(settings, endpoints);
    CollectIsExact(db, rows, selected, url);
    var all := Collect(db, rows, selected, url);
    forall i | 0 <= i < |all| ensures Get(db, all[i].field) == Value(Some(all[i].original)) {
      assert all[i] in all;
    }
  }

  /** The check that no collected URL already points at the router. */
  predicate NoLoop(changes: seq<Change>, localPrefix: string) {
    forall i | 0 <= i < |changes| :: changes[i].original != changes[i].applied && !(localPrefix <= changes[i].original)
  }

  /** What apply takes from the snapshot and checks, it can always put back: the round trip is the
      identity on the whole database. */
  lemma CollectedTakeoverIsReversible(db: Db, rows: Rows, selected: set<Key>, url: Printer, localPrefix: string)
    requires DistinctRows(rows) && NoLoop(Collect(db, rows, selected, url), localPrefix)
    ensures var changes := Collect(db, rows, selected, url); var applied := Mutate(db, changes, false, false);
            && applied.Done? && Verified(applied.db, changes, false)
            && Mutate(applied.db, changes, true, false).Done? && Mutate(applied.db, changes, true, false).db == db
  {
    var changes := Collect(db, rows, selected, url);
    CollectIsSound(db, rows, selected, url);
    RestoreUndoesApply(db, changes);
    VerificationHolds(db, changes, false, false);
  }

  // ---------------------------------------------------------------- the way back upstream

  function AppName(app: App): string {
    match app case Claude => "claude" case Codex => "codex"
  }

  function EntryOf(c: Change): Gateway.Entry {
    Gateway.Entry(AppName(c.field.key.app), c.field.key.id, RowOf(c.field), c.original)
  }

  function EndpointMap(changes: seq<Change>): seq<Gateway.Entry> {
    seq(|changes|, i requires 0 <= i < |changes| => EntryOf(changes[i]))
  }

  /** Two changes the gateway cannot tell apart: the same row, or two settings of one provider. */
  predicate SameRoute(c: Change, d: Change) {
    c.field.key == d.field.key && RowOf(c.field) == RowOf(d.field)
  }

  lemma SameRouteIsSameTarget(c: Change, d: Change)
    ensures Gateway.SameTarget(EntryOf(c), EntryOf(d)) <==> SameRoute(c, d)
  {
  }

  /** The URLs a takeover writes when the router listens at `base`. */
  function LocalUrls(base: string): Printer {
    (key: Key, rowId: Option<int>) => Gateway.LocalProviderUrl(base, AppName(key.app), key.id, rowId)
  }

  /** For a takeover of any selection, the URL written for a field is the router's address, the mount
      point and a path; that path, with any admissible suffix, leads through the snapshot map of all
      providers back to the URL that was replaced: always for an endpoint row, and for a setting when
      it is its provider's only one. */
  lemma {:induction false} EveryLocalUrlLeadsHome(db: Db, rows: Rows, selected: set<Key>, available: set<Key>, base: string, c: Change, suffix: string)
    requires DistinctRows(rows) && selected <= available && c in Collect(db, rows, selected, LocalUrls(base))
    requires Gateway.Admitted(c.field.key.id)
    requires (suffix == "" || suffix[0] == '/') && Gateway.AllDecode(Gateway.Segments(suffix), Gateway.DecodeSegment)
    requires !c.field.Endpoint? ==> Gateway.PlainSuffix(suffix)
    requires c.field.Endpoint? || forall d | d in Collect(db, rows, available, LocalUrls(base)) :: SameRoute(d, c) ==> d == c
    ensures var path := Gateway.RoutePath(AppName(c.field.key.app), c.field.key.id, RowOf(c.field));
            var parsed := Gateway.ParsePath(path + suffix);
            && c.applied == base + "/ccswitch" + path
            && parsed.Routed? && parsed.route.suffix == Gateway.Segments(suffix)
            && Gateway.Resolve(EndpointMap(Collect(db, rows, available, LocalUrls(base))), parsed.route) == Some(c.original)
  {
    var url := LocalUrls(base);
    CollectIsExact(db, rows, selected, url);
    CollectIsExact(db, rows, available, url);
    var all := Collect(db, rows, available, url);
    var entries := EndpointMap(all);
    var n :| 0 <= n < |all| && all[n] == c;
    assert entries[n] == EntryOf(c);
    forall i | 0 <= i < |entries| && Gateway.SameTarget(entries[i], EntryOf(c)) ensures entries[i] == EntryOf(c) {
      SameRouteIsSameTarget(all[i], c);
      assert all[i] in all;
    }
    Gateway.LocalUrlReachesUpstream(entries, EntryOf(c), suffix);
  }
}
