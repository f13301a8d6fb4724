/** The columns of a roll-up (lib/usage-ledger.js 269-299), each as a count or a sum over events. */
module LedgerColumns {
  import opened UsageLedger

  /** The events of one group, in order. */
  function Group(events: seq<Event>, key: Event -> string, id: string): seq<Event> {
    if events == [] then []
    else
      var before, e := Group(events[..|events| - 1], key, id), events[|events| - 1];
      if key(e) == id then before + [e] else before
  }

  function CountIf(events: seq<Event>, p: Event -> bool): nat {
    if events == [] then 0 else CountIf(events[..|events| - 1], p) + if p(events[|events| - 1]) then 1 else 0
  }

  function Sum(events: seq<Event>, f: Event -> nat): nat {
    if events == [] then 0 else Sum(events[..|events| - 1], f) + f(events[|events| - 1])
  }

  /** A count of an event that reports tokens, 0 for one that does not. */
  function Of(e: Event, f: Tokens -> nat): nat {
    if e.tokens.Some? then f(e.tokens.value) else 0
  }

  function Columns(events: seq<Event>): Row {
    Row(|events|, CountIf(events, (e: Event) => e.status == Success), CountIf(events, (e: Event) => e.status == Error),
        CountIf(events, (e: Event) => e.tokens.Some?), CountIf(events, (e: Event) => e.tokens.None?),
        Sum(events, (e: Event) => Of(e, (t: Tokens) => t.input)), Sum(events, (e: Event) => Of(e, (t: Tokens) => t.output)),
        Sum(events, (e: Event) => Of(e, (t: Tokens) => t.cacheRead)), Sum(events, (e: Event) => Of(e, (t: Tokens) => t.cacheWrite)),
        Sum(events, (e: Event) => Of(e, (t: Tokens) => t.total)),
        CountIf(events, (e: Event) => e.exact), CountIf(events, (e: Event) => !e.exact), Sum(events, (e: Event) => e.latency))
  }

  lemma {:induction false} ColumnsAppend(events: seq<Event>, e: Event)
    ensures Columns(events + [e]) == Count(Columns(events), e)
  {
    assert (events + [e])[..|events|] == events;
  }

  lemma {:induction false} TotalsAreColumns(events: seq<Event>)
    ensures Totals(events) == Columns(events)
    decreases |events|
  {
    if events != [] {
      var n := |events| - 1;
      TotalsAreColumns(events[..n]);
      ColumnsAppend(events[..n], events[n]);
      assert events[..n] + [events[n]] == events;
    }
  }

  lemma {:induction false} GroupTotals(events: seq<Event>, key: Event -> string, id: string)
    ensures TotalsOf(events, key, id) == Columns(Group(events, key, id))
    decreases |events|
  {
    if events != [] {
      var n := |events| - 1;
      GroupTotals(events[..n], key, id);
      if key(events[n]) == id {
        ColumnsAppend(Group(events[..n], key, id), events[n]);
      }
    }
  }

  /** Each group's row counts its own events by status, by whether they report tokens and by exactness,
      and sums their tokens and latencies; the totals do so over all events. */
  lemma {:induction false} RowsAreColumns(events: seq<Event>, key: Event -> string, id: string)
    ensures RowFor(RolledUp(events, key), id) == Columns(Group(events, key, id))
    ensures SumOf(RolledUp(events, key)) == Columns(events)
  {
    RollupPartitions(events, key, id);
    RollupConserves(events, key);
    GroupTotals(events, key, id);
    TotalsAreColumns(events);
  }
}
