/** Gateway URLs: how they are printed, parsed and resolved (lib/ccswitch/common.js 82-86,
    lib/ccswitch/gateway.js 20-47, lib/ccswitch/upstream.js 15-22, lib/ccswitch/plan.js 115-126).

    The takeover prints a local URL for every field it replaces; a request under that URL comes back
    with the mount point removed, and its path is split, decoded and looked up in the snapshot's map to
    find where it was going. Printing and parsing are inverse, also when a suffix follows. */
module Gateway {
  import opened JsonString
  import opened Text
  import Percent

  // ---------------------------------------------------------------- printing

  function PathOf(segments: seq<string>): string {
    if segments == [] then "" else "/" + segments[0] + PathOf(segments[1..])
  }

  function RouteSegments(app: string, provider: string, rowId: Option<int>): seq<string> {
    [Percent.Encode(app), Percent.Encode(provider)] +
    if rowId.None? then [] else ["endpoint", Percent.Encode(Printed(rowId.value))]
  }

  /** `/<appType>/<providerId>` and, for an endpoint row, `/endpoint/<rowId>`. */
  function RoutePath(app: string, provider: string, rowId: Option<int>): string {
    PathOf(RouteSegments(app, provider, rowId))
  }

  function LocalProviderUrl(proxyBase: string, app: string, provider: string, rowId: Option<int>): string {
    proxyBase + "/ccswitch" + RoutePath(app, provider, rowId)
  }

  // ---------------------------------------------------------------- parsing

  function SlashAt(s: string): (n: nat)
    ensures n <= |s| && (n < |s| ==> s[n] == '/')
    ensures forall i | 0 <= i < n :: s[i] != '/'
  {
    if s == "" || s[0] == '/' then 0 else 1 + SlashAt(s[1..])
  }

  /** The non-empty pieces between slashes. */
  function Segments(path: string): seq<string>
    decreases |path|
  {
    var n := SlashAt(path);
    (if n == 0 then [] else [path[..n]]) + if n == |path| then [] else Segments(path[n + 1..])
  }

  predicate IsApp(app: string) {
    app == "claude" || app == "codex"
  }

  /** Names that may stand in a segment. */
  predicate Admitted(name: string) {
    name != "" && name != "." && name != ".." && '/' !in name && '\\' !in name && '\0' !in name
  }

  function DecodeSegment(s: string): Option<string> {
    var name := Percent.Decode(s);
    if name.Some? && Admitted(name.value) then name else None
  }

  type Decoder = string -> Option<string>

  predicate AllDecode(segments: seq<string>, decode: Decoder) {
    segments == [] || (decode(segments[0]).Some? && AllDecode(segments[1..], decode))
  }

  datatype Route = Route(app: string, provider: string, endpoint: Option<string>, suffix: seq<string>)

  datatype Parsed = Routed(route: Route) | Rejected(status: int)

  function Rest(app: string, provider: string, endpoint: Option<string>, suffix: seq<string>, decode: Decoder): Parsed {
    if AllDecode(suffix, decode) then Routed(Route(app, provider, endpoint, suffix)) else Rejected(400)
  }

  function ParseSegments(segments: seq<string>, decode: Decoder): Parsed {
    if |segments| < 2 then Rejected(404)
    else
      var app, provider := decode(segments[0]), decode(segments[1]);
      if app.None? then Rejected(400)
      else if !IsApp(app.value) then Rejected(404)
      else if provider.None? then Rejected(400)
      else if |segments| > 2 && segments[2] == "endpoint" then
        if |segments| == 3 then Rejected(404)
        else
          var row := decode(segments[3]);
          if row.None? then Rejected(400) else Rest(app.value, provider.value, row, segments[4..], decode)
      else Rest(app.value, provider.value, None, segments[2..], decode)
  }

  /** A request path is taken after URL parsing, that is with dot segments resolved, and the mount
      point `/ccswitch` has been removed. */
  function ParsePath(path: string): Parsed {
    ParseSegments(Segments(path), DecodeSegment)
  }

  /** What parses names a known app, a provider, perhaps a row, and segments that all decode; and no
      name in it is a dot segment or holds a separator. */
  lemma RoutedIff(segments: seq<string>, r: Route)
    ensures ParseSegments(segments, DecodeSegment) == Routed(r) <==>
            && |segments| >= 2 && DecodeSegment(segments[0]) == Some(r.app) && DecodeSegment(segments[1]) == Some(r.provider)
            && (r.app == "claude" || r.app == "codex")
            && (if |segments| > 2 && segments[2] == "endpoint" then
                  |segments| > 3 && r.endpoint.Some? && DecodeSegment(segments[3]) == r.endpoint && r.suffix == segments[4..]
                else r.endpoint.None? && r.suffix == segments[2..])
            && forall i | 0 <= i < |r.suffix| :: DecodeSegment(r.suffix[i]).Some?
  {
    AllDecodeMeans(if |segments| >= 2 then segments[2..] else []);
    AllDecodeMeans(if |segments| >= 4 then segments[4..] else []);
  }

  lemma {:induction false} AllDecodeMeans(segments: seq<string>)
    ensures AllDecode(segments, DecodeSegment) <==> forall i | 0 <= i < |segments| :: DecodeSegment(segments[i]).Some?
    decreases |segments|
  {
    if segments != [] {
      AllDecodeMeans(segments[1..]);
      assert forall i | 0 <= i < |segments| - 1 :: segments[1..][i] == segments[i + 1];
      assert forall i | 1 <= i < |segments| :: segments[i] == segments[1..][i - 1];
    }
  }

  lemma NamesAreSafe(s: string)
    requires DecodeSegment(s).Some?
    ensures var name := DecodeSegment(s).value;
            && name != "" && name != "." && name != ".."
            && forall i | 0 <= i < |name| :: name[i] != '/' && name[i] != '\\' && name[i] != '\0'
  {
  }

  /** Why a path is rejected: not found when it is too short, names another app or no row; bad when a
      name that is read does not decode. */
  lemma RejectedIs(segments: seq<string>)
    requires ParseSegments(segments, DecodeSegment).Rejected?
    ensures var status := ParseSegments(segments, DecodeSegment).status;
            status == if |segments| < 2 then 404
                      else if DecodeSegment(segments[0]).None? then 400
                      else if DecodeSegment(segments[0]).value != "claude" && DecodeSegment(segments[0]).value != "codex" then 404
                      else if DecodeSegment(segments[1]).Some? && |segments| == 3 && segments[2] == "endpoint" then 404
                      else 400
  {
  }

  /** The parser shifts segments off a local list. */
  method ShiftSegments(segments: seq<string>, decode: Decoder) returns (r: Parsed)
    ensures r == ParseSegments(segments, decode)
  {
    var raw := segments;
    if |raw| < 2 {
      return Rejected(404);
    }
    var app := decode(raw[0]);
    raw := raw[1..];
    if app.None? {
      return Rejected(400);
    }
    if !IsApp(app.value) {
      return Rejected(404);
    }
    var provider := decode(raw[0]);
    raw := raw[1..];
    if provider.None? {
      return Rejected(400);
    }
    var endpoint: Option<string> := None;
    if |raw| > 0 && raw[0] == "endpoint" {
      raw := raw[1..];
      if raw == [] {
        return Rejected(404);
      }
      endpoint := decode(raw[0]);
      raw := raw[1..];
      if endpoint.None? {
        return Rejected(400);
      }
    }
    for i := 0 to |raw|
      invariant AllDecode(raw, decode) == AllDecode(raw[i..], decode)
    {
      assert raw[i..][0] == raw[i] && raw[i..][1..] == raw[i + 1..];
      if decode(raw[i]).None? {
        return Rejected(400);
      }
    }
    return Routed(Route(app.value, provider.value, endpoint, raw));
  }

  method ParseGatewayPath(path: string) returns (r: Parsed)
    ensures r == ParsePath(path)
  {
    r := ShiftSegments(Segments(path), DecodeSegment);
  }

  // ---------------------------------------------------------------- resolving

  /** One entry of the snapshot's endpoint map; rowId is None for a provider setting. */
  datatype Entry = Entry(app: string, provider: string, rowId: Option<int>, upstream: string)

  predicate Matches(e: Entry, r: Route) {
    e.app == r.app && e.provider == r.provider &&
    if r.endpoint.None? then e.rowId.None? else e.rowId.Some? && Printed(e.rowId.value) == r.endpoint.value
  }

  function Resolve(entries: seq<Entry>, r: Route): Option<string> {
    if entries == [] then None else if Matches(entries[0], r) then Some(entries[0].upstream) else Resolve(entries[1..], r)
  }

  // ---------------------------------------------------------------- parsing what was printed

  lemma {:induction false} SlashAfter(a: string, rest: string)
    requires '/' !in a && (rest == "" || rest[0] == '/')
    ensures SlashAt(a + rest) == |a|
  {
    assert forall i | 0 <= i < |a| :: (a + rest)[i] == a[i];
    assert rest != "" ==> (a + rest)[|a|] == rest[0];
  }

  lemma {:induction false} SegmentFirst(a: string, rest: string)
    requires a != "" && '/' !in a && (rest == "" || rest[0] == '/')
    ensures Segments("/" + a + rest) == [a] + Segments(rest)
  {
    Associate("/", a, rest);
    LeadingSlash(a + rest);
    SegmentBefore(a, rest);
  }

  lemma LeadingSlash(s: string)
    ensures Segments("/" + s) == Segments(s)
  {
    var path := "/" + s;
    assert SlashAt(path) == 0 && path[1..] == s;
    assert Segments("") == [] && [] + Segments(s) == Segments(s);
  }

  lemma {:induction false} SegmentBefore(a: string, rest: string)
    requires a != "" && '/' !in a && (rest == "" || rest[0] == '/')
    ensures Segments(a + rest) == [a] + Segments(rest)
  {
    SlashAfter(a, rest);
    assert (a + rest)[..|a|] == a;
    if rest != "" {
      assert "/" + rest[1..] == rest;
      LeadingSlash(rest[1..]);
      assert (a + rest)[|a| + 1..] == rest[1..];
    }
  }

  predicate Separable(segments: seq<string>) {
    forall i | 0 <= i < |segments| :: segments[i] != "" && '/' !in segments[i]
  }

  lemma PathStarts(segments: seq<string>, suffix: string)
    requires suffix == "" || suffix[0] == '/'
    ensures PathOf(segments) + suffix == "" || (PathOf(segments) + suffix)[0] == '/'
  {
    assert segments == [] ==> PathOf(segments) + suffix == suffix;
  }

  lemma PathStep(segments: seq<string>, suffix: string)
    requires segments != []
    ensures PathOf(segments) + suffix == "/" + segments[0] + (PathOf(segments[1..]) + suffix)
  {
  }

  /** The splitter takes a leading segment off and leaves the rest for later. */
  ghost predicate TakesFirst(split: string -> seq<string>) {
    split("") == [] && forall a, rest | a != "" && '/' !in a && (rest == "" || rest[0] == '/') :: TakesOff(split, a, rest)
  }

  ghost predicate TakesOff(split: string -> seq<string>, a: string, rest: string) {
    split("/" + a + rest) == [a] + split(rest)
  }

  /** Splitting a joined path gives the segments back. */
  lemma {:induction false} SplitUndoesJoin(split: string -> seq<string>, segments: seq<string>, suffix: string)
    requires TakesFirst(split) && Separable(segments) && (suffix == "" || suffix[0] == '/')
    ensures split(PathOf(segments) + suffix) == segments + split(suffix)
    decreases |segments|
  {
    if segments == [] {
      assert PathOf(segments) + suffix == suffix && segments + split(suffix) == split(suffix);
    } else {
      var first, rest := segments[0], PathOf(segments[1..]) + suffix;
      assert forall i | 0 <= i < |segments| - 1 :: segments[1..][i] == segments[i + 1];
      SplitUndoesJoin(split, segments[1..], suffix);
      PathStep(segments, suffix);
      PathStarts(segments[1..], suffix);
      assert TakesOff(split, first, rest);
      assert [first] + (segments[1..] + split(suffix)) == segments + split(suffix);
    }
  }

  lemma SegmentsTakeFirst()
    ensures TakesFirst(Segments)
  {
    forall a, rest | a != "" && '/' !in a && (rest == "" || rest[0] == '/') ensures TakesOff(Segments, a, rest) {
      SegmentFirst(a, rest);
    }
  }

  lemma {:induction false} EncodedSegment(s: string)
    requires Admitted(s)
    ensures DecodeSegment(Percent.Encode(s)) == Some(s)
  {
    Percent.RoundTrip(s);
  }

  lemma EncodedIsSegment(s: string)
    requires s != ""
    ensures Percent.Encode(s) != "" && '/' !in Percent.Encode(s)
  {
    Percent.EncodedIsSafe(s);
  }

  lemma PrintedAdmitted(i: int)
    ensures Admitted(Printed(i))
  {
    assert Decimal(if i < 0 then -i else i)[0] in Decimal(if i < 0 then -i else i);
    assert Printed(i)[0] != '.';
  }

  /** A suffix that does not name an endpoint row. */
  predicate PlainSuffix(suffix: string) {
    Segments(suffix) != [] ==> Segments(suffix)[0] != "endpoint"
  }

  lemma RouteIsSeparable(app: string, provider: string, rowId: Option<int>)
    requires app != "" && provider != ""
    ensures Separable(RouteSegments(app, provider, rowId))
  {
    EncodedIsSegment(app);
    EncodedIsSegment(provider);
    if rowId.Some? {
      PrintedSign(rowId.value);
      EncodedIsSegment(Printed(rowId.value));
    }
  }

  lemma AppAdmitted(app: string)
    requires IsApp(app)
    ensures Admitted(app)
  {
  }

  lemma {:induction false} ParseRouteSegments(app: string, provider: string, rowId: Option<int>, tail: seq<string>)
    requires IsApp(app) && Admitted(provider) && AllDecode(tail, DecodeSegment)
    requires rowId.None? && tail != [] ==> tail[0] != "endpoint"
    ensures ParseSegments(RouteSegments(app, provider, rowId) + tail, DecodeSegment) ==
            Routed(Route(app, provider, if rowId.None? then None else Some(Printed(rowId.value)), tail))
  {
    AppAdmitted(app);
    EncodedSegment(app);
    EncodedSegment(provider);
    if rowId.None? {
      ParseSetting(app, provider, Percent.Encode(app), Percent.Encode(provider), tail, DecodeSegment);
    } else {
      PrintedAdmitted(rowId.value);
      EncodedSegment(Printed(rowId.value));
      ParseEndpoint(app, provider, Printed(rowId.value), Percent.Encode(app), Percent.Encode(provider),
                    Percent.Encode(Printed(rowId.value)), tail, DecodeSegment);
    }
  }

  /** Parsing what was printed gives the route that was printed, with the suffix the client added. */
  lemma ParseUndoesPrint(app: string, provider: string, rowId: Option<int>, suffix: string)
    requires IsApp(app) && Admitted(provider)
    requires (suffix == "" || suffix[0] == '/') && AllDecode(Segments(suffix), DecodeSegment)
    requires rowId.None? ==> PlainSuffix(suffix)
    ensures ParsePath(RoutePath(app, provider, rowId) + suffix) ==
            Routed(Route(app, provider, if rowId.None? then None else Some(Printed(rowId.value)), Segments(suffix)))
  {
    RouteIsSeparable(app, provider, rowId);
    SegmentsTakeFirst();
    SplitUndoesJoin(Segments, RouteSegments(app, provider, rowId), suffix);
    ParseRouteSegments(app, provider, rowId, Segments(suffix));
  }

  lemma ParseSetting(app: string, provider: string, a: string, p: string, suffix: seq<string>, decode: Decoder)
    requires IsApp(app)
    requires decode(a) == Some(app) && decode(p) == Some(provider)
    requires AllDecode(suffix, decode) && (suffix != [] ==> suffix[0] != "endpoint")
    ensures ParseSegments([a, p] + [] + suffix, decode) == Routed(Route(app, provider, None, suffix))
  {
    var s := [a, p] + [] + suffix;
    assert s[2..] == suffix && (|s| > 2 ==> s[2] == suffix[0]);
  }

  lemma ParseEndpoint(app: string, provider: string, row: string, a: string, p: string, r: string, suffix: seq<string>, decode: Decoder)
    requires IsApp(app)
    requires decode(a) == Some(app) && decode(p) == Some(provider) && decode(r) == Some(row)
    requires AllDecode(suffix, decode)
    ensures ParseSegments([a, p] + ["endpoint", r] + suffix, decode) == Routed(Route(app, provider, Some(row), suffix))
  {
    var s := [a, p] + ["endpoint", r] + suffix;
    assert s[4..] == suffix && s[2] == "endpoint" && s[3] == r;
  }

  // ---------------------------------------------------------------- resolving what was parsed

  predicate SameTarget(a: Entry, b: Entry) {
    a.app == b.app && a.provider == b.provider && a.rowId == b.rowId
  }

  /** The entry a route resolves to: the first that names the same provider setting or row. */
  function First(entries: seq<Entry>, e: Entry): Entry
    requires e in entries
  {
    if SameTarget(entries[0], e) then entries[0] else First(entries[1..], e)
  }

  function RouteOf(e: Entry, suffix: seq<string>): Route {
    Route(e.app, e.provider, if e.rowId.None? then None else Some(Printed(e.rowId.value)), suffix)
  }

  lemma MatchesTarget(a: Entry, e: Entry, suffix: seq<string>)
    ensures Matches(a, RouteOf(e, suffix)) <==> SameTarget(a, e)
  {
    if a.rowId.Some? && e.rowId.Some? && Printed(a.rowId.value) == Printed(e.rowId.value) {
      PrintedInjective(a.rowId.value, e.rowId.value);
    }
  }

  lemma {:induction false} ResolveFirst(entries: seq<Entry>, e: Entry, suffix: seq<string>)
    requires e in entries
    ensures Resolve(entries, RouteOf(e, suffix)) == Some(First(entries, e).upstream)
    decreases |entries|
  {
    MatchesTarget(entries[0], e, suffix);
    if !SameTarget(entries[0], e) {
      ResolveFirst(entries[1..], e, suffix);
    }
  }

  predicate Alone(entries: seq<Entry>, e: Entry) {
    forall i | 0 <= i < |entries| :: SameTarget(entries[i], e) ==> entries[i] == e
  }

  lemma {:induction false} FirstAlone(entries: seq<Entry>, e: Entry)
    requires e in entries && Alone(entries, e)
    ensures First(entries, e) == e
    decreases |entries|
  {
    if SameTarget(entries[0], e) {
      assert entries[0] == e;
    } else {
      assert forall i | 0 <= i < |entries| - 1 :: entries[1..][i] == entries[i + 1];
      FirstAlone(entries[1..], e);
    }
  }

  /** A client that calls the local URL printed for an entry, with any admissible suffix, reaches the
      first entry for that provider or row; it is that very upstream when the entry is the only one. */
  lemma LocalUrlReachesUpstream(entries: seq<Entry>, e: Entry, suffix: string)
    requires e in entries && IsApp(e.app) && Admitted(e.provider)
    requires (suffix == "" || suffix[0] == '/') && AllDecode(Segments(suffix), DecodeSegment) && (e.rowId.None? ==> PlainSuffix(suffix))
    ensures var parsed := ParsePath(RoutePath(e.app, e.provider, e.rowId) + suffix);
            && parsed.Routed? && parsed.route.suffix == Segments(suffix)
            && (Resolve(entries, parsed.route) == Some(e.upstream) <==> First(entries, e).upstream == e.upstream)
            && (Alone(entries, e) ==> Resolve(entries, parsed.route) == Some(e.upstream))
  {
    ParseUndoesPrint(e.app, e.provider, e.rowId, suffix);
    ResolveFirst(entries, e, Segments(suffix));
    if Alone(entries, e) {
      FirstAlone(entries, e);
    }
  }
}
