/**
 Stats of internal/observability/observability.go: totals per route and status class, computed by
 parsing the keys of the upstream counters, and exact for clean label values.
 */
module RouteStats {
  import opened Labels
  import opened LabelParse
  import opened Metrics
  import opened MetricIndex
  import opened Recorder

  /** What Stats reads off a key; empty where the label is missing. */
  datatype Facts = Facts(route: string, class_: string)

  predicate StartsWith(s: string, c: char) {
    s != "" && s[0] == c
  }

  /** The figures that Stats computes. */
  datatype Figure = Requests | ClientErrors | ServerErrors | OfRoute(id: string) | ErrorsOfRoute(id: string)

  predicate Hits(fig: Figure, f: Facts) {
    match fig
    case Requests => true
    case ClientErrors => "4" <= f.class_
    case ServerErrors => "5" <= f.class_
    case OfRoute(id) => f.route == id
    case ErrorsOfRoute(id) => f.route == id && ("4" <= f.class_ || "5" <= f.class_)
  }

  // ---------------------------------------------------------------- counting over the keys

  /** The observations under a key in `done` that the figure counts. */
  function HitsAmong(keys: seq<string>, read: string -> Facts, done: set<string>, fig: Figure): nat {
    if keys == [] then 0
    else
      var k := keys[|keys| - 1];
      HitsAmong(keys[..|keys| - 1], read, done, fig) + if k in done && Hits(fig, read(k)) then 1 else 0
  }

  lemma {:induction false} HitsAdd(keys: seq<string>, read: string -> Facts, done: set<string>, k: string, fig: Figure)
    requires k !in done
    ensures HitsAmong(keys, read, done + {k}, fig) ==
            HitsAmong(keys, read, done, fig) + if Hits(fig, read(k)) then Occurrences(keys, k) else 0
  {
    if keys != [] { HitsAdd(keys[..|keys| - 1], read, done, k, fig); }
  }

  lemma {:induction false} NoHits(keys: seq<string>, read: string -> Facts, fig: Figure)
    ensures HitsAmong(keys, read, {}, fig) == 0
  {
    if keys != [] { NoHits(keys[..|keys| - 1], read, fig); }
  }

  /** All observations that the figure counts. */
  function HitsIn(keys: seq<string>, read: string -> Facts, fig: Figure): nat {
    if keys == [] then 0
    else HitsIn(keys[..|keys| - 1], read, fig) + if Hits(fig, read(keys[|keys| - 1])) then 1 else 0
  }

  lemma {:induction false} HitsAll(keys: seq<string>, read: string -> Facts, done: set<string>, fig: Figure)
    requires forall i :: 0 <= i < |keys| ==> keys[i] in done
    ensures HitsAmong(keys, read, done, fig) == HitsIn(keys, read, fig)
  {
    if keys != [] { HitsAll(keys[..|keys| - 1], read, done, fig); }
  }

  datatype Stats = Stats(total: nat, errors4xx: nat, errors5xx: nat, routes: map<string, nat>,
                         routeErrors: map<string, nat>)

  /** The figures are right for the keys in `done`. */
  ghost predicate StatsOver(s: Stats, keys: seq<string>, read: string -> Facts, done: set<string>) {
    && s.total == HitsAmong(keys, read, done, Requests)
    && s.errors4xx == HitsAmong(keys, read, done, ClientErrors)
    && s.errors5xx == HitsAmong(keys, read, done, ServerErrors)
    && "" !in s.routes && "" !in s.routeErrors
    && (forall id :: id != "" ==> Count(s.routes, id) == HitsAmong(keys, read, done, OfRoute(id)))
    && (forall id :: id != "" ==> Count(s.routeErrors, id) == HitsAmong(keys, read, done, ErrorsOfRoute(id)))
  }

  function Credit(m: map<string, nat>, id: string, n: nat): map<string, nat> {
    m[id := Count(m, id) + n]
  }

  /** What one counter contributes. */
  function WithCounter(s: Stats, f: Facts, n: nat): Stats {
    var four, five := StartsWith(f.class_, '4'), StartsWith(f.class_, '5');
    Stats(s.total + n,
          s.errors4xx + (if four then n else 0),
          s.errors5xx + (if five then n else 0),
          if f.route != "" then Credit(s.routes, f.route, n) else s.routes,
          if f.route != "" && (four || five) then Credit(s.routeErrors, f.route, n) else s.routeErrors)
  }

  lemma {:induction false} CounterAdds(s: Stats, keys: seq<string>, read: string -> Facts, done: set<string>, k: string)
    requires StatsOver(s, keys, read, done) && k !in done
    ensures StatsOver(WithCounter(s, read(k), Occurrences(keys, k)), keys, read, done + {k})
  {
    HitsAdd(keys, read, done, k, Requests);
    HitsAdd(keys, read, done, k, ClientErrors);
    HitsAdd(keys, read, done, k, ServerErrors);
    forall id ensures HitsAmong(keys, read, done + {k}, OfRoute(id)) ==
                      HitsAmong(keys, read, done, OfRoute(id)) +
                      if Hits(OfRoute(id), read(k)) then Occurrences(keys, k) else 0
    {
      HitsAdd(keys, read, done, k, OfRoute(id));
    }
    forall id ensures HitsAmong(keys, read, done + {k}, ErrorsOfRoute(id)) ==
                      HitsAmong(keys, read, done, ErrorsOfRoute(id)) +
                      if Hits(ErrorsOfRoute(id), read(k)) then Occurrences(keys, k) else 0
    {
      HitsAdd(keys, read, done, k, ErrorsOfRoute(id));
    }
  }

  lemma {:induction false} NothingYet(keys: seq<string>, read: string -> Facts)
    ensures StatsOver(Stats(0, 0, 0, map[], map[]), keys, read, {})
  {
    forall fig ensures HitsAmong(keys, read, {}, fig) == 0 { NoHits(keys, read, fig); }
  }

  /** The figures are right for everything observed. */
  ghost predicate StatsFor(s: Stats, keys: seq<string>, read: string -> Facts) {
    && s.total == HitsIn(keys, read, Requests)
    && s.errors4xx == HitsIn(keys, read, ClientErrors)
    && s.errors5xx == HitsIn(keys, read, ServerErrors)
    && "" !in s.routes
    && (forall id :: id != "" ==> Count(s.routes, id) == HitsIn(keys, read, OfRoute(id)))
    && (forall id :: id != "" ==> Count(s.routeErrors, id) == HitsIn(keys, read, ErrorsOfRoute(id)))
  }

  lemma {:induction false} AllDone(s: Stats, keys: seq<string>, read: string -> Facts, done: set<string>)
    requires StatsOver(s, keys, read, done) && forall i :: 0 <= i < |keys| ==> keys[i] in done
    ensures StatsFor(s, keys, read)
  {
    forall fig ensures HitsAmong(keys, read, done, fig) == HitsIn(keys, read, fig) { HitsAll(keys, read, done, fig); }
  }

  /** The loop of Stats over the upstream counters, in an arbitrary order. */
  method Summarize(counts: map<string, nat>, read: string -> Facts, ghost keys: seq<string>) returns (s: Stats)
    requires counts == Counters(keys)
    ensures StatsFor(s, keys, read)
  {
    s := Stats(0, 0, 0, map[], map[]);
    ghost var done: set<string> := {};
    var todo := counts.Keys;
    NothingYet(keys, read);
    while todo != {}
      invariant todo <= counts.Keys && todo !! done && todo + done == counts.Keys
      invariant StatsOver(s, keys, read, done)
    {
      var k :| k in todo;
      CountersAt(keys, k);
      CounterAdds(s, keys, read, done, k);
      s := WithCounter(s, read(k), counts[k]);
      todo, done := todo - {k}, done + {k};
    }
    forall i | 0 <= i < |keys| ensures keys[i] in done { CountersAt(keys, keys[i]); }
    AllDone(s, keys, read, done);
  }

  // ---------------------------------------------------------------- the busiest routes

  /** Ids by descending number of requests, each once. */
  ghost predicate Ranked(ids: seq<string>, routes: map<string, nat>) {
    && (forall i :: 0 <= i < |ids| ==> ids[i] in routes)
    && (forall i, j :: 0 <= i < j < |ids| ==> ids[i] != ids[j] && routes[ids[i]] >= routes[ids[j]])
  }

  function InsertAt(ids: seq<string>, k: nat, id: string): (r: seq<string>)
    requires k <= |ids|
    ensures |r| == |ids| + 1
    ensures forall i :: 0 <= i < |r| ==> r[i] == if i < k then ids[i] else if i == k then id else ids[i - 1]
  {
    ids[..k] + [id] + ids[k..]
  }

  lemma {:induction false} InsertMembers(ids: seq<string>, k: nat, id: string, x: string)
    requires k <= |ids|
    ensures x in InsertAt(ids, k, id) <==> x in ids || x == id
  {
    var r := InsertAt(ids, k, id);
    if x in ids {
      var i :| 0 <= i < |ids| && ids[i] == x;
      assert r[if i < k then i else i + 1] == x;
    }
    if x == id { assert r[k] == x; }
  }

  lemma {:induction false} InsertKeepsRanked(ids: seq<string>, k: nat, id: string, routes: map<string, nat>)
    requires Ranked(ids, routes) && id in routes && id !in ids && k <= |ids|
    requires forall i :: 0 <= i < k ==> routes[ids[i]] >= routes[id]
    requires k < |ids| ==> routes[ids[k]] < routes[id]
    ensures Ranked(InsertAt(ids, k, id), routes)
  {
    forall i | k <= i < |ids| ensures routes[ids[i]] <= routes[id] {
      assert i > k ==> routes[ids[k]] >= routes[ids[i]];
    }
  }

  method InsertRanked(ids: seq<string>, id: string, routes: map<string, nat>) returns (r: seq<string>)
    requires Ranked(ids, routes) && id in routes && id !in ids
    ensures Ranked(r, routes) && |r| == |ids| + 1
    ensures forall x :: x in r <==> x in ids || x == id
  {
    var k := 0;
    while k < |ids| && routes[ids[k]] >= routes[id]
      invariant k <= |ids| && forall i :: 0 <= i < k ==> routes[ids[i]] >= routes[id]
    {
      k := k + 1;
    }
    r := InsertAt(ids, k, id);
    InsertKeepsRanked(ids, k, id, routes);
    forall x ensures x in r <==> x in ids || x == id { InsertMembers(ids, k, id, x); }
  }

  /** Every route once, by descending number of requests. */
  method SortRoutes(routes: map<string, nat>) returns (ids: seq<string>)
    ensures |ids| == |routes| && Ranked(ids, routes)
    ensures forall id :: id in ids <==> id in routes
  {
    ids := [];
    var todo := routes.Keys;
    while todo != {}
      invariant todo <= routes.Keys && |ids| + |todo| == |routes.Keys| && Ranked(ids, routes)
      invariant forall id :: id in ids <==> id in routes && id !in todo
    {
      var id :| id in todo;
      ids := InsertRanked(ids, id, routes);
      todo := todo - {id};
    }
    assert |routes.Keys| == |routes|;
  }

  /** What comes after a rank has no more requests than what comes before it. */
  lemma {:induction false} RankedSplits(ids: seq<string>, n: nat, routes: map<string, nat>, id: string, i: nat)
    requires Ranked(ids, routes) && i < n <= |ids| && id in ids && id !in ids[..n]
    ensures ids[..n][i] in routes && routes[id] <= routes[ids[..n][i]]
  {
    var j :| 0 <= j < |ids| && ids[j] == id;
    assert j >= n;
  }

  /** The first five of the routes sorted by requests: no route that is left out has more requests
      than one that is shown. */
  method TopRoutes(routes: map<string, nat>) returns (top: seq<string>)
    ensures |top| == if |routes| < 5 then |routes| else 5
    ensures Ranked(top, routes)
    ensures forall id, i :: id in routes && id !in top && 0 <= i < |top| ==> routes[id] <= routes[top[i]]
  {
    var ids := SortRoutes(routes);
    var n := if |ids| > 5 then 5 else |ids|;
    top := ids[..n];
    forall id, i | id in routes && id !in top && 0 <= i < |top| ensures routes[id] <= routes[top[i]] {
      RankedSplits(ids, n, routes, id, i);
    }
  }

  // ---------------------------------------------------------------- what the keys say about the labels

  function ValueOr(m: map<string, string>, n: string): string {
    if n in m then m[n] else ""
  }

  /** What Stats reads off a key by parsing it. */
  function ReadKey(key: string): Facts {
    Facts(ValueOr(Parse(key), "route_id"), ValueOr(Parse(key), "status_class"))
  }

  /** No label value has a comma, a quote, a backslash or a newline. */
  predicate CleanLabels(u: UpstreamLabels) {
    && Clean(u.routeId) && Clean(u.serviceId) && Clean(u.upstreamId) && Clean(u.endpoint)
    && Clean(u.scheme) && Clean(u.verb) && Clean(u.statusClass) && Clean(u.errorType)
  }

  lemma {:induction false} LabelAt(names: seq<string>, vals: seq<string>, i: nat)
    requires |names| == |vals| && GoodNames(names) && i < |names|
    ensures LabelOf(names, vals, names[i]) == if vals[i] == "" then Missing else Value(vals[i])
  {
    if i > 0 {
      LabelAt(names[1..], vals[1..], i - 1);
    } else {
      NoOtherLabel(names[1..], vals[1..], names[0]);
    }
  }

  lemma {:induction false} CleanValueRead(names: seq<string>, vals: seq<string>, i: nat)
    requires |names| == |vals| && GoodNames(names) && i < |names|
    requires forall j :: 0 <= j < |vals| ==> Clean(vals[j])
    ensures ValueOr(Parse(Render(names, vals)), names[i]) == vals[i]
  {
    ParseRecoversIff(names, vals);
    LabelAt(names, vals, i);
    assert Lookup(Parse(Render(names, vals)), names[i]) == LabelOf(names, vals, names[i]);
  }

  lemma {:induction false} ReadTable(t: NameTable, u: UpstreamLabels)
    requires GoodTable(t) && CleanLabels(u)
    ensures ValueOr(Parse(KeyOf(t, ForUpstream(u, ""))), t.upstream[5]) == u.routeId
    ensures ValueOr(Parse(KeyOf(t, ForUpstream(u, ""))), t.upstream[8]) == u.statusClass
  {
    var vals := Values(ForUpstream(u, ""));
    CleanValueRead(t.upstream, vals, 5);
    CleanValueRead(t.upstream, vals, 8);
  }

  lemma {:induction false} ReadRendered(u: UpstreamLabels)
    requires CleanLabels(u)
    ensures ReadKey(Rendered(ForUpstream(u, ""))) == Facts(u.routeId, u.statusClass)
  {
    StandardIsGood();
    ReadTable(STANDARD, u);
  }

  /** What a label says under a name. */
  function FieldOf(l: Label, name: string): string {
    match l
    case ForGateway(g) => GatewayField(g, name)
    case ForPlugin(p) => PluginField(p, name)
    case ForUpstream(u, phase) => UpstreamField(u, phase, name)
  }

  function GatewayField(g: GatewayLabels, name: string): string {
    match name
    case "handler" => g.handler
    case "method" => g.verb
    case "route_id" => g.routeId
    case "status_class" => g.statusClass
    case _ => ""
  }

  function PluginField(p: PluginLabels, name: string): string {
    match name
    case "phase" => p.phase
    case "plugin" => p.plugin
    case "result" => p.result
    case "route_id" => p.routeId
    case "scope" => p.scope
    case "service_id" => p.serviceId
    case "upstream_id" => p.upstreamId
    case _ => ""
  }

  function UpstreamField(u: UpstreamLabels, phase: string, name: string): string {
    match name
    case "endpoint" => u.endpoint
    case "error_type" => u.errorType
    case "method" => u.verb
    case "phase" => phase
    case "reused_conn" => if u.reusedConn then "true" else "false"
    case "route_id" => u.routeId
    case "scheme" => u.scheme
    case "service_id" => u.serviceId
    case "status_class" => u.statusClass
    case "upstream_id" => u.upstreamId
    case _ => ""
  }

  lemma {:induction false} ValuesByName(l: Label, i: nat)
    requires i < |Names(STANDARD, l)|
    ensures |Values(l)| == |Names(STANDARD, l)| && Values(l)[i] == FieldOf(l, Names(STANDARD, l)[i])
  {
    match l
    case ForGateway(g) => GatewayByName(g, i);
    case ForPlugin(p) => PluginByName(p, i);
    case ForUpstream(u, phase) => UpstreamByName(u, phase, i);
  }

  lemma {:induction false} GatewayByName(g: GatewayLabels, i: nat)
    requires i < |STANDARD.gateway|
    ensures |Values(ForGateway(g))| == |STANDARD.gateway|
    ensures Values(ForGateway(g))[i] == GatewayField(g, STANDARD.gateway[i])
  {
  }

  lemma {:induction false} PluginByName(p: PluginLabels, i: nat)
    requires i < |STANDARD.plugin|
    ensures |Values(ForPlugin(p))| == |STANDARD.plugin|
    ensures Values(ForPlugin(p))[i] == PluginField(p, STANDARD.plugin[i])
  {
  }

  lemma {:induction false} UpstreamByName(u: UpstreamLabels, phase: string, i: nat)
    requires i < |STANDARD.upstream|
    ensures |Values(ForUpstream(u, phase))| == |STANDARD.upstream|
    ensures Values(ForUpstream(u, phase))[i] == UpstreamField(u, phase, STANDARD.upstream[i])
  {
  }

  /** Parsing a rendered key gives back every label under its own name, if the values are clean. */
  lemma {:induction false} LabelsReadBack(l: Label, i: nat)
    requires i < |Names(STANDARD, l)| && forall j :: 0 <= j < |Values(l)| ==> Clean(Values(l)[j])
    ensures ValueOr(Parse(Rendered(l)), Names(STANDARD, l)[i]) == FieldOf(l, Names(STANDARD, l)[i])
  {
    StandardIsGood();
    ValuesByName(l, i);
    ReadAt(STANDARD, l, i);
  }

  lemma {:induction false} ReadAt(t: NameTable, l: Label, i: nat)
    requires GoodTable(t) && i < |Names(t, l)| && forall j :: 0 <= j < |Values(l)| ==> Clean(Values(l)[j])
    ensures i < |Values(l)| && ValueOr(Parse(KeyOf(t, l)), Names(t, l)[i]) == Values(l)[i]
  {
    CleanValueRead(Names(t, l), Values(l), i);
  }

  /** Upstream calls of the log that the figure counts, by their labels. */
  function CallsCounted(log: Log, fig: Figure): nat {
    match log
    case Start => 0
    case Then(before, c) =>
      CallsCounted(before, fig) +
      if c.on.ForUpstream? && Hits(fig, Facts(c.on.u.routeId, c.on.u.statusClass)) then 1 else 0
  }

  /** The keys that the upstream counters have counted. */
  function UpstreamKeys(log: Log): seq<string> {
    match log
    case Start => []
    case Then(before, c) => UpstreamKeys(before) + if c.on.ForUpstream? then [c.key] else []
  }

  lemma {:induction false} UpstreamCounters(log: Log)
    ensures CountersOf(log, Upstream) == Counters(UpstreamKeys(log))
  {
    if log.Then? {
      UpstreamCounters(log.before);
      var keys, k := UpstreamKeys(log.before), log.call.key;
      assert (keys + [k])[..|keys|] == keys && keys + [] == keys;
    }
  }

  /** What reading its key has to give for an upstream call. */
  predicate ReadsTrue(read: string -> Facts, log: Log) {
    match log
    case Start => true
    case Then(before, c) =>
      ReadsTrue(read, before) && (c.on.ForUpstream? ==> read(c.key) == Facts(c.on.u.routeId, c.on.u.statusClass))
  }

  lemma {:induction false} HitsSnoc(keys: seq<string>, k: string, read: string -> Facts, fig: Figure)
    ensures HitsIn(keys + [k], read, fig) == HitsIn(keys, read, fig) + if Hits(fig, read(k)) then 1 else 0
  {
    assert (keys + [k])[..|keys|] == keys;
  }

  lemma {:induction false} HitsAreCalls(log: Log, read: string -> Facts, fig: Figure)
    requires ReadsTrue(read, log)
    ensures HitsIn(UpstreamKeys(log), read, fig) == CallsCounted(log, fig)
  {
    if log.Then? {
      HitsAreCalls(log.before, read, fig);
      var keys := UpstreamKeys(log.before);
      if log.call.on.ForUpstream? {
        HitsSnoc(keys, log.call.key, read, fig);
      } else {
        assert UpstreamKeys(log) == keys;
      }
    }
  }

  /** The upstream labels of every call are clean. */
  predicate CleanLog(log: Log) {
    log.Then? ==> CleanLog(log.before) && (log.call.on.ForUpstream? ==> CleanLabels(log.call.on.u))
  }

  lemma {:induction false} CleanLogReadsTrue(log: Log)
    requires KeyedLog(Rendered, log) && CleanLog(log)
    ensures ReadsTrue(ReadKey, log)
  {
    if log.Then? {
      CleanLogReadsTrue(log.before);
      if log.call.on.ForUpstream? { ReadRendered(log.call.on.u); }
    }
  }

  /** Every figure equals the count over the log, by route and by status class. */
  ghost predicate StatsExact(s: Stats, log: Log) {
    && s.total == CallsCounted(log, Requests)
    && s.errors4xx == CallsCounted(log, ClientErrors) && s.errors5xx == CallsCounted(log, ServerErrors)
    && "" !in s.routes
    && (forall id :: id != "" ==> Count(s.routes, id) == CallsCounted(log, OfRoute(id)))
    && (forall id :: id != "" ==> Count(s.routeErrors, id) == CallsCounted(log, ErrorsOfRoute(id)))
  }

  lemma {:induction false} TrueReadingIsExact(log: Log, s: Stats, read: string -> Facts)
    requires ReadsTrue(read, log) && StatsFor(s, UpstreamKeys(log), read)
    ensures StatsExact(s, log)
  {
    forall fig ensures HitsIn(UpstreamKeys(log), read, fig) == CallsCounted(log, fig) {
      HitsAreCalls(log, read, fig);
    }
  }

  /** For clean label values Stats is exact. */
  lemma {:induction false} StatsAreExact(log: Log, s: Stats)
    requires KeyedLog(Rendered, log) && CleanLog(log) && StatsFor(s, UpstreamKeys(log), ReadKey)
    ensures StatsExact(s, log)
  {
    CleanLogReadsTrue(log);
    TrueReadingIsExact(log, s, ReadKey);
  }

  /** Stats of a recorder: the figures of everything logged since the last reset, exact if the labels
      are clean, and the five busiest routes. */
  method StatsOf(r: MemoryRecorder) returns (s: Stats, top: seq<string>)
    requires r.Valid()
    ensures StatsFor(s, UpstreamKeys(r.log), ReadKey)
    ensures CleanLog(r.log) ==> StatsExact(s, r.log)
    ensures Ranked(top, s.routes) && |top| == if |s.routes| < 5 then |s.routes| else 5
    ensures forall id, i :: id in s.routes && id !in top && 0 <= i < |top| ==> s.routes[id] <= s.routes[top[i]]
  {
    UpstreamCounters(r.log);
    s := Summarize(r.upstreamRequests, ReadKey, UpstreamKeys(r.log));
    if CleanLog(r.log) { StatsAreExact(r.log, s); }
    top := TopRoutes(s.routes);
  }
}
