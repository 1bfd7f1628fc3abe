/**
 The values of internal/router/router.go: compiled paths, packed scores, what the full scan of
 the routes promises, and the entries of the pre-sorted table that can replace it.
 */
module RouteTable {
  import opened Config
  import opened Text

  /** Go's regexp package, as an arbitrary pair of predicates. */
  datatype Engine = Engine(compiles: string -> bool, matches: (string, string) -> bool)

  datatype PathKind = PathPrefix | PathExact | PathRegex

  /** `target` is the exact text, the prefix or the regex, by kind. */
  datatype CompiledPath = CompiledPath(kind: PathKind, target: string, specificity: nat)

  datatype CompiledRoute = CompiledRoute(route: RouteOptions, paths: seq<CompiledPath>)

  datatype FastRoute = FastRoute(
    path: string, verb: string, score: int, routeIndex: nat, order: nat, kind: PathKind)

  // ---------------------------------------------------------------- compiling

  function CompileRegex(pattern: string, expr: string, engine: Engine): Option<CompiledPath> {
    if expr == "" || !engine.compiles(pattern) then None
    else Some(CompiledPath(PathRegex, pattern, |expr|))
  }

  /** compilePath; None stands for its errors.  Its cases for "= " and "~ " give what the cases
      for "=" and "~" give, because the rest is trimmed. */
  function CompilePath(text: string, engine: Engine): (r: Option<CompiledPath>)
    ensures r.Some? && !r.value.kind.PathRegex? ==> r.value.specificity == |r.value.target|
    ensures r.Some? && r.value.kind.PathRegex? ==> r.value.specificity > 0
  {
    var raw := TrimSpace(text);
    if raw == "" then None
    else if raw[0] == '=' then
      var target := TrimSpace(raw[1..]);
      Some(CompiledPath(PathExact, target, |target|))
    else if raw[0] == '~' && |raw| > 1 && raw[1] == '*' then
      var expr := TrimSpace(raw[2..]);
      CompileRegex("(?i)" + expr, expr, engine)
    else if raw[0] == '~' then
      var expr := TrimSpace(raw[1..]);
      CompileRegex(expr, expr, engine)
    else if raw[|raw| - 1] == '*' then
      Some(CompiledPath(PathPrefix, raw[..|raw| - 1], |raw| - 1))
    else
      Some(CompiledPath(PathPrefix, raw, |raw|))
  }

  function CompilePaths(texts: seq<string>, engine: Engine): (r: Option<seq<CompiledPath>>)
    ensures r.Some? ==> |r.value| == |texts|
    ensures r.Some? ==> forall k :: 0 <= k < |texts| ==> CompilePath(texts[k], engine) == Some(r.value[k])
  {
    if texts == [] then Some([])
    else
      var front := CompilePaths(texts[..|texts| - 1], engine);
      var last := CompilePath(texts[|texts| - 1], engine);
      if front.None? || last.None? then None else Some(front.value + [last.value])
  }

  function CompileRoute(route: RouteOptions, engine: Engine): Option<CompiledRoute> {
    if route.id == "" || route.paths == [] then None
    else
      var paths := CompilePaths(route.paths, engine);
      if paths.None? then None else Some(CompiledRoute(route, paths.value))
  }

  // ---------------------------------------------------------------- scores

  const TWO63: int := 0x8000_0000_0000_0000

  /** Go's int is 64 bits wide and wraps. */
  function Wrap(x: int): int {
    if -TWO63 <= x < TWO63 then x else (x + TWO63) % (2 * TWO63) - TWO63
  }

  function PathScore(p: CompiledPath): nat {
    match p.kind
    case PathExact => 300_000 + p.specificity
    case PathRegex => 200_000 + p.specificity
    case PathPrefix => 100_000 + p.specificity
  }

  function Packed(priority: int, pathScore: nat): int {
    Wrap(Wrap(priority * 1_000_000) + pathScore)
  }

  predicate Int64(x: int) {
    -TWO63 <= x < TWO63
  }

  /** The score as an unbounded integer. */
  function ExactScore(priority: int, pathScore: nat): int {
    priority * 1_000_000 + pathScore
  }

  /** No score of the route wraps. */
  predicate Unwrapped(r: CompiledRoute) {
    forall k :: 0 <= k < |r.paths| ==> Int64(ExactScore(r.route.priority, PathScore(r.paths[k])))
  }

  /** No two scores of the table differ by more than 64 bits hold. */
  predicate DifferencesFit(routes: seq<CompiledRoute>) {
    forall i, j, k, l :: 0 <= i < |routes| && 0 <= j < |routes| &&
                         0 <= k < |routes[i].paths| && 0 <= l < |routes[j].paths| ==>
      Int64(ExactScore(routes[i].route.priority, PathScore(routes[i].paths[k])) -
            ExactScore(routes[j].route.priority, PathScore(routes[j].paths[l])))
  }

  predicate ScoresFit(routes: seq<CompiledRoute>) {
    (forall i :: 0 <= i < |routes| ==> Unwrapped(routes[i])) && DifferencesFit(routes)
  }

  lemma {:induction false} WrapIsInt64(x: int)
    ensures Int64(Wrap(x)) && exists k: int :: Wrap(x) == x + k * (2 * TWO63)
  {
    if Int64(x) {
      assert Wrap(x) == x + 0 * (2 * TWO63);
    } else {
      var k := -((x + TWO63) / (2 * TWO63));
      assert Wrap(x) == x + k * (2 * TWO63);
    }
  }

  /** A packed score is the exact one precisely if that fits 64 bits, although it wraps twice on the
      way. */
  lemma {:induction false} PackedExactIff(priority: int, pathScore: nat)
    ensures Packed(priority, pathScore) == ExactScore(priority, pathScore) <==> Int64(ExactScore(priority, pathScore))
  {
    var x := priority * 1_000_000;
    WrapIsInt64(x);
    WrapIsInt64(Wrap(x) + pathScore);
    var k: int :| Wrap(x) == x + k * (2 * TWO63);
    var l: int :| Wrap(Wrap(x) + pathScore) == Wrap(x) + pathScore + l * (2 * TWO63);
    assert Packed(priority, pathScore) == ExactScore(priority, pathScore) + (k + l) * (2 * TWO63);
  }

  // ---------------------------------------------------------------- the full scan

  predicate PathMatches(p: CompiledPath, path: string, engine: Engine) {
    match p.kind
    case PathExact => path == p.target
    case PathRegex => engine.matches(p.target, path)
    case PathPrefix => HasPrefix(path, p.target)
  }

  predicate MethodMatches(methods: seq<string>, verb: string) {
    methods == [] || exists k :: 0 <= k < |methods| && EqualFold(methods[k], verb)
  }

  predicate HostPatternMatches(h: string, host: string) {
    || EqualFold(h, host)
    || (HasPrefix(h, "*.") &&
        var suffix := h[2..];
        suffix != "" && |host| > |suffix| && host[|host| - |suffix| - 1] == '.' &&
        EqualFold(host[|host| - |suffix|..], suffix))
    || (HasSuffix(h, ".*") &&
        var prefix := h[..|h| - 2];
        prefix != "" && |host| > |prefix| && host[|prefix|] == '.' && EqualFold(host[..|prefix|], prefix))
  }

  predicate HostMatches(hosts: seq<string>, host: string) {
    hosts == [] || exists k :: 0 <= k < |hosts| && HostPatternMatches(hosts[k], host)
  }

  /** The best score among the first n paths, 0 when none of them matches. */
  function BestPathUpTo(paths: seq<CompiledPath>, n: nat, path: string, engine: Engine): nat
    requires n <= |paths|
  {
    if n == 0 then 0
    else
      var best := BestPathUpTo(paths, n - 1, path, engine);
      if PathMatches(paths[n - 1], path, engine) && PathScore(paths[n - 1]) > best
      then PathScore(paths[n - 1]) else best
  }

  datatype Request = Request(verb: string, host: string, path: string)

  function BestPath(r: CompiledRoute, path: string, engine: Engine): nat {
    BestPathUpTo(r.paths, |r.paths|, path, engine)
  }

  predicate RouteMatches(r: CompiledRoute, q: Request, engine: Engine) {
    MethodMatches(r.route.methods, q.verb) && HostMatches(r.route.hosts, q.host) && BestPath(r, q.path, engine) != 0
  }

  function RouteScore(r: CompiledRoute, q: Request, engine: Engine): int {
    Packed(r.route.priority, BestPath(r, q.path, engine))
  }

  /** What Match promises: of the matching routes the one with the highest score, and of those
      with the highest score the one added first. */
  predicate IsBest(routes: seq<CompiledRoute>, q: Request, engine: Engine, i: nat) {
    && i < |routes| && RouteMatches(routes[i], q, engine)
    && forall j :: 0 <= j < |routes| && RouteMatches(routes[j], q, engine) ==>
         RouteScore(routes[j], q, engine) <= RouteScore(routes[i], q, engine) &&
         (j < i ==> RouteScore(routes[j], q, engine) < RouteScore(routes[i], q, engine))
  }

  predicate NoneMatches(routes: seq<CompiledRoute>, q: Request, engine: Engine) {
    forall j :: 0 <= j < |routes| ==> !RouteMatches(routes[j], q, engine)
  }

  lemma {:induction false} BestIsUnique(routes: seq<CompiledRoute>, q: Request, engine: Engine, i: nat, j: nat)
    requires IsBest(routes, q, engine, i) && IsBest(routes, q, engine, j)
    ensures i == j
  {
  }

  /** The best path is a matching path, and no matching path is better. */
  lemma {:induction false} BestPathIsMax(paths: seq<CompiledPath>, n: nat, path: string, engine: Engine)
    requires n <= |paths|
    ensures var best := BestPathUpTo(paths, n, path, engine);
            && (forall k :: 0 <= k < n && PathMatches(paths[k], path, engine) ==> PathScore(paths[k]) <= best)
            && (best != 0 ==>
                  exists k :: 0 <= k < n && PathMatches(paths[k], path, engine) && PathScore(paths[k]) == best)
  {
    if n > 0 {
      BestPathIsMax(paths, n - 1, path, engine);
    }
  }

  // ---------------------------------------------------------------- the fast table

  /** No route has hosts or a regex path. */
  predicate PlainRoute(r: CompiledRoute) {
    r.route.hosts == [] && forall k :: 0 <= k < |r.paths| ==> !r.paths[k].kind.PathRegex?
  }

  predicate FastEligible(routes: seq<CompiledRoute>) {
    forall i :: 0 <= i < |routes| ==> PlainRoute(routes[i])
  }

  function Entry(r: CompiledRoute, i: nat, p: CompiledPath, verb: string, order: nat): FastRoute {
    FastRoute(p.target, verb, Packed(r.route.priority, PathScore(p)), i, order, p.kind)
  }

  /** The entries of one path for the first m methods, the first of them at position `base`. */
  function MethodEntries(r: CompiledRoute, i: nat, p: CompiledPath, m: nat, base: nat): (es: seq<FastRoute>)
    requires m <= |r.route.methods|
    ensures |es| == m
  {
    if m == 0 then []
    else MethodEntries(r, i, p, m - 1, base) + [Entry(r, i, p, Upper(r.route.methods[m - 1]), base + m - 1)]
  }

  function PathEntries(r: CompiledRoute, i: nat, p: CompiledPath, base: nat): seq<FastRoute> {
    if r.route.methods == [] then [Entry(r, i, p, "", base)]
    else MethodEntries(r, i, p, |r.route.methods|, base)
  }

  function RouteEntries(r: CompiledRoute, i: nat, n: nat, base: nat): seq<FastRoute>
    requires n <= |r.paths|
  {
    if n == 0 then []
    else
      var front := RouteEntries(r, i, n - 1, base);
      front + PathEntries(r, i, r.paths[n - 1], base + |front|)
  }

  /** The fast table before sorting, for the first n routes. */
  function EntriesUpTo(routes: seq<CompiledRoute>, n: nat): seq<FastRoute>
    requires n <= |routes|
  {
    if n == 0 then []
    else
      var front := EntriesUpTo(routes, n - 1);
      front + RouteEntries(routes[n - 1], n - 1, |routes[n - 1].paths|, |front|)
  }

  /** The comparison function handed to slices.SortStableFunc. */
  function Compare(a: FastRoute, b: FastRoute): int {
    if a.score != b.score then Wrap(b.score - a.score) else a.order - b.order
  }

  function Insert(sorted: seq<FastRoute>, e: FastRoute): seq<FastRoute> {
    if sorted != [] && Compare(e, sorted[|sorted| - 1]) < 0
    then Insert(sorted[..|sorted| - 1], e) + [sorted[|sorted| - 1]]
    else sorted + [e]
  }

  function Sort(es: seq<FastRoute>): seq<FastRoute> {
    if es == [] then [] else Insert(Sort(es[..|es| - 1]), es[|es| - 1])
  }

  predicate EntryMatches(e: FastRoute, verb: string, path: string) {
    && (e.verb == "" || e.verb == verb)
    && match e.kind
       case PathExact => path == e.path
       case PathPrefix => HasPrefix(path, e.path)
       case PathRegex => false
  }
}
