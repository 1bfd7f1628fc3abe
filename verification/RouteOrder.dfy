/**
 What the packed score means: priority first, then the kind of path, then its length; when the
 winner depends on the order of Add; and where the fast table parts from the scan.
 */
module RouteOrder {
  import opened Config
  import opened Text
  import opened RouteTable
  import opened FastTable

  datatype Key = Key(priority: int, kind: PathKind, length: nat)

  function Strength(kind: PathKind): nat {
    match kind
    case PathExact => 3
    case PathRegex => 2
    case PathPrefix => 1
  }

  predicate LexGreater(a: Key, b: Key) {
    || a.priority > b.priority
    || (a.priority == b.priority && Strength(a.kind) > Strength(b.kind))
    || (a.priority == b.priority && a.kind == b.kind && a.length > b.length)
  }

  function Score(k: Key): int {
    k.priority * 1_000_000 + PathScore(CompiledPath(k.kind, "", k.length))
  }

  /** Comparing scores is comparing lexicographically, for all patterns shorter than `limit`. */
  ghost predicate PackingAgrees(limit: nat) {
    forall a: Key, b: Key :: a.length < limit && b.length < limit ==> (Score(a) > Score(b) <==> LexGreater(a, b))
  }

  lemma {:induction false} ShortKeysAgree(a: Key, b: Key)
    requires a.length < 100_000 && b.length < 100_000
    ensures Score(a) > Score(b) <==> LexGreater(a, b)
    ensures Score(a) == Score(b) <==> a == b
  {
    if a.priority > b.priority {
      assert a.priority * 1_000_000 >= (b.priority + 1) * 1_000_000;
    } else if a.priority < b.priority {
      assert b.priority * 1_000_000 >= (a.priority + 1) * 1_000_000;
    }
  }

  /** The packing is lexicographic exactly up to 100 000 bytes: an empty exact pattern ties with
      a regex of 100 000 bytes. */
  lemma {:induction false} PackingLimit(limit: nat)
    ensures PackingAgrees(limit) <==> limit <= 100_000
  {
    if limit <= 100_000 {
      forall a: Key, b: Key | a.length < limit && b.length < limit
        ensures Score(a) > Score(b) <==> LexGreater(a, b)
      {
        ShortKeysAgree(a, b);
      }
    } else {
      var exact, regex := Key(0, PathExact, 0), Key(0, PathRegex, 100_000);
      assert LexGreater(exact, regex) && !(Score(exact) > Score(regex));
    }
  }

  /** Past that length even a lower priority can win: an exact pattern of 1 000 000 bytes beats a
      prefix of one byte with a higher priority. */
  lemma {:induction false} LongPatternBeatsPriority()
    ensures Score(Key(0, PathExact, 1_000_000)) > Score(Key(1, PathPrefix, 1))
    ensures LexGreater(Key(1, PathPrefix, 1), Key(0, PathExact, 1_000_000))
  {
    assert Score(Key(0, PathExact, 1_000_000)) == 1_300_000;
    assert Score(Key(1, PathPrefix, 1)) == 1_100_001;
  }

  // ---------------------------------------------------------------- the winner

  predicate ShortRoute(r: CompiledRoute) {
    Unwrapped(r) && forall k :: 0 <= k < |r.paths| ==> r.paths[k].specificity < 100_000
  }

  predicate ShortRoutes(routes: seq<CompiledRoute>) {
    forall i :: 0 <= i < |routes| ==> ShortRoute(routes[i])
  }

  function PathKey(r: CompiledRoute, k: nat): Key
    requires k < |r.paths|
  {
    Key(r.route.priority, r.paths[k].kind, r.paths[k].specificity)
  }

  /** Path k of route r answers the request with the route's own score. */
  predicate Answers(r: CompiledRoute, k: nat, q: Request, engine: Engine) {
    k < |r.paths| && PathMatches(r.paths[k], q.path, engine) && PathScore(r.paths[k]) == BestPath(r, q.path, engine)
  }

  lemma {:induction false} RouteScoreIsKeyScore(r: CompiledRoute, q: Request, engine: Engine) returns (k: nat)
    requires ShortRoute(r) && BestPath(r, q.path, engine) != 0
    ensures Answers(r, k, q, engine)
    ensures RouteScore(r, q, engine) == Score(PathKey(r, k))
  {
    BestPathIsMax(r.paths, |r.paths|, q.path, engine);
    k :| 0 <= k < |r.paths| && PathMatches(r.paths[k], q.path, engine) &&
         PathScore(r.paths[k]) == BestPath(r, q.path, engine);
    PackedExactIff(r.route.priority, BestPath(r, q.path, engine));
  }

  /** The winner is lexicographically greatest: no path of any matching route that matches the
      request has a greater (priority, kind, length) than the path the winner answers with. */
  lemma {:induction false} WinnerIsLexGreatest(routes: seq<CompiledRoute>, q: Request, engine: Engine, i: nat)
    requires ShortRoutes(routes) && IsBest(routes, q, engine, i)
    ensures exists k: nat :: Answers(routes[i], k, q, engine) &&
              forall j: nat, l: nat :: (j < |routes| && l < |routes[j].paths| && RouteMatches(routes[j], q, engine) &&
                                        PathMatches(routes[j].paths[l], q.path, engine)) ==>
                !LexGreater(PathKey(routes[j], l), PathKey(routes[i], k))
  {
    var k := RouteScoreIsKeyScore(routes[i], q, engine);
    forall j: nat, l: nat | j < |routes| && l < |routes[j].paths| && RouteMatches(routes[j], q, engine) &&
                            PathMatches(routes[j].paths[l], q.path, engine)
      ensures !LexGreater(PathKey(routes[j], l), PathKey(routes[i], k))
    {
      var b := RouteScoreIsKeyScore(routes[j], q, engine);
      BestPathIsMax(routes[j].paths, |routes[j].paths|, q.path, engine);
      assert Score(PathKey(routes[j], l)) <= Score(PathKey(routes[j], b));
      ShortKeysAgree(PathKey(routes[j], l), PathKey(routes[i], k));
    }
  }

  /** Every order of the same routes has the same winner. */
  ghost predicate WinnerIgnoresOrder(routes: seq<CompiledRoute>, q: Request, engine: Engine, i: nat)
    requires i < |routes|
  {
    forall other: seq<CompiledRoute>, j: nat ::
      multiset(other) == multiset(routes) && IsBest(other, q, engine, j) ==> other[j] == routes[i]
  }

  /** Whatever ties with the winner is the same route. */
  predicate TopIsUnique(routes: seq<CompiledRoute>, q: Request, engine: Engine, i: nat)
    requires i < |routes|
  {
    forall k :: (0 <= k < |routes| && RouteMatches(routes[k], q, engine) &&
                 RouteScore(routes[k], q, engine) == RouteScore(routes[i], q, engine)) ==> routes[k] == routes[i]
  }

  lemma {:induction false} UniqueTopWins(routes: seq<CompiledRoute>, other: seq<CompiledRoute>, q: Request,
                                         engine: Engine, i: nat, j: nat)
    requires multiset(other) == multiset(routes) && IsBest(routes, q, engine, i) && IsBest(other, q, engine, j)
    requires TopIsUnique(routes, q, engine, i)
    ensures other[j] == routes[i]
  {
    assert other[j] in multiset(routes) && routes[i] in multiset(other);
    var k :| 0 <= k < |routes| && routes[k] == other[j];
    var l :| 0 <= l < |other| && other[l] == routes[i];
    assert RouteScore(other[l], q, engine) <= RouteScore(other[j], q, engine);
  }

  /** Where another route ties with the winner, exchanging the two makes it win. */
  lemma {:induction false} TieDependsOnOrder(routes: seq<CompiledRoute>, q: Request, engine: Engine, i: nat, k: nat)
    requires IsBest(routes, q, engine, i) && k < |routes| && RouteMatches(routes[k], q, engine)
    requires RouteScore(routes[k], q, engine) == RouteScore(routes[i], q, engine) && routes[k] != routes[i]
    ensures !WinnerIgnoresOrder(routes, q, engine, i)
  {
    var other := Exchanged(routes, i, k);
    ExchangedBest(routes, q, engine, i, k);
    assert other[i] == routes[k];
  }

  function Exchanged(s: seq<CompiledRoute>, i: nat, k: nat): (r: seq<CompiledRoute>)
    requires i < |s| && k < |s|
    ensures |r| == |s| && multiset(r) == multiset(s)
    ensures forall j :: 0 <= j < |s| ==> r[j] == if j == i then s[k] else if j == k then s[i] else s[j]
  {
    s[i := s[k]][k := s[i]]
  }

  lemma {:induction false} ExchangedBest(routes: seq<CompiledRoute>, q: Request, engine: Engine, i: nat, k: nat)
    requires IsBest(routes, q, engine, i) && k < |routes| && RouteMatches(routes[k], q, engine)
    requires RouteScore(routes[k], q, engine) == RouteScore(routes[i], q, engine)
    ensures i <= k && IsBest(Exchanged(routes, i, k), q, engine, i)
  {
  }

  /** The winner is the same for every order of Add if and only if no different route ties with it. */
  lemma {:induction false} WinnerIgnoresAddOrderIff(routes: seq<CompiledRoute>, q: Request, engine: Engine, i: nat)
    requires IsBest(routes, q, engine, i)
    ensures WinnerIgnoresOrder(routes, q, engine, i) <==> TopIsUnique(routes, q, engine, i)
  {
    if TopIsUnique(routes, q, engine, i) {
      forall other: seq<CompiledRoute>, j: nat | multiset(other) == multiset(routes) && IsBest(other, q, engine, j)
        ensures other[j] == routes[i]
      {
        UniqueTopWins(routes, other, q, engine, i, j);
      }
    } else {
      var k :| 0 <= k < |routes| && RouteMatches(routes[k], q, engine) &&
               RouteScore(routes[k], q, engine) == RouteScore(routes[i], q, engine) && routes[k] != routes[i];
      TieDependsOnOrder(routes, q, engine, i, k);
    }
  }

  /** In a table without regex paths a tie means that two routes of equal priority answer with the
      identical pattern. */
  lemma {:induction false} TieIsSamePattern(r1: CompiledRoute, r2: CompiledRoute, q: Request, engine: Engine)
    requires ShortRoute(r1) && ShortRoute(r2) && PlainRoute(r1) && PlainRoute(r2)
    requires forall k :: 0 <= k < |r1.paths| ==> r1.paths[k].specificity == |r1.paths[k].target|
    requires forall k :: 0 <= k < |r2.paths| ==> r2.paths[k].specificity == |r2.paths[k].target|
    requires RouteMatches(r1, q, engine) && RouteMatches(r2, q, engine)
    requires RouteScore(r1, q, engine) == RouteScore(r2, q, engine)
    ensures r1.route.priority == r2.route.priority
    ensures exists k: nat, l: nat ::
              Answers(r1, k, q, engine) && Answers(r2, l, q, engine) && r1.paths[k] == r2.paths[l]
  {
    var k := RouteScoreIsKeyScore(r1, q, engine);
    var l := RouteScoreIsKeyScore(r2, q, engine);
    ShortKeysAgree(PathKey(r1, k), PathKey(r2, l));
    assert r1.paths[k].target == q.path[..|r1.paths[k].target|];
    assert r2.paths[l].target == q.path[..|r2.paths[l].target|];
  }

  // ---------------------------------------------------------------- where fast and scan part

  /** The fast table answers the request with route i. */
  ghost predicate FastFinds(routes: seq<CompiledRoute>, q: Request, i: nat) {
    var t := Sort(EntriesUpTo(routes, |routes|));
    exists at: nat :: at < |t| && t[at].routeIndex == i && EntryMatches(t[at], q.verb, q.path) &&
                      forall y :: 0 <= y < at ==> !EntryMatches(t[y], q.verb, q.path)
  }

  /** The fast table and the scan give the same answer to the request. */
  ghost predicate AgreeAt(routes: seq<CompiledRoute>, q: Request, engine: Engine) {
    forall i: nat :: FastFinds(routes, q, i) <==> IsBest(routes, q, engine, i)
  }

  lemma {:induction false} FirstMatch(t: seq<FastRoute>, q: Request, n: nat) returns (found: bool, at: nat)
    requires n <= |t|
    ensures found ==> at < n && EntryMatches(t[at], q.verb, q.path)
    ensures found ==> forall y :: 0 <= y < at ==> !EntryMatches(t[y], q.verb, q.path)
    ensures !found ==> forall y :: 0 <= y < n ==> !EntryMatches(t[y], q.verb, q.path)
  {
    if n == 0 { return false, 0; }
    found, at := FirstMatch(t, q, n - 1);
    if !found && EntryMatches(t[n - 1], q.verb, q.path) { return true, n - 1; }
  }

  /** On every plain table whose scores fit, the fast table answers with the best route of the
      widened table. */
  lemma {:induction false} FastFindsWidened(routes: seq<CompiledRoute>, q: Request, engine: Engine, i: nat)
    requires Comparable(routes) && Folded(q)
    ensures FastFinds(routes, q, i) <==> IsBest(Widened(routes), q, engine, i)
  {
    var t := Sort(EntriesUpTo(routes, |routes|));
    var found, at := FirstMatch(t, q, |t|);
    if found {
      FirstMatchIsBest(routes, q, engine, at);
      if IsBest(Widened(routes), q, engine, i) { BestIsUnique(Widened(routes), q, engine, i, t[at].routeIndex); }
      if FastFinds(routes, q, i) {
        var b: nat :| b < |t| && t[b].routeIndex == i && EntryMatches(t[b], q.verb, q.path) &&
                      forall y :: 0 <= y < b ==> !EntryMatches(t[y], q.verb, q.path);
        assert b == at;
      }
    } else {
      NoEntryMeansNoRoute(routes, q, engine);
    }
  }

  /** Route i intrudes on the request: it lists an empty name, which the scan does not take for the
      request's method, its path matches, and no route that the scan finds stands before it. */
  ghost predicate Intrudes(routes: seq<CompiledRoute>, q: Request, engine: Engine, i: nat) {
    && i < |routes| && !NamedMethods(routes[i]) && !MethodMatches(routes[i].route.methods, q.verb)
    && BestPath(routes[i], q.path, engine) != 0
    && forall j :: 0 <= j < |routes| && RouteMatches(routes[j], q, engine) ==>
         RouteScore(routes[j], q, engine) < RouteScore(routes[i], q, engine) ||
         (RouteScore(routes[j], q, engine) == RouteScore(routes[i], q, engine) && i < j)
  }

  lemma {:induction false} WidenMatches(r: CompiledRoute, q: Request, engine: Engine)
    requires PlainRoute(r)
    ensures RouteMatches(Widen(r), q, engine) <==>
            RouteMatches(r, q, engine) ||
            (!NamedMethods(r) && !MethodMatches(r.route.methods, q.verb) && BestPath(r, q.path, engine) != 0)
  {
    WidenKeepsScore(r, q, engine);
  }

  /** The best of some routes, if any matches. */
  lemma {:induction false} BestExists(routes: seq<CompiledRoute>, q: Request, engine: Engine, n: nat)
    returns (found: bool, i: nat)
    requires n <= |routes|
    ensures found ==> i < n && IsBest(routes[..n], q, engine, i)
    ensures !found ==> NoneMatches(routes[..n], q, engine)
  {
    if n == 0 { return false, 0; }
    found, i := BestExists(routes, q, engine, n - 1);
    assert routes[..n] == routes[..n - 1] + [routes[n - 1]];
    if RouteMatches(routes[n - 1], q, engine) &&
       (!found || RouteScore(routes[n - 1], q, engine) > RouteScore(routes[i], q, engine)) {
      return true, n - 1;
    }
  }

  /** An intruder keeps the answers apart: it beats every route of the scan. */
  lemma {:induction false} IntruderParts(routes: seq<CompiledRoute>, q: Request, engine: Engine, x: nat)
    requires Comparable(routes) && Folded(q) && Intrudes(routes, q, engine, x)
    ensures !AgreeAt(routes, q, engine)
  {
    var ws := Widened(routes);
    WidenMatches(routes[x], q, engine);
    var found, i := BestExists(ws, q, engine, |ws|);
    assert ws[..|ws|] == ws;
    assert RouteMatches(ws[x], q, engine);
    FastFindsWidened(routes, q, engine, i);
    WidenKeepsScore(routes[x], q, engine);
    WidenKeepsScore(routes[i], q, engine);
    assert !IsBest(routes, q, engine, i);
  }

  /** Without an intruder a route of the scan wins in the widened table as well. */
  lemma {:induction false} NoIntruderAgrees(routes: seq<CompiledRoute>, q: Request, engine: Engine, i: nat)
    requires Comparable(routes) && Folded(q) && forall x: nat :: !Intrudes(routes, q, engine, x)
    ensures IsBest(Widened(routes), q, engine, i) ==> RouteMatches(routes[i], q, engine) && IsBest(routes, q, engine, i)
  {
    var ws := Widened(routes);
    if IsBest(ws, q, engine, i) {
      forall j | 0 <= j < |routes|
        ensures RouteScore(ws[j], q, engine) == RouteScore(routes[j], q, engine)
        ensures RouteMatches(routes[j], q, engine) ==> RouteMatches(ws[j], q, engine)
      {
        WidenKeepsScore(routes[j], q, engine);
        WidenMatches(routes[j], q, engine);
      }
      WidenMatches(routes[i], q, engine);
      assert !Intrudes(routes, q, engine, i);
    }
  }

  /** On a plain table whose scores fit, the fast table and the scan give the same answer to a
      request if and only if no route intrudes on it. */
  lemma {:induction false} AgreeIffNoIntruder(routes: seq<CompiledRoute>, q: Request, engine: Engine)
    requires Comparable(routes) && Folded(q)
    ensures AgreeAt(routes, q, engine) <==> forall x: nat :: !Intrudes(routes, q, engine, x)
  {
    if x: nat :| Intrudes(routes, q, engine, x) {
      IntruderParts(routes, q, engine, x);
    } else {
      forall i: nat ensures FastFinds(routes, q, i) <==> IsBest(routes, q, engine, i) {
        SameBest(routes, q, engine, i);
      }
    }
  }

  lemma {:induction false} SameBest(routes: seq<CompiledRoute>, q: Request, engine: Engine, i: nat)
    requires Comparable(routes) && Folded(q) && forall x: nat :: !Intrudes(routes, q, engine, x)
    ensures FastFinds(routes, q, i) <==> IsBest(routes, q, engine, i)
  {
    var ws := Widened(routes);
    var found, w := BestExists(ws, q, engine, |ws|);
    assert ws[..|ws|] == ws;
    FastFindsWidened(routes, q, engine, i);
    NoIntruderAgrees(routes, q, engine, i);
    if found { NoIntruderAgrees(routes, q, engine, w); }
    if IsBest(routes, q, engine, i) {
      WidenMatches(routes[i], q, engine);
      assert RouteMatches(ws[i], q, engine);
      assert found;
      BestIsUnique(routes, q, engine, i, w);
    }
  }

  /** Without empty method names, on a plain table whose scores fit, the fast table and the scan give
      the same answer to every request. */
  lemma {:induction false} NamedTablesAgree(routes: seq<CompiledRoute>, q: Request, engine: Engine)
    requires Comparable(routes) && Folded(q) && forall i :: 0 <= i < |routes| ==> NamedMethods(routes[i])
    ensures AgreeAt(routes, q, engine)
  {
    NamedIsWidened(routes);
    forall i: nat ensures FastFinds(routes, q, i) <==> IsBest(routes, q, engine, i) {
      FastFindsWidened(routes, q, engine, i);
    }
  }

  function Xs(n: nat): (s: string)
    ensures |s| == n && Upper(s) == s
  {
    if n == 0 then "" else "X" + Xs(n - 1)
  }

  function LongestMethod(methods: seq<string>): (n: nat)
    ensures forall m :: 0 <= m < |methods| ==> |methods[m]| <= n
  {
    if methods == [] then 0
    else
      var n := LongestMethod(methods[1..]);
      assert forall m :: 1 <= m < |methods| ==> methods[m] == methods[1..][m - 1];
      if |methods[0]| > n then |methods[0]| else n
  }

  /** For a table of one route the two agree on every request if and only if the route lists no
      empty method name. */
  lemma {:induction false} OneRouteAgreesIff(r: CompiledRoute, engine: Engine)
    requires Comparable([r]) && r.paths != []
    ensures (forall q: Request :: Folded(q) ==> AgreeAt([r], q, engine)) <==> NamedMethods(r)
  {
    if NamedMethods(r) {
      forall q: Request | Folded(q) ensures AgreeAt([r], q, engine) {
        AgreeIffNoIntruder([r], q, engine);
      }
    } else {
      assert PlainRoute([r][0]);
      var q := EmptyNameIsWildcard(r, engine);
      AgreeIffNoIntruder([r], q, engine);
    }
  }

  /** A method longer than every listed one reaches the route through its empty name only. */
  lemma {:induction false} EmptyNameIsWildcard(r: CompiledRoute, engine: Engine) returns (q: Request)
    requires PlainRoute(r) && r.paths != [] && !NamedMethods(r)
    ensures Folded(q) && Intrudes([r], q, engine, 0)
  {
    var verb := Xs(LongestMethod(r.route.methods) + 1);
    q := Request(verb, "", r.paths[0].target);
    assert forall n :: 0 <= n < |r.route.methods| ==> !EqualFold(r.route.methods[n], verb);
    BestPathIsMax(r.paths, |r.paths|, q.path, engine);
    assert PathMatches(r.paths[0], q.path, engine);
    assert PathScore(r.paths[0]) > 0;
    assert !RouteMatches([r][0], q, engine);
  }

  // ---------------------------------------------------------------- differences that do not fit

  lemma {:induction false} TwoEntries(a: CompiledRoute, b: CompiledRoute)
    requires |a.paths| == 1 && |b.paths| == 1 && a.route.methods == [] && b.route.methods == []
    ensures EntriesUpTo([a, b], 2) == [Entry(a, 0, a.paths[0], "", 0), Entry(b, 1, b.paths[0], "", 1)]
  {
    assert RouteEntries(a, 0, 1, 0) == [Entry(a, 0, a.paths[0], "", 0)];
    assert RouteEntries(b, 1, 1, 1) == [Entry(b, 1, b.paths[0], "", 1)];
    assert EntriesUpTo([a, b], 1) == [Entry(a, 0, a.paths[0], "", 0)];
  }

  lemma {:induction false} SortTwo(a: FastRoute, b: FastRoute)
    ensures Sort([a, b]) == if Compare(b, a) < 0 then [b, a] else [a, b]
  {
    assert [a, b][..1] == [a] && [a][..0] == [];
    assert Sort([a]) == [a] by { assert Sort([]) == []; }
    assert Insert([], b) == [b];
  }

  lemma {:induction false} OnePathScore(r: CompiledRoute, q: Request, engine: Engine)
    requires |r.paths| == 1 && PathMatches(r.paths[0], q.path, engine)
    ensures BestPath(r, q.path, engine) == PathScore(r.paths[0])
  {
    assert BestPathUpTo(r.paths, 0, q.path, engine) == 0;
  }

  /** One path, no methods, and a score that does not wrap. */
  predicate SimpleRoute(r: CompiledRoute) {
    PlainRoute(r) && |r.paths| == 1 && r.route.methods == [] && Unwrapped(r)
  }

  lemma {:induction false} SimpleScore(r: CompiledRoute, i: nat, q: Request, engine: Engine)
    requires SimpleRoute(r) && RouteMatches(r, q, engine)
    ensures var e := Entry(r, i, r.paths[0], "", i);
            e.score == RouteScore(r, q, engine) && Int64(e.score) && EntryMatches(e, q.verb, q.path)
  {
    BestPathIsMax(r.paths, 1, q.path, engine);
    PackedExactIff(r.route.priority, PathScore(r.paths[0]));
  }

  lemma {:induction false} BestOfTwo(a: CompiledRoute, b: CompiledRoute, q: Request, engine: Engine, i: nat)
    requires RouteMatches(a, q, engine) && RouteMatches(b, q, engine)
    requires RouteScore(a, q, engine) != RouteScore(b, q, engine)
    ensures IsBest([a, b], q, engine, i) <==> i == if RouteScore(a, q, engine) > RouteScore(b, q, engine) then 0 else 1
  {
    var routes := [a, b];
    assert RouteMatches(routes[0], q, engine) && RouteMatches(routes[1], q, engine);
  }

  /** The table of two such routes answers with the one its comparison puts first. */
  lemma {:induction false} TwoRoutesFound(a: CompiledRoute, b: CompiledRoute, q: Request, engine: Engine, i: nat)
    requires SimpleRoute(a) && SimpleRoute(b) && RouteMatches(a, q, engine) && RouteMatches(b, q, engine)
    ensures var e0, e1 := Entry(a, 0, a.paths[0], "", 0), Entry(b, 1, b.paths[0], "", 1);
            FastFinds([a, b], q, i) <==> i == if Compare(e1, e0) < 0 then 1 else 0
  {
    var e0, e1 := Entry(a, 0, a.paths[0], "", 0), Entry(b, 1, b.paths[0], "", 1);
    SimpleScore(a, 0, q, engine);
    SimpleScore(b, 1, q, engine);
    TwoEntries(a, b);
    SortTwo(e0, e1);
    FirstIsFound([a, b], q, if Compare(e1, e0) < 0 then 1 else 0);
  }

  /** Two routes without methods, one path each, that both match and whose scores differ without
      wrapping: the table and the scan agree if and only if the difference of the scores, earlier
      route minus later, fits 64 bits. */
  lemma {:induction false} TwoRoutesAgreeIff(a: CompiledRoute, b: CompiledRoute, q: Request, engine: Engine)
    requires SimpleRoute(a) && SimpleRoute(b) && RouteMatches(a, q, engine) && RouteMatches(b, q, engine)
    requires RouteScore(a, q, engine) != RouteScore(b, q, engine)
    ensures AgreeAt([a, b], q, engine) <==> Int64(RouteScore(a, q, engine) - RouteScore(b, q, engine))
  {
    var e0, e1 := Entry(a, 0, a.paths[0], "", 0), Entry(b, 1, b.paths[0], "", 1);
    SimpleScore(a, 0, q, engine);
    SimpleScore(b, 1, q, engine);
    CompareIsRightIff(e1, e0);
    var found := if Compare(e1, e0) < 0 then 1 else 0;
    var best := if e0.score > e1.score then 0 else 1;
    forall i: nat ensures (FastFinds([a, b], q, i) <==> i == found) && (IsBest([a, b], q, engine, i) <==> i == best) {
      TwoRoutesFound(a, b, q, engine, i);
      BestOfTwo(a, b, q, engine, i);
    }
    assert FastFinds([a, b], q, found) && IsBest([a, b], q, engine, best);
  }

  lemma {:induction false} FirstIsFound(routes: seq<CompiledRoute>, q: Request, i: nat)
    requires var t := Sort(EntriesUpTo(routes, |routes|));
             t != [] && t[0].routeIndex == i && EntryMatches(t[0], q.verb, q.path)
    ensures forall j: nat :: FastFinds(routes, q, j) <==> j == i
  {
    var t := Sort(EntriesUpTo(routes, |routes|));
    forall j: nat ensures FastFinds(routes, q, j) <==> j == i {
      if j == i { assert t[0].routeIndex == j; }
    }
  }

  /** Such a pair: the table puts the lower priority first. */
  lemma {:induction false} OverflowReversesTheTable(engine: Engine)
    ensures var p := CompiledPath(PathPrefix, "/", 1);
            var low := CompiledRoute(RouteOptions("low", "", [], [], ["/"], [], -9_000_000_000_000), [p]);
            var high := CompiledRoute(RouteOptions("high", "", [], [], ["/"], [], 9_000_000_000_000), [p]);
            !AgreeAt([low, high], Request("GET", "", "/"), engine)
  {
    var p := CompiledPath(PathPrefix, "/", 1);
    var low := CompiledRoute(RouteOptions("low", "", [], [], ["/"], [], -9_000_000_000_000), [p]);
    var high := CompiledRoute(RouteOptions("high", "", [], [], ["/"], [], 9_000_000_000_000), [p]);
    var q := Request("GET", "", "/");
    OnePathScore(low, q, engine);
    OnePathScore(high, q, engine);
    TwoRoutesAgreeIff(low, high, q, engine);
  }
}
