/**
 The pre-sorted table agrees with the full scan, ties included.
 */
module FastTable {
  import opened Text
  import opened RouteTable

  /** A route without methods has one wildcard verb. */
  function VerbCount(r: CompiledRoute): nat {
    if r.route.methods == [] then 1 else |r.route.methods|
  }

  function VerbAt(r: CompiledRoute, m: nat): string
    requires m < VerbCount(r)
  {
    if r.route.methods == [] then "" else Upper(r.route.methods[m])
  }

  /** Entry e stands for path k and verb m of route r, which has index i. */
  predicate Describes(r: CompiledRoute, i: nat, k: nat, m: nat, e: FastRoute) {
    k < |r.paths| && m < VerbCount(r) && e == Entry(r, i, r.paths[k], VerbAt(r, m), e.order)
  }

  lemma {:induction false} MethodEntriesAt(r: CompiledRoute, i: nat, p: CompiledPath, m: nat, base: nat, x: nat)
    requires x < m <= |r.route.methods|
    ensures MethodEntries(r, i, p, m, base)[x] == Entry(r, i, p, Upper(r.route.methods[x]), base + x)
  {
    if x < m - 1 { MethodEntriesAt(r, i, p, m - 1, base, x); }
  }

  lemma {:induction false} PathEntriesAt(r: CompiledRoute, i: nat, p: CompiledPath, base: nat, x: nat)
    requires x < VerbCount(r)
    ensures |PathEntries(r, i, p, base)| == VerbCount(r)
    ensures PathEntries(r, i, p, base)[x] == Entry(r, i, p, VerbAt(r, x), base + x)
  {
    if r.route.methods != [] { MethodEntriesAt(r, i, p, |r.route.methods|, base, x); }
  }

  /** The entries of a route stand at consecutive positions, each for one path and verb. */
  lemma {:induction false} RouteEntriesDescribed(r: CompiledRoute, i: nat, n: nat, base: nat, x: nat)
    requires n <= |r.paths| && x < |RouteEntries(r, i, n, base)|
    ensures var e := RouteEntries(r, i, n, base)[x];
            e.order == base + x && e.routeIndex == i && exists k: nat, m: nat :: Describes(r, i, k, m, e)
  {
    var front := RouteEntries(r, i, n - 1, base);
    if x < |front| {
      RouteEntriesDescribed(r, i, n - 1, base, x);
    } else {
      PathEntriesAt(r, i, r.paths[n - 1], base + |front|, 0);
      PathEntriesAt(r, i, r.paths[n - 1], base + |front|, x - |front|);
      assert Describes(r, i, n - 1, x - |front|, RouteEntries(r, i, n, base)[x]);
    }
  }

  lemma {:induction false} RouteEntriesComplete(r: CompiledRoute, i: nat, n: nat, base: nat, k: nat, m: nat)
    returns (x: nat)
    requires k < n <= |r.paths| && m < VerbCount(r)
    ensures x < |RouteEntries(r, i, n, base)| && Describes(r, i, k, m, RouteEntries(r, i, n, base)[x])
  {
    if k < n - 1 {
      x := RouteEntriesComplete(r, i, n - 1, base, k, m);
      FrontStays(r, i, n, base, x);
    } else {
      x := LastPathComplete(r, i, n, base, m);
    }
  }

  lemma {:induction false} FrontStays(r: CompiledRoute, i: nat, n: nat, base: nat, x: nat)
    requires 0 < n <= |r.paths| && x < |RouteEntries(r, i, n - 1, base)|
    ensures x < |RouteEntries(r, i, n, base)| && RouteEntries(r, i, n, base)[x] == RouteEntries(r, i, n - 1, base)[x]
  {
  }

  lemma {:induction false} LastPathComplete(r: CompiledRoute, i: nat, n: nat, base: nat, m: nat) returns (x: nat)
    requires 0 < n <= |r.paths| && m < VerbCount(r)
    ensures x < |RouteEntries(r, i, n, base)| && Describes(r, i, n - 1, m, RouteEntries(r, i, n, base)[x])
  {
    var front := RouteEntries(r, i, n - 1, base);
    PathEntriesAt(r, i, r.paths[n - 1], base + |front|, m);
    x := |front| + m;
  }

  /** Positions are orders, and every entry stands for a path and a verb of its route. */
  lemma {:induction false} EntriesDescribed(routes: seq<CompiledRoute>, n: nat, x: nat)
    requires n <= |routes| && x < |EntriesUpTo(routes, n)|
    ensures var e := EntriesUpTo(routes, n)[x];
            && e.order == x && e.routeIndex < n
            && exists k: nat, m: nat :: Describes(routes[e.routeIndex], e.routeIndex, k, m, e)
    ensures n > 0 && x >= |EntriesUpTo(routes, n - 1)| ==> EntriesUpTo(routes, n)[x].routeIndex == n - 1
  {
    var front := EntriesUpTo(routes, n - 1);
    if x < |front| {
      EntriesDescribed(routes, n - 1, x);
    } else {
      RouteEntriesDescribed(routes[n - 1], n - 1, |routes[n - 1].paths|, |front|, x - |front|);
    }
  }

  /** Routes appear in the table in the order they were added. */
  lemma {:induction false} EntriesInAddOrder(routes: seq<CompiledRoute>, n: nat, y: nat, x: nat)
    requires n <= |routes| && y <= x < |EntriesUpTo(routes, n)|
    ensures EntriesUpTo(routes, n)[y].routeIndex <= EntriesUpTo(routes, n)[x].routeIndex
  {
    if x < |EntriesUpTo(routes, n - 1)| {
      EntriesInAddOrder(routes, n - 1, y, x);
    } else {
      EntriesDescribed(routes, n, x);
      EntriesDescribed(routes, n, y);
    }
  }

  /** Every path and verb of every route has its entry. */
  lemma {:induction false} EntriesComplete(routes: seq<CompiledRoute>, n: nat, i: nat, k: nat, m: nat) returns (x: nat)
    requires i < n <= |routes| && k < |routes[i].paths| && m < VerbCount(routes[i])
    ensures x < |EntriesUpTo(routes, n)| && Describes(routes[i], i, k, m, EntriesUpTo(routes, n)[x])
  {
    var front := EntriesUpTo(routes, n - 1);
    if i < n - 1 {
      x := EntriesComplete(routes, n - 1, i, k, m);
    } else {
      x := RouteEntriesComplete(routes[i], i, |routes[i].paths|, |front|, k, m);
      x := |front| + x;
    }
  }

  // ---------------------------------------------------------------- sorting

  predicate Before(a: FastRoute, b: FastRoute) {
    a.score > b.score || (a.score == b.score && a.order <= b.order)
  }

  predicate Sorted(es: seq<FastRoute>) {
    forall x, y :: 0 <= x < y < |es| ==> Before(es[x], es[y])
  }

  /** The difference of two scores does not leave 64 bits, either way. */
  predicate Close(a: FastRoute, b: FastRoute) {
    Int64(a.score - b.score) && Int64(b.score - a.score)
  }

  lemma {:induction false} CompareIsBefore(a: FastRoute, b: FastRoute)
    requires Close(a, b)
    ensures Compare(a, b) >= 0 ==> Before(b, a)
    ensures Compare(a, b) < 0 ==> Before(a, b)
  {
  }

  /** The comparison function orders two different scores rightly exactly if the difference that it
      computes fits 64 bits. */
  lemma {:induction false} CompareIsRightIff(a: FastRoute, b: FastRoute)
    requires Int64(a.score) && Int64(b.score) && a.score != b.score
    ensures (Compare(a, b) < 0 <==> a.score > b.score) <==> Int64(b.score - a.score)
  {
    var d := b.score - a.score;
    WrapIsInt64(d);
    var k: int :| Wrap(d) == d + k * (2 * TWO63);
    assert d >= TWO63 ==> k == -1;
    assert d < -TWO63 ==> k == 1;
  }

  /** Sorting permutes, whatever the comparison says. */
  lemma {:induction false} InsertPermutes(s: seq<FastRoute>, e: FastRoute)
    ensures multiset(Insert(s, e)) == multiset(s) + multiset{e}
  {
    if s != [] {
      assert s == s[..|s| - 1] + [s[|s| - 1]];
      if Compare(e, s[|s| - 1]) < 0 { InsertPermutes(s[..|s| - 1], e); }
    }
  }

  lemma {:induction false} SortPermutes(es: seq<FastRoute>)
    ensures multiset(Sort(es)) == multiset(es)
  {
    if es != [] {
      assert es == es[..|es| - 1] + [es[|es| - 1]];
      SortPermutes(es[..|es| - 1]);
      InsertPermutes(Sort(es[..|es| - 1]), es[|es| - 1]);
    }
  }

  lemma {:induction false} InsertSorts(s: seq<FastRoute>, e: FastRoute)
    requires Sorted(s) && forall x :: 0 <= x < |s| ==> Close(e, s[x])
    ensures Sorted(Insert(s, e))
  {
    if s != [] {
      var front, last := s[..|s| - 1], s[|s| - 1];
      CompareIsBefore(e, last);
      if Compare(e, last) < 0 {
        InsertSorts(front, e);
        InsertPermutes(front, e);
        var all := Insert(front, e);
        forall x | 0 <= x < |all| ensures Before(all[x], last) {
          assert all[x] in multiset(all);
          assert all[x] == e || all[x] in front;
        }
      }
    }
  }

  lemma {:induction false} SortSorts(es: seq<FastRoute>)
    requires forall x, y :: 0 <= x < |es| && 0 <= y < |es| ==> Close(es[x], es[y])
    ensures Sorted(Sort(es))
  {
    if es != [] {
      var front, last := es[..|es| - 1], es[|es| - 1];
      SortSorts(front);
      SortPermutes(front);
      forall x | 0 <= x < |Sort(front)| ensures Close(last, Sort(front)[x]) {
        assert Sort(front)[x] in multiset(front);
        assert Sort(front)[x] in front;
      }
      InsertSorts(Sort(front), last);
    }
  }

  // ---------------------------------------------------------------- one route against its entries

  /** No route lists an empty method name. */
  predicate NamedMethods(r: CompiledRoute) {
    forall m :: 0 <= m < |r.route.methods| ==> r.route.methods[m] != ""
  }

  /** An empty method name in the table is a wildcard, so a route that lists one stands there for
      the same route without a method list. */
  function Widen(r: CompiledRoute): CompiledRoute {
    if NamedMethods(r) then r else r.(route := r.route.(methods := []))
  }

  function Widened(routes: seq<CompiledRoute>): (ws: seq<CompiledRoute>)
    ensures |ws| == |routes| && forall i :: 0 <= i < |ws| ==> ws[i] == Widen(routes[i])
  {
    seq(|routes|, i requires 0 <= i < |routes| => Widen(routes[i]))
  }

  /** Plain routes whose scores can be packed and compared. */
  predicate Comparable(routes: seq<CompiledRoute>) {
    FastEligible(routes) && ScoresFit(routes)
  }

  /** The request as Match sees it, with an upper-case method. */
  predicate Folded(q: Request) {
    Upper(q.verb) == q.verb
  }

  lemma {:induction false} DescribedEntryMatches(r: CompiledRoute, i: nat, k: nat, m: nat, e: FastRoute, q: Request,
                                                 engine: Engine)
    requires Describes(r, i, k, m, e) && PlainRoute(r) && Folded(q)
    ensures EntryMatches(e, q.verb, q.path) <==>
            && PathMatches(r.paths[k], q.path, engine)
            && (r.route.methods == [] || r.route.methods[m] == "" || EqualFold(r.route.methods[m], q.verb))
  {
    if r.route.methods != [] {
      FoldIsUpper(r.route.methods[m], q.verb);
      assert |Upper(r.route.methods[m])| == |r.route.methods[m]|;
    }
  }

  /** An entry that matches makes its widened route match, whatever the scores. */
  lemma {:induction false} EntryMeansMatch(r: CompiledRoute, i: nat, k: nat, m: nat, e: FastRoute, q: Request,
                                           engine: Engine)
    requires Describes(r, i, k, m, e) && PlainRoute(r) && Folded(q) && EntryMatches(e, q.verb, q.path)
    ensures RouteMatches(Widen(r), q, engine)
  {
    DescribedEntryMatches(r, i, k, m, e, q, engine);
    WidenKeepsScore(r, q, engine);
    BestPathIsMax(r.paths, |r.paths|, q.path, engine);
    assert PathScore(r.paths[k]) > 0;
  }

  lemma {:induction false} WidenKeepsScore(r: CompiledRoute, q: Request, engine: Engine)
    ensures BestPath(Widen(r), q.path, engine) == BestPath(r, q.path, engine)
    ensures RouteScore(Widen(r), q, engine) == RouteScore(r, q, engine)
  {
  }

  /** A matching entry makes its widened route match, with at least the entry's score. */
  lemma {:induction false} EntryBelowRoute(r: CompiledRoute, i: nat, k: nat, m: nat, e: FastRoute, q: Request,
                                           engine: Engine)
    requires Describes(r, i, k, m, e) && PlainRoute(r) && Unwrapped(r) && Folded(q)
    requires EntryMatches(e, q.verb, q.path)
    ensures RouteMatches(Widen(r), q, engine) && e.score <= RouteScore(Widen(r), q, engine)
  {
    DescribedEntryMatches(r, i, k, m, e, q, engine);
    WidenKeepsScore(r, q, engine);
    BestPathIsMax(r.paths, |r.paths|, q.path, engine);
    var best := BestPath(r, q.path, engine);
    var b :| 0 <= b < |r.paths| && PathMatches(r.paths[b], q.path, engine) && PathScore(r.paths[b]) == best;
    PackedExactIff(r.route.priority, best);
    PackedExactIff(r.route.priority, PathScore(r.paths[k]));
  }

  /** A route that matches once widened has a matching entry with exactly its score. */
  lemma {:induction false} RouteHasEntry(routes: seq<CompiledRoute>, i: nat, q: Request, engine: Engine)
    returns (x: nat)
    requires FastEligible(routes) && Folded(q) && i < |routes| && RouteMatches(Widen(routes[i]), q, engine)
    ensures var es := EntriesUpTo(routes, |routes|);
            && x < |es| && EntryMatches(es[x], q.verb, q.path)
            && es[x].routeIndex == i && es[x].score == RouteScore(Widen(routes[i]), q, engine)
  {
    var r := routes[i];
    WidenKeepsScore(r, q, engine);
    BestPathIsMax(r.paths, |r.paths|, q.path, engine);
    var k :| 0 <= k < |r.paths| && PathMatches(r.paths[k], q.path, engine) &&
             PathScore(r.paths[k]) == BestPath(r, q.path, engine);
    var m := 0;
    if !NamedMethods(r) {
      m :| 0 <= m < |r.route.methods| && r.route.methods[m] == "";
    } else if r.route.methods != [] {
      m :| 0 <= m < |r.route.methods| && EqualFold(r.route.methods[m], q.verb);
    }
    x := EntriesComplete(routes, |routes|, i, k, m);
    DescribedEntryMatches(r, i, k, m, EntriesUpTo(routes, |routes|)[x], q, engine);
  }

  /** The score of an entry is that of a path of its route. */
  lemma {:induction false} EntryScore(routes: seq<CompiledRoute>, x: nat) returns (k: nat)
    requires ScoresFit(routes) && x < |EntriesUpTo(routes, |routes|)|
    ensures var e := EntriesUpTo(routes, |routes|)[x];
            && e.routeIndex < |routes| && k < |routes[e.routeIndex].paths|
            && e.score == ExactScore(routes[e.routeIndex].route.priority, PathScore(routes[e.routeIndex].paths[k]))
  {
    EntriesDescribed(routes, |routes|, x);
    var e := EntriesUpTo(routes, |routes|)[x];
    var k', m: nat :| Describes(routes[e.routeIndex], e.routeIndex, k', m, e);
    k := k';
    assert Unwrapped(routes[e.routeIndex]);
    PackedExactIff(routes[e.routeIndex].route.priority, PathScore(routes[e.routeIndex].paths[k]));
  }

  lemma {:induction false} EntriesClose(routes: seq<CompiledRoute>, x: nat, y: nat)
    requires ScoresFit(routes) && x < |EntriesUpTo(routes, |routes|)| && y < |EntriesUpTo(routes, |routes|)|
    ensures Close(EntriesUpTo(routes, |routes|)[x], EntriesUpTo(routes, |routes|)[y])
  {
    var k := EntryScore(routes, x);
    var l := EntryScore(routes, y);
  }

  // ---------------------------------------------------------------- the theorem

  lemma {:induction false} TableIsSortedEntries(routes: seq<CompiledRoute>)
    requires Comparable(routes)
    ensures var es := EntriesUpTo(routes, |routes|); Sorted(Sort(es)) && multiset(Sort(es)) == multiset(es)
  {
    var es := EntriesUpTo(routes, |routes|);
    forall x, y | 0 <= x < |es| && 0 <= y < |es| ensures Close(es[x], es[y]) {
      EntriesClose(routes, x, y);
    }
    SortSorts(es);
    SortPermutes(es);
  }

  lemma {:induction false} PositionInEntries(t: seq<FastRoute>, es: seq<FastRoute>, at: nat) returns (x: nat)
    requires multiset(t) == multiset(es) && at < |t|
    ensures x < |es| && es[x] == t[at]
  {
    assert t[at] in multiset(es);
    x :| 0 <= x < |es| && es[x] == t[at];
  }

  /** Entry `at` is the first one that matches: nothing that matches is ahead of it. */
  lemma {:induction false} FirstMatchIsAhead(routes: seq<CompiledRoute>, q: Request, at: nat, x: nat)
    requires Comparable(routes)
    requires var t := Sort(EntriesUpTo(routes, |routes|));
             at < |t| && forall y :: 0 <= y < at ==> !EntryMatches(t[y], q.verb, q.path)
    requires x < |EntriesUpTo(routes, |routes|)| && EntryMatches(EntriesUpTo(routes, |routes|)[x], q.verb, q.path)
    ensures var t := Sort(EntriesUpTo(routes, |routes|));
            Before(t[at], EntriesUpTo(routes, |routes|)[x])
  {
    var es := EntriesUpTo(routes, |routes|);
    TableIsSortedEntries(routes);
    var y := PositionInEntries(es, Sort(es), x);
    assert y >= at;
  }

  /** The first entry of the table that matches belongs to the best route of the widened table: the
      one the full scan returns there, ties included. */
  lemma {:induction false} FirstMatchIsBest(routes: seq<CompiledRoute>, q: Request, engine: Engine, at: nat)
    requires Comparable(routes) && Folded(q)
    requires var t := Sort(EntriesUpTo(routes, |routes|));
             && at < |t| && EntryMatches(t[at], q.verb, q.path)
             && forall y :: 0 <= y < at ==> !EntryMatches(t[y], q.verb, q.path)
    ensures IsBest(Widened(routes), q, engine, Sort(EntriesUpTo(routes, |routes|))[at].routeIndex)
  {
    var es, ws := EntriesUpTo(routes, |routes|), Widened(routes);
    TableIsSortedEntries(routes);
    var w := PositionInEntries(Sort(es), es, at);
    var e := es[w];
    EntriesDescribed(routes, |routes|, w);
    var i := e.routeIndex;
    var k: nat, m: nat :| Describes(routes[i], i, k, m, e);
    assert PlainRoute(routes[i]) && Unwrapped(routes[i]);
    EntryBelowRoute(routes[i], i, k, m, e, q, engine);
    var own := RouteHasEntry(routes, i, q, engine);
    FirstMatchIsAhead(routes, q, at, own);
    forall j | 0 <= j < |ws| && RouteMatches(ws[j], q, engine)
      ensures RouteScore(ws[j], q, engine) <= RouteScore(ws[i], q, engine)
      ensures j < i ==> RouteScore(ws[j], q, engine) < RouteScore(ws[i], q, engine)
    {
      var x := RouteHasEntry(routes, j, q, engine);
      FirstMatchIsAhead(routes, q, at, x);
      EntriesDescribed(routes, |routes|, x);
      if w <= x { EntriesInAddOrder(routes, |routes|, w, x); }
    }
  }

  /** A matching entry of the table names a route that matches once widened. */
  lemma {:induction false} TableMatchIsMatch(routes: seq<CompiledRoute>, q: Request, engine: Engine, at: nat)
    requires FastEligible(routes) && Folded(q)
    requires at < |Sort(EntriesUpTo(routes, |routes|))|
    requires EntryMatches(Sort(EntriesUpTo(routes, |routes|))[at], q.verb, q.path)
    ensures var i := Sort(EntriesUpTo(routes, |routes|))[at].routeIndex;
            i < |routes| && RouteMatches(Widened(routes)[i], q, engine)
  {
    var es := EntriesUpTo(routes, |routes|);
    SortPermutes(es);
    var x := PositionInEntries(Sort(es), es, at);
    EntriesDescribed(routes, |routes|, x);
    var i := es[x].routeIndex;
    var k: nat, m: nat :| Describes(routes[i], i, k, m, es[x]);
    assert PlainRoute(routes[i]);
    EntryMeansMatch(routes[i], i, k, m, es[x], q, engine);
  }

  predicate NothingMatches(t: seq<FastRoute>, q: Request) {
    forall y :: 0 <= y < |t| ==> !EntryMatches(t[y], q.verb, q.path)
  }

  /** When no entry matches, no widened route does. */
  lemma {:induction false} NoEntryMeansNoRoute(routes: seq<CompiledRoute>, q: Request, engine: Engine)
    requires FastEligible(routes) && Folded(q)
    requires NothingMatches(Sort(EntriesUpTo(routes, |routes|)), q)
    ensures NoneMatches(Widened(routes), q, engine)
  {
    var es, ws := EntriesUpTo(routes, |routes|), Widened(routes);
    var t := Sort(es);
    SortPermutes(es);
    forall x | 0 <= x < |es| ensures !EntryMatches(es[x], q.verb, q.path) {
      var y := PositionInEntries(es, t, x);
    }
    forall j | 0 <= j < |ws| ensures !RouteMatches(ws[j], q, engine) {
      if RouteMatches(Widen(routes[j]), q, engine) {
        var x := RouteHasEntry(routes, j, q, engine);
      }
    }
  }

  /** Without empty method names the widened table is the table itself. */
  lemma {:induction false} NamedIsWidened(routes: seq<CompiledRoute>)
    requires forall i :: 0 <= i < |routes| ==> NamedMethods(routes[i])
    ensures Widened(routes) == routes
  {
  }
}
