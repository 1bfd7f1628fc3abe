/**
 The router object of internal/router/router.go, with its loops.
 */
module Router {
  import opened Config
  import opened Text
  import opened RouteTable
  import opened FastTable
  import opened PathMeaning

  /** What Match promises.  The scan answers with the best route.  The fast table reads an empty method
      name as a wildcard: it answers if and only if a route so widened matches, with one that does,
      and if the scores fit with the best of them.  Without empty names widening changes nothing. */
  ghost predicate Answers(routes: seq<CompiledRoute>, engine: Engine, fast: bool, q: Request, found: bool,
                          route: RouteOptions) {
    var table := if fast then Widened(routes) else routes;
    && (!found ==> NoneMatches(table, q, engine))
    && (found ==> exists i: nat :: i < |routes| && route == routes[i].route && RouteMatches(table[i], q, engine) &&
                                   (!fast || ScoresFit(routes) ==> IsBest(table, q, engine, i)))
  }

  /** Every route of the table is compiled from its options. */
  predicate AllCompiled(routes: seq<CompiledRoute>, engine: Engine) {
    forall i :: 0 <= i < |routes| ==> CompileRoute(routes[i].route, engine) == Some(routes[i])
  }

  /** The same promise on the options alone: there is an answer if and only if some route fits, and the
      answer is one that does. */
  ghost predicate AnswersText(routes: seq<CompiledRoute>, engine: Engine, fast: bool, q: Request, found: bool,
                              route: RouteOptions) {
    && (!found ==> forall i :: 0 <= i < |routes| ==> !Fits(routes[i].route, fast, q, engine))
    && (found ==> exists i :: 0 <= i < |routes| && route == routes[i].route && Fits(route, fast, q, engine))
  }

  /** The widened route matches exactly if the route fits with empty method names read as any. */
  lemma {:induction false} WideMeaning(r: CompiledRoute, q: Request, engine: Engine)
    requires CompileRoute(r.route, engine) == Some(r)
    ensures RouteMatches(Widen(r), q, engine) <==> Fits(r.route, true, q, engine)
  {
    RouteMeaning(r.route, engine, q);
    BestPathMeaning(r.route, engine, q.path);
    HostsMeaning(r.route.hosts, q.host);
  }

  lemma {:induction false} AnswersMeaning(routes: seq<CompiledRoute>, engine: Engine, fast: bool, q: Request,
                                          found: bool, route: RouteOptions)
    requires AllCompiled(routes, engine) && Answers(routes, engine, fast, q, found, route)
    ensures AnswersText(routes, engine, fast, q, found, route)
  {
    var table := if fast then Widened(routes) else routes;
    forall i | 0 <= i < |routes|
      ensures RouteMatches(table[i], q, engine) <==> Fits(routes[i].route, fast, q, engine)
    {
      if fast { WideMeaning(routes[i], q, engine); } else { RouteMeaning(routes[i].route, engine, q); }
    }
  }

  class Router {
    const engine: Engine
    var routes: seq<CompiledRoute>
    var fastRoutes: seq<FastRoute>
    var fastEnabled: bool

    /** The fast table is enabled exactly for plain routes, and holds their sorted entries. */
    ghost predicate InStep()
      reads this
    {
      && (fastEnabled <==> FastEligible(routes))
      && fastRoutes == if fastEnabled then Sort(EntriesUpTo(routes, |routes|)) else []
    }

    ghost predicate Valid()
      reads this
    {
      AllCompiled(routes, engine) && InStep()
    }

    constructor (engine: Engine)
      ensures Valid() && routes == [] && this.engine == engine
    {
      this.engine := engine;
      routes, fastRoutes, fastEnabled := [], [], true;
    }

    /** Add rejects what does not compile and leaves the table alone; otherwise the route is
        appended and the fast table rebuilt.  The compiled route matches what the texts of the
        options stand for. */
    method Add(route: RouteOptions) returns (ok: bool)
      requires Valid()
      modifies this
      ensures Valid()
      ensures ok <==> CompileRoute(route, engine).Some?
      ensures routes == old(routes) + if ok then [CompileRoute(route, engine).value] else []
      ensures ok <==> Addable(route, engine)
      ensures ok ==> forall q :: RouteMatches(routes[|routes| - 1], q, engine) <==> Fits(route, false, q, engine)
    {
      AddableIff(route, engine);
      var compiled := CompileRoute(route, engine);
      if compiled.None? { return false; }
      routes := routes + [compiled.value];
      RebuildFastRoutes();
      forall q ensures RouteMatches(compiled.value, q, engine) <==> Fits(route, false, q, engine) {
        RouteMeaning(route, engine, q);
      }
      return true;
    }

    method RebuildFastRoutes()
      modifies `fastRoutes, `fastEnabled
      ensures InStep()
    {
      var plain, fast := CollectEntries(routes);
      if plain {
        fastRoutes, fastEnabled := Sort(fast), true;
      } else {
        fastRoutes, fastEnabled := [], false;
      }
    }

    static method CollectEntries(routes: seq<CompiledRoute>) returns (plain: bool, fast: seq<FastRoute>)
      ensures plain <==> FastEligible(routes)
      ensures plain ==> fast == EntriesUpTo(routes, |routes|)
    {
      fast := [];
      for i := 0 to |routes|
        invariant fast == EntriesUpTo(routes, i)
        invariant forall j :: 0 <= j < i ==> PlainRoute(routes[j])
      {
        plain, fast := AppendRoute(routes[i], i, fast);
        if !plain { return; }
      }
      plain := true;
    }

    /** The body of the loop over routes: gives up on hosts and on a regex path. */
    static method AppendRoute(entry: CompiledRoute, i: nat, front: seq<FastRoute>)
      returns (plain: bool, fast: seq<FastRoute>)
      ensures plain <==> PlainRoute(entry)
      ensures plain ==> fast == front + RouteEntries(entry, i, |entry.paths|, |front|)
    {
      fast := front;
      if |entry.route.hosts| != 0 { return false, fast; }
      for k := 0 to |entry.paths|
        invariant fast == front + RouteEntries(entry, i, k, |front|)
        invariant forall j :: 0 <= j < k ==> !entry.paths[j].kind.PathRegex?
      {
        if entry.paths[k].kind.PathRegex? { return false, fast; }
        fast := AppendPath(entry, i, entry.paths[k], fast);
      }
      return true, fast;
    }

    static method AppendPath(entry: CompiledRoute, i: nat, p: CompiledPath, front: seq<FastRoute>)
      returns (fast: seq<FastRoute>)
      ensures fast == front + PathEntries(entry, i, p, |front|)
    {
      fast := front;
      if |entry.route.methods| == 0 {
        fast := fast + [Entry(entry, i, p, "", |fast|)];
        return;
      }
      for m := 0 to |entry.route.methods|
        invariant fast == front + MethodEntries(entry, i, p, m, |front|)
      {
        fast := fast + [Entry(entry, i, p, Upper(entry.route.methods[m]), |fast|)];
      }
    }

    /** matchPath of the compiled route, with its loop. */
    method MatchPath(r: CompiledRoute, path: string) returns (best: nat)
      ensures best == BestPath(r, path, engine)
    {
      best := 0;
      for k := 0 to |r.paths|
        invariant best == BestPathUpTo(r.paths, k, path, engine)
      {
        if PathMatches(r.paths[k], path, engine) && PathScore(r.paths[k]) > best {
          best := PathScore(r.paths[k]);
        }
      }
    }

    /** The loop of Match over all routes. */
    method Scan(q: Request) returns (found: bool, index: nat)
      ensures found ==> IsBest(routes, q, engine, index)
      ensures !found ==> NoneMatches(routes, q, engine)
    {
      found, index := false, 0;
      var bestScore := 0;
      for i := 0 to |routes|
        invariant found ==> index < i && IsBest(routes[..i], q, engine, index)
        invariant found ==> bestScore == RouteScore(routes[index], q, engine)
        invariant !found ==> NoneMatches(routes[..i], q, engine)
      {
        var r := routes[i];
        assert routes[..i + 1] == routes[..i] + [r];
        var pathScore := MatchPath(r, q.path);
        if MethodMatches(r.route.methods, q.verb) && HostMatches(r.route.hosts, q.host) && pathScore != 0 {
          var score := Packed(r.route.priority, pathScore);
          if !found || score > bestScore {
            found, index, bestScore := true, i, score;
          }
        }
      }
      assert routes[..|routes|] == routes;
    }

    /** matchFast: the first entry that matches, as its position in the table. */
    method MatchFast(verb: string, path: string) returns (found: bool, at: nat)
      ensures found ==> at < |fastRoutes| && EntryMatches(fastRoutes[at], verb, path)
      ensures forall k :: 0 <= k < (if found then at else |fastRoutes|) && k < |fastRoutes| ==>
                !EntryMatches(fastRoutes[k], verb, path)
    {
      for k := 0 to |fastRoutes|
        invariant forall j :: 0 <= j < k ==> !EntryMatches(fastRoutes[j], verb, path)
      {
        if EntryMatches(fastRoutes[k], verb, path) {
          return true, k;
        }
      }
      return false, 0;
    }

    /** Match takes the fast table for requests without a host and the full scan otherwise. */
    method Match(verb: string, host: string, path: string) returns (found: bool, route: RouteOptions)
      requires Valid()
      ensures Answers(routes, engine, fastEnabled && host == "", Request(Upper(verb), host, path), found, route)
      ensures AnswersText(routes, engine, fastEnabled && host == "", Request(Upper(verb), host, path), found, route)
    {
      var q := Request(Upper(verb), host, path);
      FoldIsUpper(verb, verb);
      var index := 0;
      if fastEnabled && host == "" {
        var at;
        found, at := MatchFast(q.verb, path);
        if found {
          TableMatchIsMatch(routes, q, engine, at);
          index := fastRoutes[at].routeIndex;
          if ScoresFit(routes) { FirstMatchIsBest(routes, q, engine, at); }
        } else {
          NoEntryMeansNoRoute(routes, q, engine);
        }
      } else {
        found, index := Scan(q);
      }
      route := if found then routes[index].route else RouteOptions("", "", [], [], [], [], 0);
      AnswersMeaning(routes, engine, fastEnabled && host == "", q, found, route);
    }
  }
}
