/**
 What the routes and services of a translated snapshot contain, and exactly when the final Validate
 accepts what was built.
 */
module TranslateResults {
  import opened Config
  import opened Translate
  import opened TranslateMeaning
  import opened TranslateOrder
  import opened TranslateReach

  // ---------------------------------------------------------------- what kept resources contain

  lemma {:induction false} PathsAreImages(env: Env, uris: seq<string>, p: string)
    ensures p in PathsOf(env, uris) <==> exists k :: 0 <= k < |uris| && uris[k] != "" && env.path(uris[k]) == p
  {
    if uris != [] {
      PathsAreImages(env, uris[1..], p);
      var rest := PathsOf(env, uris[1..]);
      assert p in PathsOf(env, uris) <==> (uris[0] != "" && env.path(uris[0]) == p) || p in rest;
      if k :| 0 <= k < |uris[1..]| && uris[1..][k] != "" && env.path(uris[1..][k]) == p {
        assert uris[k + 1] == uris[1..][k];
      }
      if k :| 1 <= k < |uris| && uris[k] != "" && env.path(uris[k]) == p {
        assert uris[1..][k - 1] == uris[k];
      }
    }
  }

  lemma {:induction false} RoutesAreTranslated(snap: Snapshot, env: Env, start: Out, order: seq<string>, id: string)
    requires Within(order, snap.routes.Keys) && start.routes == map[]
    requires id in AddRoutes(snap, env, start, order).routes
    ensures id in snap.routes && RouteConfig(env, snap.routes[id]).Some?
    ensures var rt := AddRoutes(snap, env, start, order).routes[id];
            rt == RouteConfig(env, snap.routes[id]).value.(service := TargetOf(snap.routes[id], id))
  {
    var n := |order| - 1;
    if id in AddRoutes(snap, env, start, order[..n]).routes {
      RoutesAreTranslated(snap, env, start, order[..n], id);
    }
  }

  /** Whatever the snapshot and the order, a route of the result matches what the snapshot's route
      says: its hosts, its methods, and the patterns of its uri and then its uris, with its plugins.
      Its priority is lost. */
  lemma {:induction false} KeptRouteContent(snap: Snapshot, env: Env, o: Orders, id: string, p: string)
    requires ValidOrders(snap, o) && id in Built(snap, env, o).routes
    ensures id in snap.routes
    ensures var r, rt := snap.routes[id], Built(snap, env, o).routes[id];
            && rt.service == TargetOf(r, id) && rt.id == (if r.id == "" then "route" else r.id)
            && rt.hosts == r.hosts && rt.methods == r.methods && rt.priority == 0
            && env.plugins(r.pluginConfigId, r.plugins) == Some(rt.plugins)
            && rt.paths == (if r.uri == "" then [] else [env.path(r.uri)]) + PathsOf(env, r.uris)
            && (p in rt.paths <==>
                  (r.uri != "" && env.path(r.uri) == p) ||
                  (exists k :: 0 <= k < |r.uris| && r.uris[k] != "" && env.path(r.uris[k]) == p))
  {
    var first := AddUpstreams(snap, env, o.upstreams);
    AddUpstreamsClosed(snap, env, o.upstreams);
    ServicesAddNoRoute(snap, env, first, o.services);
    RoutesAreTranslated(snap, env, AddServices(snap, env, first, o.services), o.routes, id);
    var r := snap.routes[id];
    assert ([r.uri] + r.uris)[1..] == r.uris;
    PathsAreImages(env, r.uris, p);
  }

  /** A synthesized service: named like its key, without plugins, with the timeout of its upstream. */
  predicate ForUpstreamOnly(out: Out, id: string)
    requires Closed(out) && id in out.services
  {
    var s := out.services[id];
    s.id == id && id == "service-" + s.upstream && s.plugins == [] && s.timeout == Behind(out, id).timeout
  }

  /** What an upstream of the snapshot becomes. */
  predicate Carries(env: Env, up: Translate.Upstream, u: UpstreamOptions) {
    && u.scheme == up.scheme && u.passHost == up.passHost && u.upstreamHost == up.upstreamHost
    && u.timeout == up.timeout && env.endpoints(up.nodes) == Some(u.endpoints) && u.plugins == [] && u.balancer == ""
  }

  /** Where an upstream of the result comes from: a service, a route, or the declared upstreams. */
  ghost predicate ComesFrom(snap: Snapshot, env: Env, id: string, u: UpstreamOptions) {
    || (exists k :: k in snap.services && snap.services[k].upstreamId == "" && snap.services[k].inline.Some? &&
                    (var name := if snap.services[k].id == "" then "service" else snap.services[k].id;
                     id == "upstream-service-" + name) &&
                    u.id == id && Carries(env, snap.services[k].inline.value, u))
    || (exists k :: k in snap.routes && snap.routes[k].inline.Some? && id == "upstream-route-" + k && u.id == id &&
                    Carries(env, snap.routes[k].inline.value, u))
    || (id in snap.upstreams && Carries(env, snap.upstreams[id], u) &&
        (u.scheme == "" || u.scheme == "http" || u.scheme == "https"))
  }

  /** Which upstreams the result has and what each carries over: every declared one whose nodes translate and
      whose scheme is supported is there, or what a service or a route stores under its name. */
  lemma {:induction false} UpstreamContent(snap: Snapshot, env: Env, o: Orders, id: string)
    requires ValidOrders(snap, o)
    ensures id in Built(snap, env, o).upstreams ==> ComesFrom(snap, env, id, Built(snap, env, o).upstreams[id])
    ensures (id in snap.upstreams && env.endpoints(snap.upstreams[id].nodes).Some? &&
             snap.upstreams[id].scheme in {"", "http", "https"}) ==> id in Built(snap, env, o).upstreams
  {
    var ss, rs, ups := snap.services.Keys, snap.routes.Keys, Built(snap, env, o).upstreams;
    BuiltIsFinished(snap, env, o);
    assert UpstreamAt(snap, env, ss, rs, id, At(ups, id));
    if StoredIn(snap, env, ss, id) {
      var k :| k in ss && StoresAs(snap, env, k, id) && StoredByService(snap, env, k) == At(ups, id);
      FromService(snap, env, k);
    } else if RouteInline(snap, env, rs, id).Some? {
      FromRoute(snap, env, rs, id);
    }
  }

  lemma {:induction false} FromService(snap: Snapshot, env: Env, k: string)
    requires StoredByService(snap, env, k).Some?
    ensures ComesFrom(snap, env, ServiceUpstreamId(snap.services[k]), StoredByService(snap, env, k).value)
  {
    assert Carries(env, snap.services[k].inline.value, StoredByService(snap, env, k).value);
  }

  lemma {:induction false} FromRoute(snap: Snapshot, env: Env, rs: set<string>, id: string)
    requires RouteInline(snap, env, rs, id).Some?
    ensures ComesFrom(snap, env, id, RouteInline(snap, env, rs, id).value)
  {
    var k := id[|ROUTE_UPSTREAM|..];
    PrefixOf(ROUTE_UPSTREAM, id);
    assert k in snap.routes && Carries(env, snap.routes[k].inline.value, RouteInline(snap, env, rs, id).value);
  }

  /** Which services the result has, and what each contains: a declared one its own plugins and, unless
      it borrows, the timeout of the upstream it means; one that is replaced or only synthesized, no
      plugins and the timeout of the upstream behind it. */
  lemma {:induction false} ServiceContent(snap: Snapshot, env: Env, o: Orders, id: string)
    requires ValidOrders(snap, o)
    ensures var out := Built(snap, env, o);
            && Closed(out)
            && (ServiceKept(snap, env, id) || SynthesizedBy(snap, env, snap.routes.Keys, id) ==> id in out.services)
            && (id in out.services ==>
                  || ServiceKept(snap, env, id) || Lent(snap, env, id)
                  || SynthesizedBy(snap, env, snap.routes.Keys, id))
            && (ServiceKept(snap, env, id) && !Replaced(snap, env, snap.routes.Keys, id) ==>
                  && env.plugins(snap.services[id].pluginConfigId, snap.services[id].plugins) ==
                     Some(out.services[id].plugins)
                  && out.services[id].upstream == ServiceUpstreamId(snap.services[id])
                  && out.services[id].id == (if snap.services[id].id == "" then "service" else snap.services[id].id)
                  && (!Borrows(snap, env, id) ==>
                        out.services[id].timeout == ServiceMeans(snap, env, id).value.timeout))
            && (id in out.services && Replaced(snap, env, snap.routes.Keys, id) ==> ForUpstreamOnly(out, id))
            && (id in out.services && !ServiceKept(snap, env, id) && !Lent(snap, env, id) ==> ForUpstreamOnly(out, id))
            && (id in out.services ==> out.services[id].protocol == "http")
  {
    var d, out := BeforeRoutes(snap, env, o).services, Built(snap, env, o);
    ServiceLands(snap, env, o, id);
    FinalService(snap, env, o, id);
    DeclaredContent(snap, env, o.services, d, id);
    PrefixOf(SERVICE, id);
  }

  /** A service of the result has no plugins or those of a declared one that is not replaced. */
  lemma {:induction false} ServicePlugins(snap: Snapshot, env: Env, o: Orders, id: string)
    requires ValidOrders(snap, o) && id in Built(snap, env, o).services
    ensures var plugins := Built(snap, env, o).services[id].plugins;
            || plugins == []
            || (&& (ServiceKept(snap, env, id) || Lent(snap, env, id)) && !Replaced(snap, env, snap.routes.Keys, id)
                && env.plugins(snap.services[id].pluginConfigId, snap.services[id].plugins) == Some(plugins))
  {
    FinalService(snap, env, o, id);
    DeclaredContent(snap, env, o.services, BeforeRoutes(snap, env, o).services, id);
  }

  /** An order in which the declared service is there. */
  lemma {:induction false} DeclaredShows(snap: Snapshot, env: Env, id: string) returns (o: Orders)
    requires (ServiceKept(snap, env, id) || Lent(snap, env, id)) && !Replaced(snap, env, snap.routes.Keys, id)
    ensures ValidOrders(snap, o) && id in Built(snap, env, o).services
    ensures env.plugins(snap.services[id].pluginConfigId, snap.services[id].plugins) ==
            Some(Built(snap, env, o).services[id].plugins)
  {
    o := AnyOrders(snap);
    var svcs := OrderEnding(snap.services.Keys, id);
    o := o.(services := svcs);
    FinalService(snap, env, o, id);
    var d := BeforeRoutes(snap, env, o).services;
    DeclaredContent(snap, env, o.services, d, id);
    if Lent(snap, env, id) { var j := VisitedLast(snap, env, o.services, d, id); }
  }

  // ---------------------------------------------------------------- what Validate accepts

  predicate ShapeOk(up: Option<UpstreamOptions>) {
    up.Some? ==> UpstreamShapeOk(up.value)
  }

  /** Stored under the name of a declared upstream, by a service or a route. */
  predicate Overwritten(snap: Snapshot, env: Env, id: string) {
    StoredIn(snap, env, snap.services.Keys, id) || RouteInline(snap, env, snap.routes.Keys, id).Some?
  }

  /** Every upstream that is stored inline, or declared and not overwritten, is well shaped. */
  predicate ShapesOk(snap: Snapshot, env: Env) {
    && (forall id :: id in snap.upstreams && !Overwritten(snap, env, id) ==> ShapeOk(Declared(snap, env, id)))
    && (forall id :: id in snap.services ==> ShapeOk(StoredByService(snap, env, id)))
    && (forall id :: id in snap.routes ==> ShapeOk(StoredByRoute(snap, env, id)))
  }

  predicate BuiltShapesOk(out: Out) {
    forall id :: id in out.upstreams ==> UpstreamShapeOk(out.upstreams[id])
  }

  lemma {:induction false} StoredIsShapeOk(snap: Snapshot, env: Env, o: Orders, id: string)
    requires ValidOrders(snap, o) && ShapesOk(snap, env) && id in Built(snap, env, o).upstreams
    ensures UpstreamShapeOk(Built(snap, env, o).upstreams[id])
  {
    var ss, out := snap.services.Keys, Built(snap, env, o);
    BuiltIsFinished(snap, env, o);
    assert UpstreamAt(snap, env, ss, snap.routes.Keys, id, At(out.upstreams, id));
    if StoredIn(snap, env, ss, id) {
      var k :| k in ss && StoresAs(snap, env, k, id) && StoredByService(snap, env, k) == At(out.upstreams, id);
    }
  }

  lemma {:induction false} ShapesAreStored(snap: Snapshot, env: Env, o: Orders, id: string)
    requires ValidOrders(snap, o) && BuiltShapesOk(Built(snap, env, o))
    ensures id in snap.upstreams && !Overwritten(snap, env, id) ==> ShapeOk(Declared(snap, env, id))
    ensures id in snap.routes ==> ShapeOk(StoredByRoute(snap, env, id))
  {
    var ss, rs, uid, out := snap.services.Keys, snap.routes.Keys, ROUTE_UPSTREAM + id, Built(snap, env, o);
    BuiltIsFinished(snap, env, o);
    assert UpstreamAt(snap, env, ss, rs, id, At(out.upstreams, id));
    PrefixOf(ROUTE_UPSTREAM, id);
    RouteNameIsFree(snap, env, ss, id);
    assert UpstreamAt(snap, env, ss, rs, uid, At(out.upstreams, uid));
  }

  lemma {:induction false} BadServiceShows(snap: Snapshot, env: Env, id: string) returns (o: Orders)
    requires id in snap.services && !ShapeOk(StoredByService(snap, env, id))
    ensures ValidOrders(snap, o) && !BuiltShapesOk(Built(snap, env, o))
  {
    o := AnyOrders(snap);
    var svcs := OrderEnding(snap.services.Keys, id);
    o := o.(services := svcs);
    LastServiceWins(snap, env, o, id);
    assert ServiceUpstreamId(snap.services[id]) in Built(snap, env, o).upstreams;
  }

  /** The upstreams of the result are well shaped in every order if and only if all upstreams of the
      snapshot that get that far are: the declared ones, and those inline in services and in routes. */
  lemma {:induction false} BuiltShapesIff(snap: Snapshot, env: Env)
    ensures (forall o :: ValidOrders(snap, o) ==> BuiltShapesOk(Built(snap, env, o))) <==> ShapesOk(snap, env)
  {
    if ShapesOk(snap, env) {
      forall o, id | ValidOrders(snap, o) && id in Built(snap, env, o).upstreams
        ensures UpstreamShapeOk(Built(snap, env, o).upstreams[id])
      {
        StoredIsShapeOk(snap, env, o, id);
      }
    } else if id :| id in snap.services && !ShapeOk(StoredByService(snap, env, id)) {
      var o := BadServiceShows(snap, env, id);
    } else {
      var o := AnyOrders(snap);
      if BuiltShapesOk(Built(snap, env, o)) {
        forall id
          ensures id in snap.upstreams && !Overwritten(snap, env, id) ==> ShapeOk(Declared(snap, env, id))
          ensures id in snap.routes ==> ShapeOk(StoredByRoute(snap, env, id))
        {
          ShapesAreStored(snap, env, o, id);
        }
        assert false;
      }
    }
  }

  /** Refs as the translation makes them: by name, since it declares no shared plugins. */
  predicate RefsNamed(refs: seq<PluginRef>) {
    forall k :: 0 <= k < |refs| ==> refs[k].use == "" && refs[k].name != ""
  }

  /** The plugin refs of every declared service and every route that is there in some order are named. */
  predicate PluginsNamed(snap: Snapshot, env: Env) {
    && (forall id :: id in snap.services && (ServiceKept(snap, env, id) || Lent(snap, env, id)) &&
                     !Replaced(snap, env, snap.routes.Keys, id) ==>
          RefsNamed(env.plugins(snap.services[id].pluginConfigId, snap.services[id].plugins).value))
    && (forall id :: id in snap.routes && (RouteKept(snap, env, id) || Stray(snap, env, id)) ==>
          RefsNamed(env.plugins(snap.routes[id].pluginConfigId, snap.routes[id].plugins).value))
  }

  predicate BuiltPluginsNamed(out: Out) {
    && (forall id :: id in out.services ==> RefsNamed(out.services[id].plugins))
    && (forall id :: id in out.routes ==> RefsNamed(out.routes[id].plugins))
  }

  lemma {:induction false} PluginsAreBuilt(snap: Snapshot, env: Env, o: Orders)
    requires ValidOrders(snap, o) && PluginsNamed(snap, env)
    ensures BuiltPluginsNamed(Built(snap, env, o))
  {
    var out := Built(snap, env, o);
    forall id | id in out.services ensures RefsNamed(out.services[id].plugins) {
      ServicePlugins(snap, env, o, id);
    }
    forall id | id in out.routes ensures RefsNamed(out.routes[id].plugins) {
      KeptRouteContent(snap, env, o, id, "");
      SettledRoute(snap, env, o, id);
    }
  }

  /** An order that shows the unnamed plugin ref. */
  lemma {:induction false} UnnamedShows(snap: Snapshot, env: Env) returns (o: Orders)
    requires !PluginsNamed(snap, env)
    ensures ValidOrders(snap, o) && !BuiltPluginsNamed(Built(snap, env, o))
  {
    if id :| id in snap.services && (ServiceKept(snap, env, id) || Lent(snap, env, id)) &&
             !Replaced(snap, env, snap.routes.Keys, id) &&
             !RefsNamed(env.plugins(snap.services[id].pluginConfigId, snap.services[id].plugins).value) {
      o := DeclaredShows(snap, env, id);
    } else {
      var id :| id in snap.routes && (RouteKept(snap, env, id) || Stray(snap, env, id)) &&
                !RefsNamed(env.plugins(snap.routes[id].pluginConfigId, snap.routes[id].plugins).value);
      RouteIsThereIff(snap, env, id);
      o :| ValidOrders(snap, o) && id in Built(snap, env, o).routes;
      KeptRouteContent(snap, env, o, id, "");
    }
  }

  lemma {:induction false} RefsResolveIff(out: Out, listen: string, global: seq<PluginRef>, logging: LoggingOptions,
                                          refs: seq<PluginRef>)
    ensures RefsResolve(OptionsOf(out, listen, global, logging), refs) <==> RefsNamed(refs)
  {
    var opts := OptionsOf(out, listen, global, logging);
    if RefsResolve(opts, refs) {
      forall k | 0 <= k < |refs| ensures refs[k].use == "" && refs[k].name != "" {
        assert refs[k].use !in opts.plugins;
      }
    }
  }

  /** No upstream of the result has plugins. */
  lemma {:induction false} UpstreamsHaveNoPlugins(snap: Snapshot, env: Env, o: Orders, id: string)
    requires ValidOrders(snap, o) && id in Built(snap, env, o).upstreams
    ensures Built(snap, env, o).upstreams[id].plugins == []
  {
    var ups := Built(snap, env, o).upstreams;
    BuiltIsFinished(snap, env, o);
    assert UpstreamAt(snap, env, snap.services.Keys, snap.routes.Keys, id, At(ups, id));
  }

  /** What Validate still looks at. */
  lemma {:induction false} AcceptedBuilt(snap: Snapshot, env: Env, o: Orders, listen: string, global: seq<PluginRef>,
                                         logging: LoggingOptions, loggingOk: LoggingOptions -> bool)
    requires ValidOrders(snap, o) && listen != ""
    ensures var out := Built(snap, env, o);
            Accepted(OptionsOf(out, listen, global, logging), loggingOk) <==>
            loggingOk(logging) && RefsNamed(global) && BuiltPluginsNamed(out) && BuiltShapesOk(out)
  {
    var out := Built(snap, env, o);
    var opts := OptionsOf(out, listen, global, logging);
    BuiltIsClosed(snap, env, o);
    ValidateSeesShapesOnly(out, listen, global, logging, loggingOk);
    forall refs ensures RefsResolve(opts, refs) <==> RefsNamed(refs) {
      RefsResolveIff(out, listen, global, logging, refs);
    }
    forall id | id in out.upstreams ensures UpstreamOk(opts, id) <==> UpstreamShapeOk(out.upstreams[id]) {
      UpstreamsHaveNoPlugins(snap, env, o, id);
    }
  }

  /** What Validate accepts, in terms of the snapshot: a translation with a listen address succeeds in
      every order if and only if logging is fine, every plugin ref is named, and every declared or
      inline upstream that translates is well shaped.  One inline upstream with an unsupported scheme,
      or one upstream of any kind with an unknown pass_host, fails it as a whole. */
  lemma {:induction false} TranslationSucceedsIff(snap: Snapshot, env: Env, listen: string, global: seq<PluginRef>,
                                                  logging: LoggingOptions, loggingOk: LoggingOptions -> bool)
    requires listen != ""
    ensures (forall o :: ValidOrders(snap, o) ==>
               Accepted(OptionsOf(Built(snap, env, o), listen, global, logging), loggingOk)) <==>
            loggingOk(logging) && RefsNamed(global) && PluginsNamed(snap, env) && ShapesOk(snap, env)
  {
    forall o | ValidOrders(snap, o)
      ensures Accepted(OptionsOf(Built(snap, env, o), listen, global, logging), loggingOk) <==>
              loggingOk(logging) && RefsNamed(global) && BuiltPluginsNamed(Built(snap, env, o)) &&
              BuiltShapesOk(Built(snap, env, o))
      ensures PluginsNamed(snap, env) ==> BuiltPluginsNamed(Built(snap, env, o))
    {
      AcceptedBuilt(snap, env, o, listen, global, logging, loggingOk);
      if PluginsNamed(snap, env) { PluginsAreBuilt(snap, env, o); }
    }
    var some := AnyOrders(snap);
    BuiltShapesIff(snap, env);
    if !PluginsNamed(snap, env) {
      var o := UnnamedShows(snap, env);
    }
  }

  /** Where the order does not matter, one order is like every other. */
  lemma {:induction false} OneOrderDecides(snap: Snapshot, env: Env, o: Orders, listen: string, global: seq<PluginRef>,
                                           logging: LoggingOptions, loggingOk: LoggingOptions -> bool)
    requires OrderIrrelevant(snap, env) && ValidOrders(snap, o) && listen != ""
    ensures Accepted(OptionsOf(Built(snap, env, o), listen, global, logging), loggingOk) <==>
            loggingOk(logging) && RefsNamed(global) && PluginsNamed(snap, env) && ShapesOk(snap, env)
  {
    TranslationSucceedsIff(snap, env, listen, global, logging, loggingOk);
  }
}
