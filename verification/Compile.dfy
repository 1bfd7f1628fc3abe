/**
 Compiler.Compile of internal/gateway/compiler.go: options become handler chains, services,
 upstreams and a router, or an error after which the registry has been closed.
 */
module Compile {
  import opened Config
  import opened Plugins
  import opened PluginOwners
  import opened Text
  import opened RouteTable
  import opened PathMeaning
  import Router
  import RoundRobin
  import Lifecycle = SnapshotLifecycle

  datatype Upstream = Upstream(id: string, options: UpstreamOptions, handlers: seq<PluginHandler>,
                               endpoints: seq<RoundRobin.Endpoint>)

  /** `upstream` is None for a nil pointer. */
  datatype Service = Service(id: string, options: ServiceOptions, handlers: seq<PluginHandler>,
                             upstream: Option<Upstream>, execution: seq<Handler>)

  /** A step of a request: a plugin, the hand-over to a service, or the proxying to an upstream. */
  datatype Handler = Run(plugin: PluginHandler) | Dispatch(service: Option<Service>) | ProxyTo(upstream: Upstream)

  datatype Chains = Chains(global: seq<PluginHandler>, server: seq<PluginHandler>, routes: map<string, seq<Handler>>,
                           services: map<string, Service>, upstreams: map<string, Upstream>)

  // ---------------------------------------------------------------- the pieces

  function Runs(hs: seq<PluginHandler>): (r: seq<Handler>)
    ensures |r| == |hs| && forall i :: 0 <= i < |hs| ==> r[i] == Run(hs[i])
  {
    seq(|hs|, i requires 0 <= i < |hs| => Run(hs[i]))
  }

  /** An endpoint at the configured address that starts available; its weight is the configured one,
      and never zero. */
  predicate IsEndpoint(e: EndpointOptions, x: RoundRobin.Endpoint) {
    x.address == e.address && x.available && x.weight > 0 && (e.weight > 0 ==> x.weight == e.weight) &&
    (e.weight == 0 ==> x.weight == 1)
  }

  function EndpointOf(e: EndpointOptions): (x: RoundRobin.Endpoint)
    ensures IsEndpoint(e, x)
  {
    RoundRobin.Endpoint(e.address, if e.weight == 0 then 1 else e.weight, true)
  }

  method BuildEndpoints(es: seq<EndpointOptions>) returns (r: seq<RoundRobin.Endpoint>)
    ensures |r| == |es| && forall i :: 0 <= i < |es| ==> IsEndpoint(es[i], r[i])
  {
    r := [];
    for i := 0 to |es|
      invariant |r| == i && forall j :: 0 <= j < i ==> IsEndpoint(es[j], r[j])
    {
      r := r + [EndpointOf(es[i])];
    }
  }

  /** The handlers behind a service, in turn: its plugins, those of its upstream, and last the proxy. */
  predicate IsExecution(handlers: seq<PluginHandler>, upstream: Option<Upstream>, chain: seq<Handler>) {
    if upstream.None? then chain == []
    else
      var h, u := |handlers|, |upstream.value.handlers|;
      && |chain| == h + u + 1
      && (forall i :: 0 <= i < h ==> chain[i] == Run(handlers[i]))
      && (forall i :: h <= i < h + u ==> chain[i] == Run(upstream.value.handlers[i - h]))
      && chain[h + u] == ProxyTo(upstream.value)
  }

  /** buildServiceExecutionHandlers. */
  function Execution(handlers: seq<PluginHandler>, upstream: Option<Upstream>): (chain: seq<Handler>)
    ensures IsExecution(handlers, upstream, chain)
  {
    if upstream.None? then [] else Runs(handlers) + Runs(upstream.value.handlers) + [ProxyTo(upstream.value)]
  }

  /** The handlers of a route, in turn: the global plugins, those of the server, those of the route,
      and last the hand-over to the service. */
  predicate IsChain(global: seq<PluginHandler>, server: seq<PluginHandler>, route: seq<PluginHandler>,
                    service: Option<Service>, chain: seq<Handler>) {
    var g, s, r := |global|, |server|, |route|;
    && |chain| == g + s + r + 1
    && (forall i :: 0 <= i < g ==> chain[i] == Run(global[i]))
    && (forall i :: g <= i < g + s ==> chain[i] == Run(server[i - g]))
    && (forall i :: g + s <= i < g + s + r ==> chain[i] == Run(route[i - g - s]))
    && chain[g + s + r] == Dispatch(service)
  }

  /** buildRouteExecutionHandlers. */
  function RouteChain(global: seq<PluginHandler>, server: seq<PluginHandler>, route: seq<PluginHandler>,
                      service: Option<Service>): (chain: seq<Handler>)
    ensures IsChain(global, server, route, service, chain)
  {
    Runs(global) + Runs(server) + Runs(route) + [Dispatch(service)]
  }

  function Find<T>(m: map<string, T>, id: string): Option<T> {
    if id in m then Some(m[id]) else None
  }

  // ---------------------------------------------------------------- what compiling means

  predicate BalancerOk(u: UpstreamOptions) {
    u.balancer == "" || u.balancer == "round_robin"
  }

  predicate UpstreamCompiles(defs: Definitions, o: Options, id: string)
    requires id in o.upstreams
  {
    && Buildable(defs, o, ScopeUpstream, o.upstreams[id].plugins)
    && o.upstreams[id].balancer in {"", "round_robin"}
  }

  predicate ServiceCompiles(defs: Definitions, o: Options, id: string)
    requires id in o.services
  {
    Buildable(defs, o, ScopeService, o.services[id].plugins)
  }

  /** The route as it is added: its id is its key. */
  function RouteFor(o: Options, id: string): (r: RouteOptions)
    requires id in o.routes
    ensures r.id == id && r.(id := o.routes[id].id) == o.routes[id]
  {
    o.routes[id].(id := id)
  }

  predicate RouteCompiles(defs: Definitions, o: Options, engine: Engine, id: string)
    requires id in o.routes
  {
    CompileRoute(RouteFor(o, id), engine).Some? && Buildable(defs, o, ScopeRoute, o.routes[id].plugins)
  }

  predicate ServersCompile(defs: Definitions, o: Options) {
    |o.servers| <= 1 && forall id :: id in o.servers ==> Buildable(defs, o, ScopeServer, o.servers[id].plugins)
  }

  predicate PartsCompile(defs: Definitions, o: Options) {
    && ServersCompile(defs, o)
    && Buildable(defs, o, ScopeGlobal, o.globalPlugins)
    && (forall id :: id in o.upstreams ==> UpstreamCompiles(defs, o, id))
    && (forall id :: id in o.services ==> ServiceCompiles(defs, o, id))
  }

  /** What Compile accepts. */
  predicate Compiles(defs: Definitions, o: Options, engine: Engine) {
    && PartsCompile(defs, o)
    && (forall id :: id in o.routes ==> RouteCompiles(defs, o, engine, id))
  }

  ghost predicate UpstreamDone(defs: Definitions, o: Options, id: string, u: Upstream)
    requires id in o.upstreams
  {
    && u.id == id && u.options == o.upstreams[id]
    && ByPriority(defs, o, ScopeUpstream, u.options.plugins, u.handlers)
    && |u.endpoints| == |u.options.endpoints|
    && forall i :: 0 <= i < |u.endpoints| ==> IsEndpoint(u.options.endpoints[i], u.endpoints[i])
  }

  ghost predicate ServiceDone(defs: Definitions, o: Options, ups: map<string, Upstream>, id: string, s: Service)
    requires id in o.services
  {
    && s.id == id && s.options == o.services[id]
    && ByPriority(defs, o, ScopeService, s.options.plugins, s.handlers)
    && s.upstream == Find(ups, s.options.upstream)
    && IsExecution(s.handlers, s.upstream, s.execution)
  }

  ghost predicate ServerDone(defs: Definitions, o: Options, server: seq<PluginHandler>) {
    if o.servers == map[] then server == []
    else exists id :: id in o.servers && ByPriority(defs, o, ScopeServer, o.servers[id].plugins, server)
  }

  ghost predicate RouteDone(defs: Definitions, o: Options, c: Chains, id: string, chain: seq<Handler>)
    requires id in o.routes
  {
    && Buildable(defs, o, ScopeRoute, o.routes[id].plugins)
    && exists hs :: ByPriority(defs, o, ScopeRoute, o.routes[id].plugins, hs) &&
                    IsChain(c.global, c.server, hs, Find(c.services, o.routes[id].service), chain)
  }

  ghost predicate UpstreamsDone(defs: Definitions, o: Options, ups: map<string, Upstream>, ids: set<string>) {
    ups.Keys == ids && ids <= o.upstreams.Keys && forall id :: id in ids ==> UpstreamDone(defs, o, id, ups[id])
  }

  ghost predicate ServicesDone(defs: Definitions, o: Options, ups: map<string, Upstream>, ss: map<string, Service>,
                               ids: set<string>) {
    ss.Keys == ids && ids <= o.services.Keys && forall id :: id in ids ==> ServiceDone(defs, o, ups, id, ss[id])
  }

  ghost predicate RoutesDone(defs: Definitions, o: Options, c: Chains, ids: set<string>) {
    c.routes.Keys == ids && ids <= o.routes.Keys && forall id :: id in ids ==> RouteDone(defs, o, c, id, c.routes[id])
  }

  /** The router holds exactly the routes with these ids, each once. */
  ghost predicate RouterHolds(o: Options, engine: Engine, routes: seq<CompiledRoute>, ids: set<string>)
    requires ids <= o.routes.Keys
  {
    && (forall i :: 0 <= i < |routes| ==>
          routes[i].route.id in ids && CompileRoute(RouteFor(o, routes[i].route.id), engine) == Some(routes[i]))
    && (forall id :: id in ids ==> exists i :: 0 <= i < |routes| && routes[i].route.id == id)
    && (forall i, j :: 0 <= i < j < |routes| ==> routes[i].route.id != routes[j].route.id)
  }

  /** Everything but the routes. */
  ghost predicate PartsDone(defs: Definitions, o: Options, c: Chains) {
    && ByPriority(defs, o, ScopeGlobal, o.globalPlugins, c.global)
    && ServerDone(defs, o, c.server)
    && UpstreamsDone(defs, o, c.upstreams, o.upstreams.Keys)
    && ServicesDone(defs, o, c.upstreams, c.services, o.services.Keys)
  }

  /** A finished compile. */
  ghost predicate Compiled(defs: Definitions, o: Options, engine: Engine, c: Chains, routes: seq<CompiledRoute>) {
    && PartsDone(defs, o, c)
    && RoutesDone(defs, o, c, o.routes.Keys)
    && RouterHolds(o, engine, routes, o.routes.Keys)
  }

  // ---------------------------------------------------------------- the loops

  lemma {:induction false} UpstreamAdded(defs: Definitions, o: Options, ups: map<string, Upstream>, ids: set<string>,
                                         id: string, u: Upstream)
    requires UpstreamsDone(defs, o, ups, ids) && id in o.upstreams && UpstreamDone(defs, o, id, u)
    ensures UpstreamsDone(defs, o, ups[id := u], ids + {id})
  {
  }

  method CompileOneUpstream(registry: Registry, o: Options, id: string, ghost base: nat, ghost before: Owners)
    returns (ok: bool, u: Upstream, ghost owners: Owners)
    requires registry.Holding() && id in o.upstreams && id !in Ids(before, ScopeUpstream)
    requires Complete(registry.definitions, o, base, before, registry.made)
    modifies registry`closers, registry`made
    ensures registry.Holding() && Accounted(registry.definitions, o, base, owners, registry.made)
    ensures ok <==> UpstreamCompiles(registry.definitions, o, id)
    ensures ok ==> UpstreamDone(registry.definitions, o, id, u)
    ensures ok ==> Complete(registry.definitions, o, base, owners, registry.made)
    ensures owners == Then(before, Owner(ScopeUpstream, id))
  {
    var hs;
    ok, hs, owners := BuildFor(registry, o, Owner(ScopeUpstream, id), base, before);
    u := Upstream(id, o.upstreams[id], hs, []);
    if !ok { return; }
    var endpoints := BuildEndpoints(o.upstreams[id].endpoints);
    u := u.(endpoints := endpoints);
    ok := BalancerOk(o.upstreams[id]);
  }

  method CompileUpstreams(registry: Registry, o: Options, ghost base: nat, ghost before: Owners)
    returns (ok: bool, ups: map<string, Upstream>, ghost owners: Owners)
    requires registry.Holding() && Complete(registry.definitions, o, base, before, registry.made)
    requires Ids(before, ScopeUpstream) == {}
    modifies registry`closers, registry`made
    ensures registry.Holding() && Accounted(registry.definitions, o, base, owners, registry.made)
    ensures ok <==> forall id :: id in o.upstreams ==> UpstreamCompiles(registry.definitions, o, id)
    ensures ok ==> UpstreamsDone(registry.definitions, o, ups, o.upstreams.Keys)
    ensures ok ==> Complete(registry.definitions, o, base, owners, registry.made)
    ensures ok ==> Ids(owners, ScopeUpstream) == o.upstreams.Keys
    ensures Elsewhere(before, owners, ScopeUpstream)
  {
    ups, owners := map[], before;
    var done: set<string> := {};
    while o.upstreams.Keys - done != {}
      invariant registry.Holding() && done <= o.upstreams.Keys
      invariant Complete(registry.definitions, o, base, owners, registry.made)
      invariant Ids(owners, ScopeUpstream) == done && Elsewhere(before, owners, ScopeUpstream)
      invariant forall id :: id in done ==> UpstreamCompiles(registry.definitions, o, id)
      invariant UpstreamsDone(registry.definitions, o, ups, done)
      decreases o.upstreams.Keys - done
    {
      var id :| id in o.upstreams.Keys - done;
      var u;
      ok, u, owners := CompileOneUpstream(registry, o, id, base, owners);
      if !ok { return; }
      UpstreamAdded(registry.definitions, o, ups, done, id, u);
      ups, done := ups[id := u], done + {id};
    }
    NothingLeft(o.upstreams.Keys, done);
    ok := true;
  }

  lemma {:induction false} ServiceAdded(defs: Definitions, o: Options, ups: map<string, Upstream>,
                                        ss: map<string, Service>, ids: set<string>, id: string, s: Service)
    requires ServicesDone(defs, o, ups, ss, ids) && id in o.services && ServiceDone(defs, o, ups, id, s)
    ensures ServicesDone(defs, o, ups, ss[id := s], ids + {id})
  {
  }

  method CompileOneService(registry: Registry, o: Options, ups: map<string, Upstream>, id: string, ghost base: nat,
                           ghost before: Owners)
    returns (ok: bool, s: Service, ghost owners: Owners)
    requires registry.Holding() && id in o.services && id !in Ids(before, ScopeService)
    requires Complete(registry.definitions, o, base, before, registry.made)
    modifies registry`closers, registry`made
    ensures registry.Holding() && Accounted(registry.definitions, o, base, owners, registry.made)
    ensures ok <==> ServiceCompiles(registry.definitions, o, id)
    ensures ok ==> ServiceDone(registry.definitions, o, ups, id, s)
    ensures ok ==> Complete(registry.definitions, o, base, owners, registry.made)
    ensures owners == Then(before, Owner(ScopeService, id))
  {
    var hs;
    ok, hs, owners := BuildFor(registry, o, Owner(ScopeService, id), base, before);
    s := Service(id, o.services[id], hs, None, []);
    if !ok { return; }
    var upstream := Find(ups, o.services[id].upstream);
    s := s.(upstream := upstream, execution := Execution(hs, upstream));
  }

  method CompileServices(registry: Registry, o: Options, ups: map<string, Upstream>, ghost base: nat,
                         ghost before: Owners)
    returns (ok: bool, ss: map<string, Service>, ghost owners: Owners)
    requires registry.Holding() && Complete(registry.definitions, o, base, before, registry.made)
    requires Ids(before, ScopeService) == {}
    modifies registry`closers, registry`made
    ensures registry.Holding() && Accounted(registry.definitions, o, base, owners, registry.made)
    ensures ok <==> forall id :: id in o.services ==> ServiceCompiles(registry.definitions, o, id)
    ensures ok ==> ServicesDone(registry.definitions, o, ups, ss, o.services.Keys)
    ensures ok ==> Complete(registry.definitions, o, base, owners, registry.made)
    ensures ok ==> Ids(owners, ScopeService) == o.services.Keys
    ensures Elsewhere(before, owners, ScopeService)
  {
    ss, owners := map[], before;
    var done: set<string> := {};
    while o.services.Keys - done != {}
      invariant registry.Holding() && done <= o.services.Keys
      invariant Complete(registry.definitions, o, base, owners, registry.made)
      invariant Ids(owners, ScopeService) == done && Elsewhere(before, owners, ScopeService)
      invariant forall id :: id in done ==> ServiceCompiles(registry.definitions, o, id)
      invariant ServicesDone(registry.definitions, o, ups, ss, done)
      decreases o.services.Keys - done
    {
      var id :| id in o.services.Keys - done;
      var s;
      ok, s, owners := CompileOneService(registry, o, ups, id, base, owners);
      if !ok { return; }
      ServiceAdded(registry.definitions, o, ups, ss, done, id, s);
      ss, done := ss[id := s], done + {id};
    }
    NothingLeft(o.services.Keys, done);
    ok := true;
  }

  lemma {:induction false} RouterGrows(o: Options, engine: Engine, routes: seq<CompiledRoute>, ids: set<string>,
                                       id: string)
    requires ids <= o.routes.Keys && RouterHolds(o, engine, routes, ids)
    requires id in o.routes && id !in ids && CompileRoute(RouteFor(o, id), engine).Some?
    ensures RouterHolds(o, engine, routes + [CompileRoute(RouteFor(o, id), engine).value], ids + {id})
  {
    var r := CompileRoute(RouteFor(o, id), engine).value;
    assert r.route.id == id;
    var all := routes + [r];
    forall x | x in ids + {id} ensures exists i :: 0 <= i < |all| && all[i].route.id == x {
      if x in ids {
        var i :| 0 <= i < |routes| && routes[i].route.id == x;
        assert all[i].route.id == x;
      } else {
        assert all[|routes|].route.id == x;
      }
    }
  }

  lemma {:induction false} RouteAdded(defs: Definitions, o: Options, c: Chains, ids: set<string>, id: string,
                                      hs: seq<PluginHandler>, chain: seq<Handler>)
    requires RoutesDone(defs, o, c, ids) && id in o.routes && Buildable(defs, o, ScopeRoute, o.routes[id].plugins)
    requires ByPriority(defs, o, ScopeRoute, o.routes[id].plugins, hs)
    requires IsChain(c.global, c.server, hs, Find(c.services, o.routes[id].service), chain)
    ensures RoutesDone(defs, o, c.(routes := c.routes[id := chain]), ids + {id})
  {
    var c' := c.(routes := c.routes[id := chain]);
    forall x | x in ids + {id} ensures RouteDone(defs, o, c', x, c'.routes[x]) {
      if x != id { assert RouteDone(defs, o, c, x, c.routes[x]); }
    }
  }

  method AddToRouter(o: Options, router: Router.Router, id: string, ghost done: set<string>) returns (ok: bool)
    requires router.Valid() && id in o.routes && id !in done && done <= o.routes.Keys
    requires RouterHolds(o, router.engine, router.routes, done)
    modifies router
    ensures router.Valid()
    ensures ok <==> CompileRoute(RouteFor(o, id), router.engine).Some?
    ensures ok ==> RouterHolds(o, router.engine, router.routes, done + {id})
  {
    ghost var before := router.routes;
    ok := router.Add(RouteFor(o, id));
    if ok { RouterGrows(o, router.engine, before, done, id); }
  }

  method AddChain(registry: Registry, o: Options, base: Chains, id: string, ghost done: set<string>,
                  ghost made: nat, ghost before: Owners)
    returns (ok: bool, c: Chains, ghost owners: Owners)
    requires registry.Holding() && id in o.routes && RoutesDone(registry.definitions, o, base, done)
    requires Complete(registry.definitions, o, made, before, registry.made) && id !in Ids(before, ScopeRoute)
    modifies registry`closers, registry`made
    ensures registry.Holding() && Accounted(registry.definitions, o, made, owners, registry.made)
    ensures ok ==> Complete(registry.definitions, o, made, owners, registry.made)
    ensures owners == Then(before, Owner(ScopeRoute, id))
    ensures ok <==> Buildable(registry.definitions, o, ScopeRoute, o.routes[id].plugins)
    ensures c.(routes := map[]) == base.(routes := map[])
    ensures ok ==> RoutesDone(registry.definitions, o, c, done + {id})
  {
    c := base;
    var hs;
    ok, hs, owners := BuildFor(registry, o, Owner(ScopeRoute, id), made, before);
    if ok {
      var chain := RouteChain(c.global, c.server, hs, Find(c.services, o.routes[id].service));
      RouteAdded(registry.definitions, o, c, done, id, hs, chain);
      c := c.(routes := c.routes[id := chain]);
    }
  }

  /** The routes with these ids are in the router and have their chains. */
  ghost predicate RoutesSoFar(defs: Definitions, o: Options, engine: Engine, routes: seq<CompiledRoute>, c: Chains,
                              ids: set<string>) {
    ids <= o.routes.Keys && RoutesDone(defs, o, c, ids) && RouterHolds(o, engine, routes, ids)
  }

  lemma {:induction false} SoFarCompiles(defs: Definitions, o: Options, engine: Engine, routes: seq<CompiledRoute>,
                                         c: Chains, id: string)
    requires RoutesSoFar(defs, o, engine, routes, c, o.routes.Keys) && id in o.routes
    ensures RouteCompiles(defs, o, engine, id)
  {
    var i :| 0 <= i < |routes| && routes[i].route.id == id;
    assert RouteDone(defs, o, c, id, c.routes[id]);
  }

  lemma {:induction false} AllSoFarCompile(defs: Definitions, o: Options, engine: Engine, routes: seq<CompiledRoute>,
                                           c: Chains)
    requires RoutesSoFar(defs, o, engine, routes, c, o.routes.Keys)
    ensures forall id :: id in o.routes ==> RouteCompiles(defs, o, engine, id)
  {
    forall id | id in o.routes ensures RouteCompiles(defs, o, engine, id) {
      SoFarCompiles(defs, o, engine, routes, c, id);
    }
  }

  method CompileOneRoute(registry: Registry, o: Options, router: Router.Router, base: Chains, id: string,
                         ghost done: set<string>, ghost made: nat, ghost before: Owners)
    returns (ok: bool, c: Chains, ghost owners: Owners)
    requires registry.Holding() && router.Valid() && id in o.routes && id !in done
    requires RoutesSoFar(registry.definitions, o, router.engine, router.routes, base, done)
    requires Complete(registry.definitions, o, made, before, registry.made) && id !in Ids(before, ScopeRoute)
    modifies registry`closers, registry`made, router
    ensures registry.Holding() && router.Valid()
    ensures Accounted(registry.definitions, o, made, owners, registry.made)
    ensures ok ==> Complete(registry.definitions, o, made, owners, registry.made)
    ensures owners == Then(before, Owner(ScopeRoute, id)) || (!ok && owners == before)
    ensures ok <==> RouteCompiles(registry.definitions, o, router.engine, id)
    ensures c.(routes := map[]) == base.(routes := map[])
    ensures ok ==> RoutesSoFar(registry.definitions, o, router.engine, router.routes, c, done + {id})
  {
    c, owners := base, before;
    ok := AddToRouter(o, router, id, done);
    if !ok { return; }
    ok, c, owners := AddChain(registry, o, c, id, done, made, before);
  }

  method CompileRoutes(registry: Registry, o: Options, router: Router.Router, base: Chains, ghost made: nat,
                       ghost before: Owners)
    returns (ok: bool, c: Chains, ghost owners: Owners)
    requires registry.Holding() && router.Valid() && router.routes == [] && base.routes == map[]
    requires Complete(registry.definitions, o, made, before, registry.made)
    requires Ids(before, ScopeRoute) == {}
    modifies registry`closers, registry`made, router
    ensures registry.Holding() && router.Valid()
    ensures Accounted(registry.definitions, o, made, owners, registry.made)
    ensures ok ==> Complete(registry.definitions, o, made, owners, registry.made)
    ensures ok ==> Ids(owners, ScopeRoute) == o.routes.Keys
    ensures Elsewhere(before, owners, ScopeRoute)
    ensures ok ==> RoutesSoFar(registry.definitions, o, router.engine, router.routes, c, o.routes.Keys)
    ensures !ok ==> exists id :: id in o.routes && !RouteCompiles(registry.definitions, o, router.engine, id)
    ensures c.(routes := map[]) == base
  {
    c, owners := base, before;
    var done: set<string> := {};
    while o.routes.Keys - done != {}
      invariant registry.Holding() && router.Valid() && c.(routes := map[]) == base
      invariant Complete(registry.definitions, o, made, owners, registry.made)
      invariant Ids(owners, ScopeRoute) == done && Elsewhere(before, owners, ScopeRoute)
      invariant RoutesSoFar(registry.definitions, o, router.engine, router.routes, c, done)
      decreases o.routes.Keys - done
    {
      var id :| id in o.routes.Keys - done;
      ok, c, owners := CompileOneRoute(registry, o, router, c, id, done, made, owners);
      if !ok { return; }
      done := done + {id};
    }
    NothingLeft(o.routes.Keys, done);
    ok := true;
  }

  lemma {:induction false} NothingLeft(all: set<string>, done: set<string>)
    requires all - done == {} && done <= all
    ensures done == all
  {
    assert forall x :: x in all ==> x !in all - done;
  }

  method CompileServer(registry: Registry, o: Options, ghost base: nat, ghost before: Owners)
    returns (ok: bool, hs: seq<PluginHandler>, ghost owners: Owners)
    requires registry.Holding() && |o.servers| <= 1
    requires Complete(registry.definitions, o, base, before, registry.made)
    requires Ids(before, ScopeServer) == {}
    modifies registry`closers, registry`made
    ensures registry.Holding() && Accounted(registry.definitions, o, base, owners, registry.made)
    ensures ok ==> Complete(registry.definitions, o, base, owners, registry.made)
    ensures ok ==> Ids(owners, ScopeServer) == o.servers.Keys
    ensures Elsewhere(before, owners, ScopeServer)
    ensures ok <==> ServersCompile(registry.definitions, o)
    ensures ok ==> ServerDone(registry.definitions, o, hs)
  {
    if o.servers == map[] { return true, [], before; }
    var id :| id in o.servers;
    OnlyOne(o.servers, id);
    ok, hs, owners := BuildFor(registry, o, Owner(ScopeServer, id), base, before);
  }

  lemma {:induction false} OnlyOne<T>(m: map<string, T>, id: string)
    requires |m| <= 1 && id in m
    ensures forall x :: x in m <==> x == id
  {
    assert |m.Keys - {id}| == |m| - 1;
    assert m.Keys - {id} == {};
  }

  /** Compile after the registry has been made.  It accepts exactly the options that compile.  If it
      fails, the deferred Close has closed every closer received during the compile once, last
      first; if it succeeds, the snapshot owns them all and none has been closed.  What is received
      are the closers of the owners visited, each once: up to a failing one, or all there are. */
  method CompileWith(registry: Registry, o: Options, engine: Engine)
    returns (r: Option<Chains>, router: Router.Router, ghost owners: Owners)
    requires registry.Holding() && |o.servers| <= 1
    modifies registry`closers, registry`made, registry`closed
    ensures fresh(router) && router.Valid() && router.engine == engine
    ensures r.Some? <==> Compiles(registry.definitions, o, engine)
    ensures r.Some? ==> Compiled(registry.definitions, o, engine, r.value, router.routes)
    ensures r.Some? ==> registry.Holding()
    ensures r.None? ==> registry.closers == [] && registry.closed == Lifecycle.Reverse(Closers(registry.made))
    ensures Accounted(registry.definitions, o, old(registry.made), owners, registry.made)
    ensures r.Some? ==> Everyone(o, owners)
  {
    router := new Router.Router(engine);
    var ok, c;
    ok, c, owners := CompileAll(registry, o, router);
    if ok { return Some(c), router, owners; }
    registry.Close();
    return None, router, owners;
  }

  /** Every owner but the routes. */
  predicate PartsVisited(o: Options, t: Owners) {
    Ids(t, ScopeRoute) == {} && forall scope: Scope :: scope != ScopeRoute ==> Ids(t, scope) == IdsIn(o, scope)
  }

  lemma {:induction false} PartsAreVisited(o: Options, first: Owners, second: Owners, third: Owners, t: Owners)
    requires first == Then(Nobody, Owner(ScopeGlobal, ""))
    requires Ids(second, ScopeServer) == o.servers.Keys && Elsewhere(first, second, ScopeServer)
    requires Ids(third, ScopeUpstream) == o.upstreams.Keys && Elsewhere(second, third, ScopeUpstream)
    requires Ids(t, ScopeService) == o.services.Keys && Elsewhere(third, t, ScopeService)
    ensures PartsVisited(o, t)
  {
    assert Ids(first, ScopeGlobal) == {""} && Ids(first, ScopeRoute) == {};
    forall scope: Scope | scope != ScopeRoute ensures Ids(t, scope) == IdsIn(o, scope) {
      match scope {
        case ScopeGlobal => assert Ids(t, ScopeGlobal) == Ids(third, ScopeGlobal) == Ids(second, ScopeGlobal);
        case ScopeServer => assert Ids(t, ScopeServer) == Ids(third, ScopeServer) == Ids(second, ScopeServer);
        case ScopeUpstream => assert Ids(t, ScopeUpstream) == Ids(third, ScopeUpstream);
        case ScopeService =>
      }
    }
  }

  lemma {:induction false} EveryoneIsVisited(o: Options, before: Owners, t: Owners)
    requires PartsVisited(o, before) && Ids(t, ScopeRoute) == o.routes.Keys && Elsewhere(before, t, ScopeRoute)
    ensures Everyone(o, t)
  {
    forall scope: Scope ensures Ids(t, scope) == IdsIn(o, scope) {
      if scope != ScopeRoute { assert Ids(t, scope) == Ids(before, scope); }
    }
  }

  /** The global plugins and those of the server. */
  method CompileFront(registry: Registry, o: Options)
    returns (ok: bool, global: seq<PluginHandler>, server: seq<PluginHandler>, ghost first: Owners,
             ghost owners: Owners)
    requires registry.Holding() && |o.servers| <= 1
    modifies registry`closers, registry`made
    ensures registry.Holding() && Accounted(registry.definitions, o, old(registry.made), owners, registry.made)
    ensures ok <==> Buildable(registry.definitions, o, ScopeGlobal, o.globalPlugins) &&
                    ServersCompile(registry.definitions, o)
    ensures ok ==> ByPriority(registry.definitions, o, ScopeGlobal, o.globalPlugins, global)
    ensures ok ==> ServerDone(registry.definitions, o, server)
    ensures ok ==> Complete(registry.definitions, o, old(registry.made), owners, registry.made)
    ensures ok ==> first == Then(Nobody, Owner(ScopeGlobal, "")) && Ids(owners, ScopeServer) == o.servers.Keys
    ensures ok ==> Elsewhere(first, owners, ScopeServer)
    ensures ok ==> Ids(owners, ScopeUpstream) == {} && Ids(owners, ScopeService) == {}
  {
    server := [];
    ok, global, owners := BuildFor(registry, o, Owner(ScopeGlobal, ""), registry.made, Nobody);
    first := owners;
    if !ok { return; }
    ok, server, owners := CompileServer(registry, o, old(registry.made), owners);
  }

  method CompileParts(registry: Registry, o: Options) returns (ok: bool, c: Chains, ghost owners: Owners)
    requires registry.Holding() && |o.servers| <= 1
    modifies registry`closers, registry`made
    ensures registry.Holding() && c.routes == map[]
    ensures Accounted(registry.definitions, o, old(registry.made), owners, registry.made)
    ensures ok ==> Complete(registry.definitions, o, old(registry.made), owners, registry.made)
    ensures ok ==> PartsVisited(o, owners)
    ensures ok <==> PartsCompile(registry.definitions, o)
    ensures ok ==> PartsDone(registry.definitions, o, c)
  {
    c := Chains([], [], map[], map[], map[]);
    var global, server, ups, ss;
    ghost var base := registry.made;
    ghost var first;
    ok, global, server, first, owners := CompileFront(registry, o);
    if !ok { return; }
    ghost var second := owners;
    ok, ups, owners := CompileUpstreams(registry, o, base, owners);
    if !ok { return; }
    ghost var third := owners;
    ok, ss, owners := CompileServices(registry, o, ups, base, owners);
    if !ok { return; }
    PartsAreVisited(o, first, second, third, owners);
    c := Chains(global, server, map[], ss, ups);
  }

  method CompileAll(registry: Registry, o: Options, router: Router.Router)
    returns (ok: bool, c: Chains, ghost owners: Owners)
    requires registry.Holding() && |o.servers| <= 1 && router.Valid() && router.routes == []
    modifies registry`closers, registry`made, router
    ensures registry.Holding() && router.Valid()
    ensures ok <==> Compiles(registry.definitions, o, router.engine)
    ensures ok ==> Compiled(registry.definitions, o, router.engine, c, router.routes)
    ensures Accounted(registry.definitions, o, old(registry.made), owners, registry.made)
    ensures ok ==> Everyone(o, owners)
  {
    ok, c, owners := CompileParts(registry, o);
    if !ok { return; }
    ghost var base, before := c, owners;
    ok, c, owners := CompileRoutes(registry, o, router, c, old(registry.made), owners);
    assert c.(routes := map[]) == base;
    if ok {
      EveryoneIsVisited(o, before, owners);
      AllSoFarCompile(registry.definitions, o, router.engine, router.routes, c);
    }
  }

  /** Compile refuses more than one server before it makes a registry; a registry factory that
      fails leaves nothing to close. */
  method CompileOptions(o: Options, engine: Engine, made: Option<Registry>)
    returns (r: Option<Chains>, router: Router.Router?, ghost owners: Owners)
    requires made.Some? ==> made.value.Holding()
    modifies if made.Some? then {made.value} else {}
    ensures r.Some? <==> |o.servers| <= 1 && made.Some? && Compiles(made.value.definitions, o, engine)
    ensures r.Some? ==> router != null && router.Valid()
    ensures r.Some? ==> Compiled(made.value.definitions, o, engine, r.value, router.routes)
    ensures r.Some? ==> made.value.Holding()
    ensures |o.servers| > 1 && made.Some? ==> unchanged(made.value)
    ensures r.None? && |o.servers| <= 1 && made.Some? ==>
              made.value.closers == [] && made.value.closed == Lifecycle.Reverse(Closers(made.value.made))
    ensures |o.servers| <= 1 && made.Some? ==>
              Accounted(made.value.definitions, o, old(made.value.made), owners, made.value.made)
    ensures r.Some? ==> Everyone(o, owners)
  {
    if |o.servers| > 1 || made.None? { return None, null, Nobody; }
    r, router, owners := CompileWith(made.value, o, engine);
  }

  // ---------------------------------------------------------------- no dangling dispatch

  /** Where a request on the route goes: through the three lists of plugins, then to the service,
      then through the service's and the upstream's plugins to the upstream. */
  ghost predicate Reaches(defs: Definitions, o: Options, c: Chains, id: string, s: Service, u: Upstream)
    requires id in o.routes
  {
    && id in c.routes && o.routes[id].service in c.services && s == c.services[o.routes[id].service]
    && RouteDone(defs, o, c, id, c.routes[id])
    && c.routes[id] != [] && c.routes[id][|c.routes[id]| - 1] == Dispatch(Some(s))
    && s.upstream == Some(u) && s.options.upstream in c.upstreams && u == c.upstreams[s.options.upstream]
    && IsExecution(s.handlers, s.upstream, s.execution)
  }

  /** Every route that Match can return, on options that Validate accepts, has a chain that ends in
      a service with an upstream. */
  lemma {:induction false} NoDanglingDispatch(defs: Definitions, o: Options, loggingOk: LoggingOptions -> bool,
                                              engine: Engine,
                           c: Chains, routes: seq<CompiledRoute>, i: nat)
    requires Accepted(o, loggingOk) && Compiled(defs, o, engine, c, routes) && i < |routes|
    ensures var id := routes[i].route.id;
            && id in o.routes && routes[i].route == RouteFor(o, id)
            && o.routes[id].service in c.services
            && var s := c.services[o.routes[id].service];
               s.upstream.Some? && Reaches(defs, o, c, id, s, s.upstream.value)
  {
    RouteOfRouter(o, engine, routes, i);
    ReachesUpstream(defs, o, loggingOk, c, routes[i].route.id);
  }

  lemma {:induction false} RouteOfRouter(o: Options, engine: Engine, routes: seq<CompiledRoute>, i: nat)
    requires RouterHolds(o, engine, routes, o.routes.Keys) && i < |routes|
    ensures routes[i].route.id in o.routes && routes[i].route == RouteFor(o, routes[i].route.id)
  {
    assert CompileRoute(RouteFor(o, routes[i].route.id), engine) == Some(routes[i]);
  }

  lemma {:induction false} ReachesUpstream(defs: Definitions, o: Options, loggingOk: LoggingOptions -> bool, c: Chains,
                                           id: string)
    requires Accepted(o, loggingOk) && PartsDone(defs, o, c) && RoutesDone(defs, o, c, o.routes.Keys)
    requires id in o.routes
    ensures o.routes[id].service in c.services
    ensures var s := c.services[o.routes[id].service];
            s.upstream.Some? && Reaches(defs, o, c, id, s, s.upstream.value)
  {
    assert RouteOk(o, id);
    ServiceHasUpstream(defs, o, loggingOk, c, o.routes[id].service);
    ChainEnds(defs, o, c, id);
  }

  lemma {:induction false} ServiceHasUpstream(defs: Definitions, o: Options, loggingOk: LoggingOptions -> bool,
                                              c: Chains, sid: string)
    requires Accepted(o, loggingOk) && sid in o.services
    requires UpstreamsDone(defs, o, c.upstreams, o.upstreams.Keys)
    requires ServicesDone(defs, o, c.upstreams, c.services, o.services.Keys)
    ensures var s := c.services[sid];
            && s.options.upstream in c.upstreams && s.upstream == Some(c.upstreams[s.options.upstream])
            && IsExecution(s.handlers, s.upstream, s.execution)
  {
    assert ServiceOk(o, sid) && ServiceDone(defs, o, c.upstreams, sid, c.services[sid]);
  }

  lemma {:induction false} ChainEnds(defs: Definitions, o: Options, c: Chains, id: string)
    requires RoutesDone(defs, o, c, o.routes.Keys) && id in o.routes
    ensures RouteDone(defs, o, c, id, c.routes[id])
    ensures c.routes[id] != [] && c.routes[id][|c.routes[id]| - 1] == Dispatch(Find(c.services, o.routes[id].service))
  {
    assert RouteDone(defs, o, c, id, c.routes[id]);
  }

  /** And the balancer of that upstream picks one of its configured endpoints, whatever the ticket. */
  lemma {:induction false} PickIsConfigured(defs: Definitions, o: Options, loggingOk: LoggingOptions -> bool,
                                            c: Chains, engine: Engine,
                         routes: seq<CompiledRoute>, uid: string, ticket: nat, r: RoundRobin.PickResult)
    requires Accepted(o, loggingOk) && Compiled(defs, o, engine, c, routes) && uid in c.upstreams
    requires c.upstreams[uid].endpoints != [] ==> RoundRobin.Outcome(c.upstreams[uid].endpoints, ticket, r)
    ensures var es := c.upstreams[uid].endpoints;
            && uid in o.upstreams && es != [] && r.Picked?
            && r.index == RoundRobin.Slot(ticket, 0, |es|) < |o.upstreams[uid].endpoints| == |es|
            && es[r.index].address == o.upstreams[uid].endpoints[r.index].address != ""
  {
    var u := c.upstreams[uid];
    assert UpstreamDone(defs, o, uid, u) && UpstreamOk(o, uid);
    assert RoundRobin.AllAvailable(u.endpoints);
    RoundRobin.AvailablePick(u.endpoints, ticket, r);
  }

  /** Any route of the router has its chain, its service and its upstream. */
  lemma {:induction false} AnswerIsServed(defs: Definitions, o: Options, loggingOk: LoggingOptions -> bool,
                                          engine: Engine, c: Chains, routes: seq<CompiledRoute>, route: RouteOptions)
    requires Accepted(o, loggingOk) && Compiled(defs, o, engine, c, routes)
    requires exists i: nat :: i < |routes| && route == routes[i].route
    ensures route.id in c.routes && c.routes[route.id] != [] && Served(defs, o, c, route, c.routes[route.id])
  {
    var i: nat :| i < |routes| && route == routes[i].route;
    NoDanglingDispatch(defs, o, loggingOk, engine, c, routes, i);
  }

  /** What the answer of Match means for the options: the router holds their routes and no others. */
  lemma {:induction false} AnswerOverOptions(o: Options, engine: Engine, routes: seq<CompiledRoute>, fast: bool,
                                             q: Request, found: bool, route: RouteOptions)
    requires RouterHolds(o, engine, routes, o.routes.Keys)
    requires Router.AnswersText(routes, engine, fast, q, found, route)
    ensures found <==> exists id :: id in o.routes && Fits(RouteFor(o, id), fast, q, engine)
    ensures found ==> Fits(route, fast, q, engine)
  {
    forall i | 0 <= i < |routes|
      ensures routes[i].route.id in o.routes && RouteFor(o, routes[i].route.id) == routes[i].route
    {
      RouteOfRouter(o, engine, routes, i);
    }
    if id :| id in o.routes && Fits(RouteFor(o, id), fast, q, engine) {
      var i :| 0 <= i < |routes| && routes[i].route.id == id;
      assert Fits(routes[i].route, fast, q, engine);
    }
  }

  /** The chain of a route of the router, and where it leads. */
  ghost predicate Served(defs: Definitions, o: Options, c: Chains, route: RouteOptions, chain: seq<Handler>) {
    && route.id in o.routes && route == RouteFor(o, route.id) && route.service in c.services
    && route.id in c.routes && chain == c.routes[route.id]
    && var s := c.services[route.service];
       s.upstream.Some? && Reaches(defs, o, c, route.id, s, s.upstream.value)
  }

  /** What ServeHTTP does with a request on an acquired snapshot. */
  datatype Reply = NotFound | Unavailable | Handled(route: RouteOptions, chain: seq<Handler>)

  /** Match, with its answer related to the options. */
  method MatchOptions(router: Router.Router, verb: string, host: string, path: string, ghost o: Options)
    returns (found: bool, route: RouteOptions)
    requires router.Valid() && RouterHolds(o, router.engine, router.routes, o.routes.Keys)
    ensures var fast, q := router.fastEnabled && host == "", Request(Upper(verb), host, path);
            && Router.Answers(router.routes, router.engine, fast, q, found, route)
            && (found <==> exists id :: id in o.routes && Fits(RouteFor(o, id), fast, q, router.engine))
            && (found ==> Fits(route, fast, q, router.engine))
    ensures found ==> exists i: nat :: i < |router.routes| && route == router.routes[i].route
  {
    found, route := router.Match(verb, host, path);
    AnswerOverOptions(o, router.engine, router.routes, router.fastEnabled && host == "",
                      Request(Upper(verb), host, path), found, route);
  }

  /** On accepted options that compiled, a request is answered with 404 exactly if no route of the
      options fits it, and never with 503 for want of handlers: it gets the chain of the route that
      Match finds, which fits and reaches the service and its upstream. */
  method Serve(router: Router.Router, c: Chains, verb: string, host: string, path: string, ghost defs: Definitions,
               ghost o: Options, ghost loggingOk: LoggingOptions -> bool)
    returns (r: Reply)
    requires router.Valid() && Accepted(o, loggingOk) && Compiled(defs, o, router.engine, c, router.routes)
    ensures !r.Unavailable?
    ensures r.Handled? ==> Router.Answers(router.routes, router.engine, router.fastEnabled && host == "",
                                          Request(Upper(verb), host, path), true, r.route)
    ensures var fast, q := router.fastEnabled && host == "", Request(Upper(verb), host, path);
            && (r.NotFound? <==> forall id :: id in o.routes ==> !Fits(RouteFor(o, id), fast, q, router.engine))
            && (r.Handled? ==> Fits(r.route, fast, q, router.engine))
    ensures r.Handled? ==> Served(defs, o, c, r.route, r.chain)
  {
    var found, route := MatchOptions(router, verb, host, path, o);
    if !found { return NotFound; }
    AnswerIsServed(defs, o, loggingOk, router.engine, c, router.routes, route);
    if route.id !in c.routes || c.routes[route.id] == [] { return Unavailable; }
    return Handled(route, c.routes[route.id]);
  }
}
