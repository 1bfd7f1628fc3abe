/**
 ApisixSnapshotToConfig of internal/translate/apisix_to_config.go: a snapshot of APISIX resources
 becomes gateway options.  Go visits maps in an unspecified order, so the order in which each map
 is visited is a parameter here.
 */
module Translate {
  import opened Config

  datatype Upstream = Upstream(id: string, scheme: string, passHost: string, upstreamHost: string,
                               timeout: TimeoutOptions, nodes: string)

  datatype Service = Service(id: string, upstreamId: string, pluginConfigId: string, inline: Option<Upstream>,
                             plugins: string)

  datatype Route = Route(id: string, uri: string, uris: seq<string>, hosts: seq<string>, methods: seq<string>,
                         serviceId: string, upstreamId: string, pluginConfigId: string, inline: Option<Upstream>,
                         plugins: string, priority: int)

  datatype Snapshot = Snapshot(routes: map<string, Route>, services: map<string, Service>,
                               upstreams: map<string, Upstream>)

  /** The translations taken as fixed functions: nodes to endpoints, a plugin_config id with inline
      plugins to plugin refs, a uri to a path pattern.  Each but the last may fail. */
  datatype Env = Env(endpoints: string -> Option<seq<EndpointOptions>>,
                     plugins: (string, string) -> Option<seq<PluginRef>>,
                     path: string -> string)

  datatype Out = Out(upstreams: map<string, UpstreamOptions>, services: map<string, ServiceOptions>,
                     routes: map<string, RouteOptions>)

  const SERVICE: string := "service-"
  const ROUTE_UPSTREAM: string := "upstream-route-"
  const SERVICE_UPSTREAM: string := "upstream-service-"

  // ---------------------------------------------------------------- single resources

  function Named(id: string, fallback: string): string {
    if id == "" then fallback else id
  }

  /** apisixUpstreamToConfig. */
  function UpstreamConfig(env: Env, up: Upstream): Option<UpstreamOptions> {
    var endpoints := env.endpoints(up.nodes);
    if endpoints.None? then None
    else Some(UpstreamOptions(Named(up.id, "upstream"), "", up.scheme, up.passHost, up.upstreamHost,
                              endpoints.value, [], up.timeout))
  }

  function PathsOf(env: Env, uris: seq<string>): seq<string> {
    if uris == [] then []
    else (if uris[0] == "" then [] else [env.path(uris[0])]) + PathsOf(env, uris[1..])
  }

  /** apisixRouteToConfig, before the service is known; the route's priority is not carried over. */
  function RouteConfig(env: Env, r: Route): Option<RouteOptions> {
    var paths := PathsOf(env, [r.uri] + r.uris);
    var plugins := env.plugins(r.pluginConfigId, r.plugins);
    if paths == [] || plugins.None? then None
    else Some(RouteOptions(Named(r.id, "route"), "", r.hosts, r.methods, paths, plugins.value, 0))
  }

  // ---------------------------------------------------------------- the three loops

  predicate SchemeOk(scheme: string) {
    scheme in {"", "http", "https"}
  }

  function AddUpstream(snap: Snapshot, env: Env, out: Out, id: string): Out
    requires id in snap.upstreams
  {
    var up := UpstreamConfig(env, snap.upstreams[id]);
    if up.None? || !SchemeOk(up.value.scheme) then out
    else out.(upstreams := out.upstreams[id := up.value])
  }

  /** The id of the upstream a service uses; empty if it has none. */
  function ServiceUpstreamId(s: Service): string {
    if s.upstreamId == "" && s.inline.Some? then SERVICE_UPSTREAM + Named(s.id, "service") else s.upstreamId
  }

  /** apisixServiceToConfig also stores an inline upstream, and does so before it looks at plugins. */
  function StoreInline(env: Env, ups: map<string, UpstreamOptions>, s: Service): Option<map<string, UpstreamOptions>> {
    if s.upstreamId == "" && s.inline.Some? then
      var up := UpstreamConfig(env, s.inline.value);
      if up.None? then None else Some(ups[ServiceUpstreamId(s) := up.value.(id := ServiceUpstreamId(s))])
    else Some(ups)
  }

  function AddService(snap: Snapshot, env: Env, out: Out, id: string): Out
    requires id in snap.services
  {
    var s := snap.services[id];
    var ups := StoreInline(env, out.upstreams, s);
    if ups.None? then out
    else
      var stored := out.(upstreams := ups.value);
      var uid := ServiceUpstreamId(s);
      var plugins := env.plugins(s.pluginConfigId, s.plugins);
      if uid == "" || plugins.None? || uid !in stored.upstreams then stored
      else stored.(services := stored.services[id :=
        ServiceOptions(Named(s.id, "service"), "http", uid, plugins.value, stored.upstreams[uid].timeout)])
  }

  /** The service synthesized for an upstream that a route names directly. */
  function DirectService(uid: string, timeout: TimeoutOptions): ServiceOptions {
    ServiceOptions(SERVICE + uid, "http", uid, [], timeout)
  }

  function AddRoute(snap: Snapshot, env: Env, out: Out, id: string): Out
    requires id in snap.routes
  {
    var r := snap.routes[id];
    var rt := RouteConfig(env, r);
    if rt.None? then out
    else if r.serviceId != "" then
      if r.serviceId !in out.services then out
      else out.(routes := out.routes[id := rt.value.(service := r.serviceId)])
    else if r.upstreamId != "" then
      if r.upstreamId !in out.upstreams then out
      else
        var sid := SERVICE + r.upstreamId;
        var services := if sid in out.services then out.services
                        else out.services[sid := DirectService(r.upstreamId, out.upstreams[r.upstreamId].timeout)];
        out.(services := services, routes := out.routes[id := rt.value.(service := sid)])
    else if r.inline.Some? then
      var up := UpstreamConfig(env, r.inline.value);
      if up.None? then out
      else
        var uid := ROUTE_UPSTREAM + id;
        var sid := SERVICE + uid;
        Out(out.upstreams[uid := up.value.(id := uid)],
            out.services[sid := DirectService(uid, up.value.timeout)],
            out.routes[id := rt.value.(service := sid)])
    else out
  }

  /** Every key once, in some order. */
  ghost predicate Visits(order: seq<string>, keys: set<string>) {
    && (forall id :: id in order <==> id in keys)
    && (forall i, j :: 0 <= i < j < |order| ==> order[i] != order[j])
  }

  datatype Orders = Orders(upstreams: seq<string>, services: seq<string>, routes: seq<string>)

  ghost predicate ValidOrders(snap: Snapshot, o: Orders) {
    && Visits(o.upstreams, snap.upstreams.Keys)
    && Visits(o.services, snap.services.Keys)
    && Visits(o.routes, snap.routes.Keys)
  }

  predicate Within(order: seq<string>, keys: set<string>) {
    forall i :: 0 <= i < |order| ==> order[i] in keys
  }

  function AddUpstreams(snap: Snapshot, env: Env, order: seq<string>): Out
    requires Within(order, snap.upstreams.Keys)
  {
    if order == [] then Out(map[], map[], map[])
    else AddUpstream(snap, env, AddUpstreams(snap, env, order[..|order| - 1]), order[|order| - 1])
  }

  function AddServices(snap: Snapshot, env: Env, start: Out, order: seq<string>): Out
    requires Within(order, snap.services.Keys)
  {
    if order == [] then start
    else AddService(snap, env, AddServices(snap, env, start, order[..|order| - 1]), order[|order| - 1])
  }

  function AddRoutes(snap: Snapshot, env: Env, start: Out, order: seq<string>): Out
    requires Within(order, snap.routes.Keys)
  {
    if order == [] then start
    else AddRoute(snap, env, AddRoutes(snap, env, start, order[..|order| - 1]), order[|order| - 1])
  }

  /** What has been built when Options.Validate is called. */
  ghost function Built(snap: Snapshot, env: Env, o: Orders): Out
    requires ValidOrders(snap, o)
  {
    AddRoutes(snap, env, AddServices(snap, env, AddUpstreams(snap, env, o.upstreams), o.services), o.routes)
  }

  // ---------------------------------------------------------------- references are closed

  /** Route to service to upstream. */
  predicate Closed(out: Out) {
    && (forall id :: id in out.services ==>
          out.services[id].upstream != "" && out.services[id].upstream in out.upstreams)
    && (forall id :: id in out.routes ==>
          out.routes[id].paths != [] && out.routes[id].service != "" && out.routes[id].service in out.services)
  }

  lemma {:induction false} AddServiceCloses(snap: Snapshot, env: Env, out: Out, id: string)
    requires id in snap.services && Closed(out)
    ensures Closed(AddService(snap, env, out, id))
  {
  }

  lemma {:induction false} AddRouteCloses(snap: Snapshot, env: Env, out: Out, id: string)
    requires id in snap.routes && Closed(out)
    ensures Closed(AddRoute(snap, env, out, id))
  {
  }

  lemma {:induction false} AddUpstreamsClosed(snap: Snapshot, env: Env, order: seq<string>)
    requires Within(order, snap.upstreams.Keys)
    ensures Closed(AddUpstreams(snap, env, order))
    ensures AddUpstreams(snap, env, order).services == map[] && AddUpstreams(snap, env, order).routes == map[]
  {
    if order != [] { AddUpstreamsClosed(snap, env, order[..|order| - 1]); }
  }

  lemma {:induction false} AddServicesClosed(snap: Snapshot, env: Env, start: Out, order: seq<string>)
    requires Within(order, snap.services.Keys) && Closed(start)
    ensures Closed(AddServices(snap, env, start, order))
  {
    if order != [] {
      AddServicesClosed(snap, env, start, order[..|order| - 1]);
      AddServiceCloses(snap, env, AddServices(snap, env, start, order[..|order| - 1]), order[|order| - 1]);
    }
  }

  lemma {:induction false} AddRoutesClosed(snap: Snapshot, env: Env, start: Out, order: seq<string>)
    requires Within(order, snap.routes.Keys) && Closed(start)
    ensures Closed(AddRoutes(snap, env, start, order))
  {
    if order != [] {
      AddRoutesClosed(snap, env, start, order[..|order| - 1]);
      AddRouteCloses(snap, env, AddRoutes(snap, env, start, order[..|order| - 1]), order[|order| - 1]);
    }
  }

  /** Whatever the snapshot and whatever the order, the references of the result are closed. */
  lemma {:induction false} BuiltIsClosed(snap: Snapshot, env: Env, o: Orders)
    requires ValidOrders(snap, o)
    ensures Closed(Built(snap, env, o))
  {
    AddUpstreamsClosed(snap, env, o.upstreams);
    AddServicesClosed(snap, env, AddUpstreams(snap, env, o.upstreams), o.services);
    AddRoutesClosed(snap, env, AddServices(snap, env, AddUpstreams(snap, env, o.upstreams), o.services), o.routes);
  }

  // ---------------------------------------------------------------- ApisixSnapshotToConfig

  function OptionsOf(out: Out, listen: string, global: seq<PluginRef>, logging: LoggingOptions): Options {
    Options(map["main" := ServerOptions("main", listen, [])], out.routes, out.services, out.upstreams, map[], logging,
            global)
  }

  /** What is left for Validate to refuse: never a reference between resources, only plugin refs and
      the shape of an upstream. */
  lemma {:induction false} ValidateSeesShapesOnly(out: Out, listen: string, global: seq<PluginRef>,
                                                  logging: LoggingOptions,
                               loggingOk: LoggingOptions -> bool)
    requires Closed(out) && listen != ""
    ensures var opts := OptionsOf(out, listen, global, logging);
            Accepted(opts, loggingOk) <==>
            && loggingOk(logging) && RefsResolve(opts, global)
            && (forall id :: id in out.upstreams ==> UpstreamOk(opts, id))
            && (forall id :: id in out.services ==> RefsResolve(opts, out.services[id].plugins))
            && (forall id :: id in out.routes ==> RefsResolve(opts, out.routes[id].plugins))
  {
    var opts := OptionsOf(out, listen, global, logging);
    assert "main" in opts.servers && opts.servers != map[];
    assert ServerOk(opts, "main");
  }

  method VisitUpstreams(snap: Snapshot, env: Env, order: seq<string>) returns (out: Out)
    requires Within(order, snap.upstreams.Keys)
    ensures out == AddUpstreams(snap, env, order)
  {
    out := Out(map[], map[], map[]);
    for i := 0 to |order|
      invariant out == AddUpstreams(snap, env, order[..i])
    {
      assert order[..i + 1][..i] == order[..i];
      out := AddUpstream(snap, env, out, order[i]);
    }
    assert order[..|order|] == order;
  }

  method VisitServices(snap: Snapshot, env: Env, start: Out, order: seq<string>) returns (out: Out)
    requires Within(order, snap.services.Keys)
    ensures out == AddServices(snap, env, start, order)
  {
    out := start;
    for i := 0 to |order|
      invariant out == AddServices(snap, env, start, order[..i])
    {
      assert order[..i + 1][..i] == order[..i];
      out := AddService(snap, env, out, order[i]);
    }
    assert order[..|order|] == order;
  }

  method VisitRoutes(snap: Snapshot, env: Env, start: Out, order: seq<string>) returns (out: Out)
    requires Within(order, snap.routes.Keys)
    ensures out == AddRoutes(snap, env, start, order)
  {
    out := start;
    for i := 0 to |order|
      invariant out == AddRoutes(snap, env, start, order[..i])
    {
      assert order[..i + 1][..i] == order[..i];
      out := AddRoute(snap, env, out, order[i]);
    }
    assert order[..|order|] == order;
  }

  /** The translation: three loops, then Validate. */
  method ApisixSnapshotToConfig(snap: Snapshot, env: Env, o: Orders, listen: string, global: Option<seq<PluginRef>>,
                                logging: LoggingOptions, loggingOk: LoggingOptions -> bool)
    returns (r: Option<Options>)
    requires ValidOrders(snap, o)
    ensures r.Some? <==> listen != "" && global.Some? &&
                         Accepted(OptionsOf(Built(snap, env, o), listen, global.value, logging), loggingOk)
    ensures r.Some? ==> r.value == OptionsOf(Built(snap, env, o), listen, global.value, logging)
    ensures r.Some? ==>
              var out := Built(snap, env, o);
              && r.value.servers == map["main" := ServerOptions("main", listen, [])]
              && r.value.globalPlugins == global.value && r.value.logging == logging && r.value.plugins == map[]
              && r.value.routes == out.routes && r.value.services == out.services && r.value.upstreams == out.upstreams
  {
    if listen == "" || global.None? { return None; }
    var first := VisitUpstreams(snap, env, o.upstreams);
    var second := VisitServices(snap, env, first, o.services);
    var out := VisitRoutes(snap, env, second, o.routes);
    var opts := OptionsOf(out, listen, global.value, logging);
    var ok := Validate(opts, loggingOk);
    if !ok { return None; }
    return Some(opts);
  }
}
