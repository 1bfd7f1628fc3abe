/**
 The compiled-in configuration model of internal/config/options.go and Options.Validate.
 */
module Config {

  datatype Option<+T> = None | Some(value: T)

  datatype PluginRef = PluginRef(use: string, name: string, params: string)
  datatype PluginOptions = PluginOptions(id: string, name: string, params: string)
  datatype TimeoutOptions = TimeoutOptions(connect: int, read: int, write: int)
  datatype EndpointOptions = EndpointOptions(address: string, weight: nat)
  datatype ServerOptions = ServerOptions(id: string, listen: string, plugins: seq<PluginRef>)
  datatype LoggingOptions = LoggingOptions(level: string, format: string)

  datatype RouteOptions = RouteOptions(
    id: string, service: string, hosts: seq<string>, methods: seq<string>,
    paths: seq<string>, plugins: seq<PluginRef>, priority: int)

  datatype ServiceOptions = ServiceOptions(
    id: string, protocol: string, upstream: string, plugins: seq<PluginRef>, timeout: TimeoutOptions)

  datatype UpstreamOptions = UpstreamOptions(
    id: string, balancer: string, scheme: string, passHost: string, upstreamHost: string,
    endpoints: seq<EndpointOptions>, plugins: seq<PluginRef>, timeout: TimeoutOptions)

  datatype Options = Options(
    servers: map<string, ServerOptions>,
    routes: map<string, RouteOptions>,
    services: map<string, ServiceOptions>,
    upstreams: map<string, UpstreamOptions>,
    plugins: map<string, PluginOptions>,
    logging: LoggingOptions,
    globalPlugins: seq<PluginRef>)

  // ---------------------------------------------------------------- what Validate promises

  predicate RefsResolve(o: Options, refs: seq<PluginRef>) {
    forall k :: 0 <= k < |refs| ==> if refs[k].use != "" then refs[k].use in o.plugins else refs[k].name != ""
  }

  predicate ServerOk(o: Options, id: string)
    requires id in o.servers
  {
    o.servers[id].listen != "" && RefsResolve(o, o.servers[id].plugins)
  }

  predicate RouteOk(o: Options, id: string)
    requires id in o.routes
  {
    var r := o.routes[id];
    r.paths != [] && r.service != "" && r.service in o.services && RefsResolve(o, r.plugins)
  }

  predicate ServiceOk(o: Options, id: string)
    requires id in o.services
  {
    var s := o.services[id];
    s.upstream != "" && s.upstream in o.upstreams && RefsResolve(o, s.plugins)
  }

  predicate UpstreamShapeOk(u: UpstreamOptions) {
    && u.endpoints != []
    && u.scheme in {"", "http", "https"}
    && u.passHost in {"", "pass", "node", "rewrite"}
    && (u.passHost == "rewrite" ==> u.upstreamHost != "")
    && (forall k :: 0 <= k < |u.endpoints| ==> u.endpoints[k].address != "")
  }

  predicate UpstreamOk(o: Options, id: string)
    requires id in o.upstreams
  {
    UpstreamShapeOk(o.upstreams[id]) && RefsResolve(o, o.upstreams[id].plugins)
  }

  /** The options Validate accepts; `loggingOk` stands for LoggingOptions.Validate. */
  predicate Accepted(o: Options, loggingOk: LoggingOptions -> bool) {
    && o.servers != map[]
    && loggingOk(o.logging)
    && RefsResolve(o, o.globalPlugins)
    && (forall id :: id in o.servers ==> ServerOk(o, id))
    && (forall id :: id in o.routes ==> RouteOk(o, id))
    && (forall id :: id in o.services ==> ServiceOk(o, id))
    && (forall id :: id in o.upstreams ==> UpstreamOk(o, id))
  }

  // ---------------------------------------------------------------- Validate, with its loops

  method ValidatePluginRefs(o: Options, refs: seq<PluginRef>) returns (ok: bool)
    ensures ok <==> RefsResolve(o, refs)
  {
    for k := 0 to |refs|
      invariant RefsResolve(o, refs[..k])
    {
      var ref := refs[k];
      assert refs[..k + 1] == refs[..k] + [ref];
      if ref.use != "" {
        if ref.use !in o.plugins { return false; }
      } else if ref.name == "" {
        return false;
      }
    }
    assert refs[..|refs|] == refs;
    return true;
  }

  method ValidateUpstreamShape(u: UpstreamOptions) returns (ok: bool)
    ensures ok <==> UpstreamShapeOk(u)
  {
    if |u.endpoints| == 0 || u.scheme !in {"", "http", "https"} { return false; }
    if u.passHost !in {"", "pass", "node", "rewrite"} { return false; }
    if u.passHost == "rewrite" && u.upstreamHost == "" { return false; }
    for k := 0 to |u.endpoints|
      invariant forall j :: 0 <= j < k ==> u.endpoints[j].address != ""
    {
      if u.endpoints[k].address == "" { return false; }
    }
    return true;
  }

  /** Options.Validate: the maps are walked in an arbitrary order, with early returns. */
  method Validate(o: Options, loggingOk: LoggingOptions -> bool) returns (ok: bool)
    ensures ok <==> Accepted(o, loggingOk)
  {
    if o.servers == map[] || !loggingOk(o.logging) { return false; }
    var todo := o.servers.Keys;
    while todo != {}
      invariant todo <= o.servers.Keys
      invariant forall id :: id in o.servers && id !in todo ==> ServerOk(o, id)
    {
      var id :| id in todo;
      if o.servers[id].listen == "" { return false; }
      var refsOk := ValidatePluginRefs(o, o.servers[id].plugins);
      if !refsOk { return false; }
      todo := todo - {id};
    }
    var globalOk := ValidatePluginRefs(o, o.globalPlugins);
    if !globalOk { return false; }
    todo := o.routes.Keys;
    while todo != {}
      invariant todo <= o.routes.Keys
      invariant forall id :: id in o.routes && id !in todo ==> RouteOk(o, id)
    {
      var id :| id in todo;
      var r := o.routes[id];
      if |r.paths| == 0 || r.service == "" || r.service !in o.services { return false; }
      var refsOk := ValidatePluginRefs(o, r.plugins);
      if !refsOk { return false; }
      todo := todo - {id};
    }
    todo := o.services.Keys;
    while todo != {}
      invariant todo <= o.services.Keys
      invariant forall id :: id in o.services && id !in todo ==> ServiceOk(o, id)
    {
      var id :| id in todo;
      var s := o.services[id];
      if s.upstream == "" || s.upstream !in o.upstreams { return false; }
      var refsOk := ValidatePluginRefs(o, s.plugins);
      if !refsOk { return false; }
      todo := todo - {id};
    }
    todo := o.upstreams.Keys;
    while todo != {}
      invariant todo <= o.upstreams.Keys
      invariant forall id :: id in o.upstreams && id !in todo ==> UpstreamOk(o, id)
    {
      var id :| id in todo;
      var shapeOk := ValidateUpstreamShape(o.upstreams[id]);
      if !shapeOk { return false; }
      var refsOk := ValidatePluginRefs(o, o.upstreams[id].plugins);
      if !refsOk { return false; }
      todo := todo - {id};
    }
    return true;
  }
}
