/**
 What the translation of a snapshot means: what is built, key by key, whatever the order in which
 Go visits the maps.
 */
module TranslateMeaning {
  import opened Config
  import opened Text
  import opened Translate

  lemma {:induction false} PrefixOf(p: string, s: string)
    ensures HasPrefix(p + s, p) && (p + s)[|p|..] == s
    ensures HasPrefix(s, p) ==> p + s[|p|..] == s
  {
  }

  lemma {:induction false} PrefixesDiffer(s: string)
    ensures !(HasPrefix(s, ROUTE_UPSTREAM) && HasPrefix(s, SERVICE_UPSTREAM))
  {
    if HasPrefix(s, ROUTE_UPSTREAM) { assert s[9] == 'r'; }
    if HasPrefix(s, SERVICE_UPSTREAM) { assert s[9] == 's'; }
  }

  // ---------------------------------------------------------------- the denotation

  function Declared(snap: Snapshot, env: Env, id: string): Option<UpstreamOptions> {
    if id !in snap.upstreams then None
    else
      var up := UpstreamConfig(env, snap.upstreams[id]);
      if up.Some? && SchemeOk(up.value.scheme) then up else None
  }

  /** The upstream a service stands for: the one it names, else its inline one. */
  function ServiceMeans(snap: Snapshot, env: Env, id: string): Option<UpstreamOptions> {
    if id !in snap.services then None
    else
      var s := snap.services[id];
      if s.upstreamId != "" then Declared(snap, env, s.upstreamId)
      else if s.inline.Some? then UpstreamConfig(env, s.inline.value)
      else None
  }

  predicate ServiceKept(snap: Snapshot, env: Env, id: string) {
    && ServiceMeans(snap, env, id).Some?
    && env.plugins(snap.services[id].pluginConfigId, snap.services[id].plugins).Some?
  }

  /** The upstream a route denotes: that of its service, else the one it names, else its inline one. */
  function RouteMeans(snap: Snapshot, env: Env, id: string): Option<UpstreamOptions> {
    if id !in snap.routes then None
    else
      var r := snap.routes[id];
      if r.serviceId != "" then
        if ServiceKept(snap, env, r.serviceId) then ServiceMeans(snap, env, r.serviceId) else None
      else if r.upstreamId != "" then Declared(snap, env, r.upstreamId)
      else if r.inline.Some? then UpstreamConfig(env, r.inline.value)
      else None
  }

  /** Equal up to the name. */
  predicate SameUpstream(a: UpstreamOptions, b: UpstreamOptions) {
    a.(id := "") == b.(id := "")
  }

  // ---------------------------------------------------------------- inline upstreams

  /** The inline upstream of a service, as stored. */
  function StoredByService(snap: Snapshot, env: Env, id: string): Option<UpstreamOptions> {
    if id !in snap.services then None
    else
      var s := snap.services[id];
      if s.upstreamId == "" && s.inline.Some? && UpstreamConfig(env, s.inline.value).Some?
      then Some(UpstreamConfig(env, s.inline.value).value.(id := ServiceUpstreamId(s))) else None
  }

  /** Service k stores its inline upstream under the id. */
  predicate StoresAs(snap: Snapshot, env: Env, k: string, id: string) {
    StoredByService(snap, env, k).Some? && ServiceUpstreamId(snap.services[k]) == id
  }

  /** Some service in `ss` stores its inline upstream under the id. */
  predicate StoredIn(snap: Snapshot, env: Env, ss: set<string>, id: string) {
    exists k :: k in ss && StoresAs(snap, env, k, id)
  }

  /** The inline upstream of a route, as stored. */
  function StoredByRoute(snap: Snapshot, env: Env, id: string): Option<UpstreamOptions> {
    if id !in snap.routes then None
    else
      var r := snap.routes[id];
      if RouteConfig(env, r).Some? && r.serviceId == "" && r.upstreamId == "" && r.inline.Some? &&
         UpstreamConfig(env, r.inline.value).Some?
      then Some(UpstreamConfig(env, r.inline.value).value.(id := ROUTE_UPSTREAM + id)) else None
  }

  /** The inline upstream that a route in `rs` stores under the id. */
  function RouteInline(snap: Snapshot, env: Env, rs: set<string>, id: string): Option<UpstreamOptions> {
    if HasPrefix(id, ROUTE_UPSTREAM) && id[|ROUTE_UPSTREAM|..] in rs
    then StoredByRoute(snap, env, id[|ROUTE_UPSTREAM|..]) else None
  }

  // ---------------------------------------------------------------- what is built, key by key

  /** What is stored under an id once the services in `ss` and the routes in `rs` have been visited:
      under the name of a service's inline upstream, that of some service with this name. */
  ghost predicate UpstreamAt(snap: Snapshot, env: Env, ss: set<string>, rs: set<string>, id: string,
                             v: Option<UpstreamOptions>) {
    if StoredIn(snap, env, ss, id)
    then exists k :: k in ss && StoresAs(snap, env, k, id) && StoredByService(snap, env, k) == v
    else if RouteInline(snap, env, rs, id).Some? then v == RouteInline(snap, env, rs, id)
    else v == Declared(snap, env, id)
  }

  /** What a declared service becomes, given what it finds under its upstream id. */
  function ServiceFrom(snap: Snapshot, env: Env, k: string, found: Option<UpstreamOptions>): Option<ServiceOptions>
    requires k in snap.services
  {
    var s := snap.services[k];
    var plugins := env.plugins(s.pluginConfigId, s.plugins);
    if found.None? || plugins.None? then None
    else Some(ServiceOptions(Named(s.id, "service"), "http", ServiceUpstreamId(s), plugins.value, found.value.timeout))
  }

  /** The declared service under k once the services in `ss` have been visited, k last: one with an
      inline upstream finds its own, any other what is there under the id it names. */
  ghost predicate DeclaredAt(snap: Snapshot, env: Env, ss: set<string>, k: string, v: Option<ServiceOptions>)
    requires k in snap.services
  {
    var s := snap.services[k];
    if s.upstreamId == "" then v == ServiceFrom(snap, env, k, StoredByService(snap, env, k))
    else exists found :: UpstreamAt(snap, env, ss, {}, s.upstreamId, found) && v == ServiceFrom(snap, env, k, found)
  }

  /** The upstream is there before the first route is visited. */
  predicate Available(snap: Snapshot, env: Env, uid: string) {
    Declared(snap, env, uid).Some? || StoredIn(snap, env, snap.services.Keys, uid)
  }

  /** The route goes straight to an upstream that is there before the first route is visited. */
  predicate UsesDirectly(snap: Snapshot, env: Env, id: string, uid: string) {
    && id in snap.routes && snap.routes[id].serviceId == "" && snap.routes[id].upstreamId == uid != ""
    && RouteConfig(env, snap.routes[id]).Some? && Available(snap, env, uid)
  }

  /** Some route in `rs` goes straight to the upstream that the service id is synthesized for. */
  predicate NamedDirectly(snap: Snapshot, env: Env, rs: set<string>, id: string) {
    HasPrefix(id, SERVICE) && exists r :: r in rs && UsesDirectly(snap, env, r, id[|SERVICE|..])
  }

  /** Some route in `rs` has an inline upstream that the service id is synthesized for. */
  predicate Replaced(snap: Snapshot, env: Env, rs: set<string>, id: string) {
    HasPrefix(id, SERVICE) && RouteInline(snap, env, rs, id[|SERVICE|..]).Some?
  }

  /** The service synthesized under an id. */
  function Synthesized(ups: map<string, UpstreamOptions>, id: string): Option<ServiceOptions> {
    if HasPrefix(id, SERVICE) && id[|SERVICE|..] in ups
    then Some(DirectService(id[|SERVICE|..], ups[id[|SERVICE|..]].timeout)) else None
  }

  /** The service under an id, given the declared ones: an inline route's replaces a declared one, and
      a declared one stays where a route that names an upstream would add one. */
  function ServiceAt(snap: Snapshot, env: Env, declared: map<string, ServiceOptions>, rs: set<string>,
                     ups: map<string, UpstreamOptions>, id: string): Option<ServiceOptions>
  {
    if Replaced(snap, env, rs, id) then Synthesized(ups, id)
    else if id in declared then Some(declared[id])
    else if NamedDirectly(snap, env, rs, id) then Synthesized(ups, id)
    else None
  }

  /** Routes in `rs` synthesize a service under the id. */
  predicate SynthesizedBy(snap: Snapshot, env: Env, rs: set<string>, id: string) {
    Replaced(snap, env, rs, id) || NamedDirectly(snap, env, rs, id)
  }

  /** The service id that a route is given. */
  function TargetOf(r: Route, id: string): string {
    if r.serviceId != "" then r.serviceId
    else if r.upstreamId != "" then SERVICE + r.upstreamId
    else SERVICE + (ROUTE_UPSTREAM + id)
  }

  /** The route translates, and what it refers to is there once the routes in `rs` were visited. */
  predicate Enters(snap: Snapshot, env: Env, declared: map<string, ServiceOptions>, rs: set<string>, id: string) {
    id in snap.routes && RouteConfig(env, snap.routes[id]).Some? &&
    var r := snap.routes[id];
    if r.serviceId != "" then r.serviceId in declared || SynthesizedBy(snap, env, rs, r.serviceId)
    else if r.upstreamId != "" then
      Available(snap, env, r.upstreamId) || RouteInline(snap, env, rs, r.upstreamId).Some?
    else StoredByRoute(snap, env, id).Some?
  }

  /** What a route becomes if it is visited after those in `rs`. */
  function RouteAfter(snap: Snapshot, env: Env, declared: map<string, ServiceOptions>, rs: set<string>, id: string):
    Option<RouteOptions>
  {
    if Enters(snap, env, declared, rs, id)
    then Some(RouteConfig(env, snap.routes[id]).value.(service := TargetOf(snap.routes[id], id))) else None
  }

  function At<T>(m: map<string, T>, id: string): Option<T> {
    if id in m then Some(m[id]) else None
  }

  ghost predicate UpstreamsSoFar(snap: Snapshot, env: Env, ss: set<string>, rs: set<string>,
                                 ups: map<string, UpstreamOptions>) {
    forall id :: UpstreamAt(snap, env, ss, rs, id, At(ups, id))
  }

  ghost predicate ServicesSoFar(snap: Snapshot, env: Env, declared: map<string, ServiceOptions>, rs: set<string>,
                                out: Out) {
    forall id :: At(out.services, id) == ServiceAt(snap, env, declared, rs, out.upstreams, id)
  }

  /** In the route loop, with all services visited. */
  ghost predicate SoFar(snap: Snapshot, env: Env, declared: map<string, ServiceOptions>, rs: set<string>, out: Out) {
    && UpstreamsSoFar(snap, env, snap.services.Keys, rs, out.upstreams)
    && ServicesSoFar(snap, env, declared, rs, out)
  }

  // ---------------------------------------------------------------- the upstream loop

  lemma {:induction false} UpstreamsBuilt(snap: Snapshot, env: Env, order: seq<string>, id: string)
    requires Within(order, snap.upstreams.Keys)
    ensures var out := AddUpstreams(snap, env, order);
            At(out.upstreams, id) == if id in order then Declared(snap, env, id) else None
  {
    if order != [] {
      var n := |order| - 1;
      UpstreamsBuilt(snap, env, order[..n], id);
      assert id in order <==> id in order[..n] || id == order[n];
    }
  }

  lemma {:induction false} AfterUpstreams(snap: Snapshot, env: Env, o: Orders)
    requires ValidOrders(snap, o)
    ensures UpstreamsSoFar(snap, env, {}, {}, AddUpstreams(snap, env, o.upstreams).upstreams)
  {
    var out := AddUpstreams(snap, env, o.upstreams);
    forall id ensures UpstreamAt(snap, env, {}, {}, id, At(out.upstreams, id)) {
      UpstreamsBuilt(snap, env, o.upstreams, id);
    }
  }

  // ---------------------------------------------------------------- the service loop

  lemma {:induction false} ServiceStores(snap: Snapshot, env: Env, out: Out, k: string)
    requires k in snap.services
    ensures AddService(snap, env, out, k).upstreams ==
            if StoredByService(snap, env, k).Some?
            then out.upstreams[ServiceUpstreamId(snap.services[k]) := StoredByService(snap, env, k).value]
            else out.upstreams
  {
  }

  lemma {:induction false} StoredName(snap: Snapshot, env: Env, k: string)
    requires StoredByService(snap, env, k).Some?
    ensures var uid := ServiceUpstreamId(snap.services[k]); HasPrefix(uid, SERVICE_UPSTREAM) && uid != ""
  {
    PrefixOf(SERVICE_UPSTREAM, Named(snap.services[k].id, "service"));
  }

  lemma {:induction false} ServiceStepUpstreamAt(snap: Snapshot, env: Env, ss: set<string>, out: Out, k: string,
                                                 id: string)
    requires k in snap.services && UpstreamAt(snap, env, ss, {}, id, At(out.upstreams, id))
    ensures UpstreamAt(snap, env, ss + {k}, {}, id, At(AddService(snap, env, out, k).upstreams, id))
  {
    ServiceStores(snap, env, out, k);
    if StoresAs(snap, env, k, id) {
      assert k in ss + {k};
    } else if StoredIn(snap, env, ss, id) {
      var j :| j in ss && StoresAs(snap, env, j, id) && StoredByService(snap, env, j) == At(out.upstreams, id);
      assert j in ss + {k};
    }
  }

  lemma {:induction false} ServiceStepUpstreams(snap: Snapshot, env: Env, ss: set<string>, out: Out, k: string)
    requires k in snap.services && UpstreamsSoFar(snap, env, ss, {}, out.upstreams)
    ensures UpstreamsSoFar(snap, env, ss + {k}, {}, AddService(snap, env, out, k).upstreams)
  {
    forall id ensures UpstreamAt(snap, env, ss + {k}, {}, id, At(AddService(snap, env, out, k).upstreams, id)) {
      assert UpstreamAt(snap, env, ss, {}, id, At(out.upstreams, id));
      ServiceStepUpstreamAt(snap, env, ss, out, k, id);
    }
  }

  /** A declared service is decided by what it finds. */
  lemma {:induction false} ServiceStepHere(snap: Snapshot, env: Env, ss: set<string>, out: Out, k: string)
    requires k in snap.services && k !in out.services && UpstreamsSoFar(snap, env, ss, {}, out.upstreams)
    ensures DeclaredAt(snap, env, ss + {k}, k, At(AddService(snap, env, out, k).services, k))
  {
    var s, after := snap.services[k], AddService(snap, env, out, k);
    ServiceStores(snap, env, out, k);
    if s.upstreamId != "" {
      assert UpstreamAt(snap, env, ss, {}, s.upstreamId, At(out.upstreams, s.upstreamId));
      ServiceStepUpstreamAt(snap, env, ss, out, k, s.upstreamId);
      assert At(after.services, k) == ServiceFrom(snap, env, k, At(after.upstreams, s.upstreamId));
    } else {
      StoredFound(snap, env, out, k);
    }
  }

  lemma {:induction false} StoredFound(snap: Snapshot, env: Env, out: Out, k: string)
    requires k in snap.services && k !in out.services && snap.services[k].upstreamId == ""
    ensures At(AddService(snap, env, out, k).services, k) ==
            ServiceFrom(snap, env, k, StoredByService(snap, env, k))
  {
    if StoredByService(snap, env, k).Some? { StoredName(snap, env, k); }
  }

  predicate Distinct(order: seq<string>) {
    forall i, j :: 0 <= i < j < |order| ==> order[i] != order[j]
  }

  function Members(order: seq<string>): set<string> {
    set id | id in order
  }

  lemma {:induction false} MembersSnoc(order: seq<string>)
    requires order != [] && Distinct(order)
    ensures var n := |order| - 1; order[n] !in Members(order[..n]) && Members(order) == Members(order[..n]) + {order[n]}
  {
  }

  lemma {:induction false} AfterServices(snap: Snapshot, env: Env, start: Out, order: seq<string>)
    requires UpstreamsSoFar(snap, env, {}, {}, start.upstreams)
    requires Within(order, snap.services.Keys) && Distinct(order)
    ensures UpstreamsSoFar(snap, env, Members(order), {}, AddServices(snap, env, start, order).upstreams)
  {
    if order == [] {
      assert Members(order) == {};
    } else {
      var n := |order| - 1;
      AfterServices(snap, env, start, order[..n]);
      MembersSnoc(order);
      ServiceStepUpstreams(snap, env, Members(order[..n]), AddServices(snap, env, start, order[..n]), order[n]);
    }
  }

  lemma {:induction false} OtherServiceStays(snap: Snapshot, env: Env, out: Out, k: string, id: string)
    requires k in snap.services && id != k
    ensures At(AddService(snap, env, out, k).services, id) == At(out.services, id)
  {
  }

  lemma {:induction false} UnvisitedService(snap: Snapshot, env: Env, start: Out, order: seq<string>, id: string)
    requires Within(order, snap.services.Keys) && id !in order && id !in start.services
    ensures id !in AddServices(snap, env, start, order).services
  {
    if order != [] {
      var n := |order| - 1;
      UnvisitedService(snap, env, start, order[..n], id);
      OtherServiceStays(snap, env, AddServices(snap, env, start, order[..n]), order[n], id);
    }
  }

  /** A service is decided when it is visited. */
  lemma {:induction false} ServiceIsDecided(snap: Snapshot, env: Env, start: Out, order: seq<string>, i: nat)
    requires UpstreamsSoFar(snap, env, {}, {}, start.upstreams) && start.services == map[]
    requires Within(order, snap.services.Keys) && Distinct(order) && i < |order|
    ensures DeclaredAt(snap, env, Members(order[..i + 1]), order[i],
                       At(AddServices(snap, env, start, order).services, order[i]))
  {
    var n := |order| - 1;
    if i < n {
      ServiceIsDecided(snap, env, start, order[..n], i);
      assert order[..n][..i + 1] == order[..i + 1];
      OtherServiceStays(snap, env, AddServices(snap, env, start, order[..n]), order[n], order[i]);
    } else {
      AfterServices(snap, env, start, order[..n]);
      UnvisitedService(snap, env, start, order[..n], order[n]);
      MembersSnoc(order);
      assert order[..i + 1] == order;
      ServiceStepHere(snap, env, Members(order[..n]), AddServices(snap, env, start, order[..n]), order[n]);
    }
  }

  // ---------------------------------------------------------------- the route loop

  lemma {:induction false} RouteStores(snap: Snapshot, env: Env, out: Out, k: string)
    requires k in snap.routes
    ensures AddRoute(snap, env, out, k).upstreams ==
            if StoredByRoute(snap, env, k).Some?
            then out.upstreams[ROUTE_UPSTREAM + k := StoredByRoute(snap, env, k).value] else out.upstreams
  {
  }

  /** No service stores its inline upstream under the name of a route's. */
  lemma {:induction false} RouteNameIsFree(snap: Snapshot, env: Env, ss: set<string>, k: string)
    ensures !StoredIn(snap, env, ss, ROUTE_UPSTREAM + k)
  {
    PrefixOf(ROUTE_UPSTREAM, k);
    PrefixesDiffer(ROUTE_UPSTREAM + k);
    forall j | j in ss && StoredByService(snap, env, j).Some?
      ensures ServiceUpstreamId(snap.services[j]) != ROUTE_UPSTREAM + k
    {
      StoredName(snap, env, j);
    }
  }

  /** One more route stores under its own name only. */
  lemma {:induction false} RouteInlineSnoc(snap: Snapshot, env: Env, rs: set<string>, k: string, id: string)
    ensures RouteInline(snap, env, rs + {k}, id) ==
            if id == ROUTE_UPSTREAM + k then StoredByRoute(snap, env, k) else RouteInline(snap, env, rs, id)
  {
    PrefixOf(ROUTE_UPSTREAM, k);
    PrefixOf(ROUTE_UPSTREAM, id);
  }

  lemma {:induction false} RouteStepUpstreams(snap: Snapshot, env: Env, ss: set<string>, rs: set<string>, out: Out,
                                              k: string)
    requires k in snap.routes && k !in rs && UpstreamsSoFar(snap, env, ss, rs, out.upstreams)
    ensures UpstreamsSoFar(snap, env, ss, rs + {k}, AddRoute(snap, env, out, k).upstreams)
  {
    var ups := AddRoute(snap, env, out, k).upstreams;
    RouteStores(snap, env, out, k);
    RouteNameIsFree(snap, env, ss, k);
    PrefixOf(ROUTE_UPSTREAM, k);
    forall id ensures UpstreamAt(snap, env, ss, rs + {k}, id, At(ups, id)) {
      RouteInlineSnoc(snap, env, rs, k, id);
      assert UpstreamAt(snap, env, ss, rs, id, At(out.upstreams, id));
    }
  }

  /** One more route replaces its own service only. */
  lemma {:induction false} ReplacedSnoc(snap: Snapshot, env: Env, rs: set<string>, k: string, id: string)
    ensures Replaced(snap, env, rs + {k}, id) <==>
            if id == SERVICE + (ROUTE_UPSTREAM + k) then StoredByRoute(snap, env, k).Some?
            else Replaced(snap, env, rs, id)
  {
    PrefixOf(SERVICE, ROUTE_UPSTREAM + k);
    PrefixOf(SERVICE, id);
    if HasPrefix(id, SERVICE) { RouteInlineSnoc(snap, env, rs, k, id[|SERVICE|..]); }
  }

  lemma {:induction false} NamedDirectlySnoc(snap: Snapshot, env: Env, rs: set<string>, k: string, id: string)
    ensures NamedDirectly(snap, env, rs + {k}, id) <==>
            NamedDirectly(snap, env, rs, id) || (HasPrefix(id, SERVICE) && UsesDirectly(snap, env, k, id[|SERVICE|..]))
  {
    assert k in rs + {k};
    if HasPrefix(id, SERVICE) {
      if r :| r in rs && UsesDirectly(snap, env, r, id[|SERVICE|..]) { assert r in rs + {k}; }
    }
  }

  lemma {:induction false} InlineAdds(snap: Snapshot, env: Env, out: Out, k: string)
    requires k in snap.routes && StoredByRoute(snap, env, k).Some?
    ensures var uid, up, after := ROUTE_UPSTREAM + k, StoredByRoute(snap, env, k).value, AddRoute(snap, env, out, k);
            && after.services == out.services[SERVICE + uid := DirectService(uid, up.timeout)]
            && after.upstreams == out.upstreams[uid := up]
  {
  }

  /** A route with an inline upstream adds or replaces its own service. */
  lemma {:induction false} InlineStep(snap: Snapshot, env: Env, d: map<string, ServiceOptions>, rs: set<string>,
                                      out: Out, k: string, id: string)
    requires k in snap.routes && StoredByRoute(snap, env, k).Some?
    requires At(out.services, id) == ServiceAt(snap, env, d, rs, out.upstreams, id)
    ensures var after := AddRoute(snap, env, out, k);
            At(after.services, id) == ServiceAt(snap, env, d, rs + {k}, after.upstreams, id)
  {
    PrefixOf(SERVICE, ROUTE_UPSTREAM + k);
    PrefixOf(SERVICE, id);
    ReplacedSnoc(snap, env, rs, k, id);
    NamedDirectlySnoc(snap, env, rs, k, id);
    InlineAdds(snap, env, out, k);
  }

  /** A route that names an upstream adds a service for it unless there is one under that name. */
  lemma {:induction false} DirectStep(snap: Snapshot, env: Env, d: map<string, ServiceOptions>, rs: set<string>,
                                      out: Out, k: string, id: string)
    requires k in snap.routes && UsesDirectly(snap, env, k, snap.routes[k].upstreamId)
    requires SoFar(snap, env, d, rs, out)
    ensures var after := AddRoute(snap, env, out, k);
            At(after.services, id) == ServiceAt(snap, env, d, rs + {k}, after.upstreams, id)
  {
    var uid, ss := snap.routes[k].upstreamId, snap.services.Keys;
    var sid := SERVICE + uid;
    PrefixOf(SERVICE, uid);
    PrefixOf(SERVICE, id);
    assert UpstreamAt(snap, env, ss, rs, uid, At(out.upstreams, uid));
    assert At(out.services, sid) == ServiceAt(snap, env, d, rs, out.upstreams, sid);
    assert At(out.services, id) == ServiceAt(snap, env, d, rs, out.upstreams, id);
    assert StoredByRoute(snap, env, k) == None;
    ReplacedSnoc(snap, env, rs, k, id);
    NamedDirectlySnoc(snap, env, rs, k, id);
  }

  /** Any other route adds no service. */
  lemma {:induction false} OtherStep(snap: Snapshot, env: Env, d: map<string, ServiceOptions>, rs: set<string>,
                                     out: Out, k: string, id: string)
    requires k in snap.routes && StoredByRoute(snap, env, k).None?
    requires !UsesDirectly(snap, env, k, snap.routes[k].upstreamId)
    requires SoFar(snap, env, d, rs, out)
    ensures AddRoute(snap, env, out, k).services == out.services
    ensures ServiceAt(snap, env, d, rs + {k}, out.upstreams, id) ==
            ServiceAt(snap, env, d, rs, out.upstreams, id)
  {
    var uid, ss := snap.routes[k].upstreamId, snap.services.Keys;
    var sid := SERVICE + uid;
    PrefixOf(SERVICE, uid);
    assert UpstreamAt(snap, env, ss, rs, uid, At(out.upstreams, uid));
    assert At(out.services, sid) == ServiceAt(snap, env, d, rs, out.upstreams, sid);
    ReplacedSnoc(snap, env, rs, k, id);
    NamedDirectlySnoc(snap, env, rs, k, id);
  }

  lemma {:induction false} RouteStepServices(snap: Snapshot, env: Env, d: map<string, ServiceOptions>,
                                             rs: set<string>, out: Out, k: string)
    requires k in snap.routes && SoFar(snap, env, d, rs, out)
    ensures ServicesSoFar(snap, env, d, rs + {k}, AddRoute(snap, env, out, k))
  {
    var after := AddRoute(snap, env, out, k);
    RouteStores(snap, env, out, k);
    forall id ensures At(after.services, id) == ServiceAt(snap, env, d, rs + {k}, after.upstreams, id) {
      assert At(out.services, id) == ServiceAt(snap, env, d, rs, out.upstreams, id);
      if StoredByRoute(snap, env, k).Some? {
        InlineStep(snap, env, d, rs, out, k, id);
      } else if UsesDirectly(snap, env, k, snap.routes[k].upstreamId) {
        DirectStep(snap, env, d, rs, out, k, id);
      } else {
        OtherStep(snap, env, d, rs, out, k, id);
      }
    }
  }

  lemma {:induction false} AfterRoutes(snap: Snapshot, env: Env, d: map<string, ServiceOptions>, start: Out,
                                       order: seq<string>)
    requires SoFar(snap, env, d, {}, start)
    requires Within(order, snap.routes.Keys) && Distinct(order)
    ensures SoFar(snap, env, d, Members(order), AddRoutes(snap, env, start, order))
  {
    if order == [] {
      assert Members(order) == {};
    } else {
      var n := |order| - 1;
      var k, before := order[n], AddRoutes(snap, env, start, order[..n]);
      AfterRoutes(snap, env, d, start, order[..n]);
      MembersSnoc(order);
      RouteStepUpstreams(snap, env, snap.services.Keys, Members(order[..n]), before, k);
      RouteStepServices(snap, env, d, Members(order[..n]), before, k);
    }
  }

  // ---------------------------------------------------------------- the routes themselves

  lemma {:induction false} SynthesizedIsThere(snap: Snapshot, env: Env, d: map<string, ServiceOptions>,
                                              rs: set<string>, out: Out, sid: string)
    requires SoFar(snap, env, d, rs, out)
    ensures SynthesizedBy(snap, env, rs, sid) ==> Synthesized(out.upstreams, sid).Some?
    ensures sid in out.services <==> sid in d || SynthesizedBy(snap, env, rs, sid)
  {
    assert At(out.services, sid) == ServiceAt(snap, env, d, rs, out.upstreams, sid);
    if HasPrefix(sid, SERVICE) {
      var uid := sid[|SERVICE|..];
      assert UpstreamAt(snap, env, snap.services.Keys, rs, uid, At(out.upstreams, uid));
    }
  }

  /** When it is visited, a route is kept or dropped by what is there. */
  lemma {:induction false} RouteStepHere(snap: Snapshot, env: Env, d: map<string, ServiceOptions>, rs: set<string>,
                                         out: Out, k: string)
    requires k in snap.routes && At(out.routes, k) == None && SoFar(snap, env, d, rs, out)
    ensures At(AddRoute(snap, env, out, k).routes, k) == RouteAfter(snap, env, d, rs, k)
  {
    var r := snap.routes[k];
    if r.serviceId != "" {
      SynthesizedIsThere(snap, env, d, rs, out, r.serviceId);
    } else if r.upstreamId != "" {
      assert UpstreamAt(snap, env, snap.services.Keys, rs, r.upstreamId, At(out.upstreams, r.upstreamId));
    }
  }

  lemma {:induction false} OtherRouteStays(snap: Snapshot, env: Env, out: Out, k: string, id: string)
    requires k in snap.routes && id != k
    ensures At(AddRoute(snap, env, out, k).routes, id) == At(out.routes, id)
  {
  }

  lemma {:induction false} UnvisitedRoute(snap: Snapshot, env: Env, start: Out, order: seq<string>, id: string)
    requires Within(order, snap.routes.Keys) && id !in order && id !in start.routes
    ensures id !in AddRoutes(snap, env, start, order).routes
  {
    if order != [] { UnvisitedRoute(snap, env, start, order[..|order| - 1], id); }
  }

  lemma {:induction false} ServicesAddNoRoute(snap: Snapshot, env: Env, start: Out, order: seq<string>)
    requires Within(order, snap.services.Keys)
    ensures AddServices(snap, env, start, order).routes == start.routes
  {
    if order != [] { ServicesAddNoRoute(snap, env, start, order[..|order| - 1]); }
  }

  /** A route is decided when it is visited. */
  lemma {:induction false} RoutesAreFinished(snap: Snapshot, env: Env, d: map<string, ServiceOptions>, start: Out,
                                             order: seq<string>, i: nat)
    requires SoFar(snap, env, d, {}, start) && start.routes == map[]
    requires Within(order, snap.routes.Keys) && Distinct(order) && i < |order|
    ensures At(AddRoutes(snap, env, start, order).routes, order[i]) ==
            RouteAfter(snap, env, d, Members(order[..i]), order[i])
  {
    var n := |order| - 1;
    var before := AddRoutes(snap, env, start, order[..n]);
    if i < n {
      RoutesAreFinished(snap, env, d, start, order[..n], i);
      assert order[..n][..i] == order[..i];
      OtherRouteStays(snap, env, before, order[n], order[i]);
    } else {
      AfterRoutes(snap, env, d, start, order[..n]);
      UnvisitedRoute(snap, env, start, order[..n], order[n]);
      RouteStepHere(snap, env, d, Members(order[..n]), before, order[n]);
    }
  }

  // ---------------------------------------------------------------- all together

  /** What has been built before the first route is visited. */
  ghost function BeforeRoutes(snap: Snapshot, env: Env, o: Orders): Out
    requires ValidOrders(snap, o)
  {
    AddServices(snap, env, AddUpstreams(snap, env, o.upstreams), o.services)
  }

  /** The declared services, each decided by the services visited before it. */
  ghost predicate DeclaredIn(snap: Snapshot, env: Env, order: seq<string>, d: map<string, ServiceOptions>)
    requires Within(order, snap.services.Keys)
  {
    && (forall i :: 0 <= i < |order| ==>
          DeclaredAt(snap, env, Members(order[..i + 1]), order[i], At(d, order[i])))
    && (forall id :: id in d ==> id in snap.services)
  }

  /** What is built, key by key: the declared services by the services visited before, the routes by
      the routes visited before. */
  ghost predicate Finished(snap: Snapshot, env: Env, o: Orders, d: map<string, ServiceOptions>, out: Out)
    requires ValidOrders(snap, o)
  {
    && DeclaredIn(snap, env, o.services, d)
    && SoFar(snap, env, d, snap.routes.Keys, out) && Closed(out)
    && (forall i :: 0 <= i < |o.routes| ==>
          At(out.routes, o.routes[i]) == RouteAfter(snap, env, d, Members(o.routes[..i]), o.routes[i]))
    && (forall id :: id in out.routes ==> id in snap.routes)
  }

  lemma {:induction false} ServicesAreFinished(snap: Snapshot, env: Env, o: Orders)
    requires ValidOrders(snap, o)
    ensures var out := BeforeRoutes(snap, env, o);
            DeclaredIn(snap, env, o.services, out.services) && SoFar(snap, env, out.services, {}, out)
  {
    var first, out := AddUpstreams(snap, env, o.upstreams), BeforeRoutes(snap, env, o);
    AfterUpstreams(snap, env, o);
    AddUpstreamsClosed(snap, env, o.upstreams);
    AfterServices(snap, env, first, o.services);
    assert Members(o.services) == snap.services.Keys;
    forall i | 0 <= i < |o.services|
      ensures DeclaredAt(snap, env, Members(o.services[..i + 1]), o.services[i], At(out.services, o.services[i]))
    {
      ServiceIsDecided(snap, env, first, o.services, i);
    }
    forall id | id !in snap.services ensures id !in out.services {
      UnvisitedService(snap, env, first, o.services, id);
    }
  }

  lemma {:induction false} BuiltIsFinished(snap: Snapshot, env: Env, o: Orders)
    requires ValidOrders(snap, o)
    ensures Finished(snap, env, o, BeforeRoutes(snap, env, o).services, Built(snap, env, o))
  {
    var before := BeforeRoutes(snap, env, o);
    BuiltIsClosed(snap, env, o);
    ServicesAreFinished(snap, env, o);
    AddUpstreamsClosed(snap, env, o.upstreams);
    ServicesAddNoRoute(snap, env, AddUpstreams(snap, env, o.upstreams), o.services);
    AfterRoutes(snap, env, before.services, before, o.routes);
    assert Members(o.routes) == snap.routes.Keys;
    forall i | 0 <= i < |o.routes|
      ensures At(Built(snap, env, o).routes, o.routes[i]) ==
              RouteAfter(snap, env, before.services, Members(o.routes[..i]), o.routes[i])
    {
      RoutesAreFinished(snap, env, before.services, before, o.routes, i);
    }
    forall id | id !in snap.routes ensures id !in Built(snap, env, o).routes {
      UnvisitedRoute(snap, env, before, o.routes, id);
    }
  }
}
