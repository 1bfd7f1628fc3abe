/**
 Exactly when the translation of a snapshot does not depend on the order in which Go visits the maps,
 and which routes and services are there in every order or in some.
 */
module TranslateOrder {
  import opened Config
  import opened Text
  import opened Translate
  import opened TranslateMeaning

  // ---------------------------------------------------------------- what an order can decide

  /** Services that store inline upstreams under one name store equal ones. */
  predicate NamesAgree(snap: Snapshot, env: Env) {
    forall j, k :: j in snap.services && k in snap.services &&
                   StoredByService(snap, env, j).Some? && StoredByService(snap, env, k).Some? &&
                   ServiceUpstreamId(snap.services[j]) == ServiceUpstreamId(snap.services[k]) ==>
      StoredByService(snap, env, j) == StoredByService(snap, env, k)
  }

  /** The service names, by its upstream_id, what other services store as their inline upstream. */
  predicate Borrows(snap: Snapshot, env: Env, k: string) {
    && k in snap.services && snap.services[k].upstreamId != ""
    && env.plugins(snap.services[k].pluginConfigId, snap.services[k].plugins).Some?
    && StoredIn(snap, env, snap.services.Keys, snap.services[k].upstreamId)
  }

  /** And nothing is declared under that id: the service is dropped unless a lender was visited before. */
  predicate Lent(snap: Snapshot, env: Env, k: string) {
    Borrows(snap, env, k) && Declared(snap, env, snap.services[k].upstreamId).None?
  }

  /** A route synthesizes just the service that the borrowing one would be. */
  predicate Twin(snap: Snapshot, env: Env, k: string)
    requires k in snap.services
  {
    var s := snap.services[k];
    && NamedDirectly(snap, env, snap.routes.Keys, k) && k == SERVICE + s.upstreamId == Named(s.id, "service")
    && env.plugins(s.pluginConfigId, s.plugins) == Some([])
  }

  /** A borrowing service that comes out differently if visited before its lenders: it is dropped, or
      it gets the timeout of the declared upstream and not that of the inline one. */
  predicate Shaky(snap: Snapshot, env: Env, k: string) {
    Borrows(snap, env, k) && !Replaced(snap, env, snap.routes.Keys, k) &&
    var uid := snap.services[k].upstreamId;
    if Declared(snap, env, uid).None? then !Twin(snap, env, k)
    else exists j :: j in snap.services && StoresAs(snap, env, j, uid) &&
                     StoredByService(snap, env, j).value.timeout != Declared(snap, env, uid).value.timeout
  }

  /** The route translates, and what it refers to is there before the first route is visited. */
  predicate RouteKept(snap: Snapshot, env: Env, id: string) {
    id in snap.routes && RouteConfig(env, snap.routes[id]).Some? &&
    var r := snap.routes[id];
    if r.serviceId != "" then ServiceKept(snap, env, r.serviceId)
    else if r.upstreamId != "" then Available(snap, env, r.upstreamId)
    else StoredByRoute(snap, env, id).Some?
  }

  /** The route translates, and whether what it refers to is there when it is visited depends on the order: a
      service that another route synthesizes or that borrows its upstream, or another route's inline upstream. */
  predicate Stray(snap: Snapshot, env: Env, id: string) {
    id in snap.routes && RouteConfig(env, snap.routes[id]).Some? && !RouteKept(snap, env, id) &&
    var r := snap.routes[id];
    if r.serviceId != ""
    then SynthesizedBy(snap, env, snap.routes.Keys, r.serviceId) || Lent(snap, env, r.serviceId)
    else r.upstreamId != "" && RouteInline(snap, env, snap.routes.Keys, r.upstreamId).Some?
  }

  ghost predicate OrderIrrelevant(snap: Snapshot, env: Env) {
    forall o, o' :: ValidOrders(snap, o) && ValidOrders(snap, o') ==> Built(snap, env, o) == Built(snap, env, o')
  }

  // ---------------------------------------------------------------- declared services

  lemma {:induction false} StoredInGrows(snap: Snapshot, env: Env, ss: set<string>, id: string)
    requires ss <= snap.services.Keys && StoredIn(snap, env, ss, id)
    ensures StoredIn(snap, env, snap.services.Keys, id)
  {
    var k :| k in ss && StoresAs(snap, env, k, id);
    assert k in snap.services.Keys;
  }

  /** A declared service that is kept is there in every order, and another one only if it borrows. */
  lemma {:induction false} DeclaredChoice(snap: Snapshot, env: Env, ss: set<string>, k: string,
                                          v: Option<ServiceOptions>)
    requires ss <= snap.services.Keys && k in snap.services && DeclaredAt(snap, env, ss, k, v)
    ensures ServiceKept(snap, env, k) ==> v.Some?
    ensures v.Some? ==> ServiceKept(snap, env, k) || Lent(snap, env, k)
    ensures v.Some? && !Borrows(snap, env, k) ==> v.value.timeout == ServiceMeans(snap, env, k).value.timeout
  {
    var s := snap.services[k];
    if s.upstreamId != "" {
      var found :| UpstreamAt(snap, env, ss, {}, s.upstreamId, found) && v == ServiceFrom(snap, env, k, found);
      if StoredIn(snap, env, ss, s.upstreamId) { StoredInGrows(snap, env, ss, s.upstreamId); }
    }
  }

  lemma {:induction false} DeclaredService(snap: Snapshot, env: Env, order: seq<string>,
                                           d: map<string, ServiceOptions>, k: string) returns (ss: set<string>)
    requires Visits(order, snap.services.Keys) && k in snap.services && DeclaredIn(snap, env, order, d)
    ensures ss <= snap.services.Keys && DeclaredAt(snap, env, ss, k, At(d, k))
  {
    var i :| 0 <= i < |order| && order[i] == k;
    ss := Members(order[..i + 1]);
    assert DeclaredAt(snap, env, Members(order[..i + 1]), order[i], At(d, order[i]));
  }

  /** What is declared under a key, in any order. */
  lemma {:induction false} DeclaredContent(snap: Snapshot, env: Env, order: seq<string>,
                                           d: map<string, ServiceOptions>, k: string)
    requires Visits(order, snap.services.Keys) && DeclaredIn(snap, env, order, d)
    ensures ServiceKept(snap, env, k) ==> k in d
    ensures k in d ==> k in snap.services && (ServiceKept(snap, env, k) || Lent(snap, env, k))
    ensures k in d ==>
              var s := snap.services[k];
              && d[k].upstream == ServiceUpstreamId(s) && d[k].id == Named(s.id, "service") && d[k].protocol == "http"
              && env.plugins(s.pluginConfigId, s.plugins) == Some(d[k].plugins)
    ensures k in d && !Borrows(snap, env, k) ==> d[k].timeout == ServiceMeans(snap, env, k).value.timeout
  {
    if k in snap.services {
      var ss := DeclaredService(snap, env, order, d, k);
      DeclaredChoice(snap, env, ss, k, At(d, k));
    }
  }

  /** A service visited first finds what is declared. */
  lemma {:induction false} VisitedFirst(snap: Snapshot, env: Env, order: seq<string>, d: map<string, ServiceOptions>,
                                        k: string)
    requires Visits(order, snap.services.Keys) && DeclaredIn(snap, env, order, d)
    requires order != [] && order[0] == k && k in snap.services && snap.services[k].upstreamId != ""
    ensures At(d, k) == ServiceFrom(snap, env, k, Declared(snap, env, snap.services[k].upstreamId))
  {
    assert DeclaredAt(snap, env, Members(order[..0 + 1]), order[0], At(d, order[0]));
    assert Members(order[..1]) == {k};
    assert !StoredIn(snap, env, {k}, snap.services[k].upstreamId);
  }

  lemma {:induction false} DeclaredLast(snap: Snapshot, env: Env, order: seq<string>, d: map<string, ServiceOptions>)
    requires Visits(order, snap.services.Keys) && DeclaredIn(snap, env, order, d) && order != []
    ensures var k := order[|order| - 1]; DeclaredAt(snap, env, snap.services.Keys, k, At(d, k))
  {
    var n := |order| - 1;
    assert DeclaredAt(snap, env, Members(order[..n + 1]), order[n], At(d, order[n]));
    assert order[..n + 1] == order && Members(order) == snap.services.Keys;
  }

  /** A borrowing service visited last finds what some lender has stored. */
  lemma {:induction false} VisitedLast(snap: Snapshot, env: Env, order: seq<string>, d: map<string, ServiceOptions>,
                                       k: string) returns (j: string)
    requires Visits(order, snap.services.Keys) && DeclaredIn(snap, env, order, d)
    requires order != [] && order[|order| - 1] == k && Borrows(snap, env, k)
    ensures StoresAs(snap, env, j, snap.services[k].upstreamId) && k in d
    ensures At(d, k) == ServiceFrom(snap, env, k, StoredByService(snap, env, j))
  {
    var uid := snap.services[k].upstreamId;
    DeclaredLast(snap, env, order, d);
    var found :| UpstreamAt(snap, env, snap.services.Keys, {}, uid, found) &&
                 At(d, k) == ServiceFrom(snap, env, k, found);
    j :| j in snap.services.Keys && StoresAs(snap, env, j, uid) && StoredByService(snap, env, j) == found;
  }

  // ---------------------------------------------------------------- where the order does not matter

  lemma {:induction false} SameAt<T>(a: map<string, T>, b: map<string, T>)
    requires forall id :: At(a, id) == At(b, id)
    ensures a == b
  {
    assert forall id :: id in a <==> At(a, id).Some?;
    assert forall id :: id in b <==> At(b, id).Some?;
    assert a.Keys == b.Keys;
    forall id | id in a ensures a[id] == b[id] {
      assert At(a, id) == At(b, id);
    }
  }

  /** Where names agree, what is stored under an id is determined. */
  lemma {:induction false} UpstreamIsUnique(snap: Snapshot, env: Env, ss: set<string>, rs: set<string>, id: string,
                                            v: Option<UpstreamOptions>, w: Option<UpstreamOptions>)
    requires NamesAgree(snap, env) && UpstreamAt(snap, env, ss, rs, id, v) && UpstreamAt(snap, env, ss, rs, id, w)
    ensures v == w
  {
    if StoredIn(snap, env, ss, id) {
      var j :| j in ss && StoresAs(snap, env, j, id) && StoredByService(snap, env, j) == v;
      var k :| k in ss && StoresAs(snap, env, k, id) && StoredByService(snap, env, k) == w;
    }
  }

  lemma {:induction false} SynthesizedGrows(snap: Snapshot, env: Env, rs: set<string>, all: set<string>, sid: string)
    requires rs <= all && SynthesizedBy(snap, env, rs, sid)
    ensures SynthesizedBy(snap, env, all, sid)
  {
    if NamedDirectly(snap, env, rs, sid) {
      var r :| r in rs && UsesDirectly(snap, env, r, sid[|SERVICE|..]);
      assert r in all;
    }
  }

  lemma {:induction false} SameUpstreams(snap: Snapshot, env: Env, o: Orders, o': Orders)
    requires NamesAgree(snap, env) && ValidOrders(snap, o) && ValidOrders(snap, o')
    ensures Built(snap, env, o).upstreams == Built(snap, env, o').upstreams
  {
    BuiltIsFinished(snap, env, o);
    BuiltIsFinished(snap, env, o');
    var a, b := Built(snap, env, o).upstreams, Built(snap, env, o').upstreams;
    var ss, rs := snap.services.Keys, snap.routes.Keys;
    forall id ensures At(a, id) == At(b, id) {
      assert UpstreamAt(snap, env, ss, rs, id, At(a, id));
      assert UpstreamAt(snap, env, ss, rs, id, At(b, id));
      UpstreamIsUnique(snap, env, ss, rs, id, At(a, id), At(b, id));
    }
    SameAt(a, b);
  }

  /** A service that is not shaky finds the same timeout in any order, unless it has a twin. */
  lemma {:induction false} SteadyService(snap: Snapshot, env: Env, ss: set<string>, k: string,
                                         v: Option<ServiceOptions>, ss': set<string>, w: Option<ServiceOptions>)
    requires ss <= snap.services.Keys && ss' <= snap.services.Keys && k in snap.services
    requires DeclaredAt(snap, env, ss, k, v) && DeclaredAt(snap, env, ss', k, w)
    requires !Shaky(snap, env, k) && !Replaced(snap, env, snap.routes.Keys, k) && !Lent(snap, env, k)
    ensures v == w
  {
    var s := snap.services[k];
    if s.upstreamId != "" && env.plugins(s.pluginConfigId, s.plugins).Some? {
      var f :| UpstreamAt(snap, env, ss, {}, s.upstreamId, f) && v == ServiceFrom(snap, env, k, f);
      var g :| UpstreamAt(snap, env, ss', {}, s.upstreamId, g) && w == ServiceFrom(snap, env, k, g);
      FoundTimeout(snap, env, ss, k, f);
      FoundTimeout(snap, env, ss', k, g);
    }
  }

  lemma {:induction false} FoundTimeout(snap: Snapshot, env: Env, ss: set<string>, k: string,
                                        found: Option<UpstreamOptions>)
    requires ss <= snap.services.Keys && k in snap.services && snap.services[k].upstreamId != ""
    requires UpstreamAt(snap, env, ss, {}, snap.services[k].upstreamId, found)
    requires !Shaky(snap, env, k) && !Replaced(snap, env, snap.routes.Keys, k) && !Lent(snap, env, k)
    requires env.plugins(snap.services[k].pluginConfigId, snap.services[k].plugins).Some?
    ensures var up := Declared(snap, env, snap.services[k].upstreamId);
            found.Some? == up.Some? && (up.Some? ==> found.value.timeout == up.value.timeout)
  {
    var uid := snap.services[k].upstreamId;
    if StoredIn(snap, env, ss, uid) {
      StoredInGrows(snap, env, ss, uid);
      var j :| j in ss && StoresAs(snap, env, j, uid) && StoredByService(snap, env, j) == found;
    }
  }

  /** A service with a twin comes out as the twin. */
  lemma {:induction false} TwinService(snap: Snapshot, env: Env, ss: set<string>, k: string,
                                       d: map<string, ServiceOptions>, ups: map<string, UpstreamOptions>)
    requires NamesAgree(snap, env) && UpstreamsSoFar(snap, env, snap.services.Keys, snap.routes.Keys, ups)
    requires ss <= snap.services.Keys && Lent(snap, env, k) && Twin(snap, env, k)
    requires DeclaredAt(snap, env, ss, k, At(d, k)) && !Replaced(snap, env, snap.routes.Keys, k)
    ensures ServiceAt(snap, env, d, snap.routes.Keys, ups, k) == Synthesized(ups, k)
  {
    var uid := snap.services[k].upstreamId;
    PrefixOf(SERVICE, uid);
    if k in d {
      var found :| UpstreamAt(snap, env, ss, {}, uid, found) && At(d, k) == ServiceFrom(snap, env, k, found);
      assert UpstreamAt(snap, env, snap.services.Keys, snap.routes.Keys, uid, At(ups, uid));
      var i :| i in ss && StoresAs(snap, env, i, uid) && StoredByService(snap, env, i) == found;
      var j :| j in snap.services.Keys && StoresAs(snap, env, j, uid) && StoredByService(snap, env, j) == At(ups, uid);
      assert found == At(ups, uid);
    }
  }

  lemma {:induction false} SameService(snap: Snapshot, env: Env, o: Orders, o': Orders, k: string)
    requires NamesAgree(snap, env) && !Shaky(snap, env, k) && ValidOrders(snap, o) && ValidOrders(snap, o')
    ensures At(Built(snap, env, o).services, k) == At(Built(snap, env, o').services, k)
  {
    BuiltIsFinished(snap, env, o);
    FinalService(snap, env, o, k);
    FinalService(snap, env, o', k);
    SameUpstreams(snap, env, o, o');
    var rs, ups := snap.routes.Keys, Built(snap, env, o).upstreams;
    var d, e := BeforeRoutes(snap, env, o).services, BeforeRoutes(snap, env, o').services;
    if k in snap.services && !Replaced(snap, env, rs, k) {
      var ss := DeclaredService(snap, env, o.services, d, k);
      var ss' := DeclaredService(snap, env, o'.services, e, k);
      if Lent(snap, env, k) {
        TwinService(snap, env, ss, k, d, ups);
        TwinService(snap, env, ss', k, e, ups);
      } else {
        SteadyService(snap, env, ss, k, At(d, k), ss', At(e, k));
      }
    }
  }

  /** A kept route is always there, and a dropped one that is not stray never is. */
  lemma {:induction false} SettledRoute(snap: Snapshot, env: Env, o: Orders, id: string)
    requires ValidOrders(snap, o)
    ensures RouteKept(snap, env, id) ==> id in Built(snap, env, o).routes
    ensures id in Built(snap, env, o).routes ==> RouteKept(snap, env, id) || Stray(snap, env, id)
    ensures id in Built(snap, env, o).routes ==>
              Built(snap, env, o).routes[id] ==
              RouteConfig(env, snap.routes[id]).value.(service := TargetOf(snap.routes[id], id))
  {
    var d := BeforeRoutes(snap, env, o).services;
    if id in snap.routes {
      var rs := RouteWhenVisited(snap, env, o, id);
      ServicesAreFinished(snap, env, o);
      DeclaredContent(snap, env, o.services, d, snap.routes[id].serviceId);
      EntersIfKept(snap, env, d, rs, id);
    } else {
      BuiltIsFinished(snap, env, o);
    }
  }

  lemma {:induction false} RouteWhenVisited(snap: Snapshot, env: Env, o: Orders, id: string) returns (rs: set<string>)
    requires ValidOrders(snap, o) && id in snap.routes
    ensures rs <= snap.routes.Keys
    ensures At(Built(snap, env, o).routes, id) == RouteAfter(snap, env, BeforeRoutes(snap, env, o).services, rs, id)
  {
    BuiltIsFinished(snap, env, o);
    var i :| 0 <= i < |o.routes| && o.routes[i] == id;
    rs := Members(o.routes[..i]);
    assert At(Built(snap, env, o).routes, o.routes[i]) ==
           RouteAfter(snap, env, BeforeRoutes(snap, env, o).services, Members(o.routes[..i]), o.routes[i]);
  }

  lemma {:induction false} EntersIfKept(snap: Snapshot, env: Env, d: map<string, ServiceOptions>, rs: set<string>,
                                        id: string)
    requires id in snap.routes && rs <= snap.routes.Keys
    requires ServiceKept(snap, env, snap.routes[id].serviceId) ==> snap.routes[id].serviceId in d
    requires snap.routes[id].serviceId in d ==>
               ServiceKept(snap, env, snap.routes[id].serviceId) || Lent(snap, env, snap.routes[id].serviceId)
    ensures RouteKept(snap, env, id) ==> Enters(snap, env, d, rs, id)
    ensures Enters(snap, env, d, rs, id) ==> RouteKept(snap, env, id) || Stray(snap, env, id)
  {
    var sid := snap.routes[id].serviceId;
    if SynthesizedBy(snap, env, rs, sid) { SynthesizedGrows(snap, env, rs, snap.routes.Keys, sid); }
  }

  lemma {:induction false} AgreementSuffices(snap: Snapshot, env: Env, o: Orders, o': Orders)
    requires NamesAgree(snap, env) && (forall k :: k in snap.services ==> !Shaky(snap, env, k))
    requires forall id :: id in snap.routes ==> !Stray(snap, env, id)
    requires ValidOrders(snap, o) && ValidOrders(snap, o')
    ensures Built(snap, env, o) == Built(snap, env, o')
  {
    var a, b := Built(snap, env, o), Built(snap, env, o');
    SameUpstreams(snap, env, o, o');
    forall k ensures At(a.services, k) == At(b.services, k) {
      SameService(snap, env, o, o', k);
    }
    SameAt(a.services, b.services);
    forall id ensures At(a.routes, id) == At(b.routes, id) {
      SettledRoute(snap, env, o, id);
      SettledRoute(snap, env, o', id);
    }
    SameAt(a.routes, b.routes);
  }

  // ---------------------------------------------------------------- orders with given ends

  /** Some order in which to visit the keys. */
  lemma {:induction false} SomeOrder(keys: set<string>) returns (order: seq<string>)
    ensures Visits(order, keys)
  {
    order := [];
    var todo := keys;
    while todo != {}
      invariant todo <= keys && Visits(order, keys - todo)
    {
      var id :| id in todo;
      assert id !in order;
      order := order + [id];
      todo := todo - {id};
    }
    assert keys - todo == keys;
  }

  lemma {:induction false} AnyOrders(snap: Snapshot) returns (o: Orders)
    ensures ValidOrders(snap, o)
  {
    var ups := SomeOrder(snap.upstreams.Keys);
    var svcs := SomeOrder(snap.services.Keys);
    var rts := SomeOrder(snap.routes.Keys);
    o := Orders(ups, svcs, rts);
  }

  /** An order that starts with the given key, if it is one. */
  lemma {:induction false} OrderStarting(keys: set<string>, k: string) returns (order: seq<string>)
    ensures Visits(order, keys) && (k in keys ==> order != [] && order[0] == k)
  {
    if k in keys {
      var rest := SomeOrder(keys - {k});
      order := [k] + rest;
      assert forall x :: x in order <==> x == k || x in rest;
      assert forall i :: 0 <= i < |rest| ==> rest[i] in rest;
    } else {
      order := SomeOrder(keys);
    }
  }

  /** An order that ends with the given key, if it is one. */
  lemma {:induction false} OrderEnding(keys: set<string>, k: string) returns (order: seq<string>)
    ensures Visits(order, keys)
    ensures k in keys ==> order != [] && order[|order| - 1] == k && Members(order[..|order| - 1]) == keys - {k}
  {
    if k in keys {
      var rest := SomeOrder(keys - {k});
      order := rest + [k];
      assert forall x :: x in order <==> x == k || x in rest;
      assert forall i :: 0 <= i < |rest| ==> rest[i] in rest;
      assert order[..|order| - 1] == rest;
    } else {
      order := SomeOrder(keys);
    }
  }

  // ---------------------------------------------------------------- where it does

  /** Routes do not touch the inline upstreams of services. */
  lemma {:induction false} RoutesKeepServiceUpstreams(snap: Snapshot, env: Env, start: Out, order: seq<string>,
                                                      id: string)
    requires Within(order, snap.routes.Keys) && HasPrefix(id, SERVICE_UPSTREAM)
    ensures At(AddRoutes(snap, env, start, order).upstreams, id) == At(start.upstreams, id)
  {
    if order != [] {
      var n := |order| - 1;
      RoutesKeepServiceUpstreams(snap, env, start, order[..n], id);
      RouteStores(snap, env, AddRoutes(snap, env, start, order[..n]), order[n]);
      PrefixOf(ROUTE_UPSTREAM, order[n]);
      PrefixesDiffer(ROUTE_UPSTREAM + order[n]);
    }
  }

  /** The service visited last decides what is stored under its name. */
  lemma {:induction false} LastServiceWins(snap: Snapshot, env: Env, o: Orders, k: string)
    requires ValidOrders(snap, o) && o.services != [] && o.services[|o.services| - 1] == k
    requires k in snap.services && StoredByService(snap, env, k).Some?
    ensures At(Built(snap, env, o).upstreams, ServiceUpstreamId(snap.services[k])) == StoredByService(snap, env, k)
  {
    var first, n := AddUpstreams(snap, env, o.upstreams), |o.services| - 1;
    ServiceStores(snap, env, AddServices(snap, env, first, o.services[..n]), k);
    StoredName(snap, env, k);
    RoutesKeepServiceUpstreams(snap, env, AddServices(snap, env, first, o.services), o.routes,
                               ServiceUpstreamId(snap.services[k]));
  }

  lemma {:induction false} DisagreementShows(snap: Snapshot, env: Env, j: string, k: string)
    requires j in snap.services && k in snap.services
    requires StoredByService(snap, env, j).Some? && StoredByService(snap, env, k).Some?
    requires ServiceUpstreamId(snap.services[j]) == ServiceUpstreamId(snap.services[k])
    requires StoredByService(snap, env, j) != StoredByService(snap, env, k)
    ensures !OrderIrrelevant(snap, env)
  {
    var o := AnyOrders(snap);
    var lastJ := OrderEnding(snap.services.Keys, j);
    var lastK := OrderEnding(snap.services.Keys, k);
    LastServiceWins(snap, env, o.(services := lastJ), j);
    LastServiceWins(snap, env, o.(services := lastK), k);
    assert Built(snap, env, o.(services := lastJ)) != Built(snap, env, o.(services := lastK));
  }

  /** A shaky service visited first comes out differently from the same visited last. */
  lemma {:induction false} ShakyShows(snap: Snapshot, env: Env, k: string)
    requires NamesAgree(snap, env) && Shaky(snap, env, k)
    ensures !OrderIrrelevant(snap, env)
  {
    var any := AnyOrders(snap);
    var first := OrderStarting(snap.services.Keys, k);
    var last := OrderEnding(snap.services.Keys, k);
    var o, o' := any.(services := first), any.(services := last);
    ShakyDiffers(snap, env, o, o', k);
  }

  lemma {:induction false} ShakyDiffers(snap: Snapshot, env: Env, o: Orders, o': Orders, k: string)
    requires NamesAgree(snap, env) && Shaky(snap, env, k) && ValidOrders(snap, o) && ValidOrders(snap, o')
    requires o.services != [] && o.services[0] == k && o'.services != [] && o'.services[|o'.services| - 1] == k
    ensures Built(snap, env, o) != Built(snap, env, o')
  {
    FinalService(snap, env, o, k);
    FinalService(snap, env, o', k);
    SameUpstreams(snap, env, o, o');
    var d, e := BeforeRoutes(snap, env, o).services, BeforeRoutes(snap, env, o').services;
    VisitedFirst(snap, env, o.services, d, k);
    var j := VisitedLast(snap, env, o'.services, e, k);
    ShakyEntries(snap, env, k, j, Built(snap, env, o).upstreams, d, e);
  }

  lemma {:induction false} FinalService(snap: Snapshot, env: Env, o: Orders, k: string)
    requires ValidOrders(snap, o)
    ensures var d := BeforeRoutes(snap, env, o).services;
            && DeclaredIn(snap, env, o.services, d)
            && At(Built(snap, env, o).services, k) ==
               ServiceAt(snap, env, d, snap.routes.Keys, Built(snap, env, o).upstreams, k)
  {
    BuiltIsFinished(snap, env, o);
  }

  lemma {:induction false} ShakyEntries(snap: Snapshot, env: Env, k: string, j: string,
                                        ups: map<string, UpstreamOptions>, d: map<string, ServiceOptions>,
                                        e: map<string, ServiceOptions>)
    requires NamesAgree(snap, env) && Shaky(snap, env, k) && k in e
    requires StoresAs(snap, env, j, snap.services[k].upstreamId)
    requires At(d, k) == ServiceFrom(snap, env, k, Declared(snap, env, snap.services[k].upstreamId))
    requires At(e, k) == ServiceFrom(snap, env, k, StoredByService(snap, env, j))
    ensures ServiceAt(snap, env, d, snap.routes.Keys, ups, k) != ServiceAt(snap, env, e, snap.routes.Keys, ups, k)
  {
    if k in d {
      var uid := snap.services[k].upstreamId;
      var i :| i in snap.services && StoresAs(snap, env, i, uid) &&
               StoredByService(snap, env, i).value.timeout != Declared(snap, env, uid).value.timeout;
      assert StoredByService(snap, env, i) == StoredByService(snap, env, j);
    } else {
      OnlyATwinIsSynthesized(snap, env, k, ups, StoredByService(snap, env, j), e[k]);
    }
  }

  lemma {:induction false} OnlyATwinIsSynthesized(snap: Snapshot, env: Env, k: string,
                                                  ups: map<string, UpstreamOptions>, found: Option<UpstreamOptions>,
                                                  v: ServiceOptions)
    requires Borrows(snap, env, k) && !Twin(snap, env, k) && Some(v) == ServiceFrom(snap, env, k, found)
    ensures NamedDirectly(snap, env, snap.routes.Keys, k) ==> Synthesized(ups, k) != Some(v)
  {
    if NamedDirectly(snap, env, snap.routes.Keys, k) && Synthesized(ups, k) == Some(v) {
      PrefixOf(SERVICE, k);
      assert Twin(snap, env, k);
    }
  }

  /** Another route synthesizes what a stray one refers to. */
  lemma {:induction false} StrayNeedsAnother(snap: Snapshot, env: Env, id: string, d: map<string, ServiceOptions>)
    requires Stray(snap, env, id) && (Lent(snap, env, snap.routes[id].serviceId) ==> snap.routes[id].serviceId in d)
    ensures Enters(snap, env, d, snap.routes.Keys - {id}, id)
  {
    var sid := snap.routes[id].serviceId;
    if sid != "" && NamedDirectly(snap, env, snap.routes.Keys, sid) {
      var r :| r in snap.routes.Keys && UsesDirectly(snap, env, r, sid[|SERVICE|..]);
      assert r in snap.routes.Keys - {id};
    }
  }

  /** An order in which a route that is not kept is dropped: it comes first, and its service too. */
  lemma {:induction false} DroppedFirst(snap: Snapshot, env: Env, id: string) returns (o: Orders)
    requires !RouteKept(snap, env, id)
    ensures ValidOrders(snap, o) && id !in Built(snap, env, o).routes
  {
    o := AnyOrders(snap);
    var sid := if id in snap.routes then snap.routes[id].serviceId else "";
    var svcs := OrderStarting(snap.services.Keys, sid);
    var rts := OrderStarting(snap.routes.Keys, id);
    o := o.(services := svcs, routes := rts);
    if id in snap.routes { DroppedBy(snap, env, o, id); } else { SettledRoute(snap, env, o, id); }
  }

  lemma {:induction false} DroppedBy(snap: Snapshot, env: Env, o: Orders, id: string)
    requires !RouteKept(snap, env, id) && ValidOrders(snap, o) && o.routes != [] && o.routes[0] == id
    requires id in snap.routes && var sid := snap.routes[id].serviceId;
                                  sid in snap.services ==> o.services != [] && o.services[0] == sid
    ensures id !in Built(snap, env, o).routes
  {
    FinalRoute(snap, env, o, 0);
    assert Members(o.routes[..0]) == {};
    if !ServiceKept(snap, env, snap.routes[id].serviceId) {
      UndeclaredFirst(snap, env, o, snap.routes[id].serviceId);
    }
    assert !Enters(snap, env, BeforeRoutes(snap, env, o).services, {}, id);
  }

  lemma {:induction false} FinalRoute(snap: Snapshot, env: Env, o: Orders, i: nat)
    requires ValidOrders(snap, o) && i < |o.routes|
    ensures o.routes[i] in Built(snap, env, o).routes <==>
            Enters(snap, env, BeforeRoutes(snap, env, o).services, Members(o.routes[..i]), o.routes[i])
  {
    BuiltIsFinished(snap, env, o);
  }

  lemma {:induction false} UndeclaredFirst(snap: Snapshot, env: Env, o: Orders, sid: string)
    requires ValidOrders(snap, o) && !ServiceKept(snap, env, sid)
    requires sid in snap.services ==> o.services != [] && o.services[0] == sid
    ensures sid !in BeforeRoutes(snap, env, o).services
  {
    var d := BeforeRoutes(snap, env, o).services;
    ServicesAreFinished(snap, env, o);
    DeclaredContent(snap, env, o.services, d, sid);
    if Lent(snap, env, sid) { VisitedFirst(snap, env, o.services, d, sid); }
  }

  /** An order in which a stray route is kept: it comes last, and its service too. */
  lemma {:induction false} KeptLast(snap: Snapshot, env: Env, id: string) returns (o: Orders)
    requires Stray(snap, env, id)
    ensures ValidOrders(snap, o) && id in Built(snap, env, o).routes
  {
    o := AnyOrders(snap);
    var sid := snap.routes[id].serviceId;
    var svcs := OrderEnding(snap.services.Keys, sid);
    var rts := OrderEnding(snap.routes.Keys, id);
    o := o.(services := svcs, routes := rts);
    ServicesAreFinished(snap, env, o);
    FinalRoute(snap, env, o, |o.routes| - 1);
    var d := BeforeRoutes(snap, env, o).services;
    if Lent(snap, env, sid) { var j := VisitedLast(snap, env, o.services, d, sid); }
    StrayNeedsAnother(snap, env, id, d);
  }

  /** What becomes of a route over all orders: it is there in every one exactly if it is kept, and in
      some one exactly if it is kept or stray. */
  lemma {:induction false} RouteIsThereIff(snap: Snapshot, env: Env, id: string)
    ensures (forall o :: ValidOrders(snap, o) ==> id in Built(snap, env, o).routes) <==> RouteKept(snap, env, id)
    ensures (exists o :: ValidOrders(snap, o) && id in Built(snap, env, o).routes) <==>
            RouteKept(snap, env, id) || Stray(snap, env, id)
  {
    forall o | ValidOrders(snap, o)
      ensures RouteKept(snap, env, id) ==> id in Built(snap, env, o).routes
      ensures id in Built(snap, env, o).routes ==> RouteKept(snap, env, id) || Stray(snap, env, id)
    {
      SettledRoute(snap, env, o, id);
    }
    var some := AnyOrders(snap);
    if !RouteKept(snap, env, id) { var o := DroppedFirst(snap, env, id); }
    if Stray(snap, env, id) { var o := KeptLast(snap, env, id); }
  }

  lemma {:induction false} StrayShows(snap: Snapshot, env: Env, id: string)
    requires Stray(snap, env, id)
    ensures !OrderIrrelevant(snap, env)
  {
    var first := DroppedFirst(snap, env, id);
    var last := KeptLast(snap, env, id);
    assert Built(snap, env, first) != Built(snap, env, last);
  }

  /** The result is the same for every order of visits if and only if no two services store different
      inline upstreams under one name, no service is shaky and no route is stray. */
  lemma {:induction false} OrderIrrelevantIff(snap: Snapshot, env: Env)
    ensures OrderIrrelevant(snap, env) <==>
            && NamesAgree(snap, env)
            && (forall k :: k in snap.services ==> !Shaky(snap, env, k))
            && (forall id :: id in snap.routes ==> !Stray(snap, env, id))
  {
    if !NamesAgree(snap, env) {
      var j, k :| j in snap.services && k in snap.services &&
                  StoredByService(snap, env, j).Some? && StoredByService(snap, env, k).Some? &&
                  ServiceUpstreamId(snap.services[j]) == ServiceUpstreamId(snap.services[k]) &&
                  StoredByService(snap, env, j) != StoredByService(snap, env, k);
      DisagreementShows(snap, env, j, k);
    } else if k :| k in snap.services && Shaky(snap, env, k) {
      ShakyShows(snap, env, k);
    } else if id :| id in snap.routes && Stray(snap, env, id) {
      StrayShows(snap, env, id);
    } else {
      forall o, o' | ValidOrders(snap, o) && ValidOrders(snap, o')
        ensures Built(snap, env, o) == Built(snap, env, o')
      {
        AgreementSuffices(snap, env, o, o');
      }
    }
  }
}
