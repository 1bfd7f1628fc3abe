/**
 Exactly when a route of a translated snapshot reaches the upstream it denotes, whatever the order in
 which Go visits the maps.
 */
module TranslateReach {
  import opened Config
  import opened Text
  import opened Translate
  import opened TranslateMeaning
  import opened TranslateOrder

  /** The upstream behind a service of the result. */
  function Behind(out: Out, sid: string): UpstreamOptions
    requires Closed(out) && sid in out.services
  {
    out.upstreams[out.services[sid].upstream]
  }

  /** If the service is there, following it leads to the upstream, up to its name. */
  predicate Leads(out: Out, sid: string, up: UpstreamOptions) {
    Closed(out) && (sid in out.services ==> SameUpstream(Behind(out, sid), up))
  }

  // ---------------------------------------------------------------- upstreams

  /** Whatever can be stored last under the upstream id is the upstream, up to its name. */
  predicate EndsAs(snap: Snapshot, env: Env, uid: string, up: UpstreamOptions) {
    var inline := RouteInline(snap, env, snap.routes.Keys, uid);
    if StoredIn(snap, env, snap.services.Keys, uid)
    then forall k :: k in snap.services && StoresAs(snap, env, k, uid) ==>
           SameUpstream(StoredByService(snap, env, k).value, up)
    else if inline.Some? then SameUpstream(inline.value, up)
    else Declared(snap, env, uid).Some? ==> SameUpstream(Declared(snap, env, uid).value, up)
  }

  /** Where the name is not a service's inline one, one order is like another. */
  lemma {:induction false} EndsSo(snap: Snapshot, env: Env, o: Orders, uid: string, up: UpstreamOptions)
    requires ValidOrders(snap, o) && uid in Built(snap, env, o).upstreams
    ensures EndsAs(snap, env, uid, up) ==> SameUpstream(Built(snap, env, o).upstreams[uid], up)
    ensures !EndsAs(snap, env, uid, up) && !StoredIn(snap, env, snap.services.Keys, uid) ==>
              !SameUpstream(Built(snap, env, o).upstreams[uid], up)
  {
    var ups := Built(snap, env, o).upstreams;
    BuiltIsFinished(snap, env, o);
    assert UpstreamAt(snap, env, snap.services.Keys, snap.routes.Keys, uid, At(ups, uid));
  }

  /** A service that stores something else under the id. */
  lemma {:induction false} OtherStorer(snap: Snapshot, env: Env, uid: string, up: UpstreamOptions) returns (j: string)
    requires StoredIn(snap, env, snap.services.Keys, uid) && !EndsAs(snap, env, uid, up)
    ensures j in snap.services && StoresAs(snap, env, j, uid) &&
            !SameUpstream(StoredByService(snap, env, j).value, up)
  {
    j :| j in snap.services && StoresAs(snap, env, j, uid) && !SameUpstream(StoredByService(snap, env, j).value, up);
  }

  // ---------------------------------------------------------------- services

  /** Whatever a service can lead to is the upstream: behind a declared service its own upstream id,
      behind a synthesized one the id it is made for, and behind a borrowing one either. */
  predicate AlwaysLeads(snap: Snapshot, env: Env, sid: string, up: UpstreamOptions) {
    if Replaced(snap, env, snap.routes.Keys, sid) then EndsAs(snap, env, sid[|SERVICE|..], up)
    else
      && (ServiceKept(snap, env, sid) || Lent(snap, env, sid) ==>
            EndsAs(snap, env, ServiceUpstreamId(snap.services[sid]), up))
      && (!ServiceKept(snap, env, sid) && NamedDirectly(snap, env, snap.routes.Keys, sid) ==>
            EndsAs(snap, env, sid[|SERVICE|..], up))
  }

  /** The upstream id of a service of the result. */
  lemma {:induction false} ServiceLands(snap: Snapshot, env: Env, o: Orders, sid: string)
    requires ValidOrders(snap, o)
    ensures var d, out := BeforeRoutes(snap, env, o).services, Built(snap, env, o);
            && Closed(out)
            && (ServiceKept(snap, env, sid) ==> sid in d)
            && (sid in d ==> ServiceKept(snap, env, sid) || Lent(snap, env, sid))
            && (sid in out.services <==> sid in d || SynthesizedBy(snap, env, snap.routes.Keys, sid))
            && (sid in out.services ==>
                  if sid in d && !Replaced(snap, env, snap.routes.Keys, sid)
                  then out.services[sid].upstream == ServiceUpstreamId(snap.services[sid])
                  else HasPrefix(sid, SERVICE) && out.services[sid].upstream == sid[|SERVICE|..])
  {
    var d, out := BeforeRoutes(snap, env, o).services, Built(snap, env, o);
    BuiltIsFinished(snap, env, o);
    DeclaredContent(snap, env, o.services, d, sid);
    SynthesizedIsThere(snap, env, d, snap.routes.Keys, out, sid);
    assert At(out.services, sid) == ServiceAt(snap, env, d, snap.routes.Keys, out.upstreams, sid);
  }

  lemma {:induction false} LeadsSo(snap: Snapshot, env: Env, o: Orders, sid: string, up: UpstreamOptions)
    requires ValidOrders(snap, o) && AlwaysLeads(snap, env, sid, up)
    ensures Leads(Built(snap, env, o), sid, up)
  {
    var out := Built(snap, env, o);
    ServiceLands(snap, env, o, sid);
    if sid in out.services { EndsSo(snap, env, o, out.services[sid].upstream, up); }
  }

  /** An order that makes the upstream under the id something else, with a lent service there. */
  lemma {:induction false} AstrayByOwn(snap: Snapshot, env: Env, sid: string, up: UpstreamOptions)
    returns (o: Orders)
    requires ServiceKept(snap, env, sid) || Lent(snap, env, sid)
    requires !Replaced(snap, env, snap.routes.Keys, sid)
    requires !EndsAs(snap, env, ServiceUpstreamId(snap.services[sid]), up)
    ensures ValidOrders(snap, o) && !Leads(Built(snap, env, o), sid, up)
  {
    var uid := ServiceUpstreamId(snap.services[sid]);
    o := AnyOrders(snap);
    if StoredIn(snap, env, snap.services.Keys, uid) {
      var j := OtherStorer(snap, env, uid, up);
      if Lent(snap, env, sid) {
        var svcs := OrderEndingBoth(snap.services.Keys, j, sid);
        o := o.(services := svcs);
        LastButOneWins(snap, env, o, j, sid);
        ServicesAreFinished(snap, env, o);
        var i := VisitedLast(snap, env, o.services, BeforeRoutes(snap, env, o).services, sid);
      } else {
        var svcs := OrderEnding(snap.services.Keys, j);
        o := o.(services := svcs);
        LastServiceWins(snap, env, o, j);
      }
      ServiceLands(snap, env, o, sid);
    } else {
      ServiceLands(snap, env, o, sid);
      EndsSo(snap, env, o, uid, up);
    }
  }

  /** An order that ends with the two given keys. */
  lemma {:induction false} OrderEndingBoth(keys: set<string>, j: string, k: string) returns (order: seq<string>)
    requires j in keys && k in keys && j != k
    ensures Visits(order, keys) && |order| >= 2 && order[|order| - 2] == j && order[|order| - 1] == k
  {
    var front := SomeOrder(keys - {j, k});
    order := front + [j, k];
    assert forall id :: id in order <==> id in front || id == j || id == k;
    assert forall i :: 0 <= i < |front| ==> front[i] in front;
  }

  lemma {:induction false} LastTwo(snap: Snapshot, env: Env, start: Out, order: seq<string>, j: string, k: string)
    requires Within(order, snap.services.Keys) && |order| >= 2
    requires order[|order| - 2] == j && order[|order| - 1] == k
    requires j in snap.services && k in snap.services
    requires StoredByService(snap, env, j).Some? && StoredByService(snap, env, k).None?
    ensures At(AddServices(snap, env, start, order).upstreams, ServiceUpstreamId(snap.services[j])) ==
            StoredByService(snap, env, j)
  {
    var n := |order| - 1;
    var front := order[..n];
    ServiceStores(snap, env, AddServices(snap, env, start, front[..n - 1]), j);
    ServiceStores(snap, env, AddServices(snap, env, start, front), k);
  }

  lemma {:induction false} LastButOneWins(snap: Snapshot, env: Env, o: Orders, j: string, k: string)
    requires ValidOrders(snap, o) && |o.services| >= 2
    requires o.services[|o.services| - 2] == j && o.services[|o.services| - 1] == k
    requires k in snap.services && StoredByService(snap, env, k).None?
    requires j in snap.services && StoredByService(snap, env, j).Some?
    ensures At(Built(snap, env, o).upstreams, ServiceUpstreamId(snap.services[j])) == StoredByService(snap, env, j)
  {
    var first := AddUpstreams(snap, env, o.upstreams);
    LastTwo(snap, env, first, o.services, j, k);
    StoredName(snap, env, j);
    RoutesKeepServiceUpstreams(snap, env, AddServices(snap, env, first, o.services), o.routes,
                               ServiceUpstreamId(snap.services[j]));
  }

  /** An order that starts with one key, if it is one, and ends with another. */
  lemma {:induction false} OrderBetween(keys: set<string>, k: string, j: string) returns (order: seq<string>)
    requires j in keys && j != k
    ensures Visits(order, keys) && order != [] && order[|order| - 1] == j && (k in keys ==> order[0] == k)
  {
    var front := OrderStarting(keys - {j}, k);
    order := front + [j];
    assert forall id :: id in order <==> id in front || id == j;
    assert forall i :: 0 <= i < |front| ==> front[i] in front;
  }

  /** An order that drops the declared service and makes the upstream of the synthesized one something else. */
  lemma {:induction false} AstrayByOther(snap: Snapshot, env: Env, sid: string, up: UpstreamOptions)
    returns (o: Orders)
    requires !ServiceKept(snap, env, sid) && NamedDirectly(snap, env, snap.routes.Keys, sid)
    requires !Replaced(snap, env, snap.routes.Keys, sid) && !EndsAs(snap, env, sid[|SERVICE|..], up)
    ensures ValidOrders(snap, o) && !Leads(Built(snap, env, o), sid, up)
  {
    var uid := sid[|SERVICE|..];
    o := AnyOrders(snap);
    if StoredIn(snap, env, snap.services.Keys, uid) {
      var j := OtherStorer(snap, env, uid, up);
      if Lent(snap, env, sid) {
        var svcs := OrderBetween(snap.services.Keys, sid, j);
        o := o.(services := svcs);
        UndeclaredFirst(snap, env, o, sid);
      } else {
        var svcs := OrderEnding(snap.services.Keys, j);
        o := o.(services := svcs);
      }
      LastServiceWins(snap, env, o, j);
      ServiceLands(snap, env, o, sid);
    } else {
      var svcs := OrderStarting(snap.services.Keys, sid);
      o := o.(services := svcs);
      UndeclaredFirst(snap, env, o, sid);
      ServiceLands(snap, env, o, sid);
      EndsSo(snap, env, o, uid, up);
    }
  }

  lemma {:induction false} AstrayByRoute(snap: Snapshot, env: Env, sid: string, up: UpstreamOptions)
    returns (o: Orders)
    requires Replaced(snap, env, snap.routes.Keys, sid) && !EndsAs(snap, env, sid[|SERVICE|..], up)
    ensures ValidOrders(snap, o) && !Leads(Built(snap, env, o), sid, up)
  {
    var uid := sid[|SERVICE|..];
    o := AnyOrders(snap);
    ServiceLands(snap, env, o, sid);
    PrefixOf(ROUTE_UPSTREAM, uid);
    RouteNameIsFree(snap, env, snap.services.Keys, uid[|ROUTE_UPSTREAM|..]);
    EndsSo(snap, env, o, uid, up);
  }

  /** A service leads to an upstream in every order in which it is there if and only if whatever can be
      stored last under its upstream id, in one order or another, is that upstream. */
  lemma {:induction false} ServiceLeadsIff(snap: Snapshot, env: Env, sid: string, up: UpstreamOptions)
    ensures (forall o :: ValidOrders(snap, o) ==> Leads(Built(snap, env, o), sid, up)) <==>
            AlwaysLeads(snap, env, sid, up)
  {
    if AlwaysLeads(snap, env, sid, up) {
      forall o | ValidOrders(snap, o) ensures Leads(Built(snap, env, o), sid, up) {
        LeadsSo(snap, env, o, sid, up);
      }
    } else if Replaced(snap, env, snap.routes.Keys, sid) {
      var o := AstrayByRoute(snap, env, sid, up);
    } else if (ServiceKept(snap, env, sid) || Lent(snap, env, sid)) &&
              !EndsAs(snap, env, ServiceUpstreamId(snap.services[sid]), up) {
      var o := AstrayByOwn(snap, env, sid, up);
    } else {
      var o := AstrayByOther(snap, env, sid, up);
    }
  }

  // ---------------------------------------------------------------- routes

  /** The route is there, and following it leads to the upstream. */
  predicate RouteLeads(out: Out, id: string, up: UpstreamOptions) {
    id in out.routes && Leads(out, out.routes[id].service, up)
  }

  /** The route translates and denotes an upstream. */
  predicate Denotes(snap: Snapshot, env: Env, id: string) {
    RouteMeans(snap, env, id).Some? && RouteConfig(env, snap.routes[id]).Some?
  }

  /** The service that the route is given can lead to something else than what the route denotes. */
  predicate Misled(snap: Snapshot, env: Env, id: string)
    requires Denotes(snap, env, id)
  {
    !AlwaysLeads(snap, env, TargetOf(snap.routes[id], id), RouteMeans(snap, env, id).value)
  }

  lemma {:induction false} DenotesIsKept(snap: Snapshot, env: Env, id: string)
    requires Denotes(snap, env, id)
    ensures RouteKept(snap, env, id)
  {
  }

  /** A route that denotes an upstream is there and leads to it in every order if and only if the
      service it is given can lead to nothing else. */
  lemma {:induction false} RouteReachesIff(snap: Snapshot, env: Env, id: string)
    requires Denotes(snap, env, id)
    ensures (forall o :: ValidOrders(snap, o) ==>
               RouteLeads(Built(snap, env, o), id, RouteMeans(snap, env, id).value)) <==> !Misled(snap, env, id)
  {
    var up, sid := RouteMeans(snap, env, id).value, TargetOf(snap.routes[id], id);
    DenotesIsKept(snap, env, id);
    forall o | ValidOrders(snap, o)
      ensures RouteLeads(Built(snap, env, o), id, up) <==> Leads(Built(snap, env, o), sid, up)
    {
      SettledRoute(snap, env, o, id);
    }
    ServiceLeadsIff(snap, env, sid, up);
  }

  /** A route whose service is always the declared one, with an upstream id that no service stores
      under, goes astray in every order if it does in one. */
  lemma {:induction false} AlwaysAstray(snap: Snapshot, env: Env, o: Orders, id: string)
    requires ValidOrders(snap, o) && Denotes(snap, env, id) && Misled(snap, env, id)
    requires var sid := TargetOf(snap.routes[id], id);
             && ServiceKept(snap, env, sid) && !Replaced(snap, env, snap.routes.Keys, sid)
             && !StoredIn(snap, env, snap.services.Keys, ServiceUpstreamId(snap.services[sid]))
    ensures id in Built(snap, env, o).routes
    ensures !RouteLeads(Built(snap, env, o), id, RouteMeans(snap, env, id).value)
  {
    var sid := TargetOf(snap.routes[id], id);
    DenotesIsKept(snap, env, id);
    SettledRoute(snap, env, o, id);
    ServiceLands(snap, env, o, sid);
    EndsSo(snap, env, o, ServiceUpstreamId(snap.services[sid]), RouteMeans(snap, env, id).value);
  }

  // ---------------------------------------------------------------- plain ids

  predicate Plain(id: string) {
    !HasPrefix(id, SERVICE) && !HasPrefix(id, ROUTE_UPSTREAM) && !HasPrefix(id, SERVICE_UPSTREAM)
  }

  /** No declared or referenced id has a synthesized prefix, and services carry their keys as ids. */
  predicate PlainIds(snap: Snapshot) {
    && (forall id :: id in snap.upstreams ==> Plain(id))
    && (forall id :: id in snap.services ==>
          Plain(id) && Plain(snap.services[id].upstreamId) && Named(snap.services[id].id, "service") == id)
    && (forall id :: id in snap.routes ==> Plain(snap.routes[id].serviceId) && Plain(snap.routes[id].upstreamId))
  }

  lemma {:induction false} PlainIsNotStored(snap: Snapshot, env: Env, id: string)
    requires Plain(id)
    ensures !StoredIn(snap, env, snap.services.Keys, id) && RouteInline(snap, env, snap.routes.Keys, id).None?
  {
    forall k | k in snap.services && StoredByService(snap, env, k).Some?
      ensures ServiceUpstreamId(snap.services[k]) != id
    {
      StoredName(snap, env, k);
    }
  }

  lemma {:induction false} PlainIsSteady(snap: Snapshot, env: Env)
    requires PlainIds(snap)
    ensures NamesAgree(snap, env)
    ensures forall k :: k in snap.services ==> !Borrows(snap, env, k)
    ensures forall id :: id in snap.routes ==> !Stray(snap, env, id)
  {
    forall k | k in snap.services ensures !Borrows(snap, env, k) {
      PlainIsNotStored(snap, env, snap.services[k].upstreamId);
    }
    forall j, k | j in snap.services && k in snap.services && StoredByService(snap, env, j).Some? &&
                  StoredByService(snap, env, k).Some? &&
                  ServiceUpstreamId(snap.services[j]) == ServiceUpstreamId(snap.services[k])
      ensures j == k
    {
      PrefixOf(SERVICE_UPSTREAM, j);
      PrefixOf(SERVICE_UPSTREAM, k);
    }
    forall id | id in snap.routes ensures !Stray(snap, env, id) {
      PlainIsNotStored(snap, env, snap.routes[id].upstreamId);
    }
  }

  /** The order in which the maps are visited does not matter. */
  lemma {:induction false} OrderDoesNotMatter(snap: Snapshot, env: Env, o: Orders, o': Orders)
    requires PlainIds(snap) && ValidOrders(snap, o) && ValidOrders(snap, o')
    ensures Built(snap, env, o) == Built(snap, env, o')
  {
    PlainIsSteady(snap, env);
    AgreementSuffices(snap, env, o, o');
  }

  lemma {:induction false} PlainIsNotMisled(snap: Snapshot, env: Env, id: string)
    requires PlainIds(snap) && Denotes(snap, env, id)
    ensures !Misled(snap, env, id)
  {
    var r := snap.routes[id];
    var sid := TargetOf(r, id);
    PlainIsSteady(snap, env);
    PrefixOf(SERVICE, r.upstreamId);
    PrefixOf(SERVICE, ROUTE_UPSTREAM + id);
    PrefixOf(ROUTE_UPSTREAM, id);
    RouteNameIsFree(snap, env, snap.services.Keys, id);
    PlainIsNotStored(snap, env, r.upstreamId);
    if r.serviceId != "" {
      PlainIsNotStored(snap, env, snap.services[sid].upstreamId);
      if StoredByService(snap, env, sid).Some? {
        assert StoresAs(snap, env, sid, ServiceUpstreamId(snap.services[sid]));
      }
    }
  }

  /** A route is kept exactly if it translates and denotes an upstream, and it reaches that upstream. */
  lemma {:induction false} RouteReachesItsUpstream(snap: Snapshot, env: Env, o: Orders, id: string)
    requires PlainIds(snap) && ValidOrders(snap, o)
    ensures id in Built(snap, env, o).routes <==> Denotes(snap, env, id)
    ensures Denotes(snap, env, id) ==> RouteLeads(Built(snap, env, o), id, RouteMeans(snap, env, id).value)
  {
    PlainIsSteady(snap, env);
    SettledRoute(snap, env, o, id);
    if id in snap.routes { PlainIsNotStored(snap, env, snap.routes[id].upstreamId); }
    if Denotes(snap, env, id) {
      PlainIsNotMisled(snap, env, id);
      RouteReachesIff(snap, env, id);
    }
  }
}
