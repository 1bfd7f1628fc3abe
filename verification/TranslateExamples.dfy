/**
 Snapshots on which the obvious claims about their translation fail.
 */
module TranslateExamples {
  import opened Config
  import opened Text
  import opened Translate
  import opened TranslateMeaning
  import opened TranslateOrder
  import opened TranslateReach

  const NO_TIMEOUT: TimeoutOptions := TimeoutOptions(0, 0, 0)

  /** Every translation succeeds, and nodes name their one endpoint. */
  const EASY: Env := Env(nodes => Some([EndpointOptions(nodes, 1)]), (id, inline) => Some([]), uri => uri)

  function UpstreamWith(scheme: string, passHost: string, nodes: string): Translate.Upstream {
    Translate.Upstream("", scheme, passHost, "", NO_TIMEOUT, nodes)
  }

  function EasyUpstream(scheme: string, passHost: string, nodes: string): UpstreamOptions {
    UpstreamOptions("upstream", "", scheme, passHost, "", [EndpointOptions(nodes, 1)], [], NO_TIMEOUT)
  }

  lemma {:induction false} EasyConfig(scheme: string, passHost: string, nodes: string)
    ensures UpstreamConfig(EASY, UpstreamWith(scheme, passHost, nodes)) == Some(EasyUpstream(scheme, passHost, nodes))
  {
  }

  lemma {:induction false} NodesTell(a: string, b: string)
    requires a != b
    ensures !SameUpstream(EasyUpstream("http", "", a), EasyUpstream("http", "", b))
  {
    assert EasyUpstream("http", "", a).endpoints[0].address != EasyUpstream("http", "", b).endpoints[0].address;
  }

  lemma {:induction false} EasyRoute(r: Route)
    requires r.uri != ""
    ensures RouteConfig(EASY, r).Some?
  {
    assert PathsOf(EASY, [r.uri] + r.uris) == [EASY.path(r.uri)] + PathsOf(EASY, ([r.uri] + r.uris)[1..]);
  }

  lemma {:induction false} NothingInline(snap: Snapshot, env: Env)
    requires forall k :: k in snap.services ==> snap.services[k].inline.None?
    ensures NamesAgree(snap, env) && forall id :: !StoredIn(snap, env, snap.services.Keys, id)
  {
  }

  /** A declared service called "service-a": the route that names the upstream "a" is sent through
      it, to the upstream "b". */
  const CLASHING: Snapshot := Snapshot(
    map["r" := Route("r", "/", [], [], [], "", "a", "", None, "", 0)],
    map["service-a" := Service("service-a", "b", "", None, "")],
    map["a" := UpstreamWith("http", "", "host-a:80"), "b" := UpstreamWith("http", "", "host-b:80")])

  lemma {:induction false} ClashingMeans()
    ensures Declared(CLASHING, EASY, "a") == Some(EasyUpstream("http", "", "host-a:80"))
    ensures Declared(CLASHING, EASY, "b") == Some(EasyUpstream("http", "", "host-b:80"))
    ensures ServiceMeans(CLASHING, EASY, "service-a") == Declared(CLASHING, EASY, "b")
    ensures RouteMeans(CLASHING, EASY, "r") == Declared(CLASHING, EASY, "a")
  {
    EasyConfig("http", "", "host-a:80");
    EasyConfig("http", "", "host-b:80");
  }

  lemma {:induction false} PrefixedServiceMisroutes(o: Orders)
    requires ValidOrders(CLASHING, o)
    ensures Denotes(CLASHING, EASY, "r")
    ensures "r" in Built(CLASHING, EASY, o).routes
    ensures !RouteLeads(Built(CLASHING, EASY, o), "r", RouteMeans(CLASHING, EASY, "r").value)
  {
    NothingInline(CLASHING, EASY);
    ClashingMeans();
    assert "host-a:80"[5] != "host-b:80"[5];
    NodesTell("host-b:80", "host-a:80");
    assert SERVICE + "a" == "service-a";
    EasyRoute(CLASHING.routes["r"]);
    AlwaysAstray(CLASHING, EASY, o, "r");
  }

  /** A route that names the service synthesized for another route's upstream. */
  const STRAY: Snapshot := Snapshot(
    map["r" := Route("r", "/r", [], [], [], "service-u", "", "", None, "", 0),
        "q" := Route("q", "/q", [], [], [], "", "u", "", None, "", 0)],
    map[],
    map["u" := UpstreamWith("http", "", "host-u:80")])

  lemma {:induction false} StrayRouteDependsOnOrder()
    ensures NamesAgree(STRAY, EASY) && !OrderIrrelevant(STRAY, EASY)
  {
    NothingInline(STRAY, EASY);
    EasyConfig("http", "", "host-u:80");
    EasyRoute(STRAY.routes["r"]);
    EasyRoute(STRAY.routes["q"]);
    PrefixOf(SERVICE, "u");
    assert SERVICE + "u" == "service-u";
    assert "q" in STRAY.routes.Keys && UsesDirectly(STRAY, EASY, "q", "service-u"[|SERVICE|..]);
    StrayShows(STRAY, EASY, "r");
  }

  /** A service that names the inline upstream of another. */
  const LENT: Snapshot := Snapshot(
    map[],
    map["x" := Service("x", "", "", Some(UpstreamWith("http", "", "host-x:80")), ""),
        "y" := Service("y", "upstream-service-x", "", None, "")],
    map[])

  lemma {:induction false} LentServiceDependsOnOrder()
    ensures NamesAgree(LENT, EASY) && !OrderIrrelevant(LENT, EASY)
  {
    EasyConfig("http", "", "host-x:80");
    assert SERVICE_UPSTREAM + "x" == "upstream-service-x";
    assert "x" in LENT.services.Keys && StoresAs(LENT, EASY, "x", "upstream-service-x");
    assert !HasPrefix("y", SERVICE);
    ShakyShows(LENT, EASY, "y");
  }

  /** Two services without an id of their own share the name of their inline upstreams. */
  const NAMELESS: Snapshot := Snapshot(
    map["r" := Route("r", "/", [], [], [], "x", "", "", None, "", 0)],
    map["x" := Service("", "", "", Some(UpstreamWith("http", "", "host-x:80")), ""),
        "y" := Service("", "", "", Some(UpstreamWith("http", "", "host-y:80")), "")],
    map[])

  lemma {:induction false} NamelessStores(id: string, nodes: string)
    requires id in NAMELESS.services && NAMELESS.services[id].inline == Some(UpstreamWith("http", "", nodes))
    requires NAMELESS.services[id].upstreamId == "" && NAMELESS.services[id].id == ""
    ensures StoredByService(NAMELESS, EASY, id) ==
            Some(EasyUpstream("http", "", nodes).(id := SERVICE_UPSTREAM + "service"))
    ensures ServiceUpstreamId(NAMELESS.services[id]) == SERVICE_UPSTREAM + "service"
  {
    EasyConfig("http", "", nodes);
  }

  lemma {:induction false} NamelessDiffer()
    ensures var a, b := StoredByService(NAMELESS, EASY, "x"), StoredByService(NAMELESS, EASY, "y");
            a.Some? && b.Some? && !SameUpstream(b.value, a.value)
    ensures ServiceUpstreamId(NAMELESS.services["x"]) == ServiceUpstreamId(NAMELESS.services["y"])
  {
    NamelessStores("x", "host-x:80");
    NamelessStores("y", "host-y:80");
    var a, b := StoredByService(NAMELESS, EASY, "x").value, StoredByService(NAMELESS, EASY, "y").value;
    assert a.endpoints[0].address[5] != b.endpoints[0].address[5];
  }

  lemma {:induction false} NamelessServicesDependOnOrder()
    ensures !OrderIrrelevant(NAMELESS, EASY)
  {
    NamelessDiffer();
    DisagreementShows(NAMELESS, EASY, "x", "y");
  }

  /** The route through "x" is sent to the upstream of "y" in some order. */
  lemma {:induction false} NamelessServiceMisroutes() returns (o: Orders)
    ensures Denotes(NAMELESS, EASY, "r") && ValidOrders(NAMELESS, o)
    ensures !RouteLeads(Built(NAMELESS, EASY, o), "r", RouteMeans(NAMELESS, EASY, "r").value)
  {
    NamelessDiffer();
    EasyRoute(NAMELESS.routes["r"]);
    var up, uid := RouteMeans(NAMELESS, EASY, "r").value, ServiceUpstreamId(NAMELESS.services["x"]);
    assert "y" in NAMELESS.services.Keys && StoresAs(NAMELESS, EASY, "y", uid);
    assert !EndsAs(NAMELESS, EASY, uid, up);
    assert !HasPrefix("x", SERVICE);
    RouteReachesIff(NAMELESS, EASY, "r");
    o :| ValidOrders(NAMELESS, o) && !RouteLeads(Built(NAMELESS, EASY, o), "r", up);
  }
}
