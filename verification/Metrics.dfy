/**
 The label tuples of internal/observability/observability.go and the keys they are rendered to.
 */
module Metrics {
  import opened Labels

  // ---------------------------------------------------------------- labels and their keys

  datatype GatewayLabels = GatewayLabels(handler: string, verb: string, routeId: string, statusClass: string)

  datatype PluginLabels = PluginLabels(plugin: string, scope: string, phase: string, routeId: string,
                                       serviceId: string, upstreamId: string, result: string)

  datatype UpstreamLabels = UpstreamLabels(routeId: string, serviceId: string, upstreamId: string, endpoint: string,
                                           scheme: string, verb: string, statusClass: string, errorType: string,
                                           reusedConn: bool)

  /** What a counter or histogram is kept for; an upstream counter has no phase. */
  datatype Label = ForGateway(g: GatewayLabels) | ForPlugin(p: PluginLabels) | ForUpstream(u: UpstreamLabels,
                              phase: string)

  /** The label names of each family, in the order they are rendered. */
  datatype NameTable = NameTable(gateway: seq<string>, plugin: seq<string>, upstream: seq<string>)

  const STANDARD: NameTable := NameTable(
    ["handler", "method", "route_id", "status_class"],
    ["phase", "plugin", "result", "route_id", "scope", "service_id", "upstream_id"],
    ["endpoint", "error_type", "method", "phase", "reused_conn", "route_id", "scheme", "service_id", "status_class",
     "upstream_id"])

  predicate GoodTable(t: NameTable) {
    && GoodNames(t.gateway) && GoodNames(t.plugin) && GoodNames(t.upstream)
    && |t.gateway| == 4 && |t.plugin| == 7 && |t.upstream| == 10
  }

  predicate AllGood(names: seq<string>) {
    forall i :: 0 <= i < |names| ==> GoodName(names[i])
  }

  /** Length and first letter tell the names of one list apart. */
  predicate ToldApart(names: seq<string>) {
    forall i, j :: 0 <= i < j < |names| && names[i] != "" && names[j] != "" ==>
      |names[i]| != |names[j]| || names[i][0] != names[j][0]
  }

  lemma {:induction false} GoodAndToldApart(names: seq<string>)
    requires AllGood(names) && ToldApart(names)
    ensures GoodNames(names)
  {
  }

  lemma {:induction false} GatewayNames()
    ensures AllGood(STANDARD.gateway)
  {
  }

  lemma {:induction false} PluginNames()
    ensures AllGood(STANDARD.plugin)
  {
  }

  lemma {:induction false} UpstreamNamesFront()
    ensures forall i :: 0 <= i < 5 ==> GoodName(STANDARD.upstream[i])
  {
  }

  lemma {:induction false} UpstreamNamesBack()
    ensures forall i :: 5 <= i < |STANDARD.upstream| ==> GoodName(STANDARD.upstream[i])
  {
  }

  lemma {:induction false} UpstreamNames()
    ensures AllGood(STANDARD.upstream)
  {
    UpstreamNamesFront();
    UpstreamNamesBack();
    FrontAndBack(STANDARD.upstream, 5);
  }

  lemma {:induction false} FrontAndBack(names: seq<string>, n: nat)
    requires n <= |names| && forall i :: 0 <= i < n ==> GoodName(names[i])
    requires forall i :: n <= i < |names| ==> GoodName(names[i])
    ensures AllGood(names)
  {
  }

  lemma {:induction false} NamesApart()
    ensures ToldApart(STANDARD.gateway) && ToldApart(STANDARD.plugin)
  {
  }

  lemma {:induction false} UpstreamNamesApart()
    ensures ToldApart(STANDARD.upstream)
  {
  }

  lemma {:induction false} StandardIsGood()
    ensures GoodTable(STANDARD)
  {
    GatewayNames();
    PluginNames();
    UpstreamNames();
    NamesApart();
    UpstreamNamesApart();
    GoodAndToldApart(STANDARD.gateway);
    GoodAndToldApart(STANDARD.plugin);
    GoodAndToldApart(STANDARD.upstream);
  }

  function Names(t: NameTable, l: Label): seq<string> {
    match l
    case ForGateway(_) => t.gateway
    case ForPlugin(_) => t.plugin
    case ForUpstream(_, _) => t.upstream
  }

  function Values(l: Label): seq<string> {
    match l
    case ForGateway(g) => [g.handler, g.verb, g.routeId, g.statusClass]
    case ForPlugin(p) => [p.phase, p.plugin, p.result, p.routeId, p.scope, p.serviceId, p.upstreamId]
    case ForUpstream(u, phase) =>
      [u.endpoint, u.errorType, u.verb, phase, if u.reusedConn then "true" else "false", u.routeId, u.scheme,
       u.serviceId, u.statusClass, u.upstreamId]
  }

  /** renderGatewayKey, renderPluginKey, renderUpstreamKey. */
  function KeyOf(t: NameTable, l: Label): string
    requires GoodTable(t)
  {
    Render(Names(t, l), Values(l))
  }

  predicate SameFamily(a: Label, b: Label) {
    (a.ForGateway? <==> b.ForGateway?) && (a.ForPlugin? <==> b.ForPlugin?)
  }

  lemma {:induction false} UpstreamValuesInjective(a: Label, b: Label)
    requires a.ForUpstream? && b.ForUpstream? && Values(a) == Values(b)
    ensures a == b
  {
    assert Values(a)[0] == Values(b)[0] && Values(a)[1] == Values(b)[1] && Values(a)[2] == Values(b)[2];
    assert Values(a)[3] == Values(b)[3] && Values(a)[5] == Values(b)[5] && Values(a)[6] == Values(b)[6];
    assert Values(a)[7] == Values(b)[7] && Values(a)[8] == Values(b)[8] && Values(a)[9] == Values(b)[9];
    assert |Values(a)[4]| == |Values(b)[4]|;
  }

  lemma {:induction false} ValuesInjective(a: Label, b: Label)
    requires SameFamily(a, b) && Values(a) == Values(b)
    ensures a == b
  {
    match a
    case ForGateway(_) =>
      assert forall i :: 0 <= i < 4 ==> Values(a)[i] == Values(b)[i];
    case ForPlugin(_) =>
      assert forall i :: 0 <= i < 7 ==> Values(a)[i] == Values(b)[i];
    case ForUpstream(_, _) => UpstreamValuesInjective(a, b);
  }

  /** Within a family of metrics, a key belongs to one combination of labels only. */
  lemma {:induction false} KeyInjective(t: NameTable, a: Label, b: Label)
    requires GoodTable(t) && SameFamily(a, b) && KeyOf(t, a) == KeyOf(t, b)
    ensures a == b
  {
    RenderInjective(Names(t, a), Values(a), Values(b));
    ValuesInjective(a, b);
  }

  /** The key of a label, as the recorder renders it. */
  function Rendered(l: Label): string {
    StandardIsGood();
    KeyOf(STANDARD, l)
  }

  method RenderLabel(l: Label) returns (key: string)
    ensures key == Rendered(l)
  {
    StandardIsGood();
    key := RenderKey(Names(STANDARD, l), Values(l));
  }

  /** A way to name labels that keeps the labels of a family apart. */
  ghost predicate TellsApart(key: Label -> string) {
    forall a, b :: SameFamily(a, b) && key(a) == key(b) ==> a == b
  }

  lemma {:induction false} RenderingTellsApart()
    ensures TellsApart(Rendered)
  {
    StandardIsGood();
    forall a, b | SameFamily(a, b) && Rendered(a) == Rendered(b) ensures a == b {
      KeyInjective(STANDARD, a, b);
    }
  }
}
