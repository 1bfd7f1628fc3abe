/**
 MemoryRecorder of internal/observability/observability.go: six maps updated in place, tied to the
 log of everything observed since the last reset.
 */
module Recorder {
  import opened Metrics
  import opened MetricIndex

  const PLUGIN_BOUNDS: seq<real> := [0.0005, 0.001, 0.005, 0.01, 0.025, 0.05, 0.1, 0.25, 0.5, 1.0, 2.5, 5.0]
  const WIDE_BOUNDS: seq<real> := PLUGIN_BOUNDS + [10.0]

  predicate Ascending(bounds: seq<real>) {
    forall i :: 0 <= i < |bounds| - 1 ==> bounds[i] < bounds[i + 1]
  }

  lemma {:induction false} AscendingPair(bounds: seq<real>, i: nat, j: nat)
    requires Ascending(bounds) && i < j < |bounds|
    ensures bounds[i] < bounds[j]
  {
    if i + 1 < j { AscendingPair(bounds, i, j - 1); }
  }

  lemma {:induction false} BoundsAreDistinct()
    ensures Distinct(PLUGIN_BOUNDS) && Distinct(WIDE_BOUNDS)
  {
    assert Ascending(PLUGIN_BOUNDS);
    assert Ascending(WIDE_BOUNDS);
    forall i, j | 0 <= i < j < |PLUGIN_BOUNDS| ensures PLUGIN_BOUNDS[i] != PLUGIN_BOUNDS[j] {
      AscendingPair(PLUGIN_BOUNDS, i, j);
    }
    forall i, j | 0 <= i < j < |WIDE_BOUNDS| ensures WIDE_BOUNDS[i] != WIDE_BOUNDS[j] {
      AscendingPair(WIDE_BOUNDS, i, j);
    }
  }

  // ---------------------------------------------------------------- the log

  datatype Family = Gateway | Plugin | Upstream

  function FamilyOf(l: Label): Family {
    match l
    case ForGateway(_) => Gateway
    case ForPlugin(_) => Plugin
    case ForUpstream(_, _) => Upstream
  }

  /** A duration observed for a label, and the key it goes under. */
  datatype Sample = Sample(on: Label, key: string, value: real)

  /** One call of an Observe method: the label it counts, its key, and the durations it observes. */
  datatype Call = Call(on: Label, key: string, samples: seq<Sample>)

  /** The calls since the last reset, the latest at the outside. */
  datatype Log = Start | Then(before: Log, call: Call)

  predicate KeyedSample(key: Label -> string, s: Sample, f: Family) {
    s.key == key(s.on) && FamilyOf(s.on) == f
  }

  /** The call has the keys of its labels, its samples are of its family, and an upstream call is
      counted under its labels alone, without a phase. */
  predicate KeyedCall(key: Label -> string, c: Call) {
    && c.key == key(c.on) && (c.on.ForUpstream? ==> c.on.phase == "")
    && forall i :: 0 <= i < |c.samples| ==> KeyedSample(key, c.samples[i], FamilyOf(c.on))
  }

  predicate KeyedLog(key: Label -> string, log: Log) {
    log.Then? ==> KeyedLog(key, log.before) && KeyedCall(key, log.call)
  }

  function PointsOf(ss: seq<Sample>): (ps: seq<Point>)
    ensures |ps| == |ss| && forall i :: 0 <= i < |ss| ==> ps[i] == Point(ss[i].key, ss[i].value)
  {
    seq(|ss|, i requires 0 <= i < |ss| => Point(ss[i].key, ss[i].value))
  }

  /** The counters of a family after the calls of the log. */
  function CountersOf(log: Log, f: Family): map<string, nat> {
    match log
    case Start => map[]
    case Then(before, c) => if FamilyOf(c.on) == f then Bump(CountersOf(before, f), c.key) else CountersOf(before, f)
  }

  /** The histograms of a family after the calls of the log. */
  function DurationsOf(log: Log, f: Family, bounds: seq<real>): Histograms {
    match log
    case Start => map[]
    case Then(before, c) =>
      if FamilyOf(c.on) == f then ObservedAll(DurationsOf(before, f, bounds), PointsOf(c.samples), bounds)
      else DurationsOf(before, f, bounds)
  }

  // ---------------------------------------------------------------- a call

  /** The durations of a ProxyInfo. */
  datatype ProxyTimes = ProxyTimes(connect: real, tlsHandshake: real, requestWrite: real, firstByte: real,
                                   responseRead: real, processingEstimate: real, total: real)

  /** What is observed, without keys. */
  predicate IsCall(c: Call, on: Label, samples: seq<(Label, real)>) {
    && c.on == on && |c.samples| == |samples|
    && forall i :: 0 <= i < |samples| ==> c.samples[i].on == samples[i].0 && c.samples[i].value == samples[i].1
  }

  /** An upstream call observes every phase, under a key of its own. */
  function PhaseTimes(u: UpstreamLabels, t: ProxyTimes): seq<(Label, real)> {
    [(ForUpstream(u, "connect"), t.connect),
     (ForUpstream(u, "tls_handshake"), t.tlsHandshake),
     (ForUpstream(u, "request_write"), t.requestWrite),
     (ForUpstream(u, "first_byte"), t.firstByte),
     (ForUpstream(u, "response_read"), t.responseRead),
     (ForUpstream(u, "processing_estimate"), t.processingEstimate),
     (ForUpstream(u, "total"), t.total)]
  }

  /** The duration of a phase, by its name. */
  function TimeOf(t: ProxyTimes, phase: string): Option<real> {
    match phase
    case "connect" => Some(t.connect)
    case "tls_handshake" => Some(t.tlsHandshake)
    case "request_write" => Some(t.requestWrite)
    case "first_byte" => Some(t.firstByte)
    case "response_read" => Some(t.responseRead)
    case "processing_estimate" => Some(t.processingEstimate)
    case "total" => Some(t.total)
    case _ => None
  }

  datatype Option<T> = None | Some(value: T)

  /** The samples are one of each phase, with the duration of that name. */
  predicate OnePerPhase(c: Call, u: UpstreamLabels, t: ProxyTimes) {
    && |c.samples| == 7
    && (forall i :: 0 <= i < 7 ==>
          c.samples[i].on.ForUpstream? && c.samples[i].on.u == u &&
          TimeOf(t, c.samples[i].on.phase) == Some(c.samples[i].value))
    && (forall i, j :: 0 <= i < j < 7 ==> c.samples[i].on != c.samples[j].on)
  }

  lemma {:induction false} PhasesByName(u: UpstreamLabels, t: ProxyTimes, c: Call)
    requires IsCall(c, ForUpstream(u, ""), PhaseTimes(u, t))
    ensures OnePerPhase(c, u, t)
  {
  }

  method RenderCall(key: Label -> string, on: Label, samples: seq<(Label, real)>) returns (c: Call)
    requires on.ForUpstream? ==> on.phase == ""
    requires forall i :: 0 <= i < |samples| ==> FamilyOf(samples[i].0) == FamilyOf(on)
    ensures KeyedCall(key, c) && IsCall(c, on, samples)
  {
    var ss := [];
    for i := 0 to |samples|
      invariant |ss| == i
      invariant forall j :: 0 <= j < i ==>
                  ss[j] == Sample(samples[j].0, key(samples[j].0), samples[j].1)
    {
      ss := ss + [Sample(samples[i].0, key(samples[i].0), samples[i].1)];
    }
    c := Call(on, key(on), ss);
  }

  // ---------------------------------------------------------------- the object

  lemma {:induction false} ObservedAllShaped(start: Histograms, ps: seq<Point>, bounds: seq<real>)
    requires Shaped(start, bounds)
    ensures Shaped(ObservedAll(start, ps, bounds), bounds)
  {
    if ps != [] {
      var n := |ps| - 1;
      ObservedAllShaped(start, ps[..n], bounds);
      ShapedStep(ObservedAll(start, ps[..n], bounds), ps[n], bounds);
    }
  }

  lemma {:induction false} DurationsAreShaped(log: Log, f: Family, bounds: seq<real>)
    ensures Shaped(DurationsOf(log, f, bounds), bounds)
  {
    if log.Then? {
      DurationsAreShaped(log.before, f, bounds);
      ObservedAllShaped(DurationsOf(log.before, f, bounds), PointsOf(log.call.samples), bounds);
    }
  }

  /** What every Observe method does to its two maps. */
  method Record(counts: map<string, nat>, hs: Histograms, c: Call, bounds: seq<real>, ghost log: Log)
    returns (counts': map<string, nat>, hs': Histograms)
    requires Distinct(bounds)
    requires counts == CountersOf(log, FamilyOf(c.on)) && hs == DurationsOf(log, FamilyOf(c.on), bounds)
    ensures counts' == CountersOf(Then(log, c), FamilyOf(c.on))
    ensures hs' == DurationsOf(Then(log, c), FamilyOf(c.on), bounds)
  {
    DurationsAreShaped(log, FamilyOf(c.on), bounds);
    counts' := Bump(counts, c.key);
    hs' := ObserveAll(hs, PointsOf(c.samples), bounds);
  }

  class MemoryRecorder {
    var gatewayRequests: map<string, nat>
    var gatewayDurations: Histograms
    var pluginExecutions: map<string, nat>
    var pluginDurations: Histograms
    var upstreamRequests: map<string, nat>
    var upstreamDurations: Histograms
    ghost var log: Log
    const key: Label -> string
    const pluginBounds: seq<real>
    const wideBounds: seq<real>

    /** The maps hold what the log since the last reset amounts to. */
    ghost predicate Consistent()
      reads this
    {
      && gatewayRequests == CountersOf(log, Gateway) && gatewayDurations == DurationsOf(log, Gateway, wideBounds)
      && pluginExecutions == CountersOf(log, Plugin) && pluginDurations == DurationsOf(log, Plugin, pluginBounds)
      && upstreamRequests == CountersOf(log, Upstream) && upstreamDurations == DurationsOf(log, Upstream, wideBounds)
    }

    /** And the log has the rendered keys of its labels. */
    ghost predicate Valid()
      reads this
    {
      && key == Rendered && KeyedLog(key, log)
      && Distinct(pluginBounds) && Distinct(wideBounds) && Consistent()
    }

    /** The counters of a family. */
    function Counters(f: Family): map<string, nat>
      reads this
    {
      match f
      case Gateway => gatewayRequests
      case Plugin => pluginExecutions
      case Upstream => upstreamRequests
    }

    /** The histograms of a family, and their bounds. */
    function Durations(f: Family): (Histograms, seq<real>)
      reads this
    {
      match f
      case Gateway => (gatewayDurations, wideBounds)
      case Plugin => (pluginDurations, pluginBounds)
      case Upstream => (upstreamDurations, wideBounds)
    }

    constructor ()
      ensures Valid() && log == Start
      ensures pluginBounds == PLUGIN_BOUNDS && wideBounds == WIDE_BOUNDS
    {
      BoundsAreDistinct();
      key, pluginBounds, wideBounds := Rendered, PLUGIN_BOUNDS, WIDE_BOUNDS;
      gatewayRequests, pluginExecutions, upstreamRequests := map[], map[], map[];
      gatewayDurations, pluginDurations, upstreamDurations := map[], map[], map[];
      log := Start;
    }

    method Reset()
      requires Valid()
      modifies this
      ensures Valid() && log == Start
    {
      gatewayRequests, pluginExecutions, upstreamRequests := map[], map[], map[];
      gatewayDurations, pluginDurations, upstreamDurations := map[], map[], map[];
      log := Start;
    }

    method ObserveGateway(labels: GatewayLabels, seconds: real)
      requires Valid()
      modifies this
      ensures Valid() && log.Then? && log.before == old(log)
      ensures IsCall(log.call, ForGateway(labels), [(ForGateway(labels), seconds)])
    {
      var c := RenderCall(key, ForGateway(labels), [(ForGateway(labels), seconds)]);
      LogGateway(c);
    }

    method LogGateway(c: Call)
      requires Consistent() && Distinct(wideBounds) && c.on.ForGateway?
      modifies this
      ensures Consistent() && log == Then(old(log), c)
    {
      gatewayRequests, gatewayDurations := Record(gatewayRequests, gatewayDurations, c, wideBounds, log);
      log := Then(log, c);
    }

    method ObservePlugin(labels: PluginLabels, seconds: real)
      requires Valid()
      modifies this
      ensures Valid() && log.Then? && log.before == old(log)
      ensures IsCall(log.call, ForPlugin(labels), [(ForPlugin(labels), seconds)])
    {
      var c := RenderCall(key, ForPlugin(labels), [(ForPlugin(labels), seconds)]);
      LogPlugin(c);
    }

    method LogPlugin(c: Call)
      requires Consistent() && Distinct(pluginBounds) && c.on.ForPlugin?
      modifies this
      ensures Consistent() && log == Then(old(log), c)
    {
      pluginExecutions, pluginDurations := Record(pluginExecutions, pluginDurations, c, pluginBounds, log);
      log := Then(log, c);
    }

    method ObserveUpstream(labels: UpstreamLabels, times: ProxyTimes)
      requires Valid()
      modifies this
      ensures Valid() && log.Then? && log.before == old(log)
      ensures IsCall(log.call, ForUpstream(labels, ""), PhaseTimes(labels, times))
      ensures OnePerPhase(log.call, labels, times)
    {
      var c := RenderCall(key, ForUpstream(labels, ""), PhaseTimes(labels, times));
      PhasesByName(labels, times, c);
      LogUpstream(c);
    }

    method LogUpstream(c: Call)
      requires Consistent() && Distinct(wideBounds) && c.on.ForUpstream?
      modifies this
      ensures Consistent() && log == Then(old(log), c)
    {
      upstreamRequests, upstreamDurations := Record(upstreamRequests, upstreamDurations, c, wideBounds, log);
      log := Then(log, c);
    }
  }

  // ---------------------------------------------------------------- counters over whole runs

  /** How many calls of the log count for the label. */
  function CallsFor(log: Log, l: Label): nat {
    match log
    case Start => 0
    case Then(before, c) => CallsFor(before, l) + if c.on == l then 1 else 0
  }

  lemma {:induction false} SameFamilyIff(a: Label, b: Label)
    ensures SameFamily(a, b) <==> FamilyOf(a) == FamilyOf(b)
  {
  }

  /** After any run of observations, the counter stored under the key of a label equals the number
      of calls in the log with exactly these labels. */
  lemma {:induction false} CountersAgreeWithLog(key: Label -> string, log: Log, l: Label)
    requires TellsApart(key) && KeyedLog(key, log)
    ensures Count(CountersOf(log, FamilyOf(l)), key(l)) == CallsFor(log, l)
  {
    if log.Then? {
      CountersAgreeWithLog(key, log.before, l);
      SameFamilyIff(log.call.on, l);
    }
  }

  // ---------------------------------------------------------------- histograms over whole runs

  /** The samples of a family, in the order they were observed. */
  function SamplesIn(log: Log, f: Family): seq<Sample> {
    match log
    case Start => []
    case Then(before, c) => SamplesIn(before, f) + if FamilyOf(c.on) == f then c.samples else []
  }

  lemma {:induction false} PointsConcat(a: seq<Sample>, b: seq<Sample>)
    ensures PointsOf(a + b) == PointsOf(a) + PointsOf(b)
  {
  }

  lemma {:induction false} DurationsAreOfSamples(log: Log, f: Family, bounds: seq<real>)
    ensures DurationsOf(log, f, bounds) == HistogramsOf(PointsOf(SamplesIn(log, f)), bounds)
  {
    if log.Then? {
      DurationsAreOfSamples(log.before, f, bounds);
      var front, more := SamplesIn(log.before, f), log.call.samples;
      PointsConcat(front, more);
      ObservedConcat(map[], PointsOf(front), PointsOf(more), bounds);
      assert front + [] == front;
    }
  }

  function SamplesOn(ss: seq<Sample>, l: Label): nat {
    if ss == [] then 0 else SamplesOn(ss[..|ss| - 1], l) + if ss[|ss| - 1].on == l then 1 else 0
  }

  /** The samples of a label that are not above the bound. */
  function SamplesAtMost(ss: seq<Sample>, l: Label, bound: real): nat {
    if ss == [] then 0
    else SamplesAtMost(ss[..|ss| - 1], l, bound) + if ss[|ss| - 1].on == l && ss[|ss| - 1].value <= bound then 1 else 0
  }

  function SampleTotal(ss: seq<Sample>, l: Label): real {
    if ss == [] then 0.0 else SampleTotal(ss[..|ss| - 1], l) + if ss[|ss| - 1].on == l then ss[|ss| - 1].value else 0.0
  }

  /** `k` is the key of `l` and of nothing else among the samples. */
  predicate SampleTells(ss: seq<Sample>, l: Label, k: string) {
    forall i :: 0 <= i < |ss| ==> (ss[i].key == k <==> ss[i].on == l)
  }

  lemma {:induction false} ByLabel(ss: seq<Sample>, l: Label, k: string, bound: real)
    requires SampleTells(ss, l, k)
    ensures Points(PointsOf(ss), k) == SamplesOn(ss, l)
    ensures AtMost(PointsOf(ss), k, bound) == SamplesAtMost(ss, l, bound)
    ensures Total(PointsOf(ss), k) == SampleTotal(ss, l)
  {
    if ss != [] {
      var n := |ss| - 1;
      ByLabel(ss[..n], l, k, bound);
      assert PointsOf(ss)[..n] == PointsOf(ss[..n]);
    }
  }

  lemma {:induction false} LogSamplesTell(key: Label -> string, log: Log, l: Label)
    requires TellsApart(key) && KeyedLog(key, log)
    ensures SampleTells(SamplesIn(log, FamilyOf(l)), l, key(l))
  {
    if log.Then? {
      LogSamplesTell(key, log.before, l);
      if FamilyOf(log.call.on) == FamilyOf(l) {
        forall i | 0 <= i < |log.call.samples|
          ensures log.call.samples[i].key == key(l) <==> log.call.samples[i].on == l
        {
          assert KeyedSample(key, log.call.samples[i], FamilyOf(l));
          SameFamilyIff(log.call.samples[i].on, l);
        }
      }
    }
  }

  /** What the log demands of the histogram under a key, at a bound. */
  ghost predicate ExactFor(hs: Histograms, k: string, ss: seq<Sample>, l: Label, bounds: seq<real>, bound: real) {
    && (k in hs <==> SamplesOn(ss, l) > 0)
    && (k in hs ==>
          && hs[k].count == SamplesOn(ss, l) && hs[k].sum == SampleTotal(ss, l)
          && (bound in hs[k].bins <==> bound in bounds)
          && (bound in bounds ==> hs[k].bins[bound] == SamplesAtMost(ss, l, bound)))
  }

  lemma {:induction false} ExactByLabel(ss: seq<Sample>, l: Label, k: string, bounds: seq<real>, bound: real)
    requires SampleTells(ss, l, k)
    ensures ExactFor(HistogramsOf(PointsOf(ss), bounds), k, ss, l, bounds, bound)
  {
    ByLabel(ss, l, k, bound);
    HistogramIsExact(PointsOf(ss), k, bounds);
  }

  /** After any run of observations there is a histogram for exactly the labels with samples; its
      count, its sum and each cumulative bucket equal those of the samples with these labels. */
  lemma {:induction false} HistogramsAgreeWithLog(key: Label -> string, log: Log, l: Label, bounds: seq<real>,
                                                  bound: real)
    requires TellsApart(key) && KeyedLog(key, log)
    ensures ExactFor(DurationsOf(log, FamilyOf(l), bounds), key(l), SamplesIn(log, FamilyOf(l)), l, bounds, bound)
  {
    LogSamplesTell(key, log, l);
    DurationsAreOfSamples(log, FamilyOf(l), bounds);
    ExactByLabel(SamplesIn(log, FamilyOf(l)), l, key(l), bounds, bound);
  }

  /** At any time, what a recorder holds under the rendered key of a label is what was observed with
      exactly these labels since the last reset: the counter, and count, sum and every bucket of the
      histogram. */
  lemma {:induction false} RecorderAgreesWithLog(r: MemoryRecorder, l: Label, bound: real)
    requires r.Valid()
    ensures Count(r.Counters(FamilyOf(l)), Rendered(l)) == CallsFor(r.log, l)
    ensures var (hs, bounds) := r.Durations(FamilyOf(l));
            ExactFor(hs, Rendered(l), SamplesIn(r.log, FamilyOf(l)), l, bounds, bound)
  {
    RenderingTellsApart();
    CountersAgreeWithLog(r.key, r.log, l);
    HistogramsAgreeWithLog(r.key, r.log, l, r.Durations(FamilyOf(l)).1, bound);
  }
}
