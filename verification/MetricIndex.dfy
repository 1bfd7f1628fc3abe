/**
 The metric maps of internal/observability/observability.go: counters and histograms under string
 keys, as values, against counts over the log of what was observed under each key.
 */
module MetricIndex {

  // ---------------------------------------------------------------- counters

  function Count(m: map<string, nat>, key: string): nat {
    if key in m then m[key] else 0
  }

  function Bump(m: map<string, nat>, key: string): map<string, nat> {
    m[key := Count(m, key) + 1]
  }

  /** A counter map after the keys have been counted one by one. */
  function Counters(keys: seq<string>): map<string, nat> {
    if keys == [] then map[] else Bump(Counters(keys[..|keys| - 1]), keys[|keys| - 1])
  }

  function Occurrences(keys: seq<string>, key: string): nat {
    if keys == [] then 0 else Occurrences(keys[..|keys| - 1], key) + if keys[|keys| - 1] == key then 1 else 0
  }

  lemma {:induction false} CountersAt(keys: seq<string>, key: string)
    ensures Count(Counters(keys), key) == Occurrences(keys, key)
    ensures key in Counters(keys) <==> key in keys
  {
    if keys != [] {
      var n := |keys| - 1;
      CountersAt(keys[..n], key);
      assert key in keys <==> key in keys[..n] || key == keys[n];
    }
  }

  // ---------------------------------------------------------------- histograms

  datatype Histogram = Histogram(bounds: seq<real>, bins: map<real, nat>, count: nat, sum: real)

  predicate Distinct(bounds: seq<real>) {
    forall i, j :: 0 <= i < j < |bounds| ==> bounds[i] != bounds[j]
  }

  function NewHistogram(bounds: seq<real>): Histogram {
    Histogram(bounds, map b | b in bounds :: 0, 0, 0.0)
  }

  function Observed(h: Histogram, v: real): Histogram {
    Histogram(h.bounds, map b | b in h.bins :: h.bins[b] + (if v <= b then 1 else 0), h.count + 1, h.sum + v)
  }

  /** histogram.observe: the bin of every bound that is not below the value is incremented. */
  method Observe(h: Histogram, v: real) returns (r: Histogram)
    requires Distinct(h.bounds) && forall b :: b in h.bounds <==> b in h.bins
    ensures r == Observed(h, v)
  {
    var bins := h.bins;
    forall j | 0 <= j < |h.bounds| ensures h.bounds[j] in h.bins { assert h.bounds[j] in h.bounds; }
    for i := 0 to |h.bounds|
      invariant bins.Keys == h.bins.Keys
      invariant forall j :: 0 <= j < |h.bounds| ==> h.bounds[j] in h.bins
      invariant forall j :: 0 <= j < |h.bounds| ==>
                  bins[h.bounds[j]] == h.bins[h.bounds[j]] + if v <= h.bounds[j] && j < i then 1 else 0
    {
      var bound := h.bounds[i];
      if v <= bound { bins := bins[bound := bins[bound] + 1]; }
    }
    r := Histogram(h.bounds, bins, h.count + 1, h.sum + v);
    forall b | b in bins ensures bins[b] == Observed(h, v).bins[b] {
      var j :| 0 <= j < |h.bounds| && h.bounds[j] == b;
    }
    assert r.bins == Observed(h, v).bins;
  }

  type Histograms = map<string, Histogram>

  /** A duration observed under a key. */
  datatype Point = Point(key: string, value: real)

  function ObservedIn(hs: Histograms, p: Point, bounds: seq<real>): Histograms {
    hs[p.key := Observed(if p.key in hs then hs[p.key] else NewHistogram(bounds), p.value)]
  }

  /** A histogram map after the points have been observed one by one. */
  function ObservedAll(start: Histograms, ps: seq<Point>, bounds: seq<real>): Histograms {
    if ps == [] then start else ObservedIn(ObservedAll(start, ps[..|ps| - 1], bounds), ps[|ps| - 1], bounds)
  }

  function HistogramsOf(ps: seq<Point>, bounds: seq<real>): Histograms {
    ObservedAll(map[], ps, bounds)
  }

  predicate Shaped(hs: Histograms, bounds: seq<real>) {
    forall key :: key in hs ==> hs[key].bounds == bounds && hs[key].bins.Keys == set b | b in bounds
  }

  lemma {:induction false} ShapedStep(hs: Histograms, p: Point, bounds: seq<real>)
    requires Shaped(hs, bounds)
    ensures Shaped(ObservedIn(hs, p, bounds), bounds)
  {
    assert NewHistogram(bounds).bins.Keys == set b | b in bounds;
    var h := if p.key in hs then hs[p.key] else NewHistogram(bounds);
    assert Observed(h, p.value).bins.Keys == h.bins.Keys;
  }

  lemma {:induction false} HistogramsAreShaped(ps: seq<Point>, bounds: seq<real>)
    ensures Shaped(HistogramsOf(ps, bounds), bounds)
  {
    if ps != [] {
      var n := |ps| - 1;
      HistogramsAreShaped(ps[..n], bounds);
      ShapedStep(HistogramsOf(ps[..n], bounds), ps[n], bounds);
    }
  }

  /** observeHistogram. */
  method ObserveHistogram(hs: Histograms, p: Point, bounds: seq<real>) returns (r: Histograms)
    requires Distinct(bounds) && Shaped(hs, bounds)
    ensures r == ObservedIn(hs, p, bounds) && Shaped(r, bounds)
  {
    var h := if p.key in hs then hs[p.key] else NewHistogram(bounds);
    assert h.bins.Keys == set b | b in bounds;
    var h' := Observe(h, p.value);
    r := hs[p.key := h'];
    ShapedStep(hs, p, bounds);
  }

  lemma {:induction false} ObservedConcat(start: Histograms, a: seq<Point>, b: seq<Point>, bounds: seq<real>)
    ensures ObservedAll(start, a + b, bounds) == ObservedAll(ObservedAll(start, a, bounds), b, bounds)
  {
    if b == [] {
      assert a + b == a;
    } else {
      var n := |b| - 1;
      ObservedConcat(start, a, b[..n], bounds);
      assert (a + b)[..|a + b| - 1] == a + b[..n];
      assert (a + b)[|a + b| - 1] == b[n];
    }
  }

  method ObserveAll(hs: Histograms, ps: seq<Point>, bounds: seq<real>) returns (r: Histograms)
    requires Distinct(bounds) && Shaped(hs, bounds)
    ensures r == ObservedAll(hs, ps, bounds)
  {
    r := hs;
    for i := 0 to |ps|
      invariant Shaped(r, bounds)
      invariant r == ObservedAll(hs, ps[..i], bounds)
    {
      assert ps[..i + 1][..i] == ps[..i];
      r := ObserveHistogram(r, ps[i], bounds);
    }
    assert ps[..|ps|] == ps;
  }

  // ---------------------------------------------------------------- exact histograms

  function Points(ps: seq<Point>, key: string): nat {
    if ps == [] then 0 else Points(ps[..|ps| - 1], key) + if ps[|ps| - 1].key == key then 1 else 0
  }

  /** The points under a key that are not above the bound. */
  function AtMost(ps: seq<Point>, key: string, bound: real): nat {
    if ps == [] then 0
    else AtMost(ps[..|ps| - 1], key, bound) + if ps[|ps| - 1].key == key && ps[|ps| - 1].value <= bound then 1 else 0
  }

  function Total(ps: seq<Point>, key: string): real {
    if ps == [] then 0.0 else Total(ps[..|ps| - 1], key) + if ps[|ps| - 1].key == key then ps[|ps| - 1].value else 0.0
  }

  /** The histogram that the points demand. */
  ghost predicate Exact(h: Histogram, ps: seq<Point>, key: string, bounds: seq<real>) {
    && h.bounds == bounds && (forall b :: b in bounds <==> b in h.bins)
    && h.count == Points(ps, key) && h.sum == Total(ps, key)
    && forall b :: b in h.bins ==> h.bins[b] == AtMost(ps, key, b)
  }

  lemma {:induction false} NoPoints(ps: seq<Point>, key: string, b: real)
    requires Points(ps, key) == 0
    ensures AtMost(ps, key, b) == 0 && Total(ps, key) == 0.0
  {
    if ps != [] { NoPoints(ps[..|ps| - 1], key, b); }
  }

  lemma {:induction false} NewIsExact(ps: seq<Point>, key: string, bounds: seq<real>)
    requires Points(ps, key) == 0
    ensures Exact(NewHistogram(bounds), ps, key, bounds)
  {
    NoPoints(ps, key, 0.0);
    forall b ensures AtMost(ps, key, b) == 0 { NoPoints(ps, key, b); }
  }

  lemma {:induction false} ObservedIsExact(h: Histogram, ps: seq<Point>, key: string, bounds: seq<real>)
    requires ps != [] && ps[|ps| - 1].key == key && Exact(h, ps[..|ps| - 1], key, bounds)
    ensures Exact(Observed(h, ps[|ps| - 1].value), ps, key, bounds)
  {
  }

  lemma {:induction false} OtherIsExact(h: Histogram, ps: seq<Point>, key: string, bounds: seq<real>)
    requires ps != [] && ps[|ps| - 1].key != key && Exact(h, ps[..|ps| - 1], key, bounds)
    ensures Exact(h, ps, key, bounds)
  {
  }

  /** There is a histogram for exactly the observed keys, and its count, its sum and each of its
      cumulative buckets equal those of the points under its key. */
  lemma {:induction false} HistogramIsExact(ps: seq<Point>, key: string, bounds: seq<real>)
    ensures key in HistogramsOf(ps, bounds) <==> Points(ps, key) > 0
    ensures key in HistogramsOf(ps, bounds) ==> Exact(HistogramsOf(ps, bounds)[key], ps, key, bounds)
  {
    if ps != [] {
      var n := |ps| - 1;
      HistogramIsExact(ps[..n], key, bounds);
      var before := HistogramsOf(ps[..n], bounds);
      if ps[n].key == key {
        if key !in before { NewIsExact(ps[..n], key, bounds); }
        ObservedIsExact(if key in before then before[key] else NewHistogram(bounds), ps, key, bounds);
      } else if key in before {
        OtherIsExact(before[key], ps, key, bounds);
      }
    }
  }
}
