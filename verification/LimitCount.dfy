/**
 The fixed-window limiter of internal/plugin/builtin/limit_count.go.

 The clock is read before the mutex is taken, so the order in which requests enter the critical
 section need not be the order of their windows.  A run of the limiter is the sequence of its
 critical sections.
 */
module LimitCount {

  datatype Bucket = Bucket(window: int, count: nat)

  /** One passage through the critical section. */
  datatype Arrival = Arrival(key: string, now: int)

  /** now.Unix() / TimeWindow, with Go's truncation toward zero. */
  function Window(now: int, span: nat): int
    requires span > 0
  {
    if now >= 0 then now / span else -((-now) / span)
  }

  lemma {:induction false} QuotientIff(n: nat, span: nat, k: int)
    requires span > 0
    ensures n / span == k <==> k * span <= n < (k + 1) * span
  {
    var q := n / span;
    assert n == q * span + n % span && (q + 1) * span == q * span + span && (k + 1) * span == k * span + span;
    if k < q { TimesMonotone(q, k + 1, span); }
    if q < k { TimesMonotone(k, q + 1, span); }
  }

  /** What a window is: those of positive number are half-open and `span` long, number zero reaches as
      far below zero as above, and those of negative number are closed at their upper end. */
  lemma {:induction false} WindowMeaning(now: int, span: nat, k: int)
    requires span > 0
    ensures Window(now, span) == k <==>
            if k > 0 then k * span <= now < (k + 1) * span
            else if k == 0 then 0 - span < now < span
            else (k - 1) * span < now <= k * span
  {
    if now >= 0 {
      QuotientIff(now, span, k);
      if k < 0 { TimesMonotone(-1, k, span); }
    } else {
      QuotientIff(-now, span, -k);
      assert (-k) * span == -(k * span) && (-k + 1) * span == -((k - 1) * span);
      if k > 0 { TimesMonotone(k, 1, span); }
    }
  }

  /** Readings of a clock past zero share a window exactly if both lie in one [k*span, (k+1)*span). */
  lemma {:induction false} SharedWindowIff(a: nat, b: nat, span: nat)
    requires span > 0
    ensures Window(a, span) == Window(b, span) <==>
            exists k: nat :: Spans(k, span, a) && Spans(k, span, b)
  {
    var w: nat := Window(a, span);
    SpansIff(w, span, a);
    SpansIff(w, span, b);
    if k: nat :| Spans(k, span, a) && Spans(k, span, b) {
      SpansIff(k, span, a);
      SpansIff(k, span, b);
    }
  }

  /** The reading lies in the k-th stretch of length `span`. */
  predicate Spans(k: nat, span: nat, now: nat) {
    k * span <= now < (k + 1) * span
  }

  lemma {:induction false} SpansIff(k: nat, span: nat, now: nat)
    requires span > 0
    ensures Spans(k, span, now) <==> Window(now, span) == k
  {
    QuotientIff(now, span, k);
  }

  function Roll(b: Bucket, w: int): Bucket {
    if b.window == w then b else Bucket(w, 0)
  }

  predicate Allowed(b: Bucket, w: int, limit: nat) {
    Roll(b, w).count < limit
  }

  /** The bucket after one arrival in window w. */
  function Enter(b: Bucket, w: int, limit: nat): Bucket {
    if Allowed(b, w, limit) then Bucket(w, Roll(b, w).count + 1) else Roll(b, w)
  }

  function Lookup(counters: map<string, Bucket>, key: string): Bucket {
    if key in counters then counters[key] else Bucket(0, 0)
  }

  /** The bucket of one key after arrivals in the windows ws, in that order. */
  function BucketAfter(ws: seq<int>, limit: nat): Bucket {
    if ws == [] then Bucket(0, 0) else Enter(BucketAfter(ws[..|ws| - 1], limit), ws[|ws| - 1], limit)
  }

  /** How many arrivals in window w are admitted. */
  function Admitted(ws: seq<int>, limit: nat, w: int): nat {
    if ws == [] then 0
    else
      var front, last := ws[..|ws| - 1], ws[|ws| - 1];
      Admitted(front, limit, w) + if last == w && Allowed(BucketAfter(front, limit), w, limit) then 1 else 0
  }

  function Arrivals(ws: seq<int>, w: int): nat {
    if ws == [] then 0 else Arrivals(ws[..|ws| - 1], w) + if ws[|ws| - 1] == w then 1 else 0
  }

  /** The lengths of the maximal contiguous blocks of window w. */
  function Blocks(ws: seq<int>, w: int): (r: seq<nat>)
    ensures ws != [] && ws[|ws| - 1] == w ==> r != []
  {
    if ws == [] then []
    else
      var front := Blocks(ws[..|ws| - 1], w);
      if ws[|ws| - 1] != w then front
      else if |ws| > 1 && ws[|ws| - 2] == w then front[..|front| - 1] + [front[|front| - 1] + 1]
      else front + [1]
  }

  predicate NonDecreasing(ws: seq<int>) {
    forall i, j :: 0 <= i < j < |ws| ==> ws[i] <= ws[j]
  }

  function Min(a: nat, b: nat): nat {
    if a < b then a else b
  }

  // ---------------------------------------------------------------- any lock order

  /** What blocks of these lengths admit: each up to the limit. */
  function AdmittedBy(blocks: seq<nat>, limit: nat): nat {
    if blocks == [] then 0 else AdmittedBy(blocks[..|blocks| - 1], limit) + Min(limit, blocks[|blocks| - 1])
  }

  lemma {:induction false} AdmittedBySnoc(front: seq<nat>, n: nat, limit: nat)
    ensures AdmittedBy(front + [n], limit) == AdmittedBy(front, limit) + Min(limit, n)
  {
    assert (front + [n])[..|front|] == front;
  }

  /** The bucket holds the last window, and the length of its last block up to the limit. */
  lemma {:induction false} BucketIsLastBlock(ws: seq<int>, limit: nat)
    requires ws != []
    ensures var last := ws[|ws| - 1]; var blocks := Blocks(ws, last);
            BucketAfter(ws, limit) == Bucket(last, Min(limit, blocks[|blocks| - 1]))
  {
    var front := ws[..|ws| - 1];
    if front != [] { BucketIsLastBlock(front, limit); }
  }

  /** The length of the block that an arrival in window w would continue. */
  function OpenBlock(ws: seq<int>, w: int): nat {
    if ws != [] && ws[|ws| - 1] == w then Blocks(ws, w)[|Blocks(ws, w)| - 1] else 0
  }

  /** An arrival is admitted exactly if its block has room. */
  lemma {:induction false} AllowedIffRoom(ws: seq<int>, limit: nat, w: int)
    ensures Allowed(BucketAfter(ws, limit), w, limit) <==> OpenBlock(ws, w) < limit
  {
    if ws != [] { BucketIsLastBlock(ws, limit); }
  }

  /** One more arrival in window w adds one to the sum exactly if its block has room. */
  lemma {:induction false} BlockGrows(ws: seq<int>, limit: nat, w: int)
    ensures AdmittedBy(Blocks(ws + [w], w), limit) ==
            AdmittedBy(Blocks(ws, w), limit) + if OpenBlock(ws, w) < limit then 1 else 0
  {
    var blocks := Blocks(ws, w);
    assert (ws + [w])[..|ws|] == ws;
    if ws != [] && ws[|ws| - 1] == w {
      var init, n := blocks[..|blocks| - 1], blocks[|blocks| - 1];
      assert blocks == init + [n];
      AdmittedBySnoc(init, n, limit);
      AdmittedBySnoc(init, n + 1, limit);
    } else {
      AdmittedBySnoc(blocks, 1, limit);
    }
  }

  /** Any lock order: a window admits exactly the sum, over its contiguous blocks, of the length of
      the block up to Count. */
  lemma {:induction false} AdmittedIsBlockSum(ws: seq<int>, limit: nat, w: int)
    ensures Admitted(ws, limit, w) == AdmittedBy(Blocks(ws, w), limit)
  {
    if ws != [] {
      var front := ws[..|ws| - 1];
      AdmittedIsBlockSum(front, limit, w);
      if ws[|ws| - 1] == w {
        assert ws == front + [w];
        AllowedIffRoom(front, limit, w);
        BlockGrows(front, limit, w);
      }
    }
  }

  lemma {:induction false} BlockSumBound(blocks: seq<nat>, limit: nat)
    ensures AdmittedBy(blocks, limit) <= limit * |blocks|
  {
    if blocks != [] {
      BlockSumBound(blocks[..|blocks| - 1], limit);
      assert limit * |blocks| == limit * (|blocks| - 1) + limit;
    }
  }

  function Sum(blocks: seq<nat>): nat {
    if blocks == [] then 0 else Sum(blocks[..|blocks| - 1]) + blocks[|blocks| - 1]
  }

  lemma {:induction false} SumSnoc(front: seq<nat>, n: nat)
    ensures Sum(front + [n]) == Sum(front) + n
  {
    assert (front + [n])[..|front|] == front;
  }

  /** The blocks are not empty, and every arrival of the window is in one of them. */
  lemma {:induction false} BlocksPartition(ws: seq<int>, w: int)
    ensures Sum(Blocks(ws, w)) == Arrivals(ws, w)
    ensures forall i :: 0 <= i < |Blocks(ws, w)| ==> Blocks(ws, w)[i] > 0
  {
    if ws != [] {
      var front := ws[..|ws| - 1];
      var blocks := Blocks(front, w);
      BlocksPartition(front, w);
      if ws[|ws| - 1] == w {
        if |ws| > 1 && ws[|ws| - 2] == w {
          var init, n := blocks[..|blocks| - 1], blocks[|blocks| - 1];
          assert blocks == init + [n];
          SumSnoc(init, n);
          SumSnoc(init, n + 1);
        } else {
          SumSnoc(blocks, 1);
        }
      }
    }
  }

  /** Non-empty blocks admit everything, or the limit and one more for every further block. */
  lemma {:induction false} BlockSumFrom(blocks: seq<nat>, limit: nat)
    requires limit > 0 && forall i :: 0 <= i < |blocks| ==> blocks[i] > 0
    ensures AdmittedBy(blocks, limit) <= Sum(blocks)
    ensures AdmittedBy(blocks, limit) == Sum(blocks) || AdmittedBy(blocks, limit) >= limit + |blocks| - 1
    ensures AdmittedBy(blocks, limit) >= |blocks|
  {
    if blocks != [] { BlockSumFrom(blocks[..|blocks| - 1], limit); }
  }

  /** So a window admits at most Count for each contiguous block; and it admits more than Count if and
      only if its arrivals come in several blocks and are more than Count. */
  lemma {:induction false} BlockBound(ws: seq<int>, limit: nat, w: int)
    ensures Admitted(ws, limit, w) <= limit * |Blocks(ws, w)|
    ensures limit > 0 ==> (Admitted(ws, limit, w) > limit <==> |Blocks(ws, w)| >= 2 && Arrivals(ws, w) > limit)
  {
    var blocks := Blocks(ws, w);
    AdmittedIsBlockSum(ws, limit, w);
    BlockSumBound(blocks, limit);
    BlocksPartition(ws, w);
    if limit > 0 { BlockSumFrom(blocks, limit); }
    if |blocks| == 1 { assert limit * 1 == limit; }
  }

  function Repeat(w: int, n: nat): (r: seq<int>)
    ensures |r| == n && forall i :: 0 <= i < n ==> r[i] == w
  {
    seq(n, i => w)
  }

  /** n blocks of `limit` arrivals in window w, with one arrival of v after each. */
  function Rounds(w: int, v: int, limit: nat, n: nat): seq<int> {
    if n == 0 then [] else Rounds(w, v, limit, n - 1) + Repeat(w, limit) + [v]
  }

  lemma {:induction false} BlocksAppendOther(ws: seq<int>, w: int, v: int)
    requires v != w
    ensures Blocks(ws + [v], w) == Blocks(ws, w)
  {
    assert (ws + [v])[..|ws|] == ws;
  }

  lemma {:induction false} BlocksAppendBlock(ws: seq<int>, w: int, k: nat)
    requires k > 0 && (ws == [] || ws[|ws| - 1] != w)
    ensures Blocks(ws + Repeat(w, k), w) == Blocks(ws, w) + [k]
  {
    var all := ws + Repeat(w, k);
    assert all[..|all| - 1] == ws + Repeat(w, k - 1);
    if k == 1 {
      assert ws + Repeat(w, 0) == ws;
    } else {
      BlocksAppendBlock(ws, w, k - 1);
      assert all[|all| - 2] == w;
    }
  }

  lemma {:induction false} BlocksOfRounds(w: int, v: int, limit: nat, n: nat)
    requires w != v && limit > 0 && n > 0
    ensures Blocks(Rounds(w, v, limit, n), w) == Blocks(Rounds(w, v, limit, n - 1), w) + [limit]
  {
    var before := Rounds(w, v, limit, n - 1);
    BlocksAppendBlock(before, w, limit);
    BlocksAppendOther(before + Repeat(w, limit), w, v);
  }

  /** The bound is reached for every Count and every number of blocks. */
  lemma {:induction false} BlockBoundIsReached(w: int, v: int, limit: nat, n: nat)
    requires w != v && limit > 0
    ensures |Blocks(Rounds(w, v, limit, n), w)| == n
    ensures Admitted(Rounds(w, v, limit, n), limit, w) == limit * n
  {
    AdmittedIsBlockSum(Rounds(w, v, limit, n), limit, w);
    if n > 0 {
      BlockBoundIsReached(w, v, limit, n - 1);
      BlocksOfRounds(w, v, limit, n);
      AdmittedIsBlockSum(Rounds(w, v, limit, n - 1), limit, w);
      AdmittedBySnoc(Blocks(Rounds(w, v, limit, n - 1), w), limit, limit);
      assert limit * n == limit * (n - 1) + limit;
    }
  }

  // ---------------------------------------------------------------- windows in order

  /** Windows in order have at most one block, with all arrivals in it. */
  lemma {:induction false} OneBlockWhenOrdered(ws: seq<int>, w: int)
    requires NonDecreasing(ws)
    ensures Blocks(ws, w) == if Arrivals(ws, w) == 0 then [] else [Arrivals(ws, w)]
    ensures Arrivals(ws, w) > 0 ==> exists i :: 0 <= i < |ws| && ws[i] == w
  {
    if ws != [] {
      var front, last := ws[..|ws| - 1], ws[|ws| - 1];
      OneBlockWhenOrdered(front, w);
      if last == w {
        assert ws[|ws| - 1] == w;
        if Arrivals(front, w) > 0 {
          var i :| 0 <= i < |front| && front[i] == w;
          assert ws[i] <= ws[|ws| - 2] <= ws[|ws| - 1];
        }
      } else if Arrivals(front, w) > 0 {
        var i :| 0 <= i < |front| && front[i] == w;
        assert ws[i] == w;
      }
    }
  }

  /** Windows in order: every window admits exactly min(Count, arrivals). */
  lemma {:induction false} ExactlyMinPerWindow(ws: seq<int>, limit: nat, w: int)
    requires NonDecreasing(ws)
    ensures Admitted(ws, limit, w) == Min(limit, Arrivals(ws, w))
  {
    OneBlockWhenOrdered(ws, w);
    AdmittedIsBlockSum(ws, limit, w);
    if Arrivals(ws, w) > 0 {
      AdmittedBySnoc([], Arrivals(ws, w), limit);
      assert [] + [Arrivals(ws, w)] == [Arrivals(ws, w)];
    }
  }

  // ---------------------------------------------------------------- any span of time

  function Windows(nows: seq<int>, span: nat): (ws: seq<int>)
    requires span > 0
    ensures |ws| == |nows| && forall i :: 0 <= i < |nows| ==> ws[i] == Window(nows[i], span)
  {
    seq(|nows|, i requires 0 <= i < |nows| => Window(nows[i], span))
  }

  /** How many of the admitted requests read the clock in [from, from + span). */
  function AdmittedBetween(nows: seq<int>, span: nat, limit: nat, from: int): nat
    requires span > 0
  {
    if nows == [] then 0
    else
      var front, last := nows[..|nows| - 1], nows[|nows| - 1];
      AdmittedBetween(front, span, limit, from) +
      if from <= last < from + span && Allowed(BucketAfter(Windows(front, span), limit), Window(last, span), limit)
      then 1 else 0
  }

  lemma {:induction false} TimesMonotone(x: int, y: int, n: nat)
    requires x >= y
    ensures x * n >= y * n
  {
    assert (x - y) * n >= 0;
    assert x * n == y * n + (x - y) * n;
  }

  lemma {:induction false} QuotientStep(a: nat, b: nat, span: nat)
    requires span > 0 && a <= b < a + span
    ensures a / span <= b / span <= a / span + 1
  {
    var q, p := a / span, b / span;
    assert a == q * span + a % span && b == p * span + b % span;
    if p < q {
      TimesMonotone(q, p + 1, span);
    } else if p > q + 1 {
      TimesMonotone(p, q + 2, span);
    }
  }

  lemma {:induction false} SmallQuotient(a: nat, n: nat)
    requires a < n
    ensures a / n == 0
  {
  }

  /** A span of one window length touches at most two windows. */
  lemma {:induction false} SpanTouchesTwo(from: int, now: int, span: nat)
    requires span > 0 && from <= now < from + span
    ensures Window(from, span) <= Window(now, span) <= Window(from, span) + 1
  {
    if from >= 0 {
      QuotientStep(from, now, span);
    } else if now < 0 {
      QuotientStep(-now, -from, span);
    } else {
      SmallQuotient(now, span);
      SmallQuotient(-from, span);
    }
  }

  lemma {:induction false} SpanIsTwoWindows(nows: seq<int>, span: nat, limit: nat, from: int)
    requires span > 0
    ensures var ws, w := Windows(nows, span), Window(from, span);
            AdmittedBetween(nows, span, limit, from) <= Admitted(ws, limit, w) + Admitted(ws, limit, w + 1)
  {
    if nows != [] {
      var front, last := nows[..|nows| - 1], nows[|nows| - 1];
      SpanIsTwoWindows(front, span, limit, from);
      assert Windows(nows, span)[..|nows| - 1] == Windows(front, span);
      if from <= last < from + span { SpanTouchesTwo(from, last, span); }
    }
  }

  /** Windows in order: no span of one window length admits more than 2 * Count. */
  lemma {:induction false} TwiceCountInAnySpan(nows: seq<int>, span: nat, limit: nat, from: int)
    requires span > 0 && NonDecreasing(Windows(nows, span))
    ensures AdmittedBetween(nows, span, limit, from) <= 2 * limit
  {
    SpanIsTwoWindows(nows, span, limit, from);
    ExactlyMinPerWindow(Windows(nows, span), limit, Window(from, span));
    ExactlyMinPerWindow(Windows(nows, span), limit, Window(from, span) + 1);
  }

  // ---------------------------------------------------------------- many keys

  /** The clock readings of one key. */
  function Of(log: seq<Arrival>, key: string): seq<int> {
    if log == [] then []
    else Of(log[..|log| - 1], key) + if log[|log| - 1].key == key then [log[|log| - 1].now] else []
  }

  /** The counters map after a run. */
  function CountersAfter(log: seq<Arrival>, span: nat, limit: nat): map<string, Bucket>
    requires span > 0
  {
    if log == [] then map[]
    else
      var m, a := CountersAfter(log[..|log| - 1], span, limit), log[|log| - 1];
      m[a.key := Enter(Lookup(m, a.key), Window(a.now, span), limit)]
  }

  /** Keys do not interfere: the bucket of a key is what its own arrivals make of it. */
  lemma {:induction false} KeysAreIndependent(log: seq<Arrival>, span: nat, limit: nat, key: string)
    requires span > 0
    ensures Lookup(CountersAfter(log, span, limit), key) == BucketAfter(Windows(Of(log, key), span), limit)
  {
    if log != [] {
      var front, a := log[..|log| - 1], log[|log| - 1];
      KeysAreIndependent(front, span, limit, key);
      if a.key != key {
        assert Of(log, key) == Of(front, key);
      } else {
        var own := Of(front, key);
        var ws := Windows(own + [a.now], span);
        assert ws == Windows(own, span) + [Window(a.now, span)];
        assert ws[..|ws| - 1] == Windows(own, span);
      }
    }
  }

  /** scope + "|" + derivedKey */
  function CounterKey(scope: string, derived: string): string {
    scope + "|" + derived
  }

  /** Two scopes can share a bucket exactly when one, with the separator added, is a prefix of
      the other. */
  lemma {:induction false} ScopesCollideIff(s1: string, s2: string)
    ensures (exists d1: string, d2: string :: CounterKey(s1, d1) == CounterKey(s2, d2)) <==>
            s1 + "|" <= s2 + "|" || s2 + "|" <= s1 + "|"
  {
    var a, b := s1 + "|", s2 + "|";
    if a <= b {
      assert CounterKey(s1, b[|a|..]) == CounterKey(s2, "");
    } else if b <= a {
      assert CounterKey(s1, "") == CounterKey(s2, a[|b|..]);
    }
    if d1: string, d2: string :| CounterKey(s1, d1) == CounterKey(s2, d2) {
      var k := CounterKey(s1, d1);
      assert k == a + d1 && k == b + d2;
      assert a == k[..|a|] && b == k[..|b|];
    }
  }

  /** Distinct pairs never share a bucket when scopes contain no separator. */
  lemma {:induction false} PlainScopesDoNotCollide(s1: string, d1: string, s2: string, d2: string)
    requires '|' !in s1 && '|' !in s2
    requires CounterKey(s1, d1) == CounterKey(s2, d2)
    ensures s1 == s2 && d1 == d2
  {
    var k := CounterKey(s1, d1);
    assert k[..|s1|] == s1 && k[|s1|] == '|' && k[|s1| + 1..] == d1;
    assert k[..|s2|] == s2 && k[|s2|] == '|' && k[|s2| + 1..] == d2;
    assert forall i :: 0 <= i < |s1| ==> k[i] == s1[i] && s1[i] != '|';
    assert forall i :: 0 <= i < |s2| ==> k[i] == s2[i] && s2[i] != '|';
  }

  lemma {:induction false} SeparatorInScopeCollides()
    ensures CounterKey("a|b", "c") == CounterKey("a", "b|c")
  {
    assert CounterKey("a|b", "c") == "a|b|c" == CounterKey("a", "b|c");
  }

  // ---------------------------------------------------------------- the handler

  class Limiter {
    const limit: nat
    const span: nat
    var counters: map<string, Bucket>
    ghost var log: seq<Arrival>

    ghost predicate Valid()
      reads this
    {
      span > 0 && limit > 0 && counters == CountersAfter(log, span, limit)
    }

    constructor (limit: nat, span: nat)
      requires limit > 0 && span > 0
      ensures Valid() && log == [] && this.limit == limit && this.span == span
    {
      this.limit, this.span := limit, span;
      counters := map[];
      log := [];
    }

    /** One passage through the critical section.  The verdict is that of the key's own history:
        whether the windows of the earlier arrivals with this key left room. */
    method Handle(scope: string, derived: string, now: int) returns (allowed: bool, remaining: nat)
      requires Valid()
      modifies this
      ensures Valid()
      ensures log == old(log) + [Arrival(CounterKey(scope, derived), now)]
      ensures var history := BucketAfter(Windows(Of(old(log), CounterKey(scope, derived)), span), limit);
              && (allowed <==> Allowed(history, Window(now, span), limit))
              && remaining == limit - Enter(history, Window(now, span), limit).count
    {
      var key := CounterKey(scope, derived);
      KeysAreIndependent(log, span, limit, key);
      BucketWithinLimit(Windows(Of(log, key), span), limit);
      var window := Window(now, span);
      var bucket := Lookup(counters, key);
      if bucket.window != window {
        bucket := Bucket(window, 0);
      }
      allowed := bucket.count < limit;
      if allowed {
        bucket := bucket.(count := bucket.count + 1);
      }
      counters := counters[key := bucket];
      remaining := limit - bucket.count;
      log := log + [Arrival(key, now)];
      CountersStep(old(log), Arrival(key, now), span, limit);
    }
  }

  lemma {:induction false} CountersStep(log: seq<Arrival>, a: Arrival, span: nat, limit: nat)
    requires span > 0
    ensures var m := CountersAfter(log, span, limit);
            CountersAfter(log + [a], span, limit) == m[a.key := Enter(Lookup(m, a.key), Window(a.now, span), limit)]
  {
    assert (log + [a])[..|log|] == log;
  }

  lemma {:induction false} BucketWithinLimit(ws: seq<int>, limit: nat)
    ensures BucketAfter(ws, limit).count <= limit
  {
    if ws != [] { BucketWithinLimit(ws[..|ws| - 1], limit); }
  }
}
