/**
 The gateway settles: without new callers, and without further closers in a compile, every run of
 requests, Reloads and Shutdowns is bounded, retries included, and can be continued to a state in
 which every request is answered and every Reload and Shutdown has returned.
 */
module GatewayProgress {
  import Lifecycle = SnapshotLifecycle
  import opened DrainSafety
  import opened GatewayRuntime

  // ---------------------------------------------------------------- the rank of a caller

  /** The caller may still swap the pointer. */
  predicate MaySwap(c: Caller) {
    c.Compiling? || c.HasFresh? || c.ShuttingDown?
  }

  function Pending(cs: seq<Caller>): nat {
    if cs == [] then 0 else Pending(cs[1..]) + if MaySwap(cs[0]) then 1 else 0
  }

  lemma {:induction false} PendingUpdate(cs: seq<Caller>, k: nat, c: Caller)
    requires k < |cs|
    ensures Pending(cs[k := c]) ==
            Pending(cs) - (if MaySwap(cs[k]) then 1 else 0) + (if MaySwap(c) then 1 else 0)
  {
    if k == 0 {
      assert cs[0 := c][1..] == cs[1..];
    } else {
      PendingUpdate(cs[1..], k - 1, c);
      assert cs[k := c][1..] == cs[1..][k - 1 := c];
    }
  }

  /** The swaps there have been and can still be. */
  function SwapLimit(g: Gw): nat {
    g.swaps + Pending(g.callers)
  }

  /** What a caller can still cost.  A request loads the pointer again only after a swap. */
  function Weight(c: Caller, swaps: nat, limit: nat, pubAt: seq<int>): int {
    match c
    case Loading(_, _) => 10 * (limit - swaps + 1) + 1
    case OnSnap(i, _, _, _) => if i < |pubAt| then 10 * (limit - pubAt[i]) + 2 else 0
    case Compiling(registered) => 14 + |registered|
    case HasFresh(_) => 12
    case ShuttingDown => 12
    case Aborting(_, left, _) => left + 1
    case ClosingOld(_, _) => 1
    case _ => 0
  }

  function CallerRank(g: Gw, k: nat): int
    requires k < |g.callers|
  {
    Weight(g.callers[k], g.swaps, SwapLimit(g), g.pubAt)
  }

  function CallersRank(g: Gw, n: nat): int
    requires n <= |g.callers|
  {
    if n == 0 then 0 else CallersRank(g, n - 1) + CallerRank(g, n - 1)
  }

  /** Where no caller costs more than before and caller k costs at least d less, so do all together. */
  lemma {:induction false} CallersDrop(g: Gw, g': Gw, n: nat, k: nat, d: int)
    requires n <= |g.callers| == |g'.callers| && k < |g.callers|
    requires forall j :: 0 <= j < |g.callers| && j != k ==> CallerRank(g', j) <= CallerRank(g, j)
    requires CallerRank(g', k) + d <= CallerRank(g, k)
    ensures CallersRank(g', n) + (if k < n then d else 0) <= CallersRank(g, n)
  {
    if n > 0 { CallersDrop(g, g', n - 1, k, d); }
  }

  lemma {:induction false} WeightIsPositive(g: Gw, k: nat)
    requires Inv(g) && k < |g.callers|
    ensures CallerRank(g, k) >= 0
  {
    assert CallerOk(g, k);
    if g.callers[k].OnSnap? { assert SnapOk(g, g.callers[k].snap); }
  }

  // ---------------------------------------------------------------- the rank of the snapshots

  function SnapsRank(snaps: seq<Lifecycle.Snap>): nat {
    if snaps == [] then 0 else SnapsRank(snaps[..|snaps| - 1]) + TotalRank(snaps[|snaps| - 1].threads, 1)
  }

  lemma {:induction false} SnapsRankUpdate(snaps: seq<Lifecycle.Snap>, i: nat, s: Lifecycle.Snap)
    requires i < |snaps|
    ensures SnapsRank(snaps[i := s]) == SnapsRank(snaps) - TotalRank(snaps[i].threads, 1) + TotalRank(s.threads, 1)
  {
    var n := |snaps| - 1;
    if i == n {
      assert snaps[i := s][..n] == snaps[..n];
    } else {
      SnapsRankUpdate(snaps[..n], i, s);
      assert snaps[i := s][..n] == snaps[..n][i := s];
    }
  }

  lemma {:induction false} SnapsRankAppend(snaps: seq<Lifecycle.Snap>, s: Lifecycle.Snap)
    ensures SnapsRank(snaps + [s]) == SnapsRank(snaps) + TotalRank(s.threads, 1)
  {
    assert (snaps + [s])[..|snaps|] == snaps;
  }

  lemma {:induction false} TotalRankAppend(ps: seq<Lifecycle.PC>, pc: Lifecycle.PC, n: nat)
    ensures TotalRank(ps + [pc], n) == TotalRank(ps, n) + Rank(pc, n)
  {
    if ps == [] {
      assert ps + [pc] == [pc] && [pc][1..] == [];
    } else {
      TotalRankAppend(ps[1..], pc, n);
      assert (ps + [pc])[1..] == ps[1..] + [pc];
    }
  }

  /** An upper bound on the internal moves left. */
  function GatewayRank(g: Gw): int {
    CallersRank(g, |g.callers|) + SnapsRank(g.snaps)
  }

  // ---------------------------------------------------------------- every move uses some of it

  lemma {:induction false} InsideDrops(g: Gw, i: nat, t: nat, repaired: bool)
    requires Inv(g) && Can(g, Inside(i, t))
    ensures GatewayRank(Step(g, Inside(i, t), repaired)) < GatewayRank(g)
  {
    var g' := Step(g, Inside(i, t), repaired);
    assert SnapOk(g, i);
    FireDecreases(g.snaps[i], t, repaired);
    SnapsRankUpdate(g.snaps, i, Lifecycle.Fire(g.snaps[i], t, repaired));
    SameCallers(g, g', |g.callers|);
  }

  lemma {:induction false} SameCallers(g: Gw, g': Gw, n: nat)
    requires n <= |g.callers| && g'.callers == g.callers && g'.swaps == g.swaps && g'.pubAt == g.pubAt
    ensures CallersRank(g', n) == CallersRank(g, n)
  {
    if n > 0 { SameCallers(g, g', n - 1); }
  }

  lemma {:induction false} LoadDrops(g: Gw, k: nat, repaired: bool)
    requires Inv(g) && Can(g, Load(k))
    ensures GatewayRank(Step(g, Load(k), repaired)) < GatewayRank(g)
  {
    var g' := Step(g, Load(k), repaired);
    PendingUpdate(g.callers, k, g'.callers[k]);
    if g.published < 0 {
      CallersDrop(g, g', |g.callers|, k, 1);
    } else {
      var s := g.snaps[g.published];
      TotalRankAppend(s.threads, Lifecycle.AcqStart, 1);
      SnapsRankUpdate(g.snaps, g.published, Lifecycle.Arrive(s, Lifecycle.AcqStart));
      CallersDrop(g, g', |g.callers|, k, 9);
    }
  }

  lemma {:induction false} RetryDrops(g: Gw, k: nat, repaired: bool)
    requires Inv(g) && Can(g, Retry(k))
    ensures GatewayRank(Step(g, Retry(k), repaired)) < GatewayRank(g)
  {
    var g' := Step(g, Retry(k), repaired);
    PendingUpdate(g.callers, k, g'.callers[k]);
    RefusedMeansRetired(g, k);
    assert CallerOk(g, k);
    CallersDrop(g, g', |g.callers|, k, 1);
  }

  /** A caller that ends, or goes on with less, without changing the number of swaps to come. */
  lemma {:induction false} QuietDrops(g: Gw, m: Move, repaired: bool)
    requires Inv(g) && Can(g, m) && (m.Serve? || m.CloseNext? || m.AbortReturns? || m.CloseReturns?)
    ensures GatewayRank(Step(g, m, repaired)) < GatewayRank(g)
  {
    var g' := Step(g, m, repaired);
    PendingUpdate(g.callers, m.k, g'.callers[m.k]);
    if m.Serve? {
      assert CallerOk(g, m.k);
      assert SnapOk(g, g.callers[m.k].snap);
    }
    CallersDrop(g, g', |g.callers|, m.k, 1);
  }

  lemma {:induction false} CompileOkDrops(g: Gw, k: nat, repaired: bool)
    requires Inv(g) && Can(g, CompileOk(k))
    ensures GatewayRank(Step(g, CompileOk(k), repaired)) < GatewayRank(g)
  {
    var g' := Step(g, CompileOk(k), repaired);
    PendingUpdate(g.callers, k, g'.callers[k]);
    SnapsRankAppend(g.snaps, Lifecycle.Init([g.callers[k].registered]));
    forall j | 0 <= j < |g.callers| && j != k ensures CallerRank(g', j) <= CallerRank(g, j) {
      assert CallerOk(g, j);
    }
    CallersDrop(g, g', |g.callers|, k, 1);
  }

  lemma {:induction false} CompileFailsDrops(g: Gw, k: nat, repaired: bool)
    requires Inv(g) && Can(g, CompileFails(k))
    ensures GatewayRank(Step(g, CompileFails(k), repaired)) < GatewayRank(g)
  {
    var g' := Step(g, CompileFails(k), repaired);
    PendingUpdate(g.callers, k, g'.callers[k]);
    CallersDrop(g, g', |g.callers|, k, 1);
  }

  lemma {:induction false} SwapOthers(g: Gw, k: nat, j: nat)
    requires Inv(g) && Can(g, Swap(k)) && j < |g.callers| && j != k
    ensures CallerRank(Swapped(g, k), j) <= CallerRank(g, j)
  {
    var g' := Swapped(g, k);
    assert CallerOk(g, k) && CallerOk(g, j);
    PendingUpdate(g.callers, k, g'.callers[k]);
    if g.callers[j].OnSnap? { assert SnapOk(g, g.callers[j].snap); }
  }

  /** The Close call that a swap starts. */
  lemma {:induction false} SwapSnapsRank(g: Gw, k: nat)
    requires Can(g, Swap(k))
    ensures SnapsRank(Swapped(g, k).snaps) == SnapsRank(g.snaps) + if g.published >= 0 then 9 else 0
  {
    if g.published >= 0 {
      var s := g.snaps[g.published];
      TotalRankAppend(s.threads, Lifecycle.CloseStart, 1);
      SnapsRankUpdate(g.snaps, g.published, Lifecycle.Arrive(s, Lifecycle.CloseStart));
    }
  }

  lemma {:induction false} SwapDrops(g: Gw, k: nat)
    requires Inv(g) && Can(g, Swap(k))
    ensures GatewayRank(Swapped(g, k)) < GatewayRank(g)
  {
    var g' := Swapped(g, k);
    forall j | 0 <= j < |g.callers| && j != k ensures CallerRank(g', j) <= CallerRank(g, j) {
      SwapOthers(g, k, j);
    }
    SwapSnapsRank(g, k);
    CallersDrop(g, g', |g.callers|, k, 11);
  }

  lemma {:induction false} InternalMoveDrops(g: Gw, m: Move, repaired: bool)
    requires Inv(g) && Can(g, m) && Internal(m)
    ensures GatewayRank(Step(g, m, repaired)) < GatewayRank(g)
  {
    match m
    case Load(k) => LoadDrops(g, k, repaired);
    case Inside(i, t) => InsideDrops(g, i, t, repaired);
    case Retry(k) => RetryDrops(g, k, repaired);
    case CompileOk(k) => CompileOkDrops(g, k, repaired);
    case CompileFails(k) => CompileFailsDrops(g, k, repaired);
    case Swap(k) => SwapDrops(g, k);
    case _ => QuietDrops(g, m, repaired);
  }

  lemma {:induction false} CallersRankIsPositive(g: Gw, n: nat)
    requires Inv(g) && n <= |g.callers|
    ensures CallersRank(g, n) >= 0
  {
    if n > 0 {
      CallersRankIsPositive(g, n - 1);
      WeightIsPositive(g, n - 1);
    }
  }

  // ---------------------------------------------------------------- the results

  /** Every run of internal moves is bounded by the rank it starts from, whatever the interleaving. */
  lemma {:induction false} RunsAreBounded(g: Gw, moves: seq<Move>, repaired: bool)
    requires Inv(g) && Possible(g, moves, repaired) && forall k :: 0 <= k < |moves| ==> Internal(moves[k])
    ensures |moves| <= GatewayRank(g)
    decreases |moves|
  {
    CallersRankIsPositive(g, |g.callers|);
    if moves != [] {
      StepInv(g, moves[0], repaired);
      InternalMoveDrops(g, moves[0], repaired);
      RunsAreBounded(Step(g, moves[0], repaired), moves[1..], repaired);
    }
  }

  /** From every reachable state internal moves lead to a settled one. */
  lemma {:induction false} SettlesFrom(g: Gw, repaired: bool) returns (moves: seq<Move>)
    requires Inv(g)
    ensures Possible(g, moves, repaired) && Settled(Exec(g, moves, repaired)) && Inv(Exec(g, moves, repaired))
    ensures forall k :: 0 <= k < |moves| ==> Internal(moves[k])
    decreases GatewayRank(g) + 0
  {
    CallersRankIsPositive(g, |g.callers|);
    if Settled(g) {
      moves := [];
    } else {
      var m :| Internal(m) && Can(g, m);
      StepInv(g, m, repaired);
      InternalMoveDrops(g, m, repaired);
      CallersRankIsPositive(Step(g, m, repaired), |Step(g, m, repaired).callers|);
      var rest := SettlesFrom(Step(g, m, repaired), repaired);
      moves := [m] + rest;
      assert moves[1..] == rest;
    }
  }

  /** Every reachable state has such a continuation, and any that cannot be prolonged ends with all
      callers finished. */
  lemma {:induction false} GatewaySettles(g: Gw, repaired: bool)
    requires Reachable(g, repaired)
    ensures exists moves :: Possible(g, moves, repaired) && Settled(Exec(g, moves, repaired)) &&
                            (forall k :: 0 <= k < |moves| ==> Internal(moves[k])) &&
                            (forall k :: 0 <= k < |Exec(g, moves, repaired).callers| ==>
                               CallerFinished(Exec(g, moves, repaired).callers[k]))
  {
    ReachableInv(g, repaired);
    var moves := SettlesFrom(g, repaired);
    var g' := Exec(g, moves, repaired);
    forall k | 0 <= k < |g'.callers| ensures CallerFinished(g'.callers[k]) {
      SettledIsFinished(g', k);
    }
  }
}
