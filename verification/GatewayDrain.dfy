/**
 Drain safety of the gateway as a whole: whether some request may hold a snapshot whose closers run.
 */
module GatewayDrain {
  import opened SnapshotLifecycle
  import opened DrainSafety
  import opened GatewayRuntime
  import opened ShutdownRun

  ghost predicate Drains(g: Gw, repaired: bool) {
    forall i :: 0 <= i < |g.snaps| ==> DrainInv(g.snaps[i], repaired)
  }

  /** No snapshot is past its drain while a request holds it. */
  ghost predicate Safe(g: Gw) {
    forall i :: 0 <= i < |g.snaps| ==> !Unsafe(g.snaps[i])
  }

  /** The move is not the swap to closing of a snapshot in a hazard. */
  ghost predicate HazardFree(g: Gw, m: Move)
    requires GatewayRuntime.Can(g, m)
  {
    m.Inside? ==> !(Closes(g.snaps[m.i], StepOf(m.t)) && Hazard(g.snaps[m.i]))
  }

  ghost predicate AvoidsHazards(g: Gw, moves: seq<Move>, repaired: bool)
    requires GatewayRuntime.Possible(g, moves, repaired)
    decreases |moves|
  {
    moves != [] ==> HazardFree(g, moves[0]) && AvoidsHazards(Step(g, moves[0], repaired), moves[1..], repaired)
  }

  lemma {:induction false} InsideDrains(g: Gw, i: nat, t: nat, repaired: bool, j: nat)
    requires GatewayRuntime.Inv(g) && Drains(g, repaired) && i < |g.snaps| && Enabled(g.snaps[i], t) && j < |g.snaps|
    requires repaired || !(Closes(g.snaps[i], StepOf(t)) && Hazard(g.snaps[i]))
    ensures DrainInv(g.snaps[i := Fire(g.snaps[i], t, repaired)][j], repaired)
  {
    assert SnapOk(g, i);
    if j == i { FireDrain(g.snaps[i], t, repaired); }
  }

  lemma {:induction false} ArrivingDrains(g: Gw, i: nat, pc: PC, repaired: bool, j: nat)
    requires Drains(g, repaired) && i < |g.snaps| && (pc.AcqStart? || pc.CloseStart?) && j < |g.snaps|
    ensures DrainInv(g.snaps[i := Arrive(g.snaps[i], pc)][j], repaired)
  {
    if j == i { ArriveDrain(g.snaps[i], pc, repaired); }
  }

  lemma {:induction false} StepDrains(g: Gw, m: Move, repaired: bool)
    requires GatewayRuntime.Inv(g) && Drains(g, repaired) && GatewayRuntime.Can(g, m)
    requires repaired || HazardFree(g, m)
    ensures Drains(Step(g, m, repaired), repaired)
  {
    var g' := Step(g, m, repaired);
    forall j | 0 <= j < |g'.snaps| ensures DrainInv(g'.snaps[j], repaired) {
      match m
      case Inside(i, t) => InsideDrains(g, i, t, repaired, j);
      case Load(k) => if g.published >= 0 { ArrivingDrains(g, g.published, AcqStart, repaired, j); }
      case Swap(k) => if g.published >= 0 { ArrivingDrains(g, g.published, CloseStart, repaired, j); }
      case _ =>
    }
  }

  lemma {:induction false} ExecDrains(g: Gw, moves: seq<Move>, repaired: bool)
    requires GatewayRuntime.Inv(g) && Drains(g, repaired) && GatewayRuntime.Possible(g, moves, repaired)
    requires repaired || AvoidsHazards(g, moves, repaired)
    ensures GatewayRuntime.Inv(GatewayRuntime.Exec(g, moves, repaired))
    ensures Drains(GatewayRuntime.Exec(g, moves, repaired), repaired)
    decreases |moves|
  {
    if moves != [] {
      StepInv(g, moves[0], repaired);
      StepDrains(g, moves[0], repaired);
      ExecDrains(Step(g, moves[0], repaired), moves[1..], repaired);
    }
  }

  lemma {:induction false} DrainsIsSafe(g: Gw, repaired: bool)
    requires GatewayRuntime.Inv(g) && Drains(g, repaired)
    ensures Safe(g)
  {
    forall i | 0 <= i < |g.snaps| ensures !Unsafe(g.snaps[i]) {
      assert SnapOk(g, i);
      DrainInvIsSafe(g.snaps[i], repaired);
    }
  }

  /** With the repaired release, every reachable state of the gateway is safe. */
  lemma {:induction false} RepairedGatewayIsSafe(g: Gw)
    requires Reachable(g, true)
    ensures Safe(g)
  {
    var registry, moves :| GatewayRuntime.Possible(Start(registry), moves, true) &&
                           g == GatewayRuntime.Exec(Start(registry), moves, true);
    StartInv(registry);
    ExecDrains(Start(registry), moves, true);
    DrainsIsSafe(g, true);
  }

  /** With the code as it is, so is every run in which no snapshot starts to close in a hazard. */
  lemma {:induction false} HazardFreeGatewayIsSafe(registry: Registry, moves: seq<Move>)
    requires GatewayRuntime.Possible(Start(registry), moves, false) && AvoidsHazards(Start(registry), moves, false)
    ensures Safe(GatewayRuntime.Exec(Start(registry), moves, false))
  {
    StartInv(registry);
    ExecDrains(Start(registry), moves, false);
    DrainsIsSafe(GatewayRuntime.Exec(Start(registry), moves, false), false);
  }

  // ---------------------------------------------------------------- the hazard is exact

  /** From the gateway as it is, snapshot i can become unsafe. */
  ghost predicate CanBecomeUnsafe(g: Gw, i: nat) {
    exists moves :: GatewayRuntime.Possible(g, moves, false) &&
                    i < |GatewayRuntime.Exec(g, moves, false).snaps| &&
                    Unsafe(GatewayRuntime.Exec(g, moves, false).snaps[i])
  }

  lemma {:induction false} UnsafeAlready(g: Gw, i: nat)
    requires i < |g.snaps| && Unsafe(g.snaps[i])
    ensures CanBecomeUnsafe(g, i)
  {
    assert GatewayRuntime.Possible(g, [], false) && GatewayRuntime.Exec(g, [], false) == g;
  }

  lemma {:induction false} UnsafeThrough(g: Gw, i: nat, t: nat)
    requires i < |g.snaps| && Enabled(g.snaps[i], t)
    requires CanBecomeUnsafe(g.(snaps := g.snaps[i := Fire(g.snaps[i], t, false)]), i)
    ensures CanBecomeUnsafe(g, i)
  {
    var g' := g.(snaps := g.snaps[i := Fire(g.snaps[i], t, false)]);
    assert Step(g, Inside(i, t), false) == g';
    var rest :| GatewayRuntime.Possible(g', rest, false) && i < |GatewayRuntime.Exec(g', rest, false).snaps| &&
                Unsafe(GatewayRuntime.Exec(g', rest, false).snaps[i]);
    var moves := [Inside(i, t)] + rest;
    assert moves[1..] == rest;
    assert GatewayRuntime.Possible(g, moves, false);
  }

  /** The gateway with snapshot i in state s. */
  function With(g: Gw, i: nat, s: Snap): Gw
    requires i < |g.snaps|
  {
    g.(snaps := g.snaps[i := s])
  }

  lemma {:induction false} Through(g: Gw, i: nat, s: Snap, t: nat)
    requires i < |g.snaps| && Enabled(s, t) && CanBecomeUnsafe(With(g, i, Fire(s, t, false)), i)
    ensures CanBecomeUnsafe(With(g, i, s), i)
  {
    var g' := With(g, i, s);
    assert g'.snaps[i := Fire(s, t, false)] == g.snaps[i := Fire(s, t, false)];
    UnsafeThrough(g', i, t);
  }

  /** Close waits while a releaser that saw zero has still to read the state. */
  lemma {:induction false} StaleReleaserInGateway(g: Gw, i: nat, s: Snap, c: nat, r: nat, h: nat)
    requires i < |g.snaps| && s.phase.Closing? && !s.drainSignaled && s.drainedCh == 0
    requires c < |s.threads| && s.threads[c].CloseWait?
    requires r < |s.threads| && s.threads[r].SawZero? && !s.threads[r].who.Closer?
    requires h < |s.threads| && s.threads[h].Holding?
    ensures CanBecomeUnsafe(With(g, i, s), i)
  {
    var s3 := Fire(s, r, false);
    var s4 := Fire(s3, r, false);
    var s5 := Fire(s4, r, false);
    var s6 := Fire(s5, c, false);
    assert s6.threads[h].Holding? && PastDrain(s6.threads[c]);
    UnsafeAlready(With(g, i, s6), i);
    Through(g, i, s5, c);
    Through(g, i, s4, r);
    Through(g, i, s3, r);
    Through(g, i, s, r);
  }

  lemma {:induction false} HazardBecomesUnsafe(g: Gw, i: nat, c: nat)
    requires i < |g.snaps| && SnapshotLifecycle.Inv(g.snaps[i]) && Closes(g.snaps[i], StepOf(c)) && Hazard(g.snaps[i])
    ensures CanBecomeUnsafe(With(g, i, Fire(g.snaps[i], c, false)), i)
  {
    var s := g.snaps[i];
    var r :| 0 <= r < |s.threads| && s.threads[r].SawZero?;
    var h :| 0 <= h < |s.threads| && s.threads[h].Holding?;
    assert ThreadOk(s, r);
    CountWitness(s.threads);
    assert InFlightPC(s.threads[h]);
    var s1 := Fire(s, c, false);
    StaleReleaserInGateway(g, i, Fire(s1, c, false), c, r, h);
    Through(g, i, s1, c);
  }

  /** A snapshot that has left the open state keeps its drain invariant, whatever else moves. */
  lemma {:induction false} ClosedStepDrains(g: Gw, m: Move, i: nat)
    requires GatewayRuntime.Inv(g) && GatewayRuntime.Can(g, m) && i < |g.snaps|
    requires !g.snaps[i].phase.Open? && DrainInv(g.snaps[i], false)
    ensures var g' := Step(g, m, false); i < |g'.snaps| && !g'.snaps[i].phase.Open? && DrainInv(g'.snaps[i], false)
  {
    var s := g.snaps[i];
    assert SnapOk(g, i);
    match m
    case Inside(j, t) =>
      if j == i {
        FireDrain(s, t, false);
        DoStaysClosed(s, StepOf(t), false);
      }
    case Load(k) => ArriveDrain(s, AcqStart, false);
    case Swap(k) => ArriveDrain(s, CloseStart, false);
    case _ =>
  }

  lemma {:induction false} ClosedExecDrains(g: Gw, moves: seq<Move>, i: nat)
    requires GatewayRuntime.Inv(g) && GatewayRuntime.Possible(g, moves, false) && i < |g.snaps|
    requires !g.snaps[i].phase.Open? && DrainInv(g.snaps[i], false)
    ensures var g' := GatewayRuntime.Exec(g, moves, false); i < |g'.snaps| && !Unsafe(g'.snaps[i])
    decreases |moves|
  {
    if moves == [] {
      assert SnapOk(g, i);
      DrainInvIsSafe(g.snaps[i], false);
    } else {
      StepInv(g, moves[0], false);
      ClosedStepDrains(g, moves[0], i);
      ClosedExecDrains(Step(g, moves[0], false), moves[1..], i);
    }
  }

  /** From a reachable gateway, after the step with which call c starts to close snapshot i, that
      snapshot can become unsafe if and only if the step was taken in a hazard. */
  lemma {:induction false} GatewayHazardIsExact(g: Gw, i: nat, c: nat)
    requires Reachable(g, false) && i < |g.snaps| && Closes(g.snaps[i], StepOf(c))
    ensures CanBecomeUnsafe(Step(g, Inside(i, c), false), i) <==> Hazard(g.snaps[i])
  {
    ReachableInv(g, false);
    assert SnapOk(g, i);
    var g' := Step(g, Inside(i, c), false);
    assert g' == With(g, i, Fire(g.snaps[i], c, false));
    if Hazard(g.snaps[i]) {
      HazardBecomesUnsafe(g, i, c);
    } else {
      StepInv(g, Inside(i, c), false);
      FireDrain(g.snaps[i], c, false);
      forall moves | GatewayRuntime.Possible(g', moves, false)
        ensures var h := GatewayRuntime.Exec(g', moves, false); i < |h.snaps| && !Unsafe(h.snaps[i])
      {
        ClosedExecDrains(g', moves, i);
      }
    }
  }

  // ---------------------------------------------------------------- a Reload that is not safe

  /** Two requests on the first snapshot, which is in state s. */
  function Two(registry: Registry, s: Snap): Gw {
    Gw(0, [s], [OnSnap(0, 0, 0, 0), OnSnap(0, 1, 0, 0)], [], 0, [registry], [0], [0], [-1], [-1],
       registry)
  }

  /** One request on the first snapshot. */
  function One(registry: Registry): Gw {
    Start(registry).(callers := [OnSnap(0, 0, 0, 0)], snaps := [Init([registry]).(threads := [AcqStart])])
  }

  lemma {:induction false} OneReached(registry: Registry)
    ensures Reachable(One(registry), false)
  {
    var g0 := Start(registry);
    StartReached(registry, false);
    MoveReaches(g0, Arrives(Loading(0, 0)), false);
    var g1 := g0.(callers := [Loading(0, 0)]);
    assert Step(g0, Arrives(Loading(0, 0)), false) == g1;
    MoveReaches(g1, Load(0), false);
    assert Arrive(Init([registry]), AcqStart) == Init([registry]).(threads := [AcqStart]);
    assert Step(g1, Load(0), false) == One(registry);
  }

  lemma {:induction false} TwoReached(registry: Registry)
    ensures Reachable(Two(registry, Init([registry]).(threads := [AcqStart, AcqStart])), false)
  {
    var g2 := One(registry);
    OneReached(registry);
    MoveReaches(g2, Arrives(Loading(0, 0)), false);
    var g3 := g2.(callers := [OnSnap(0, 0, 0, 0), Loading(0, 0)]);
    assert Step(g2, Arrives(Loading(0, 0)), false) == g3;
    MoveReaches(g3, Load(1), false);
    assert Arrive(g3.snaps[0], AcqStart) == Init([registry]).(threads := [AcqStart, AcqStart]);
    assert Step(g3, Load(1), false) == Two(registry, Init([registry]).(threads := [AcqStart, AcqStart]));
  }

  lemma {:induction false} TwoFires(registry: Registry, s: Snap, t: nat, s': Snap)
    requires Reachable(Two(registry, s), false) && Enabled(s, t) && s' == Fire(s, t, false)
    ensures Reachable(Two(registry, s'), false)
  {
    MoveReaches(Two(registry, s), Inside(0, t), false);
    assert Two(registry, s).snaps[0 := s'] == [s'];
  }

  /** The first request has decremented to zero but not looked at the state; the second holds. */
  lemma {:induction false} HazardInGateway(registry: Registry)
    ensures Reachable(Two(registry, Init([registry]).(inFlight := 1, threads := [SawZero(Served), Holding])), false)
  {
    TwoReached(registry);
    var s := Init([registry]);
    TwoFires(registry, s.(threads := [AcqStart, AcqStart]), 0, s.(threads := [AcqSawOpen, AcqStart]));
    var s1 := s.(inFlight := 1);
    TwoFires(registry, s.(threads := [AcqSawOpen, AcqStart]), 0, s1.(threads := [AcqCounted, AcqStart]));
    TwoFires(registry, s1.(threads := [AcqCounted, AcqStart]), 0, s1.(threads := [Holding, AcqStart]));
    TwoFires(registry, s1.(threads := [Holding, AcqStart]), 0, s.(threads := [SawZero(Served), AcqStart]));
    SecondHolds(registry);
  }

  lemma {:induction false} SecondHolds(registry: Registry)
    requires Reachable(Two(registry, Init([registry]).(threads := [SawZero(Served), AcqStart])), false)
    ensures Reachable(Two(registry, Init([registry]).(inFlight := 1, threads := [SawZero(Served), Holding])), false)
  {
    var s, z := Init([registry]), SawZero(Served);
    var s1 := s.(inFlight := 1);
    TwoFires(registry, s.(threads := [z, AcqStart]), 1, s.(threads := [z, AcqSawOpen]));
    TwoFires(registry, s.(threads := [z, AcqSawOpen]), 1, s1.(threads := [z, AcqCounted]));
    TwoFires(registry, s1.(threads := [z, AcqCounted]), 1, s1.(threads := [z, Holding]));
  }

  /** A Reload has published a second snapshot and is in Close of the first, which is in state s. */
  function Reloading(registry: Registry, s: Snap): Gw {
    Gw(1, [s, Init([[]])], [OnSnap(0, 0, 0, 0), OnSnap(0, 1, 0, 0), ClosingOld(0, 2)], [], 1, [registry, []],
       [0, 1], [0, 2], [2, -1], [2, -1], registry)
  }

  /** The Reload has compiled and not yet swapped. */
  function Fresh(registry: Registry, s: Snap): Gw {
    Gw(0, [s, Init([[]])], [OnSnap(0, 0, 0, 0), OnSnap(0, 1, 0, 0), HasFresh(1)], [], 0, [registry, []],
       [0, -1], [0, 2], [-1, -1], [-1, -1], registry)
  }

  lemma {:induction false} FreshReached(registry: Registry, s: Snap)
    requires Reachable(Two(registry, s), false)
    ensures Reachable(Fresh(registry, s), false)
  {
    var g0 := Two(registry, s);
    MoveReaches(g0, Arrives(Compiling([])), false);
    var g1 := g0.(callers := [OnSnap(0, 0, 0, 0), OnSnap(0, 1, 0, 0), Compiling([])]);
    assert Step(g0, Arrives(Compiling([])), false) == g1;
    MoveReaches(g1, CompileOk(2), false);
    assert Step(g1, CompileOk(2), false) == Fresh(registry, s);
  }

  lemma {:induction false} ReloadingReached(registry: Registry, s: Snap)
    requires |s.threads| == 2 && Reachable(Two(registry, s), false)
    ensures Reachable(Reloading(registry, Arrive(s, CloseStart)), false)
  {
    FreshReached(registry, s);
    MoveReaches(Fresh(registry, s), Swap(2), false);
    assert Step(Fresh(registry, s), Swap(2), false) == Reloading(registry, Arrive(s, CloseStart));
  }

  lemma {:induction false} ReloadFires(registry: Registry, s: Snap, t: nat, s': Snap)
    requires Reachable(Reloading(registry, s), false) && Enabled(s, t) && s' == Fire(s, t, false)
    ensures Reachable(Reloading(registry, s'), false)
  {
    MoveReaches(Reloading(registry, s), Inside(0, t), false);
    assert Reloading(registry, s).snaps[0 := s'] == [s', Init([[]])];
  }

  /** The state of the first snapshot while its three calls are at these points. */
  function Three(registry: Registry, a: PC, c: PC): Snap {
    Init([registry]).(phase := Phase.Closing, inFlight := 1, owner := 2, threads := [a, Holding, c])
  }

  lemma {:induction false} StaleSignal(registry: Registry)
    requires Reachable(Reloading(registry, Three(registry, SawZero(Served), CloseWait)), false)
    ensures exists g :: Reachable(g, false) && !Safe(g)
  {
    ReloadFires(registry, Three(registry, SawZero(Served), CloseWait), 0,
                Three(registry, Signalling(Served), CloseWait));
    var won := Three(registry, Draining(Served), CloseWait).(drainSignaled := true, signaller := 0);
    ReloadFires(registry, Three(registry, Signalling(Served), CloseWait), 0, won);
    var open := won.(drainedCh := 1, threads := [Returned(true), Holding, CloseWait]);
    ReloadFires(registry, won, 0, open);
    var bad := open.(threads := [Returned(true), Holding, CloseRun(1)]);
    ReloadFires(registry, open, 2, bad);
    assert bad.threads[1].Holding? && PastDrain(bad.threads[2]);
    assert Unsafe(Reloading(registry, bad).snaps[0]);
  }

  /** With the code as it is, a Reload reaches a state in which the closers of the old snapshot run
      while a request holds it. */
  lemma {:induction false} ReloadCanBeUnsafe(registry: Registry)
    ensures exists g :: Reachable(g, false) && !Safe(g)
  {
    HazardInGateway(registry);
    var s := Init([registry]).(inFlight := 1, threads := [SawZero(Served), Holding]);
    ReloadingReached(registry, s);
    ReloadFires(registry, Arrive(s, CloseStart), 2, Three(registry, SawZero(Served), CloseCheck));
    ReloadFires(registry, Three(registry, SawZero(Served), CloseCheck), 2, Three(registry, SawZero(Served), CloseWait));
    StaleSignal(registry);
  }
}
