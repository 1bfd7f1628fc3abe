/**
 A complete run of the gateway: one Shutdown of a gateway without requests, from the published
 snapshot to the returned call.  It shows that settled states with the pointer at nil are reached.
 */
module ShutdownRun {
  import opened SnapshotLifecycle
  import opened GatewayRuntime

  lemma {:induction false} OneMoreMove(g: Gw, moves: seq<Move>, m: Move, repaired: bool)
    requires GatewayRuntime.Possible(g, moves, repaired)
    requires GatewayRuntime.Can(GatewayRuntime.Exec(g, moves, repaired), m)
    ensures GatewayRuntime.Possible(g, moves + [m], repaired)
    ensures GatewayRuntime.Exec(g, moves + [m], repaired) == Step(GatewayRuntime.Exec(g, moves, repaired), m, repaired)
    decreases |moves|
  {
    if moves == [] {
      assert moves + [m] == [m] && [m][1..] == [];
      assert GatewayRuntime.Possible(Step(g, m, repaired), [], repaired);
    } else {
      assert (moves + [m])[0] == moves[0] && (moves + [m])[1..] == moves[1..] + [m];
      OneMoreMove(Step(g, moves[0], repaired), moves[1..], m, repaired);
    }
  }

  /** What is reached after one more move. */
  lemma {:induction false} MoveReaches(g: Gw, m: Move, repaired: bool)
    requires Reachable(g, repaired) && GatewayRuntime.Can(g, m)
    ensures Reachable(Step(g, m, repaired), repaired)
  {
    var registry, moves :| GatewayRuntime.Possible(Start(registry), moves, repaired) &&
                           g == GatewayRuntime.Exec(Start(registry), moves, repaired);
    OneMoreMove(Start(registry), moves, m, repaired);
  }

  lemma {:induction false} StartReached(registry: Registry, repaired: bool)
    ensures Reachable(Start(registry), repaired)
  {
    assert GatewayRuntime.Possible(Start(registry), [], repaired);
    assert GatewayRuntime.Exec(Start(registry), [], repaired) == Start(registry);
  }

  /** The gateway while its one snapshot is in state `s` and the Shutdown in Close. */
  function Closing(registry: Registry, s: Snap): Gw {
    Gw(-1, [s], [ClosingOld(0, 0)], [], 1, [registry], [0], [0], [0], [0], registry)
  }

  lemma {:induction false} ClosingReached(registry: Registry, repaired: bool)
    ensures Reachable(Closing(registry, Arrive(Init([registry]), CloseStart)), repaired)
  {
    var g0 := Start(registry);
    StartReached(registry, repaired);
    MoveReaches(g0, Arrives(ShuttingDown), repaired);
    var g1 := Step(g0, Arrives(ShuttingDown), repaired);
    assert g1.callers == [ShuttingDown];
    MoveReaches(g1, Swap(0), repaired);
    var g2 := Step(g1, Swap(0), repaired);
    assert g2 == Closing(registry, Arrive(Init([registry]), CloseStart));
  }

  lemma {:induction false} Fires(registry: Registry, s: Snap, s': Snap, repaired: bool)
    requires Reachable(Closing(registry, s), repaired) && Enabled(s, 0) && s' == Fire(s, 0, repaired)
    ensures Reachable(Closing(registry, s'), repaired)
  {
    MoveReaches(Closing(registry, s), Inside(0, 0), repaired);
    assert Closing(registry, s).snaps[0 := s'] == [s'];
  }

  /** The state of the snapshot before each step of Close. */
  function At(registry: Registry, pc: PC): Snap {
    Snap(Phase.Closing, 0, false, 0, 0, [registry], [registry], [], [pc], 0, -1)
  }

  lemma {:induction false} Drained(registry: Registry, repaired: bool)
    ensures Reachable(Closing(registry, After(registry, [], CloseWait)), repaired)
  {
    ClosingReached(registry, repaired);
    Fires(registry, Arrive(Init([registry]), CloseStart), At(registry, CloseCheck), repaired);
    Fires(registry, At(registry, CloseCheck), At(registry, Signalling(Closer)), repaired);
    var won := At(registry, Draining(Closer)).(drainSignaled := true, signaller := 0);
    Fires(registry, At(registry, Signalling(Closer)), won, repaired);
    Fires(registry, won, won.(drainedCh := 1, threads := [CloseWait]), repaired);
  }

  /** The snapshot once its drain has been signalled. */
  function After(registry: Registry, ran: seq<CloserId>, pc: PC): Snap {
    At(registry, pc).(drainSignaled := true, drainedCh := 1, signaller := 0, ran := ran)
  }

  lemma {:induction false} ClosersRun(registry: Registry, repaired: bool)
    requires Reachable(Closing(registry, After(registry, [], CloseWait)), repaired)
    ensures Reachable(Closing(registry, After(registry, Reverse(registry), CloseRun(0))), repaired)
  {
    Fires(registry, After(registry, [], CloseWait), After(registry, [], CloseRun(1)), repaired);
    assert [] + Reverse(registry) == Reverse(registry);
    Fires(registry, After(registry, [], CloseRun(1)), After(registry, Reverse(registry), CloseRun(0)), repaired);
  }

  lemma {:induction false} CloseEnds(registry: Registry, s: Snap, repaired: bool)
    requires s.threads == [CloseRun(0)] && s.closedCh == 0 && Reachable(Closing(registry, s), repaired)
    ensures var last := s.(phase := Closed, closedCh := 1, closers := [], threads := [CloseReturned(true)]);
            Reachable(Closing(registry, last), repaired)
  {
    var s3 := s.(closers := [], threads := [CloseStore]);
    Fires(registry, s, s3, repaired);
    var s4 := s3.(phase := Closed, threads := [CloseAnnounce]);
    Fires(registry, s3, s4, repaired);
    Fires(registry, s4, s4.(closedCh := 1, threads := [CloseReturned(true)]), repaired);
  }

  lemma {:induction false} Returns(registry: Registry, s: Snap, repaired: bool)
    requires s.threads == [CloseReturned(true)] && Reachable(Closing(registry, s), repaired)
    ensures var g := Closing(registry, s).(callers := [Done]); Reachable(g, repaired) && Settled(g)
  {
    var g := Closing(registry, s);
    MoveReaches(g, CloseReturns(0), repaired);
    assert Step(g, CloseReturns(0), repaired) == g.(callers := [Done]);
  }

  /** Shutdown of an idle gateway: a settled state with the pointer at nil is reached, in which
      every closer of the only compile has been closed, last first. */
  lemma {:induction false} ShutdownRunExists(registry: Registry, repaired: bool)
    ensures exists g :: Reachable(g, repaired) && Settled(g) && g.published < 0 &&
                        |g.snaps| == 1 && g.snaps[0].ran == Reverse(registry)
  {
    Drained(registry, repaired);
    ClosersRun(registry, repaired);
    var s := After(registry, Reverse(registry), CloseRun(0));
    CloseEnds(registry, s, repaired);
    Returns(registry, s.(phase := Closed, closedCh := 1, closers := [], threads := [CloseReturned(true)]), repaired);
  }
}
