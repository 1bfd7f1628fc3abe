/**
 The gateway around its snapshots: the published pointer, Reload, ShutdownContext and the
 acquire loop of ServeHTTP (internal/gateway/gateway.go), and what becomes of the closers
 that a compile registers (internal/gateway/compiler.go, internal/plugin/plugin.go).

 Every snapshot is a full SnapshotLifecycle state; calls on it arrive only from here.
 `swaps`, `compiled`, `pubAt`, `freshBy`, `closerOf`, `closedBy` and `received` are history variables.
 */
module GatewayRuntime {
  import opened SnapshotLifecycle
  import opened DrainSafety

  /** Where a caller of the gateway is. */
  datatype Caller =
    | Loading(retries: nat, since: nat)                         // ServeHTTP: load of the pointer
    | OnSnap(snap: nat, call: nat, retries: nat, since: nat)    // inside acquire .. release
    | Answered | Unavailable
    | Compiling(registered: Registry)                           // Reload: inside Compile
    | Aborting(registered: Registry, left: nat, ran: seq<CloserId>)  // Compile failed: inside registry.Close
    | HasFresh(snap: nat)                                       // Reload: about to swap
    | ClosingOld(snap: nat, call: nat)                          // inside Close of the old snapshot
    | ShuttingDown                                              // ShutdownContext: about to swap nil
    | Done

  /** A compile that failed after building its registry, and what its deferred Close closed. */
  datatype FailedCompile = FailedCompile(registered: Registry, ran: seq<CloserId>)

  datatype Gw = Gw(
    published: int,             // index of the published snapshot, or -1 for nil
    snaps: seq<Snap>,
    callers: seq<Caller>,
    failed: seq<FailedCompile>,
    swaps: nat,                 // swaps of the pointer so far
    compiled: seq<Registry>,    // what the compile of each snapshot registered
    pubAt: seq<int>,            // the swap that published each snapshot, or -1
    freshBy: seq<nat>,          // the Reload that compiled each snapshot
    closerOf: seq<int>,         // the Close call on each snapshot, or -1
    closedBy: seq<int>,         // the caller that made it, or -1
    received: seq<CloserId>)    // every closer that any registry has received

  /** NewWithCompiler has stored the first snapshot. */
  function Start(registry: Registry): Gw {
    Gw(0, [Init([registry])], [], [], 0, [registry], [0], [0], [-1], [-1], registry)
  }

  datatype Move =
    | Arrives(c: Caller)
    | Load(k: nat)
    | Inside(i: nat, t: nat)        // an atomic step of call t on snapshot i
    | Retry(k: nat)                 // acquire returned false: go round the loop
    | Serve(k: nat)                 // the deferred release has returned
    | Register(k: nat, closer: CloserId)    // a plugin built by the compile registers a closer
    | CompileOk(k: nat)
    | CompileFails(k: nat)          // Compile fails and its deferred Close starts
    | CloseNext(k: nat)             // registry.Close of a failed compile closes one more closer
    | AbortReturns(k: nat)
    | Swap(k: nat)                  // Reload or ShutdownContext swaps the pointer
    | CloseReturns(k: nat)

  predicate Arriving(c: Caller, swaps: nat) {
    c == Loading(0, swaps) || c == Compiling([]) || c == ShuttingDown
  }

  predicate CallIs(g: Gw, i: nat, t: nat, pc: PC) {
    i < |g.snaps| && t < |g.snaps[i].threads| && g.snaps[i].threads[t] == pc
  }

  predicate Can(g: Gw, m: Move) {
    match m
    case Arrives(c) => Arriving(c, g.swaps)
    case Load(k) => k < |g.callers| && g.callers[k].Loading? && g.published < |g.snaps|
    case Inside(i, t) => i < |g.snaps| && Enabled(g.snaps[i], t)
    case Retry(k) =>
      k < |g.callers| && g.callers[k].OnSnap? && CallIs(g, g.callers[k].snap, g.callers[k].call, Returned(false))
    case Serve(k) =>
      k < |g.callers| && g.callers[k].OnSnap? && CallIs(g, g.callers[k].snap, g.callers[k].call, Returned(true))
    case Register(k, _) => k < |g.callers| && g.callers[k].Compiling?
    case CompileOk(k) => k < |g.callers| && g.callers[k].Compiling?
    case CompileFails(k) => k < |g.callers| && g.callers[k].Compiling?
    case CloseNext(k) =>
      k < |g.callers| && g.callers[k].Aborting? && 0 < g.callers[k].left <= |g.callers[k].registered|
    case AbortReturns(k) => k < |g.callers| && g.callers[k].Aborting? && g.callers[k].left == 0
    case Swap(k) =>
      && k < |g.callers| && (g.callers[k].ShuttingDown? || g.callers[k].HasFresh?)
      && (g.callers[k].HasFresh? ==> g.callers[k].snap < |g.pubAt|)
      && g.published < |g.snaps| == |g.closerOf| == |g.closedBy|
    case CloseReturns(k) =>
      && k < |g.callers| && g.callers[k].ClosingOld?
      && g.callers[k].snap < |g.snaps| && g.callers[k].call < |g.snaps[g.callers[k].snap].threads|
      && g.snaps[g.callers[k].snap].threads[g.callers[k].call].CloseReturned?
  }

  function Set(g: Gw, k: nat, c: Caller): Gw
    requires k < |g.callers|
  {
    g.(callers := g.callers[k := c])
  }

  /** Caller k retires the published snapshot and calls Close on it. */
  function RetireOld(g: Gw, k: nat): Gw
    requires k < |g.callers| && g.published < |g.snaps| == |g.closerOf| == |g.closedBy|
  {
    if g.published < 0 then Set(g, k, Done)
    else
      var i := g.published;
      var t := |g.snaps[i].threads|;
      Set(g.(snaps := g.snaps[i := Arrive(g.snaps[i], CloseStart)],
             closerOf := g.closerOf[i := t], closedBy := g.closedBy[i := k]), k, ClosingOld(i, t))
  }

  /** Caller k swaps the pointer, to its fresh snapshot or to nil. */
  function Swapped(g: Gw, k: nat): Gw
    requires Can(g, Swap(k))
  {
    var g1 := RetireOld(g, k).(swaps := g.swaps + 1);
    if g.callers[k].ShuttingDown? then g1.(published := -1)
    else g1.(published := g.callers[k].snap, pubAt := g.pubAt[g.callers[k].snap := g.swaps + 1])
  }

  function Step(g: Gw, m: Move, repaired: bool): Gw
    requires Can(g, m)
  {
    match m
    case Arrives(c) => g.(callers := g.callers + [c])
    case Load(k) =>
      if g.published < 0 then Set(g, k, Unavailable)
      else
        var i := g.published;
        Set(g.(snaps := g.snaps[i := Arrive(g.snaps[i], AcqStart)]), k,
            OnSnap(i, |g.snaps[i].threads|, g.callers[k].retries, g.callers[k].since))
    case Inside(i, t) => g.(snaps := g.snaps[i := Fire(g.snaps[i], t, repaired)])
    case Retry(k) => Set(g, k, Loading(g.callers[k].retries + 1, g.callers[k].since))
    case Serve(k) => Set(g, k, Answered)
    case Register(k, closer) =>
      Set(g.(received := g.received + [closer]), k, Compiling(g.callers[k].registered + [closer]))
    case CompileOk(k) =>
      var registry := g.callers[k].registered;
      Set(g.(snaps := g.snaps + [Init([registry])], compiled := g.compiled + [registry], pubAt := g.pubAt + [-1],
             freshBy := g.freshBy + [k], closerOf := g.closerOf + [-1], closedBy := g.closedBy + [-1]),
          k, HasFresh(|g.snaps|))
    case CompileFails(k) =>
      Set(g, k, Aborting(g.callers[k].registered, |g.callers[k].registered|, []))
    case CloseNext(k) =>
      var c := g.callers[k];
      Set(g, k, c.(left := c.left - 1, ran := c.ran + [c.registered[c.left - 1]]))
    case AbortReturns(k) =>
      Set(g.(failed := g.failed + [FailedCompile(g.callers[k].registered, g.callers[k].ran)]), k, Done)
    case Swap(k) => Swapped(g, k)
    case CloseReturns(k) => Set(g, k, Done)
  }

  predicate Possible(g: Gw, moves: seq<Move>, repaired: bool)
    decreases |moves|
  {
    moves == [] || (Can(g, moves[0]) && Possible(Step(g, moves[0], repaired), moves[1..], repaired))
  }

  function Exec(g: Gw, moves: seq<Move>, repaired: bool): Gw
    requires Possible(g, moves, repaired)
    decreases |moves|
  {
    if moves == [] then g else Exec(Step(g, moves[0], repaired), moves[1..], repaired)
  }

  // ---------------------------------------------------------------- invariants

  predicate ClosePC(pc: PC) {
    pc.CloseStart? || pc.CloseWaitOther? || pc.CloseReturned? || OwnerPC(pc)
  }

  /** The history of snapshot i: fresh, published or retired by exactly one Close call. */
  ghost predicate SnapOk(g: Gw, i: nat)
    requires i < |g.snaps| == |g.compiled| == |g.pubAt| == |g.freshBy| == |g.closerOf| == |g.closedBy|
  {
    var s := g.snaps[i];
    && SnapshotLifecycle.Inv(s)
    && s.registered == [g.compiled[i]]
    && (forall t :: 0 <= t < |s.threads| ==> (ClosePC(s.threads[t]) <==> t == g.closerOf[i]))
    && -1 <= g.closerOf[i] < |s.threads|
    && -1 <= g.pubAt[i] <= g.swaps
    && (g.pubAt[i] == g.swaps ==> g.published == i)
    && (g.pubAt[i] == -1 ==> g.closerOf[i] == -1 && s.threads == [])
    && (g.pubAt[i] == -1 ==> g.freshBy[i] < |g.callers| && g.callers[g.freshBy[i]] == HasFresh(i))
    && (g.closerOf[i] == -1 <==> g.pubAt[i] == -1 || g.published == i)
    && (g.closerOf[i] >= 0 ==> RetiredOk(g, i))
  }

  predicate RetiredOk(g: Gw, i: nat)
    requires i < |g.snaps| == |g.compiled| == |g.pubAt| == |g.freshBy| == |g.closerOf| == |g.closedBy|
    requires 0 <= g.closerOf[i] < |g.snaps[i].threads|
  {
    || g.snaps[i].threads[g.closerOf[i]].CloseReturned?
    || (0 <= g.closedBy[i] < |g.callers| && g.callers[g.closedBy[i]] == ClosingOld(i, g.closerOf[i]))
  }

  predicate CallerOk(g: Gw, k: nat)
    requires k < |g.callers| && |g.snaps| == |g.compiled| == |g.pubAt| == |g.freshBy| == |g.closerOf| == |g.closedBy|
  {
    match g.callers[k]
    case Loading(retries, since) => since + retries <= g.swaps
    case OnSnap(i, t, retries, since) =>
      && i < |g.snaps| && t < |g.snaps[i].threads| && !ClosePC(g.snaps[i].threads[t])
      && since + retries <= g.pubAt[i]
    case HasFresh(i) => i < |g.snaps| && g.pubAt[i] == -1 && g.freshBy[i] == k
    case ClosingOld(i, t) => i < |g.snaps| && g.closerOf[i] == t && t < |g.snaps[i].threads|
    case Aborting(registered, left, ran) => left <= |registered| && ran == Reverse(registered[left..])
    case _ => true
  }

  ghost predicate Inv(g: Gw) {
    && |g.snaps| == |g.compiled| == |g.pubAt| == |g.freshBy| == |g.closerOf| == |g.closedBy|
    && -1 <= g.published < |g.snaps|
    && (g.published >= 0 ==> g.pubAt[g.published] == g.swaps)
    && (forall i :: 0 <= i < |g.snaps| ==> SnapOk(g, i))
    && (forall k :: 0 <= k < |g.callers| ==> CallerOk(g, k))
    && (forall j :: 0 <= j < |g.failed| ==> g.failed[j].ran == Reverse(g.failed[j].registered))
  }

  lemma {:induction false} StartInv(registry: Registry)
    ensures Inv(Start(registry))
  {
    InitInv([registry]);
  }

  lemma {:induction false} TargetKeepsSide(s: Snap, pc: PC, repaired: bool)
    ensures ClosePC(Target(s, pc, repaired)) <==> ClosePC(pc)
  {
  }

  lemma {:induction false} InsideSnap(g: Gw, i: nat, t: nat, repaired: bool, j: nat)
    requires Inv(g) && i < |g.snaps| && Enabled(g.snaps[i], t) && j < |g.snaps|
    ensures SnapOk(Step(g, Inside(i, t), repaired), j)
  {
    assert SnapOk(g, j);
    if j == i {
      FireInv(g.snaps[i], t, repaired);
      TargetKeepsSide(g.snaps[i], g.snaps[i].threads[t], repaired);
    }
  }

  /** A step inside one snapshot concerns nobody else. */
  lemma {:induction false} InsideInv(g: Gw, i: nat, t: nat, repaired: bool)
    requires Inv(g) && i < |g.snaps| && Enabled(g.snaps[i], t)
    ensures Inv(Step(g, Inside(i, t), repaired))
  {
    var g' := Step(g, Inside(i, t), repaired);
    TargetKeepsSide(g.snaps[i], g.snaps[i].threads[t], repaired);
    forall j | 0 <= j < |g'.snaps| ensures SnapOk(g', j) {
      InsideSnap(g, i, t, repaired, j);
    }
    forall k | 0 <= k < |g'.callers| ensures CallerOk(g', k) {
      assert CallerOk(g, k);
    }
  }

  /** A call arrives on snapshot i, which is then as consistent as before. */
  lemma {:induction false} ArriveSnap(g: Gw, g': Gw, i: nat, pc: PC)
    requires Inv(g) && i == g.published && (pc.AcqStart? || pc.CloseStart?)
    requires g'.snaps == g.snaps[i := Arrive(g.snaps[i], pc)]
    ensures SnapshotLifecycle.Inv(g'.snaps[i])
    ensures forall t :: 0 <= t < |g.snaps[i].threads| ==>
              g'.snaps[i].threads[t] == g.snaps[i].threads[t] && !ClosePC(g'.snaps[i].threads[t])
  {
    assert SnapOk(g, i);
    ArriveInv(g.snaps[i], pc);
  }

  lemma {:induction false} LoadInv(g: Gw, k: nat, repaired: bool)
    requires Inv(g) && Can(g, Load(k))
    ensures Inv(Step(g, Load(k), repaired))
  {
    var g' := Step(g, Load(k), repaired);
    assert CallerOk(g, k);
    if g.published >= 0 {
      assert SnapOk(g, g.published);
      ArriveSnap(g, g', g.published, AcqStart);
    }
    forall j | 0 <= j < |g'.snaps| ensures SnapOk(g', j) {
      assert SnapOk(g, j);
    }
    forall j | 0 <= j < |g'.callers| ensures CallerOk(g', j) {
      assert CallerOk(g, j);
    }
  }

  lemma {:induction false} SwapSnap(g: Gw, k: nat, j: nat)
    requires Inv(g) && Can(g, Swap(k)) && j < |g.snaps|
    ensures SnapOk(Swapped(g, k), j)
  {
    assert CallerOk(g, k) && SnapOk(g, j);
    if j == g.published { ArriveSnap(g, Swapped(g, k), j, CloseStart); }
  }

  /** What a swap does to the fields that callers rely on. */
  lemma {:induction false} SwapEffect(g: Gw, k: nat)
    requires Inv(g) && Can(g, Swap(k))
    ensures var g' := Swapped(g, k);
            && g'.swaps == g.swaps + 1 && |g'.snaps| == |g.snaps| && |g'.callers| == |g.callers|
            && |g'.pubAt| == |g.pubAt| && g'.freshBy == g.freshBy && |g'.closerOf| == |g.closerOf|
            && (forall i :: 0 <= i < |g.pubAt| && g.pubAt[i] >= 0 ==> g'.pubAt[i] == g.pubAt[i])
            && (forall i :: 0 <= i < |g.pubAt| && g.callers[k] != HasFresh(i) ==> g'.pubAt[i] == g.pubAt[i])
            && (forall i :: 0 <= i < |g.snaps| ==> g.snaps[i].threads <= g'.snaps[i].threads)
            && (forall i :: 0 <= i < |g.closerOf| && g.closerOf[i] >= 0 ==> g'.closerOf[i] == g.closerOf[i])
            && (forall j :: 0 <= j < |g.callers| && j != k ==> g'.callers[j] == g.callers[j])
  {
    assert CallerOk(g, k);
    if g.published >= 0 { assert SnapOk(g, g.published); }
  }

  lemma {:induction false} SwapOwnCaller(g: Gw, k: nat)
    requires Inv(g) && Can(g, Swap(k))
    ensures CallerOk(Swapped(g, k), k)
  {
    assert CallerOk(g, k);
  }

  lemma {:induction false} SwapOtherCaller(g: Gw, k: nat, j: nat)
    requires Inv(g) && Can(g, Swap(k)) && j < |g.callers| && j != k
    ensures CallerOk(Swapped(g, k), j)
  {
    assert CallerOk(g, j) && CallerOk(g, k);
    SwapEffect(g, k);
    match g.callers[j]
    case OnSnap(i, t, _, _) =>
      assert SnapOk(g, i);
    case _ =>
  }

  lemma {:induction false} SwapInv(g: Gw, k: nat)
    requires Inv(g) && Can(g, Swap(k))
    ensures Inv(Swapped(g, k))
  {
    var g' := Swapped(g, k);
    assert CallerOk(g, k);
    forall j | 0 <= j < |g'.snaps| ensures SnapOk(g', j) {
      SwapSnap(g, k, j);
    }
    forall j | 0 <= j < |g'.callers| ensures CallerOk(g', j) {
      if j == k { SwapOwnCaller(g, k); } else { SwapOtherCaller(g, k, j); }
    }
  }

  lemma {:induction false} CompileOkInv(g: Gw, k: nat, repaired: bool)
    requires Inv(g) && Can(g, CompileOk(k))
    ensures Inv(Step(g, CompileOk(k), repaired))
  {
    var g' := Step(g, CompileOk(k), repaired);
    InitInv([g.callers[k].registered]);
    forall j | 0 <= j < |g'.snaps| ensures SnapOk(g', j) {
      if j < |g.snaps| { assert SnapOk(g, j); }
    }
    forall j | 0 <= j < |g'.callers| ensures CallerOk(g', j) {
      assert CallerOk(g, j);
    }
  }

  /** Closing one more closer of a failed compile goes on in reverse order of registration. */
  lemma {:induction false} CloseNextInv(g: Gw, k: nat, repaired: bool)
    requires Inv(g) && Can(g, CloseNext(k))
    ensures CallerOk(Step(g, CloseNext(k), repaired), k)
  {
    assert CallerOk(g, k);
    var c := g.callers[k];
    var rest := c.registered[c.left - 1..];
    assert rest[1..] == c.registered[c.left..] && rest[0] == c.registered[c.left - 1];
  }

  /** A failed acquire means that the snapshot has been retired, so a later one is published. */
  lemma {:induction false} RefusedMeansRetired(g: Gw, k: nat)
    requires Inv(g) && Can(g, Retry(k))
    ensures g.pubAt[g.callers[k].snap] < g.swaps
  {
    assert CallerOk(g, k);
    var i := g.callers[k].snap;
    var s := g.snaps[i];
    assert SnapOk(g, i);
    assert ThreadOk(s, g.callers[k].call);
    assert OwnerPC(s.threads[s.owner]) && ClosePC(s.threads[s.owner]);
  }

  /** Moves that change no snapshot. */
  predicate CallerMove(m: Move) {
    !m.Load? && !m.Inside? && !m.CompileOk? && !m.Swap?
  }

  lemma {:induction false} CallerMoveCaller(g: Gw, m: Move, repaired: bool, j: nat)
    requires Inv(g) && Can(g, m) && j < |Step(g, m, repaired).callers|
    requires CallerMove(m)
    ensures CallerOk(Step(g, m, repaired), j)
  {
    if !m.Arrives? && j == m.k { CallerMoveOwn(g, m, repaired); } else { CallerMoveOther(g, m, repaired, j); }
  }

  lemma {:induction false} CallerMoveOther(g: Gw, m: Move, repaired: bool, j: nat)
    requires Inv(g) && Can(g, m) && j < |Step(g, m, repaired).callers|
    requires CallerMove(m) && (m.Arrives? || j != m.k)
    ensures CallerOk(Step(g, m, repaired), j)
  {
    if j < |g.callers| { assert CallerOk(g, j); }
  }

  lemma {:induction false} CallerMoveOwn(g: Gw, m: Move, repaired: bool)
    requires Inv(g) && Can(g, m) && CallerMove(m) && !m.Arrives?
    ensures CallerOk(Step(g, m, repaired), m.k)
  {
    assert CallerOk(g, m.k);
    if m.Retry? {
      RefusedMeansRetired(g, m.k);
    } else if m.CloseNext? {
      CloseNextInv(g, m.k, repaired);
    } else if m.CompileFails? {
      assert g.callers[m.k].registered[|g.callers[m.k].registered|..] == [];
    }
  }

  lemma {:induction false} CallerMoveSnap(g: Gw, m: Move, repaired: bool, j: nat)
    requires Inv(g) && Can(g, m) && j < |g.snaps|
    requires CallerMove(m)
    ensures SnapOk(Step(g, m, repaired), j)
  {
    assert SnapOk(g, j);
    if !m.Arrives? { assert CallerOk(g, m.k); }
  }

  lemma {:induction false} CallerInv(g: Gw, m: Move, repaired: bool)
    requires Inv(g) && Can(g, m)
    requires CallerMove(m)
    ensures Inv(Step(g, m, repaired))
  {
    var g' := Step(g, m, repaired);
    if m.AbortReturns? {
      assert CallerOk(g, m.k);
      assert g.callers[m.k].registered[0..] == g.callers[m.k].registered;
    }
    forall j | 0 <= j < |g'.snaps| ensures SnapOk(g', j) {
      CallerMoveSnap(g, m, repaired, j);
    }
    forall j | 0 <= j < |g'.callers| ensures CallerOk(g', j) {
      CallerMoveCaller(g, m, repaired, j);
    }
  }

  /** Every move of every caller keeps the invariant. */
  lemma {:induction false} StepInv(g: Gw, m: Move, repaired: bool)
    requires Inv(g) && Can(g, m)
    ensures Inv(Step(g, m, repaired))
  {
    match m
    case Load(k) => LoadInv(g, k, repaired);
    case Inside(i, t) => InsideInv(g, i, t, repaired);
    case CompileOk(k) => CompileOkInv(g, k, repaired);
    case Swap(k) => SwapInv(g, k);
    case _ => CallerInv(g, m, repaired);
  }

  lemma {:induction false} ExecInv(g: Gw, moves: seq<Move>, repaired: bool)
    requires Inv(g) && Possible(g, moves, repaired)
    ensures Inv(Exec(g, moves, repaired))
    decreases |moves|
  {
    if moves != [] {
      StepInv(g, moves[0], repaired);
      ExecInv(Step(g, moves[0], repaired), moves[1..], repaired);
    }
  }

  // ---------------------------------------------------------------- theorems

  ghost predicate Reachable(g: Gw, repaired: bool) {
    exists registry, moves :: Possible(Start(registry), moves, repaired) && g == Exec(Start(registry), moves, repaired)
  }

  lemma {:induction false} ReachableInv(g: Gw, repaired: bool)
    requires Reachable(g, repaired)
    ensures Inv(g)
  {
    var registry, moves :| Possible(Start(registry), moves, repaired) && g == Exec(Start(registry), moves, repaired);
    StartInv(registry);
    ExecInv(Start(registry), moves, repaired);
  }

  lemma {:induction false} NoCloseCallMeansOpen(g: Gw, i: nat)
    requires Inv(g) && i < |g.snaps| && g.closerOf[i] == -1
    ensures g.snaps[i].phase.Open?
  {
    assert SnapOk(g, i);
    var s := g.snaps[i];
    assert forall t :: 0 <= t < |s.threads| && OwnerPC(s.threads[t]) ==> ClosePC(s.threads[t]);
  }

  /** The published snapshot is always open, and a snapshot that was published and is so no
      longer has exactly one Close call, made by the caller that swapped it out. */
  lemma {:induction false} PublishedIsOpen(g: Gw, repaired: bool)
    requires Reachable(g, repaired)
    ensures g.published >= 0 ==> g.published < |g.snaps| && g.snaps[g.published].phase.Open?
    ensures forall i :: 0 <= i < |g.snaps| && i < |g.pubAt| && g.pubAt[i] >= 0 && i != g.published ==>
              exists t :: 0 <= t < |g.snaps[i].threads| && ClosePC(g.snaps[i].threads[t]) &&
                forall u :: 0 <= u < |g.snaps[i].threads| && ClosePC(g.snaps[i].threads[u]) ==> u == t
  {
    ReachableInv(g, repaired);
    if g.published >= 0 {
      assert SnapOk(g, g.published);
      NoCloseCallMeansOpen(g, g.published);
    }
    forall i | 0 <= i < |g.snaps| && g.pubAt[i] >= 0 && i != g.published
      ensures exists t :: 0 <= t < |g.snaps[i].threads| && ClosePC(g.snaps[i].threads[t]) &&
                forall u :: 0 <= u < |g.snaps[i].threads| && ClosePC(g.snaps[i].threads[u]) ==> u == t
    {
      assert SnapOk(g, i);
      assert ClosePC(g.snaps[i].threads[g.closerOf[i]]);
    }
  }

  /** A request goes round the acquire loop at most once per swap made since it arrived, and
      after a refused acquire it finds nil or a strictly later publication. */
  lemma {:induction false} RetriesAreBounded(g: Gw, repaired: bool, k: nat)
    requires Reachable(g, repaired) && k < |g.callers|
    ensures g.callers[k].Loading? || g.callers[k].OnSnap? ==>
              g.callers[k].retries <= g.swaps - g.callers[k].since
    ensures Can(g, Retry(k)) ==>
              g.published < 0 ||
              (g.published < |g.pubAt| && g.callers[k].snap < |g.pubAt| &&
               g.pubAt[g.published] > g.pubAt[g.callers[k].snap])
  {
    ReachableInv(g, repaired);
    assert CallerOk(g, k);
    if g.callers[k].OnSnap? { assert SnapOk(g, g.callers[k].snap); }
    if Can(g, Retry(k)) { RefusedMeansRetired(g, k); }
  }

  /** A move that is not a new caller, and not one more closer in a compile. */
  predicate Internal(m: Move) {
    !m.Arrives? && !m.Register?
  }

  /** Nothing is left to do but for new callers: no caller and no call can move. */
  ghost predicate Settled(g: Gw) {
    forall m: Move :: Internal(m) ==> !Can(g, m)
  }

  predicate CallerFinished(c: Caller) {
    c.Answered? || c.Unavailable? || c.Done?
  }

  lemma {:induction false} SettledSnap(g: Gw, i: nat)
    requires Inv(g) && Settled(g) && i < |g.snaps|
    ensures Quiescent(g.snaps[i])
  {
    forall t: nat ensures !Enabled(g.snaps[i], t) {
      assert !Can(g, Inside(i, t));
    }
  }

  /** In a settled gateway every call on a snapshot has returned. */
  lemma {:induction false} SettledCall(g: Gw, i: nat, t: nat)
    requires Inv(g) && Settled(g) && i < |g.snaps| && t < |g.snaps[i].threads|
    ensures g.snaps[i].threads[t].Returned? || g.snaps[i].threads[t].CloseReturned?
  {
    SettledSnap(g, i);
    assert SnapOk(g, i);
    QuiescentIsFinished(g.snaps[i], t);
  }

  /** The gateway has no deadlock: when nothing can move, every request has been answered
      and every Reload and Shutdown has returned. */
  lemma {:induction false} SettledIsFinished(g: Gw, k: nat)
    requires Inv(g) && Settled(g) && k < |g.callers|
    ensures CallerFinished(g.callers[k])
  {
    assert CallerOk(g, k);
    assert !Can(g, Load(k)) && !Can(g, CompileFails(k)) && !Can(g, Swap(k));
    assert !Can(g, CloseNext(k)) && !Can(g, AbortReturns(k));
    match g.callers[k]
    case OnSnap(i, t, _, _) =>
      assert !Can(g, Retry(k)) && !Can(g, Serve(k));
      SettledCall(g, i, t);
    case ClosingOld(i, t) =>
      assert !Can(g, CloseReturns(k));
      assert SnapOk(g, i);
      SettledCall(g, i, t);
    case _ =>
  }

  lemma {:induction false} RunOrderOfOne(registry: Registry)
    ensures RunOrder([registry]) == Reverse(registry)
  {
    assert [registry][1..] == [];
    assert RunOrder([]) + Reverse(registry) == Reverse(registry);
  }

  /** In every reachable state no closer has been closed twice or out of order. */
  lemma {:induction false} NoCloserClosedTwice(g: Gw, repaired: bool, i: nat)
    requires Reachable(g, repaired) && i < |g.snaps|
    ensures i < |g.compiled| && g.snaps[i].ran <= Reverse(g.compiled[i])
  {
    ReachableInv(g, repaired);
    assert SnapOk(g, i);
    var s := g.snaps[i];
    RunOrderOfOne(g.compiled[i]);
    if s.owner >= 0 && s.threads[s.owner].CloseRun? {
      RunOrderPrefix(s.registered, s.threads[s.owner].left);
    }
  }

  lemma {:induction false} RetiredSnapRan(g: Gw, i: nat)
    requires Inv(g) && Settled(g) && g.published < 0 && i < |g.snaps|
    ensures g.snaps[i].ran == Reverse(g.compiled[i])
  {
    assert SnapOk(g, i);
    RunOrderOfOne(g.compiled[i]);
    if g.pubAt[i] == -1 {
      SettledIsFinished(g, g.freshBy[i]);
    } else {
      var s := g.snaps[i];
      var t := g.closerOf[i];
      SettledSnap(g, i);
      QuiescentIsFinished(s, t);
      assert ClosePC(s.threads[t]);
      assert ThreadOk(s, t);
      assert ProgressOk(s);
    }
  }
}
