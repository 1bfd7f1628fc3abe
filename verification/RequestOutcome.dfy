/**
 What becomes of a request (ServeHTTP of internal/gateway/gateway.go): over every run it is turned
 away only if it found no snapshot published, and answered only from a snapshot that it held.
 */
module RequestOutcome {
  import Lifecycle = SnapshotLifecycle
  import opened GatewayRuntime

  // ---------------------------------------------------------------- one call on a snapshot

  /** Past the hold: in or after the release of a request that was served. */
  predicate ServedSide(pc: Lifecycle.PC) {
    match pc
    case SawZero(who) => who.Served?
    case Rechecking(who) => who.Served?
    case Signalling(who) => who.Served?
    case Draining(who) => who.Served?
    case Returned(served) => served
    case _ => false
  }

  predicate HeldSide(pc: Lifecycle.PC) {
    pc.Holding? || ServedSide(pc)
  }

  lemma {:induction false} TargetSide(s: Lifecycle.Snap, pc: Lifecycle.PC, repaired: bool)
    ensures ServedSide(Lifecycle.Target(s, pc, repaired)) ==> HeldSide(pc)
    ensures HeldSide(pc) ==> HeldSide(Lifecycle.Target(s, pc, repaired))
  {
  }

  /** The call holds the snapshot at some point of the run. */
  predicate EverHeld(s: Lifecycle.Snap, sched: seq<Lifecycle.Action>, repaired: bool, t: nat)
    requires Lifecycle.Possible(s, sched, repaired)
    decreases |sched|
  {
    || (t < |s.threads| && s.threads[t].Holding?)
    || (sched != [] && EverHeld(Lifecycle.Do(s, sched[0], repaired), sched[1..], repaired, t))
  }

  lemma {:induction false} DoSide(s: Lifecycle.Snap, a: Lifecycle.Action, repaired: bool, t: nat)
    requires Lifecycle.Can(s, a) && t < |Lifecycle.Do(s, a, repaired).threads|
    ensures var pc := Lifecycle.Do(s, a, repaired).threads[t];
            && (ServedSide(pc) ==> t < |s.threads| && HeldSide(s.threads[t]))
            && (t < |s.threads| && HeldSide(s.threads[t]) ==> HeldSide(pc))
  {
    if a.StepOf? { TargetSide(s, s.threads[a.t], repaired); }
  }

  lemma {:induction false} HeldBefore(s: Lifecycle.Snap, sched: seq<Lifecycle.Action>, repaired: bool, t: nat)
    requires Lifecycle.Possible(s, sched, repaired)
    requires t < |Lifecycle.Exec(s, sched, repaired).threads|
    ensures ServedSide(Lifecycle.Exec(s, sched, repaired).threads[t]) ==>
              EverHeld(s, sched, repaired, t) || (t < |s.threads| && ServedSide(s.threads[t]))
    ensures EverHeld(s, sched, repaired, t) || (t < |s.threads| && HeldSide(s.threads[t])) ==>
              HeldSide(Lifecycle.Exec(s, sched, repaired).threads[t])
    decreases |sched|
  {
    if sched != [] {
      var s' := Lifecycle.Do(s, sched[0], repaired);
      HeldBefore(s', sched[1..], repaired, t);
      if t < |s'.threads| { DoSide(s, sched[0], repaired, t); }
    }
  }

  /** A call of acquire and release that has returned was served if and only if it held the snapshot. */
  lemma {:induction false} ServedIffHeld(closers: seq<Lifecycle.Registry>, sched: seq<Lifecycle.Action>,
                                         repaired: bool, t: nat)
    requires Lifecycle.Possible(Lifecycle.Init(closers), sched, repaired)
    requires t < |Lifecycle.Exec(Lifecycle.Init(closers), sched, repaired).threads|
    ensures var pc := Lifecycle.Exec(Lifecycle.Init(closers), sched, repaired).threads[t];
            pc.Returned? ==> (pc.served <==> EverHeld(Lifecycle.Init(closers), sched, repaired, t))
  {
    HeldBefore(Lifecycle.Init(closers), sched, repaired, t);
  }

  // ---------------------------------------------------------------- requests and other callers

  predicate IsRequest(c: Caller) {
    c.Loading? || c.OnSnap? || c.Answered? || c.Unavailable?
  }

  /** The k-th caller to arrive in the run is a request. */
  predicate ArrivesRequest(moves: seq<Move>, k: nat)
    decreases |moves|
  {
    moves != [] &&
    if !moves[0].Arrives? then ArrivesRequest(moves[1..], k)
    else if k == 0 then IsRequest(moves[0].c)
    else ArrivesRequest(moves[1..], k - 1)
  }

  lemma {:induction false} StepRole(g: Gw, m: Move, repaired: bool, k: nat)
    requires Can(g, m) && k < |g.callers|
    ensures |Step(g, m, repaired).callers| == |g.callers| + if m.Arrives? then 1 else 0
    ensures IsRequest(Step(g, m, repaired).callers[k]) <==> IsRequest(g.callers[k])
  {
  }

  lemma {:induction false} StepCallers(g: Gw, m: Move, repaired: bool)
    requires Can(g, m)
    ensures |Step(g, m, repaired).callers| == |g.callers| + if m.Arrives? then 1 else 0
  {
  }

  /** A request stays one, and no other caller becomes one. */
  lemma {:induction false} RoleStays(g: Gw, moves: seq<Move>, repaired: bool, k: nat)
    requires Possible(g, moves, repaired) && k < |Exec(g, moves, repaired).callers|
    ensures IsRequest(Exec(g, moves, repaired).callers[k]) <==>
            if k < |g.callers| then IsRequest(g.callers[k]) else ArrivesRequest(moves, k - |g.callers|)
    decreases |moves|
  {
    if moves != [] {
      StepCallers(g, moves[0], repaired);
      if k < |g.callers| { StepRole(g, moves[0], repaired, k); }
      RoleStays(Step(g, moves[0], repaired), moves[1..], repaired, k);
    }
  }

  // ---------------------------------------------------------------- turned away

  /** At some point of the run the request loads the pointer while it is nil. */
  predicate MetNil(g: Gw, moves: seq<Move>, repaired: bool, k: nat)
    requires Possible(g, moves, repaired)
    decreases |moves|
  {
    moves != [] &&
    ((moves[0] == Load(k) && g.published < 0) || MetNil(Step(g, moves[0], repaired), moves[1..], repaired, k))
  }

  lemma {:induction false} StepUnavailable(g: Gw, m: Move, repaired: bool, k: nat)
    requires Can(g, m) && k < |Step(g, m, repaired).callers|
    ensures Step(g, m, repaired).callers[k].Unavailable? <==>
            (k < |g.callers| && g.callers[k].Unavailable?) || (m == Load(k) && g.published < 0)
  {
  }

  /** A request is turned away if and only if it has met a nil pointer. */
  lemma {:induction false} UnavailableIff(g: Gw, moves: seq<Move>, repaired: bool, k: nat)
    requires Possible(g, moves, repaired) && k < |Exec(g, moves, repaired).callers|
    ensures Exec(g, moves, repaired).callers[k].Unavailable? <==>
            (k < |g.callers| && g.callers[k].Unavailable?) || MetNil(g, moves, repaired, k)
    decreases |moves|
  {
    if moves != [] {
      var g' := Step(g, moves[0], repaired);
      UnavailableIff(g', moves[1..], repaired, k);
      if k < |g'.callers| { StepUnavailable(g, moves[0], repaired, k); }
    }
  }

  /** No Shutdown swaps the pointer in the run. */
  predicate NoShutdown(g: Gw, moves: seq<Move>, repaired: bool)
    requires Possible(g, moves, repaired)
    decreases |moves|
  {
    moves != [] ==>
      && !(moves[0].Swap? && g.callers[moves[0].k].ShuttingDown?)
      && NoShutdown(Step(g, moves[0], repaired), moves[1..], repaired)
  }

  lemma {:induction false} StaysPublished(g: Gw, moves: seq<Move>, repaired: bool, k: nat)
    requires Possible(g, moves, repaired) && NoShutdown(g, moves, repaired) && g.published >= 0
    ensures !MetNil(g, moves, repaired, k)
    decreases |moves|
  {
    if moves != [] { StaysPublished(Step(g, moves[0], repaired), moves[1..], repaired, k); }
  }

  // ---------------------------------------------------------------- answered

  predicate On(g: Gw, k: nat, i: nat, t: nat) {
    k < |g.callers| && g.callers[k].OnSnap? && g.callers[k].snap == i && g.callers[k].call == t &&
    i < |g.snaps| && t < |g.snaps[i].threads|
  }

  predicate HoldsNow(g: Gw, k: nat, i: nat, t: nat) {
    On(g, k, i, t) && g.snaps[i].threads[t].Holding?
  }

  predicate ServedNow(g: Gw, k: nat, i: nat, t: nat) {
    On(g, k, i, t) && ServedSide(g.snaps[i].threads[t])
  }

  /** The run answers request k from call t on snapshot i, after that call has held the snapshot;
      `held` says that it has done so before the run starts. */
  predicate ServedBy(g: Gw, moves: seq<Move>, repaired: bool, k: nat, i: nat, t: nat, held: bool)
    requires Possible(g, moves, repaired)
    decreases |moves|
  {
    moves != [] &&
    var now := held || HoldsNow(g, k, i, t);
    if moves[0] == Serve(k) && On(g, k, i, t) then now
    else ServedBy(Step(g, moves[0], repaired), moves[1..], repaired, k, i, t, now)
  }

  lemma {:induction false} EarlierHeld(g: Gw, moves: seq<Move>, repaired: bool, k: nat, i: nat, t: nat)
    requires Possible(g, moves, repaired) && ServedBy(g, moves, repaired, k, i, t, false)
    ensures ServedBy(g, moves, repaired, k, i, t, true)
    decreases |moves|
  {
    if !(moves[0] == Serve(k) && On(g, k, i, t)) && !HoldsNow(g, k, i, t) {
      EarlierHeld(Step(g, moves[0], repaired), moves[1..], repaired, k, i, t);
    }
  }

  lemma {:induction false} InsideServed(g: Gw, i: nat, t: nat, repaired: bool, k: nat, i': nat, t': nat)
    requires Can(g, Inside(i, t)) && ServedNow(Step(g, Inside(i, t), repaired), k, i', t')
    ensures ServedNow(g, k, i', t') || HoldsNow(g, k, i', t')
  {
    TargetSide(g.snaps[i], g.snaps[i].threads[t], repaired);
  }

  lemma {:induction false} StepServed(g: Gw, m: Move, repaired: bool, k: nat, i: nat, t: nat)
    requires Can(g, m) && ServedNow(Step(g, m, repaired), k, i, t)
    ensures ServedNow(g, k, i, t) || HoldsNow(g, k, i, t)
  {
    if m.Inside? { InsideServed(g, m.i, m.t, repaired, k, i, t); }
  }

  lemma {:induction false} StepAnswered(g: Gw, m: Move, repaired: bool, k: nat)
    requires Can(g, m) && k < |Step(g, m, repaired).callers|
    ensures Step(g, m, repaired).callers[k].Answered? <==>
            (k < |g.callers| && g.callers[k].Answered?) || m == Serve(k)
    ensures m == Serve(k) ==> ServedNow(g, k, g.callers[k].snap, g.callers[k].call)
  {
  }

  /** An answered request has been served from a snapshot that its call held before. */
  lemma {:induction false} AnsweredWasHeld(g: Gw, moves: seq<Move>, repaired: bool, k: nat) returns (i: nat, t: nat)
    requires Possible(g, moves, repaired) && k < |Exec(g, moves, repaired).callers|
    requires Exec(g, moves, repaired).callers[k].Answered? && !(k < |g.callers| && g.callers[k].Answered?)
    ensures ServedBy(g, moves, repaired, k, i, t, ServedNow(g, k, i, t))
    decreases |moves|
  {
    var g' := Step(g, moves[0], repaired);
    if moves[0] == Serve(k) {
      StepAnswered(g, moves[0], repaired, k);
      i, t := g.callers[k].snap, g.callers[k].call;
    } else {
      if k < |g'.callers| { StepAnswered(g, moves[0], repaired, k); }
      i, t := AnsweredWasHeld(g', moves[1..], repaired, k);
      if ServedNow(g', k, i, t) { StepServed(g, moves[0], repaired, k, i, t); }
      if !ServedNow(g', k, i, t) && (ServedNow(g, k, i, t) || HoldsNow(g, k, i, t)) {
        EarlierHeld(g', moves[1..], repaired, k, i, t);
      }
    }
  }

  /** Any settled run decides every request: it is turned away if it has met a nil pointer, and otherwise
      answered from a snapshot that it has held. */
  lemma {:induction false} RequestIsDecided(registry: Lifecycle.Registry, moves: seq<Move>, repaired: bool, k: nat)
    requires Possible(Start(registry), moves, repaired) && Settled(Exec(Start(registry), moves, repaired))
    requires k < |Exec(Start(registry), moves, repaired).callers| && ArrivesRequest(moves, k)
    ensures var c := Exec(Start(registry), moves, repaired).callers[k];
            if MetNil(Start(registry), moves, repaired, k) then c.Unavailable?
            else c.Answered? && exists i: nat, t: nat :: ServedBy(Start(registry), moves, repaired, k, i, t, false)
  {
    var g := Exec(Start(registry), moves, repaired);
    StartInv(registry);
    ExecInv(Start(registry), moves, repaired);
    SettledIsFinished(g, k);
    RoleStays(Start(registry), moves, repaired, k);
    UnavailableIff(Start(registry), moves, repaired, k);
    if g.callers[k].Answered? {
      var i, t := AnsweredWasHeld(Start(registry), moves, repaired, k);
      assert !ServedNow(Start(registry), k, i, t);
    }
  }

  /** So hot reload loses no request: as long as no Shutdown swaps the pointer, no request is ever turned
      away, whatever is reloaded, and when all is settled each has been answered. */
  lemma {:induction false} ReloadsLoseNoRequest(registry: Lifecycle.Registry, moves: seq<Move>, repaired: bool, k: nat)
    requires Possible(Start(registry), moves, repaired) && NoShutdown(Start(registry), moves, repaired)
    requires k < |Exec(Start(registry), moves, repaired).callers| && ArrivesRequest(moves, k)
    ensures var c := Exec(Start(registry), moves, repaired).callers[k];
            && !c.Unavailable?
            && (Settled(Exec(Start(registry), moves, repaired)) ==>
                  c.Answered? && exists i: nat, t: nat :: ServedBy(Start(registry), moves, repaired, k, i, t, false))
  {
    StaysPublished(Start(registry), moves, repaired, k);
    UnavailableIff(Start(registry), moves, repaired, k);
    if Settled(Exec(Start(registry), moves, repaired)) { RequestIsDecided(registry, moves, repaired, k); }
  }

  /** And it is answered from no snapshot older than the one that was published when it arrived. */
  lemma {:induction false} NeverStale(g: Gw, repaired: bool, k: nat)
    requires Reachable(g, repaired) && k < |g.callers| && g.callers[k].OnSnap?
    ensures g.callers[k].snap < |g.pubAt| && g.callers[k].since <= g.pubAt[g.callers[k].snap] <= g.swaps
  {
    ReachableInv(g, repaired);
    assert CallerOk(g, k) && SnapOk(g, g.callers[k].snap);
  }
}
