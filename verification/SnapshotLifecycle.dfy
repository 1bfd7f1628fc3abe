/**
 The lifecycle of one RuntimeSnapshot: acquire, release, signalDrained and Close
 of internal/gateway/gateway.go, at the granularity of one atomic operation per step.

 A state holds the shared words of the snapshot and the program counter of every call
 made on it so far; calls are never forgotten, so their number is unbounded.  `owner`
 and `signaller` are history variables: no step reads them.

 The parameter `repaired` selects the code as it is (false) or the variant whose
 release re-reads the in-flight counter after it has seen the closing state (true).
 */
module SnapshotLifecycle {

  type CloserId = nat

  /** A plugin registry is itself a closer; what it closes is the list registered with it. */
  type Registry = seq<CloserId>

  datatype Phase = Open | Closing | Closed

  /** Who called signalDrained, and therefore where the call continues afterwards. */
  datatype Signaller = Served | Refused | Closer

  datatype PC =
    | AcqStart                    // acquire: first load of the state
    | AcqSawOpen                  // acquire: about to add one
    | AcqCounted                  // acquire: second load of the state
    | Holding                     // acquire returned true; next is release's decrement
    | Undoing                     // the second load failed; next is release's decrement
    | SawZero(who: Signaller)      // release: the decrement gave zero; next is the state load
    | Rechecking(who: Signaller)   // repaired release only: about to re-read the counter
    | Signalling(who: Signaller)   // signalDrained: compare-and-swap of drainSignaled
    | Draining(who: Signaller)     // signalDrained: the swap was won; next closes drainedCh
    | Returned(served: bool)      // the request's call is over
    | CloseStart                  // Close: compare-and-swap open to closing
    | CloseCheck                  // Close: load of the counter
    | CloseWait                   // Close: receive from drainedCh
    | CloseRun(left: nat)         // Close: the closers loop, `left` closers to go
    | CloseStore                  // Close: store of the closed state
    | CloseAnnounce               // Close: close of closedCh
    | CloseWaitOther              // Close: the swap was lost; receive from closedCh
    | CloseReturned(won: bool)

  datatype Snap = Snap(
    phase: Phase,
    inFlight: int,
    drainSignaled: bool,
    drainedCh: nat,               // how often drainedCh has been closed
    closedCh: nat,                // how often closedCh has been closed
    closers: seq<Registry>,
    registered: seq<Registry>,    // the closers the snapshot was built with
    ran: seq<CloserId>,           // every closer invocation so far, in order
    threads: seq<PC>,
    owner: int,                   // the call that moved open to closing, or -1
    signaller: int)               // the call that won drainSignaled, or -1

  function Init(closers: seq<Registry>): Snap {
    Snap(Open, 0, false, 0, 0, closers, closers, [], [], -1, -1)
  }

  function Reverse<T>(s: seq<T>): seq<T> {
    if s == [] then [] else Reverse(s[1..]) + [s[0]]
  }

  /** The closer invocations Close owes: registries from last to first, each in reverse. */
  function RunOrder(rs: seq<Registry>): seq<CloserId> {
    if rs == [] then [] else RunOrder(rs[1..]) + Reverse(rs[0])
  }

  function After(who: Signaller): PC {
    match who
    case Closer => CloseWait
    case Served => Returned(true)
    case Refused => Returned(false)
  }

  /** A call can take its next step unless it has returned or waits on an open channel. */
  predicate Enabled(s: Snap, t: nat) {
    t < |s.threads| &&
    match s.threads[t]
    case Returned(_) => false
    case CloseReturned(_) => false
    case CloseWait => s.drainedCh > 0
    case CloseWaitOther => s.closedCh > 0
    case CloseRun(left) => left <= |s.closers|
    case _ => true
  }

  /** What the next atomic operation of call `t` does to the shared words. */
  function Effect(s: Snap, t: nat): Snap
    requires Enabled(s, t)
  {
    match s.threads[t]
    case AcqSawOpen => s.(inFlight := s.inFlight + 1)
    case Holding => s.(inFlight := s.inFlight - 1)
    case Undoing => s.(inFlight := s.inFlight - 1)
    case Signalling(_) => if s.drainSignaled then s else s.(drainSignaled := true, signaller := t)
    case Draining(_) => s.(drainedCh := s.drainedCh + 1)
    case CloseStart => if s.phase.Open? then s.(phase := Closing, owner := t) else s
    case CloseRun(left) =>
      if left > 0 then s.(ran := s.ran + Reverse(s.closers[left - 1])) else s.(closers := [])
    case CloseStore => s.(phase := Closed)
    case CloseAnnounce => s.(closedCh := s.closedCh + 1)
    case _ => s
  }

  /** Where a call at `pc` continues, given the words its operation reads. */
  function Target(s: Snap, pc: PC, repaired: bool): PC {
    match pc
    case AcqStart => if s.phase.Open? then AcqSawOpen else Returned(false)
    case AcqSawOpen => AcqCounted
    case AcqCounted => if s.phase.Open? then Holding else Undoing
    case Holding => if s.inFlight - 1 == 0 then SawZero(Served) else Returned(true)
    case Undoing => if s.inFlight - 1 == 0 then SawZero(Refused) else Returned(false)
    case SawZero(who) =>
      if !s.phase.Closing? then After(who) else if repaired then Rechecking(who) else Signalling(who)
    case Rechecking(who) => if s.inFlight == 0 then Signalling(who) else After(who)
    case Signalling(who) => if s.drainSignaled then After(who) else Draining(who)
    case Draining(who) => After(who)
    case CloseStart => if s.phase.Open? then CloseCheck else CloseWaitOther
    case CloseCheck => if s.inFlight == 0 then Signalling(Closer) else CloseWait
    case CloseWait => CloseRun(|s.closers|)
    case CloseRun(left) => if left > 0 then CloseRun(left - 1) else CloseStore
    case CloseStore => CloseAnnounce
    case CloseAnnounce => CloseReturned(true)
    case CloseWaitOther => CloseReturned(false)
    case Returned(_) => pc
    case CloseReturned(_) => pc
  }

  /** The next atomic operation of call `t`. */
  function Fire(s: Snap, t: nat, repaired: bool): Snap
    requires Enabled(s, t)
  {
    Effect(s, t).(threads := s.threads[t := Target(s, s.threads[t], repaired)])
  }

  function Arrive(s: Snap, pc: PC): Snap {
    s.(threads := s.threads + [pc])
  }

  /** One step of the whole system: a call arrives, or a call fires. */
  datatype Action = NewRequest | NewClose | StepOf(t: nat)

  predicate Can(s: Snap, a: Action) {
    a.StepOf? ==> Enabled(s, a.t)
  }

  function Do(s: Snap, a: Action, repaired: bool): Snap
    requires Can(s, a)
  {
    match a
    case NewRequest => Arrive(s, AcqStart)
    case NewClose => Arrive(s, CloseStart)
    case StepOf(t) => Fire(s, t, repaired)
  }

  /** An interleaving is a schedule of actions, each possible when its turn comes. */
  predicate Possible(s: Snap, sched: seq<Action>, repaired: bool)
    decreases |sched|
  {
    sched == [] || (Can(s, sched[0]) && Possible(Do(s, sched[0], repaired), sched[1..], repaired))
  }

  function Exec(s: Snap, sched: seq<Action>, repaired: bool): Snap
    requires Possible(s, sched, repaired)
    decreases |sched|
  {
    if sched == [] then s else Exec(Do(s, sched[0], repaired), sched[1..], repaired)
  }

  // ---------------------------------------------------------------- invariants

  predicate InFlightPC(pc: PC) {
    pc.AcqCounted? || pc.Holding? || pc.Undoing?
  }

  function CountInFlight(ps: seq<PC>): nat {
    if ps == [] then 0 else CountInFlight(ps[1..]) + if InFlightPC(ps[0]) then 1 else 0
  }

  lemma {:induction false} CountUpdate(ps: seq<PC>, t: nat, pc: PC)
    requires t < |ps|
    ensures CountInFlight(ps[t := pc]) ==
            CountInFlight(ps) - (if InFlightPC(ps[t]) then 1 else 0) + if InFlightPC(pc) then 1 else 0
  {
    if t == 0 {
      assert ps[0 := pc][1..] == ps[1..];
    } else {
      CountUpdate(ps[1..], t - 1, pc);
      assert ps[t := pc][1..] == ps[1..][t - 1 := pc];
    }
  }

  lemma {:induction false} CountArrive(ps: seq<PC>, pc: PC)
    requires !InFlightPC(pc)
    ensures CountInFlight(ps + [pc]) == CountInFlight(ps)
  {
    if ps != [] {
      assert (ps + [pc])[1..] == ps[1..] + [pc];
      CountArrive(ps[1..], pc);
    }
  }

  /** A positive count has a witness, and a witness makes the count positive. */
  lemma {:induction false} CountWitness(ps: seq<PC>)
    ensures CountInFlight(ps) > 0 <==> exists t :: 0 <= t < |ps| && InFlightPC(ps[t])
  {
    if ps != [] {
      CountWitness(ps[1..]);
      if t :| 0 <= t < |ps[1..]| && InFlightPC(ps[1..][t]) {
        assert InFlightPC(ps[t + 1]);
      }
      if t :| 0 <= t < |ps| && InFlightPC(ps[t]) {
        if t > 0 { assert InFlightPC(ps[1..][t - 1]); }
      }
    }
  }

  /** Program counters of the one Close call that won the compare-and-swap. */
  predicate OwnerPC(pc: PC) {
    match pc
    case Signalling(who) => who.Closer?
    case Draining(who) => who.Closer?
    case SawZero(who) => who.Closer?
    case Rechecking(who) => who.Closer?
    case CloseCheck => true
    case CloseWait => true
    case CloseRun(_) => true
    case CloseStore => true
    case CloseAnnounce => true
    case CloseReturned(won) => won
    case _ => false
  }

  /** The owner has received from drainedCh: from here on closers may run. */
  predicate PastDrain(pc: PC) {
    pc.CloseRun? || pc.CloseStore? || pc.CloseAnnounce? || pc == CloseReturned(true)
  }

  /** A thread that will signal, or that has decremented to zero and will still look. */
  predicate PendingPC(pc: PC) {
    pc.SawZero? || pc.Rechecking? || pc.Signalling?
  }

  ghost predicate SomePending(s: Snap) {
    exists t :: 0 <= t < |s.threads| && PendingPC(s.threads[t])
  }

  /** What each program counter says about the shared words. */
  predicate ThreadOk(s: Snap, t: nat)
    requires t < |s.threads|
  {
    var pc := s.threads[t];
    && (OwnerPC(pc) ==> t == s.owner)
    && (pc.Draining? ==> t == s.signaller)
    && (pc.Signalling? || pc.Rechecking? || pc.Draining? ==> !s.phase.Open?)
    && (pc.SawZero? || pc.Rechecking? ==> !pc.who.Closer?)
    && (pc.Undoing? || pc == Returned(false) || pc == SawZero(Refused) ==> !s.phase.Open?)
    && (pc.CloseWaitOther? || pc.CloseReturned? ==> !s.phase.Open?)
    && (pc == CloseReturned(false) ==> s.closedCh == 1)
    && (PastDrain(pc) ==> s.drainedCh == 1)
  }

  /** How far the closers loop has come, read off the owner's program counter. */
  predicate ProgressOk(s: Snap) {
    if s.owner < 0 || s.owner >= |s.threads| then s.closers == s.registered && s.ran == []
    else
      match s.threads[s.owner]
      case CloseRun(left) =>
        left <= |s.registered| && s.closers == s.registered && s.ran == RunOrder(s.registered[left..])
      case CloseStore => s.closers == [] && s.ran == RunOrder(s.registered)
      case CloseAnnounce => s.closers == [] && s.ran == RunOrder(s.registered)
      case CloseReturned(_) => s.closers == [] && s.ran == RunOrder(s.registered)
      case _ => s.closers == s.registered && s.ran == []
  }

  predicate SharedOk(s: Snap) {
    && -1 <= s.owner < |s.threads|
    && -1 <= s.signaller < |s.threads|
    && (s.phase.Open? <==> s.owner == -1)
    && (s.owner >= 0 ==> OwnerPC(s.threads[s.owner]))
    && (s.phase.Closed? <==> s.owner >= 0 && (s.threads[s.owner].CloseAnnounce? || s.threads[s.owner].CloseReturned?))
    && s.closedCh == (if s.owner >= 0 && s.threads[s.owner].CloseReturned? then 1 else 0)
    && (s.drainSignaled <==> s.signaller >= 0)
    && (s.drainSignaled ==> !s.phase.Open?)
    && s.drainedCh == (if s.drainSignaled && !s.threads[s.signaller].Draining? then 1 else 0)
  }

  /** No lost wake-up: a Close that waits will be woken. */
  ghost predicate WakeUpComing(s: Snap) {
    s.owner >= 0 && s.owner < |s.threads| && s.threads[s.owner].CloseWait? && !s.drainSignaled
    ==> s.inFlight > 0 || SomePending(s)
  }

  ghost predicate Inv(s: Snap) {
    && s.inFlight == CountInFlight(s.threads)
    && SharedOk(s)
    && (forall t :: 0 <= t < |s.threads| ==> ThreadOk(s, t))
    && ProgressOk(s)
    && WakeUpComing(s)
  }

  lemma {:induction false} InitInv(closers: seq<Registry>)
    ensures Inv(Init(closers))
  {
  }

  lemma {:induction false} ArriveInv(s: Snap, pc: PC)
    requires Inv(s) && (pc.AcqStart? || pc.CloseStart?)
    ensures Inv(Arrive(s, pc))
  {
    var s' := Arrive(s, pc);
    CountArrive(s.threads, pc);
    forall t | 0 <= t < |s'.threads| ensures ThreadOk(s', t) {
      if t < |s.threads| { assert ThreadOk(s, t); }
    }
    if SomePending(s) {
      var t :| 0 <= t < |s.threads| && PendingPC(s.threads[t]);
      assert PendingPC(s'.threads[t]);
    }
  }

  lemma {:induction false} FireCount(s: Snap, t: nat, repaired: bool)
    requires s.inFlight == CountInFlight(s.threads) && Enabled(s, t)
    ensures Fire(s, t, repaired).inFlight == CountInFlight(Fire(s, t, repaired).threads)
  {
    CountUpdate(s.threads, t, Fire(s, t, repaired).threads[t]);
  }

  lemma {:induction false} FireShared(s: Snap, t: nat, repaired: bool)
    requires Inv(s) && Enabled(s, t)
    ensures SharedOk(Fire(s, t, repaired))
  {
    assert ThreadOk(s, t);
    if s.owner >= 0 { assert ThreadOk(s, s.owner); }
    if s.signaller >= 0 { assert ThreadOk(s, s.signaller); }
  }

  /** Once set, the shared words that calls rely on stay set. */
  lemma {:induction false} FireMonotone(s: Snap, t: nat, repaired: bool)
    requires SharedOk(s) && Enabled(s, t) && ThreadOk(s, t)
    ensures var s' := Fire(s, t, repaired);
            && |s'.threads| == |s.threads|
            && s'.registered == s.registered
            && (s.owner >= 0 ==> s'.owner == s.owner)
            && (s.signaller >= 0 ==> s'.signaller == s.signaller)
            && (!s.phase.Open? ==> !s'.phase.Open?)
            && (s.drainSignaled ==> s'.drainSignaled)
            && (s.closedCh == 1 ==> s'.closedCh == 1)
            && (s.drainedCh == 1 ==> s'.drainedCh == 1)
  {
  }

  lemma {:induction false} FireOtherThread(s: Snap, t: nat, u: nat, repaired: bool)
    requires SharedOk(s) && Enabled(s, t) && u < |s.threads| && u != t
    requires ThreadOk(s, t) && ThreadOk(s, u)
    ensures ThreadOk(Fire(s, t, repaired), u)
  {
    FireMonotone(s, t, repaired);
    var s' := Fire(s, t, repaired);
    assert s'.threads[u] == s.threads[u];
  }

  lemma {:induction false} FireSameThread(s: Snap, t: nat, repaired: bool)
    requires SharedOk(s) && Enabled(s, t) && ThreadOk(s, t)
    ensures ThreadOk(Fire(s, t, repaired), t)
  {
  }

  lemma {:induction false} FireProgress(s: Snap, t: nat, repaired: bool)
    requires SharedOk(s) && Enabled(s, t) && ThreadOk(s, t) && ProgressOk(s)
    ensures ProgressOk(Fire(s, t, repaired))
  {
    match s.threads[t]
    case CloseRun(left) =>
      if left > 0 {
        assert s.registered[left - 1..][1..] == s.registered[left..];
      } else {
        assert s.registered[0..] == s.registered;
      }
    case CloseWait =>
      assert s.registered[|s.registered|..] == [];
    case _ =>
  }

  lemma {:induction false} FireWakeUp(s: Snap, t: nat, repaired: bool)
    requires Inv(s) && Enabled(s, t)
    ensures WakeUpComing(Fire(s, t, repaired))
  {
    var s' := Fire(s, t, repaired);
    assert ThreadOk(s, t);
    CountWitness(s.threads);
    if s'.owner >= 0 && s'.threads[s'.owner].CloseWait? && !s'.drainSignaled && s'.inFlight <= 0 {
      if PendingPC(s'.threads[t]) {
        assert SomePending(s');
      } else {
        assert ThreadOk(s, s'.owner);
        assert WakeUpComing(s);
        var u :| 0 <= u < |s.threads| && PendingPC(s.threads[u]);
        assert PendingPC(s'.threads[u]);
      }
    }
  }

  /** Every atomic step of every call keeps the invariant, in the code as it is and repaired. */
  lemma {:induction false} FireInv(s: Snap, t: nat, repaired: bool)
    requires Inv(s) && Enabled(s, t)
    ensures Inv(Fire(s, t, repaired))
  {
    FireCount(s, t, repaired);
    FireShared(s, t, repaired);
    FireProgress(s, t, repaired);
    FireWakeUp(s, t, repaired);
    forall u | 0 <= u < |Fire(s, t, repaired).threads|
      ensures ThreadOk(Fire(s, t, repaired), u)
    {
      if u == t { FireSameThread(s, t, repaired); } else { FireOtherThread(s, t, u, repaired); }
    }
  }

  lemma {:induction false} DoInv(s: Snap, a: Action, repaired: bool)
    requires Inv(s) && Can(s, a)
    ensures Inv(Do(s, a, repaired))
  {
    match a
    case NewRequest => ArriveInv(s, AcqStart);
    case NewClose => ArriveInv(s, CloseStart);
    case StepOf(t) => FireInv(s, t, repaired);
  }

  lemma {:induction false} ExecInv(s: Snap, sched: seq<Action>, repaired: bool)
    requires Inv(s) && Possible(s, sched, repaired)
    ensures Inv(Exec(s, sched, repaired))
    decreases |sched|
  {
    if sched != [] {
      DoInv(s, sched[0], repaired);
      ExecInv(Do(s, sched[0], repaired), sched[1..], repaired);
    }
  }

  lemma {:induction false} ExecConcat(s: Snap, a: seq<Action>, b: seq<Action>, repaired: bool)
    requires Possible(s, a, repaired) && Possible(Exec(s, a, repaired), b, repaired)
    ensures Possible(s, a + b, repaired)
    ensures Exec(s, a + b, repaired) == Exec(Exec(s, a, repaired), b, repaired)
    decreases |a|
  {
    if a == [] {
      assert a + b == b;
    } else {
      ExecConcat(Do(s, a[0], repaired), a[1..], b, repaired);
      assert (a + b)[1..] == a[1..] + b;
    }
  }
}
