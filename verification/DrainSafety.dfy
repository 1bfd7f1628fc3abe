/**
 What Close promises: the closers run only when no successful acquire is outstanding,
 each channel is closed once, a waiting Close is always woken, and it finishes.

 The first promise fails for the code as it is.  `Hazard` is the exact condition, read off
 the state in which Close moves the snapshot from open to closing; the repaired release
 keeps the promise in every run.
 */
module DrainSafety {
  import opened SnapshotLifecycle

  ghost predicate SomeHolding(s: Snap) {
    exists t :: 0 <= t < |s.threads| && s.threads[t].Holding?
  }

  ghost predicate SomeSawZero(s: Snap) {
    exists t :: 0 <= t < |s.threads| && s.threads[t].SawZero?
  }

  /** Closers may already be running while a request still uses the snapshot. */
  ghost predicate Unsafe(s: Snap) {
    SomeHolding(s) && exists t :: 0 <= t < |s.threads| && PastDrain(s.threads[t])
  }

  /** A releaser has decremented to zero but not yet looked at the state, while a later
      request already holds the snapshot. */
  ghost predicate Hazard(s: Snap) {
    SomeSawZero(s) && SomeHolding(s)
  }

  /** The action is the compare-and-swap with which Close moves open to closing. */
  predicate Closes(s: Snap, a: Action) {
    s.phase.Open? && a.StepOf? && a.t < |s.threads| && s.threads[a.t].CloseStart?
  }

  /** Along the whole schedule, Close never makes that move in a hazard. */
  ghost predicate AvoidsHazard(s: Snap, sched: seq<Action>, repaired: bool)
    requires Possible(s, sched, repaired)
    decreases |sched|
  {
    sched != [] ==>
      && !(Closes(s, sched[0]) && Hazard(s))
      && AvoidsHazard(Do(s, sched[0], repaired), sched[1..], repaired)
  }

  // ---------------------------------------------------------------- once only, no lost wake-up

  lemma {:induction false} RunOrderPrefix(rs: seq<Registry>, left: nat)
    requires left <= |rs|
    ensures RunOrder(rs[left..]) <= RunOrder(rs)
  {
    if left == 0 {
      assert rs[0..] == rs;
    } else {
      RunOrderPrefix(rs[1..], left - 1);
      assert rs[1..][left - 1..] == rs[left..];
    }
  }

  /** In every reachable state each channel has been closed at most once (a second close
      would panic), no closer has run twice or out of order, and a Close that waits with the
      drain unsignalled is owed a wake-up by a counted request or a releaser that saw zero. */
  lemma {:induction false} OnceOnlyAndNoLostWakeUp(closers: seq<Registry>, sched: seq<Action>, repaired: bool)
    requires Possible(Init(closers), sched, repaired)
    ensures var s := Exec(Init(closers), sched, repaired);
            && s.drainedCh <= 1 && s.closedCh <= 1
            && s.inFlight >= 0
            && s.ran <= RunOrder(s.registered)
            && WakeUpComing(s)
  {
    ExecInv(Init(closers), sched, repaired);
    var s := Exec(Init(closers), sched, repaired);
    assert ProgressOk(s);
    if s.owner >= 0 && s.threads[s.owner].CloseRun? {
      RunOrderPrefix(s.registered, s.threads[s.owner].left);
    }
  }

  // ---------------------------------------------------------------- drain safety

  /** A call that goes on to signal without looking at the counter again. */
  predicate ArmedPC(pc: PC, repaired: bool) {
    pc.Signalling? || (!repaired && PendingPC(pc))
  }

  ghost predicate SomeArmed(s: Snap, repaired: bool) {
    exists t :: 0 <= t < |s.threads| && ArmedPC(s.threads[t], repaired)
  }

  /** After the snapshot has started to close, an armed signal means that nobody holds it. */
  ghost predicate DrainInv(s: Snap, repaired: bool) {
    !s.phase.Open? && (s.drainSignaled || SomeArmed(s, repaired)) ==> !SomeHolding(s)
  }

  lemma {:induction false} DrainInvIsSafe(s: Snap, repaired: bool)
    requires Inv(s) && DrainInv(s, repaired)
    ensures !Unsafe(s)
  {
    forall t | 0 <= t < |s.threads| && PastDrain(s.threads[t])
      ensures s.drainSignaled && !s.phase.Open?
    {
      assert ThreadOk(s, t);
    }
  }

  lemma {:induction false} NoneCountedNoneHolding(s: Snap)
    requires Inv(s) && s.inFlight == 0
    ensures !SomeHolding(s)
  {
    CountWitness(s.threads);
    assert forall t :: 0 <= t < |s.threads| ==> !InFlightPC(s.threads[t]);
  }

  /** Nothing becomes a holder once the snapshot is no longer open. */
  lemma {:induction false} HoldersOnlyShrink(s: Snap, t: nat, repaired: bool, u: nat)
    requires Enabled(s, t) && u < |s.threads|
    requires !Fire(s, t, repaired).phase.Open? && Fire(s, t, repaired).threads[u].Holding?
    ensures s.threads[u].Holding?
  {
  }

  lemma {:induction false} HoldersComeFromBefore(s: Snap, t: nat, repaired: bool)
    requires Enabled(s, t) && !Fire(s, t, repaired).phase.Open?
    ensures SomeHolding(Fire(s, t, repaired)) ==> SomeHolding(s)
  {
    var s' := Fire(s, t, repaired);
    if SomeHolding(s') {
      var h :| 0 <= h < |s'.threads| && s'.threads[h].Holding?;
      HoldersOnlyShrink(s, t, repaired, h);
    }
  }

  /** One call becomes armed only by seeing the counter at zero. */
  lemma {:induction false} ArmingNeedsZero(s: Snap, t: nat, repaired: bool)
    requires SharedOk(s) && Enabled(s, t) && ThreadOk(s, t) && !s.phase.Open?
    ensures var s' := Fire(s, t, repaired);
            s'.drainSignaled || ArmedPC(s'.threads[t], repaired) ==>
              s.drainSignaled || ArmedPC(s.threads[t], repaired) || s'.inFlight == 0
  {
  }

  lemma {:induction false} ArmedComesFromBefore(s: Snap, t: nat, repaired: bool)
    requires Inv(s) && Enabled(s, t) && !s.phase.Open?
    ensures var s' := Fire(s, t, repaired);
            s'.drainSignaled || SomeArmed(s', repaired) ==>
              s.drainSignaled || SomeArmed(s, repaired) || s'.inFlight == 0
  {
    var s' := Fire(s, t, repaired);
    assert ThreadOk(s, t);
    ArmingNeedsZero(s, t, repaired);
    if SomeArmed(s', repaired) {
      var a :| 0 <= a < |s'.threads| && ArmedPC(s'.threads[a], repaired);
      if a != t { assert ArmedPC(s.threads[a], repaired); }
    }
  }

  /** At the moment of the swap the only armed calls are releasers that saw zero. */
  lemma {:induction false} ArmedAtClose(s: Snap, t: nat, repaired: bool)
    requires Inv(s) && Enabled(s, t) && s.phase.Open? && s.threads[t].CloseStart?
    ensures !Fire(s, t, repaired).drainSignaled
    ensures SomeArmed(Fire(s, t, repaired), repaired) ==> !repaired && SomeSawZero(s)
  {
    var s' := Fire(s, t, repaired);
    if SomeArmed(s', repaired) {
      var a :| 0 <= a < |s'.threads| && ArmedPC(s'.threads[a], repaired);
      assert s'.threads[a] == s.threads[a];
      assert ThreadOk(s, a);
    }
  }

  lemma {:induction false} OnlyCloseLeavesOpen(s: Snap, t: nat, repaired: bool)
    requires SharedOk(s) && Enabled(s, t) && ThreadOk(s, t) && s.phase.Open?
    ensures Fire(s, t, repaired).phase.Open? <==> !s.threads[t].CloseStart?
  {
  }

  lemma {:induction false} FireDrain(s: Snap, t: nat, repaired: bool)
    requires Inv(s) && DrainInv(s, repaired) && Enabled(s, t)
    requires repaired || !(Closes(s, StepOf(t)) && Hazard(s))
    ensures DrainInv(Fire(s, t, repaired), repaired)
  {
    var s' := Fire(s, t, repaired);
    FireInv(s, t, repaired);
    assert ThreadOk(s, t);
    if !s'.phase.Open? {
      HoldersComeFromBefore(s, t, repaired);
      if s.phase.Open? {
        OnlyCloseLeavesOpen(s, t, repaired);
        ArmedAtClose(s, t, repaired);
      } else {
        ArmedComesFromBefore(s, t, repaired);
        if s'.inFlight == 0 { NoneCountedNoneHolding(s'); }
      }
    }
  }

  lemma {:induction false} ArriveDrain(s: Snap, pc: PC, repaired: bool)
    requires DrainInv(s, repaired) && (pc.AcqStart? || pc.CloseStart?)
    ensures DrainInv(Arrive(s, pc), repaired)
  {
    var s' := Arrive(s, pc);
    if SomeArmed(s', repaired) {
      var a :| 0 <= a < |s'.threads| && ArmedPC(s'.threads[a], repaired);
      assert ArmedPC(s.threads[a], repaired);
    }
    if SomeHolding(s') {
      var h :| 0 <= h < |s'.threads| && s'.threads[h].Holding?;
      assert s.threads[h].Holding?;
    }
  }

  lemma {:induction false} ExecDrain(s: Snap, sched: seq<Action>, repaired: bool)
    requires Inv(s) && DrainInv(s, repaired) && Possible(s, sched, repaired)
    requires repaired || AvoidsHazard(s, sched, repaired)
    ensures !Unsafe(Exec(s, sched, repaired))
    decreases |sched|
  {
    if sched == [] {
      DrainInvIsSafe(s, repaired);
    } else {
      var a := sched[0];
      DoInv(s, a, repaired);
      match a {
        case NewRequest => ArriveDrain(s, AcqStart, repaired);
        case NewClose => ArriveDrain(s, CloseStart, repaired);
        case StepOf(t) => FireDrain(s, t, repaired);
      }
      ExecDrain(Do(s, a, repaired), sched[1..], repaired);
    }
  }

  /** Drain safety of the code as it is: every run that does not close in a hazard is safe. */
  lemma {:induction false} DrainSafe(closers: seq<Registry>, sched: seq<Action>)
    requires Possible(Init(closers), sched, false)
    requires AvoidsHazard(Init(closers), sched, false)
    ensures !Unsafe(Exec(Init(closers), sched, false))
  {
    ExecDrain(Init(closers), sched, false);
  }

  /** Drain safety of the repaired release, for every run. */
  lemma {:induction false} RepairedDrainSafe(closers: seq<Registry>, sched: seq<Action>)
    requires Possible(Init(closers), sched, true)
    ensures !Unsafe(Exec(Init(closers), sched, true))
  {
    ExecDrain(Init(closers), sched, true);
  }

  ghost predicate ReachesUnsafe(s: Snap) {
    exists sched :: Possible(s, sched, false) && Unsafe(Exec(s, sched, false))
  }

  /** Extending a schedule by one action in front. */
  lemma {:induction false} Prepend(s: Snap, a: Action, rest: seq<Action>)
    requires Can(s, a) && Possible(Do(s, a, false), rest, false)
    ensures Possible(s, [a] + rest, false)
    ensures Exec(s, [a] + rest, false) == Exec(Do(s, a, false), rest, false)
  {
    assert ([a] + rest)[1..] == rest;
  }

  lemma {:induction false} ReachesThrough(s: Snap, a: Action)
    requires Can(s, a) && ReachesUnsafe(Do(s, a, false))
    ensures ReachesUnsafe(s)
  {
    var rest :| Possible(Do(s, a, false), rest, false) && Unsafe(Exec(Do(s, a, false), rest, false));
    Prepend(s, a, rest);
  }

  lemma {:induction false} UnsafeNow(s: Snap)
    requires Unsafe(s)
    ensures ReachesUnsafe(s)
  {
    assert Possible(s, [], false) && Exec(s, [], false) == s;
  }

  /** Close waits while a releaser that saw zero has still to read the state: three steps of
      the releaser and one of Close reach an unsafe state. */
  lemma {:induction false} StaleReleaserSignals(s: Snap, c: nat, r: nat, h: nat)
    requires s.phase.Closing? && !s.drainSignaled && s.drainedCh == 0
    requires c < |s.threads| && s.threads[c].CloseWait?
    requires r < |s.threads| && s.threads[r].SawZero? && !s.threads[r].who.Closer?
    requires h < |s.threads| && s.threads[h].Holding?
    ensures ReachesUnsafe(s)
  {
    var s3 := Do(s, StepOf(r), false);    // reads closing
    var s4 := Do(s3, StepOf(r), false);   // wins drainSignaled
    var s5 := Do(s4, StepOf(r), false);   // closes drainedCh
    var s6 := Do(s5, StepOf(c), false);   // starts on the closers
    assert s6.threads[h].Holding? && PastDrain(s6.threads[c]);
    UnsafeNow(s6);
    ReachesThrough(s5, StepOf(c));
    ReachesThrough(s4, StepOf(r));
    ReachesThrough(s3, StepOf(r));
    ReachesThrough(s, StepOf(r));
  }

  lemma {:induction false} StaleReleaserViolates(s: Snap, c: nat, r: nat, h: nat)
    requires Inv(s) && s.phase.Open?
    requires c < |s.threads| && s.threads[c].CloseStart?
    requires r < |s.threads| && s.threads[r].SawZero?
    requires h < |s.threads| && s.threads[h].Holding?
    ensures ReachesUnsafe(Fire(s, c, false))
  {
    assert ThreadOk(s, r);
    CountWitness(s.threads);
    assert InFlightPC(s.threads[h]);
    var s1 := Fire(s, c, false);
    var s2 := Do(s1, StepOf(c), false);   // sees a positive counter and waits
    StaleReleaserSignals(s2, c, r, h);
    ReachesThrough(s1, StepOf(c));
  }

  /** Exactly when Close may violate drain safety: from the state in which call `c` closes the
      snapshot, an unsafe state can be reached if and only if that state is a hazard. */
  lemma {:induction false} HazardIsExact(s: Snap, c: nat)
    requires Inv(s) && Closes(s, StepOf(c))
    ensures ReachesUnsafe(Fire(s, c, false)) <==> Hazard(s)
  {
    if Hazard(s) {
      var r :| 0 <= r < |s.threads| && s.threads[r].SawZero?;
      var h :| 0 <= h < |s.threads| && s.threads[h].Holding?;
      StaleReleaserViolates(s, c, r, h);
    } else {
      var s1 := Fire(s, c, false);
      FireInv(s, c, false);
      FireDrain(s, c, false);
      forall sched | Possible(s1, sched, false) ensures !Unsafe(Exec(s1, sched, false)) {
        ClosedOnceOnly(s1, sched, false);
        ExecDrain(s1, sched, false);
      }
    }
  }

  lemma {:induction false} DoStaysClosed(s: Snap, a: Action, repaired: bool)
    requires Inv(s) && Can(s, a) && !s.phase.Open?
    ensures !Do(s, a, repaired).phase.Open? && Do(s, a, repaired).owner == s.owner
  {
    if a.StepOf? {
      assert ThreadOk(s, a.t);
      FireMonotone(s, a.t, repaired);
    }
  }

  lemma {:induction false} DoHolders(s: Snap, a: Action, repaired: bool, u: nat)
    requires Can(s, a) && !Do(s, a, repaired).phase.Open?
    requires u < |Do(s, a, repaired).threads| && Do(s, a, repaired).threads[u].Holding?
    ensures u < |s.threads| && s.threads[u].Holding?
  {
  }

  /** The snapshot never reopens: the call that closed it stays the only one that won the swap, and
      every other Close call that has returned has lost it. */
  lemma {:induction false} ClosedOnceOnly(s: Snap, sched: seq<Action>, repaired: bool)
    requires Inv(s) && Possible(s, sched, repaired) && !s.phase.Open?
    ensures AvoidsHazard(s, sched, repaired)
    ensures !Exec(s, sched, repaired).phase.Open?
    ensures 0 <= s.owner == Exec(s, sched, repaired).owner
    ensures var s' := Exec(s, sched, repaired);
            forall t :: 0 <= t < |s'.threads| && s'.threads[t] == CloseReturned(true) ==> t == s.owner
    decreases |sched|
  {
    if sched == [] {
      forall t | 0 <= t < |s.threads| && s.threads[t] == CloseReturned(true) ensures t == s.owner {
        assert ThreadOk(s, t);
      }
    } else {
      DoInv(s, sched[0], repaired);
      DoStaysClosed(s, sched[0], repaired);
      ClosedOnceOnly(Do(s, sched[0], repaired), sched[1..], repaired);
    }
  }

  /** No acquire succeeds once the snapshot has left the open state: whoever holds it later
      held it already then. */
  lemma {:induction false} NoLateAcquire(s: Snap, sched: seq<Action>, repaired: bool, u: nat)
    requires Inv(s) && Possible(s, sched, repaired) && !s.phase.Open?
    requires u < |Exec(s, sched, repaired).threads| && Exec(s, sched, repaired).threads[u].Holding?
    ensures u < |s.threads| && s.threads[u].Holding?
    decreases |sched|
  {
    if sched != [] {
      DoInv(s, sched[0], repaired);
      DoStaysClosed(s, sched[0], repaired);
      NoLateAcquire(Do(s, sched[0], repaired), sched[1..], repaired, u);
      DoHolders(s, sched[0], repaired, u);
    }
  }

  /** The start of the violating run: request 0 acquires and decrements to zero, request 1
      acquires, and Close has arrived. */
  function ToHazard(): seq<Action> {
    [NewRequest] + ([NewRequest] + ([NewClose] +
    ([StepOf(0)] + ([StepOf(0)] + ([StepOf(0)] + ([StepOf(0)] +
    ([StepOf(1)] + ([StepOf(1)] + ([StepOf(1)] + [])))))))))
  }

  lemma {:induction false} HazardReached(closers: seq<Registry>)
    ensures Possible(Init(closers), ToHazard(), false)
    ensures Exec(Init(closers), ToHazard(), false) ==
            Init(closers).(inFlight := 1, threads := [SawZero(Served), Holding, CloseStart])
  {
    var s0 := Init(closers);
    var c := CloseStart;
    var s3 := s0.(threads := [AcqStart, AcqStart, c]);
    var s4 := s0.(threads := [AcqSawOpen, AcqStart, c]);
    var s5 := s0.(inFlight := 1, threads := [AcqCounted, AcqStart, c]);
    var s6 := s0.(inFlight := 1, threads := [Holding, AcqStart, c]);
    var s7 := s0.(threads := [SawZero(Served), AcqStart, c]);
    var s8 := s0.(threads := [SawZero(Served), AcqSawOpen, c]);
    var s9 := s0.(inFlight := 1, threads := [SawZero(Served), AcqCounted, c]);
    var s10 := s0.(inFlight := 1, threads := [SawZero(Served), Holding, c]);
    assert Possible(s10, [], false);
    assert Do(s9, StepOf(1), false) == s10;
    Prepend(s9, StepOf(1), []);
    assert Do(s8, StepOf(1), false) == s9;
    Prepend(s8, StepOf(1), [StepOf(1)] + []);
    assert Do(s7, StepOf(1), false) == s8;
    var r7 := [StepOf(1)] + ([StepOf(1)] + ([StepOf(1)] + []));
    Prepend(s7, StepOf(1), [StepOf(1)] + ([StepOf(1)] + []));
    assert Do(s6, StepOf(0), false) == s7;
    Prepend(s6, StepOf(0), r7);
    assert Do(s5, StepOf(0), false) == s6;
    Prepend(s5, StepOf(0), [StepOf(0)] + r7);
    assert Do(s4, StepOf(0), false) == s5;
    Prepend(s4, StepOf(0), [StepOf(0)] + ([StepOf(0)] + r7));
    assert Do(s3, StepOf(0), false) == s4;
    Prepend(s3, StepOf(0), [StepOf(0)] + ([StepOf(0)] + ([StepOf(0)] + r7)));
    var r3 := [StepOf(0)] + ([StepOf(0)] + ([StepOf(0)] + ([StepOf(0)] + r7)));
    var s2 := s0.(threads := [AcqStart, AcqStart]);
    var s1 := s0.(threads := [AcqStart]);
    assert Do(s2, NewClose, false) == s3;
    Prepend(s2, NewClose, r3);
    assert Do(s1, NewRequest, false) == s2;
    Prepend(s1, NewRequest, [NewClose] + r3);
    assert Do(s0, NewRequest, false) == s1;
    Prepend(s0, NewRequest, [NewRequest] + ([NewClose] + r3));
  }

  lemma {:induction false} ReachesAfter(s: Snap, pre: seq<Action>)
    requires Possible(s, pre, false) && ReachesUnsafe(Exec(s, pre, false))
    ensures ReachesUnsafe(s)
  {
    var rest :| Possible(Exec(s, pre, false), rest, false) && Unsafe(Exec(Exec(s, pre, false), rest, false));
    ExecConcat(s, pre, rest, false);
  }

  lemma {:induction false} HazardStateViolates(s: Snap)
    requires Inv(s) && s.phase.Open? && s.threads == [SawZero(Served), Holding, CloseStart]
    ensures ReachesUnsafe(s)
  {
    StaleReleaserViolates(s, 2, 0, 1);
    ReachesThrough(s, StepOf(2));
  }

  /** The violating run exists, whatever closers the snapshot was built with. */
  lemma {:induction false} ViolatingRunExists(closers: seq<Registry>)
    ensures ReachesUnsafe(Init(closers))
  {
    HazardReached(closers);
    ExecInv(Init(closers), ToHazard(), false);
    HazardStateViolates(Exec(Init(closers), ToHazard(), false));
    ReachesAfter(Init(closers), ToHazard());
  }

  // ---------------------------------------------------------------- Close finishes

  function AfterRank(who: Signaller, n: nat): nat {
    if who.Closer? then n + 4 else 0
  }

  /** An upper bound on the steps a call has left on a snapshot with n closers. */
  function Rank(pc: PC, n: nat): nat {
    match pc
    case Returned(_) => 0
    case CloseReturned(_) => 0
    case CloseAnnounce => 1
    case CloseWaitOther => 1
    case CloseStore => 2
    case CloseRun(left) => 3 + left
    case CloseWait => n + 4
    case Draining(who) => AfterRank(who, n) + 1
    case Signalling(who) => AfterRank(who, n) + 2
    case Rechecking(who) => AfterRank(who, n) + 3
    case SawZero(who) => AfterRank(who, n) + 4
    case Undoing => 5
    case Holding => 5
    case AcqCounted => 6
    case AcqSawOpen => 7
    case AcqStart => 8
    case CloseCheck => n + 7
    case CloseStart => n + 8
  }

  function TotalRank(ps: seq<PC>, n: nat): nat {
    if ps == [] then 0 else Rank(ps[0], n) + TotalRank(ps[1..], n)
  }

  lemma {:induction false} TotalRankUpdate(ps: seq<PC>, t: nat, pc: PC, n: nat)
    requires t < |ps|
    ensures TotalRank(ps[t := pc], n) == TotalRank(ps, n) - Rank(ps[t], n) + Rank(pc, n)
  {
    if t == 0 {
      assert ps[0 := pc][1..] == ps[1..];
    } else {
      TotalRankUpdate(ps[1..], t - 1, pc, n);
      assert ps[t := pc][1..] == ps[1..][t - 1 := pc];
    }
  }

  predicate Finished(pc: PC) {
    pc.Returned? || pc.CloseReturned?
  }

  lemma {:induction false} RankDrops(s: Snap, pc: PC, repaired: bool, n: nat)
    requires !Finished(pc) && (pc.CloseWait? ==> |s.closers| <= n)
    ensures Rank(Target(s, pc, repaired), n) < Rank(pc, n)
  {
  }

  /** Every step of a call that has already started uses up some of the total rank. */
  lemma {:induction false} FireDecreases(s: Snap, t: nat, repaired: bool)
    requires Inv(s) && Enabled(s, t)
    ensures TotalRank(Fire(s, t, repaired).threads, |s.registered|) < TotalRank(s.threads, |s.registered|)
  {
    assert ThreadOk(s, t);
    RankDrops(s, s.threads[t], repaired, |s.registered|);
    TotalRankUpdate(s.threads, t, Target(s, s.threads[t], repaired), |s.registered|);
  }

  predicate ArrivalFree(sched: seq<Action>) {
    forall k :: 0 <= k < |sched| ==> sched[k].StepOf?
  }

  /** Without new arrivals a schedule is no longer than the total rank it starts from. */
  lemma {:induction false} StepsAreBounded(s: Snap, sched: seq<Action>, repaired: bool)
    requires Inv(s) && Possible(s, sched, repaired) && ArrivalFree(sched)
    ensures |sched| <= TotalRank(s.threads, |s.registered|)
    ensures var s' := Exec(s, sched, repaired);
            Inv(s') && s'.registered == s.registered && |s'.threads| == |s.threads|
    decreases |sched|
  {
    if sched != [] {
      var t := sched[0].t;
      assert ThreadOk(s, t);
      FireInv(s, t, repaired);
      FireDecreases(s, t, repaired);
      FireMonotone(s, t, repaired);
      StepsAreBounded(Fire(s, t, repaired), sched[1..], repaired);
    }
  }

  ghost predicate Quiescent(s: Snap) {
    forall t: nat :: !Enabled(s, t)
  }

  /** While the closing call has not returned, somebody can move. */
  lemma {:induction false} OwnerIsNotStuck(s: Snap)
    requires Inv(s) && s.owner >= 0 && s.threads[s.owner] != CloseReturned(true)
    ensures exists t: nat :: Enabled(s, t)
  {
    var o := s.owner;
    assert ThreadOk(s, o);
    if s.threads[o].CloseWait? && s.drainedCh == 0 {
      if s.drainSignaled {
        assert Enabled(s, s.signaller);
      } else if s.inFlight > 0 {
        CountWitness(s.threads);
        var u :| 0 <= u < |s.threads| && InFlightPC(s.threads[u]);
        assert Enabled(s, u);
      } else {
        var u :| 0 <= u < |s.threads| && PendingPC(s.threads[u]);
        assert Enabled(s, u);
      }
    } else {
      assert Enabled(s, o);
    }
  }

  /** The protocol has no deadlock: where no call can move, every call has returned. */
  lemma {:induction false} QuiescentIsFinished(s: Snap, t: nat)
    requires Inv(s) && Quiescent(s) && t < |s.threads|
    ensures Finished(s.threads[t])
    ensures s.owner >= 0 ==> s.threads[s.owner] == CloseReturned(true)
  {
    if s.owner >= 0 && s.threads[s.owner] != CloseReturned(true) {
      OwnerIsNotStuck(s);
    }
    assert ThreadOk(s, t) && !Enabled(s, t);
  }

  /** Close finishes: let the calls on a reachable snapshot run with no new arrivals until
      nothing can move.  That takes at most TotalRank steps, and then every call has returned
      and, if Close was called, the snapshot is closed and every closer has run once, in
      reverse order. */
  lemma {:induction false} CloseFinishes(s: Snap, sched: seq<Action>, repaired: bool, c: nat)
    requires Inv(s) && Possible(s, sched, repaired) && ArrivalFree(sched)
    requires Quiescent(Exec(s, sched, repaired)) && c < |s.threads|
    ensures |sched| <= TotalRank(s.threads, |s.registered|)
    ensures var s' := Exec(s, sched, repaired);
            && c < |s'.threads| && Finished(s'.threads[c])
            && (s'.threads[c].CloseReturned? ==>
                  s'.phase.Closed? && s'.closedCh == 1 && s'.ran == RunOrder(s.registered))
  {
    StepsAreBounded(s, sched, repaired);
    var s' := Exec(s, sched, repaired);
    QuiescentIsFinished(s', c);
    assert ThreadOk(s', c);
  }
}
