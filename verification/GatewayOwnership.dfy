/**
 Who owns the closers: every closer that a registry has received is with the snapshot of its compile,
 with a compile that is under way or being undone, or with a failed compile; and in the end each has
 been closed exactly once.
 */
module GatewayOwnership {
  import Lifecycle = SnapshotLifecycle
  import opened GatewayRuntime

  function OccursUpTo(s: seq<Lifecycle.CloserId>, n: nat, x: Lifecycle.CloserId): nat
    requires n <= |s|
  {
    if n == 0 then 0 else OccursUpTo(s, n - 1, x) + if s[n - 1] == x then 1 else 0
  }

  /** How often a closer occurs. */
  function Occurs(s: seq<Lifecycle.CloserId>, x: Lifecycle.CloserId): nat {
    OccursUpTo(s, |s|, x)
  }

  function InUpTo(rs: seq<Lifecycle.Registry>, n: nat, x: Lifecycle.CloserId): nat
    requires n <= |rs|
  {
    if n == 0 then 0 else InUpTo(rs, n - 1, x) + Occurs(rs[n - 1], x)
  }

  /** How often it occurs in several lists. */
  function In(rs: seq<Lifecycle.Registry>, x: Lifecycle.CloserId): nat {
    InUpTo(rs, |rs|, x)
  }

  /** The registry of a compile that has not ended yet. */
  function Holds(c: Caller): Lifecycle.Registry {
    match c
    case Compiling(registered) => registered
    case Aborting(registered, _, _) => registered
    case _ => []
  }

  function Held(cs: seq<Caller>): (rs: seq<Lifecycle.Registry>)
    ensures |rs| == |cs| && forall i :: 0 <= i < |cs| ==> rs[i] == Holds(cs[i])
  {
    seq(|cs|, i requires 0 <= i < |cs| => Holds(cs[i]))
  }

  function Abandoned(fs: seq<FailedCompile>): (rs: seq<Lifecycle.Registry>)
    ensures |rs| == |fs| && forall i :: 0 <= i < |fs| ==> rs[i] == fs[i].registered
  {
    seq(|fs|, i requires 0 <= i < |fs| => fs[i].registered)
  }

  /** The closer is accounted for, as often as it was received. */
  predicate Accounted(g: Gw, x: Lifecycle.CloserId) {
    Occurs(g.received, x) == In(g.compiled, x) + In(Abandoned(g.failed), x) + In(Held(g.callers), x)
  }

  lemma {:induction false} OccursSame(a: seq<Lifecycle.CloserId>, b: seq<Lifecycle.CloserId>, n: nat,
                                      x: Lifecycle.CloserId)
    requires n <= |a| && n <= |b| && forall i :: 0 <= i < n ==> a[i] == b[i]
    ensures OccursUpTo(a, n, x) == OccursUpTo(b, n, x)
  {
    if n > 0 { OccursSame(a, b, n - 1, x); }
  }

  lemma {:induction false} OccursSnoc(s: seq<Lifecycle.CloserId>, y: Lifecycle.CloserId, x: Lifecycle.CloserId)
    ensures Occurs(s + [y], x) == Occurs(s, x) + if y == x then 1 else 0
  {
    OccursSame(s + [y], s, |s|, x);
  }

  lemma {:induction false} InSame(a: seq<Lifecycle.Registry>, b: seq<Lifecycle.Registry>, n: nat,
                                  x: Lifecycle.CloserId)
    requires n <= |a| && n <= |b| && forall i :: 0 <= i < n ==> Occurs(a[i], x) == Occurs(b[i], x)
    ensures InUpTo(a, n, x) == InUpTo(b, n, x)
  {
    if n > 0 { InSame(a, b, n - 1, x); }
  }

  lemma {:induction false} InSnoc(rs: seq<Lifecycle.Registry>, r: Lifecycle.Registry, x: Lifecycle.CloserId)
    ensures In(rs + [r], x) == In(rs, x) + Occurs(r, x)
  {
    InSame(rs + [r], rs, |rs|, x);
  }

  lemma {:induction false} InUpdate(rs: seq<Lifecycle.Registry>, k: nat, r: Lifecycle.Registry, n: nat,
                                    x: Lifecycle.CloserId)
    requires k < n <= |rs|
    ensures InUpTo(rs[k := r], n, x) + Occurs(rs[k], x) == InUpTo(rs, n, x) + Occurs(r, x)
  {
    if k == n - 1 { InSame(rs[k := r], rs, k, x); } else { InUpdate(rs, k, r, n - 1, x); }
  }

  /** What one caller gains, all callers together gain. */
  lemma {:induction false} HeldUpdate(cs: seq<Caller>, k: nat, c: Caller, x: Lifecycle.CloserId)
    requires k < |cs|
    ensures In(Held(cs[k := c]), x) + Occurs(Holds(cs[k]), x) == In(Held(cs), x) + Occurs(Holds(c), x)
  {
    assert Held(cs[k := c]) == Held(cs)[k := Holds(c)];
    InUpdate(Held(cs), k, Holds(c), |cs|, x);
  }

  lemma {:induction false} HeldSnoc(cs: seq<Caller>, c: Caller, x: Lifecycle.CloserId)
    ensures In(Held(cs + [c]), x) == In(Held(cs), x) + Occurs(Holds(c), x)
  {
    assert Held(cs + [c]) == Held(cs) + [Holds(c)];
    InSnoc(Held(cs), Holds(c), x);
  }

  lemma {:induction false} AbandonedSnoc(fs: seq<FailedCompile>, f: FailedCompile, x: Lifecycle.CloserId)
    ensures In(Abandoned(fs + [f]), x) == In(Abandoned(fs), x) + Occurs(f.registered, x)
  {
    assert Abandoned(fs + [f]) == Abandoned(fs) + [f.registered];
    InSnoc(Abandoned(fs), f.registered, x);
  }

  /** No move loses or invents a closer. */
  lemma {:induction false} StepAccounted(g: Gw, m: Move, repaired: bool, x: Lifecycle.CloserId)
    requires Accounted(g, x) && Can(g, m)
    ensures Accounted(Step(g, m, repaired), x)
  {
    match m
    case Arrives(c) => HeldSnoc(g.callers, c, x);
    case Inside(_, _) =>
    case Swap(k) => SwapAccounted(g, k, x);
    case Register(k, closer) => RegisterAccounted(g, k, closer, repaired, x);
    case CompileOk(k) => CompileOkAccounted(g, k, repaired, x);
    case AbortReturns(k) => AbortAccounted(g, k, repaired, x);
    case _ => OtherAccounted(g, m, repaired, x);
  }

  lemma {:induction false} SwapAccounted(g: Gw, k: nat, x: Lifecycle.CloserId)
    requires Accounted(g, x) && Can(g, Swap(k))
    ensures Accounted(Swapped(g, k), x)
  {
    var c := if g.published < 0 then Done else ClosingOld(g.published, |g.snaps[g.published].threads|);
    HeldUpdate(g.callers, k, c, x);
    assert Swapped(g, k).callers == g.callers[k := c];
  }

  lemma {:induction false} RegisterAccounted(g: Gw, k: nat, closer: Lifecycle.CloserId, repaired: bool,
                                             x: Lifecycle.CloserId)
    requires Accounted(g, x) && Can(g, Register(k, closer))
    ensures Accounted(Step(g, Register(k, closer), repaired), x)
  {
    var registered := g.callers[k].registered;
    HeldUpdate(g.callers, k, Compiling(registered + [closer]), x);
    OccursSnoc(g.received, closer, x);
    OccursSnoc(registered, closer, x);
  }

  lemma {:induction false} CompileOkAccounted(g: Gw, k: nat, repaired: bool, x: Lifecycle.CloserId)
    requires Accounted(g, x) && Can(g, CompileOk(k))
    ensures Accounted(Step(g, CompileOk(k), repaired), x)
  {
    HeldUpdate(g.callers, k, HasFresh(|g.snaps|), x);
    InSnoc(g.compiled, g.callers[k].registered, x);
  }

  lemma {:induction false} AbortAccounted(g: Gw, k: nat, repaired: bool, x: Lifecycle.CloserId)
    requires Accounted(g, x) && Can(g, AbortReturns(k))
    ensures Accounted(Step(g, AbortReturns(k), repaired), x)
  {
    HeldUpdate(g.callers, k, Done, x);
    AbandonedSnoc(g.failed, FailedCompile(g.callers[k].registered, g.callers[k].ran), x);
  }

  /** Moves that leave every registry where it is. */
  lemma {:induction false} OtherAccounted(g: Gw, m: Move, repaired: bool, x: Lifecycle.CloserId)
    requires Accounted(g, x) && Can(g, m) && !m.Arrives? && !m.Inside? && !m.Swap?
    requires !m.Register? && !m.CompileOk? && !m.AbortReturns?
    ensures Accounted(Step(g, m, repaired), x)
  {
    var c := Step(g, m, repaired).callers[m.k];
    HeldUpdate(g.callers, m.k, c, x);
  }

  lemma {:induction false} ExecAccounted(g: Gw, moves: seq<Move>, repaired: bool, x: Lifecycle.CloserId)
    requires Accounted(g, x) && Possible(g, moves, repaired)
    ensures Accounted(Exec(g, moves, repaired), x)
    decreases |moves|
  {
    if moves != [] {
      StepAccounted(g, moves[0], repaired, x);
      ExecAccounted(Step(g, moves[0], repaired), moves[1..], repaired, x);
    }
  }

  /** In every reachable state every closer received is with a snapshot, with a compile that is under
      way or being undone, or with a failed compile. */
  lemma {:induction false} ReachableAccounted(g: Gw, repaired: bool, x: Lifecycle.CloserId)
    requires Reachable(g, repaired)
    ensures Accounted(g, x)
  {
    var registry, moves :| Possible(Start(registry), moves, repaired) && g == Exec(Start(registry), moves, repaired);
    InSnoc([], registry, x);
    assert [] + [registry] == Start(registry).compiled;
    ExecAccounted(Start(registry), moves, repaired, x);
  }

  // ---------------------------------------------------------------- what has been closed

  /** What the snapshots have closed. */
  function RanBy(snaps: seq<Lifecycle.Snap>): (rs: seq<seq<Lifecycle.CloserId>>)
    ensures |rs| == |snaps| && forall i :: 0 <= i < |snaps| ==> rs[i] == snaps[i].ran
  {
    seq(|snaps|, i requires 0 <= i < |snaps| => snaps[i].ran)
  }

  /** What the failed compiles have closed. */
  function RanFailed(fs: seq<FailedCompile>): (rs: seq<seq<Lifecycle.CloserId>>)
    ensures |rs| == |fs| && forall i :: 0 <= i < |fs| ==> rs[i] == fs[i].ran
  {
    seq(|fs|, i requires 0 <= i < |fs| => fs[i].ran)
  }

  lemma {:induction false} OccursCons(s: seq<Lifecycle.CloserId>, n: nat, x: Lifecycle.CloserId)
    requires 0 < n <= |s|
    ensures OccursUpTo(s, n, x) == OccursUpTo(s[1..], n - 1, x) + if s[0] == x then 1 else 0
  {
    if n > 1 { OccursCons(s, n - 1, x); }
  }

  lemma {:induction false} ReverseSame(r: Lifecycle.Registry, x: Lifecycle.CloserId)
    ensures Occurs(Lifecycle.Reverse(r), x) == Occurs(r, x)
  {
    if r != [] {
      ReverseSame(r[1..], x);
      OccursCons(r, |r|, x);
      OccursSnoc(Lifecycle.Reverse(r[1..]), r[0], x);
    }
  }

  /** Lists that are reversed one by one hold the same. */
  lemma {:induction false} AllReversed(ran: seq<seq<Lifecycle.CloserId>>, rs: seq<Lifecycle.Registry>,
                                       x: Lifecycle.CloserId)
    requires |ran| == |rs| && forall i :: 0 <= i < |rs| ==> ran[i] == Lifecycle.Reverse(rs[i])
    ensures In(ran, x) == In(rs, x)
  {
    forall i | 0 <= i < |rs| ensures Occurs(ran[i], x) == Occurs(rs[i], x) {
      ReverseSame(rs[i], x);
    }
    InSame(ran, rs, |rs|, x);
  }

  lemma {:induction false} NothingHeld(rs: seq<Lifecycle.Registry>, n: nat, x: Lifecycle.CloserId)
    requires n <= |rs| && forall k :: 0 <= k < |rs| ==> rs[k] == []
    ensures InUpTo(rs, n, x) == 0
  {
    if n > 0 { NothingHeld(rs, n - 1, x); }
  }

  /** Resource ownership: after any run of Reloads, failed compiles, requests and Shutdowns that has
      settled with the pointer at nil, every closer that any registry ever received has been closed as
      often as it was received; within a registry closers ran in reverse order of registration, closed
      by the snapshot of the compile or by the failed compile itself. */
  lemma {:induction false} EveryCloserClosedOnce(g: Gw, repaired: bool, x: Lifecycle.CloserId)
    requires Reachable(g, repaired) && Settled(g) && g.published < 0
    ensures In(RanBy(g.snaps), x) + In(RanFailed(g.failed), x) == Occurs(g.received, x)
    ensures |g.compiled| == |g.snaps|
    ensures forall i :: 0 <= i < |g.snaps| ==> g.snaps[i].ran == Lifecycle.Reverse(g.compiled[i])
    ensures forall j :: 0 <= j < |g.failed| ==> g.failed[j].ran == Lifecycle.Reverse(g.failed[j].registered)
  {
    ReachableInv(g, repaired);
    ReachableAccounted(g, repaired, x);
    forall i | 0 <= i < |g.snaps| ensures g.snaps[i].ran == Lifecycle.Reverse(g.compiled[i]) {
      RetiredSnapRan(g, i);
    }
    forall k | 0 <= k < |g.callers| ensures Holds(g.callers[k]) == [] {
      SettledIsFinished(g, k);
    }
    AllReversed(RanBy(g.snaps), g.compiled, x);
    AllReversed(RanFailed(g.failed), Abandoned(g.failed), x);
    NothingHeld(Held(g.callers), |g.callers|, x);
  }
}
