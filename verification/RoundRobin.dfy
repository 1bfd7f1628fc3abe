/**
 The round-robin balancer of internal/balancer/roundrobin/roundrobin.go.

 Each Pick takes one ticket from an atomic 64-bit counter, so whatever the interleaving the
 tickets of any group of picks without gaps are consecutive numbers.
 */
module RoundRobin {

  const TWO63: nat := 0x8000_0000_0000_0000
  const TWO64: nat := 0x1_0000_0000_0000_0000

  datatype Endpoint = Endpoint(address: string, weight: nat, available: bool)

  /** Picked gives the index; Panics is an index out of range. */
  datatype PickResult = Picked(index: nat) | NotAvailable | Panics

  /** int(uint64): the upper half of the range becomes negative. */
  function SignedTicket(ticket: nat): int {
    if ticket < TWO63 then ticket else ticket - TWO64
  }

  /** Go's remainder takes the sign of the dividend. */
  function Rem(a: int, n: nat): int
    requires n > 0
  {
    if a >= 0 then a % n else -((-a) % n)
  }

  function Slot(ticket: nat, i: nat, n: nat): nat
    requires n > 0
  {
    (ticket + i) % n
  }

  predicate AllAvailable(es: seq<Endpoint>) {
    forall i :: 0 <= i < |es| ==> es[i].available
  }

  predicate NoneAvailable(es: seq<Endpoint>) {
    forall i :: 0 <= i < |es| ==> !es[i].available
  }

  /** The i-th endpoint from the ticket on, cyclically, is the first that is available. */
  predicate FirstAvailable(es: seq<Endpoint>, ticket: nat, i: nat)
    requires es != []
  {
    && i < |es| && es[Slot(ticket, i, |es|)].available
    && forall j :: 0 <= j < i ==> !es[Slot(ticket, j, |es|)].available
  }

  /** Quotient and remainder are unique. */
  lemma {:induction false} RemainderIsUnique(a: int, q: int, r: int, n: int)
    requires 0 <= r < n && a == q * n + r
    ensures a % n == r
  {
    var d := q - a / n;
    assert a == (a / n) * n + a % n;
    assert d * n == a % n - r by { assert q * n - (a / n) * n == d * n; }
    if d >= 1 { TimesAtLeast(d, n); } else if d <= -1 { TimesAtLeast(-d, n); }
  }

  lemma {:induction false} TimesAtLeast(d: int, n: int)
    requires d >= 1 && n > 0
    ensures d * n >= n && -d * n == -(d * n)
  {
    assert d * n == n + (d - 1) * n;
  }

  lemma {:induction false} SmallRem(a: int, n: nat)
    requires 0 - n < a < n
    ensures Rem(a, n) == a
  {
    if a >= 0 { RemainderIsUnique(a, 0, a, n); } else { RemainderIsUnique(-a, 0, -a, n); }
  }

  lemma {:induction false} StartPlusStep(start: nat, i: nat, n: nat, ticket: nat)
    requires n > 0 && start == ticket % n
    ensures (start + i) % n == Slot(ticket, i, n)
  {
    var d, x := ticket / n, start + i;
    assert ticket == d * n + start;
    assert x == (x / n) * n + x % n;
    assert ticket + i == (d + x / n) * n + x % n by { assert (d + x / n) * n == d * n + (x / n) * n; }
    RemainderIsUnique(ticket + i, d + x / n, x % n, n);
  }

  lemma {:induction false} AddOnce(a: nat, n: nat)
    requires n > 0
    ensures (a + n) % n == a % n
  {
    assert a == (a / n) * n + a % n;
    assert a + n == (a / n + 1) * n + a % n by { assert (a / n + 1) * n == (a / n) * n + n; }
    RemainderIsUnique(a + n, a / n + 1, a % n, n);
  }

  /** Every endpoint has its turn within one round. */
  lemma {:induction false} SlotsCoverAll(ticket: nat, n: nat, e: nat) returns (i: nat)
    requires e < n
    ensures i < n && Slot(ticket, i, n) == e
  {
    var s := ticket % n;
    i := if e >= s then e - s else e + n - s;
    StartPlusStep(s, i, n, ticket);
    RemainderIsUnique(e, 0, e, n);
    if e < s { AddOnce(e, n); }
  }

  /** The ticket to count from: past 2^63 a pick that does not panic starts at the first endpoint. */
  function StartOf(ticket: nat): nat {
    if ticket < TWO63 then ticket else 0
  }

  /** What a pick that counts from the ticket must yield. */
  ghost predicate Outcome(es: seq<Endpoint>, ticket: nat, r: PickResult)
    requires es != []
  {
    match r
    case NotAvailable => NoneAvailable(es)
    case Picked(index) => exists i: nat :: FirstAvailable(es, ticket, i) && index == Slot(ticket, i, |es|)
    case Panics => false
  }

  /** The scanning loop of Pick. */
  method PickFrom(es: seq<Endpoint>, ticket: nat) returns (r: PickResult)
    requires es != [] && ticket < TWO64
    ensures r.Panics? <==> ticket >= TWO63 && Rem(SignedTicket(ticket), |es|) != 0
    ensures !r.Panics? ==> Outcome(es, StartOf(ticket), r)
    ensures r.Picked? ==> r.index < |es| && es[r.index].available
  {
    var n := |es|;
    var start := Rem(SignedTicket(ticket), n);
    SmallRem(start, n);
    ghost var from := StartOf(ticket);
    RemainderIsUnique(0, 0, 0, n);
    for i := 0 to n
      invariant i > 0 ==> start >= 0
      invariant start >= 0 ==> start == from % n
      invariant forall j :: 0 <= j < i ==> !es[Slot(from, j, n)].available
    {
      var idx := Rem(start + i, n);
      if idx < 0 { return Panics; }
      StartPlusStep(start, i, n, from);
      if es[idx].available {
        assert FirstAvailable(es, from, i);
        return Picked(idx);
      }
    }
    forall e | 0 <= e < n ensures !es[e].available {
      var i := SlotsCoverAll(from, n, e);
    }
    return NotAvailable;
  }

  class Balancer {
    var endpoints: seq<Endpoint>
    var next: nat

    ghost predicate Valid()
      reads this
    {
      next < TWO64
    }

    constructor (endpoints: seq<Endpoint>)
      ensures Valid() && this.endpoints == endpoints && next == 0
    {
      this.endpoints := endpoints;
      next := 0;
    }

    method Update(endpoints: seq<Endpoint>)
      requires Valid()
      modifies `endpoints
      ensures Valid() && this.endpoints == endpoints
    {
      this.endpoints := endpoints;
    }

    /** Pick returns the cyclically first available endpoint from its ticket on and fails exactly
        when none is available; weights play no part.  It panics exactly when the counter has
        passed 2^63 and the signed ticket is not a multiple of the number of endpoints; if it is a
        multiple, the first available endpoint of the list is picked. */
    method Pick() returns (r: PickResult)
      requires Valid()
      modifies `next
      ensures Valid()
      ensures endpoints == [] ==> r == NotAvailable && next == old(next)
      ensures endpoints != [] ==> next == (old(next) + 1) % TWO64
      ensures endpoints != [] ==>
                (r.Panics? <==> old(next) >= TWO63 && Rem(SignedTicket(old(next)), |endpoints|) != 0)
      ensures endpoints != [] && !r.Panics? ==> Outcome(endpoints, StartOf(old(next)), r)
      ensures r.Picked? ==> r.index < |endpoints| && endpoints[r.index].available
    {
      if |endpoints| == 0 { return NotAvailable; }
      var ticket := next;
      next := (next + 1) % TWO64;
      r := PickFrom(endpoints, ticket);
    }
  }

  // ---------------------------------------------------------------- fairness

  /** How many of the m tickets from c on fall on endpoint e. */
  function Hits(c: nat, m: nat, n: nat, e: nat): nat
    requires n > 0
  {
    if m == 0 then 0 else Hits(c, m - 1, n, e) + if Slot(c, m - 1, n) == e then 1 else 0
  }

  lemma {:induction false} HitsShift(c: nat, m: nat, n: nat, e: nat)
    requires n > 0
    ensures Hits(c + 1, m, n, e) + (if Slot(c, 0, n) == e then 1 else 0) ==
            Hits(c, m, n, e) + if Slot(c, m, n) == e then 1 else 0
  {
    if m > 0 { HitsShift(c, m - 1, n, e); }
  }

  lemma {:induction false} HitsFromZero(m: nat, n: nat, e: nat)
    requires e < n && m <= n
    ensures Hits(0, m, n, e) == if e < m then 1 else 0
  {
    if m > 0 {
      HitsFromZero(m - 1, n, e);
      RemainderIsUnique(m - 1, 0, m - 1, n);
    }
  }

  lemma {:induction false} OneRound(c: nat, n: nat, e: nat)
    requires e < n
    ensures Hits(c, n, n, e) == 1
  {
    if c == 0 {
      HitsFromZero(n, n, e);
    } else {
      OneRound(c - 1, n, e);
      HitsShift(c - 1, n, n, e);
      AddOnce(c - 1, n);
    }
  }

  lemma {:induction false} HitsConcat(c: nat, m: nat, k: nat, n: nat, e: nat)
    requires n > 0
    ensures Hits(c, m + k, n, e) == Hits(c, m, n, e) + Hits(c + m, k, n, e)
  {
    if k > 0 { HitsConcat(c, m, k - 1, n, e); }
  }

  /** Any k * n consecutive tickets give each of the n endpoints exactly k turns. */
  lemma {:induction false} FairShare(c: nat, k: nat, n: nat, e: nat)
    requires e < n
    ensures Hits(c, k * n, n, e) == k
  {
    if k > 0 {
      FairShare(c, k - 1, n, e);
      assert k * n == (k - 1) * n + n;
      HitsConcat(c, (k - 1) * n, n, n, e);
      OneRound(c + (k - 1) * n, n, e);
    }
  }

  function CountOf(picks: seq<nat>, e: nat): nat {
    if picks == [] then 0 else CountOf(picks[..|picks| - 1], e) + if picks[|picks| - 1] == e then 1 else 0
  }

  lemma {:induction false} AvailablePick(es: seq<Endpoint>, ticket: nat, r: PickResult)
    requires es != [] && AllAvailable(es) && Outcome(es, ticket, r)
    ensures r == Picked(Slot(ticket, 0, |es|))
  {
    assert es[0].available && es[Slot(ticket, 0, |es|)].available;
  }

  /** Consecutive picks on endpoints that are all available: over k rounds each endpoint is
      chosen exactly k times. */
  method PickRounds(b: Balancer, k: nat) returns (picks: seq<nat>)
    requires b.Valid() && b.endpoints != [] && AllAvailable(b.endpoints)
    requires b.next + k * |b.endpoints| <= TWO63
    modifies b`next
    ensures |picks| == k * |b.endpoints|
    ensures forall e :: 0 <= e < |b.endpoints| ==> CountOf(picks, e) == k
  {
    picks := [];
    var n := |b.endpoints|;
    ghost var c := b.next;
    for i := 0 to k * n
      invariant b.Valid() && b.next == c + i && |picks| == i
      invariant forall e :: 0 <= e < n ==> CountOf(picks, e) == Hits(c, i, n, e)
    {
      var r := b.Pick();
      AvailablePick(b.endpoints, c + i, r);
      picks := picks + [r.index];
      assert picks[..|picks| - 1] + [r.index] == picks;
    }
    forall e | 0 <= e < n ensures CountOf(picks, e) == k {
      FairShare(c, k, n, e);
    }
  }
}
