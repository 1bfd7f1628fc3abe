/**
 Snapshot history and its retention: EtcdHistoryStore of internal/controlplane/historystore.go
 over an abstract map from ids to entries.
 */
module History {
  import opened ControlPlane

  datatype HistoryEntry = HistoryEntry(id: string, bundle: Bundle, rollbackOf: string)

  type Entries = map<string, HistoryEntry>

  // ---------------------------------------------------------------- the order of ids

  /** Go's < on strings. */
  predicate Less(a: string, b: string) {
    if b == "" then false
    else if a == "" then true
    else a[0] < b[0] || (a[0] == b[0] && Less(a[1..], b[1..]))
  }

  lemma {:induction false} LessTransitive(a: string, b: string, c: string)
    requires Less(a, b) && Less(b, c)
    ensures Less(a, c)
  {
    if a != "" && a[0] == b[0] && b[0] == c[0] { LessTransitive(a[1..], b[1..], c[1..]); }
  }

  lemma {:induction false} LessIrreflexive(a: string)
    ensures !Less(a, a)
  {
    if a != "" { LessIrreflexive(a[1..]); }
  }

  lemma {:induction false} LessTotal(a: string, b: string)
    ensures Less(a, b) || Less(b, a) || a == b
  {
    if a != "" && b != "" && a[0] == b[0] {
      LessTotal(a[1..], b[1..]);
      assert a == [a[0]] + a[1..] && b == [b[0]] + b[1..];
    }
  }

  predicate Decimal(s: string) {
    forall i :: 0 <= i < |s| ==> '0' <= s[i] <= '9'
  }

  function Digit(c: char): (d: nat)
    requires '0' <= c <= '9'
    ensures d < 10
  {
    c as int - '0' as int
  }

  function Numeral(s: string): nat
    requires Decimal(s)
  {
    if s == "" then 0 else 10 * Numeral(s[..|s| - 1]) + Digit(s[|s| - 1])
  }

  /** At equal length the last character decides only between equal fronts. */
  lemma {:induction false} LessByFront(a: string, b: string)
    requires |a| == |b| > 0
    ensures var n := |a| - 1; Less(a, b) <==> Less(a[..n], b[..n]) || (a[..n] == b[..n] && a[n] < b[n])
  {
    var n := |a| - 1;
    if n > 0 {
      LessByFront(a[1..], b[1..]);
      assert a[1..][..n - 1] == a[..n][1..] && b[1..][..n - 1] == b[..n][1..];
      assert a[..n] == [a[0]] + a[..n][1..] && b[..n] == [b[0]] + b[..n][1..];
    }
  }

  lemma {:induction false} LastDigit(a: nat, d: nat, b: nat, e: nat)
    requires d < 10 && e < 10 && 10 * a + d == 10 * b + e
    ensures a == b && d == e
  {
  }

  lemma {:induction false} NumeralInjective(a: string, b: string)
    requires Decimal(a) && Decimal(b) && |a| == |b| && Numeral(a) == Numeral(b)
    ensures a == b
  {
    if a != "" {
      var n := |a| - 1;
      LastDigit(Numeral(a[..n]), Digit(a[n]), Numeral(b[..n]), Digit(b[n]));
      NumeralInjective(a[..n], b[..n]);
      assert a == a[..n] + [a[n]] && b == b[..n] + [b[n]];
    }
  }

  /** Ids are nanosecond clock readings in decimal: at equal length the order of strings, which
      retention uses, is the order of the readings. */
  lemma {:induction false} DecimalOrder(a: string, b: string)
    requires Decimal(a) && Decimal(b) && |a| == |b|
    ensures Less(a, b) <==> Numeral(a) < Numeral(b)
  {
    if a != "" {
      var n := |a| - 1;
      LessByFront(a, b);
      DecimalOrder(a[..n], b[..n]);
      if Numeral(a[..n]) == Numeral(b[..n]) { NumeralInjective(a[..n], b[..n]); }
    }
  }

  /** At unequal length the shorter id comes first unless it exceeds the front of the longer one. */
  lemma {:induction false} ShorterFirstIff(a: string, b: string)
    requires |a| < |b|
    ensures Less(a, b) <==> !Less(b[..|a|], a)
  {
    if a != "" {
      ShorterFirstIff(a[1..], b[1..]);
      assert b[1..][..|a| - 1] == b[..|a|][1..];
      LessTotal(a, b[..|a|]);
    }
  }

  function Pow10(n: nat): nat {
    if n == 0 then 1 else 10 * Pow10(n - 1)
  }

  lemma {:induction false} Pow10Monotone(m: nat, n: nat)
    requires m <= n
    ensures Pow10(m) <= Pow10(n)
  {
    if m < n { Pow10Monotone(m, n - 1); }
  }

  /** A decimal numeral as strconv writes it: no leading zero unless it is "0". */
  predicate Canonical(s: string) {
    Decimal(s) && s != "" && (s[0] == '0' ==> |s| == 1)
  }

  lemma {:induction false} NumeralBelow(s: string)
    requires Decimal(s)
    ensures Numeral(s) < Pow10(|s|)
  {
    if s != "" { NumeralBelow(s[..|s| - 1]); }
  }

  lemma {:induction false} NumeralFrom(s: string)
    requires Decimal(s) && s != "" && s[0] != '0'
    ensures Numeral(s) >= Pow10(|s| - 1)
  {
    if |s| > 1 {
      NumeralFrom(s[..|s| - 1]);
    } else {
      assert Numeral(s[..0]) == 0;
    }
  }

  lemma {:induction false} LongerIsGreater(a: string, b: string)
    requires Canonical(a) && Canonical(b) && |a| < |b|
    ensures Numeral(a) < Numeral(b)
  {
    NumeralBelow(a);
    NumeralFrom(b);
    Pow10Monotone(|a|, |b| - 1);
  }

  /** The order of ids is the order of the readings if and only if the ids have equal length or the
      shorter one does not exceed the front of the longer one. */
  lemma {:induction false} IdOrderIsRightIff(a: string, b: string)
    requires Canonical(a) && Canonical(b) && |a| <= |b|
    ensures (Less(a, b) <==> Numeral(a) < Numeral(b)) <==> |a| == |b| || !Less(b[..|a|], a)
    ensures (Less(b, a) <==> Numeral(b) < Numeral(a)) <==> |a| == |b| || !Less(b[..|a|], a)
  {
    if |a| == |b| {
      DecimalOrder(a, b);
      DecimalOrder(b, a);
    } else {
      LongerIsGreater(a, b);
      ShorterFirstIff(a, b);
      LessTotal(a, b);
      if Less(a, b) && Less(b, a) { LessTransitive(a, b, a); LessIrreflexive(a); }
    }
  }

  lemma {:induction false} Pow10Values()
    ensures Pow10(18) == 1_000_000_000_000_000_000 && Pow10(19) == 10_000_000_000_000_000_000
  {
    assert Pow10(4) == 10_000;
    assert Pow10(8) == 100_000_000;
    assert Pow10(12) == 1_000_000_000_000;
    assert Pow10(16) == 10_000_000_000_000_000;
  }

  /** Nanosecond readings from 10^18 to below 10^19, the years 2001 to 2286, have ids of one length. */
  lemma {:induction false} ClockIdsHaveOneLength(s: string)
    requires Canonical(s) && 1_000_000_000_000_000_000 <= Numeral(s) < 10_000_000_000_000_000_000
    ensures |s| == 19
  {
    Pow10Values();
    NumeralBelow(s);
    if |s| < 19 { Pow10Monotone(|s|, 18); }
    if |s| > 19 {
      NumeralFrom(s);
      Pow10Monotone(19, |s| - 1);
    }
  }

  /** A pair in the wrong order: the reading 1000 sorts before the reading 999. */
  lemma {:induction false} ShorterIdOutranks()
    ensures Canonical("999") && Canonical("1000") && Less("1000", "999") && Numeral("999") < Numeral("1000")
  {
    LongerIsGreater("999", "1000");
  }

  // ---------------------------------------------------------------- retention

  function Larger(h: Entries, id: string): set<string> {
    set j | j in h && Less(id, j)
  }

  /** Only the `limit` largest ids stay. */
  function Retained(h: Entries, limit: nat): Entries {
    map id | id in h && |Larger(h, id)| < limit :: h[id]
  }

  /** Save with a positive limit. */
  function Save(h: Entries, e: HistoryEntry, limit: nat): Entries {
    Retained(h[e.id := e], limit)
  }

  /** Newest first, every id once. */
  ghost predicate Listed(h: Entries, ids: seq<string>) {
    && (forall id :: id in h <==> id in ids)
    && (forall i, j :: 0 <= i < j < |ids| ==> Less(ids[j], ids[i]))
  }

  lemma {:induction false} ListedDistinct(h: Entries, ids: seq<string>, i: nat, j: nat)
    requires Listed(h, ids) && i < |ids| && j < |ids| && ids[i] == ids[j]
    ensures i == j
  {
    LessIrreflexive(ids[i]);
  }

  lemma {:induction false} DistinctCount(ids: seq<string>, n: nat)
    requires n <= |ids| && forall i, j :: 0 <= i < j < |ids| ==> ids[i] != ids[j]
    ensures |set i | 0 <= i < n :: ids[i]| == n
  {
    if n > 0 {
      DistinctCount(ids, n - 1);
      var front := set i | 0 <= i < n - 1 :: ids[i];
      assert (set i | 0 <= i < n :: ids[i]) == front + {ids[n - 1]};
    }
  }

  /** The position in the newest-first list is the number of larger ids. */
  lemma {:induction false} PositionIsRank(h: Entries, ids: seq<string>, k: nat)
    requires Listed(h, ids) && k < |ids|
    ensures |Larger(h, ids[k])| == k
  {
    var front := set i | 0 <= i < k :: ids[i];
    forall j | j in Larger(h, ids[k]) ensures j in front {
      var i :| 0 <= i < |ids| && ids[i] == j;
      LessIrreflexive(j);
      if i > k { LessTransitive(ids[i], ids[k], j); }
    }
    assert Larger(h, ids[k]) == front;
    forall i, j | 0 <= i < j < |ids| ensures ids[i] != ids[j] {
      LessIrreflexive(ids[i]);
    }
    DistinctCount(ids, k);
  }

  method InsertId(ids: seq<string>, id: string, ghost h: Entries) returns (r: seq<string>)
    requires Listed(h, ids) && id !in h
    ensures forall x :: x in r <==> x in h || x == id
    ensures forall i, j :: 0 <= i < j < |r| ==> Less(r[j], r[i])
  {
    var k := 0;
    while k < |ids| && Less(id, ids[k])
      invariant k <= |ids|
      invariant forall i :: 0 <= i < k ==> Less(id, ids[i])
    {
      k := k + 1;
    }
    if k < |ids| { LessTotal(id, ids[k]); }
    forall j | k <= j < |ids| ensures Less(ids[j], id) {
      if j > k { LessTransitive(ids[j], ids[k], id); }
    }
    r := ids[..k] + [id] + ids[k..];
    assert forall x :: x in r <==> x in ids[..k] || x == id || x in ids[k..];
    assert ids == ids[..k] + ids[k..];
  }

  /** List(0): every id, sorted newest first. */
  method List(h: Entries) returns (ids: seq<string>)
    ensures Listed(h, ids)
  {
    ids := [];
    var done: Entries := map[];
    var todo := h.Keys;
    while todo != {}
      invariant todo <= h.Keys && done.Keys == h.Keys - todo && Listed(done, ids)
    {
      var id :| id in todo;
      ids := InsertId(ids, id, done);
      done := done[id := h[id]];
      todo := todo - {id};
    }
  }

  /** Save puts the entry, lists, and deletes everything past the limit. */
  method SaveEntry(h: Entries, e: HistoryEntry, limit: nat) returns (r: Entries)
    requires limit > 0
    ensures r == Save(h, e, limit)
  {
    var all := h[e.id := e];
    r := all;
    var ids := List(all);
    for k := 0 to |ids|
      invariant forall id :: id in r <==> id in all && forall i :: limit <= i < k ==> ids[i] != id
      invariant forall id :: id in r ==> r[id] == all[id]
    {
      if k >= limit {
        r := r - {ids[k]};
      }
    }
    forall id | id in all ensures (forall i :: limit <= i < |ids| ==> ids[i] != id) <==> |Larger(all, id)| < limit {
      KeptIffRank(all, ids, limit, id);
    }
    assert r == Save(h, e, limit);
  }

  lemma {:induction false} KeptIffRank(all: Entries, ids: seq<string>, limit: nat, id: string)
    requires Listed(all, ids) && id in all
    ensures (forall i :: limit <= i < |ids| ==> ids[i] != id) <==> |Larger(all, id)| < limit
  {
    var k :| 0 <= k < |ids| && ids[k] == id;
    PositionIsRank(all, ids, k);
    forall i | 0 <= i < |ids| && ids[i] == id ensures i == k {
      ListedDistinct(all, ids, i, k);
    }
  }

  // ---------------------------------------------------------------- survival

  function SaveAll(h: Entries, es: seq<HistoryEntry>, limit: nat): Entries {
    if es == [] then h else Save(SaveAll(h, es[..|es| - 1], limit), es[|es| - 1], limit)
  }

  predicate Increasing(es: seq<HistoryEntry>) {
    forall i, j :: 0 <= i < j < |es| ==> Less(es[i].id, es[j].id)
  }

  function Ids(es: seq<HistoryEntry>): set<string> {
    set i | 0 <= i < |es| :: es[i].id
  }

  /** Nothing in the history is newer than the entry. */
  predicate Newest(h: Entries, e: HistoryEntry) {
    forall id :: id in h ==> Less(id, e.id)
  }

  lemma {:induction false} IdsCount(es: seq<HistoryEntry>)
    requires Increasing(es)
    ensures |Ids(es)| == |es|
  {
    if es != [] {
      var front, last := es[..|es| - 1], es[|es| - 1];
      IdsCount(front);
      assert Ids(es) == Ids(front) + {last.id};
      forall i | 0 <= i < |front| ensures front[i].id != last.id {
        LessIrreflexive(last.id);
        assert Less(es[i].id, last.id);
      }
    }
  }

  /** Every id in the history after the saves was there before or was saved. */
  lemma {:induction false} SavedIds(h: Entries, es: seq<HistoryEntry>, limit: nat, id: string)
    requires id in SaveAll(h, es, limit)
    ensures id in h || id in Ids(es)
  {
    if es != [] {
      var front, last := es[..|es| - 1], es[|es| - 1];
      if id != last.id {
        SavedIds(h, front, limit, id);
        assert Ids(front) <= Ids(es) by {
          forall i | 0 <= i < |front| ensures front[i].id in Ids(es) { assert es[i].id == front[i].id; }
        }
      }
    }
  }

  /** After es = [first, ...] with increasing ids on a history without newer entries, the ids
      larger than that of es[k] are among those saved after it. */
  lemma {:induction false} LargerAreLater(h: Entries, es: seq<HistoryEntry>, limit: nat, k: nat)
    requires es != [] && Increasing(es) && Newest(h, es[0]) && k < |es|
    ensures Larger(SaveAll(h, es, limit), es[k].id) <= Ids(es[k + 1..])
  {
    forall j | j in Larger(SaveAll(h, es, limit), es[k].id) ensures j in Ids(es[k + 1..]) {
      SavedIds(h, es, limit, j);
      LessIrreflexive(j);
      if j in h {
        assert Less(j, es[0].id);
        if k > 0 { LessTransitive(j, es[0].id, es[k].id); }
        LessTransitive(j, es[k].id, j);
      } else {
        var i :| 0 <= i < |es| && es[i].id == j;
        if i < k { LessTransitive(j, es[k].id, j); }
        assert es[k + 1..][i - (k + 1)].id == j;
      }
    }
  }

  lemma {:induction false} SubsetCount<T>(a: set<T>, b: set<T>)
    requires a <= b
    ensures |a| <= |b|
  {
    assert b == a + (b - a);
  }

  /** The k-th of the saved entries is still there while fewer than `limit` were saved after it. */
  lemma {:induction false} RecentAreKept(h: Entries, es: seq<HistoryEntry>, limit: nat, k: nat)
    requires es != [] && Increasing(es) && Newest(h, es[0]) && k < |es| && |es| - 1 - k < limit
    ensures es[k].id in SaveAll(h, es, limit) && SaveAll(h, es, limit)[es[k].id] == es[k]
  {
    var front, last := es[..|es| - 1], es[|es| - 1];
    var prior := SaveAll(h, front, limit);
    var m := prior[last.id := last];
    var id := es[k].id;
    if k < |front| {
      assert front[k] == es[k] && front[0] == es[0];
      RecentAreKept(h, front, limit, k);
      LargerAreLater(h, front, limit, k);
      LessIrreflexive(last.id);
      assert id != last.id;
      var later := front[k + 1..];
      IdsCount(later);
      OneMoreLarger(prior, last, id, Ids(later));
    } else {
      LastHasNoLarger(h, es, limit);
    }
  }

  lemma {:induction false} OneMoreLarger(prior: Entries, last: HistoryEntry, id: string, later: set<string>)
    requires Larger(prior, id) <= later
    ensures |Larger(prior[last.id := last], id)| <= |later| + 1
  {
    assert Larger(prior[last.id := last], id) <= later + {last.id};
    SubsetCount(Larger(prior[last.id := last], id), later + {last.id});
  }

  lemma {:induction false} LastHasNoLarger(h: Entries, es: seq<HistoryEntry>, limit: nat)
    requires es != [] && Increasing(es) && Newest(h, es[0])
    ensures var front, last := es[..|es| - 1], es[|es| - 1];
            Larger(SaveAll(h, front, limit)[last.id := last], last.id) == {}
  {
    var front, last := es[..|es| - 1], es[|es| - 1];
    forall j | j in SaveAll(h, front, limit) ensures !Less(last.id, j) {
      SavedIds(h, front, limit, j);
      PriorIsOlder(h, es, j);
    }
    LessIrreflexive(last.id);
  }

  lemma {:induction false} PriorIsOlder(h: Entries, es: seq<HistoryEntry>, j: string)
    requires es != [] && Increasing(es) && Newest(h, es[0])
    requires j in h || j in Ids(es[..|es| - 1])
    ensures Less(j, es[|es| - 1].id) && !Less(es[|es| - 1].id, j)
  {
    var last := es[|es| - 1].id;
    if j in h {
      if |es| > 1 { LessTransitive(j, es[0].id, last); }
    } else {
      var i :| 0 <= i < |es| - 1 && es[..|es| - 1][i].id == j;
      assert Less(es[i].id, last);
    }
    LessIrreflexive(j);
    if Less(last, j) { LessTransitive(j, last, j); }
  }

  /** It is gone once `limit` more have been saved. */
  lemma {:induction false} OldAreDropped(h: Entries, es: seq<HistoryEntry>, limit: nat, k: nat)
    requires es != [] && Increasing(es) && Newest(h, es[0]) && k < |es| && |es| - 1 - k >= limit > 0
    ensures es[k].id !in SaveAll(h, es, limit)
  {
    var front, last := es[..|es| - 1], es[|es| - 1];
    var prior := SaveAll(h, front, limit);
    var m := prior[last.id := last];
    var id := es[k].id;
    assert front[k] == es[k] && front[0] == es[0];
    LessIrreflexive(last.id);
    assert id != last.id;
    if |front| - 1 - k >= limit {
      OldAreDropped(h, front, limit, k);
    } else {
      var later := es[k + 1..];
      forall j | j in Ids(later) ensures j in Larger(m, id) {
        var i :| 0 <= i < |later| && later[i].id == j;
        assert later[i] == es[k + 1 + i];
        assert Less(id, j);
        if k + 1 + i < |front| {
          assert front[k + 1 + i] == es[k + 1 + i];
          RecentAreKept(h, front, limit, k + 1 + i);
        }
      }
      IdsCount(later);
      SubsetCount(Ids(later), Larger(m, id));
    }
  }

  /** Retention: with strictly increasing ids, a saved entry is found again, unchanged, if and only
      if fewer than `limit` entries have been saved after it. */
  lemma {:induction false} EntrySurvivesIff(h: Entries, e: HistoryEntry, later: seq<HistoryEntry>, limit: nat)
    requires limit > 0 && Newest(h, e) && Increasing([e] + later)
    ensures e.id in SaveAll(h, [e] + later, limit) <==> |later| < limit
    ensures |later| < limit ==> SaveAll(h, [e] + later, limit)[e.id] == e
  {
    var es := [e] + later;
    if |later| < limit {
      RecentAreKept(h, es, limit, 0);
    } else {
      OldAreDropped(h, es, limit, 0);
    }
  }
}
