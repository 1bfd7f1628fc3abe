/**
 ApplyBundleWithOptions and ExportBundleWithOptions of internal/controlplane/filebundle.go, with
 their loops over kinds, ids and listed resources.  The source sorts the ids of a group; here they
 are taken in an arbitrary order, and the results do not depend on it.
 */
module BundleApply {
  import opened Json
  import opened ControlPlane

  /** A write looks at nothing in the store but its own key. */
  lemma {:induction false} NormalizeIsLocal(s: Store, s': Store, key: Key, body: Raw, now: int)
    requires Get(s, key) == Get(s', key)
    ensures Normalize(s, key, body, now) == Normalize(s', key, body, now)
  {
  }

  predicate GoodEntry(group: map<string, Raw>, id: string)
    requires id in group
  {
    id != "" && DecodeObject(group[id]).Some?
  }

  /** The Put loop over one group; it stops at the first entry that fails. */
  method PutGroup(s: Store, kind: Kind, group: map<string, Raw>) returns (r: Store, ok: bool, count: nat)
    requires !kind.Unsupported?
    ensures WellFormed(s) ==> (ok <==> forall id :: id in group ==> GoodEntry(group, id))
    ensures ok ==> count == |group|
    ensures ok ==> forall id :: id in group ==> (kind, id) in r && Written(s, (kind, id), group[id], r[(kind, id)])
    ensures forall key: Key :: key.0 != kind || key.1 !in group ==> Get(r, key) == Get(s, key)
    ensures forall id :: id in group && Get(r, (kind, id)) != Get(s, (kind, id)) ==>
              id != "" && (kind, id) in r && Written(s, (kind, id), group[id], r[(kind, id)])
  {
    r, count := s, 0;
    var todo := group.Keys;
    while todo != {}
      invariant todo <= group.Keys && count == |group.Keys| - |todo|
      invariant forall id :: id in group && id !in todo ==> id != "" && DecodeObject(group[id]).Some?
      invariant forall id :: id in group && id !in todo ==>
                  (kind, id) in r && Written(s, (kind, id), group[id], r[(kind, id)])
      invariant forall key: Key :: key.0 != kind || key.1 !in group || key.1 in todo ==> Get(r, key) == Get(s, key)
    {
      var id :| id in todo;
      var now: int := *;
      var key := (kind, id);
      NormalizeIsLocal(s, r, key, group[id], now);
      var next := Put(r, key, group[id], now);
      if next.None? {
        if WellFormed(s) { NormalizeOk(s, key, group[id], now); }
        return r, false, count;
      }
      assert Normalize(s, key, group[id], now) == Some(next.value[key].members);
      r := next.value;
      count := count + 1;
      todo := todo - {id};
    }
    assert |group.Keys| == |group|;
    ok := true;
  }

  /** The ids that the prune loop deletes for a listed resource. */
  lemma {:induction false} ListedId(s: Store, item: Key, show: Value -> string)
    requires WellFormed(s) && item in s
    ensures ExtractId(Text(s[item]), show) == Some(item.1) && item.1 != "" && !item.0.Unsupported?
  {
  }

  /** The prune loop: list the kind, delete every id that is not in the group. */
  method PruneGroup(s: Store, kind: Kind, group: map<string, Raw>, show: Value -> string) returns (r: Store)
    requires !kind.Unsupported?
    ensures WellFormed(s) ==> forall key: Key ::
              Get(r, key) == if key.0 == kind && key.1 !in group then None else Get(s, key)
  {
    r := s;
    var items := set key | key in s && key.0 == kind;
    var todo := items;
    while todo != {}
      invariant todo <= items
      invariant WellFormed(s) ==> forall key: Key ::
                  Get(r, key) == if key in items && key.1 !in group && key !in todo then None else Get(s, key)
    {
      var item :| item in todo;
      if WellFormed(s) { ListedId(s, item, show); }
      var existing := ExtractId(Text(s[item]), show);
      if existing.Some? && existing.value != "" && existing.value !in group {
        var next := Delete(r, (kind, existing.value));
        r := next.value;
      }
      todo := todo - {item};
    }
  }

  /** What one kind contributes. */
  predicate KindOk(b: Bundle, kind: Kind) {
    forall id :: id in Group(b, kind) ==> GoodEntry(Group(b, kind), id)
  }

  lemma {:induction false} OrderCoversSupported(kind: Kind)
    ensures kind in APPLY_ORDER <==> !kind.Unsupported?
  {
    match kind
    case Upstreams => assert APPLY_ORDER[0] == kind;
    case Services => assert APPLY_ORDER[1] == kind;
    case PluginConfigs => assert APPLY_ORDER[2] == kind;
    case GlobalRules => assert APPLY_ORDER[3] == kind;
    case Routes => assert APPLY_ORDER[4] == kind;
    case Unsupported(_) =>
  }

  /** Writes and prunes one kind. */
  method ApplyKind(s: Store, b: Bundle, prune: set<Kind>, kind: Kind, show: Value -> string)
    returns (r: Store, ok: bool, count: nat)
    requires !kind.Unsupported?
    ensures WellFormed(s) ==> (ok <==> KindOk(b, kind))
    ensures WellFormed(s) ==> forall key: Key :: key.0 == kind ==> KeyTouched(s, r, b, prune, key)
    ensures WellFormed(s) && ok ==> forall key: Key :: key.0 == kind ==> KeyApplied(s, r, b, prune, key)
    ensures WellFormed(s) ==> forall key: Key :: key.0 != kind ==> Get(r, key) == Get(s, key)
    ensures WellFormed(s) && ok ==> count == |Group(b, kind)|
  {
    var group := Group(b, kind);
    var put;
    put, ok, count := PutGroup(s, kind, group);
    r := put;
    if ok && kind in prune {
      if WellFormed(s) {
        forall key | key in put ensures WellFormedBody(key, put[key]) {
          if key.0 == kind && key.1 in group {
            assert key == (kind, key.1);
            WrittenIsWellFormed(s, key, group[key.1], put[key]);
          } else {
            assert Get(put, key) == Get(s, key);
          }
        }
      }
      r := PruneGroup(put, kind, group, show);
    }
    if WellFormed(s) {
      forall key: Key | key.0 == kind
        ensures KeyTouched(s, r, b, prune, key) && (ok ==> KeyApplied(s, r, b, prune, key))
      {
        assert key == (kind, key.1);
        assert WellFormed(put) || !(ok && kind in prune);
      }
    }
  }

  lemma {:induction false} WrittenIsLocal(s: Store, s': Store, key: Key, body: Raw, v: Value)
    requires Get(s, key) == Get(s', key) && Written(s, key, body, v)
    ensures Written(s', key, body, v)
  {
    var now: int :| Normalize(s, key, body, now) == Some(v.members);
    NormalizeIsLocal(s, s', key, body, now);
  }

  /** What apply means for a key depends on that key only. */
  lemma {:induction false} AppliedIsLocal(s: Store, r: Store, s': Store, r': Store, b: Bundle, prune: set<Kind>,
                                          key: Key)
    requires Get(s, key) == Get(s', key) && Get(r, key) == Get(r', key)
    ensures KeyApplied(s, r, b, prune, key) ==> KeyApplied(s', r', b, prune, key)
    ensures KeyTouched(s, r, b, prune, key) ==> KeyTouched(s', r', b, prune, key)
  {
    if InBundle(b, key) && key in r && Written(s, key, Group(b, key.0)[key.1], r[key]) {
      WrittenIsLocal(s, s', key, Group(b, key.0)[key.1], r[key]);
    }
  }

  /** The kinds in `done` have been applied, the others not yet. */
  ghost predicate Progress(s: Store, r: Store, b: Bundle, prune: set<Kind>, done: seq<Kind>) {
    forall key: Key ::
      if key.0 in done then KeyTouched(s, r, b, prune, key) && KeyApplied(s, r, b, prune, key)
      else Get(r, key) == Get(s, key)
  }

  lemma {:induction false} ProgressTouched(s: Store, r: Store, r': Store, b: Bundle, prune: set<Kind>,
                                           done: seq<Kind>, kind: Kind)
    requires Progress(s, r, b, prune, done) && kind !in done
    requires forall key: Key :: key.0 == kind ==> KeyTouched(r, r', b, prune, key)
    requires forall key: Key :: key.0 != kind ==> Get(r', key) == Get(r, key)
    ensures Touched(s, r', b, prune)
  {
    forall key: Key ensures KeyTouched(s, r', b, prune, key) {
      if key.0 == kind {
        AppliedIsLocal(r, r', s, r', b, prune, key);
      } else {
        AppliedIsLocal(s, r, s, r', b, prune, key);
      }
    }
  }

  lemma {:induction false} ProgressStep(s: Store, r: Store, r': Store, b: Bundle, prune: set<Kind>, done: seq<Kind>,
                                        kind: Kind)
    requires Progress(s, r, b, prune, done) && kind !in done
    requires forall key: Key :: key.0 == kind ==> KeyTouched(r, r', b, prune, key) && KeyApplied(r, r', b, prune, key)
    requires forall key: Key :: key.0 != kind ==> Get(r', key) == Get(r, key)
    ensures Progress(s, r', b, prune, done + [kind])
  {
    forall key: Key
      ensures if key.0 in done + [kind] then KeyTouched(s, r', b, prune, key) && KeyApplied(s, r', b, prune, key)
              else Get(r', key) == Get(s, key)
    {
      if key.0 == kind {
        AppliedIsLocal(r, r', s, r', b, prune, key);
      } else {
        AppliedIsLocal(s, r, s, r', b, prune, key);
      }
    }
  }

  lemma {:induction false} ProgressDone(s: Store, r: Store, b: Bundle, prune: set<Kind>)
    requires Progress(s, r, b, prune, APPLY_ORDER)
    ensures Touched(s, r, b, prune) && Applied(s, r, b, prune)
  {
    forall key: Key ensures KeyTouched(s, r, b, prune, key) && KeyApplied(s, r, b, prune, key) {
      OrderCoversSupported(key.0);
    }
  }

  lemma {:induction false} AllKindsOk(b: Bundle)
    ensures Applicable(b) <==> forall kind :: kind in APPLY_ORDER ==> KindOk(b, kind)
  {
    forall kind, id | id in Group(b, kind) ensures kind in APPLY_ORDER {
      OrderCoversSupported(kind);
    }
  }

  /** What a kind may refer to comes before it. */
  function Rank(kind: Kind): nat {
    match kind
    case Upstreams => 0
    case Services => 1
    case PluginConfigs => 2
    case GlobalRules => 3
    case Routes => 4
    case Unsupported(_) => 5
  }

  lemma {:induction false} RankMeaning(i: nat, kind: Kind)
    requires i <= |APPLY_ORDER|
    ensures kind in APPLY_ORDER[..i] <==> Rank(kind) < i
    ensures i < |APPLY_ORDER| ==> Rank(APPLY_ORDER[i]) == i
  {
    if Rank(kind) < i { assert APPLY_ORDER[..i][Rank(kind)] == kind; }
  }

  /** An apply that stopped at a kind that is not in order: what comes before the kind has been applied,
      and what comes after it is as it was. */
  ghost predicate StoppedAt(s: Store, r: Store, b: Bundle, prune: set<Kind>, at: Kind) {
    && !KindOk(b, at)
    && (forall key: Key :: Rank(key.0) < Rank(at) ==> KeyApplied(s, r, b, prune, key))
    && (forall key: Key :: Rank(key.0) > Rank(at) ==> Get(r, key) == Get(s, key))
  }

  lemma {:induction false} Stops(s: Store, before: Store, r: Store, b: Bundle, prune: set<Kind>, i: nat)
    requires i < |APPLY_ORDER| && Progress(s, before, b, prune, APPLY_ORDER[..i]) && !KindOk(b, APPLY_ORDER[i])
    requires forall key: Key :: key.0 != APPLY_ORDER[i] ==> Get(r, key) == Get(before, key)
    ensures StoppedAt(s, r, b, prune, APPLY_ORDER[i])
  {
    forall key: Key
      ensures Rank(key.0) < i ==> KeyApplied(s, r, b, prune, key)
      ensures Rank(key.0) > i ==> Get(r, key) == Get(s, key)
    {
      RankMeaning(i, key.0);
      if Rank(key.0) < i { AppliedIsLocal(s, before, s, r, b, prune, key); }
    }
  }

  /** What is gone after an apply: what the bundle does not name in the kinds that are pruned. */
  lemma {:induction false} DeletedIff(s: Store, r: Store, b: Bundle, o: PruneOptions)
    requires WellFormed(s) && Applied(s, r, b, PruneKinds(b, o))
    ensures forall key :: key in s ==>
              (key !in r <==> Pruned(b, o, key.0) && (key.0 in b.resources ==> key.1 !in b.resources[key.0]))
  {
    forall key | key in s
      ensures key !in r <==> Pruned(b, o, key.0) && (key.0 in b.resources ==> key.1 !in b.resources[key.0])
    {
      assert WellFormedBody(key, s[key]) && KeyApplied(s, r, b, PruneKinds(b, o), key);
      PruneFrame(b, o, key.0);
    }
  }

  /** ApplyBundleWithOptions.  On a well-formed store it succeeds exactly on bundles with non-empty
      ids and decodable bodies; then every key of the bundle has been written, every other key of a
      pruned kind deleted, nothing else touched, and Counts is the size of each group.  A failed
      apply has written part of the bundle and touched nothing that the bundle does not name or
      prune. */
  method ApplyBundle(s: Store, b: Bundle, o: PruneOptions, show: Value -> string)
    returns (r: Store, ok: bool, counts: map<Kind, nat>)
    ensures WellFormed(s) ==> (ok <==> Applicable(b))
    ensures WellFormed(s) ==> Touched(s, r, b, PruneKinds(b, o)) && WellFormed(r)
    ensures WellFormed(s) && ok ==> Applied(s, r, b, PruneKinds(b, o))
    ensures WellFormed(s) && ok ==> forall key :: key in s ==>
              (key !in r <==> Pruned(b, o, key.0) && (key.0 in b.resources ==> key.1 !in b.resources[key.0]))
    ensures WellFormed(s) && !ok ==> exists at :: StoppedAt(s, r, b, PruneKinds(b, o), at)
    ensures WellFormed(s) && ok ==> forall kind: Kind ::
              (kind in counts <==> Group(b, kind) != map[]) && (kind in counts ==> counts[kind] == |Group(b, kind)|)
  {
    r, counts := s, map[];
    var prune := PruneKinds(b, o);
    AllKindsOk(b);
    for i := 0 to |APPLY_ORDER|
      invariant WellFormed(s) ==> WellFormed(r) && Progress(s, r, b, prune, APPLY_ORDER[..i])
      invariant WellFormed(s) ==> forall kind :: kind in APPLY_ORDER[..i] ==> KindOk(b, kind)
      invariant WellFormed(s) ==> forall kind: Kind ::
                  (kind in counts <==> kind in APPLY_ORDER[..i] && Group(b, kind) != map[]) &&
                  (kind in counts ==> counts[kind] == |Group(b, kind)|)
    {
      var kind := APPLY_ORDER[i];
      OrderCoversSupported(kind);
      assert APPLY_ORDER[..i + 1] == APPLY_ORDER[..i] + [kind];
      ghost var before := r;
      var count := 0;
      if kind in b.resources || kind in prune {
        r, ok, count := ApplyKind(r, b, prune, kind, show);
        if !ok {
          if WellFormed(s) {
            ProgressTouched(s, before, r, b, prune, APPLY_ORDER[..i], kind);
            TouchedIsWellFormed(s, r, b, prune);
            Stops(s, before, r, b, prune, i);
          }
          return;
        }
        if count > 0 { counts := counts[kind := count]; }
      }
      if WellFormed(s) {
        ProgressTouched(s, before, r, b, prune, APPLY_ORDER[..i], kind);
        TouchedIsWellFormed(s, r, b, prune);
        ProgressStep(s, before, r, b, prune, APPLY_ORDER[..i], kind);
      }
    }
    assert APPLY_ORDER[..|APPLY_ORDER|] == APPLY_ORDER;
    if WellFormed(s) {
      ProgressDone(s, r, b, prune);
      DeletedIff(s, r, b, o);
      forall kind ensures kind in APPLY_ORDER <==> !kind.Unsupported? { OrderCoversSupported(kind); }
    }
    ok := true;
  }

  // ---------------------------------------------------------------- export

  /** The inner loop of ExportBundleWithOptions: one kind, keyed by the ids found in the bodies. */
  method ExportKind(s: Store, kind: Kind, show: Value -> string) returns (group: map<string, Raw>)
    ensures WellFormed(s) ==> forall id :: id in group <==> (kind, id) in s
    ensures WellFormed(s) ==> forall id :: id in group ==> group[id] == Text(s[(kind, id)])
  {
    group := map[];
    var items := set key | key in s && key.0 == kind;
    var todo := items;
    while todo != {}
      invariant todo <= items
      invariant WellFormed(s) ==> forall id :: id in group <==> (kind, id) in s && (kind, id) !in todo
      invariant WellFormed(s) ==> forall id :: id in group ==> group[id] == Text(s[(kind, id)])
    {
      var item :| item in todo;
      var id := ExtractId(Text(s[item]), show);
      if id.Some? && id.value != "" {
        group := group[id.value := Text(s[item])];
      }
      todo := todo - {item};
    }
  }

  /** ExportBundleWithOptions with IncludeMeta; it fails exactly when an unsupported kind is asked for. */
  method ExportBundle(s: Store, include_: set<Kind>, show: Value -> string) returns (ok: bool, b: Bundle)
    ensures ok <==> Selection(include_) <= SUPPORTED
    ensures ok && WellFormed(s) ==> Exported(s, Selection(include_), b)
  {
    var kinds := Selection(include_);
    b := Bundle(map[], kinds);
    var todo := kinds;
    while todo != {}
      invariant todo <= kinds && b.managed == kinds && kinds - todo <= SUPPORTED
      invariant WellFormed(s) ==> forall kind :: kind in b.resources <==>
                  kind in kinds && kind !in todo && exists id :: (kind, id) in s
      invariant WellFormed(s) ==> forall kind, id :: kind in b.resources ==>
                  (id in b.resources[kind] <==> (kind, id) in s) &&
                  (id in b.resources[kind] ==> b.resources[kind][id] == Text(s[(kind, id)]))
    {
      var kind :| kind in todo;
      if kind.Unsupported? { return false, b; }
      var group := ExportKind(s, kind, show);
      if group != map[] {
        var id :| id in group;
        b := b.(resources := b.resources[kind := group]);
      }
      todo := todo - {kind};
    }
    ok := true;
  }
}
