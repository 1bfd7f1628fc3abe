/**
 BuildApplyPlan of internal/controlplane/preview.go: what applying a bundle would change.  The plan
 is proved to be the difference between the stores before and after applying, up to timestamps.
 */
module Preview {
  import opened Json
  import opened ControlPlane
  import opened BundleApply

  datatype Action = Create | Update | Remove | Unchanged

  datatype Change = Change(key: Key, action: Action, before: Option<Value>, after: Option<Members>)

  datatype Summary = Summary(create: nat, update: nat, remove: nat, same: nat)

  /** previewComparableValue: the body without its timestamps. */
  function Content(m: Members): Members {
    m - {"create_time", "update_time"}
  }

  /** semanticResourceEqual. */
  predicate SameContent(v: Value, m: Members) {
    DecodeObject(Text(v)).Some? && Content(DecodeObject(Text(v)).value) == Content(m)
  }

  /** What the plan says about one key; None is no entry. */
  function PlanAction(s: Store, b: Bundle, prune: set<Kind>, key: Key): Option<Action> {
    if InBundle(b, key) then
      var after := WithId(Group(b, key.0)[key.1], key.1);
      if key !in s then Some(Create)
      else if after.Some? && SameContent(s[key], after.value) then Some(Unchanged)
      else Some(Update)
    else if key in s && key.0 in prune && !key.0.Unsupported? then Some(Remove)
    else None
  }

  // ---------------------------------------------------------------- the plan is the difference

  predicate Timestamp(name: string) {
    name == "create_time" || name == "update_time"
  }

  /** Objects that differ in timestamps only. */
  ghost predicate SameButTimes(v: Value, w: Value) {
    v.Object? && w.Object? &&
    forall name :: !Timestamp(name) ==> Look(v.members, name) == Look(w.members, name)
  }

  /** The difference between two stores at a key, up to timestamps. */
  ghost function Diff(before: Option<Value>, after: Option<Value>): Option<Action> {
    match (before, after)
    case (None, None) => None
    case (None, Some(_)) => Some(Create)
    case (Some(_), None) => Some(Remove)
    case (Some(v), Some(w)) => if v == w || SameButTimes(v, w) then None else Some(Update)
  }

  /** The comparison of contents sees every member but the timestamps. */
  lemma {:induction false} SameContentIff(m: Members, n: Members)
    ensures SameContent(Object(m), n) <==> SameButTimes(Object(m), Object(n))
  {
    forall name | !Timestamp(name)
      ensures Look(Content(m), name) == Look(m, name) && Look(Content(n), name) == Look(n, name)
    {
    }
    if SameButTimes(Object(m), Object(n)) {
      forall name ensures Look(Content(m), name) == Look(Content(n), name) {
      }
      Json.SameMembers(Content(m), Content(n));
    }
  }

  /** What a plan has to say about a key, on the members of the stored and the desired body. */
  ghost predicate Planned(s: Store, b: Bundle, o: PruneOptions, key: Key, a: Action) {
    var named := key.0 in b.resources && !key.0.Unsupported? && key.1 in b.resources[key.0];
    match a
    case Create => named && key !in s
    case Remove => !named && key in s && Pruned(b, o, key.0)
    case Update => named && key in s && exists name :: Differs(s[key], b.resources[key.0][key.1], name)
    case Unchanged => named && key in s && forall name :: !Differs(s[key], b.resources[key.0][key.1], name)
  }

  /** The bodies have different members of this name, which is neither the id nor a timestamp. */
  predicate Differs(v: Value, body: Raw, name: string) {
    && !Timestamp(name) && name != "id" && v.Object? && DecodeObject(body).Some?
    && Look(v.members, name) != Look(DecodeObject(body).value, name)
  }

  lemma {:induction false} UnchangedIff(s: Store, key: Key, body: Raw)
    requires WellFormed(s) && key in s && DecodeObject(body).Some?
    ensures SameContent(s[key], WithId(body, key.1).value) <==> forall name :: !Differs(s[key], body, name)
  {
    assert WellFormedBody(key, s[key]);
    var m, n, d := s[key].members, WithId(body, key.1).value, DecodeObject(body).value;
    SameContentIff(m, n);
    assert Look(m, "id") == Look(n, "id");
    forall name | name != "id" ensures Look(n, name) == Look(d, name) {
    }
    if SameButTimes(Object(m), Object(n)) {
      forall name ensures !Differs(s[key], body, name) {
      }
    }
    if forall name :: !Differs(s[key], body, name) {
      forall name | !Timestamp(name) ensures Look(m, name) == Look(n, name) {
        assert !Differs(s[key], body, name);
      }
    }
  }

  /** The plan, on the members of the bodies. */
  lemma {:induction false} PlanMeaning(s: Store, b: Bundle, o: PruneOptions, key: Key, a: Action)
    requires WellFormed(s) && Previewable(b)
    ensures PlanAction(s, b, PruneKinds(b, o), key) == Some(a) <==> Planned(s, b, o, key, a)
  {
    PruneFrame(b, o, key.0);
    if key in s { assert WellFormedBody(key, s[key]); }
    if InBundle(b, key) && key in s { UnchangedIff(s, key, b.resources[key.0][key.1]); }
  }

  lemma {:induction false} WrittenContent(s: Store, key: Key, body: Raw, v: Value)
    requires Written(s, key, body, v)
    ensures WithId(body, key.1).Some? && Content(v.members) == Content(WithId(body, key.1).value)
  {
    var now: int :| Normalize(s, key, body, now) == Some(v.members);
  }

  /** Preview predicts apply: the created, updated and deleted keys of the plan are exactly those in
      which the store after apply differs from the store before, and a key is reported unchanged
      exactly if the bundle names it and its stored content stays the same. */
  lemma {:induction false} PreviewPredictsApply(s: Store, s': Store, b: Bundle, prune: set<Kind>, key: Key)
    requires WellFormed(s) && Applied(s, s', b, prune)
    ensures var plan, diff := PlanAction(s, b, prune, key), Diff(Get(s, key), Get(s', key));
            && (plan == Some(Unchanged) <==> InBundle(b, key) && diff == None)
            && (plan != Some(Unchanged) ==> plan == diff)
    ensures PlanAction(s, b, prune, key).None? ==> Get(s', key) == Get(s, key)
  {
    assert KeyApplied(s, s', b, prune, key);
    if InBundle(b, key) {
      WrittenContent(s, key, Group(b, key.0)[key.1], s'[key]);
      if key in s {
        assert WellFormedBody(key, s[key]);
        SameContentIff(s[key].members, s'[key].members);
      }
    }
  }

  /** After applying, the same plan has nothing left to do. */
  lemma {:induction false} ReplanIsUnchanged(s: Store, s': Store, b: Bundle, prune: set<Kind>, key: Key)
    requires WellFormed(s) && Applicable(b) && Applied(s, s', b, prune)
    ensures PlanAction(s', b, prune, key) == if InBundle(b, key) then Some(Unchanged) else None
  {
    assert KeyApplied(s, s', b, prune, key);
    if InBundle(b, key) {
      WrittenContent(s, key, Group(b, key.0)[key.1], s'[key]);
    }
  }

  // ---------------------------------------------------------------- counting

  function IdsOf(s: Store, kind: Kind): set<string> {
    set key | key in s && key.0 == kind :: key.1
  }

  /** The ids among `ids` that the plan lists with the action. */
  function Having(s: Store, b: Bundle, prune: set<Kind>, kind: Kind, ids: set<string>, a: Action): set<string> {
    set id | id in ids && PlanAction(s, b, prune, (kind, id)) == Some(a)
  }

  function Tally(s: Store, b: Bundle, prune: set<Kind>, kind: Kind, ids: set<string>): Summary {
    Summary(|Having(s, b, prune, kind, ids, Create)|, |Having(s, b, prune, kind, ids, Update)|,
            |Having(s, b, prune, kind, ids, Remove)|, |Having(s, b, prune, kind, ids, Unchanged)|)
  }

  /** All ids that a plan can mention for the kind. */
  function Mentioned(s: Store, b: Bundle, kind: Kind): set<string> {
    Group(b, kind).Keys + IdsOf(s, kind)
  }

  lemma {:induction false} IdsOfHas(s: Store, kind: Kind, id: string)
    ensures id in IdsOf(s, kind) <==> (kind, id) in s
  {
    if (kind, id) in s { var key := (kind, id); assert key in s && key.0 == kind && key.1 == id; }
  }

  lemma {:induction false} PlannedIsMentioned(s: Store, b: Bundle, prune: set<Kind>, kind: Kind, id: string)
    requires PlanAction(s, b, prune, (kind, id)).Some?
    ensures id in Mentioned(s, b, kind)
  {
    IdsOfHas(s, kind, id);
  }

  lemma {:induction false} UnionCount<T>(a: set<T>, b: set<T>)
    requires a !! b
    ensures |a + b| == |a| + |b|
  {
  }

  lemma {:induction false} WrittenActions(s: Store, b: Bundle, prune: set<Kind>, kind: Kind, id: string)
    ensures id in Group(b, kind) <==>
            PlanAction(s, b, prune, (kind, id)) in {Some(Create), Some(Update), Some(Unchanged)}
  {
    assert InBundle(b, (kind, id)) <==> id in Group(b, kind);
  }

  lemma {:induction false} HavingIff(s: Store, b: Bundle, prune: set<Kind>, kind: Kind, id: string, a: Action)
    ensures id in Having(s, b, prune, kind, Mentioned(s, b, kind), a) <==>
            PlanAction(s, b, prune, (kind, id)) == Some(a)
  {
    if PlanAction(s, b, prune, (kind, id)).Some? { PlannedIsMentioned(s, b, prune, kind, id); }
  }

  lemma {:induction false} ThreeParts<T>(all: set<T>, a: set<T>, b: set<T>, c: set<T>)
    requires a !! b && a !! c && b !! c && forall x :: x in all <==> x in a || x in b || x in c
    ensures |all| == |a| + |b| + |c|
  {
    assert all == a + b + c;
    UnionCount(a, b);
    UnionCount(a + b, c);
  }

  /** Counts of an apply are create plus update plus unchanged of its plan. */
  lemma {:induction false} CountsAgree(s: Store, b: Bundle, prune: set<Kind>, kind: Kind)
    ensures var t := Tally(s, b, prune, kind, Mentioned(s, b, kind));
            |Group(b, kind)| == t.create + t.update + t.same
  {
    var all := Mentioned(s, b, kind);
    var c, u, n := Having(s, b, prune, kind, all, Create), Having(s, b, prune, kind, all, Update),
                   Having(s, b, prune, kind, all, Unchanged);
    forall id
      ensures id in Group(b, kind).Keys <==> id in c || id in u || id in n
      ensures !(id in c && id in u) && !(id in c && id in n) && !(id in u && id in n)
    {
      WrittenActions(s, b, prune, kind, id);
      HavingIff(s, b, prune, kind, id, Create);
      HavingIff(s, b, prune, kind, id, Update);
      HavingIff(s, b, prune, kind, id, Unchanged);
    }
    ThreeParts(Group(b, kind).Keys, c, u, n);
    assert |Group(b, kind).Keys| == |Group(b, kind)|;
  }

  lemma {:induction false} SizeOfChange<T>(before: set<T>, after: set<T>, added: set<T>, removed: set<T>)
    requires forall x :: x in added <==> x in after && x !in before
    requires forall x :: x in removed <==> x in before && x !in after
    ensures |after| == |before| + |added| - |removed|
  {
    var both := before * after;
    assert after == both + added && before == both + removed;
    UnionCount(both, added);
    UnionCount(both, removed);
  }

  lemma {:induction false} CreatedAndRemoved(s: Store, s': Store, b: Bundle, prune: set<Kind>, kind: Kind, id: string)
    requires WellFormed(s) && Applied(s, s', b, prune)
    ensures PlanAction(s, b, prune, (kind, id)) == Some(Create) <==> id in IdsOf(s', kind) && id !in IdsOf(s, kind)
    ensures PlanAction(s, b, prune, (kind, id)) == Some(Remove) <==> id in IdsOf(s, kind) && id !in IdsOf(s', kind)
  {
    IdsOfHas(s, kind, id);
    IdsOfHas(s', kind, id);
    PreviewPredictsApply(s, s', b, prune, (kind, id));
  }

  /** The size of a kind after applying is its size before, plus creates, minus deletes. */
  lemma {:induction false} SizeAfterApply(s: Store, s': Store, b: Bundle, prune: set<Kind>, kind: Kind)
    requires WellFormed(s) && Applied(s, s', b, prune)
    ensures var t := Tally(s, b, prune, kind, Mentioned(s, b, kind));
            |IdsOf(s', kind)| == |IdsOf(s, kind)| + t.create - t.remove
  {
    var all := Mentioned(s, b, kind);
    var c, d := Having(s, b, prune, kind, all, Create), Having(s, b, prune, kind, all, Remove);
    forall id
      ensures id in c <==> id in IdsOf(s', kind) && id !in IdsOf(s, kind)
      ensures id in d <==> id in IdsOf(s, kind) && id !in IdsOf(s', kind)
    {
      CreatedAndRemoved(s, s', b, prune, kind, id);
      HavingIff(s, b, prune, kind, id, Create);
      HavingIff(s, b, prune, kind, id, Remove);
    }
    SizeOfChange(IdsOf(s, kind), IdsOf(s', kind), c, d);
  }

  // ---------------------------------------------------------------- BuildApplyPlan

  /** recordSummary. */
  function Record(t: Summary, a: Action): Summary {
    match a
    case Create => t.(create := t.create + 1)
    case Update => t.(update := t.update + 1)
    case Remove => t.(remove := t.remove + 1)
    case Unchanged => t.(same := t.same + 1)
  }

  lemma {:induction false} HavingAdd(s: Store, b: Bundle, prune: set<Kind>, kind: Kind, ids: set<string>, id: string,
                                     a: Action)
    requires id !in ids
    ensures |Having(s, b, prune, kind, ids + {id}, a)| ==
            |Having(s, b, prune, kind, ids, a)| + if PlanAction(s, b, prune, (kind, id)) == Some(a) then 1 else 0
  {
    var before := Having(s, b, prune, kind, ids, a);
    if PlanAction(s, b, prune, (kind, id)) == Some(a) {
      assert Having(s, b, prune, kind, ids + {id}, a) == before + {id};
    } else {
      assert Having(s, b, prune, kind, ids + {id}, a) == before;
    }
  }

  lemma {:induction false} TallyAdd(s: Store, b: Bundle, prune: set<Kind>, kind: Kind, ids: set<string>, id: string)
    requires id !in ids
    ensures var plan := PlanAction(s, b, prune, (kind, id)); var t := Tally(s, b, prune, kind, ids);
            Tally(s, b, prune, kind, ids + {id}) == if plan.Some? then Record(t, plan.value) else t
  {
    HavingAdd(s, b, prune, kind, ids, id, Create);
    HavingAdd(s, b, prune, kind, ids, id, Update);
    HavingAdd(s, b, prune, kind, ids, id, Remove);
    HavingAdd(s, b, prune, kind, ids, id, Unchanged);
  }

  /** A change that the plan has to list: everything but what stays the same, which is optional. */
  predicate Shown(plan: Option<Action>, includeUnchanged: bool) {
    plan.Some? && (plan.value != Unchanged || includeUnchanged)
  }

  predicate ChangeOk(s: Store, b: Bundle, prune: set<Kind>, c: Change) {
    && PlanAction(s, b, prune, c.key) == Some(c.action)
    && c.before == Get(s, c.key)
    && c.after == if InBundle(b, c.key) then WithId(Group(b, c.key.0)[c.key.1], c.key.1) else None
  }

  /** The changes are right, each key has at most one, and the listed keys are exactly `keys`. */
  ghost predicate Lists(s: Store, b: Bundle, prune: set<Kind>, changes: seq<Change>, keys: set<Key>) {
    && (forall i :: 0 <= i < |changes| ==> ChangeOk(s, b, prune, changes[i]) && changes[i].key in keys)
    && (forall i, j :: 0 <= i < j < |changes| ==> changes[i].key != changes[j].key)
    && (forall key :: key in keys ==> exists i :: 0 <= i < |changes| && changes[i].key == key)
  }

  /** The keys that a plan lists for the given ids of a kind. */
  function ShownKeys(s: Store, b: Bundle, prune: set<Kind>, kind: Kind, ids: set<string>, incl: bool): set<Key> {
    set id | id in ids && Shown(PlanAction(s, b, prune, (kind, id)), incl) :: (kind, id)
  }

  lemma {:induction false} ListsAdd(s: Store, b: Bundle, prune: set<Kind>, changes: seq<Change>, keys: set<Key>,
                                    c: Change)
    requires Lists(s, b, prune, changes, keys) && ChangeOk(s, b, prune, c) && c.key !in keys
    ensures Lists(s, b, prune, changes + [c], keys + {c.key})
  {
    var all := changes + [c];
    forall key | key in keys + {c.key} ensures exists i :: 0 <= i < |all| && all[i].key == key {
      if key in keys {
        var i :| 0 <= i < |changes| && changes[i].key == key;
        assert all[i].key == key;
      } else {
        assert all[|changes|].key == key;
      }
    }
  }

  lemma {:induction false} ListsConcat(s: Store, b: Bundle, prune: set<Kind>, xs: seq<Change>, k1: set<Key>,
                                       ys: seq<Change>, k2: set<Key>)
    requires Lists(s, b, prune, xs, k1) && Lists(s, b, prune, ys, k2) && k1 !! k2
    ensures Lists(s, b, prune, xs + ys, k1 + k2)
  {
    var all := xs + ys;
    forall key | key in k1 + k2 ensures exists i :: 0 <= i < |all| && all[i].key == key {
      if key in k1 {
        var i :| 0 <= i < |xs| && xs[i].key == key;
        assert all[i].key == key;
      } else {
        var i :| 0 <= i < |ys| && ys[i].key == key;
        assert all[|xs| + i].key == key;
      }
    }
  }

  lemma {:induction false} ShownAdd(s: Store, b: Bundle, prune: set<Kind>, kind: Kind, ids: set<string>, id: string,
                                    incl: bool)
    ensures ShownKeys(s, b, prune, kind, ids + {id}, incl) ==
            ShownKeys(s, b, prune, kind, ids, incl) +
            if Shown(PlanAction(s, b, prune, (kind, id)), incl) then {(kind, id)} else {}
    ensures id !in ids ==> (kind, id) !in ShownKeys(s, b, prune, kind, ids, incl)
  {
  }

  /** currentByID: the stored bodies of a kind, keyed by the ids found in them. */
  method CurrentById(s: Store, kind: Kind, show: Value -> string) returns (current: map<string, Value>)
    ensures WellFormed(s) ==> current.Keys == IdsOf(s, kind)
    ensures WellFormed(s) ==> forall id :: id in current ==> Get(s, (kind, id)) == Some(current[id])
  {
    var group := ExportKind(s, kind, show);
    current := map id | id in group && group[id].Text? :: group[id].value;
    if WellFormed(s) {
      forall id ensures id in current <==> id in IdsOf(s, kind) { IdsOfHas(s, kind, id); }
    }
  }

  /** The plan of one kind so far, over the ids already looked at. */
  ghost predicate KindPlan(s: Store, b: Bundle, prune: set<Kind>, kind: Kind, incl: bool, done: set<string>,
                           changes: seq<Change>, t: Summary) {
    && t == Tally(s, b, prune, kind, done)
    && Lists(s, b, prune, changes, ShownKeys(s, b, prune, kind, done, incl))
  }

  lemma {:induction false} KindPlanEmpty(s: Store, b: Bundle, prune: set<Kind>, kind: Kind, incl: bool)
    ensures KindPlan(s, b, prune, kind, incl, {}, [], Summary(0, 0, 0, 0))
  {
    assert forall a :: Having(s, b, prune, kind, {}, a) == {};
    assert ShownKeys(s, b, prune, kind, {}, incl) == {};
  }

  lemma {:induction false} KindPlanStep(s: Store, b: Bundle, prune: set<Kind>, kind: Kind, incl: bool,
                                        done: set<string>,
                     changes: seq<Change>, t: Summary, c: Change)
    requires KindPlan(s, b, prune, kind, incl, done, changes, t)
    requires c.key.0 == kind && c.key.1 !in done && ChangeOk(s, b, prune, c)
    ensures KindPlan(s, b, prune, kind, incl, done + {c.key.1},
                     if c.action != Unchanged || incl then changes + [c] else changes, Record(t, c.action))
  {
    var id := c.key.1;
    assert c.key == (kind, id);
    TallyAdd(s, b, prune, kind, done, id);
    ShownAdd(s, b, prune, kind, done, id, incl);
    var shown := ShownKeys(s, b, prune, kind, done, incl);
    if c.action != Unchanged || incl {
      ListsAdd(s, b, prune, changes, shown, c);
    } else {
      assert shown + {} == shown;
    }
  }

  /** The entry for a desired id. */
  method WriteChange(s: Store, b: Bundle, ghost prune: set<Kind>, kind: Kind, current: map<string, Value>, id: string)
    returns (c: Option<Change>)
    requires id in Group(b, kind)
    ensures c.Some? <==> DecodeObject(Group(b, kind)[id]).Some?
    ensures c.Some? ==> c.value.key == (kind, id)
    ensures c.Some? && Get(s, (kind, id)) == (if id in current then Some(current[id]) else None) ==>
              ChangeOk(s, b, prune, c.value)
  {
    var after := WithId(Group(b, kind)[id], id);
    if after.None? { return None; }
    var r := Change((kind, id), Create, None, after);
    if id in current {
      r := r.(before := Some(current[id]),
              action := if SameContent(current[id], after.value) then Unchanged else Update);
    }
    c := Some(r);
  }

  /** The loop over the desired ids of one kind. */
  method PlanWrites(s: Store, b: Bundle, prune: set<Kind>, kind: Kind, current: map<string, Value>, incl: bool)
    returns (ok: bool, changes: seq<Change>, t: Summary)
    requires WellFormed(s) ==> forall id :: Get(s, (kind, id)) == if id in current then Some(current[id]) else None
    ensures ok <==> forall id :: id in Group(b, kind) ==> DecodeObject(Group(b, kind)[id]).Some?
    ensures WellFormed(s) && ok ==> KindPlan(s, b, prune, kind, incl, Group(b, kind).Keys, changes, t)
  {
    var group := Group(b, kind);
    var done: set<string> := {};
    changes, t := [], Summary(0, 0, 0, 0);
    KindPlanEmpty(s, b, prune, kind, incl);
    while group.Keys - done != {}
      invariant done <= group.Keys
      invariant forall id :: id in done ==> DecodeObject(group[id]).Some?
      invariant WellFormed(s) ==> KindPlan(s, b, prune, kind, incl, done, changes, t)
      decreases group.Keys - done
    {
      var id :| id in group.Keys - done;
      var c := WriteChange(s, b, prune, kind, current, id);
      if c.None? { return false, changes, t; }
      if WellFormed(s) { KindPlanStep(s, b, prune, kind, incl, done, changes, t, c.value); }
      if c.value.action != Unchanged || incl { changes := changes + [c.value]; }
      t := Record(t, c.value.action);
      done := done + {id};
    }
    assert done == group.Keys;
    ok := true;
  }

  /** The loop over the current ids of a pruned kind. */
  method PlanDeletes(s: Store, b: Bundle, prune: set<Kind>, kind: Kind, current: map<string, Value>, incl: bool,
                     changes0: seq<Change>, t0: Summary) returns (changes: seq<Change>, t: Summary)
    requires WellFormed(s) ==> forall id :: Get(s, (kind, id)) == if id in current then Some(current[id]) else None
    requires kind in prune && !kind.Unsupported?
    requires WellFormed(s) ==> KindPlan(s, b, prune, kind, incl, Group(b, kind).Keys, changes0, t0)
    ensures WellFormed(s) ==> KindPlan(s, b, prune, kind, incl, Group(b, kind).Keys + current.Keys, changes, t)
  {
    changes, t := changes0, t0;
    var keep, todo := Group(b, kind).Keys, current.Keys;
    ghost var done := keep;
    assert keep + (current.Keys - todo) == done;
    while todo != {}
      invariant todo <= current.Keys && done == keep + (current.Keys - todo)
      invariant WellFormed(s) ==> KindPlan(s, b, prune, kind, incl, done, changes, t)
    {
      var id :| id in todo;
      LookedAt(keep, current.Keys, todo, id);
      if id !in keep {
        var c := Change((kind, id), Remove, Some(current[id]), None);
        if WellFormed(s) {
          RemoveChangeOk(s, b, prune, kind, id, current[id]);
          KindPlanStep(s, b, prune, kind, incl, done, changes, t, c);
        }
        changes, t := changes + [c], Record(t, Remove);
      }
      done := done + {id};
      todo := todo - {id};
    }
    assert done == keep + current.Keys;
  }

  lemma {:induction false} LookedAt(keep: set<string>, all: set<string>, todo: set<string>, id: string)
    requires id in todo && todo <= all
    ensures keep + (all - (todo - {id})) == keep + (all - todo) + {id}
    ensures id in keep ==> keep + (all - todo) + {id} == keep + (all - todo)
    ensures id !in keep ==> id !in keep + (all - todo)
  {
  }

  lemma {:induction false} RemoveChangeOk(s: Store, b: Bundle, prune: set<Kind>, kind: Kind, id: string, v: Value)
    requires id !in Group(b, kind) && kind in prune && !kind.Unsupported? && Get(s, (kind, id)) == Some(v)
    ensures ChangeOk(s, b, prune, Change((kind, id), Remove, Some(v), None))
  {
  }

  /** Without pruning, the ids that are only in the store get no entry. */
  lemma {:induction false} UnprunedIdsAreSilent(s: Store, b: Bundle, prune: set<Kind>, kind: Kind, incl: bool,
                                                changes: seq<Change>, t: Summary)
    requires KindPlan(s, b, prune, kind, incl, Group(b, kind).Keys, changes, t)
    requires kind !in prune
    ensures KindPlan(s, b, prune, kind, incl, Mentioned(s, b, kind), changes, t)
  {
    var some, all := Group(b, kind).Keys, Mentioned(s, b, kind);
    assert forall id :: PlanAction(s, b, prune, (kind, id)).Some? ==> id in some;
    assert forall a :: Having(s, b, prune, kind, all, a) == Having(s, b, prune, kind, some, a);
    assert ShownKeys(s, b, prune, kind, all, incl) == ShownKeys(s, b, prune, kind, some, incl);
  }

  method PlanKind(s: Store, b: Bundle, prune: set<Kind>, kind: Kind, incl: bool, show: Value -> string)
    returns (ok: bool, changes: seq<Change>, t: Summary)
    requires !kind.Unsupported?
    ensures ok <==> KindPreviewable(b, kind)
    ensures WellFormed(s) && ok ==> KindPlan(s, b, prune, kind, incl, Mentioned(s, b, kind), changes, t)
  {
    var current := CurrentById(s, kind, show);
    if WellFormed(s) {
      forall id ensures Get(s, (kind, id)) == if id in current then Some(current[id]) else None {
        IdsOfHas(s, kind, id);
      }
    }
    ok, changes, t := PlanWrites(s, b, prune, kind, current, incl);
    if !ok { return; }
    if kind in prune {
      changes, t := PlanDeletes(s, b, prune, kind, current, incl, changes, t);
    } else if WellFormed(s) {
      UnprunedIdsAreSilent(s, b, prune, kind, incl, changes, t);
    }
  }

  // ---------------------------------------------------------------- the whole plan

  /** The keys a plan over the given kinds lists. */
  ghost predicate ListedKeys(s: Store, b: Bundle, prune: set<Kind>, kinds: seq<Kind>, incl: bool, keys: set<Key>) {
    forall key: Key :: key in keys <==> key.0 in kinds && Shown(PlanAction(s, b, prune, key), incl)
  }

  /** The summaries: one per kind of which the plan says anything, and it is the kind's tally. */
  ghost predicate Summarized(s: Store, b: Bundle, prune: set<Kind>, kinds: seq<Kind>, summary: map<Kind, Summary>) {
    forall kind ::
      if kind in summary then kind in kinds && summary[kind] == Tally(s, b, prune, kind, Mentioned(s, b, kind))
      else kind in kinds ==> Tally(s, b, prune, kind, Mentioned(s, b, kind)) == Summary(0, 0, 0, 0)
  }

  lemma {:induction false} ListedKeysStep(s: Store, b: Bundle, prune: set<Kind>, kinds: seq<Kind>, incl: bool,
                                          keys: set<Key>, kind: Kind)
    requires ListedKeys(s, b, prune, kinds, incl, keys) && kind !in kinds
    ensures var more := ShownKeys(s, b, prune, kind, Mentioned(s, b, kind), incl);
            keys !! more && ListedKeys(s, b, prune, kinds + [kind], incl, keys + more)
  {
    var more := ShownKeys(s, b, prune, kind, Mentioned(s, b, kind), incl);
    forall key: Key ensures key in more <==> key.0 == kind && Shown(PlanAction(s, b, prune, key), incl) {
      if key.0 == kind && Shown(PlanAction(s, b, prune, key), incl) {
        assert key == (kind, key.1);
        PlannedIsMentioned(s, b, prune, kind, key.1);
      }
    }
  }

  /** A kind that is neither in the bundle nor pruned has nothing in the plan. */
  lemma {:induction false} SilentKind(s: Store, b: Bundle, prune: set<Kind>, kind: Kind, incl: bool)
    requires kind !in b.resources && kind !in prune
    ensures Tally(s, b, prune, kind, Mentioned(s, b, kind)) == Summary(0, 0, 0, 0)
    ensures ShownKeys(s, b, prune, kind, Mentioned(s, b, kind), incl) == {}
  {
    assert forall id :: PlanAction(s, b, prune, (kind, id)) == None;
    assert forall a :: Having(s, b, prune, kind, Mentioned(s, b, kind), a) == {};
  }

  /** Everything in the bundle parses; unlike apply, a preview does not refuse an empty id. */
  ghost predicate Previewable(b: Bundle) {
    forall kind, id :: id in Group(b, kind) ==> DecodeObject(Group(b, kind)[id]).Some?
  }

  /** Apply accepts exactly the previewable bundles without an empty id. */
  lemma {:induction false} ApplicableIff(b: Bundle)
    ensures Applicable(b) <==> Previewable(b) && forall kind :: "" !in Group(b, kind)
  {
  }

  /** The smallest bundle that a preview accepts, as a creation, and apply refuses. */
  lemma {:induction false} EmptyIdIsPreviewedOnly()
    ensures var b := Bundle(map[Routes := map["" := Text(Object(map[]))]], {});
            Previewable(b) && !Applicable(b) && PlanAction(map[], b, {}, (Routes, "")) == Some(Create)
  {
    var b := Bundle(map[Routes := map["" := Text(Object(map[]))]], {});
    assert "" in Group(b, Routes);
    ApplicableIff(b);
  }

  predicate KindPreviewable(b: Bundle, kind: Kind) {
    forall id :: id in Group(b, kind) ==> DecodeObject(Group(b, kind)[id]).Some?
  }

  lemma {:induction false} AllKindsPreviewable(b: Bundle)
    ensures Previewable(b) <==> forall kind :: kind in APPLY_ORDER ==> KindPreviewable(b, kind)
  {
    forall kind, id | id in Group(b, kind) ensures kind in APPLY_ORDER {
      OrderCoversSupported(kind);
    }
  }

  /** The plan over the kinds looked at so far. */
  ghost predicate PlanSoFar(s: Store, b: Bundle, prune: set<Kind>, kinds: seq<Kind>, incl: bool,
                            changes: seq<Change>, summary: map<Kind, Summary>, keys: set<Key>) {
    && Lists(s, b, prune, changes, keys) && ListedKeys(s, b, prune, kinds, incl, keys)
    && Summarized(s, b, prune, kinds, summary)
  }

  lemma {:induction false} PlanStep(s: Store, b: Bundle, prune: set<Kind>, kinds: seq<Kind>, incl: bool,
                                    changes: seq<Change>,
                 summary: map<Kind, Summary>, keys: set<Key>, kind: Kind, these: seq<Change>, t: Summary)
    requires PlanSoFar(s, b, prune, kinds, incl, changes, summary, keys) && kind !in kinds
    requires KindPlan(s, b, prune, kind, incl, Mentioned(s, b, kind), these, t)
    ensures PlanSoFar(s, b, prune, kinds + [kind], incl, changes + these,
                      if t != Summary(0, 0, 0, 0) then summary[kind := t] else summary,
                      keys + ShownKeys(s, b, prune, kind, Mentioned(s, b, kind), incl))
  {
    ListedKeysStep(s, b, prune, kinds, incl, keys, kind);
    ListsConcat(s, b, prune, changes, keys, these, ShownKeys(s, b, prune, kind, Mentioned(s, b, kind), incl));
  }

  lemma {:induction false} SilentPlan(s: Store, b: Bundle, prune: set<Kind>, kind: Kind, incl: bool)
    requires kind !in b.resources && kind !in prune
    ensures KindPlan(s, b, prune, kind, incl, Mentioned(s, b, kind), [], Summary(0, 0, 0, 0))
  {
    SilentKind(s, b, prune, kind, incl);
  }

  /** A plan: right in every change, one change at most for a key, and none forgotten. */
  ghost predicate IsPlan(s: Store, b: Bundle, prune: set<Kind>, incl: bool, changes: seq<Change>) {
    && (forall i :: 0 <= i < |changes| ==> ChangeOk(s, b, prune, changes[i]))
    && (forall i, j :: 0 <= i < j < |changes| ==> changes[i].key != changes[j].key)
    && (forall key: Key :: Shown(PlanAction(s, b, prune, key), incl) <==>
                           exists i :: 0 <= i < |changes| && changes[i].key == key)
  }

  lemma {:induction false} PlanDone(s: Store, b: Bundle, prune: set<Kind>, incl: bool, changes: seq<Change>,
                 summary: map<Kind, Summary>, keys: set<Key>)
    requires PlanSoFar(s, b, prune, APPLY_ORDER, incl, changes, summary, keys)
    ensures IsPlan(s, b, prune, incl, changes)
  {
    forall key: Key
      ensures Shown(PlanAction(s, b, prune, key), incl) <==> exists i :: 0 <= i < |changes| && changes[i].key == key
    {
      OrderCoversSupported(key.0);
      assert key in keys <==> exists i :: 0 <= i < |changes| && changes[i].key == key;
    }
  }

  /** The changes say of every key what has to be said, on the members of the bodies. */
  ghost predicate PlanIsRight(s: Store, b: Bundle, o: PruneOptions, incl: bool, changes: seq<Change>) {
    && (forall i :: 0 <= i < |changes| ==> Planned(s, b, o, changes[i].key, changes[i].action))
    && (forall key, a :: Planned(s, b, o, key, a) && (a != Unchanged || incl) ==>
          exists i :: 0 <= i < |changes| && changes[i].key == key && changes[i].action == a)
  }

  lemma {:induction false} PlanIsMeant(s: Store, b: Bundle, o: PruneOptions, incl: bool, changes: seq<Change>)
    requires WellFormed(s) && Previewable(b) && IsPlan(s, b, PruneKinds(b, o), incl, changes)
    ensures PlanIsRight(s, b, o, incl, changes)
  {
    forall i | 0 <= i < |changes| ensures Planned(s, b, o, changes[i].key, changes[i].action) {
      PlanMeaning(s, b, o, changes[i].key, changes[i].action);
    }
    forall key, a | Planned(s, b, o, key, a) && (a != Unchanged || incl)
      ensures exists i :: 0 <= i < |changes| && changes[i].key == key && changes[i].action == a
    {
      PlanMeaning(s, b, o, key, a);
      assert Shown(PlanAction(s, b, PruneKinds(b, o), key), incl);
      var i :| 0 <= i < |changes| && changes[i].key == key;
      assert ChangeOk(s, b, PruneKinds(b, o), changes[i]);
    }
  }

  /** BuildApplyPlan fails exactly on a body that does not parse.  The changes are those that the
      members of the bodies call for, and the summaries count them per kind. */
  method BuildApplyPlan(s: Store, b: Bundle, o: PruneOptions, incl: bool, show: Value -> string)
    returns (ok: bool, changes: seq<Change>, summary: map<Kind, Summary>)
    ensures ok <==> Previewable(b)
    ensures WellFormed(s) && ok ==> IsPlan(s, b, PruneKinds(b, o), incl, changes)
    ensures WellFormed(s) && ok ==> PlanIsRight(s, b, o, incl, changes)
    ensures WellFormed(s) && ok ==> Summarized(s, b, PruneKinds(b, o), APPLY_ORDER, summary)
  {
    var prune := PruneKinds(b, o);
    changes, summary := [], map[];
    ghost var keys: set<Key> := {};
    AllKindsPreviewable(b);
    for i := 0 to |APPLY_ORDER|
      invariant forall kind :: kind in APPLY_ORDER[..i] ==> KindPreviewable(b, kind)
      invariant WellFormed(s) ==> PlanSoFar(s, b, prune, APPLY_ORDER[..i], incl, changes, summary, keys)
    {
      var kind := APPLY_ORDER[i];
      OrderCoversSupported(kind);
      assert APPLY_ORDER[..i + 1] == APPLY_ORDER[..i] + [kind];
      var these, t := [], Summary(0, 0, 0, 0);
      if kind in b.resources || kind in prune {
        ok, these, t := PlanKind(s, b, prune, kind, incl, show);
        if !ok { return; }
      } else {
        SilentPlan(s, b, prune, kind, incl);
      }
      if WellFormed(s) { PlanStep(s, b, prune, APPLY_ORDER[..i], incl, changes, summary, keys, kind, these, t); }
      changes := changes + these;
      if t != Summary(0, 0, 0, 0) { summary := summary[kind := t]; }
      keys := keys + ShownKeys(s, b, prune, kind, Mentioned(s, b, kind), incl);
    }
    assert APPLY_ORDER[..|APPLY_ORDER|] == APPLY_ORDER;
    if WellFormed(s) {
      PlanDone(s, b, prune, incl, changes, summary, keys);
      PlanIsMeant(s, b, o, incl, changes);
    }
    ok := true;
  }
}
