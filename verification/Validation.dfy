/**
 Validation before a write (internal/controlplane/validate.go): the snapshot that a bundle would
 lead to, built without touching the store, and the structural check of that snapshot.

 Unmarshalling a body into its resource type is a fixed function of the kind and of the body
 without create_time and update_time, which no resource type has as a field.
 */
module Validation {
  import opened Json
  import opened ControlPlane
  import opened Preview

  /** A resource: the fields that validation reads, and the rest. */
  datatype Resource = Resource(id: string, nodes: Option<Value>, uri: string, uris: seq<string>, serviceId: string,
                               upstreamId: string, inline: Option<Value>, rest: Value)

  /** apisix.Snapshot, its five maps keyed by kind as well. */
  type Snapshot = map<Key, Resource>

  type Decoder = (Kind, Members) -> Option<Resource>

  /** SupportedKinds(): not the order in which apply works. */
  const SUPPORTED_ORDER: seq<Kind> := [Routes, Services, Upstreams, PluginConfigs, GlobalRules]

  /** applyResourceBody: unmarshal, then overwrite the id with the key. */
  function Read(dec: Decoder, key: Key, body: Members): Option<Resource> {
    var r := dec(key.0, Content(body));
    if r.None? then None else Some(r.value.(id := key.1))
  }

  /** A resource is named by its key, and does not depend on the timestamps of its body. */
  lemma {:induction false} ReadMeaning(dec: Decoder, key: Key, body: Members, other: Members)
    requires SameButTimes(Object(body), Object(other))
    ensures Read(dec, key, body) == Read(dec, key, other)
    ensures Read(dec, key, body).Some? ==> Read(dec, key, body).value.id == key.1
  {
    SameContentIff(body, other);
  }

  function Find(snap: Snapshot, key: Key): Option<Resource> {
    if key in snap then Some(snap[key]) else None
  }

  /** The snapshot holds what the store holds, decoded. */
  ghost predicate SnapshotOf(s: Store, dec: Decoder, snap: Snapshot) {
    forall key: Key :: if key in s then s[key].Object? && Read(dec, key, s[key].members) == Find(snap, key) != None
                       else key !in snap
  }

  ghost predicate Decodable(s: Store, dec: Decoder) {
    forall key :: key in s ==> s[key].Object? && Read(dec, key, s[key].members).Some?
  }

  /** snapshotFromStore. */
  method SnapshotFromStore(s: Store, dec: Decoder, show: Value -> string) returns (ok: bool, snap: Snapshot)
    ensures WellFormed(s) ==> (ok <==> Decodable(s, dec))
    ensures WellFormed(s) && ok ==> SnapshotOf(s, dec, snap)
  {
    snap := map[];
    var todo := s.Keys;
    while todo != {}
      invariant todo <= s.Keys
      invariant WellFormed(s) ==> forall key :: key in s && key !in todo ==> Read(dec, key, s[key].members).Some?
      invariant WellFormed(s) ==> forall key: Key ::
                  Find(snap, key) == if key in s && key !in todo then Read(dec, key, s[key].members) else None
    {
      var item :| item in todo;
      var id := ExtractId(Text(s[item]), show);
      if id.None? { return false, snap; }
      if id.value != "" {
        var r := Read(dec, (item.0, id.value), DecodeObject(Text(s[item])).value);
        if r.None? { return false, snap; }
        snap := snap[(item.0, id.value) := r.value];
      }
      todo := todo - {item};
    }
    ok := true;
  }

  // ---------------------------------------------------------------- the snapshot of a bundle

  /** What ValidateBundle makes of a key. */
  predicate KeyStaged(base: Snapshot, b: Bundle, prune: set<Kind>, dec: Decoder, snap: Snapshot, key: Key) {
    if InBundle(b, key) then
      var body := WithId(Group(b, key.0)[key.1], key.1);
      body.Some? && key in snap && Read(dec, key, body.value) == Some(snap[key])
    else if key.0 in prune && !key.0.Unsupported? then key !in snap
    else Find(snap, key) == Find(base, key)
  }

  ghost predicate Staged(base: Snapshot, b: Bundle, prune: set<Kind>, dec: Decoder, snap: Snapshot) {
    forall key: Key :: KeyStaged(base, b, prune, dec, snap, key)
  }

  /** Every body of the bundle parses and decodes. */
  predicate KindStageable(b: Bundle, dec: Decoder, kind: Kind) {
    forall id :: id in Group(b, kind) ==>
      var body := WithId(Group(b, kind)[id], id); body.Some? && Read(dec, (kind, id), body.value).Some?
  }

  /** The loop over the bodies of one kind. */
  method StageGroup(base: Snapshot, kind: Kind, group: map<string, Raw>, dec: Decoder)
    returns (ok: bool, snap: Snapshot)
    ensures ok <==> forall id :: id in group ==>
                      var body := WithId(group[id], id); body.Some? && Read(dec, (kind, id), body.value).Some?
    ensures ok ==> forall key: Key :: Find(snap, key) == if key.0 == kind && key.1 in group
                                                         then Read(dec, key, WithId(group[key.1], key.1).value)
                                                         else Find(base, key)
  {
    snap := base;
    var todo := group.Keys;
    while todo != {}
      invariant todo <= group.Keys
      invariant forall id :: id in group && id !in todo ==>
                  var body := WithId(group[id], id); body.Some? && Read(dec, (kind, id), body.value).Some?
      invariant forall key: Key :: Find(snap, key) == if key.0 == kind && key.1 in group && key.1 !in todo
                                                      then Read(dec, key, WithId(group[key.1], key.1).value)
                                                      else Find(base, key)
    {
      var id :| id in todo;
      var body := WithId(group[id], id);
      if body.None? { return false, snap; }
      var r := Read(dec, (kind, id), body.value);
      if r.None? { return false, snap; }
      snap := snap[(kind, id) := r.value];
      todo := todo - {id};
    }
    ok := true;
  }

  /** One kind of the bundle, staged into the snapshot. */
  method StageKind(base: Snapshot, b: Bundle, prune: set<Kind>, kind: Kind, dec: Decoder)
    returns (ok: bool, snap: Snapshot)
    requires !kind.Unsupported?
    ensures ok <==> KindStageable(b, dec, kind)
    ensures ok ==> forall key: Key :: if key.0 == kind then KeyStaged(base, b, prune, dec, snap, key)
                                      else Find(snap, key) == Find(base, key)
  {
    var group := Group(b, kind);
    ok, snap := StageGroup(base, kind, group, dec);
    if !ok { return; }
    if kind in prune {
      snap := RemoveMissing(snap, kind, group.Keys);
    }
    forall key: Key | key.0 == kind ensures KeyStaged(base, b, prune, dec, snap, key) {
      assert key == (kind, key.1);
    }
  }

  /** The prune loop over snapshotResourceIDs. */
  method RemoveMissing(base: Snapshot, kind: Kind, keep: set<string>) returns (snap: Snapshot)
    ensures forall key: Key :: Find(snap, key) == if key.0 == kind && key.1 !in keep then None else Find(base, key)
  {
    snap := base;
    var existing := set key | key in base && key.0 == kind;
    var todo := existing;
    while todo != {}
      invariant todo <= existing
      invariant forall key: Key :: Find(snap, key) ==
                  if key.0 == kind && key.1 !in keep && key !in todo then None else Find(base, key)
    {
      var key :| key in todo;
      if key.1 !in keep { snap := snap - {key}; }
      todo := todo - {key};
    }
  }

  lemma {:induction false} OrderCovers(kind: Kind)
    ensures kind in SUPPORTED_ORDER <==> !kind.Unsupported?
  {
    match kind
    case Routes => assert SUPPORTED_ORDER[0] == kind;
    case Services => assert SUPPORTED_ORDER[1] == kind;
    case Upstreams => assert SUPPORTED_ORDER[2] == kind;
    case PluginConfigs => assert SUPPORTED_ORDER[3] == kind;
    case GlobalRules => assert SUPPORTED_ORDER[4] == kind;
    case Unsupported(_) =>
  }

  ghost predicate StageProgress(base: Snapshot, b: Bundle, prune: set<Kind>, dec: Decoder, snap: Snapshot,
                                done: seq<Kind>) {
    forall key: Key :: if key.0 in done then KeyStaged(base, b, prune, dec, snap, key)
                       else Find(snap, key) == Find(base, key)
  }

  lemma {:induction false} StageStep(base: Snapshot, b: Bundle, prune: set<Kind>, dec: Decoder, snap: Snapshot,
                                     done: seq<Kind>,
                  kind: Kind, next: Snapshot)
    requires StageProgress(base, b, prune, dec, snap, done) && kind !in done
    requires forall key: Key :: if key.0 == kind then KeyStaged(snap, b, prune, dec, next, key)
                                else Find(next, key) == Find(snap, key)
    ensures StageProgress(base, b, prune, dec, next, done + [kind])
  {
    forall key: Key
      ensures if key.0 in done + [kind] then KeyStaged(base, b, prune, dec, next, key)
              else Find(next, key) == Find(base, key)
    {
      assert if key.0 == kind then KeyStaged(snap, b, prune, dec, next, key) else Find(next, key) == Find(snap, key);
      assert if key.0 in done then KeyStaged(base, b, prune, dec, snap, key) else Find(snap, key) == Find(base, key);
    }
  }

  ghost predicate Stageable(b: Bundle, dec: Decoder) {
    forall kind :: KindStageable(b, dec, kind)
  }

  /** The snapshot that ValidateBundle goes on to check. */
  method StageBundle(s: Store, b: Bundle, o: PruneOptions, dec: Decoder, show: Value -> string)
    returns (ok: bool, snap: Snapshot, ghost base: Snapshot)
    ensures WellFormed(s) ==> (ok <==> Decodable(s, dec) && Stageable(b, dec))
    ensures WellFormed(s) && ok ==> SnapshotOf(s, dec, base) && Staged(base, b, PruneKinds(b, o), dec, snap)
  {
    ok, snap := SnapshotFromStore(s, dec, show);
    base := snap;
    if !ok { return; }
    var prune := PruneKinds(b, o);
    for i := 0 to |SUPPORTED_ORDER|
      invariant StageProgress(base, b, prune, dec, snap, SUPPORTED_ORDER[..i])
      invariant forall kind :: kind in SUPPORTED_ORDER[..i] ==> KindStageable(b, dec, kind)
    {
      var kind := SUPPORTED_ORDER[i];
      OrderCovers(kind);
      assert SUPPORTED_ORDER[..i + 1] == SUPPORTED_ORDER[..i] + [kind];
      ghost var before := snap;
      ok, snap := StageKind(snap, b, prune, kind, dec);
      if !ok { return; }
      StageStep(base, b, prune, dec, before, SUPPORTED_ORDER[..i], kind, snap);
    }
    assert SUPPORTED_ORDER[..|SUPPORTED_ORDER|] == SUPPORTED_ORDER;
    forall kind ensures KindStageable(b, dec, kind) { OrderCovers(kind); }
    forall key: Key ensures KeyStaged(base, b, prune, dec, snap, key) { OrderCovers(key.0); }
    ok := true;
  }

  lemma {:induction false} WrittenReadsAsStaged(s: Store, key: Key, body: Raw, v: Value, dec: Decoder)
    requires Written(s, key, body, v)
    ensures WithId(body, key.1).Some? && Read(dec, key, v.members) == Read(dec, key, WithId(body, key.1).value)
  {
    WrittenContent(s, key, body, v);
  }

  /** Validation commutes with apply: the snapshot that validation stages is the one that reading
      the store gives after the same bundle has been applied with the same prune options, although
      the two walk the kinds in different orders. */
  lemma {:induction false} ValidationCommutes(s: Store, s': Store, b: Bundle, prune: set<Kind>, dec: Decoder,
                                              base: Snapshot, snap: Snapshot)
    requires WellFormed(s) && Applicable(b) && Applied(s, s', b, prune)
    requires SnapshotOf(s, dec, base) && Staged(base, b, prune, dec, snap)
    ensures SnapshotOf(s', dec, snap)
  {
    AppliedIsTouched(s, s', b, prune);
    TouchedIsWellFormed(s, s', b, prune);
    forall key: Key
      ensures if key in s' then s'[key].Object? && Read(dec, key, s'[key].members) == Find(snap, key) != None
              else key !in snap
    {
      assert KeyApplied(s, s', b, prune, key) && KeyStaged(base, b, prune, dec, snap, key);
      if InBundle(b, key) {
        WrittenReadsAsStaged(s, key, Group(b, key.0)[key.1], s'[key], dec);
      } else if !(key.0 in prune && !key.0.Unsupported?) {
        assert Get(s', key) == Get(s, key) && Find(snap, key) == Find(base, key);
        assert key in s <==> key in s';
      }
    }
  }

  /** A store has one snapshot. */
  lemma {:induction false} SnapshotIsUnique(s: Store, dec: Decoder, a: Snapshot, b: Snapshot)
    requires SnapshotOf(s, dec, a) && SnapshotOf(s, dec, b)
    ensures a == b
  {
    forall key: Key ensures Find(a, key) == Find(b, key) {
    }
    assert forall key: Key :: key in a <==> Find(a, key).Some?;
    assert forall key: Key :: key in b <==> Find(b, key).Some?;
    forall key | key in a ensures key in b && a[key] == b[key] {
      assert Find(a, key) == Find(b, key);
    }
  }
}
