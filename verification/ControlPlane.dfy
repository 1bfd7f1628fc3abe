/**
 The control plane's resources as values: the store, request bodies, bundles, and what writing,
 pruning and exporting do to them (internal/controlplane/controlplane.go and filebundle.go).

 The clock is arbitrary: a write is a relation between the store before and after, for some
 reading of the clock.
 */
module ControlPlane {
  import opened Json

  datatype Option<+T> = None | Some(value: T)

  datatype Kind = Routes | Services | Upstreams | PluginConfigs | GlobalRules | Unsupported(name: string)

  const SUPPORTED: set<Kind> := {Routes, Services, Upstreams, PluginConfigs, GlobalRules}

  /** applyOrder(): dependencies first. */
  const APPLY_ORDER: seq<Kind> := [Upstreams, Services, PluginConfigs, GlobalRules, Routes]

  type Key = (Kind, string)
  type Store = map<Key, Value>

  /** A request or bundle body: bytes that may fail to parse. */
  datatype Raw = Malformed | Text(value: Value)

  function Get(s: Store, key: Key): Option<Value> {
    if key in s then Some(s[key]) else None
  }

  /** decodeJSONObject: null decodes to the empty object, anything but an object is an error. */
  function DecodeObject(raw: Raw): Option<Members> {
    match raw
    case Malformed => None
    case Text(Object(m)) => Some(m)
    case Text(Null) => Some(map[])
    case Text(_) => None
  }

  /** A body decodes to its members, and null to none. */
  lemma {:induction false} DecodeMeaning(raw: Raw, m: Members)
    ensures DecodeObject(raw) == Some(m) <==> raw == Text(Object(m)) || (raw == Text(Null) && m == map[])
  {
  }

  /** ExtractResourceID; `show` renders ids that are not strings. */
  function ExtractId(raw: Raw, show: Value -> string): Option<string> {
    var d := DecodeObject(raw);
    if d.None? then None
    else match Look(d.value, "id")
         case Absent => Some("")
         case Present(Null) => Some("")
         case Present(String(s)) => Some(s)
         case Present(v) => Some(show(v))
  }

  // ---------------------------------------------------------------- writing

  /** NormalizeResourceBody. */
  function WithId(raw: Raw, id: string): Option<Members> {
    var d := DecodeObject(raw);
    if d.None? then None else Some(d.value["id" := String(id)])
  }

  /** normalizeForWrite: stamps id and update_time, and keeps, takes over or sets create_time. */
  function Normalize(s: Store, key: Key, body: Raw, now: int): Option<Members> {
    var d := WithId(body, key.1);
    if d.None? then None
    else
      var stamped := d.value["update_time" := Number(now as real)];
      if "create_time" in stamped then Some(stamped)
      else if key !in s then Some(stamped["create_time" := Number(now as real)])
      else
        var existing := DecodeObject(Text(s[key]));
        if existing.None? then None
        else if "create_time" in existing.value
        then Some(stamped["create_time" := existing.value["create_time"]])
        else Some(stamped["create_time" := Number(now as real)])
  }

  /** Put on a supported kind with a non-empty id; None is an error that leaves the store alone. */
  function Put(s: Store, key: Key, body: Raw, now: int): Option<Store> {
    if key.0.Unsupported? || key.1 == "" then None
    else
      var n := Normalize(s, key, body, now);
      if n.None? then None else Some(s[key := Object(n.value)])
  }

  /** Patch merges into the current body and writes the result. */
  function Patch(s: Store, key: Key, patch: Raw, now: int): Option<Store> {
    if key !in s then None
    else
      var base, p := DecodeObject(Text(s[key])), DecodeObject(patch);
      if base.None? || p.None? then None
      else Put(s, key, Text(Merge(Object(base.value), Object(p.value))), now)
  }

  /** Delete; deleting what is not there is no error. */
  function Delete(s: Store, key: Key): Option<Store> {
    if key.0.Unsupported? || key.1 == "" then None else Some(s - {key})
  }

  // ---------------------------------------------------------------- well-formed stores

  predicate WellFormedBody(key: Key, v: Value) {
    && !key.0.Unsupported? && key.1 != ""
    && v.Object? && Look(v.members, "id") == Present(String(key.1)) && "create_time" in v.members
  }

  /** Every body carries its key as id, and a create_time. */
  predicate WellFormed(s: Store) {
    forall key :: key in s ==> WellFormedBody(key, s[key])
  }

  function CreateTime(v: Value): Member {
    if v.Object? then Look(v.members, "create_time") else Absent
  }

  /** The body of some write of `body` over the store's current entry, at some time. */
  ghost predicate Written(s: Store, key: Key, body: Raw, v: Value) {
    v.Object? && exists now: int :: Normalize(s, key, body, now) == Some(v.members)
  }

  lemma {:induction false} NormalizeOk(s: Store, key: Key, body: Raw, now: int)
    requires WellFormed(s)
    ensures Normalize(s, key, body, now).Some? <==> DecodeObject(body).Some?
  {
  }

  /** The body decodes to an object, and so does the stored one if create_time has to come from it. */
  predicate Writable(s: Store, key: Key, body: Raw) {
    && DecodeObject(body).Some?
    && ("create_time" in DecodeObject(body).value || key !in s || DecodeObject(Text(s[key])).Some?)
  }

  /** A member of a written body: the key as id, the clock as update_time, the create_time of the
      body, else of the stored resource, else the clock, and everything else as supplied. */
  function WrittenMember(s: Store, key: Key, given: Member, now: int, name: string): Member {
    var stored := if key in s then CreateTime(s[key]) else Absent;
    match name
    case "id" => Present(String(key.1))
    case "update_time" => Present(Number(now as real))
    case "create_time" =>
      if given.Present? then given
      else if stored.Present? then stored else Present(Number(now as real))
    case _ => given
  }

  /** A store after one write: the key holds the body, member by member, and no other key changes. */
  ghost predicate WroteOnly(s: Store, s': Store, key: Key, body: Raw, now: int) {
    && DecodeObject(body).Some? && key in s' && s'[key].Object?
    && (forall name ::
          Look(s'[key].members, name) == WrittenMember(s, key, Look(DecodeObject(body).value, name), now, name))
    && (forall other :: other != key ==> Get(s', other) == Get(s, other))
  }

  /** Put writes exactly if the key is supported and named and the body is writable. */
  lemma {:induction false} PutWrites(s: Store, key: Key, body: Raw, now: int)
    ensures Put(s, key, body, now).Some? <==> !key.0.Unsupported? && key.1 != "" && Writable(s, key, body)
    ensures Put(s, key, body, now).Some? ==> WroteOnly(s, Put(s, key, body, now).value, key, body, now)
  {
    if Put(s, key, body, now).Some? {
      var n, d := Normalize(s, key, body, now).value, DecodeObject(body).value;
      forall name ensures Look(n, name) == WrittenMember(s, key, Look(d, name), now, name) {
        assert "id" != "update_time" && "id" != "create_time" && "update_time" != "create_time";
      }
    }
  }

  /** The id of a posted body: its own as a string or rendered, else the generated one. */
  function PostedId(d: Members, generated: string, show: Value -> string): string {
    match Look(d, "id")
    case Absent => generated
    case Present(Null) => generated
    case Present(String(s)) => if s == "" then generated else s
    case Present(v) => if show(v) == "" then generated else show(v)
  }

  /** A member of a patched body: as the patch says, absent for a null, merged for two objects, and as
      it was for what the patch does not mention. */
  function PatchedMember(base: Members, patch: Members, name: string): Member {
    match Look(patch, name)
    case Absent => Look(base, name)
    case Present(Null) => Absent
    case Present(v) =>
      match Look(base, name)
      case Present(w) => if v.Object? && w.Object? then Present(Merge(w, v)) else Present(v)
      case Absent => Present(v)
  }

  /** A store after one patch: the key holds the patched body, member by member, and no other key changes. */
  ghost predicate PatchedOnly(s: Store, s': Store, key: Key, patch: Raw, now: int) {
    && key in s && DecodeObject(Text(s[key])).Some? && DecodeObject(patch).Some? && key in s' && s'[key].Object?
    && (var base, p := DecodeObject(Text(s[key])).value, DecodeObject(patch).value;
        forall name ::
          Look(s'[key].members, name) == WrittenMember(s, key, PatchedMember(base, p, name), now, name))
    && (forall other :: other != key ==> Get(s', other) == Get(s, other))
  }

  lemma {:induction false} PatchWrites(s: Store, key: Key, patch: Raw, now: int)
    requires Patch(s, key, patch, now).Some?
    ensures PatchedOnly(s, Patch(s, key, patch, now).value, key, patch, now)
  {
    var base, p := DecodeObject(Text(s[key])).value, DecodeObject(patch).value;
    var merged := Merge(Object(base), Object(p));
    PutWrites(s, key, Text(merged), now);
    forall name ensures Look(merged.members, name) == PatchedMember(base, p, name) {
      MergedMember(base, p, name);
    }
  }

  lemma {:induction false} MergedMember(base: Members, patch: Members, name: string)
    ensures Merge(Object(base), Object(patch)).Object?
    ensures Look(Merge(Object(base), Object(patch)).members, name) == PatchedMember(base, patch, name)
  {
  }

  lemma {:induction false} WrittenIsWellFormed(s: Store, key: Key, body: Raw, v: Value)
    requires Written(s, key, body, v) && !key.0.Unsupported? && key.1 != ""
    ensures WellFormedBody(key, v)
  {
    var now: int :| Normalize(s, key, body, now) == Some(v.members);
  }

  /** A write keeps create_time unless its body supplies one. */
  lemma {:induction false} WrittenKeepsCreateTime(s: Store, key: Key, body: Raw, v: Value)
    requires WellFormed(s) && key in s && Written(s, key, body, v)
    requires "create_time" !in DecodeObject(body).value
    ensures CreateTime(v) == CreateTime(s[key])
  {
    var now: int :| Normalize(s, key, body, now) == Some(v.members);
  }

  // ---------------------------------------------------------------- bundles

  datatype Bundle = Bundle(resources: map<Kind, map<string, Raw>>, managed: set<Kind>)

  datatype PruneOptions = PruneOptions(prune: bool, kinds: set<Kind>)

  /** normalizeResourceKindSelection: an empty selection means all five kinds. */
  function Selection(kinds: set<Kind>): set<Kind> {
    if kinds == {} then SUPPORTED else kinds
  }

  /** resolvePruneKinds: explicit kinds, else managed kinds, else the kinds of the bundle. */
  function PruneKinds(b: Bundle, o: PruneOptions): set<Kind> {
    if !o.prune then {}
    else if o.kinds != {} then Selection(o.kinds)
    else if b.managed != {} then Selection(b.managed)
    else Selection(Selection(b.resources.Keys))
  }

  function Group(b: Bundle, kind: Kind): map<string, Raw> {
    if kind in b.resources && !kind.Unsupported? then b.resources[kind] else map[]
  }

  predicate InBundle(b: Bundle, key: Key) {
    key.1 in Group(b, key.0)
  }

  /** What Apply accepts: non-empty ids and bodies that decode to objects. */
  ghost predicate Applicable(b: Bundle) {
    forall kind, id :: id in Group(b, kind) ==> id != "" && DecodeObject(Group(b, kind)[id]).Some?
  }

  /** What applying the bundle means for one key. */
  ghost predicate KeyApplied(before: Store, after: Store, b: Bundle, prune: set<Kind>, key: Key) {
    if InBundle(b, key) then key in after && Written(before, key, Group(b, key.0)[key.1], after[key])
    else if key.0 in prune && !key.0.Unsupported? then key !in after
    else Get(after, key) == Get(before, key)
  }

  /** The bundle applied as a whole. */
  ghost predicate Applied(before: Store, after: Store, b: Bundle, prune: set<Kind>) {
    forall key: Key :: KeyApplied(before, after, b, prune, key)
  }

  /** What any prefix of an apply may have done to a key: nothing, deleted it if it is not in the
      bundle and its kind is pruned, or written it if it is in the bundle. */
  ghost predicate KeyTouched(before: Store, after: Store, b: Bundle, prune: set<Kind>, key: Key) {
    || Get(after, key) == Get(before, key)
    || (!InBundle(b, key) && key.0 in prune && !key.0.Unsupported? && key !in after)
    || (InBundle(b, key) && key.1 != "" && key in after && Written(before, key, Group(b, key.0)[key.1], after[key]))
  }

  ghost predicate Touched(before: Store, after: Store, b: Bundle, prune: set<Kind>) {
    forall key: Key :: KeyTouched(before, after, b, prune, key)
  }

  lemma {:induction false} TouchedIsWellFormed(before: Store, after: Store, b: Bundle, prune: set<Kind>)
    requires WellFormed(before) && Touched(before, after, b, prune)
    ensures WellFormed(after)
  {
    forall key | key in after ensures WellFormedBody(key, after[key]) {
      assert KeyTouched(before, after, b, prune, key);
      if Get(after, key) == Get(before, key) {
        assert key in before;
      } else {
        WrittenIsWellFormed(before, key, Group(b, key.0)[key.1], after[key]);
      }
    }
  }

  lemma {:induction false} AppliedIsTouched(before: Store, after: Store, b: Bundle, prune: set<Kind>)
    requires Applicable(b) && Applied(before, after, b, prune)
    ensures Touched(before, after, b, prune)
  {
    forall key: Key ensures KeyTouched(before, after, b, prune, key) {
      assert KeyApplied(before, after, b, prune, key);
    }
  }

  // ---------------------------------------------------------------- which kinds a bundle touches

  /** A kind is pruned exactly if pruning is on and it is listed explicitly; or, nothing being listed,
      it is managed; or, nothing being managed either, the bundle names it, or is empty and the kind is
      one of the five. */
  predicate Pruned(b: Bundle, o: PruneOptions, kind: Kind) {
    && o.prune
    && (|| kind in o.kinds
        || (o.kinds == {} && kind in b.managed)
        || (o.kinds == {} && b.managed == {} &&
            (kind in b.resources || (b.resources == map[] && !kind.Unsupported?))))
  }

  lemma {:induction false} PruneFrame(b: Bundle, o: PruneOptions, kind: Kind)
    ensures kind in PruneKinds(b, o) <==> Pruned(b, o, kind)
  {
    assert b.resources == map[] <==> b.resources.Keys == {};
  }

  lemma {:induction false} UnselectedKindIsUntouched(before: Store, after: Store, b: Bundle, o: PruneOptions, key: Key)
    requires Applied(before, after, b, PruneKinds(b, o))
    requires key.0 !in b.resources && key.0 !in PruneKinds(b, o)
    ensures Get(after, key) == Get(before, key)
  {
    assert KeyApplied(before, after, b, PruneKinds(b, o), key);
  }

  /** The exception: pruning with nothing selected and an empty bundle deletes every resource. */
  lemma {:induction false} EmptyBundlePrunesEverything(before: Store, after: Store)
    requires WellFormed(before)
    requires Applied(before, after, Bundle(map[], {}), PruneKinds(Bundle(map[], {}), PruneOptions(true, {})))
    ensures after == map[]
  {
    var b := Bundle(map[], {});
    forall key: Key ensures key !in after {
      assert KeyApplied(before, after, b, PruneKinds(b, PruneOptions(true, {})), key);
    }
  }

  // ---------------------------------------------------------------- export

  /** ExportBundleWithOptions over a well-formed store: the selected kinds that hold anything. */
  ghost predicate Exported(s: Store, kinds: set<Kind>, b: Bundle) {
    && b.managed == kinds
    && (forall kind :: kind in b.resources <==> kind in kinds && exists id :: (kind, id) in s)
    && (forall kind, id :: kind in b.resources ==>
          (id in b.resources[kind] <==> (kind, id) in s) &&
          (id in b.resources[kind] ==> b.resources[kind][id] == Text(s[(kind, id)])))
  }

  lemma {:induction false} ExportIsApplicable(s: Store, kinds: set<Kind>, b: Bundle)
    requires WellFormed(s) && Exported(s, kinds, b)
    ensures Applicable(b)
  {
    forall kind, id | id in Group(b, kind) ensures id != "" && DecodeObject(Group(b, kind)[id]).Some? {
      assert (kind, id) in s;
    }
  }

  /** Equal but for update_time. */
  predicate SameButUpdateTime(v: Value, w: Value) {
    v.Object? && w.Object? && v.members - {"update_time"} == w.members - {"update_time"}
  }

  lemma {:induction false} RewrittenIsSame(saved: Store, now: Store, key: Key, v: Value)
    requires WellFormed(saved) && key in saved && Written(now, key, Text(saved[key]), v)
    ensures SameButUpdateTime(v, saved[key])
  {
    var t: int :| Normalize(now, key, Text(saved[key]), t) == Some(v.members);
    var m := saved[key].members;
    assert m["id" := String(key.1)] == m;
    assert v.members == m["update_time" := Number(t as real)];
  }

  /** Applying an export with the kinds it manages restores them: in every exported kind the ids
      are those of the saved store and the bodies differ at most in update_time. */
  lemma {:induction false} RestoresExport(saved: Store, current: Store, after: Store, kinds: set<Kind>, b: Bundle,
                                          key: Key)
    requires WellFormed(saved) && Exported(saved, kinds, b)
    requires kinds <= SUPPORTED && key.0 in kinds
    requires Applied(current, after, b, PruneKinds(b, PruneOptions(true, b.managed)))
    ensures key in after <==> key in saved
    ensures key in saved ==> SameButUpdateTime(after[key], saved[key])
  {
    assert KeyApplied(current, after, b, PruneKinds(b, PruneOptions(true, b.managed)), key);
    assert key.0 in PruneKinds(b, PruneOptions(true, b.managed));
    if key in saved {
      assert (key.0, key.1) in saved;
      assert InBundle(b, key);
      RewrittenIsSame(saved, current, key, after[key]);
    } else {
      assert !InBundle(b, key);
    }
  }
}
