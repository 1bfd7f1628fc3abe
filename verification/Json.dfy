/**
 JSON values, and the merge that Service.Patch performs (mergeObject of
 internal/controlplane/controlplane.go) against MergePatch of section 2 of RFC 7396.
 */
module Json {

  datatype Value =
    | Null
    | Bool(b: bool)
    | Number(n: real)
    | String(s: string)
    | Array(items: seq<Value>)
    | Object(members: map<string, Value>)

  type Members = map<string, Value>

  /** A member of an object, or its absence. */
  datatype Member = Absent | Present(value: Value)

  function Look(m: Members, key: string): Member {
    if key in m then Present(m[key]) else Absent
  }

  /** Two objects with the same members are equal. */
  lemma {:induction false} SameMembers(a: Members, b: Members)
    requires forall key :: Look(a, key) == Look(b, key)
    ensures a == b
  {
    assert forall key :: key in a <==> Look(a, key).Present?;
    assert forall key :: key in b <==> Look(b, key).Present?;
    assert a.Keys == b.Keys;
    forall key | key in a ensures a[key] == b[key] {
      assert Look(a, key) == Look(b, key);
    }
  }

  // ---------------------------------------------------------------- the code

  /** What mergeObject leaves under one key, given what is there and what the patch says. */
  function MergeMember(base: Member, patch: Value): Member
    decreases patch, 1
  {
    if patch.Null? then Absent
    else if base.Present? && base.value.Object? && patch.Object? then Present(Merge(base.value, patch))
    else Present(patch)
  }

  /** mergeObject. */
  function Merge(base: Value, patch: Value): Value
    requires base.Object? && patch.Object?
    decreases patch, 0
  {
    Object(map key | key in base.members.Keys + patch.members.Keys &&
                     (key in patch.members ==> MergeMember(Look(base.members, key), patch.members[key]).Present?)
                   :: if key in patch.members then MergeMember(Look(base.members, key), patch.members[key]).value
                      else base.members[key])
  }

  // ---------------------------------------------------------------- the standard

  /** MergePatch(Target, Patch) of RFC 7396, section 2; Absent is an undefined target. */
  function MergePatch(target: Member, patch: Value): Value
    decreases patch
  {
    if !patch.Object? then patch
    else
      var base: Members := if target.Present? && target.value.Object? then target.value.members else map[];
      Object(map key | key in base.Keys + patch.members.Keys &&
                       (key in patch.members ==> !patch.members[key].Null?)
                     :: if key in patch.members then MergePatch(Look(base, key), patch.members[key]) else base[key])
  }

  // ---------------------------------------------------------------- where they agree

  /** No null is a member of an object anywhere in the value (arrays are opaque to both). */
  predicate NoNullMember(v: Value)
    decreases v
  {
    v.Object? ==> forall key :: key in v.members ==> !v.members[key].Null? && NoNullMember(v.members[key])
  }

  /** No null lies inside a patch object that lands on a missing or non-object base member. */
  predicate Clean(base: Value, patch: Value)
    requires base.Object? && patch.Object?
    decreases patch
  {
    forall key :: key in patch.members && patch.members[key].Object? ==>
      var b := Look(base.members, key);
      if b.Present? && b.value.Object? then Clean(b.value, patch.members[key]) else NoNullMember(patch.members[key])
  }

  lemma {:induction false} MergeAt(base: Value, patch: Value, key: string)
    requires base.Object? && patch.Object?
    ensures Look(Merge(base, patch).members, key) ==
            if key in patch.members then MergeMember(Look(base.members, key), patch.members[key])
            else Look(base.members, key)
  {
  }

  lemma {:induction false} MergePatchAt(target: Member, patch: Value, key: string)
    requires patch.Object?
    ensures MergePatch(target, patch).Object?
    ensures var base := if target.Present? && target.value.Object? then target.value.members else map[];
            Look(MergePatch(target, patch).members, key) ==
            if key in patch.members
            then if patch.members[key].Null? then Absent
                 else Present(MergePatch(Look(base, key), patch.members[key]))
            else Look(base, key)
  {
  }

  /** A patch value that lands on nothing to merge with survives MergePatch unchanged exactly when
      it has no null member; the code always keeps it unchanged. */
  lemma {:induction false} LandingIff(target: Member, v: Value)
    requires !(target.Present? && target.value.Object?)
    ensures MergePatch(target, v) == v <==> NoNullMember(v)
    decreases v
  {
    if v.Object? {
      forall key | key in v.members
        ensures MergePatch(Absent, v.members[key]) == v.members[key] <==> NoNullMember(v.members[key])
      {
        LandingIff(Absent, v.members[key]);
      }
      var r := MergePatch(target, v);
      forall key
        ensures Look(r.members, key) ==
                if key in v.members && !v.members[key].Null?
                then Present(MergePatch(Absent, v.members[key])) else Absent
      {
        MergePatchAt(target, v, key);
        assert Look(map[], key) == Absent;
      }
      if NoNullMember(v) {
        forall key ensures Look(r.members, key) == Look(v.members, key) {
        }
        SameMembers(r.members, v.members);
      }
      if r == v {
        forall key | key in v.members ensures !v.members[key].Null? && NoNullMember(v.members[key]) {
          assert Look(r.members, key) == Present(v.members[key]);
        }
      }
    }
  }

  /** Per key, the code agrees with the standard exactly under the clause of Clean. */
  predicate CleanAt(base: Value, patch: Value, key: string)
    requires base.Object? && patch.Object?
  {
    key in patch.members && patch.members[key].Object? ==>
      var b := Look(base.members, key);
      if b.Present? && b.value.Object? then Clean(b.value, patch.members[key]) else NoNullMember(patch.members[key])
  }

  lemma {:induction false} MemberAgreesIff(base: Value, patch: Value, key: string)
    requires base.Object? && patch.Object? && key in patch.members
    ensures Look(Merge(base, patch).members, key) == Look(MergePatch(Present(base), patch).members, key)
            <==> CleanAt(base, patch, key)
    decreases patch, 0
  {
    MergeAt(base, patch, key);
    MergePatchAt(Present(base), patch, key);
    var b, p := Look(base.members, key), patch.members[key];
    if p.Object? {
      if b.Present? && b.value.Object? {
        MergeAgreesIff(b.value, p);
      } else {
        LandingIff(b, p);
      }
    }
  }

  /** Patch merge is RFC 7396's MergePatch if and only if no null lies inside a patch object that
      lands on a missing or non-object member. */
  lemma {:induction false} MergeAgreesIff(base: Value, patch: Value)
    requires base.Object? && patch.Object?
    ensures Merge(base, patch) == MergePatch(Present(base), patch) <==> Clean(base, patch)
    decreases patch, 1
  {
    var r, r' := Merge(base, patch), MergePatch(Present(base), patch);
    MergePatchAt(Present(base), patch, "");
    assert Clean(base, patch) <==> forall key :: key in patch.members ==> CleanAt(base, patch, key);
    forall key
      ensures Look(r.members, key) == Look(r'.members, key) <==> (key in patch.members ==> CleanAt(base, patch, key))
    {
      if key in patch.members {
        MemberAgreesIff(base, patch, key);
      } else {
        MergeAt(base, patch, key);
        MergePatchAt(Present(base), patch, key);
      }
    }
    if Clean(base, patch) {
      SameMembers(r.members, r'.members);
    }
  }

  lemma {:induction false} SelfMergeIff(p: Value)
    requires p.Object?
    ensures Merge(p, p) == p <==> NoNullMember(p)
    decreases p
  {
    var r := Merge(p, p);
    forall key | key in p.members
      ensures Look(r.members, key) == Look(p.members, key) <==>
              !p.members[key].Null? && NoNullMember(p.members[key])
    {
      MergeAt(p, p, key);
      if p.members[key].Object? { SelfMergeIff(p.members[key]); }
    }
    forall key | key !in p.members ensures Look(r.members, key) == Look(p.members, key) {
      MergeAt(p, p, key);
    }
    if NoNullMember(p) {
      SameMembers(r.members, p.members);
    }
  }

  lemma {:induction false} MemberIdempotentIff(base: Value, patch: Value, key: string)
    requires base.Object? && patch.Object? && key in patch.members
    ensures Look(Merge(Merge(base, patch), patch).members, key) == Look(Merge(base, patch).members, key)
            <==> CleanAt(base, patch, key)
    decreases patch, 0
  {
    MergeAt(base, patch, key);
    MergeAt(Merge(base, patch), patch, key);
    var b, p := Look(base.members, key), patch.members[key];
    if p.Object? {
      if b.Present? && b.value.Object? {
        PatchTwiceIff(b.value, p);
      } else {
        SelfMergeIff(p);
      }
    }
  }

  /** Applying a patch twice equals applying it once, under exactly the same condition. */
  lemma {:induction false} PatchTwiceIff(base: Value, patch: Value)
    requires base.Object? && patch.Object?
    ensures Merge(Merge(base, patch), patch) == Merge(base, patch) <==> Clean(base, patch)
    decreases patch, 1
  {
    var once, twice := Merge(base, patch), Merge(Merge(base, patch), patch);
    assert Clean(base, patch) <==> forall key :: key in patch.members ==> CleanAt(base, patch, key);
    forall key
      ensures Look(twice.members, key) == Look(once.members, key) <==>
              (key in patch.members ==> CleanAt(base, patch, key))
    {
      if key in patch.members {
        MemberIdempotentIff(base, patch, key);
      } else {
        MergeAt(base, patch, key);
        MergeAt(once, patch, key);
      }
    }
    if Clean(base, patch) {
      SameMembers(twice.members, once.members);
    }
  }

  /** The nested null that the code keeps: {} patched with {"a": {"b": null}}. */
  lemma {:induction false} NestedNullIsKept()
    ensures var base, patch := Object(map[]), Object(map["a" := Object(map["b" := Null])]);
            && !Clean(base, patch)
            && Look(Merge(base, patch).members, "a") == Present(Object(map["b" := Null]))
            && Look(MergePatch(Present(base), patch).members, "a") == Present(Object(map[]))
  {
    var base, patch := Object(map[]), Object(map["a" := Object(map["b" := Null])]);
    var inner := patch.members["a"];
    assert "b" in inner.members;
    MergeAt(base, patch, "a");
    MergePatchAt(Present(base), patch, "a");
    assert MergePatch(Absent, inner).members == map[];
  }

  // ---------------------------------------------------------------- mergeObject, with its loops

  /** mergeObject copies the base and then edits the copy key by key, in an arbitrary order. */
  method MergeObject(base: Members, patch: Members) returns (out: Members)
    ensures Object(out) == Merge(Object(base), Object(patch))
    decreases Object(patch)
  {
    out := base;
    var todo := patch.Keys;
    while todo != {}
      invariant todo <= patch.Keys
      invariant forall key :: Look(out, key) ==
                  if key in patch && key !in todo then MergeMember(Look(base, key), patch[key]) else Look(base, key)
    {
      var key :| key in todo;
      assert Look(out, key) == Look(base, key);
      ghost var before := out;
      if patch[key].Null? {
        out := out - {key};
      } else if key in out && out[key].Object? && patch[key].Object? {
        assert patch[key] == Object(patch).members[key];
        var merged := MergeObject(out[key].members, patch[key].members);
        out := out[key := Object(merged)];
      } else {
        out := out[key := patch[key]];
      }
      assert forall k :: k != key ==> Look(out, k) == Look(before, k);
      todo := todo - {key};
    }
    forall key ensures Look(out, key) == Look(Merge(Object(base), Object(patch)).members, key) {
      MergeAt(Object(base), Object(patch), key);
    }
    SameMembers(out, Merge(Object(base), Object(patch)).members);
  }
}
